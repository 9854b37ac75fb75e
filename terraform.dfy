// Terraform cards (terraform.py): five tile operations, a configuration of
// operations over the seven cells of a radius-1 hexagon, its rotation and its
// application to a tile map around a centre.
module Terraforming {
  import opened Wrappers
  import opened Coordinates
  import opened HexTraversal
  import opened Tiles

  datatype Operation = Explode | Elevate | Pulverize | Melt | Comet

  /** A non-mountain tile loses one altitude; water and ice turn to sand and
      every other terrain, mountains included, to rock. */
  function ExplodeTile(t: Tile): (r: Tile)
    ensures r.altitude == (if t.terrain == Mountain then t.altitude else t.altitude - 1)
    ensures r.terrain == (if t.terrain == Water || t.terrain == Ice then Sand else Rocky)
    ensures r == t.(terrain := r.terrain, altitude := r.altitude)
  {
    var lowered := if t.terrain != Mountain then t.(altitude := t.altitude - 1) else t;
    if t.terrain == Water || t.terrain == Ice then lowered.(terrain := Sand)
    else lowered.(terrain := Rocky)
  }

  /** Mountains stay as they are; any other tile gains one altitude and turns
      to sand, except that water stays water. */
  function ElevateTile(t: Tile): (r: Tile)
    ensures t.terrain == Mountain ==> r == t
    ensures t.terrain != Mountain ==> r.altitude == t.altitude + 1
    ensures t.terrain != Mountain ==> r.terrain == (if t.terrain == Water then Water else Sand)
    ensures r == t.(terrain := r.terrain, altitude := r.altitude)
  {
    if t.terrain == Mountain then t
    else
      var raised := t.(altitude := t.altitude + 1);
      if t.terrain != Water then raised.(terrain := Sand) else raised
  }

  /** Rock turns to sand and sand to ground; nothing else changes. */
  function PulverizeTile(t: Tile): (r: Tile)
    ensures r.altitude == t.altitude
    ensures r.terrain == (if t.terrain == Rocky then Sand else if t.terrain == Sand then Ground else t.terrain)
    ensures r == t.(terrain := r.terrain, altitude := r.altitude)
  {
    if t.terrain == Rocky then t.(terrain := Sand)
    else if t.terrain == Sand then t.(terrain := Ground)
    else t
  }

  /** Sand turns to rock, ground to sand, ice to water, and water to sand one
      level lower; nothing else changes. */
  function MeltTile(t: Tile): (r: Tile)
    ensures r.altitude == (if t.terrain == Water then t.altitude - 1 else t.altitude)
    ensures t.terrain == Sand ==> r.terrain == Rocky
    ensures t.terrain == Ground ==> r.terrain == Sand
    ensures t.terrain == Ice ==> r.terrain == Water
    ensures t.terrain == Water ==> r.terrain == Sand
    ensures t.terrain == Mountain || t.terrain == Rocky ==> r == t
    ensures r == t.(terrain := r.terrain, altitude := r.altitude)
  {
    if t.terrain == Sand then t.(terrain := Rocky)
    else if t.terrain == Ground then t.(terrain := Sand)
    else if t.terrain == Ice then t.(terrain := Water)
    else if t.terrain == Water then t.(terrain := Sand, altitude := t.altitude - 1)
    else t
  }

  /** Sand and ground freeze to ice; nothing else changes. */
  function CometTile(t: Tile): (r: Tile)
    ensures r.altitude == t.altitude
    ensures r.terrain == (if t.terrain == Sand || t.terrain == Ground then Ice else t.terrain)
    ensures r == t.(terrain := r.terrain, altitude := r.altitude)
  {
    if t.terrain == Sand || t.terrain == Ground then t.(terrain := Ice) else t
  }

  function Perform(op: Operation, t: Tile): Tile
  {
    match op
    case Explode => ExplodeTile(t)
    case Elevate => ElevateTile(t)
    case Pulverize => PulverizeTile(t)
    case Melt => MeltTile(t)
    case Comet => CometTile(t)
  }

  /** Every operation changes at most a tile's terrain and altitude. */
  lemma OperationsTouchOnlyTerrainAndAltitude(op: Operation, t: Tile)
    ensures var r := Perform(op, t);
      r == t.(terrain := r.terrain, altitude := r.altitude)
  {
    match op
    case Explode =>
    case Elevate =>
    case Pulverize =>
    case Melt =>
    case Comet =>
  }

  /** Exploding always leaves sand or rock, sand exactly when the tile held water or ice. */
  lemma ExplodeLeavesSandOrRock(t: Tile)
    ensures ExplodeTile(t).terrain == Sand || ExplodeTile(t).terrain == Rocky
    ensures ExplodeTile(t).terrain == Sand <==> t.terrain == Water || t.terrain == Ice
    ensures ExplodeTile(t).altitude <= t.altitude
  {
  }

  /** A comet freezes at most once: a second comet changes nothing. */
  lemma CometIsIdempotent(t: Tile)
    ensures CometTile(CometTile(t)) == CometTile(t)
  {
  }

  /** Pulverizing settles after two blows: rock becomes ground, and a third
      blow changes nothing. */
  lemma PulverizeSettles(t: Tile)
    ensures PulverizeTile(PulverizeTile(PulverizeTile(t))) == PulverizeTile(PulverizeTile(t))
    ensures t.terrain == Rocky ==> PulverizeTile(PulverizeTile(t)).terrain == Ground
  {
  }

  /** Melting ice twice leaves sand one level lower. */
  lemma MeltingIceTwice(t: Tile)
    requires t.terrain == Ice
    ensures MeltTile(MeltTile(t)) == t.(terrain := Sand, altitude := t.altitude - 1)
  {
  }

  /** Elevating never lowers a tile, and only mountains are left unchanged. */
  lemma ElevateRaisesAllButMountains(t: Tile)
    ensures ElevateTile(t).altitude >= t.altitude
    ensures ElevateTile(t) == t <==> t.terrain == Mountain
  {
  }

  // ---- The seven-cell footprint ----

  /** The cells of a radius-1 hexagonal loop around the origin, in visiting order. */
  const FootprintCells: seq<Coords> :=
    [Coords(0, 0), Coords(-1, 1), Coords(-1, 0), Coords(0, -1), Coords(1, -1), Coords(1, 0), Coords(0, 1)]

  /** Cell i + 1 of the footprint is the direction (i + 4) mod 6 offset. */
  lemma FootprintHoldsDirections(d: int)
    requires 0 <= d < 6
    ensures FootprintCells[(d + 2) % 6 + 1] == Direction(d)
    ensures Direction(d) in FootprintCells && Direction(d) != Origin
  {
  }

  /** The spiral around the origin with radius 1 visits exactly these cells, in this order. */
  lemma {:induction false} FootprintIsTheUnitLoop()
    ensures |LoopTrace(Origin, 1)| == 7
    ensures forall i :: 0 <= i < 7 ==> LoopTrace(Origin, 1)[i].coords == FootprintCells[i]
  {
    LoopTraceLength(Origin, 1);
    var ring := seq(6, side requires 0 <= side < 6 => Visit(RingCell(Origin, 1, side, 0), LoopCoords(1, side, 0)));
    forall sides | 0 <= sides <= 6
      ensures Ring(Origin, 1, sides) == ring[..sides]
    {
      UnitRing(Origin, 1, sides, ring);
    }
    assert ring[..6] == ring;
    assert LoopTrace(Origin, 1) == [Visit(Origin, LoopCoords(0, 0, 0))] + ring;
    forall i | 0 <= i < 6
      ensures ring[i].coords == FootprintCells[i + 1]
    {
      UnitRingCell(i);
    }
  }

  /** Side s of the unit ring starts at footprint cell s + 1. */
  lemma UnitRingCell(side: int)
    requires 0 <= side < 6
    ensures RingCell(Origin, 1, side, 0) == FootprintCells[side + 1]
  {
    assert RingCell(Origin, 1, side, 0) == Origin.Add(RingOffset(1, side, 0));
    if side == 0 {
      assert RingOffset(1, side, 0) == Coords(-1, 1) && FootprintCells[1] == Coords(-1, 1);
    } else if side == 1 {
      assert RingOffset(1, side, 0) == Coords(-1, 0) && FootprintCells[2] == Coords(-1, 0);
    } else if side == 2 {
      assert RingOffset(1, side, 0) == Coords(0, -1) && FootprintCells[3] == Coords(0, -1);
    } else if side == 3 {
      assert RingOffset(1, side, 0) == Coords(1, -1) && FootprintCells[4] == Coords(1, -1);
    } else if side == 4 {
      assert RingOffset(1, side, 0) == Coords(1, 0) && FootprintCells[5] == Coords(1, 0);
    } else if side == 5 {
      assert RingOffset(1, side, 0) == Coords(0, 1) && FootprintCells[6] == Coords(0, 1);
    }
  }

  /** The first `sides` sides of a ring of radius one, one cell each. */
  lemma {:induction false} UnitRing(start: Coords, n: nat, sides: nat, ring: seq<Visit>)
    requires n == 1 && sides <= 6
    requires ring == seq(6, side requires 0 <= side < 6 => Visit(RingCell(start, n, side, 0), LoopCoords(n, side, 0)))
    ensures Ring(start, n, sides) == ring[..sides]
  {
    if sides > 0 {
      UnitRing(start, n, sides - 1, ring);
      assert Side(start, n, sides - 1) == [ring[sides - 1]];
      assert ring[..sides] == ring[..sides - 1] + [ring[sides - 1]];
    }
  }

  /** The footprint is the cell itself and its six neighbours: exactly the
      cells within distance 1. */
  lemma FootprintIsRadiusOne(c: Coords)
    ensures c in FootprintCells <==> Distance(Origin, c) <= 1
  {
    if Distance(Origin, c) <= 1 {
      assert -1 <= c.r <= 1 && -1 <= c.q <= 1 && -1 <= c.r + c.q <= 1;
      assert c == FootprintCells[0] || c == FootprintCells[1] || c == FootprintCells[2]
        || c == FootprintCells[3] || c == FootprintCells[4] || c == FootprintCells[5]
        || c == FootprintCells[6];
    }
  }

  lemma FootprintCellsAreDistinct()
    ensures forall i, j :: 0 <= i < j < 7 ==> FootprintCells[i] != FootprintCells[j]
  {
  }

  /** The position 0..5 of a direction offset, -1 for any other cell. */
  function DirectionIndex(c: Coords): (d: int)
    ensures -1 <= d < 6
    ensures 0 <= d ==> Direction(d) == c
  {
    if c == Coords(0, -1) then 0
    else if c == Coords(1, -1) then 1
    else if c == Coords(1, 0) then 2
    else if c == Coords(0, 1) then 3
    else if c == Coords(-1, 1) then 4
    else if c == Coords(-1, 0) then 5
    else -1
  }

  lemma FootprintCellIsDirection(c: Coords)
    requires c in FootprintCells && c != Origin
    ensures 0 <= DirectionIndex(c) < 6 && Direction(DirectionIndex(c)) == c
  {
  }

  lemma DirectionIndexOfDirection(d: int)
    requires 0 <= d < 6
    ensures DirectionIndex(Direction(d)) == d
  {
  }

  type Configuration = map<Coords, Option<Operation>>

  lemma ModAdd(d: int, x: int, y: int)
    ensures ((d + x) % 6 + y) % 6 == (d + x + y) % 6
  {
    var q := (d + x) / 6;
    assert (d + x) % 6 + y == (d + x + y) - 6 * q;
  }

  /** One sixth of a turn about the centre: in cube coordinates (x, y, z)
      becomes (-y, -z, -x), so direction d's offset goes to direction
      (d + 1) mod 6's. */
  function Sixth(c: Coords): Coords
  {
    Coords(-c.q, c.r + c.q)
  }

  /** j sixths of a turn about the centre, 0 <= j < 6, written out. */
  function Spin(c: Coords, j: int): Coords
    requires 0 <= j < 6
  {
    if j == 0 then c
    else if j == 1 then Coords(-c.q, c.r + c.q)
    else if j == 2 then Coords(-c.r - c.q, c.r)
    else if j == 3 then Coords(-c.r, -c.q)
    else if j == 4 then Coords(c.q, -c.r - c.q)
    else Coords(c.r + c.q, -c.r)
  }

  /** Each further sixth is one more application of `Sixth`, and the sixth
      sixth brings the cell back. */
  lemma SpinIsRepeatedSixth(c: Coords, j: int)
    requires 0 <= j < 6
    ensures Spin(c, 0) == c
    ensures j < 5 ==> Spin(c, j + 1) == Sixth(Spin(c, j))
    ensures j == 5 ==> Sixth(Spin(c, j)) == c
  {
  }

  /** s reduced below 6, for 0 <= s < 12. */
  function Wrap(s: int): int
  {
    if s < 6 then s else s - 6
  }

  lemma SpinAdd(c: Coords, i: int, j: int)
    requires 0 <= i < 6 && 0 <= j < 6
    ensures Spin(Spin(c, i), j) == Spin(c, Wrap(i + j))
  {
  }

  lemma SpinDirection(d: int, j: int)
    requires 0 <= d < 6 && 0 <= j < 6
    ensures Spin(Direction(d), j) == Direction(Wrap(d + j))
  {
  }

  lemma ModWrap(x: int, y: int)
    ensures (x + y) % 6 == Wrap(x % 6 + y % 6)
  {
    ModSum(x, y);
  }

  lemma ModWrapSmall(d: int, x: int)
    requires 0 <= d < 6
    ensures (d + x) % 6 == Wrap(d + x % 6)
  {
    ModSum(d, x);
  }

  /** Where `rotation` turns carry a cell: the centre stays, the direction d
      offset goes to direction (d + rotation) mod 6 (RotateCellOfDirection). */
  function RotateCell(c: Coords, rotation: int): Coords
  {
    Spin(c, rotation % 6)
  }

  lemma RotateCellOfDirection(d: int, rotation: int)
    requires 0 <= d < 6
    ensures RotateCell(Direction(d), rotation) == Direction((d + rotation) % 6)
  {
    SpinDirection(d, rotation % 6);
    ModWrapSmall(d, rotation);
  }

  lemma {:induction false} RotateCellStaysInFootprint(c: Coords, rotation: int)
    requires c in FootprintCells
    ensures RotateCell(c, rotation) in FootprintCells
  {
    if c != Origin {
      FootprintCellIsDirection(c);
      RotateCellOfDirection(DirectionIndex(c), rotation);
      FootprintHoldsDirections((DirectionIndex(c) + rotation) % 6);
    }
  }

  lemma FootprintClosedUnderRotation()
    ensures forall c, rotation :: c in FootprintCells ==> RotateCell(c, rotation) in FootprintCells
  {
    forall c, rotation | c in FootprintCells
      ensures RotateCell(c, rotation) in FootprintCells
    {
      RotateCellStaysInFootprint(c, rotation);
    }
  }

  lemma DirectionsAreDistinct(i: int, j: int)
    requires 0 <= i < 6 && 0 <= j < 6 && i != j
    ensures Direction(i) != Direction(j)
  {
  }

  /** Only the centre turns onto the centre. */
  lemma RotateCellKeepsCentre(c: Coords, rotation: int)
    requires c in FootprintCells
    ensures RotateCell(c, rotation) == Origin <==> c == Origin
  {
    if c != Origin {
      FootprintCellIsDirection(c);
      RotateCellOfDirection(DirectionIndex(c), rotation);
      DirectionIsUnitOffset((DirectionIndex(c) + rotation) % 6);
    }
  }

  /** Turns that differ by a multiple of six carry cells alike. */
  lemma RotateCellCongruent(c: Coords, x: int, y: int)
    requires x % 6 == y % 6
    ensures RotateCell(c, x) == RotateCell(c, y)
  {
  }

  lemma ModSum(a: int, b: int)
    ensures (a + b) % 6 == (a % 6 + b % 6) % 6
  {
    var qa, qb := a / 6, b / 6;
    var s := a % 6 + b % 6;
    assert a == 6 * qa + a % 6 && b == 6 * qb + b % 6;
    assert a + b == s + 6 * (qa + qb);
    if s < 6 {
      assert (a + b) / 6 == qa + qb;
    } else {
      assert (a + b) / 6 == qa + qb + 1;
    }
  }

  lemma RotateCellSameTurn(c: Coords, x: int, y: int)
    requires x == y
    ensures RotateCell(c, x) == RotateCell(c, y)
  {
  }

  /** Turning by x and then by y is turning by x + y. */
  lemma {:induction false} RotateCellComposes(c: Coords, x: int, y: int)
    ensures RotateCell(RotateCell(c, x), y) == RotateCell(c, x + y)
  {
    SpinAdd(c, x % 6, y % 6);
    ModWrap(x, y);
  }

  /** Turning by a multiple of six leaves every cell in place. */
  lemma {:induction false} RotateCellFullTurn(c: Coords, k: int)
    ensures RotateCell(c, 6 * k) == c
  {
    assert (6 * k) % 6 == 0;
  }

  /** The entry of cell c; every cell of the footprint has one on a card. */
  function Entry(conf: Configuration, c: Coords): Option<Operation>
  {
    if c in conf then conf[c] else None
  }

  /** The configuration after `rotation` turns: each cell takes the entry of
      the cell that turns onto it. */
  function Rotated(conf: Configuration, rotation: int): (r: Configuration)
    requires forall c :: c in FootprintCells ==> c in conf
  {
    map c | c in FootprintCells :: Entry(conf, RotateCell(c, -rotation))
  }

  /** The centre's entry stays and the entry at direction d lands at
      direction (d + rotation) mod 6. */
  lemma {:induction false} RotatedMovesEntries(conf: Configuration, rotation: int, d: int)
    requires forall c :: c in FootprintCells ==> c in conf
    requires 0 <= d < 6
    ensures Rotated(conf, rotation).Keys == set c | c in FootprintCells
    ensures Rotated(conf, rotation)[Origin] == conf[Origin]
    ensures Rotated(conf, rotation)[Direction((d + rotation) % 6)] == conf[Direction(d)]
  {
    var target := Direction((d + rotation) % 6);
    FootprintHoldsDirections((d + rotation) % 6);
    RotatedAt(conf, rotation, target);
    RotateCellUndoesTurn(d, rotation);
    assert Rotated(conf, rotation)[target] == conf[Direction(d)];
    RotatedAt(conf, rotation, Origin);
    assert RotateCell(Origin, -rotation) == Origin;
  }

  /** Turning direction d on by `rotation` and back again gives direction d. */
  lemma RotateCellUndoesTurn(d: int, rotation: int)
    requires 0 <= d < 6
    ensures RotateCell(Direction((d + rotation) % 6), -rotation) == Direction(d)
  {
    RotateCellOfDirection(d, rotation);
    RotateCellInverse(Direction(d), rotation);
  }

  /** Turning back undoes a turn. */
  lemma RotateCellInverse(c: Coords, x: int)
    ensures RotateCell(RotateCell(c, x), -x) == c
  {
    assert RotateCell(RotateCell(c, x), -x) == RotateCell(c, x + -x) by {
      RotateCellComposes(c, x, -x);
    }
    RotateCellNoTurn(c, x + -x);
  }

  lemma RotateCellNoTurn(c: Coords, x: int)
    requires x == 0
    ensures RotateCell(c, x) == c
  {
  }

  lemma RotatedKeys(conf: Configuration, rotation: int)
    requires forall c :: c in FootprintCells ==> c in conf
    ensures forall c :: c in Rotated(conf, rotation) <==> c in FootprintCells
  {
  }

  /** Undoing b turns and then a turns undoes a + b turns. */
  lemma RotateCellUndoesBoth(c: Coords, a: int, b: int)
    ensures RotateCell(RotateCell(c, -b), -a) == RotateCell(c, -(a + b))
  {
    RotateCellComposes(c, -b, -a);
    RotateCellSameTurn(c, -b + -a, -(a + b));
  }

  lemma ComposeAt(conf: Configuration, a: int, b: int, c: Coords)
    requires forall c :: c in FootprintCells ==> c in conf
    requires c in FootprintCells
    ensures Rotated(Rotated(conf, a), b)[c] == Rotated(conf, a + b)[c]
  {
    var once := Rotated(conf, a);
    RotatedKeys(conf, a);
    var back := RotateCell(c, -b);
    RotateCellStaysInFootprint(c, -b);
    RotatedAt(once, b, c);
    assert Rotated(once, b)[c] == once[back];
    RotatedAt(conf, a, back);
    assert once[back] == conf[RotateCell(back, -a)];
    RotateCellUndoesBoth(c, a, b);
    RotatedAt(conf, a + b, c);
    assert Rotated(conf, a + b)[c] == conf[RotateCell(c, -(a + b))];
  }

  /** Rotating by a then by b is rotating by a + b. */
  lemma {:induction false} RotationsCompose(conf: Configuration, a: int, b: int)
    requires forall c :: c in FootprintCells ==> c in conf
    ensures Rotated(Rotated(conf, a), b) == Rotated(conf, a + b)
  {
    RotatedKeys(conf, a);
    RotatedKeys(Rotated(conf, a), b);
    RotatedKeys(conf, a + b);
    forall c | c in FootprintCells
      ensures Rotated(Rotated(conf, a), b)[c] == Rotated(conf, a + b)[c]
    {
      ComposeAt(conf, a, b, c);
    }
  }

  lemma FullTurnAt(conf: Configuration, k: int, c: Coords)
    requires forall c :: c in FootprintCells ==> c in conf
    requires c in FootprintCells
    ensures Rotated(conf, 6 * k)[c] == conf[c]
  {
    RotatedAt(conf, 6 * k, c);
    RotateCellFullTurn(c, -k);
    RotateCellSameTurn(c, -(6 * k), 6 * -k);
  }

  /** Six turns, or any multiple of six, bring every entry back. */
  lemma {:induction false} FullTurnIsIdentity(conf: Configuration, k: int)
    requires conf.Keys == set c | c in FootprintCells
    ensures Rotated(conf, 6 * k) == conf
  {
    FootprintKeys(conf);
    RotatedKeys(conf, 6 * k);
    forall c | c in FootprintCells
      ensures Rotated(conf, 6 * k)[c] == conf[c]
    {
      FullTurnAt(conf, k, c);
    }
  }

  /** The cell that `rotation` turns onto c is a direction e, and e turned
      by `rotation % 6` faces c again. */
  lemma TurnBack(c: Coords, rotation: int) returns (e: int)
    requires c in FootprintCells && c != Origin
    ensures 0 <= e < 6
    ensures Direction(e) == RotateCell(c, -rotation)
    ensures Direction(Turn(e, rotation % 6)) == c
  {
    var x := RotateCell(c, -rotation);
    var r := rotation % 6;
    RotateCellStaysInFootprint(c, -rotation);
    RotateCellKeepsCentre(c, -rotation);
    FootprintCellIsDirection(x);
    e := DirectionIndex(x);
    assert Direction(e) == x;
    RotateCellOfDirection(e, r);
    assert Direction(Turn(e, r)) == RotateCell(x, r);
    RotateCellReturns(c, rotation);
  }

  /** Turning back by `rotation` and then on by `rotation % 6` restores every cell. */
  lemma RotateCellReturns(c: Coords, rotation: int)
    ensures RotateCell(RotateCell(c, -rotation), rotation % 6) == c
  {
    var x := -rotation + rotation % 6;
    assert RotateCell(RotateCell(c, -rotation), rotation % 6) == RotateCell(c, x) by {
      RotateCellComposes(c, -rotation, rotation % 6);
    }
    assert RotateCell(c, x) == RotateCell(c, 0) by {
      ModCancel(rotation);
      RotateCellCongruent(c, x, 0);
    }
    RotateCellNoTurn(c, 0);
  }

  lemma ModCancel(x: int)
    ensures (-x + x % 6) % 6 == 0 % 6
  {
    var q := x / 6;
    assert -x + x % 6 == 6 * -q;
  }

  /** A map that holds the centre's entry and carries the entry at each
      direction d to RotateCell(Direction(d), rotation % 6) is the rotated configuration. */
  lemma RotationLoopDone(conf: Configuration, newConfig: Configuration, rotation: int)
    requires forall c :: c in conf <==> c in FootprintCells
    requires newConfig.Keys <= conf.Keys
    requires RotationLoopInvariant(conf, newConfig, Targets(rotation % 6), 6)
    ensures newConfig == Rotated(conf, rotation)
  {
    forall c | c in FootprintCells
      ensures c in newConfig && newConfig[c] == Rotated(conf, rotation)[c]
    {
      RotationLoopCell(conf, newConfig, rotation, c);
    }
    RotationLoopKeys(conf, newConfig, rotation);
  }

  /** Every footprint cell of the finished rotation loop holds its rotated entry. */
  lemma RotationLoopCell(conf: Configuration, newConfig: Configuration, rotation: int, c: Coords)
    requires forall c :: c in conf <==> c in FootprintCells
    requires RotationLoopInvariant(conf, newConfig, Targets(rotation % 6), 6)
    requires c in FootprintCells
    ensures c in newConfig && newConfig[c] == Rotated(conf, rotation)[c]
  {
    var r := rotation % 6;
    var from := RotateCell(c, -rotation);
    assert c in Rotated(conf, rotation) && Rotated(conf, rotation)[c] == conf[from] by {
      RotatedAt(conf, rotation, c);
    }
    if c == Origin {
      assert from == Origin;
    } else {
      var e := TurnBack(c, rotation);
      assert Targets(r)[e] == c by {
        TargetAt(r, e);
      }
      assert c in newConfig && newConfig[c] == conf[Direction(e)] by {
        LoopInvariantAt(conf, newConfig, Targets(r), e);
      }
    }
  }

  /** A map inside the footprint that holds every footprint cell has the rotated configuration's keys. */
  lemma RotationLoopKeys(conf: Configuration, newConfig: Configuration, rotation: int)
    requires forall c :: c in conf <==> c in FootprintCells
    requires newConfig.Keys <= conf.Keys
    requires forall c :: c in FootprintCells ==> c in newConfig
    ensures newConfig.Keys == Rotated(conf, rotation).Keys
  {
    RotatedKeys(conf, rotation);
  }

  lemma TargetAt(r: int, e: int)
    requires 0 <= e < 6
    ensures Targets(r)[e] == Direction(Turn(e, r))
  {
  }

  /** What the rotation loop's invariant says about one written direction. */
  lemma LoopInvariantAt(conf: Configuration, newConfig: Configuration, targets: seq<Coords>, e: int)
    requires RotationLoopInvariant(conf, newConfig, targets, 6)
    requires 0 <= e < 6
    ensures targets[e] in newConfig && newConfig[targets[e]] == conf[Direction(e)]
  {
  }

  /** The direction that direction d faces after `rotation` turns. */
  function Turn(d: int, rotation: int): int
  {
    (d + rotation) % 6
  }

  /** The cells the six directions face after `r` turns, in direction order. */
  function Targets(r: int): seq<Coords>
  {
    seq(6, e requires 0 <= e < 6 => Direction(Turn(e, r)))
  }

  /** The six targets are distinct cells of the ring, none of them the centre. */
  lemma TargetsAreDistinct(r: int)
    ensures |Targets(r)| == 6
    ensures forall e :: 0 <= e < 6 ==> Targets(r)[e] != Origin
    ensures forall i, j :: 0 <= i < j < 6 ==> Targets(r)[i] != Targets(r)[j]
  {
    var t := Targets(r);
    forall e | 0 <= e < 6
      ensures t[e] != Origin
    {
      DirectionIsUnitOffset(Turn(e, r));
    }
    forall i, j | 0 <= i < j < 6
      ensures t[i] != t[j]
    {
      if Turn(i, r) != Turn(j, r) {
        DirectionsAreDistinct(Turn(i, r), Turn(j, r));
      } else {
        ModAdd(i, r, -r);
        ModAdd(j, r, -r);
      }
    }
  }

  /** What the rotation loop has built after directions 0 .. d - 1. */
  ghost predicate RotationLoopInvariant(conf: Configuration, newConfig: Configuration, targets: seq<Coords>, d: int)
  {
    && |targets| == 6 && 0 <= d <= 6
    && newConfig.Keys <= conf.Keys
    && Origin in newConfig && newConfig[Origin] == conf[Origin]
    && forall e :: 0 <= e < d ==>
      targets[e] in newConfig && Direction(e) in conf
      && newConfig[targets[e]] == conf[Direction(e)]
  }

  /** One step of the rotation loop writes a cell not written before. */
  lemma RotationStep(conf: Configuration, newConfig: Configuration, targets: seq<Coords>, d: int)
    requires forall e :: 0 <= e < 6 ==> Direction(e) in conf
    requires 0 <= d < 6
    requires RotationLoopInvariant(conf, newConfig, targets, d)
    requires targets[d] in conf && targets[d] != Origin
    requires forall e :: 0 <= e < d ==> targets[e] != targets[d]
    ensures RotationLoopInvariant(conf, newConfig[targets[d] := conf[Direction(d)]], targets, d + 1)
  {
  }

  /** One pass of the loop in `rotate`, for direction d and reduced rotation r. */
  lemma RotationBody(conf: Configuration, newConfig: Configuration, r: int, d: int)
    requires forall c :: c in conf <==> c in FootprintCells
    requires 0 <= r < 6 && 0 <= d < 6
    requires RotationLoopInvariant(conf, newConfig, Targets(r), d)
    ensures Direction(d) in conf
    ensures RotationLoopInvariant(conf, newConfig[Direction((d + r) % 6) := conf[Direction(d)]], Targets(r), d + 1)
  {
    var targets := Targets(r);
    TargetsAreDistinct(r);
    FootprintHoldsDirections((d + r) % 6);
    forall e | 0 <= e < 6
      ensures Direction(e) in conf
    {
      FootprintHoldsDirections(e);
    }
    assert Direction((d + r) % 6) == targets[d];
    RotationStep(conf, newConfig, targets, d);
  }

  /** The rotated configuration has the footprint's keys, keeps the centre and
      moves direction d to direction (d + rotation) mod 6. */
  lemma RotatedEntries(conf: Configuration, rotation: int)
    requires forall c :: c in FootprintCells ==> c in conf
    ensures Rotated(conf, rotation).Keys == set c | c in FootprintCells
    ensures Rotated(conf, rotation)[Origin] == conf[Origin]
    ensures forall d :: 0 <= d < 6 ==>
      Rotated(conf, rotation)[Direction((d + rotation) % 6)] == conf[Direction(d)]
  {
    forall d | 0 <= d < 6
      ensures Rotated(conf, rotation)[Direction((d + rotation) % 6)] == conf[Direction(d)]
    {
      RotatedMovesEntries(conf, rotation, d);
    }
    RotatedMovesEntries(conf, rotation, 0);
  }

  /** The operations in footprint order. */
  function Operations(conf: Configuration): seq<Option<Operation>>
    requires forall c :: c in FootprintCells ==> c in conf
  {
    seq(7, i requires 0 <= i < 7 => conf[FootprintCells[i]])
  }

  lemma FootprintKeys(conf: Configuration)
    requires conf.Keys == set c | c in FootprintCells
    ensures forall c :: c in conf <==> c in FootprintCells
  {
  }

  lemma RotatePermutes<T>(s: seq<T>, k: int)
    requires 0 <= k <= |s|
    ensures multiset(s[k..] + s[..k]) == multiset(s)
  {
    assert s == s[..k] + s[k..];
  }

  /** Footprint cell e + 1 is the direction (e + 4) mod 6 offset. */
  lemma FootprintRingCell(e: int)
    requires 0 <= e < 6
    ensures FootprintCells[e + 1] == Direction((e + 4) % 6)
  {
  }

  /** Turning footprint cell e + 1 by x gives footprint cell (e + x) mod 6 + 1. */
  lemma RotateRingCell(e: int, x: int)
    requires 0 <= e < 6
    ensures RotateCell(FootprintCells[e + 1], x) == FootprintCells[(e + x) % 6 + 1]
  {
    FootprintRingCell(e);
    RotateCellOfDirection((e + 4) % 6, x);
    ModAdd(e, 4, x);
    var m := (e + x + 4) % 6;
    FootprintHoldsDirections(m);
    ModAdd(e + x, 4, 2);
    ModAdd(e, x, 6);
  }

  /** Footprint cell c of the rotated configuration holds the entry of the
      cell that turns onto c. */
  lemma RotatedAt(conf: Configuration, rotation: int, c: Coords)
    requires forall c :: c in FootprintCells ==> c in conf
    requires c in FootprintCells
    ensures RotateCell(c, -rotation) in conf
    ensures c in Rotated(conf, rotation) && Rotated(conf, rotation)[c] == conf[RotateCell(c, -rotation)]
  {
    RotateCellStaysInFootprint(c, -rotation);
  }

  lemma OperationsAt(conf: Configuration, i: int)
    requires forall c :: c in FootprintCells ==> c in conf
    requires 0 <= i < 7
    ensures |Operations(conf)| == 7 && Operations(conf)[i] == conf[FootprintCells[i]]
  {
  }

  /** After the centre, entry e of the rotated operations is entry
      (e - rotation) mod 6 of the operations before; the centre stays first. */
  lemma OperationsOfRotated(conf: Configuration, rotation: int, e: int)
    requires forall c :: c in FootprintCells ==> c in conf
    requires 0 <= e < 6
    ensures Operations(Rotated(conf, rotation))[0] == Operations(conf)[0]
    ensures |Operations(conf)| == 7 && |Operations(Rotated(conf, rotation))| == 7
    ensures Operations(Rotated(conf, rotation))[1..][e] == Operations(conf)[1..][(e - rotation) % 6]
  {
    var rotated := Rotated(conf, rotation);
    var j := (e - rotation) % 6;
    var cell, source := FootprintCells[e + 1], FootprintCells[j + 1];
    RotateRingCell(e, -rotation);
    assert RotateCell(cell, -rotation) == source;
    RotatedAt(conf, rotation, cell);
    assert rotated[cell] == conf[source];
    OperationsAt(rotated, e + 1);
    OperationsAt(conf, j + 1);
    RotatedAt(conf, rotation, FootprintCells[0]);
    OperationsAt(rotated, 0);
    OperationsAt(conf, 0);
  }

  lemma ShiftIndex(e: int, x: int)
    requires 0 <= e < 6
    ensures (e - x) % 6 == (e + (-x) % 6) % 6
  {
    ModSum(e, -x);
  }

  /** A six-entry sequence whose entry e is entry (e + k) mod 6 of another
      is a rearrangement of it. */
  lemma {:induction false} CyclicShiftPermutes<T>(u: seq<T>, v: seq<T>, k: int)
    requires |u| == 6 && |v| == 6 && 0 <= k < 6
    requires forall e :: 0 <= e < 6 ==> v[e] == u[(e + k) % 6]
    ensures multiset(v) == multiset(u)
  {
    var w := u[k..] + u[..k];
    forall e | 0 <= e < 6
      ensures v[e] == w[e]
    {
      assert (e + k) % 6 == Wrap(e + k);
      if e + k < 6 {
        assert w[e] == u[e + k];
      } else {
        assert w[e] == u[e + k - 6];
      }
    }
    assert v == w;
    RotatePermutes(u, k);
  }

  /** Two seven-entry sequences with the same head whose tails are a cyclic
      shift of each other hold the same entries. */
  lemma {:induction false} ShiftedTailPermutes<T>(s: seq<T>, t: seq<T>, rotation: int)
    requires |s| == 7 && |t| == 7 && t[0] == s[0]
    requires forall e :: 0 <= e < 6 ==> t[1..][e] == s[1..][(e - rotation) % 6]
    ensures multiset(t) == multiset(s)
  {
    var k := (-rotation) % 6;
    forall e | 0 <= e < 6
      ensures t[1..][e] == s[1..][(e + k) % 6]
    {
      ShiftIndex(e, rotation);
    }
    CyclicShiftPermutes(s[1..], t[1..], k);
    assert s == [s[0]] + s[1..];
    assert t == [t[0]] + t[1..];
  }

  /** Rotation rearranges the operations without adding or losing any. */
  lemma {:induction false} RotationKeepsOperations(conf: Configuration, rotation: int)
    requires forall c :: c in FootprintCells ==> c in conf
    ensures multiset(Operations(Rotated(conf, rotation))) == multiset(Operations(conf))
  {
    var s, t := Operations(conf), Operations(Rotated(conf, rotation));
    forall e | 0 <= e < 6
      ensures t[1..][e] == s[1..][(e - rotation) % 6]
    {
      OperationsOfRotated(conf, rotation, e);
    }
    OperationsOfRotated(conf, rotation, 0);
    ShiftedTailPermutes(s, t, rotation);
  }

  /** The offset of c from the centre: `center + Offset(c, center) == c`. */
  function Offset(c: Coords, center: Coords): (o: Coords)
    ensures center.Add(o) == c
  {
    Coords(c.r - center.r, c.q - center.q)
  }

  /** The operation the configuration holds for c when centred at `center`. */
  function OperationAt(conf: Configuration, center: Coords, c: Coords): Option<Operation>
  {
    var o := Offset(c, center);
    if o in conf then conf[o] else None
  }

  function PerformIfAny(op: Option<Operation>, t: Tile): Tile
  {
    if op.Some? then Perform(op.value, t) else t
  }

  /** The map after the configuration is applied around `center`. */
  function Applied(conf: Configuration, tiles: map<Coords, Tile>, center: Coords): (r: map<Coords, Tile>)
    ensures r.Keys == tiles.Keys
  {
    map c | c in tiles :: PerformIfAny(OperationAt(conf, center, c), tiles[c])
  }

  /** The map after the operations of the cells in `cells` alone are applied. */
  function AppliedTo(conf: Configuration, tiles: map<Coords, Tile>, center: Coords, cells: seq<Coords>): (r: map<Coords, Tile>)
    ensures r.Keys == tiles.Keys
  {
    map c | c in tiles :: if Offset(c, center) in cells then PerformIfAny(OperationAt(conf, center, c), tiles[c]) else tiles[c]
  }

  /** Adding one more cell to `cells` applies its operation to the one tile at centre + cell. */
  lemma ApplyStep(conf: Configuration, tiles: map<Coords, Tile>, center: Coords, cells: seq<Coords>, cell: Coords)
    requires cell !in cells && cell in conf
    ensures var before := AppliedTo(conf, tiles, center, cells);
      var at := center.Add(cell);
      AppliedTo(conf, tiles, center, cells + [cell])
        == if at in before && conf[cell].Some? then before[at := Perform(conf[cell].value, before[at])] else before
  {
    var at := center.Add(cell);
    assert Offset(at, center) == cell;
    forall c | c in tiles && c != at
      ensures Offset(c, center) != cell
    {
    }
  }

  /** Footprint cell k comes next after the first k: applying the first k + 1
      cells is applying the first k and then cell k's operation, if any. */
  lemma ApplyNextCell(conf: Configuration, tiles: map<Coords, Tile>, center: Coords, k: int)
    requires conf.Keys == set x | x in FootprintCells
    requires 0 <= k < |FootprintCells|
    ensures var before, cell := AppliedTo(conf, tiles, center, FootprintCells[..k]), FootprintCells[k];
      var at := center.Add(cell);
      AppliedTo(conf, tiles, center, FootprintCells[..k + 1])
        == if at in before && conf[cell].Some? then before[at := Perform(conf[cell].value, before[at])] else before
  {
    var cell := FootprintCells[k];
    FootprintCellsAreDistinct();
    assert cell !in FootprintCells[..k];
    ApplyStep(conf, tiles, center, FootprintCells[..k], cell);
    assert FootprintCells[..k + 1] == FootprintCells[..k] + [cell];
  }

  /** Applying every footprint cell is applying the configuration. */
  lemma AppliedToWholeFootprint(conf: Configuration, tiles: map<Coords, Tile>, center: Coords)
    requires conf.Keys == set x | x in FootprintCells
    ensures AppliedTo(conf, tiles, center, FootprintCells[..7]) == Applied(conf, tiles, center)
  {
    assert FootprintCells[..7] == FootprintCells;
  }

  /** Only tiles within distance 1 of the centre can change. */
  lemma {:induction false} ApplyLeavesOutsideAlone(conf: Configuration, tiles: map<Coords, Tile>, center: Coords, c: Coords)
    requires conf.Keys == set x | x in FootprintCells
    requires c in tiles && Distance(center, c) > 1
    ensures Applied(conf, tiles, center)[c] == tiles[c]
  {
    FootprintIsRadiusOne(Offset(c, center));
    DistanceToOffset(center, Offset(c, center));
  }

  /** A configuration with no operations changes nothing. */
  lemma ApplyEmptyIsIdentity(conf: Configuration, tiles: map<Coords, Tile>, center: Coords)
    requires forall x :: x in conf ==> conf[x] == None
    ensures Applied(conf, tiles, center) == tiles
  {
  }

  /** The body of `rotate`: the centre keeps its entry and the entry at
      direction d moves to direction (d + rotation) mod 6. */
  method RotatedConfiguration(conf: Configuration, rotation: int) returns (newConfig: Configuration)
    requires conf.Keys == set c | c in FootprintCells
    ensures newConfig == Rotated(conf, rotation)
  {
    FootprintKeys(conf);
    var r := rotation % 6;
    ghost var targets := Targets(r);
    newConfig := map[Origin := conf[Origin]];
    for d := 0 to 6
      invariant RotationLoopInvariant(conf, newConfig, targets, d)
    {
      var result := (d + r) % 6;
      RotationBody(conf, newConfig, r, d);
      newConfig := newConfig[Direction(result) := conf[Direction(d)]];
    }
    RotationLoopDone(conf, newConfig, rotation);
  }

  /** A terraform card: an optional operation for each cell of the footprint. */
  class Terraform {
    var configuration: Configuration

    ghost predicate Valid()
      reads this
    {
      configuration.Keys == set c | c in FootprintCells
    }

    /** A card whose cell c holds `choice(c)`; the random draw is the caller's. */
    constructor (choice: Coords -> Option<Operation>)
      ensures Valid()
      ensures forall c :: c in FootprintCells ==> configuration[c] == choice(c)
    {
      var shape := HexagonalLoop(Origin, 1, (c: Coords, l: LoopCoords) => c);
      FootprintIsTheUnitLoop();
      assert shape == FootprintCells;
      configuration := map c | c in shape :: choice(c);
    }

    /** Turns the card by `rotation` sixths, negative turns included. */
    method Rotate(rotation: int)
      requires Valid()
      modifies this
      ensures Valid()
      ensures configuration == Rotated(old(configuration), rotation)
      ensures configuration[Origin] == old(configuration)[Origin]
      ensures forall d :: 0 <= d < 6 ==>
        configuration[Direction((d + rotation) % 6)] == old(configuration)[Direction(d)]
    {
      var conf := configuration;
      configuration := RotatedConfiguration(conf, rotation);
      RotatedEntries(conf, rotation);
    }

    /** Applies each cell's operation to the tile at centre + cell, skipping
        cells with no tile; every other tile is left as it was. */
    method Apply(world: TileMap, center: Coords)
      requires Valid() && world.Valid()
      modifies world
      ensures world.Valid() && world.order == old(world.order)
      ensures world.tiles == Applied(configuration, old(world.tiles), center)
    {
      ghost var start := world.tiles;
      var k := 0;
      while k < |FootprintCells|
        invariant 0 <= k <= |FootprintCells|
        invariant world.Valid() && world.order == old(world.order)
        invariant world.tiles == AppliedTo(configuration, start, center, FootprintCells[..k])
      {
        var conf := FootprintCells[k];
        var coords := center.Add(conf);
        ApplyNextCell(configuration, start, center, k);
        if coords in world.tiles {
          var operation := configuration[conf];
          if operation.Some? {
            OperationsTouchOnlyTerrainAndAltitude(operation.value, world.tiles[coords]);
            SetTile(world, coords, Perform(operation.value, world.tiles[coords]));
          }
        }
        k := k + 1;
      }
      AppliedToWholeFootprint(configuration, start, center);
    }
  }

}
