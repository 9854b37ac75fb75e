// World generation (generator.py): the hexagonal shape, altitudes from a
// bounded sample, the altitude relaxation loop and the mountain-top pass.
module Generator {
  import opened Coordinates
  import opened HexTraversal
  import opened Tiles

  /** The generator's settings. */
  datatype Settings = Settings(
    seed: int,
    radius: int,
    altitudeRange: (int, int),
    altitudeNoiseAmplitude: int,
    altitudeDensity: int,
    altitudeNoiseOctaves: int,
    altitudeMaxDifference: int)

  /** StandardGenerator's settings. */
  function StandardSettings(seed: int): Settings
  {
    Settings(seed, 40, (-5, 5), 5, 20, 4, 3)
  }

  /** The standard settings meet what `Generate` needs: a non-negative radius
      and amplitude and a positive altitude limit, so the relaxation loop ends. */
  lemma StandardSettingsAreUsable(seed: int)
    ensures var s := StandardSettings(seed);
      s.radius >= 0 && s.altitudeNoiseAmplitude >= 0 && s.altitudeMaxDifference > 0
  {
  }

  // ---- The shape ----

  /** The callback of the shape's loop: a sand tile at altitude 0. */
  function BaseTile(c: Coords, l: LoopCoords): Tile
  {
    NewTile(c, Sand, 0)
  }

  function Cells(visits: seq<Visit>): seq<Coords>
  {
    seq(|visits|, i requires 0 <= i < |visits| => visits[i].coords)
  }

  lemma ShapeTiles(visits: seq<Visit>)
    ensures |Results(BaseTile, visits)| == |visits|
    ensures forall i :: 0 <= i < |visits| ==>
      Results(BaseTile, visits)[i] == NewTile(visits[i].coords, Sand, 0)
  {
    forall i | 0 <= i < |visits|
      ensures Results(BaseTile, visits)[i] == NewTile(visits[i].coords, Sand, 0)
    {
      assert Results(BaseTile, visits)[i] == BaseTile(visits[i].coords, visits[i].loopCoords);
    }
  }

  /** The spiral's tiles carry distinct coordinates, listed in spiral order. */
  lemma ShapeListKeys(radius: nat, list: seq<Tile>)
    requires list == Results(BaseTile, LoopTrace(Origin, radius))
    ensures seq(|list|, i requires 0 <= i < |list| => list[i].coords) == Cells(LoopTrace(Origin, radius))
    ensures Distinct(Cells(LoopTrace(Origin, radius)))
  {
    ghost var trace := LoopTrace(Origin, radius);
    LoopTraceDistinct(Origin, radius);
    ShapeTiles(trace);
    assert seq(|list|, i requires 0 <= i < |list| => list[i].coords) == Cells(trace);
  }

  /** The dictionary built from the spiral's tiles holds one sand tile for
      each cell within `radius` of the origin, and nothing else. */
  lemma ShapeDictionary(radius: nat, list: seq<Tile>, tiles: map<Coords, Tile>, order: seq<Coords>)
    requires list == Results(BaseTile, LoopTrace(Origin, radius))
    requires order == Cells(LoopTrace(Origin, radius)) && Distinct(order)
    requires forall c :: c in tiles <==> c in order
    requires forall i :: 0 <= i < |list| ==> list[i].coords in tiles && tiles[list[i].coords] == list[i]
    ensures |tiles| == 3 * radius * radius + 3 * radius + 1
    ensures forall c :: c in tiles <==> Distance(Origin, c) <= radius
    ensures forall c :: c in tiles ==> tiles[c] == NewTile(c, Sand, 0)
  {
    LoopTraceLength(Origin, radius);
    EntryCount(tiles, order);
    ShapeTilesInside(radius, list, tiles, order);
    ShapeTilesCover(radius, tiles, order);
  }

  lemma ShapeTilesInside(radius: nat, list: seq<Tile>, tiles: map<Coords, Tile>, order: seq<Coords>)
    requires list == Results(BaseTile, LoopTrace(Origin, radius))
    requires order == Cells(LoopTrace(Origin, radius))
    requires forall c :: c in tiles ==> c in order
    requires forall i :: 0 <= i < |list| ==> list[i].coords in tiles && tiles[list[i].coords] == list[i]
    ensures forall c :: c in tiles ==> Distance(Origin, c) <= radius && tiles[c] == NewTile(c, Sand, 0)
  {
    ghost var trace := LoopTrace(Origin, radius);
    LoopTraceWellLabelled(Origin, radius);
    ShapeTiles(trace);
    forall c | c in tiles
      ensures Distance(Origin, c) <= radius && tiles[c] == NewTile(c, Sand, 0)
    {
      var i :| 0 <= i < |order| && order[i] == c;
      assert trace[i] in trace;
    }
  }

  lemma ShapeTilesCover(radius: nat, tiles: map<Coords, Tile>, order: seq<Coords>)
    requires order == Cells(LoopTrace(Origin, radius))
    requires forall c :: c in order ==> c in tiles
    ensures forall c :: Distance(Origin, c) <= radius ==> c in tiles
  {
    ghost var trace := LoopTrace(Origin, radius);
    forall c | Distance(Origin, c) <= radius
      ensures c in tiles
    {
      LoopTraceCovers(Origin, radius, c);
      var v :| v in trace && v.coords == c;
      var i :| 0 <= i < |trace| && trace[i] == v;
      assert order[i] == c;
    }
  }

  /** One sand tile per cell within `radius` of the origin, keyed in the
      order of the spiral. */
  method InitiateHexagonalShape(radius: int) returns (world: TileMap)
    requires radius >= 0
    ensures fresh(world) && world.Valid()
    ensures world.order == Cells(LoopTrace(Origin, radius))
    ensures |world.tiles| == 3 * radius * radius + 3 * radius + 1
    ensures forall c :: c in world.tiles <==> Distance(Origin, c) <= radius
    ensures forall c :: c in world.tiles ==> world.tiles[c] == NewTile(c, Sand, 0)
  {
    var list := HexagonalLoop(Origin, radius, BaseTile);
    ShapeListKeys(radius, list);
    world := new TileMap.FromList(list);
    ShapeDictionary(radius, list, world.tiles, world.order);
  }

  // ---- Altitudes from the noise sample ----

  function Clamp(v: int, lo: int, hi: int): (r: int)
    requires lo <= hi
    ensures lo <= r <= hi
    ensures lo <= v <= hi ==> r == v
    ensures v < lo ==> r == lo
    ensures v > hi ==> r == hi
  {
    if v < lo then lo else if v > hi then hi else v
  }

  /** The first k cells of `order` hold f of their starting tile, the others
      their starting tile. */
  ghost predicate RewrittenUpTo(start: map<Coords, Tile>, tiles: map<Coords, Tile>, order: seq<Coords>,
                                f: (Coords, Tile) -> Tile, k: int)
    requires 0 <= k <= |order|
  {
    && tiles.Keys == start.Keys
    && (forall j :: 0 <= j < k ==>
          order[j] in start && order[j] in tiles && tiles[order[j]] == f(order[j], start[order[j]]))
    && (forall j :: k <= j < |order| ==>
          order[j] in start && order[j] in tiles && tiles[order[j]] == start[order[j]])
  }

  /** Rewriting the next cell of a duplicate-free order extends the prefix by one. */
  lemma RewriteStep(start: map<Coords, Tile>, tiles: map<Coords, Tile>, order: seq<Coords>,
                    f: (Coords, Tile) -> Tile, k: int)
    requires Distinct(order) && 0 <= k < |order|
    requires RewrittenUpTo(start, tiles, order, f, k)
    ensures order[k] in tiles
    ensures RewrittenUpTo(start, tiles[order[k] := f(order[k], tiles[order[k]])], order, f, k + 1)
    ensures f(order[k], tiles[order[k]]) == tiles[order[k]] ==> RewrittenUpTo(start, tiles, order, f, k + 1)
  {
  }

  /** Once every cell of an order covering the keys is rewritten, every tile is. */
  lemma RewriteDone(start: map<Coords, Tile>, tiles: map<Coords, Tile>, order: seq<Coords>,
                    f: (Coords, Tile) -> Tile)
    requires forall c :: c in start ==> c in order
    requires RewrittenUpTo(start, tiles, order, f, |order|)
    ensures tiles.Keys == start.Keys
    ensures forall c :: c in tiles ==> tiles[c] == f(c, start[c])
  {
    forall c | c in tiles
      ensures tiles[c] == f(c, start[c])
    {
      var j :| 0 <= j < |order| && order[j] == c;
    }
  }

  /** Sets every tile's altitude to its sample clamped to the amplitude. The
      sample is the noise value already scaled by the amplitude and rounded:
      rounding is monotone and the bounds are integers, so clamping after
      scaling gives what clipping the noise to [-1, 1] before scaling gives. */
  method AssignNoiseAltitudes(world: TileMap, sample: Coords -> int, amplitude: int)
    requires world.Valid() && amplitude >= 0
    modifies world
    ensures world.Valid() && world.order == old(world.order)
    ensures world.tiles.Keys == old(world.tiles).Keys
    ensures forall c :: c in world.tiles ==>
      world.tiles[c] == old(world.tiles)[c].(altitude := Clamp(sample(c), -amplitude, amplitude))
  {
    ghost var start := world.tiles;
    ghost var rewrite := (c: Coords, t: Tile) => t.(altitude := Clamp(sample(c), -amplitude, amplitude));
    var k := 0;
    while k < |world.order|
      invariant 0 <= k <= |world.order|
      invariant world.Valid() && world.order == old(world.order)
      invariant RewrittenUpTo(start, world.tiles, world.order, rewrite, k)
    {
      var c := world.order[k];
      RewriteStep(start, world.tiles, world.order, rewrite, k);
      SetTile(world, c, world.tiles[c].(altitude := Clamp(sample(c), -amplitude, amplitude)));
      k := k + 1;
    }
    RewriteDone(start, world.tiles, world.order, rewrite);
  }

  // ---- Relaxation ----

  /** The pair of c and its neighbour in direction i are both on the map and
      differ in altitude by more than the limit. */
  predicate Steep(tiles: map<Coords, Tile>, c: Coords, i: int, maxDifference: int)
  {
    && c in tiles && c.Neighbour(i) in tiles
    && Abs(tiles[c].altitude - tiles[c.Neighbour(i)].altitude) > maxDifference
  }

  /** No two adjacent tiles differ in altitude by more than the limit. */
  ghost predicate Smooth(tiles: map<Coords, Tile>, maxDifference: int)
  {
    forall c, i :: 0 <= i < 6 ==> !Steep(tiles, c, i, maxDifference)
  }

  /** With a negative limit no map holding two adjacent tiles is smooth: every
      pass of `find_eccentricites` then reports true, since a pass keeps the
      tiles, and the relaxation loop never ends. */
  lemma NegativeLimitNeverSmooth(tiles: map<Coords, Tile>, maxDifference: int, a: Coords, d: int)
    requires maxDifference < 0 && 0 <= d < 6
    requires a in tiles && a.Neighbour(d) in tiles
    ensures !Smooth(tiles, maxDifference)
  {
    assert Steep(tiles, a, d, maxDifference);
  }

  /** The same tiles, with only altitudes possibly different. */
  ghost predicate OnlyAltitudesChanged(before: map<Coords, Tile>, after: map<Coords, Tile>)
  {
    && before.Keys == after.Keys
    && forall c :: c in after ==> after[c] == before[c].(altitude := after[c].altitude)
  }

  /** No tile's |altitude| grew. */
  ghost predicate NoHigher(before: map<Coords, Tile>, after: map<Coords, Tile>)
  {
    forall c :: c in after && c in before ==> Abs(after[c].altitude) <= Abs(before[c].altitude)
  }

  /** Some tile's |altitude| shrank. */
  ghost predicate SomeLower(before: map<Coords, Tile>, after: map<Coords, Tile>)
  {
    exists c :: c in after && c in before && Abs(after[c].altitude) < Abs(before[c].altitude)
  }

  /** The altitude the eccentric tile takes when levelled against `other`:
      it moves to exactly `maxDifference` away from `other`, on its own side. */
  function Leveled(eccentric: int, other: int, maxDifference: int): int
  {
    var diff := eccentric - other;
    if diff > 0 then eccentric - (Abs(diff) - maxDifference)
    else eccentric + (Abs(diff) - maxDifference)
  }

  /** The tile of the pair with the larger |altitude|; a tie picks `a`. */
  function Eccentric(tiles: map<Coords, Tile>, a: Coords, b: Coords): Coords
    requires a in tiles && b in tiles
  {
    if Abs(tiles[a].altitude) >= Abs(tiles[b].altitude) then a else b
  }

  function OtherOf(tiles: map<Coords, Tile>, a: Coords, b: Coords): Coords
    requires a in tiles && b in tiles
  {
    if Abs(tiles[a].altitude) >= Abs(tiles[b].altitude) then b else a
  }

  /** After levelling, the pair differs by exactly the limit. */
  lemma LevelingReachesLimit(eccentric: int, other: int, maxDifference: int)
    requires maxDifference >= 0
    ensures Abs(Leveled(eccentric, other, maxDifference) - other) == maxDifference
  {
  }

  /** Levelling a steep pair never raises the eccentric tile's |altitude|,
      and lowers it when the limit is positive. */
  lemma LevelingShrinks(eccentric: int, other: int, maxDifference: int)
    requires Abs(eccentric) >= Abs(other)
    requires Abs(eccentric - other) > maxDifference >= 0
    ensures Abs(Leveled(eccentric, other, maxDifference)) <= Abs(eccentric)
    ensures maxDifference > 0 ==> Abs(Leveled(eccentric, other, maxDifference)) < Abs(eccentric)
  {
  }

  /** Pulls the tile with the larger |altitude| back to within the limit of
      the other one; the other tile and all the rest are untouched. */
  method LevelEccentricities(world: TileMap, a: Coords, b: Coords, maxDifference: int)
    requires world.Valid() && a in world.tiles && b in world.tiles
    modifies world
    ensures world.Valid() && world.order == old(world.order)
    ensures var e, o := Eccentric(old(world.tiles), a, b), OtherOf(old(world.tiles), a, b);
      world.tiles == old(world.tiles)[e := old(world.tiles)[e].(altitude :=
        Leveled(old(world.tiles)[e].altitude, old(world.tiles)[o].altitude, maxDifference))]
  {
    var eccentricity, other;
    if Abs(world.tiles[a].altitude) >= Abs(world.tiles[b].altitude) {
      eccentricity, other := a, b;
    } else {
      eccentricity, other := b, a;
    }
    var diff := world.tiles[eccentricity].altitude - world.tiles[other].altitude;
    var altitude := world.tiles[eccentricity].altitude;
    if diff > 0 {
      altitude := altitude - (Abs(diff) - maxDifference);
    } else {
      altitude := altitude + (Abs(diff) - maxDifference);
    }
    SetTile(world, eccentricity, world.tiles[eccentricity].(altitude := altitude));
  }

  /** Changing one more altitude keeps every other part of every tile. */
  lemma AltitudeUpdateKeepsTiles(start: map<Coords, Tile>, mid: map<Coords, Tile>, e: Coords, altitude: int)
    requires OnlyAltitudesChanged(start, mid) && e in mid
    ensures OnlyAltitudesChanged(start, mid[e := mid[e].(altitude := altitude)])
  {
    var after := mid[e := mid[e].(altitude := altitude)];
    forall c | c in after
      ensures after[c] == start[c].(altitude := after[c].altitude)
    {
      if c == e {
        assert mid[e] == start[e].(altitude := mid[e].altitude);
      }
    }
  }

  /** Replacing one tile by one no higher keeps NoHigher and SomeLower, and a
      strictly lower one makes SomeLower true. */
  lemma LowerOne(before: map<Coords, Tile>, mid: map<Coords, Tile>, after: map<Coords, Tile>, e: Coords)
    requires e in mid && e in before && e in after && after == mid[e := after[e]]
    requires Abs(after[e].altitude) <= Abs(mid[e].altitude)
    ensures NoHigher(before, mid) ==> NoHigher(before, after)
    ensures SomeLower(before, mid) ==> SomeLower(before, after)
    ensures NoHigher(before, mid) && Abs(after[e].altitude) < Abs(mid[e].altitude) ==> SomeLower(before, after)
  {
    if SomeLower(before, mid) {
      var c :| c in mid && c in before && Abs(mid[c].altitude) < Abs(before[c].altitude);
      assert c in after && Abs(after[c].altitude) < Abs(before[c].altitude);
    }
  }

  /** Chaining two steps: the combined step changes only altitudes, raises
      no tile when neither raises one, and lowers one when either lowers one
      and the other raises none. */
  lemma Chain(a: map<Coords, Tile>, b: map<Coords, Tile>, c: map<Coords, Tile>)
    requires OnlyAltitudesChanged(a, b) && OnlyAltitudesChanged(b, c)
    ensures OnlyAltitudesChanged(a, c)
    ensures NoHigher(a, b) && NoHigher(b, c) ==> NoHigher(a, c)
    ensures SomeLower(a, b) && NoHigher(b, c) ==> SomeLower(a, c)
    ensures NoHigher(a, b) && SomeLower(b, c) ==> SomeLower(a, c)
  {
    forall x | x in c
      ensures c[x] == a[x].(altitude := c[x].altitude)
    {
      assert c[x] == b[x].(altitude := c[x].altitude);
      assert b[x] == a[x].(altitude := b[x].altitude);
    }
    if SomeLower(a, b) && NoHigher(b, c) {
      var x :| x in b && x in a && Abs(b[x].altitude) < Abs(a[x].altitude);
      assert x in c && Abs(c[x].altitude) < Abs(a[x].altitude);
    }
    if NoHigher(a, b) && SomeLower(b, c) {
      var x :| x in c && x in b && Abs(c[x].altitude) < Abs(b[x].altitude);
      assert Abs(c[x].altitude) < Abs(a[x].altitude);
    }
  }

  /** The inner loop of one pass: levels c against each of its neighbours in
      direction order whenever the two are (by then) steep. It levels
      something exactly when some neighbour of c was steep at the start. */
  method LevelAround(world: TileMap, c: Coords, maxDifference: int) returns (levelled: bool)
    requires world.Valid() && c in world.tiles
    modifies world
    ensures world.Valid() && world.order == old(world.order)
    ensures OnlyAltitudesChanged(old(world.tiles), world.tiles)
    ensures !levelled ==> world.tiles == old(world.tiles)
    ensures !levelled <==> forall i :: 0 <= i < 6 ==> !Steep(old(world.tiles), c, i, maxDifference)
    ensures maxDifference >= 0 ==> NoHigher(old(world.tiles), world.tiles)
    ensures maxDifference > 0 && levelled ==> SomeLower(old(world.tiles), world.tiles)
  {
    ghost var start := world.tiles;
    levelled := false;
    var i := 0;
    while i < 6
      invariant 0 <= i <= 6
      invariant world.Valid() && world.order == old(world.order)
      invariant OnlyAltitudesChanged(start, world.tiles)
      invariant !levelled ==> world.tiles == start
      invariant !levelled ==> forall i' :: 0 <= i' < i ==> !Steep(start, c, i', maxDifference)
      invariant levelled ==> exists i' :: 0 <= i' < 6 && Steep(start, c, i', maxDifference)
      invariant maxDifference >= 0 ==> NoHigher(start, world.tiles)
      invariant maxDifference > 0 && levelled ==> SomeLower(start, world.tiles)
    {
      var n := c.Neighbour(i);
      if n in world.tiles && Abs(world.tiles[c].altitude - world.tiles[n].altitude) > maxDifference {
        if !levelled {
          assert Steep(start, c, i, maxDifference);
        }
        levelled := true;
        ghost var mid := world.tiles;
        LevelEccentricities(world, c, n, maxDifference);
        LevelPairKeepsBounds(start, mid, world.tiles, c, n, maxDifference);
      }
      i := i + 1;
    }
  }

  /** Levelling one steep pair changes altitudes only, raises none and, with a
      positive limit, lowers one. */
  lemma LevelPairKeepsBounds(start: map<Coords, Tile>, mid: map<Coords, Tile>, after: map<Coords, Tile>,
                             c: Coords, n: Coords, maxDifference: int)
    requires c in mid && n in mid && Abs(mid[c].altitude - mid[n].altitude) > maxDifference
    requires OnlyAltitudesChanged(start, mid)
    requires maxDifference >= 0 ==> NoHigher(start, mid)
    requires var e, o := Eccentric(mid, c, n), OtherOf(mid, c, n);
      after == mid[e := mid[e].(altitude := Leveled(mid[e].altitude, mid[o].altitude, maxDifference))]
    ensures OnlyAltitudesChanged(start, after)
    ensures maxDifference >= 0 ==> NoHigher(start, after)
    ensures maxDifference > 0 ==> SomeLower(start, after)
  {
    var e, o := Eccentric(mid, c, n), OtherOf(mid, c, n);
    if maxDifference >= 0 {
      LevelingShrinks(mid[e].altitude, mid[o].altitude, maxDifference);
    }
    AltitudeUpdateKeepsTiles(start, mid, e, after[e].altitude);
    if maxDifference >= 0 {
      LowerOne(start, mid, after, e);
    }
  }

  /** No steep pair starts at any of the first k cells of `cells`. */
  ghost predicate Scanned(tiles: map<Coords, Tile>, cells: seq<Coords>, k: int, maxDifference: int)
    requires 0 <= k <= |cells|
  {
    forall j, i :: 0 <= j < k && 0 <= i < 6 ==> !Steep(tiles, cells[j], i, maxDifference)
  }

  /** One pass over the map, levelling every steep adjacent pair met. It
      reports whether it levelled anything, which happens exactly when the map
      was not smooth; a map it leaves alone is smooth. */
  method FindEccentricities(world: TileMap, maxDifference: int) returns (found: bool)
    requires world.Valid()
    modifies world
    ensures world.Valid() && world.order == old(world.order)
    ensures OnlyAltitudesChanged(old(world.tiles), world.tiles)
    ensures found <==> !Smooth(old(world.tiles), maxDifference)
    ensures !found ==> world.tiles == old(world.tiles)
    ensures maxDifference >= 0 ==> NoHigher(old(world.tiles), world.tiles)
    ensures maxDifference > 0 && found ==> SomeLower(old(world.tiles), world.tiles)
  {
    ghost var start := world.tiles;
    found := false;
    var k := 0;
    while k < |world.order|
      invariant 0 <= k <= |world.order|
      invariant world.Valid() && world.order == old(world.order)
      invariant OnlyAltitudesChanged(start, world.tiles)
      invariant !found ==> world.tiles == start && Scanned(start, world.order, k, maxDifference)
      invariant found ==> !Smooth(start, maxDifference)
      invariant maxDifference >= 0 ==> NoHigher(start, world.tiles)
      invariant maxDifference > 0 && found ==> SomeLower(start, world.tiles)
    {
      var c := world.order[k];
      ghost var mid := world.tiles;
      var levelled := LevelAround(world, c, maxDifference);
      Chain(start, mid, world.tiles);
      if levelled && !found {
        ghost var i :| 0 <= i < 6 && Steep(start, c, i, maxDifference);
      }
      found := found || levelled;
      k := k + 1;
    }
    if !found {
      forall c, i | 0 <= i < 6
        ensures !Steep(start, c, i, maxDifference)
      {
        if c in start {
          var j :| 0 <= j < |world.order| && world.order[j] == c;
        }
      }
    }
  }

  /** The sum of |altitude| over the listed cells: the measure the relaxation
      loop lowers. */
  function SumAbs(tiles: map<Coords, Tile>, cells: seq<Coords>): nat
    requires forall j :: 0 <= j < |cells| ==> cells[j] in tiles
  {
    if cells == [] then 0 else Abs(tiles[cells[0]].altitude) + SumAbs(tiles, cells[1..])
  }

  lemma ListedCellsPresent(before: map<Coords, Tile>, after: map<Coords, Tile>, cells: seq<Coords>)
    requires forall c :: c in after <==> c in cells
    requires before.Keys == after.Keys
    ensures forall j :: 0 <= j < |cells| ==> cells[j] in before && cells[j] in after
  {
  }

  /** Lowering no tile does not raise the sum; lowering a listed tile as well lowers it. */
  lemma {:induction false} SumAbsFalls(before: map<Coords, Tile>, after: map<Coords, Tile>, cells: seq<Coords>, lowered: Coords)
    requires forall j :: 0 <= j < |cells| ==> cells[j] in before && cells[j] in after
    requires NoHigher(before, after)
    ensures SumAbs(after, cells) <= SumAbs(before, cells)
    ensures lowered in cells && lowered in before && lowered in after
      && Abs(after[lowered].altitude) < Abs(before[lowered].altitude)
      ==> SumAbs(after, cells) < SumAbs(before, cells)
  {
    if cells != [] {
      SumAbsFalls(before, after, cells[1..], lowered);
      if lowered in cells && lowered != cells[0] {
        var j :| 0 <= j < |cells| && cells[j] == lowered;
        assert cells[1..][j - 1] == lowered;
      }
    }
  }

  /** The loop at the heart of the generator: pass over the map until a pass
      levels nothing. With a positive limit it ends, because every levelling
      pass lowers the sum of |altitude|, and then the map is smooth. */
  method RelaxAltitudes(world: TileMap, maxDifference: int)
    requires world.Valid() && maxDifference > 0
    modifies world
    ensures world.Valid() && world.order == old(world.order)
    ensures OnlyAltitudesChanged(old(world.tiles), world.tiles)
    ensures NoHigher(old(world.tiles), world.tiles)
    ensures Smooth(world.tiles, maxDifference)
  {
    ghost var start := world.tiles;
    var found := FindEccentricities(world, maxDifference);
    while found
      invariant world.Valid() && world.order == old(world.order)
      invariant OnlyAltitudesChanged(start, world.tiles)
      invariant NoHigher(start, world.tiles)
      invariant !found ==> Smooth(world.tiles, maxDifference)
      decreases SumAbs(world.tiles, world.order) + (if found then 1 else 0)
    {
      ghost var before := world.tiles;
      found := FindEccentricities(world, maxDifference);
      Chain(start, before, world.tiles);
      ListedCellsPresent(before, world.tiles, world.order);
      if found {
        ghost var c :| c in world.tiles && c in before && Abs(world.tiles[c].altitude) < Abs(before[c].altitude);
        SumAbsFalls(before, world.tiles, world.order, c);
      } else {
        SumAbsFalls(before, world.tiles, world.order, Origin);
      }
    }
  }

  /** A diagnostic entry (difference, cell) names a steep pair on the map: some
      neighbour of the cell is too far off, and the difference is the cell's
      altitude minus that neighbour's. */
  predicate ReportsSteepPair(tiles: map<Coords, Tile>, e: (int, Coords), maxDifference: int)
  {
    exists i :: 0 <= i < 6 && Steep(tiles, e.1, i, maxDifference)
      && e.0 == tiles[e.1].altitude - tiles[e.1.Neighbour(i)].altitude
  }

  /** The diagnostic pass after relaxation: every steep pair as (difference,
      cell). It reports nothing exactly when the map is smooth. */
  method ReportOverLimit(world: TileMap, maxDifference: int) returns (report: seq<(int, Coords)>)
    requires world.Valid()
    ensures report == [] <==> Smooth(world.tiles, maxDifference)
    ensures forall e :: e in report ==> Abs(e.0) > maxDifference && e.1 in world.tiles
    ensures forall e :: e in report ==> ReportsSteepPair(world.tiles, e, maxDifference)
  {
    report := [];
    var k := 0;
    while k < |world.order|
      invariant 0 <= k <= |world.order|
      invariant report == [] <==> forall j, i :: 0 <= j < k && 0 <= i < 6 ==> !Steep(world.tiles, world.order[j], i, maxDifference)
      invariant forall e :: e in report ==> Abs(e.0) > maxDifference && e.1 in world.tiles
      invariant forall e :: e in report ==> ReportsSteepPair(world.tiles, e, maxDifference)
    {
      var c := world.order[k];
      var i := 0;
      while i < 6
        invariant 0 <= i <= 6
        invariant report == [] <==>
          && (forall j, i' :: 0 <= j < k && 0 <= i' < 6 ==> !Steep(world.tiles, world.order[j], i', maxDifference))
          && (forall i' :: 0 <= i' < i ==> !Steep(world.tiles, c, i', maxDifference))
        invariant forall e :: e in report ==> Abs(e.0) > maxDifference && e.1 in world.tiles
        invariant forall e :: e in report ==> ReportsSteepPair(world.tiles, e, maxDifference)
      {
        var n := c.Neighbour(i);
        if n in world.tiles {
          var diff := world.tiles[c].altitude - world.tiles[n].altitude;
          if Abs(diff) > maxDifference {
            assert Steep(world.tiles, c, i, maxDifference);
            report := report + [(diff, c)];
          }
        }
        i := i + 1;
      }
      k := k + 1;
    }
    if report == [] {
      forall c, i | 0 <= i < 6
        ensures !Steep(world.tiles, c, i, maxDifference)
      {
        if c in world.tiles {
          var j :| 0 <= j < |world.order| && world.order[j] == c;
        }
      }
    }
  }

  /** Altitudes from the sample, relaxed; the diagnostic then finds nothing,
      and every altitude stays within the amplitude. */
  method GenerateAltitudeFromNoise(world: TileMap, sample: Coords -> int, amplitude: int, maxDifference: int)
    returns (report: seq<(int, Coords)>)
    requires world.Valid() && amplitude >= 0 && maxDifference > 0
    modifies world
    ensures world.Valid() && world.order == old(world.order)
    ensures world.tiles.Keys == old(world.tiles).Keys
    ensures forall c :: c in world.tiles ==>
      world.tiles[c] == old(world.tiles)[c].(altitude := world.tiles[c].altitude)
    ensures Smooth(world.tiles, maxDifference) && report == []
    ensures forall c :: c in world.tiles ==> -amplitude <= world.tiles[c].altitude <= amplitude
  {
    AssignNoiseAltitudes(world, sample, amplitude);
    ghost var sampled := world.tiles;
    RelaxAltitudes(world, maxDifference);
    assert forall c :: c in world.tiles ==> Abs(world.tiles[c].altitude) <= Abs(sampled[c].altitude);
    report := ReportOverLimit(world, maxDifference);
  }

  // ---- Mountain tops ----

  /** Every tile above altitude 2 becomes rocky; nothing else changes. */
  method GenerateMountainTops(world: TileMap)
    requires world.Valid()
    modifies world
    ensures world.Valid() && world.order == old(world.order)
    ensures world.tiles.Keys == old(world.tiles).Keys
    ensures forall c :: c in world.tiles ==>
      world.tiles[c].terrain == (if old(world.tiles)[c].altitude > 2 then Rocky else old(world.tiles)[c].terrain)
    ensures forall c :: c in world.tiles ==>
      world.tiles[c] == old(world.tiles)[c].(terrain := world.tiles[c].terrain)
  {
    ghost var start := world.tiles;
    ghost var rewrite := (c: Coords, t: Tile) => if t.altitude > 2 then t.(terrain := Rocky) else t;
    var k := 0;
    while k < |world.order|
      invariant 0 <= k <= |world.order|
      invariant world.Valid() && world.order == old(world.order)
      invariant RewrittenUpTo(start, world.tiles, world.order, rewrite, k)
    {
      var c := world.order[k];
      RewriteStep(start, world.tiles, world.order, rewrite, k);
      if world.tiles[c].altitude > 2 {
        SetTile(world, c, world.tiles[c].(terrain := Rocky));
      }
      k := k + 1;
    }
    RewriteDone(start, world.tiles, world.order, rewrite);
  }

  // ---- The whole generator ----

  /** A world: one tile per cell within the radius, each sand unless its
      altitude exceeds 2 (then rocky), with no adjacent pair steeper than the
      limit and every altitude within the amplitude. */
  method Generate(settings: Settings, sample: Coords -> int) returns (world: TileMap)
    requires settings.radius >= 0 && settings.altitudeNoiseAmplitude >= 0
    requires settings.altitudeMaxDifference > 0
    ensures fresh(world) && world.Valid()
    ensures |world.tiles| == 3 * settings.radius * settings.radius + 3 * settings.radius + 1
    ensures forall c :: c in world.tiles <==> Distance(Origin, c) <= settings.radius
    ensures Smooth(world.tiles, settings.altitudeMaxDifference)
    ensures forall c :: c in world.tiles ==>
      && Abs(world.tiles[c].altitude) <= settings.altitudeNoiseAmplitude
      && world.tiles[c].terrain == (if world.tiles[c].altitude > 2 then Rocky else Sand)
      && world.tiles[c] == NewTile(c, world.tiles[c].terrain, world.tiles[c].altitude)
  {
    world := InitiateHexagonalShape(settings.radius);
    var report := GenerateAltitudeFromNoise(world, sample, settings.altitudeNoiseAmplitude, settings.altitudeMaxDifference);
    ghost var relaxed := world.tiles;
    GenerateMountainTops(world);
    SmoothnessIsAboutAltitudes(relaxed, world.tiles, settings.altitudeMaxDifference);
  }

  /** Smoothness depends on the altitudes alone. */
  lemma SmoothnessIsAboutAltitudes(a: map<Coords, Tile>, b: map<Coords, Tile>, maxDifference: int)
    requires a.Keys == b.Keys
    requires forall c :: c in b ==> b[c].altitude == a[c].altitude
    ensures Smooth(a, maxDifference) ==> Smooth(b, maxDifference)
  {
    if Smooth(a, maxDifference) {
      forall c, i | 0 <= i < 6
        ensures !Steep(b, c, i, maxDifference)
      {
        assert !Steep(a, c, i, maxDifference);
      }
    }
  }

  // ---- Sample positions ----

  /** The noise-array position sampled for a cell at noise scale s. */
  function CoordsToPosition(c: Coords, s: int): (int, int)
  {
    (c.X() * 2 * s, c.Z() - c.Y() * 2 * s)
  }

  /** The horizontal position is the cell centre's, scaled by s. The vertical
      one scales only the y term of the centre's z - y, so it is the centre's
      height shifted by (1 - 2s) * y. */
  lemma PositionScalesCenter(c: Coords, s: int)
    ensures CoordsToPosition(c, s).0 == s * c.Center().0
    ensures CoordsToPosition(c, s).1 == c.Center().1 + (1 - 2 * s) * c.Y()
  {
  }

  lemma ProductZero(a: int, b: int)
    requires a * b == 0 && b != 0
    ensures a == 0
  {
  }

  /** At any non-zero scale distinct cells sample distinct positions. */
  lemma {:induction false} CoordsToPositionIsInjective(a: Coords, b: Coords, s: int)
    requires s != 0
    requires CoordsToPosition(a, s) == CoordsToPosition(b, s)
    ensures a == b
  {
    assert (a.r - b.r) * (2 * s) == a.r * 2 * s - b.r * 2 * s;
    ProductZero(a.r - b.r, 2 * s);
    assert (a.q - b.q) * (1 + 2 * s) == (a.q + a.q * 2 * s) - (b.q + b.q * 2 * s);
    ProductZero(a.q - b.q, 1 + 2 * s);
  }

}
