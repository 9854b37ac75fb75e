// The traversals of coords.py: `hexagonal_loop`, the ring-by-ring spiral
// around a start cell, and `coords_in_between`, the sampled straight line.
module HexTraversal {
  import opened Coordinates

  /** The label `hexagonal_loop` passes with each cell: (ring, side, step); the start is (0, 0, 0). */
  datatype LoopCoords = LoopCoords(ring: int, side: int, step: int)

  /** One call of the loop's callback: the current cell and its label. */
  datatype Visit = Visit(coords: Coords, loopCoords: LoopCoords)

  /** Offset from the start of the cell reached at `step` of `side` on ring n.
      Each ring begins n steps in direction 4 and walks side s in direction s.
      A side outside 1..5 continues side 0, so side 6 step 0 is the ring's first cell. */
  function RingOffset(n: int, side: int, step: int): Coords
  {
    if side == 1 then Coords(-n + step, -step)
    else if side == 2 then Coords(step, -n)
    else if side == 3 then Coords(n, -n + step)
    else if side == 4 then Coords(n - step, step)
    else if side == 5 then Coords(-step, n)
    else Coords(-n, n - step)
  }

  function RingCell(start: Coords, n: int, side: int, step: int): Coords
  {
    start.Add(RingOffset(n, side, step))
  }

  /** The n visits of one side of ring n. */
  function Side(start: Coords, n: nat, side: nat): seq<Visit>
  {
    seq(n, t => Visit(RingCell(start, n, side, t), LoopCoords(n, side, t)))
  }

  /** The visits of the first `sides` sides of ring n. */
  function Ring(start: Coords, n: nat, sides: nat): seq<Visit>
  {
    if sides == 0 then [] else Ring(start, n, sides - 1) + Side(start, n, sides - 1)
  }

  /** Every callback `hexagonal_loop(start, radius, ...)` makes, in order. */
  function LoopTrace(start: Coords, radius: nat): seq<Visit>
  {
    if radius == 0 then [Visit(start, LoopCoords(0, 0, 0))]
    else LoopTrace(start, radius - 1) + Ring(start, radius, 6)
  }

  /** The results of calling f on each visit: the `memory` list the loop returns. */
  function Results<T>(f: (Coords, LoopCoords) -> T, visits: seq<Visit>): seq<T>
  {
    seq(|visits|, i requires 0 <= i < |visits| => f(visits[i].coords, visits[i].loopCoords))
  }

  /** `hexagonal_loop` with `use_memory`: calls f on the start and then on
      every cell of rings 1..radius and collects the results. */
  method HexagonalLoop<T>(start: Coords, radius: int, f: (Coords, LoopCoords) -> T)
    returns (memory: seq<T>)
    requires radius >= 0
    ensures memory == Results(f, LoopTrace(start, radius))
  {
    ghost var trace := [Visit(start, LoopCoords(0, 0, 0))];
    var curr := start;
    memory := [f(curr, LoopCoords(0, 0, 0))];
    for n := 1 to radius + 1
      invariant trace == LoopTrace(start, n - 1)
      invariant memory == Results(f, trace)
      invariant curr == RingCell(start, n - 1, 0, 0)
    {
      RingStartsInDirectionFour(n - 1);
      curr := curr.Neighbour(4);
      assert trace == LoopTrace(start, n - 1) + Ring(start, n, 0);
      for side := 0 to 6
        invariant trace == LoopTrace(start, n - 1) + Ring(start, n, side)
        invariant memory == Results(f, trace)
        invariant curr == RingCell(start, n, side, 0)
      {
        ghost var before := trace;
        curr, memory := WalkSide(start, n, side, curr, f, trace, memory);
        trace := trace + Side(start, n, side);
        RingStep(start, n, side, before, trace);
      }
      assert LoopTrace(start, n) == LoopTrace(start, n - 1) + Ring(start, n, 6);
    }
  }

  /** The innermost loop of `hexagonal_loop`: the n steps along one side of
      ring n, each calling f and moving one cell in direction `side`. */
  method WalkSide<T>(start: Coords, n: nat, side: nat, curr: Coords, f: (Coords, LoopCoords) -> T,
                     ghost trace: seq<Visit>, memory: seq<T>)
    returns (next: Coords, memory': seq<T>)
    requires side < 6
    requires memory == Results(f, trace)
    requires curr == RingCell(start, n, side, 0)
    ensures memory' == Results(f, trace + Side(start, n, side))
    ensures next == RingCell(start, n, side + 1, 0)
  {
    ghost var walked := trace;
    next, memory' := curr, memory;
    for step := 0 to n
      invariant walked == trace + Side(start, n, side)[..step]
      invariant memory' == Results(f, walked)
      invariant next == RingCell(start, n, side, step)
    {
      var visit := Visit(next, LoopCoords(n, side, step));
      assert Side(start, n, side)[..step + 1] == Side(start, n, side)[..step] + [visit];
      ResultsAppend(f, walked, visit);
      memory' := memory' + [f(next, LoopCoords(n, side, step))];
      walked := walked + [visit];
      RingWalk(n, side, step);
      next := next.Neighbour(side);
    }
    assert Side(start, n, side)[..n] == Side(start, n, side);
    RingWalk(n, side, n);
  }

  lemma RingStep(start: Coords, n: nat, side: nat, before: seq<Visit>, trace: seq<Visit>)
    requires n >= 1
    requires before == LoopTrace(start, n - 1) + Ring(start, n, side)
    requires trace == before + Side(start, n, side)
    ensures trace == LoopTrace(start, n - 1) + Ring(start, n, side + 1)
  {
  }

  lemma ResultsAppend<T>(f: (Coords, LoopCoords) -> T, visits: seq<Visit>, v: Visit)
    ensures Results(f, visits + [v]) == Results(f, visits) + [f(v.coords, v.loopCoords)]
  {
  }

  // ---- The shape of the spiral ----

  /** One step along side s moves to the next cell of the side; the last cell
      of a side is followed by the first of the next. */
  lemma RingWalk(n: int, side: int, step: int)
    requires 0 <= side < 6
    ensures RingOffset(n, side, step).Add(Direction(side)) == RingOffset(n, side, step + 1)
    ensures RingOffset(n, side, n) == RingOffset(n, side + 1, 0)
  {
  }

  lemma RingStartsInDirectionFour(n: int)
    ensures RingOffset(n, 0, 0).Add(Direction(4)) == RingOffset(n + 1, 0, 0)
  {
  }

  /** Every cell of ring n lies at distance exactly n from the start. */
  lemma {:induction false} RingCellDistance(start: Coords, n: int, side: int, step: int)
    requires 0 <= side < 6 && 0 <= step < n
    ensures Distance(start, RingCell(start, n, side, step)) == n
  {
    DistanceToOffset(start, RingOffset(n, side, step));
    RingOffsetLength(n, side, step);
  }

  lemma RingOffsetLength(n: int, side: int, step: int)
    requires 0 <= side < 6 && 0 <= step < n
    ensures Distance(Origin, RingOffset(n, side, step)) == n
  {
    var o := RingOffset(n, side, step);
    if side == 0 || side == 3 {
      LengthFromCube(o, n, Abs(o.X()));
    } else if side == 1 || side == 4 {
      LengthFromCube(o, n, Abs(o.Z()));
    } else {
      LengthFromCube(o, n, Abs(o.Y()));
    }
  }

  /** An offset whose cube components are bounded by n, one of them reaching it, has length n. */
  lemma LengthFromCube(o: Coords, n: int, reached: int)
    requires Abs(o.X()) <= n && Abs(o.Y()) <= n && Abs(o.Z()) <= n
    requires reached == n && (reached == Abs(o.X()) || reached == Abs(o.Y()) || reached == Abs(o.Z()))
    ensures Distance(Origin, o) == n
  {
  }

  /** Within one ring, different (side, step) labels are different cells. */
  lemma RingOffsetInjective(n: int, s1: int, t1: int, s2: int, t2: int)
    requires 0 <= s1 < 6 && 0 <= t1 < n && 0 <= s2 < 6 && 0 <= t2 < n
    requires RingOffset(n, s1, t1) == RingOffset(n, s2, t2)
    ensures s1 == s2 && t1 == t2
  {
  }

  /** The (side, step) at which ring n reaches the offset o. */
  function RingPosition(o: Coords): (int, int)
  {
    var n := Distance(Origin, o);
    if o.Z() == n && o.X() < 0 then (1, -o.Y())
    else if o.Y() == -n && 0 <= o.X() < n then (2, o.X())
    else if o.X() == n && -n < o.Z() <= 0 then (3, -o.Z())
    else if o.Z() == -n && 0 <= o.Y() < n then (4, o.Y())
    else if o.Y() == n && -n < o.X() <= 0 then (5, -o.X())
    else (0, o.Z())
  }

  /** Every offset at distance n >= 1 is a cell of ring n. */
  lemma {:induction false} RingPositionIsOnRing(o: Coords)
    requires Distance(Origin, o) >= 1
    ensures var n, p := Distance(Origin, o), RingPosition(o);
      0 <= p.0 < 6 && 0 <= p.1 < n && RingOffset(n, p.0, p.1) == o
  {
    var n := Distance(Origin, o);
    var x, y, z := o.X(), o.Y(), o.Z();
    assert x + y + z == 0;
    assert Abs(x) <= n && Abs(y) <= n && Abs(z) <= n;
    assert Abs(x) == n || Abs(y) == n || Abs(z) == n;
  }

  // ---- Properties of the trace ----

  /** A visit is labelled consistently: the start with (0, 0, 0), every other
      cell with its ring, side and step, and the ring is its distance from the start. */
  ghost predicate WellLabelled(start: Coords, v: Visit)
  {
    var l := v.loopCoords;
    && Distance(start, v.coords) == l.ring
    && (l.ring == 0 ==> v == Visit(start, LoopCoords(0, 0, 0)))
    && (l.ring > 0 ==> 0 <= l.side < 6 && 0 <= l.step < l.ring
                       && v.coords == RingCell(start, l.ring, l.side, l.step))
  }

  ghost predicate DistinctCells(visits: seq<Visit>)
  {
    forall i, j :: 0 <= i < j < |visits| ==> visits[i].coords != visits[j].coords
  }

  lemma {:induction false} RingLength(start: Coords, n: nat, sides: nat)
    ensures |Ring(start, n, sides)| == sides * n
  {
    if sides > 0 {
      RingLength(start, n, sides - 1);
      assert (sides - 1) * n + n == sides * n;
    }
  }

  /** With use_memory the loop returns 3R^2 + 3R + 1 results. */
  lemma {:induction false} LoopTraceLength(start: Coords, radius: nat)
    ensures |LoopTrace(start, radius)| == 3 * radius * radius + 3 * radius + 1
  {
    if radius > 0 {
      LoopTraceLength(start, radius - 1);
      RingLength(start, radius, 6);
      assert 3 * (radius - 1) * (radius - 1) == 3 * radius * radius - 6 * radius + 3;
    }
  }

  /** The start is visited first, labelled (0, 0, 0). */
  lemma {:induction false} LoopTraceStartsAtStart(start: Coords, radius: nat)
    ensures |LoopTrace(start, radius)| > 0
    ensures LoopTrace(start, radius)[0] == Visit(start, LoopCoords(0, 0, 0))
  {
    if radius > 0 {
      LoopTraceStartsAtStart(start, radius - 1);
    }
  }

  lemma {:induction false} RingWellLabelled(start: Coords, n: nat, sides: nat)
    requires n >= 1 && sides <= 6
    ensures forall v :: v in Ring(start, n, sides) ==>
      WellLabelled(start, v) && v.loopCoords.ring == n && v.loopCoords.side < sides
  {
    if sides > 0 {
      RingWellLabelled(start, n, sides - 1);
      var side := sides - 1;
      forall t | 0 <= t < n
        ensures Distance(start, RingCell(start, n, side, t)) == n
      {
        RingCellDistance(start, n, side, t);
      }
    }
  }

  /** Every visit is labelled by its ring (its distance from the start), side and step. */
  lemma {:induction false} LoopTraceWellLabelled(start: Coords, radius: nat)
    ensures forall v :: v in LoopTrace(start, radius) ==>
      WellLabelled(start, v) && v.loopCoords.ring <= radius
  {
    if radius > 0 {
      LoopTraceWellLabelled(start, radius - 1);
      RingWellLabelled(start, radius, 6);
    }
  }

  lemma {:induction false} RingDistinct(start: Coords, n: nat, sides: nat)
    requires n >= 1 && sides <= 6
    ensures DistinctCells(Ring(start, n, sides))
  {
    if sides > 0 {
      var prefix, side := Ring(start, n, sides - 1), Side(start, n, sides - 1);
      RingDistinct(start, n, sides - 1);
      RingWellLabelled(start, n, sides - 1);
      var all := prefix + side;
      forall i, j | 0 <= i < j < |all|
        ensures all[i].coords != all[j].coords
      {
        var a, b := all[i], all[j];
        if j >= |prefix| {
          assert b in side;
          if i >= |prefix| {
            assert a in side;
          } else {
            assert a in prefix;
          }
          if a.coords == b.coords {
            RingOffsetInjective(n, a.loopCoords.side, a.loopCoords.step, b.loopCoords.side, b.loopCoords.step);
          }
        }
      }
    }
  }

  /** No cell is visited twice. */
  lemma {:induction false} LoopTraceDistinct(start: Coords, radius: nat)
    ensures DistinctCells(LoopTrace(start, radius))
  {
    if radius > 0 {
      var inner, ring := LoopTrace(start, radius - 1), Ring(start, radius, 6);
      LoopTraceDistinct(start, radius - 1);
      RingDistinct(start, radius, 6);
      LoopTraceWellLabelled(start, radius - 1);
      RingWellLabelled(start, radius, 6);
      var all := inner + ring;
      forall i, j | 0 <= i < j < |all|
        ensures all[i].coords != all[j].coords
      {
        if i < |inner| && j >= |inner| {
          assert all[i] in inner && all[j] in ring;
        }
      }
    }
  }

  lemma {:induction false} SideContains(start: Coords, n: nat, side: nat, step: nat, sides: nat)
    requires side < sides && step < n
    ensures Visit(RingCell(start, n, side, step), LoopCoords(n, side, step)) in Ring(start, n, sides)
  {
    if side < sides - 1 {
      SideContains(start, n, side, step, sides - 1);
    } else {
      assert Side(start, n, side)[step] == Visit(RingCell(start, n, side, step), LoopCoords(n, side, step));
    }
  }

  /** Every cell within `radius` of the start is visited. */
  lemma {:induction false} LoopTraceCovers(start: Coords, radius: nat, c: Coords)
    requires Distance(start, c) <= radius
    ensures exists v :: v in LoopTrace(start, radius) && v.coords == c
  {
    var d := Distance(start, c);
    if d == radius {
      if radius == 0 {
        DistanceZeroIffEqual(start, c);
        LoopTraceStartsAtStart(start, 0);
        assert LoopTrace(start, 0)[0] in LoopTrace(start, 0);
      } else {
        var o := Coords(c.r - start.r, c.q - start.q);
        assert start.Add(o) == c;
        DistanceToOffset(start, o);
        RingPositionIsOnRing(o);
        var p := RingPosition(o);
        SideContains(start, radius, p.0, p.1, 6);
      }
    } else {
      LoopTraceCovers(start, radius - 1, c);
    }
  }

  // ---- coords_in_between ----

  /** Python's `round` of the exact quotient n / m: the nearest integer, ties to even. */
  function RoundHalfEven(n: int, m: int): int
    requires m > 0
  {
    var fl, rem := n / m, n % m;
    if 2 * rem < m then fl
    else if 2 * rem > m then fl + 1
    else if fl % 2 == 0 then fl
    else fl + 1
  }

  /** The rounded result is within half a unit of the quotient. */
  lemma RoundHalfEvenIsNearest(n: int, m: int)
    requires m > 0
    ensures 2 * Abs(n - RoundHalfEven(n, m) * m) <= m
  {
    var fl, rem := n / m, n % m;
    assert n == fl * m + rem;
    assert (fl + 1) * m == fl * m + m;
  }

  lemma {:induction false} RoundHalfEvenExact(k: int, m: int)
    requires m > 0
    ensures RoundHalfEven(k * m, m) == k
  {
    DivModUnique(k * m, m, k, 0);
  }

  /** A quotient exactly halfway between k and k + 1 goes to whichever of the
      two is even. */
  lemma {:induction false} RoundHalfEvenTie(n: int, m: int, k: int)
    requires m > 0 && 2 * n == (2 * k + 1) * m
    ensures RoundHalfEven(n, m) == k || RoundHalfEven(n, m) == k + 1
    ensures RoundHalfEven(n, m) % 2 == 0
  {
    var h := n - k * m;
    assert m == 2 * h;
    DivModUnique(n, m, k, h);
  }

  /** Quotient and remainder are the only ones with n == q * m + r and 0 <= r < m. */
  lemma DivModUnique(n: int, m: int, q: int, r: int)
    requires m > 0 && 0 <= r < m && n == q * m + r
    ensures n / m == q && n % m == r
  {
    var q', r' := n / m, n % m;
    assert (q - q') * m == r' - r;
    if q > q' {
      MultipleAtLeast(q - q', m);
    } else if q < q' {
      assert (q' - q) * m == r - r';
      MultipleAtLeast(q' - q, m);
    }
  }

  lemma {:induction false} MultipleAtLeast(a: int, m: int)
    requires a >= 1 && m > 0
    ensures a * m >= m
    decreases a
  {
    if a > 1 {
      MultipleAtLeast(a - 1, m);
      assert a * m == (a - 1) * m + m;
    }
  }

  /** `linear_interpolation(start, end, d / dist)` computed on exact rationals. */
  function LinearInterpolation(start: int, end: int, d: int, dist: int): int
    requires dist > 0
  {
    RoundHalfEven(start * (dist - d) + end * d, dist)
  }

  function Interpolate(a: Coords, b: Coords, d: int, dist: int): Coords
    requires dist > 0
  {
    Coords(LinearInterpolation(a.r, b.r, d, dist), LinearInterpolation(a.q, b.q, d, dist))
  }

  lemma {:induction false} InterpolationEndpoints(a: Coords, b: Coords, dist: int)
    requires dist > 0
    ensures Interpolate(a, b, 0, dist) == a
    ensures Interpolate(a, b, dist, dist) == b
  {
    RoundHalfEvenExact(a.r, dist);
    RoundHalfEvenExact(a.q, dist);
    RoundHalfEvenExact(b.r, dist);
    RoundHalfEvenExact(b.q, dist);
    assert a.r * (dist - 0) + b.r * 0 == a.r * dist;
    assert a.q * (dist - 0) + b.q * 0 == a.q * dist;
    assert a.r * (dist - dist) + b.r * dist == b.r * dist;
    assert a.q * (dist - dist) + b.q * dist == b.q * dist;
  }

  /** `coords_in_between(a, b)`: distance(a, b) + 1 samples of the straight
      line from a to b, the first a and the last b. a == b divides by zero. */
  method CoordsInBetween(a: Coords, b: Coords) returns (result: seq<Coords>)
    requires a != b
    ensures |result| == Distance(a, b) + 1
    ensures result[0] == a && result[|result| - 1] == b
    ensures forall d :: 0 <= d < |result| ==> result[d] == Interpolate(a, b, d, Distance(a, b))
  {
    var dist := Distance(a, b);
    DistanceZeroIffEqual(a, b);
    result := [];
    for d := 0 to dist + 1
      invariant |result| == d
      invariant forall k :: 0 <= k < d ==> result[k] == Interpolate(a, b, k, dist)
    {
      result := result + [Interpolate(a, b, d, dist)];
    }
    InterpolationEndpoints(a, b, dist);
  }

}
