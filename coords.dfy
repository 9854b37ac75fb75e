// Axial hexagonal coordinates (coords.py): value equality, cube coordinates,
// the six-direction table, neighbours, the cartesian centre and its inverse,
// and the cube-space (Chebyshev) distance.
module Coordinates {

  function Abs(n: int): nat { if n < 0 then -n else n }

  function Max3(a: int, b: int, c: int): int
  {
    if a >= b && a >= c then a else if b >= c then b else c
  }

  /** Axial coordinates (r, q); the cube coordinates are (x, y, z) = (r, q, -r-q).
      Equality is structural, so two coordinates are equal, and are the same
      map key, exactly when their (r, q) pairs are. */
  datatype Coords = Coords(r: int, q: int) {
    function X(): int { r }
    function Y(): int { q }
    function Z(): int { -r - q }

    /** Larger values are drawn closer to the screen. */
    function Priority(): int { 2 * q + r }

    /** Centre of the hex in cartesian units, the hex seen as a 2x2 square. */
    function Center(): (int, int) { (X() * 2, Z() - Y()) }

    function Add(other: Coords): Coords { Coords(r + other.r, q + other.q) }

    function Neighbour(dir: int): Coords { Add(Direction(dir)) }

    function Neighbours(): seq<Coords> { seq(6, i => Neighbour(i)) }
  }

  const Origin := Coords(0, 0)

  /** Decimal digits of a natural number, as Python's `str` writes them. */
  function NatToString(n: nat): string
  {
    var digit := "0123456789"[n % 10];
    if n < 10 then [digit] else NatToString(n / 10) + [digit]
  }

  function IntToString(n: int): string
  {
    if n < 0 then "-" + NatToString(-n) else NatToString(n)
  }

  /** `repr` of a coordinate: its cube coordinates in parentheses, "(r q z)". */
  function CoordsRepr(c: Coords): string
  {
    "(" + IntToString(c.X()) + " " + IntToString(c.Y()) + " " + IntToString(c.Z()) + ")"
  }

  /** The fixed unit offset of each direction 0..5; any other index is the zero offset. */
  function Direction(dir: int): Coords
  {
    if dir == 0 then Coords(0, -1)
    else if dir == 1 then Coords(1, -1)
    else if dir == 2 then Coords(1, 0)
    else if dir == 3 then Coords(0, 1)
    else if dir == 4 then Coords(-1, 1)
    else if dir == 5 then Coords(-1, 0)
    else Coords(0, 0)
  }

  /** Inverse of `Center`. Python's `//` floors; for the positive divisors used
      here Dafny's `/` is the same operation. `-y//2` parses as `(-y)//2`. */
  function CenterToCoords(x: int, y: int): Coords
  {
    Coords(x / 2, (-y) / 2 - x / 4)
  }

  /** The largest absolute difference of the cube coordinates x = r, y = q and
      z = -r-q (the z difference is written out on the fields). */
  function Distance(a: Coords, b: Coords): int
  {
    Max3(Abs(a.r - b.r), Abs(a.q - b.q), Abs((b.r + b.q) - (a.r + a.q)))
  }

  /** Equality, and so hashing, is by the (r, q) pair alone. */
  lemma EqualityIsByValue(a: Coords, b: Coords)
    ensures a == b <==> (a.r, a.q) == (b.r, b.q)
  {
  }

  lemma CubeCoordinatesSumToZero(c: Coords)
    ensures c.X() + c.Y() + c.Z() == 0
  {
  }

  /** The screen priority is the negated vertical component of the centre. */
  lemma PriorityIsNegatedCenterHeight(c: Coords)
    ensures c.Priority() == -c.Center().1
  {
  }

  lemma DirectionIsUnitOffset(dir: int)
    ensures 0 <= dir < 6 ==> Distance(Origin, Direction(dir)) == 1
    ensures !(0 <= dir < 6) ==> Direction(dir) == Origin
  {
  }

  lemma {:induction false} OppositeDirectionsCancel(i: int)
    requires 0 <= i < 6
    ensures Direction(i).Add(Direction((i + 3) % 6)) == Origin
  {
    if i < 3 {
      assert (i + 3) % 6 == i + 3;
    } else {
      assert (i + 3) % 6 == i - 3;
    }
  }

  /** Stepping in direction i and then in the opposite direction returns to the start. */
  lemma {:induction false} NeighbourRoundTrip(c: Coords, i: int)
    requires 0 <= i < 6
    ensures c.Neighbour(i).Neighbour((i + 3) % 6) == c
  {
    OppositeDirectionsCancel(i);
  }

  /** Each cell is among the neighbours of each of its neighbours, in the opposite direction. */
  lemma {:induction false} NeighboursAreSymmetric(c: Coords, i: int)
    requires 0 <= i < 6
    ensures |c.Neighbours()[i].Neighbours()| == 6
    ensures c.Neighbours()[i].Neighbours()[(i + 3) % 6] == c
  {
    NeighbourRoundTrip(c, i);
  }

  lemma {:induction false} NeighboursAtDistanceOne(c: Coords, i: int)
    requires 0 <= i < 6
    ensures |c.Neighbours()| == 6
    ensures Distance(c, c.Neighbours()[i]) == 1
  {
    DirectionIsUnitOffset(i);
    DistanceToOffset(c, Direction(i));
  }

  /** The distance from c to c + d is the length of the offset d. */
  lemma DistanceToOffset(c: Coords, d: Coords)
    ensures Distance(c, c.Add(d)) == Distance(Origin, d)
  {
  }

  /** Adjacency and distance one coincide: the six neighbours are exactly the cells at distance 1. */
  lemma {:induction false} DistanceOneIsNeighbour(c: Coords, d: Coords)
    ensures Distance(c, d) == 1 <==> exists i :: 0 <= i < 6 && c.Neighbour(i) == d
  {
    if Distance(c, d) == 1 {
      var dr, dq := d.r - c.r, d.q - c.q;
      var i := if dr == 0 && dq == -1 then 0
               else if dr == 1 && dq == -1 then 1
               else if dr == 1 && dq == 0 then 2
               else if dr == 0 && dq == 1 then 3
               else if dr == -1 && dq == 1 then 4
               else 5;
      assert c.Neighbour(i) == d;
    }
    if exists i :: 0 <= i < 6 && c.Neighbour(i) == d {
      var i :| 0 <= i < 6 && c.Neighbour(i) == d;
      DirectionIsUnitOffset(i);
    }
  }

  lemma DistanceIsSymmetric(a: Coords, b: Coords)
    ensures Distance(a, b) == Distance(b, a)
  {
  }

  lemma DistanceZeroIffEqual(a: Coords, b: Coords)
    ensures Distance(a, b) >= 0
    ensures Distance(a, b) == 0 <==> a == b
  {
  }

  lemma DistanceTriangle(a: Coords, b: Coords, c: Coords)
    ensures Distance(a, b) <= Distance(a, c) + Distance(c, b)
  {
  }

  /** Translating both points by the same offset keeps their distance. */
  lemma DistanceTranslationInvariant(a: Coords, b: Coords, t: Coords)
    ensures Distance(a.Add(t), b.Add(t)) == Distance(a, b)
  {
  }

  lemma HalfAfterAddingEven(a: int, k: int)
    ensures (a + 2 * k) / 2 == a / 2 + k
  {
    var d, rem := a / 2, a % 2;
    assert a + 2 * k == 2 * (d + k) + rem;
  }

  lemma HalfOfDouble(r: int)
    ensures (2 * r) / 4 == r / 2
  {
    var d, rem := r / 2, r % 2;
    assert 2 * r == 4 * d + 2 * rem;
  }

  /** `center_to_coords(*c.center()) == c` for every coordinate, negatives included. */
  lemma {:induction false} CenterRoundTrip(c: Coords)
    ensures CenterToCoords(c.Center().0, c.Center().1) == c
  {
    var (x, y) := c.Center();
    assert x == 2 * c.r && -y == c.r + 2 * c.q;
    HalfAfterAddingEven(c.r, c.q);
    HalfAfterAddingEven(0, c.r);
    HalfOfDouble(c.r);
  }

  /** Distinct hexes have distinct centres. */
  lemma {:induction false} CenterIsInjective(a: Coords, b: Coords)
    requires a.Center() == b.Center()
    ensures a == b
  {
    CenterRoundTrip(a);
    CenterRoundTrip(b);
  }

  /** `__mul__` as written: both components are scaled from r, q is ignored. */
  function ScaleAsWritten(c: Coords, k: int): Coords
  {
    Coords(c.r * k, c.r * k)
  }

  /** Scaling as evidently intended: both axial components times k. */
  function Scale(c: Coords, k: int): Coords
  {
    Coords(c.r * k, c.q * k)
  }

  /** k-fold addition of a coordinate to itself. */
  function Repeat(c: Coords, k: nat): Coords
  {
    if k == 0 then Origin else Repeat(c, k - 1).Add(c)
  }

  /** Multiplying by a natural number is repeated addition. */
  lemma {:induction false} ScaleIsRepeatedAddition(c: Coords, k: nat)
    ensures Scale(c, k) == Repeat(c, k)
  {
    if k > 0 {
      ScaleIsRepeatedAddition(c, k - 1);
      assert c.r * k == c.r * (k - 1) + c.r;
      assert c.q * k == c.q * (k - 1) + c.q;
    }
  }

  /** The written `__mul__` disagrees with repeated addition: (0, 1) * 2 is (0, 0), not (0, 2). */
  lemma ScaleAsWrittenDropsQ()
    ensures ScaleAsWritten(Coords(0, 1), 2) == Origin
    ensures Repeat(Coords(0, 1), 2) == Coords(0, 2)
  {
  }

}
