// Resource vectors as colony.py uses them: named amounts with pointwise
// addition and subtraction and a deficit test. building.py declares
// `Resources` as a plain namedtuple without this arithmetic, and colony.py
// seeds it with names ('concrete', 'steel') outside the namedtuple's fields,
// so the vector is modelled as a map from name to amount, a missing name
// counting as 0.
module ResourceLedger {

  type ResourceName = string

  type Resources = map<ResourceName, int>

  /** `Resources()`: every amount zero. */
  const Zero: Resources := map[]

  function Get(v: Resources, name: ResourceName): int
  {
    if name in v then v[name] else 0
  }

  function Add(a: Resources, b: Resources): (r: Resources)
    ensures r.Keys == a.Keys + b.Keys
    ensures forall name :: Get(r, name) == Get(a, name) + Get(b, name)
  {
    map name | name in a.Keys + b.Keys :: Get(a, name) + Get(b, name)
  }

  function Sub(a: Resources, b: Resources): (r: Resources)
    ensures r.Keys == a.Keys + b.Keys
    ensures forall name :: Get(r, name) == Get(a, name) - Get(b, name)
  {
    map name | name in a.Keys + b.Keys :: Get(a, name) - Get(b, name)
  }

  /** `deficit()`: some amount is negative. */
  predicate Deficit(v: Resources)
  {
    exists name :: name in v && v[name] < 0
  }

  /** Two vectors with the same amount of every resource. */
  ghost predicate Same(a: Resources, b: Resources)
  {
    forall name :: Get(a, name) == Get(b, name)
  }

  lemma DeficitIffSomeAmountNegative(v: Resources)
    ensures Deficit(v) <==> exists name :: Get(v, name) < 0
  {
    if exists name :: Get(v, name) < 0 {
      var name :| Get(v, name) < 0;
      assert name in v;
    }
    if Deficit(v) {
      var name :| name in v && v[name] < 0;
      assert Get(v, name) < 0;
    }
  }

  /** `a - cost` shows no deficit exactly when every amount of a covers the cost's. */
  lemma AffordableIffCovered(a: Resources, cost: Resources)
    ensures !Deficit(Sub(a, cost)) <==> forall name :: Get(a, name) >= Get(cost, name)
  {
    DeficitIffSomeAmountNegative(Sub(a, cost));
  }

  lemma AddThenSubRoundTrip(a: Resources, b: Resources)
    ensures Same(Sub(Add(a, b), b), a)
  {
  }

  lemma SubThenAddRoundTrip(a: Resources, b: Resources)
    ensures Same(Add(Sub(a, b), b), a)
  {
  }

  /** Subtracting a sum is subtracting its parts one after the other. */
  lemma SubOfSum(a: Resources, b: Resources, c: Resources)
    ensures Same(Sub(a, Add(b, c)), Sub(Sub(a, b), c))
  {
  }

  lemma ZeroIsNeutral(a: Resources)
    ensures Same(Add(Zero, a), a) && !Deficit(Zero)
  {
  }

}
