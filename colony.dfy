// A colony's ledger (colony.py): the tiles it tracks, its buildings, its
// resources and its per-tick balance. The tiles themselves live in the shared
// dictionary of tiles, so every operation that changes a tile takes that
// dictionary and changes the entry at the tile's coordinates.
module Colonies {
  import opened Wrappers
  import opened Coordinates
  import opened ResourceLedger
  import opened Buildings
  import opened Tiles

  /** The keys of INFRA_TYPES in iteration order. */
  const InfraKinds: seq<Infra> := [Tunnels, Wires, Pipes]

  /** The resources a colony starts with when none are given. */
  const DefaultResources: Resources := map["money" := 1000, "concrete" := 1000, "steel" := 100]

  /** A colony given the default resources can pay a cost exactly when the cost
      asks for at most 1000 money, 1000 concrete and 100 steel and for nothing
      else; with cost := TotalCost of the base type this decides whether the
      constructor places the base. */
  lemma DefaultResourcesCover(cost: Resources)
    ensures !Deficit(Sub(DefaultResources, cost)) <==>
      && Get(cost, "money") <= 1000 && Get(cost, "concrete") <= 1000 && Get(cost, "steel") <= 100
      && forall name :: name != "money" && name != "concrete" && name != "steel" ==> Get(cost, name) <= 0
  {
    AffordableIffCovered(DefaultResources, cost);
    assert Get(DefaultResources, "money") == 1000;
    assert Get(DefaultResources, "concrete") == 1000;
    assert Get(DefaultResources, "steel") == 100;
  }

  /** The infrastructure kinds among `kinds` that the building type needs and
      the tile lacks, in the order of `kinds`. */
  function Needed(buildingType: BuildingType, tile: Tile, kinds: seq<Infra>): seq<Infra>
  {
    if kinds == [] then []
    else
      var last := kinds[|kinds| - 1];
      Needed(buildingType, tile, kinds[..|kinds| - 1])
        + (if last in buildingType.needs && !HasInfra(tile, last) then [last] else [])
  }

  /** `acc` plus the cost of each kind in `kinds`, added left to right. */
  function CostOf(acc: Resources, kinds: seq<Infra>, infraCost: Infra -> Resources): Resources
  {
    if kinds == [] then acc
    else Add(CostOf(acc, kinds[..|kinds| - 1], infraCost), infraCost(kinds[|kinds| - 1]))
  }

  /** What placing a building of this type on this tile costs. */
  function TotalCost(buildingType: BuildingType, tile: Tile, infraCost: Infra -> Resources): Resources
  {
    CostOf(buildingType.cost, Needed(buildingType, tile, InfraKinds), infraCost)
  }

  /** The tile with each flag in `kinds` set. */
  function WithAllInfra(tile: Tile, kinds: seq<Infra>): Tile
  {
    if kinds == [] then tile
    else WithInfra(WithAllInfra(tile, kinds[..|kinds| - 1]), kinds[|kinds| - 1])
  }

  /** The tile once a building is placed on it: the building recorded and
      the flags its type needs and the tile lacked set. */
  function Placed(tile: Tile, building: Building): Tile
  {
    WithAllInfra(tile.(building := Some(building)), Needed(building.buildingType, tile, InfraKinds))
  }

  /** The balance of the buildings listed in `order`, summed from zero in that order. */
  function Balance(buildings: map<Coords, Building>, order: seq<Coords>): Resources
    requires forall c :: c in order ==> c in buildings
  {
    if order == [] then Zero
    else Add(Balance(buildings, order[..|order| - 1]), Contribution(buildings[order[|order| - 1]]))
  }

  /** The amount of one resource summed over the contributions, as plain integers. */
  function ContributionSum(buildings: map<Coords, Building>, order: seq<Coords>, name: ResourceName): int
    requires forall c :: c in order ==> c in buildings
  {
    if order == [] then 0
    else ContributionSum(buildings, order[..|order| - 1], name) + Get(Contribution(buildings[order[|order| - 1]]), name)
  }

  /** The amount of one resource summed over the costs of `kinds`. */
  function CostSum(kinds: seq<Infra>, infraCost: Infra -> Resources, name: ResourceName): int
  {
    if kinds == [] then 0
    else CostSum(kinds[..|kinds| - 1], infraCost, name) + Get(infraCost(kinds[|kinds| - 1]), name)
  }

  // ---- Properties of the specification functions ----

  /** A kind is needed exactly when it is listed, the type needs it and the tile lacks it. */
  lemma {:induction false} NeededMembers(buildingType: BuildingType, tile: Tile, kinds: seq<Infra>, k: Infra)
    ensures k in Needed(buildingType, tile, kinds) <==> k in kinds && k in buildingType.needs && !HasInfra(tile, k)
  {
    if kinds != [] {
      var init := kinds[..|kinds| - 1];
      NeededMembers(buildingType, tile, init, k);
      assert kinds == init + [kinds[|kinds| - 1]];
    }
  }

  /** The needed kinds of the full list are exactly the kinds the type needs and the tile lacks. */
  lemma NeededKinds(buildingType: BuildingType, tile: Tile, k: Infra)
    ensures k in Needed(buildingType, tile, InfraKinds) <==> k in buildingType.needs && !HasInfra(tile, k)
  {
    NeededMembers(buildingType, tile, InfraKinds, k);
    assert k in InfraKinds by {
      match k
      case Tunnels => assert InfraKinds[0] == k;
      case Wires => assert InfraKinds[1] == k;
      case Pipes => assert InfraKinds[2] == k;
    }
  }

  /** Each resource of a cost sum is the starting amount plus the kinds' amounts. */
  lemma {:induction false} CostOfAmounts(acc: Resources, kinds: seq<Infra>, infraCost: Infra -> Resources, name: ResourceName)
    ensures Get(CostOf(acc, kinds, infraCost), name) == Get(acc, name) + CostSum(kinds, infraCost, name)
  {
    if kinds != [] {
      CostOfAmounts(acc, kinds[..|kinds| - 1], infraCost, name);
    }
  }

  /** Infrastructure the tile already has, or the type does not need, adds
      nothing: with no kind both needed and missing the cost is the type's own. */
  lemma NothingMissingCostsTheType(buildingType: BuildingType, tile: Tile, infraCost: Infra -> Resources)
    requires forall k :: k in buildingType.needs ==> HasInfra(tile, k)
    ensures TotalCost(buildingType, tile, infraCost) == buildingType.cost
  {
    if Needed(buildingType, tile, InfraKinds) != [] {
      var k := Needed(buildingType, tile, InfraKinds)[0];
      NeededKinds(buildingType, tile, k);
    }
  }

  /** Setting the flags in `kinds` sets those and leaves every other part of the tile. */
  lemma {:induction false} WithAllInfraFlags(tile: Tile, kinds: seq<Infra>, k: Infra)
    ensures HasInfra(WithAllInfra(tile, kinds), k) <==> HasInfra(tile, k) || k in kinds
    ensures WithAllInfra(tile, kinds).coords == tile.coords
    ensures WithAllInfra(tile, kinds).building == tile.building
    ensures WithAllInfra(tile, kinds).terrain == tile.terrain
    ensures WithAllInfra(tile, kinds).altitude == tile.altitude
  {
    if kinds != [] {
      var init := kinds[..|kinds| - 1];
      WithAllInfraFlags(tile, init, k);
      assert kinds == init + [kinds[|kinds| - 1]];
    }
  }

  /** After a building is placed, the tile carries every kind its type needs,
      keeps the kinds it had and gains no other. */
  lemma PlacedTile(tile: Tile, building: Building, k: Infra)
    ensures HasInfra(Placed(tile, building), k) <==> HasInfra(tile, k) || k in building.buildingType.needs
    ensures Placed(tile, building).building == Some(building)
    ensures Placed(tile, building).coords == tile.coords
    ensures Placed(tile, building).terrain == tile.terrain && Placed(tile, building).altitude == tile.altitude
  {
    WithAllInfraFlags(tile.(building := Some(building)), Needed(building.buildingType, tile, InfraKinds), k);
    NeededKinds(building.buildingType, tile, k);
  }

  /** Each resource of the balance is the sum of the buildings' contributions. */
  lemma {:induction false} BalanceAmounts(buildings: map<Coords, Building>, order: seq<Coords>, name: ResourceName)
    requires forall c :: c in order ==> c in buildings
    ensures Get(Balance(buildings, order), name) == ContributionSum(buildings, order, name)
  {
    if order != [] {
      BalanceAmounts(buildings, order[..|order| - 1], name);
    }
  }

  /** Entries not listed in the order do not count. */
  lemma {:induction false} BalanceIgnoresUnlisted(buildings: map<Coords, Building>, order: seq<Coords>, c: Coords, b: Building)
    requires forall x :: x in order ==> x in buildings
    requires c !in order
    ensures Balance(buildings[c := b], order) == Balance(buildings, order)
  {
    if order != [] {
      BalanceIgnoresUnlisted(buildings, order[..|order| - 1], c, b);
    }
  }

  /** A new building adds its contribution to the balance and nothing else. */
  lemma NewBuildingBalance(buildings: map<Coords, Building>, order: seq<Coords>, c: Coords, b: Building)
    requires forall x :: x in order ==> x in buildings
    requires c !in order
    ensures Balance(buildings[c := b], order + [c]) == Add(Balance(buildings, order), Contribution(b))
  {
    BalanceIgnoresUnlisted(buildings, order, c, b);
    assert (order + [c])[..|order|] == order;
  }

  /** A dictionary insertion: a new key goes last, an existing key keeps its place. */
  function InsertKey(order: seq<Coords>, c: Coords): (r: seq<Coords>)
    ensures c in r && forall x :: x in order ==> x in r
    ensures forall x :: x in r ==> x in order || x == c
    ensures Distinct(order) ==> Distinct(r)
  {
    if c in order then order else order + [c]
  }

  /** A colony: the coordinates of the tiles it tracks, its buildings keyed by
      coordinates in insertion order, its resources and its per-tick balance. */
  class Colony {
    var owner: Owner
    var baseCoords: Coords
    var tiles: seq<Coords>
    var buildings: map<Coords, Building>
    var buildingOrder: seq<Coords>
    var resources: Resources
    var resourceBalance: Resources

    /** Tracked tiles and buildings are dictionaries keyed once each; every
        building sits on a tracked tile whose coordinates it records. */
    ghost predicate Tracked()
      reads this
    {
      && Distinct(tiles)
      && Distinct(buildingOrder)
      && (forall c :: c in buildings <==> c in buildingOrder)
      && (forall c :: c in buildings ==> c in tiles && buildings[c].tile == c && buildings[c].owner == Some(owner))
    }

    /** Between operations the balance is the one `calculate_balance` gives for
        the current buildings. */
    ghost predicate Valid()
      reads this
    {
      Tracked() && resourceBalance == Balance(buildings, buildingOrder)
    }

    /** Every building is the one on its tile in the shared dictionary. */
    ghost predicate OnMap(world: TileMap)
      reads this, world
    {
      forall c :: c in buildings ==> c in world.tiles && world.tiles[c].building == Some(buildings[c])
    }

    /** `_add_tile`: track the tile unless it is tracked already. */
    method AddTile(c: Coords) returns (added: bool)
      requires Tracked()
      modifies this
      ensures Tracked() && (old(Valid()) ==> Valid())
      ensures added <==> c !in old(tiles)
      ensures tiles == InsertKey(old(tiles), c)
      ensures buildings == old(buildings) && buildingOrder == old(buildingOrder)
      ensures resources == old(resources) && resourceBalance == old(resourceBalance)
      ensures owner == old(owner) && baseCoords == old(baseCoords)
    {
      if c in tiles {
        return false;
      }
      tiles := tiles + [c];
      return true;
    }

    /** `add_infra`: if the resources cover the cost, track the tile, set the
        flag and pay; otherwise change nothing. An existing flag is not
        checked, so the cost is paid again. */
    method AddInfra(world: TileMap, c: Coords, kind: Infra, infraCost: Infra -> Resources) returns (ok: bool)
      requires Valid() && world.Valid() && OnMap(world) && c in world.tiles
      modifies this, world
      ensures Valid() && world.Valid() && OnMap(world) && world.order == old(world.order)
      ensures ok <==> !Deficit(Sub(old(resources), infraCost(kind)))
      ensures !ok ==> world.tiles == old(world.tiles) && tiles == old(tiles) && resources == old(resources)
      ensures ok ==> world.tiles == old(world.tiles)[c := WithInfra(old(world.tiles)[c], kind)]
      ensures ok ==> tiles == InsertKey(old(tiles), c) && resources == Sub(old(resources), infraCost(kind))
      ensures ok ==> !Deficit(resources)
      ensures buildings == old(buildings) && buildingOrder == old(buildingOrder)
      ensures resourceBalance == old(resourceBalance) && owner == old(owner) && baseCoords == old(baseCoords)
    {
      var cost := infraCost(kind);
      if Deficit(Sub(resources, cost)) {
        return false;
      }
      var _ := AddTile(c);
      SetTile(world, c, WithInfra(world.tiles[c], kind));
      Pay(cost);
      return true;
    }

    /** The debit that ends `add_infra` and `add_building`. */
    method Pay(cost: Resources)
      requires Tracked()
      modifies this
      ensures Tracked() && (old(Valid()) ==> Valid())
      ensures resources == Sub(old(resources), cost)
      ensures tiles == old(tiles) && buildings == old(buildings) && buildingOrder == old(buildingOrder)
      ensures resourceBalance == old(resourceBalance) && owner == old(owner) && baseCoords == old(baseCoords)
    {
      resources := Sub(resources, cost);
    }

    /** `calculate_balance`: the balance rebuilt from zero over the buildings
        in insertion order; the previous balance plays no part. */
    method CalculateBalance()
      requires Tracked()
      modifies this
      ensures Valid()
      ensures resourceBalance == Balance(buildings, buildingOrder)
      ensures tiles == old(tiles) && buildings == old(buildings) && buildingOrder == old(buildingOrder)
      ensures resources == old(resources) && owner == old(owner) && baseCoords == old(baseCoords)
    {
      var balance := SumBalance(buildings, buildingOrder);
      resourceBalance := balance;
    }

    /** The loop of `calculate_balance`. */
    static method SumBalance(buildings: map<Coords, Building>, order: seq<Coords>) returns (balance: Resources)
      requires forall c :: c in order ==> c in buildings
      ensures balance == Balance(buildings, order)
    {
      balance := Zero;
      for i := 0 to |order|
        invariant balance == Balance(buildings, order[..i])
      {
        assert order[..i + 1][..i] == order[..i];
        balance := Add(balance, Contribution(buildings[order[i]]));
      }
      assert order[..|order|] == order;
    }

    /** The loop of `add_building` that gathers the missing infrastructure and
        adds up the cost. */
    static method GatherCost(buildingType: BuildingType, tile: Tile, kinds: seq<Infra>, infraCost: Infra -> Resources)
      returns (totalCost: Resources, infraNeeded: seq<Infra>)
      ensures infraNeeded == Needed(buildingType, tile, kinds)
      ensures totalCost == CostOf(buildingType.cost, infraNeeded, infraCost)
    {
      totalCost := buildingType.cost;
      infraNeeded := [];
      for i := 0 to |kinds|
        invariant infraNeeded == Needed(buildingType, tile, kinds[..i])
        invariant totalCost == CostOf(buildingType.cost, infraNeeded, infraCost)
      {
        var infra := kinds[i];
        assert kinds[..i + 1][..i] == kinds[..i];
        if infra in buildingType.needs && !HasInfra(tile, infra) {
          ghost var before := infraNeeded;
          infraNeeded := infraNeeded + [infra];
          assert infraNeeded[..|infraNeeded| - 1] == before;
          totalCost := Add(totalCost, infraCost(infra));
        }
      }
      assert kinds[..|kinds|] == kinds;
    }

    /** The loop of `add_building` that sets each needed flag on the tile. */
    static method SetFlags(world: TileMap, c: Coords, kinds: seq<Infra>)
      requires world.Valid() && c in world.tiles
      modifies world
      ensures world.Valid() && world.order == old(world.order)
      ensures world.tiles == old(world.tiles)[c := WithAllInfra(old(world.tiles)[c], kinds)]
    {
      ghost var start := world.tiles[c];
      for i := 0 to |kinds|
        invariant world.Valid() && world.order == old(world.order)
        invariant world.tiles == old(world.tiles)[c := WithAllInfra(start, kinds[..i])]
      {
        assert kinds[..i + 1][..i] == kinds[..i];
        SetTile(world, c, WithInfra(world.tiles[c], kinds[i]));
      }
      assert kinds[..|kinds|] == kinds;
    }

    /** The part of `add_building` that records the building: the tile is
        tracked, the building is put on it and into the buildings dictionary
        (replacing any building already recorded at c). */
    method PlaceBuilding(world: TileMap, c: Coords, building: Building)
      requires Tracked() && world.Valid() && OnMap(world) && c in world.tiles
      requires building.tile == c && building.owner == Some(owner)
      modifies this, world
      ensures Tracked() && world.Valid() && OnMap(world) && world.order == old(world.order)
      ensures world.tiles == old(world.tiles)[c := old(world.tiles)[c].(building := Some(building))]
      ensures tiles == InsertKey(old(tiles), c)
      ensures buildings == old(buildings)[c := building]
      ensures buildingOrder == InsertKey(old(buildingOrder), c)
      ensures resources == old(resources) && resourceBalance == old(resourceBalance)
      ensures owner == old(owner) && baseCoords == old(baseCoords)
    {
      var _ := AddTile(c);
      SetTile(world, c, world.tiles[c].(building := Some(building)));
      buildings := buildings[c := building];
      buildingOrder := InsertKey(buildingOrder, c);
    }

    /** Setting flags on a tile keeps every building where it is. */
    method SetNeededFlags(world: TileMap, c: Coords, kinds: seq<Infra>)
      requires Tracked() && world.Valid() && OnMap(world) && c in world.tiles
      modifies world
      ensures world.Valid() && OnMap(world) && world.order == old(world.order)
      ensures world.tiles == old(world.tiles)[c := WithAllInfra(old(world.tiles)[c], kinds)]
    {
      PlacedFlagsKeepBuilding(world.tiles[c], kinds);
      SetFlags(world, c, kinds);
    }

    /** The part of `add_building` after the cost check: record the building,
        set the missing flags, pay and recompute the balance. */
    method Build(world: TileMap, c: Coords, building: Building, infraNeeded: seq<Infra>, totalCost: Resources)
      requires Valid() && world.Valid() && OnMap(world) && c in world.tiles
      requires building.tile == c && building.owner == Some(owner)
      requires infraNeeded == Needed(building.buildingType, world.tiles[c], InfraKinds)
      modifies this, world
      ensures Valid() && world.Valid() && OnMap(world) && world.order == old(world.order)
      ensures world.tiles == old(world.tiles)[c := Placed(old(world.tiles)[c], building)]
      ensures tiles == InsertKey(old(tiles), c)
      ensures buildings == old(buildings)[c := building]
      ensures buildingOrder == InsertKey(old(buildingOrder), c)
      ensures resources == Sub(old(resources), totalCost)
      ensures resourceBalance == Balance(buildings, buildingOrder)
      ensures c !in old(buildingOrder) ==>
        resourceBalance == Add(Balance(old(buildings), old(buildingOrder)), Contribution(building))
      ensures owner == old(owner) && baseCoords == old(baseCoords)
    {
      ghost var tile := world.tiles[c];
      ghost var before, beforeOrder := buildings, buildingOrder;
      PlaceBuilding(world, c, building);
      ghost var placed := world.tiles;
      SetNeededFlags(world, c, infraNeeded);
      UpdateTwice(old(world.tiles), c, placed[c], Placed(tile, building));
      Pay(totalCost);
      CalculateBalance();
      if c !in beforeOrder {
        NewBuildingBalance(before, beforeOrder, c, building);
      }
    }

    /** `add_building`: if the resources cover the type's cost plus the missing
        infrastructure, track the tile, place the building there (replacing any
        building already recorded at c), set the missing flags, pay and
        recompute the balance; otherwise change nothing. */
    method AddBuilding(world: TileMap, c: Coords, buildingType: BuildingType, infraCost: Infra -> Resources)
      returns (ok: bool)
      requires Valid() && world.Valid() && OnMap(world) && c in world.tiles
      modifies this, world
      ensures Valid() && world.Valid() && OnMap(world) && world.order == old(world.order)
      ensures ok <==> !Deficit(Sub(old(resources), TotalCost(buildingType, old(world.tiles)[c], infraCost)))
      ensures !ok ==> world.tiles == old(world.tiles) && tiles == old(tiles) && resources == old(resources)
      ensures !ok ==> buildings == old(buildings) && buildingOrder == old(buildingOrder)
      ensures !ok ==> resourceBalance == old(resourceBalance)
      ensures ok ==> world.tiles == old(world.tiles)[c := Placed(old(world.tiles)[c], Building(buildingType, c, Some(owner)))]
      ensures ok ==> tiles == InsertKey(old(tiles), c)
      ensures ok ==> buildings == old(buildings)[c := Building(buildingType, c, Some(owner))]
      ensures ok ==> buildingOrder == InsertKey(old(buildingOrder), c)
      ensures ok ==> resources == Sub(old(resources), TotalCost(buildingType, old(world.tiles)[c], infraCost))
      ensures ok ==> !Deficit(resources)
      ensures ok ==> resourceBalance == Balance(buildings, buildingOrder)
      ensures ok && c !in old(buildingOrder) ==>
        resourceBalance == Add(Balance(old(buildings), old(buildingOrder)), Contribution(Building(buildingType, c, Some(owner))))
      ensures owner == old(owner) && baseCoords == old(baseCoords)
    {
      var totalCost, infraNeeded := GatherCost(buildingType, world.tiles[c], InfraKinds, infraCost);
      if Deficit(Sub(resources, totalCost)) {
        return false;
      }
      Build(world, c, Building(buildingType, c, Some(owner)), infraNeeded, totalCost);
      return true;
    }

    /** `Colony(interface, base, resources)`: an empty colony that then places
        the base building on the base tile. */
    constructor (world: TileMap, owner: Owner, base: Coords, resources: Resources, baseType: BuildingType,
                 infraCost: Infra -> Resources)
      requires world.Valid() && base in world.tiles
      modifies world
      ensures Valid() && world.Valid() && OnMap(world) && world.order == old(world.order)
      ensures this.owner == owner && baseCoords == base
      ensures var cost := TotalCost(baseType, old(world.tiles)[base], infraCost);
        if Deficit(Sub(resources, cost)) then
          && tiles == [] && buildings == map[] && buildingOrder == []
          && this.resources == resources && resourceBalance == Zero
          && world.tiles == old(world.tiles)
        else
          && tiles == [base] && buildingOrder == [base]
          && buildings == map[base := Building(baseType, base, Some(owner))]
          && this.resources == Sub(resources, cost)
          && resourceBalance == Balance(buildings, buildingOrder)
          && world.tiles == old(world.tiles)[base := Placed(old(world.tiles)[base], Building(baseType, base, Some(owner)))]
    {
      this.owner := owner;
      baseCoords := base;
      tiles := [];
      buildings := map[];
      buildingOrder := [];
      this.resources := resources;
      resourceBalance := Zero;
      new;
      var _ := AddBuilding(world, base, baseType, infraCost);
    }
  }

  /** Writing a key twice keeps the second value. */
  lemma UpdateTwice(m: map<Coords, Tile>, c: Coords, first: Tile, second: Tile)
    ensures m[c := first][c := second] == m[c := second]
  {
  }

  /** Setting flags keeps the building on the tile and its coordinates. */
  lemma PlacedFlagsKeepBuilding(tile: Tile, kinds: seq<Infra>)
    ensures WithAllInfra(tile, kinds).building == tile.building
    ensures WithAllInfra(tile, kinds).coords == tile.coords
  {
    WithAllInfraFlags(tile, kinds, Tunnels);
  }

}
