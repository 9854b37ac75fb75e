// Terrain kinds, tiles and the coordinate-keyed dictionary of tiles (tile.py).
module Tiles {
  import opened Wrappers
  import opened Coordinates
  import opened Buildings

  /** The six terrain kinds. terraform.py and generator.py address them as
      mountain, rocky, sand, ground, water and ice; tile.py's enum names the
      same members Mountain, Rough, Sand, Soil, Water and Ice. */
  datatype TerrainType = Mountain | Rocky | Sand | Ground | Water | Ice

  /** The enum's values, 1 to 6 in declaration order. */
  function TerrainValue(t: TerrainType): int
  {
    match t
    case Mountain => 1
    case Rocky => 2
    case Sand => 3
    case Ground => 4
    case Water => 5
    case Ice => 6
  }

  /** Six members, with distinct values that are exactly 1..6. */
  lemma TerrainValuesAreOneToSix(a: TerrainType, b: TerrainType)
    ensures 1 <= TerrainValue(a) <= 6
    ensures TerrainValue(a) == TerrainValue(b) <==> a == b
  {
    assert TerrainValue(Mountain) == 1 && TerrainValue(Rocky) == 2 && TerrainValue(Sand) == 3;
    assert TerrainValue(Ground) == 4 && TerrainValue(Water) == 5 && TerrainValue(Ice) == 6;
  }

  /** `str` of an enum member, with tile.py's member names. */
  function TerrainRepr(t: TerrainType): string
  {
    match t
    case Mountain => "TerrainType.Mountain"
    case Rocky => "TerrainType.Rough"
    case Sand => "TerrainType.Sand"
    case Ground => "TerrainType.Soil"
    case Water => "TerrainType.Water"
    case Ice => "TerrainType.Ice"
  }

  /** A map tile. Its coordinates are named `coords`, as generator.py and
      colony.py read them (tile.py stores them as `coordinates`). */
  datatype Tile = Tile(
    coords: Coords,
    terrain: TerrainType,
    altitude: int,
    building: Option<Building>,
    owner: Option<Owner>,
    tunnels: bool,
    wires: bool,
    pipes: bool,
    ore: bool,
    silica: bool,
    gold: bool)

  /** `Tile(coordinates, terrain, altitude)`: the arguments are stored as given;
      there is no building and no owner and every flag is off. */
  function NewTile(coords: Coords, terrain: TerrainType, altitude: int): (t: Tile)
    ensures t.coords == coords && t.terrain == terrain && t.altitude == altitude
    ensures t.building == None && t.owner == None
    ensures !t.tunnels && !t.wires && !t.pipes && !t.ore && !t.silica && !t.gold
  {
    Tile(coords, terrain, altitude, None, None, false, false, false, false, false, false)
  }

  /** A tile's infrastructure flag, `getattr(tile, infra)`. */
  function HasInfra(t: Tile, kind: Infra): bool
  {
    match kind
    case Tunnels => t.tunnels
    case Wires => t.wires
    case Pipes => t.pipes
  }

  /** `setattr(tile, infra, True)`. */
  function WithInfra(t: Tile, kind: Infra): (r: Tile)
    ensures HasInfra(r, kind)
    ensures forall other :: other != kind ==> HasInfra(r, other) == HasInfra(t, other)
    ensures r.coords == t.coords && r.terrain == t.terrain && r.altitude == t.altitude
    ensures r.building == t.building && r.owner == t.owner
    ensures r.ore == t.ore && r.silica == t.silica && r.gold == t.gold
  {
    match kind
    case Tunnels => t.(tunnels := true)
    case Wires => t.(wires := true)
    case Pipes => t.(pipes := true)
  }

  // ---- repr ----

  /** The phrases `repr` prints for the flags tunnels, wires, pipes, ore, silica and gold. */
  const FlagPhrases: seq<string> :=
    ["tunneled ", "wired ", "with plumbing ", "Ore deposits ", "Silica deposits ", "Gold deposists "]

  function Flags(t: Tile): seq<bool>
  {
    [t.tunnels, t.wires, t.pipes, t.ore, t.silica, t.gold]
  }

  /** The flag part of `repr`: for each flag in turn, its phrase when it is
      set and nothing otherwise. */
  function FlagText(t: Tile): string
  {
    Listing(Flags(t), FlagPhrases, 0)
  }

  /** The conditional concatenation from position `from` on. */
  function Listing(flags: seq<bool>, phrases: seq<string>, from: nat): string
    requires |flags| == |phrases|
    decreases |flags| - from
  {
    if from >= |flags| then ""
    else (if flags[from] then phrases[from] else "") + Listing(flags, phrases, from + 1)
  }

  /** `repr(tile)`. */
  function TileRepr(t: Tile): string
  {
    CoordsRepr(t.coords) + ": " + TerrainRepr(t.terrain) + " | "
    + OwnerLabel(t.owner) + " | "
    + (if t.building.Some? then BuildingRepr(t.building.value) else "")
    + FlagText(t)
  }

  /** The positions i >= from at which `flags` is set, in increasing order. */
  function SetPositions(flags: seq<bool>, from: nat): seq<nat>
    decreases |flags| - from
  {
    if from >= |flags| then []
    else (if flags[from] then [from] else []) + SetPositions(flags, from + 1)
  }

  function Concat(parts: seq<string>): string
  {
    if parts == [] then "" else parts[0] + Concat(parts[1..])
  }

  function Select(phrases: seq<string>, positions: seq<nat>): seq<string>
    requires forall k :: 0 <= k < |positions| ==> positions[k] < |phrases|
  {
    seq(|positions|, k requires 0 <= k < |positions| => phrases[positions[k]])
  }

  lemma {:induction false} SetPositionsAreTheSetFlags(flags: seq<bool>, from: nat)
    ensures forall k :: 0 <= k < |SetPositions(flags, from)| ==>
      from <= SetPositions(flags, from)[k] < |flags| && flags[SetPositions(flags, from)[k]]
    ensures forall i :: from <= i < |flags| && flags[i] ==> i in SetPositions(flags, from)
    ensures forall k, l :: 0 <= k < l < |SetPositions(flags, from)| ==>
      SetPositions(flags, from)[k] < SetPositions(flags, from)[l]
    decreases |flags| - from
  {
    if from < |flags| {
      SetPositionsAreTheSetFlags(flags, from + 1);
    }
  }

  /** The conditional concatenation is the concatenation of the phrases at
      exactly the set positions, in increasing order. */
  lemma {:induction false} ListingIsSetPhrases(flags: seq<bool>, phrases: seq<string>, from: nat)
    requires |flags| == |phrases|
    ensures forall k :: 0 <= k < |SetPositions(flags, from)| ==> SetPositions(flags, from)[k] < |phrases|
    ensures Listing(flags, phrases, from) == Concat(Select(phrases, SetPositions(flags, from)))
    decreases |flags| - from
  {
    SetPositionsAreTheSetFlags(flags, from);
    if from < |flags| {
      ListingIsSetPhrases(flags, phrases, from + 1);
      var rest := Select(phrases, SetPositions(flags, from + 1));
      if flags[from] {
        assert Select(phrases, SetPositions(flags, from)) == [phrases[from]] + rest;
        assert ([phrases[from]] + rest)[1..] == rest;
      } else {
        assert Select(phrases, SetPositions(flags, from)) == rest;
      }
    }
  }

  /** The flag text is the phrases of exactly the set flags, in the order
      tunnels, wires, pipes, ore, silica, gold. */
  lemma FlagTextListsSetFlagsInOrder(t: Tile)
    ensures var positions := SetPositions(Flags(t), 0);
      && (forall i :: 0 <= i < 6 ==> (i in positions <==> Flags(t)[i]))
      && (forall k, l :: 0 <= k < l < |positions| ==> positions[k] < positions[l])
      && (forall k :: 0 <= k < |positions| ==> positions[k] < 6)
      && FlagText(t) == Concat(Select(FlagPhrases, positions))
  {
    SetPositionsAreTheSetFlags(Flags(t), 0);
    ListingIsSetPhrases(Flags(t), FlagPhrases, 0);
  }

  /** `repr` shows the owner's name, or "abandoned" when the tile has no owner. */
  lemma TileReprShowsOwner(t: Tile)
    ensures var head := CoordsRepr(t.coords) + ": " + TerrainRepr(t.terrain) + " | ";
      TileRepr(t)[..|head|] == head
      && TileRepr(t)[|head|..|head| + |OwnerLabel(t.owner)|] == OwnerLabel(t.owner)
    ensures t.owner.None? ==> OwnerLabel(t.owner) == "abandoned"
    ensures t.owner.Some? ==> OwnerLabel(t.owner) == t.owner.value.name
  {
    var head := CoordsRepr(t.coords) + ": " + TerrainRepr(t.terrain) + " | ";
    var rest := " | " + (if t.building.Some? then BuildingRepr(t.building.value) else "") + FlagText(t);
    assert TileRepr(t) == head + OwnerLabel(t.owner) + rest;
  }

  // ---- The dictionary of tiles ----

  ghost predicate Distinct<T>(s: seq<T>)
  {
    forall i, j :: 0 <= i < j < |s| ==> s[i] != s[j]
  }

  /** The dictionary from coordinates to tiles that the generator builds and
      every other component reads and updates: `tiles` holds the entries and
      `order` the keys in insertion order. A tile changed in place is an entry
      replaced here. */
  class TileMap {
    var tiles: map<Coords, Tile>
    var order: seq<Coords>

    ghost predicate Valid()
      reads this
    {
      && Distinct(order)
      && (forall c :: c in tiles <==> c in order)
      && (forall c :: c in tiles ==> tiles[c].coords == c)
    }

    /** `tile_list_to_tile_dict`: each tile keyed by its coordinates, in list order. */
    constructor FromList(list: seq<Tile>)
      requires Distinct(seq(|list|, i requires 0 <= i < |list| => list[i].coords))
      ensures Valid()
      ensures order == seq(|list|, i requires 0 <= i < |list| => list[i].coords)
      ensures forall i :: 0 <= i < |list| ==> list[i].coords in tiles && tiles[list[i].coords] == list[i]
    {
      var keys := seq(|list|, i requires 0 <= i < |list| => list[i].coords);
      var m: map<Coords, Tile> := map[];
      var k := 0;
      while k < |list|
        invariant 0 <= k <= |list|
        invariant forall c :: c in m <==> c in keys[..k]
        invariant forall i :: 0 <= i < k ==> m[keys[i]] == list[i]
      {
        assert keys[..k + 1] == keys[..k] + [keys[k]];
        m := m[keys[k] := list[k]];
        k := k + 1;
      }
      assert keys[..k] == keys;
      assert forall i :: 0 <= i < |list| ==> keys[i] == list[i].coords;
      tiles := m;
      order := keys;
    }
  }

  /** `world[c] = t` for a key already present: the entry is replaced, the order stays. */
  method SetTile(world: TileMap, c: Coords, t: Tile)
    requires world.Valid() && c in world.tiles && t.coords == c
    modifies world
    ensures world.Valid() && world.order == old(world.order)
    ensures world.tiles == old(world.tiles)[c := t]
  {
    world.tiles := world.tiles[c := t];
  }

  /** A dictionary holds as many entries as it has keys in its order. */
  lemma {:induction false} EntryCount(tiles: map<Coords, Tile>, order: seq<Coords>)
    requires Distinct(order)
    requires forall c :: c in tiles <==> c in order
    ensures |tiles| == |order|
  {
    if order == [] {
      assert tiles == map[];
    } else {
      var last := order[|order| - 1];
      var init := order[..|order| - 1];
      var rest := tiles - {last};
      forall c ensures c in rest <==> c in init {
        if c in init {
          var i :| 0 <= i < |init| && init[i] == c;
          assert order[i] == c;
        }
        if c in order && c != last {
          var i :| 0 <= i < |order| && order[i] == c;
          assert i < |order| - 1;
          assert init[i] == c;
        }
      }
      EntryCount(rest, init);
      assert tiles.Keys == rest.Keys + {last};
    }
  }

}
