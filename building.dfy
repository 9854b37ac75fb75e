// Building catalogue entries and placed buildings (building.py).
module Buildings {
  import opened Wrappers
  import opened Coordinates
  import opened ResourceLedger

  /** The ten field names of building.py's `Resources` namedtuple, in order. */
  const ResourceFields: seq<ResourceName> :=
    ["money", "workers", "housing", "energy", "water", "food", "minerals", "glass", "spices", "electronics"]

  lemma ResourceFieldsAreTenDistinctNames()
    ensures |ResourceFields| == 10
    ensures forall i, j :: 0 <= i < j < |ResourceFields| ==> ResourceFields[i] != ResourceFields[j]
  {
  }

  /** The infrastructure kinds a tile can carry (the keys of INFRA_TYPES). */
  datatype Infra = Tunnels | Wires | Pipes

  /** A catalogue entry. `needs` stands for the `tunnels_needed`, `wires_needed`
      and `pipes_needed` attributes colony.py reads, which building.py does not define. */
  datatype BuildingType = BuildingType(
    name: string,
    cost: Resources,
    produces: Resources,
    ingredientUse: Resources,
    needs: set<Infra>)

  /** `str(building_type)`: its name. */
  function BuildingTypeStr(bt: BuildingType): string
  {
    bt.name
  }

  /** Whoever owns a tile or building; the model only keeps the name it prints. */
  datatype Owner = Owner(name: string)

  /** A placed building. The back-reference to its tile is the tile's coordinates. */
  datatype Building = Building(buildingType: BuildingType, tile: Coords, owner: Option<Owner>)

  /** The owner part of a `repr`: the owner's name, or "abandoned" when there is none. */
  function OwnerLabel(owner: Option<Owner>): string
  {
    if owner.Some? then owner.value.name else "abandoned"
  }

  /** `repr(building)`. */
  function BuildingRepr(b: Building): string
  {
    b.buildingType.name + " at " + CoordsRepr(b.tile) + " | " + OwnerLabel(b.owner) + " |"
  }

  /** A building's repr ends with "abandoned |" when it has no owner and with
      its owner's name otherwise; the two agree only for an owner named "abandoned". */
  lemma BuildingReprReportsOwner(b: Building)
    ensures var prefix := b.buildingType.name + " at " + CoordsRepr(b.tile) + " | ";
      BuildingRepr(b) == prefix + OwnerLabel(b.owner) + " |"
    ensures b.owner.None? ==> OwnerLabel(b.owner) == "abandoned"
    ensures b.owner.Some? ==> OwnerLabel(b.owner) == b.owner.value.name
    ensures OwnerLabel(b.owner) == "abandoned" <==> b.owner.None? || b.owner.value.name == "abandoned"
  {
  }

  /** A building's repr starts with its type's `str`, the type's name. */
  lemma BuildingReprStartsWithTypeStr(b: Building)
    ensures BuildingTypeStr(b.buildingType) == b.buildingType.name
    ensures BuildingRepr(b)[..|BuildingTypeStr(b.buildingType)|] == BuildingTypeStr(b.buildingType)
  {
  }

  /** The building's per-tick contribution to the colony balance (the unseen
      `Building.calculate_balance`): what it produces minus what it uses. */
  function Contribution(b: Building): (r: Resources)
    ensures forall name :: Get(r, name) == Get(b.buildingType.produces, name) - Get(b.buildingType.ingredientUse, name)
  {
    Sub(b.buildingType.produces, b.buildingType.ingredientUse)
  }

}
