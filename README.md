# Terraform: a verified model of the hex-map core

This project models the core of *Terraform*, a hexagonal-map colony game, in Dafny and proves what
that core promises. It covers:

- axial hexagonal coordinates, their cube form, neighbours, distance and the cartesian centre;
- the spiral traversal `hexagonal_loop` and the sampled line `coords_in_between`;
- tiles and the dictionary of tiles keyed by coordinates;
- world generation: the hexagonal shape, bounded altitudes, the altitude relaxation loop and
  mountain tops;
- terraform cards: five tile operations over a seven-cell footprint, rotation of a card and
  its application around a centre;
- the colony ledger: tracked tiles, infrastructure, buildings, resources and the per-tick balance.

Modules, one per source file (plus two support modules):

| module | file | models |
|---|---|---|
| `Wrappers` | wrappers.dfy | `Option` |
| `Coordinates` | coords.dfy | `Coords`, `direction`, `distance`, `center_to_coords` (coords.py) |
| `HexTraversal` | hexloop.dfy | `hexagonal_loop`, `coords_in_between` (coords.py) |
| `ResourceLedger` | resources.dfy | the resource vectors colony.py adds, subtracts and checks for deficit |
| `Buildings` | building.dfy | `Resources` field names, `BuildingType`, `Building` (building.py) |
| `Tiles` | tile.dfy | `TerrainType`, `Tile`, `repr`, the coordinate-keyed dictionary of tiles (tile.py) |
| `Generator` | generator.dfy | `StandardGenerator` (generator.py) |
| `Terraforming` | terraform.dfy | `Terraform` and its operations (terraform.py) |
| `Colonies` | colony.dfy | `Colony` (colony.py) |

Form follows the source:

- Coordinates, tiles, buildings and resource vectors are values (datatypes and maps).
- The dictionary of tiles is a class, `Tiles.TileMap`. Its fields are the entry map and the
  insertion order. Python changes a tile in place; here that is a replacement of the entry at
  the tile's coordinates (`Tiles.SetTile`).
- `Terraform` and `Colony` are classes whose methods update their fields.
- Every loop of the source is a `while` or `for` loop. Each is proved against a specification
  function: `LoopTrace`, `Applied`, `Rotated`, `Needed`, `CostOf`, `Balance` and `WithAllInfra`.

Names the core uses but does not define are inputs of the model:

- the resource vectors and their arithmetic;
- the infrastructure costs `INFRA_TYPES[...]['cost']`, a function parameter;
- the base building type, a constructor parameter;
- the `*_needed` attributes of a building type, a `needs` set;
- `Building.calculate_balance`, modelled as produces minus ingredient use;
- `tile_list_to_tile_dict`, `TileMap.FromList`.

The single terrain enum is a modelling choice: it takes terraform.py's names and tile.py's
values 1..6, pairing rocky with `Rough` and ground with `Soil` (see "## Left out"). Two places where the source as written raises are listed under "## Left out", with
the choice the model makes there.

## Model

| member | source | states |
|---|---|---|
| Coordinates.EqualityIsByValue | coords.py:17-21 | two coordinates are equal, and hash alike, exactly when their (r, q) pairs are equal |
| Coordinates.CubeCoordinatesSumToZero | coords.py:31-35 | the cube coordinates x, y, z of every cell sum to zero |
| Coordinates.PriorityIsNegatedCenterHeight | coords.py:37-44 | the screen priority is the negated vertical component of the cell's centre |
| Coordinates.DirectionIsUnitOffset | coords.py:53-60 | directions 0..5 are offsets of length 1; any other index gives the zero offset |
| Coordinates.OppositeDirectionsCancel | coords.py:53-60 | direction i and direction (i + 3) mod 6 add up to the zero offset |
| Coordinates.NeighbourRoundTrip | coords.py:46-47 | stepping in direction i and then in the opposite direction returns to the start |
| Coordinates.NeighboursAreSymmetric | coords.py:49-50 | a cell is neighbour (i + 3) mod 6 of its own neighbour i |
| Coordinates.NeighboursAtDistanceOne | coords.py:49-50 | a cell has six neighbours, each at distance 1 |
| Coordinates.DistanceOneIsNeighbour | coords.py:67-68 | d is at distance 1 from c if and only if d is one of c's six neighbours |
| Coordinates.DistanceToOffset | coords.py:67-68 | the distance from c to c + d is the length of d |
| Coordinates.DistanceIsSymmetric | coords.py:67-68 | distance(a, b) == distance(b, a) |
| Coordinates.DistanceZeroIffEqual | coords.py:67-68 | the distance is non-negative and is zero exactly for equal cells |
| Coordinates.DistanceTriangle | coords.py:67-68 | the distance obeys the triangle inequality |
| Coordinates.DistanceTranslationInvariant | coords.py:67-68 | translating both cells by the same offset keeps their distance |
| Coordinates.CenterRoundTrip | coords.py:63-64 | `center_to_coords` inverts `center` for every cell, negative coordinates included (floor division) |
| Coordinates.CenterIsInjective | coords.py:41-44 | distinct cells have distinct centres |
| Coordinates.ScaleIsRepeatedAddition | coords.py:26-27 | the corrected multiplication by k is k-fold addition of the cell |
| Coordinates.ScaleAsWrittenDropsQ | coords.py:26-27 | the multiplication as written maps (0, 1) * 2 to (0, 0), where 2-fold addition gives (0, 2) |
| HexTraversal.HexagonalLoop | coords.py:71-94 | with `use_memory`, the loop returns f applied to every visit of the spiral trace, in visiting order |
| HexTraversal.WalkSide | coords.py:90-92 | walking one side of ring n appends f of that side's n visits and ends on the first cell of the next side |
| HexTraversal.RingStartsInDirectionFour | coords.py:88-89 | each ring starts one step in direction 4 from the start of the previous ring |
| HexTraversal.RingWalk | coords.py:90-92 | a step in direction `side` moves to the next cell of that side, and the last cell of a side leads to the first of the next |
| HexTraversal.RingCellDistance | coords.py:88-92 | every cell of ring n lies at distance exactly n from the start |
| HexTraversal.RingOffsetInjective | coords.py:90-92 | within one ring, different (side, step) labels are different cells |
| HexTraversal.RingPositionIsOnRing | coords.py:88-92 | every cell at distance n >= 1 is reached on ring n, at the side and step `RingPosition` names |
| HexTraversal.RingLength | coords.py:90-92 | `sides` sides of ring n make sides * n visits |
| HexTraversal.LoopTraceLength | coords.py:86-92 | the loop of radius R makes 3R^2 + 3R + 1 visits |
| HexTraversal.LoopTraceStartsAtStart | coords.py:86-87 | the first visit is the start, labelled (0, 0, 0) |
| HexTraversal.LoopTraceWellLabelled | coords.py:86-92 | every visit is labelled with its ring, which is its distance from the start, and a valid side and step |
| HexTraversal.LoopTraceDistinct | coords.py:86-92 | no cell is visited twice |
| HexTraversal.LoopTraceCovers | coords.py:86-92 | every cell within the radius is visited |
| HexTraversal.RoundHalfEvenIsNearest | coords.py:99-101 | the rounded value is within half a unit of the exact quotient |
| HexTraversal.RoundHalfEvenExact | coords.py:99-101 | an exact integer quotient rounds to itself |
| HexTraversal.RoundHalfEvenTie | coords.py:99-101 | a quotient exactly halfway between k and k + 1 rounds to whichever of the two is even |
| HexTraversal.InterpolationEndpoints | coords.py:103-105 | interpolating at t = 0 gives a and at t = 1 gives b |
| HexTraversal.CoordsInBetween | coords.py:97-112 | the result has distance(a, b) + 1 cells, starts at a, ends at b, and cell d is the interpolation at d / distance |
| ResourceLedger.Add | colony.py:41 | the sum has both operands' names, and each amount is the sum of the two amounts |
| ResourceLedger.Sub | colony.py:30 | the difference has both operands' names, and each amount is the difference of the two amounts |
| ResourceLedger.DeficitIffSomeAmountNegative | colony.py:27 | a vector is in deficit exactly when some amount is negative |
| ResourceLedger.AffordableIffCovered | colony.py:27 | resources minus a cost shows no deficit exactly when every amount covers the cost |
| ResourceLedger.AddThenSubRoundTrip | colony.py:41-50 | adding a cost and then subtracting it gives back the same amounts |
| ResourceLedger.SubThenAddRoundTrip | colony.py:30 | subtracting and then adding the same vector gives back the same amounts |
| ResourceLedger.SubOfSum | colony.py:41-50 | subtracting a sum of costs is subtracting each cost in turn |
| ResourceLedger.ZeroIsNeutral | colony.py:56-58 | adding the empty vector changes no amount |
| Buildings.ResourceFieldsAreTenDistinctNames | building.py:6-8 | the resource vector has ten distinct fields |
| Buildings.BuildingReprReportsOwner | building.py:34-36 | a building's repr ends with its owner, or "abandoned" when there is none |
| Buildings.BuildingReprStartsWithTypeStr | building.py:18-19 | `str` of a building type is its name, and a building's repr starts with it |
| Buildings.Contribution | colony.py:58 | a building's balance contribution is, amount by amount, what it produces minus what it uses |
| Tiles.TerrainValuesAreOneToSix | tile.py:5-11 | the six terrain kinds have the distinct values 1 to 6 |
| Tiles.NewTile | tile.py:35-46 | a new tile keeps its coordinates, terrain and altitude and has no building, no owner and no flag set |
| Tiles.WithInfra | colony.py:29 | setting an infrastructure flag sets that flag and leaves the other flags and every other field as they were |
| Tiles.SetPositionsAreTheSetFlags | tile.py:55-60 | the positions listed are exactly the set flags, in increasing order |
| Tiles.ListingIsSetPhrases | tile.py:55-60 | the conditional concatenation is the concatenation of the phrases of exactly the set flags |
| Tiles.FlagTextListsSetFlagsInOrder | tile.py:55-60 | a tile's repr lists the phrases of exactly its set flags, in the order tunnels, wires, pipes, ore, silica, gold |
| Tiles.TileReprShowsOwner | tile.py:51-54 | a tile's repr starts with its coordinates and terrain, then shows its owner's name or "abandoned" |
| Tiles.TileMap.FromList | generator.py:44-45 | the dictionary holds each listed tile under its coordinates, keys in list order |
| Tiles.SetTile | generator.py:74-75 | replacing the tile at a present key changes that entry only and keeps the order |
| Tiles.EntryCount | generator.py:44-45 | the dictionary has as many entries as it has keys in its order |
| Generator.StandardSettingsAreUsable | generator.py:18-26 | the standard settings have a non-negative radius and amplitude and a positive altitude limit |
| Generator.ShapeDictionary | generator.py:39-45 | the shape holds 3R^2 + 3R + 1 tiles, exactly the cells within R of the origin, each a fresh sand tile |
| Generator.InitiateHexagonalShape | generator.py:39-45 | the new dictionary holds one fresh sand tile for each cell within the radius and nothing else, keyed in spiral order |
| Generator.Clamp | generator.py:59-61 | the clamped value lies within the bounds and equals the input when the input does |
| Generator.AssignNoiseAltitudes | generator.py:58-61 | every tile's altitude becomes its sample clamped to the amplitude, and nothing else changes |
| Generator.LevelingReachesLimit | generator.py:95-98 | after levelling, the pair differs by exactly the limit |
| Generator.LevelingShrinks | generator.py:95-98 | levelling a steep pair never raises the eccentric tile's absolute altitude, and lowers it when the limit is positive |
| Generator.LevelEccentricities | generator.py:86-98 | the tile of the pair with the larger absolute altitude (a on a tie) is moved to exactly the limit away from the other, on its own side; no other tile changes |
| Generator.LevelPairKeepsBounds | generator.py:104-108 | levelling one steep pair changes altitudes only, raises none and, with a positive limit, lowers one |
| Generator.LevelAround | generator.py:104-108 | levelling around one tile changes altitudes only and raises none; it levels something exactly when a neighbour was steep at the start, and then lowers some tile |
| Generator.FindEccentricities | generator.py:101-109 | one pass reports true exactly when the map was not smooth, changes only altitudes, raises none, and leaves a smooth map untouched |
| Generator.SumAbsFalls | generator.py:63 | a pass that lowers a tile and raises none lowers the sum of absolute altitudes: the loop's termination measure |
| Generator.NegativeLimitNeverSmooth | generator.py:63 | with a negative limit, no map holding two adjacent tiles is smooth, so the loop's pass never reports false |
| Generator.RelaxAltitudes | generator.py:63 | with a positive limit the relaxation loop ends, and no two adjacent tiles then differ by more than the limit |
| Generator.ReportOverLimit | generator.py:65-69 | the diagnostic reports nothing exactly when the map is smooth, and every report is a steep pair on the map |
| Generator.GenerateAltitudeFromNoise | generator.py:48-71 | afterwards only altitudes have changed, the map is smooth, the diagnostic is silent and every altitude is within the amplitude |
| Generator.GenerateMountainTops | generator.py:73-77 | every tile above altitude 2 becomes rocky and nothing else changes |
| Generator.Generate | generator.py:28-36 | the world has one tile per cell within the radius, is smooth, has altitudes within the amplitude, and is rocky exactly where the altitude exceeds 2 and sand elsewhere |
| Generator.SmoothnessIsAboutAltitudes | generator.py:73-77 | changing terrains only keeps a smooth map smooth |
| Generator.PositionScalesCenter | generator.py:80-83 | the horizontal sample position is the cell centre's scaled by the noise scale; the vertical one is the centre's height plus (1 - 2s) times y, because only the y term is scaled |
| Generator.CoordsToPositionIsInjective | generator.py:80-83 | at any non-zero scale, distinct cells sample distinct positions |
| Terraforming.ExplodeTile | terraform.py:61-66 | a non-mountain tile loses one altitude; water and ice become sand, every other terrain becomes rocky; nothing else changes |
| Terraforming.ElevateTile | terraform.py:69-73 | mountains are unchanged; any other tile gains one altitude and becomes sand unless it is water |
| Terraforming.PulverizeTile | terraform.py:76-78 | rocky becomes sand and sand becomes ground; altitude never changes |
| Terraforming.MeltTile | terraform.py:81-87 | sand becomes rocky, ground sand, ice water, and water sand one level lower; other terrains are unchanged |
| Terraforming.CometTile | terraform.py:90-92 | sand and ground become ice; altitude never changes |
| Terraforming.OperationsTouchOnlyTerrainAndAltitude | terraform.py:61-92 | every operation changes at most a tile's terrain and altitude |
| Terraforming.ExplodeLeavesSandOrRock | terraform.py:61-66 | exploding leaves sand or rock, sand exactly for water or ice, and never raises the tile |
| Terraforming.CometIsIdempotent | terraform.py:90-92 | a second comet changes nothing |
| Terraforming.PulverizeSettles | terraform.py:76-78 | a third pulverize changes nothing, and rock becomes ground after two |
| Terraforming.MeltingIceTwice | terraform.py:81-87 | melting ice twice leaves sand one level lower |
| Terraforming.ElevateRaisesAllButMountains | terraform.py:69-73 | elevating never lowers a tile and leaves exactly the mountains unchanged |
| Terraforming.FootprintIsTheUnitLoop | terraform.py:19 | the radius-1 loop around the origin visits exactly the seven footprint cells, in footprint order |
| Terraforming.FootprintIsRadiusOne | terraform.py:19 | the footprint is exactly the cells within distance 1 of the centre |
| Terraforming.FootprintHoldsDirections | terraform.py:97-99 | every direction offset is a footprint cell other than the centre |
| Terraforming.RotateCellOfDirection | terraform.py:98-99 | turning direction d by `rotation` gives direction (d + rotation) mod 6 |
| Terraforming.RotateCellStaysInFootprint | terraform.py:95-99 | turning keeps footprint cells in the footprint |
| Terraforming.RotateCellKeepsCentre | terraform.py:97 | only the centre turns onto the centre |
| Terraforming.RotateCellComposes | terraform.py:95-99 | turning by x and then by y is turning by x + y |
| Terraforming.RotateCellFullTurn | terraform.py:95 | turning by a multiple of six leaves every cell in place |
| Terraforming.RotateCellInverse | terraform.py:95-99 | turning back by -x undoes a turn by x |
| Terraforming.RotatedMovesEntries | terraform.py:94-100 | the rotated card keeps the centre's entry and moves direction d's entry to direction (d + rotation) mod 6, negative rotations included |
| Terraforming.RotatedEntries | terraform.py:94-100 | the rotated card has the footprint's keys, keeps the centre and moves every direction's entry on by the rotation |
| Terraforming.RotationsCompose | terraform.py:94-100 | rotating by a and then by b is rotating by a + b |
| Terraforming.FullTurnIsIdentity | terraform.py:94-100 | rotating by any multiple of six, six included, gives back the card |
| Terraforming.RotationLoopDone | terraform.py:96-100 | the configuration the rotation loop builds is the rotated card |
| Terraforming.OperationsOfRotated | terraform.py:94-100 | after rotation the centre's operation stays first and ring entry e holds entry (e - rotation) mod 6 |
| Terraforming.RotationKeepsOperations | terraform.py:94-100 | rotation rearranges the card's operations without adding or losing any (same multiset) |
| Terraforming.RotatedConfiguration | terraform.py:95-99 | the loop's new configuration equals the rotated card |
| Terraforming.ApplyStep | terraform.py:51-55 | applying one more cell applies its operation, if any, to the one tile at centre + cell, when that tile exists |
| Terraforming.ApplyNextCell | terraform.py:51-55 | applying the first k + 1 footprint cells is applying the first k and then cell k's operation |
| Terraforming.AppliedToWholeFootprint | terraform.py:51-55 | applying every footprint cell in turn is applying the whole card |
| Terraforming.ApplyLeavesOutsideAlone | terraform.py:50-55 | tiles farther than 1 from the centre are unchanged |
| Terraforming.ApplyEmptyIsIdentity | terraform.py:50-55 | a card with no operations changes no tile |
| Terraforming.Terraform.constructor | terraform.py:12-20 | the card is keyed by the seven cells of the radius-1 loop, each holding the chosen entry |
| Terraforming.Terraform.Rotate | terraform.py:94-100 | the card becomes the rotated card: the centre stays and direction d's entry moves to direction (d + rotation) mod 6 |
| Terraforming.Terraform.Apply | terraform.py:50-55 | the map becomes the card applied around the centre: each present tile at centre + cell gets its cell's operation once, absent cells are skipped, and no other tile changes |
| Colonies.DefaultResourcesCover | colony.py:8 | with the default resources, a cost can be paid exactly when it asks for at most 1000 money, 1000 concrete and 100 steel and nothing else |
| Colonies.NeededMembers | colony.py:38-40 | a kind is gathered exactly when it is listed, the building type needs it and the tile lacks it |
| Colonies.NeededKinds | colony.py:38-40 | over all infrastructure kinds, a kind is needed exactly when the type needs it and the tile lacks it |
| Colonies.CostOfAmounts | colony.py:36-41 | each amount of the total cost is the type's cost plus the costs of the gathered kinds |
| Colonies.NothingMissingCostsTheType | colony.py:36-41 | when the tile already has every kind the type needs, the total cost is the type's own cost |
| Colonies.WithAllInfraFlags | colony.py:48-49 | setting a list of flags sets exactly those flags on top of the tile's, and keeps its coordinates, building, terrain and altitude |
| Colonies.PlacedTile | colony.py:44-49 | a tile that received a building carries it and has exactly its old flags plus the type's needs |
| Colonies.BalanceAmounts | colony.py:55-58 | each amount of the balance is the sum of the buildings' contributions |
| Colonies.BalanceIgnoresUnlisted | colony.py:55-58 | an entry not among the listed buildings does not affect the balance |
| Colonies.NewBuildingBalance | colony.py:47-51 | recording a new building adds exactly its contribution to the balance |
| Colonies.InsertKey | colony.py:23 | a dictionary insertion keeps the old keys and adds the new one, with no key twice |
| Colonies.Colony.AddTile | colony.py:21-24 | the result is true exactly when the tile was not tracked, and the tile is tracked afterwards; nothing else changes |
| Colonies.Colony.AddInfra | colony.py:26-33 | succeeds exactly when resources minus the cost show no deficit; on failure nothing changes; on success the tile is tracked, the flag set and exactly the cost debited, even for a flag already set |
| Colonies.Colony.Pay | colony.py:30 | resources are lowered by exactly the cost |
| Colonies.Colony.CalculateBalance | colony.py:55-59 | the balance is rebuilt from zero over the buildings in insertion order, whatever it was before, which re-establishes `Valid` |
| Colonies.Colony.SumBalance | colony.py:56-58 | the loop sums every listed building's contribution from zero |
| Colonies.Colony.GatherCost | colony.py:36-41 | the loop gathers the needed kinds and adds their costs to the type's cost |
| Colonies.Colony.SetFlags | colony.py:48-49 | the loop sets each listed flag on the tile and changes no other entry |
| Colonies.Colony.PlaceBuilding | colony.py:44-47 | the tile is tracked, the building stands on it and is recorded under its coordinates, replacing any earlier one |
| Colonies.Colony.SetNeededFlags | colony.py:48-49 | the needed flags are set on the colony's tile and the buildings stay on the map |
| Colonies.Colony.Build | colony.py:44-51 | the building is placed, the missing flags set, exactly the total cost paid, and the balance recomputed |
| Colonies.Colony.AddBuilding | colony.py:35-53 | succeeds exactly when resources minus the total cost show no deficit; on failure nothing changes; on success the tile carries the building and the needed flags, exactly the total cost is paid, resources show no deficit, and the balance grows by the building's contribution when the cell was new; before and after, the balance field equals the sum of the buildings' contributions (`Valid`) |
| Colonies.Colony.constructor | colony.py:7-15 | a colony starts with nothing and then places its base building; it holds the base exactly when the resources cover its cost; otherwise it tracks nothing and no tile changes; on success the base tile alone changes, carrying the base building and its needed flags, and exactly the total cost is paid |

## Left out

- Perlin-noise sampling (generator.py:49-61). It uses numpy, an unseen noise module and floating point. The altitudes come in as an integer sample function, and clamping to the amplitude is modelled.
- The printing and sprite work: `print` calls, `Tile.setup`, `Building.setup`, `Terraform.setup` and `morph` (generator.py:33-34, 53, 87, 96; terraform.py:22-48, 57-58; colony.py:46). These are display only.
- The `tiles[coords].setup(tiles)` loop (terraform.py:57-58). It indexes footprint cells off the map without a check, so it raises an error near the edge. It is sprite work and is not modelled.
- The random choice of a card's operations (terraform.py:15-17). The constructor takes the choice as a function.
- `Colony.update` and the `Interface` it calls (colony.py:17-19, 31, 59). These are screen output.
- `Colony.tick` (colony.py:61-64). It iterates the buildings dictionary's keys, which are coordinates, and calls `tick` on them. `Building.tick` is not part of this model either.
- Dictionary order of `INFRA_TYPES`: it is assumed to be tunnels, wires, pipes. Only the order of the gathered list depends on it, not the cost or the flags.
- `Terraform.__call__` walks the configuration in its own key order, and that order changes after `rotate`. The model walks the footprint in loop order instead. Each cell touches a different tile, so the result is the same.
- Resource vectors are values. Two hazards are not modelled:
  - the shared mutable default argument at colony.py:8; its amounts are `Colonies.DefaultResources`, which the caller passes explicitly;
  - an in-place `+=` at colony.py:41, which could alter `building_type.cost` if the unseen `Resources` type mutates on addition.
- The owner of a colony's buildings is an `Owner` value. colony.py:45 stores the colony object itself.
- The repr of a building or tile shows the owner's name. building.py:36 formats the owner object.
- Tile coordinates: tile.py:36 stores the coordinates as `coordinates`, but generator.py and colony.py read `.coords`. As written those reads raise AttributeError. The model names the field `coords`, so the reads succeed.
- Shape tiles: generator.py:42 calls `Tile` without the `altitude` argument that tile.py:35 requires. As written this raises TypeError. The model gives the shape's tiles altitude 0.
- `BuildingType.__repr__` (building.py:21-25). It formats the unseen `Resources` values, so it is not modelled.
- `Tile.__str__` (tile.py:48-49) reads a misspelled attribute and always raises, so it is not modelled.
- tile.py's own `Coords` class (tile.py:15-31) duplicates coords.py's without equality. The model uses coords.py's value semantics throughout.
- HexTraversal.CoordsInBetween: requires a != b. For a == b the source divides by the zero distance and raises.
- HexTraversal.CoordsInBetween: interpolates on exact rationals with Python's round-half-to-even. The floating-point rounding of `d / dist` is not modelled.
- Generator.RelaxAltitudes: requires a positive limit; the standard limit is 3. With a negative limit the source's loop never ends on a map with two adjacent tiles: no such map is smooth (Generator.NegativeLimitNeverSmooth), so every pass reports true. With a limit of 0 the model does not show that the loop ends.
- Terraforming.Terraform.constructor: takes the choice as a function rather than drawing it at random.
- HexTraversal.HexagonalLoop: models the `use_memory` mode without `pass_memory`. With `pass_memory` the function also receives the list built so far, and its results are returned. Without `use_memory` the function is called for its effects only and nothing is returned. The core never calls those modes (generator.py:45, terraform.py:19).
- Terrain kinds: the single enum `Tiles.TerrainType` takes terraform.py's names and tile.py's values 1..6, pairing rocky with tile.py's `Rough` and ground with `Soil`. No source line makes this pairing. `TERRAIN_TYPES`, which terraform.py reads, is not part of this model, and game.py's terrain catalogue lists different kinds.

## Findings

| source | as written | input that shows it | evidently intended | confidence | as-written member | corrected member |
|---|---|---|---|---|---|---|
| coords.py:26-27 | `__mul__` builds both components from `r`, so `q` is dropped | `Coords(0, 1) * 2` gives `Coords(0, 0)` | `Coords(r * k, q * k)`, which is k-fold addition | not executed | Coordinates.ScaleAsWrittenDropsQ | Coordinates.ScaleIsRepeatedAddition |
