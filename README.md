# MicroMachine base-location manager in Dafny

This project models the base-location manager of the MicroMachine StarCraft II
bot. It also models the unit-type classifiers and the combat-upgrade bitset
that the manager and the bot use.

At game start the manager clusters the map's mineral fields and geysers. Every
cluster of more than four resources becomes a base location. The manager marks
a resource-proximity grid around every resource, and maps every tile of the
playable area to the base that contains it. It also records the start
locations, and each player's start base as far as it is known.

Every frame it does the following, in order:

- It repairs our start base when it is unknown.
- It recomputes from the resource depots which player occupies which base.
- It tries to find the enemy start: first the base the game reports, then
  elimination among the start locations.
- It rebuilds the per-player occupied sets.
- Once the enemy start is known, it sorts the bases by distance to it. This
  happens once.

The queries pick the next expansion, the closest occupied base, the base of a
depot, or the base containing a position. Two setters change the bases'
blocked flags.

Layout:

- `common.dfy` (`Common`): positions, tiles, neutral resources, the squared
  distance, and the float-to-int cast, which truncates toward zero.
- `unit_type.dfy` (`UnitTypes`): `UnitType` and its switch-table classifiers,
  written as functions. Type ids are the integer values of the SC2 API's
  `UNIT_TYPEID`.
- `combat_upgrades.dfy` (`CombatUpgrades`): the bounds-checked bitset. The
  bitset is an `array<bool>` that `Add` writes in place; `Test` and `Set`
  are the value-level reading and writing it is proved against.
- `selection.dfy` (`Selection`): the scan patterns of the manager's loops, as
  functions on sequences. These are the first match, the last match, all
  matches, the count, and the first strict minimum (`FirstMin`, which is the
  `if (!best || score < min)` loop).
- `proximity.dfy` (`Proximity`): the corner-cut squares of the proximity grid,
  and the nested marking loops over an `array2<bool>`.
- `clustering.dfy` (`Clustering`): the greedy first-fit clustering, the
  mineral and geyser passes, and the selection of clusters that become bases.
- `base_location.dfy` (`BaseLocations`): base locations, the map services and
  the per-frame view. It also defines, as functions on values, what each stage
  of `onFrame` computes, the order the sort produces, and the expansion score.
- `base_location_manager.dfy` (`Manager`): the class `BaseLocationManager`.
  Its fields are those of `src/BaseLocationManager.h`:
  - the sorted flag;
  - the bases;
  - the base pointers;
  - the start locations;
  - the player-start map;
  - the occupied sets;
  - the tile grid and the proximity grid, as `array2`s.

  `onStart`, `onFrame`, the sort and the setters are methods over these
  fields, proved against the functions of `BaseLocations`.

Modelling choices:

- A `BaseLocation *` into the manager's vector of bases is an index: base `i`
  is `bases[i]` and has id `i`.
- A `std::set<BaseLocation *>` and a `std::map` keyed by those pointers
  iterate in address order. Since all bases live in one vector, that is index
  order, and the model scans indices in order. Ties in the closest-base query
  and in the sort therefore go to the lower-numbered base.
- The tile grid holds an `Option<nat>` per tile, so no tile can name two bases.
- The player-start map holds one `Option<nat>` per player.
- The const queries are functions, or methods without a `modifies` clause, so
  none of them can change the manager's state.
- `Inv()` ties the fields together:
  - the grids hold what `onStart` computed;
  - each base keeps its id and creation-time facts;
  - the pointers list every base once, in creation order until sorted and
    then by distance to the enemy start;
  - each known start is a base;
  - the occupied sets match the occupancy flags.

  `onStart` establishes `Inv()`. `onFrame` and the setters preserve it.
- What the game reports about a base each frame (`isExplored`, and
  `isPlayerStartLocation(Enemy)`) is a `FrameView` argument of `onFrame`. The
  start flags a base is built with are the `isPlayerStartLocation` answers at
  game start. That is why the start scan of `onStart` and the detection stage
  of `onFrame` can disagree.
- The map services are function fields of `World`:
  - terrain height and cluster centres;
  - `isValidPosition`;
  - the `BaseLocation` constructor;
  - `containsPosition` and `getGroundDistance`;
  - the command-center placement check.

  `availableUpgrades.getIndex` is a function field of `CombatUpgrades`.
- The unit lists are method arguments: our base buildings, the known enemy
  units, and the neutral units.
- Float coordinates are `real`s. As in the SC2 build, tile units and map units
  coincide.
- `isSupplyProvider` counts a type as a provider when its supply figure is
  *negative* and it is not a resource depot. `UnitTypes.UnitType.IsSupplyProvider`
  states this as written. With non-negative supply figures, only the five
  listed types are providers.

## Model

| member | source | states |
|---|---|---|
| Common.TruncToInt | src/BaseLocationManager.cpp:358-359 | `(int)pos.x` truncates toward zero: within one below a non-negative value, within one above a negative one |
| Common.TileCenter | src/BaseLocationManager.cpp:157 | the centre of tile (x, y) is (x + 0.5, y + 0.5), and casts back to (x, y) for tiles of non-negative coordinates |
| Common.DistSq | src/BaseLocationManager.cpp:180 | the squared distance is non-negative and zero between equal points |
| UnitTypes.IsRefineryId | src/UnitType.cpp:116-130 | true exactly for the six refinery, assimilator and extractor types, normal and rich |
| UnitTypes.EnemyRefineryType | src/UnitType.cpp:137-146 | Terran gets the refinery, Protoss the assimilator, Zerg the extractor, each a type satisfying `IsRefineryId`; every other race, and only it, gets INVALID |
| UnitTypes.IsTargetableId | src/UnitType.cpp:148-159 | false exactly for AdeptPhaseShift, KD8Charge and DisruptorPhased |
| UnitTypes.IsDetectorId | src/UnitType.cpp:161-176 | true exactly for the seven listed detector types |
| UnitTypes.UnitType.IsValid | src/UnitType.cpp:38-41 | invalid exactly for the type wrapping id 0 |
| UnitTypes.UnitType.Less | src/UnitType.cpp:28-31 | ordered by the wrapped ids, never between equal types |
| UnitTypes.UnitType.Equal | src/UnitType.cpp:33-36 | comparing the wrapped ids is exactly equality of the types |
| UnitTypes.UnitType.IsResourceDepot | src/UnitType.cpp:95-114 | true exactly for Hatchery, Lair, Hive, CommandCenter(Flying), OrbitalCommand(Flying), PlanetaryFortress and Nexus |
| UnitTypes.UnitType.IsRefinery | src/UnitType.cpp:132-135 | the member agrees with the static classifier: true exactly for the refinery types |
| UnitTypes.UnitType.IsDetector | src/UnitType.cpp:178-181 | the member agrees with the static classifier: true exactly for the detector types |
| UnitTypes.UnitType.IsWorker | src/UnitType.cpp:239-254 | true exactly for SCV, MULE, Probe, Drone and burrowed Drone |
| UnitTypes.UnitType.IsEgg | src/UnitType.cpp:404-411 | true exactly for the Zerg egg, which is neither a worker nor a resource depot |
| UnitTypes.UnitType.IsLarva | src/UnitType.cpp:395-402 | true exactly for the Zerg larva, which is neither a worker nor an egg |
| UnitTypes.UnitType.IsMorphedBuilding | src/UnitType.cpp:431-451 | true exactly for Lair, Hive, GreaterSpire, PlanetaryFortress and OrbitalCommand |
| UnitTypes.UnitType.IsCombatUnit | src/UnitType.cpp:61-74 | workers, eggs and larvae never are; any other non-building always is; any other building is one exactly when it attacks, is a ShieldBattery or a NydusCanal, or is a flying Barracks under the proxy-cyclone opening |
| UnitTypes.UnitType.IsSupplyProvider | src/UnitType.cpp:76-93 | provider iff the supply figure is negative on a non-depot or the type is one of SupplyDepot(Lowered), Pylon, Overlord, Overseer; those five always are |
| UnitTypes.DefaultUnitType | src/UnitType.cpp:4-9 | the default-constructed type is not valid |
| UnitTypes.ClassifierSizes | src/UnitType.cpp:95-176 | the depot, refinery, untargetable and detector tables have 9, 6, 3 and 7 entries |
| UnitTypes.LessIsStrictOrder | src/UnitType.cpp:28-36 | `<` is irreflexive, transitive and asymmetric; two types are incomparable exactly when `==` holds, which is equality of ids |
| UnitTypes.DepotsAreNotFixedSupplyProviders | src/UnitType.cpp:76-114 | no resource depot is a listed supply provider or a worker |
| CombatUpgrades.Test | src/libvoxelbot/combat/combat_upgrades.cpp:13-18 | true only for an index inside the bitset, and then it is that bit |
| CombatUpgrades.Set | src/libvoxelbot/combat/combat_upgrades.cpp:20-24 | the length is kept; bit k afterwards is its old value or k is the index, so an out-of-range index changes nothing |
| CombatUpgrades.SetThenTest | src/libvoxelbot/combat/combat_upgrades.cpp:13-24 | after setting an in-range index its test is true; an out-of-range set is the identity; other indices read as before; setting twice is setting once |
| CombatUpgrades.CombatUpgrades.constructor | src/libvoxelbot/combat/combat_upgrades.cpp:4-9 | requires capacity for every available upgrade; starts with every bit clear |
| CombatUpgrades.CombatUpgrades.HasUpgrade | src/libvoxelbot/combat/combat_upgrades.cpp:13-18 | reads the bit at the upgrade's index; false when the index is negative or past the bitset |
| CombatUpgrades.CombatUpgrades.Add | src/libvoxelbot/combat/combat_upgrades.cpp:20-24 | the bitset becomes `Set(old bits, index)`; with an in-range index `HasUpgrade` then holds |
| Selection.Range | src/BaseLocationManager.cpp:122-124 | the creation-order pointer list: entry k is k, n entries |
| Selection.FirstTrue | src/BaseLocationManager.cpp:607-617 | the first set flag, all flags before it unset; none exactly when no flag is set |
| Selection.LastTrue | src/BaseLocationManager.cpp:283-289 | the last set flag, all flags after it unset; none exactly when no flag is set |
| Selection.TrueIndices | src/BaseLocationManager.cpp:126-130 | the set flags' indices, each a set flag, every set flag listed, strictly increasing |
| Selection.CountTrue | src/BaseLocationManager.cpp:308-311 | at most the length; zero exactly when no flag is set |
| Selection.TrueIndicesCount | src/BaseLocationManager.cpp:297 | the list of matches is as long as the count of matches |
| Selection.CountSplit | src/BaseLocationManager.cpp:301-316 | when every start is either explored or unexplored, the two counts add up to the number of starts |
| Selection.CountOneIsUnique | src/BaseLocationManager.cpp:319 | a count of one leaves a single set flag |
| Selection.FirstMin | src/BaseLocationManager.cpp:550-554 | the strict-minimum loop picks, if anything, an entry of the order that has a score |
| Selection.FirstMinSpec | src/BaseLocationManager.cpp:550-554 | nothing exactly when no entry is scored; else the smallest score, strictly below every scored entry met before it |
| Selection.FirstMinOverRange | src/BaseLocationManager.cpp:462-470 | over 0..n-1: nothing exactly when nothing is scored; else a smallest score, strictly below every lower scored index |
| Proximity.MineralsCoverIff | src/BaseLocationManager.cpp:51-67 | a tile is covered by the minerals exactly when some mineral's square at x or x-1 contains it |
| Proximity.GeysersCoverIff | src/BaseLocationManager.cpp:92-102 | a tile is covered by the geysers exactly when some geyser's 9x9 corner-cut square contains it |
| Proximity.NearResourceIff | src/BaseLocationManager.cpp:51-102 | a tile is near a resource exactly when it lies in a mineral's 7x7 cut square at (x, y) or (x-1, y), or in a geyser's 9x9 cut square |
| Proximity.MarkCutSquare | src/BaseLocationManager.cpp:54-66 | the nested loops set exactly the tiles of the square minus its four corners; every other tile keeps its value |
| Clustering.FirstFit | src/BaseLocationManager.cpp:177-194 | the first cluster that passes both tests, none before it passing; none exactly when no cluster passes |
| Clustering.Affect | src/BaseLocationManager.cpp:174-196 | as many clusters as before; the first fitting cluster, and only it, gets the resource appended |
| Clustering.MineralStep | src/BaseLocationManager.cpp:41-78 | a non-mineral changes nothing; a mineral that fits a cluster joins the first it fits (`Affect` at the plain threshold), else it founds a cluster `[res]` of its own |
| Clustering.GeyserStep | src/BaseLocationManager.cpp:84-104 | a geyser joins the first cluster it fits at the threshold plus 10 (`Affect`), and never founds one; a non-geyser changes nothing |
| Clustering.MineralPass | src/BaseLocationManager.cpp:39-79 | the mineral loop never makes more clusters than there are minerals |
| Clustering.GeyserPass | src/BaseLocationManager.cpp:82-105 | the geyser loop keeps the number of clusters |
| Clustering.ResourceClusters | src/BaseLocationManager.cpp:39-105 | the two passes leave as many clusters as the mineral pass made, never more than there are minerals |
| Clustering.Qualifying | src/BaseLocationManager.cpp:111-119 | no more bases than clusters, and each has more than four resources |
| Clustering.MineralStepKeeps | src/BaseLocationManager.cpp:74-78 | one mineral iteration keeps the clusters non-empty and mineral-only and adds just that mineral |
| Clustering.MineralPassPartitions | src/BaseLocationManager.cpp:39-79 | after the mineral loop the clusters are non-empty, mineral-only, and hold every mineral of the list exactly once (as a multiset) |
| Clustering.GeyserPassOnlyJoins | src/BaseLocationManager.cpp:82-105 | the geyser loop keeps the number of clusters, only extends each cluster, and adds geysers of the list, each at most once |
| Clustering.FoundedByMinerals | src/BaseLocationManager.cpp:74-104 | every final cluster is non-empty and starts with a mineral |
| Clustering.QualifyingOrder | src/BaseLocationManager.cpp:112-119 | only clusters of more than four resources become bases; cluster i that qualifies becomes base number "qualifying clusters before i"; conversely every base k is some cluster i with k qualifying clusters before it, so nothing else is listed |
| BaseLocations.Opponent | src/BaseLocationManager.cpp:497 | the other player is a different player |
| BaseLocations.BaseLocation.SetOccupying | src/BaseLocationManager.cpp:217-219 | `setPlayerOccupying(p, v)` sets p's flag to v and changes nothing else |
| BaseLocations.NewBase | src/BaseLocationManager.cpp:117 | a new base has the given id, no occupant, no depot and is not blocked |
| BaseLocations.BuildBases | src/BaseLocationManager.cpp:112-119 | base i is built from the i-th qualifying cluster with id i |
| BaseLocations.FirstContaining | src/BaseLocationManager.cpp:155-165 | the first base containing the point, none before it containing it; none when no base does |
| BaseLocations.TileIndexEntry | src/BaseLocationManager.cpp:151-167 | inside [mapMin, mapMax) a tile maps to the first base containing its centre, none exactly when no base does; outside it maps to none |
| BaseLocations.LocateBase | src/BaseLocationManager.cpp:354-363 | nothing for an invalid position; for a valid one, the tile-index entry at the truncated coordinates |
| BaseLocations.ResetOccupancy | src/BaseLocationManager.cpp:215-220 | every base loses both occupying flags and its depot; nothing else changes |
| BaseLocations.MarkDepot | src/BaseLocationManager.cpp:225-239 | one loop iteration: a depot the tile index places on a base marks that base occupied by the player with this depot; every other base is unchanged |
| BaseLocations.LastDepotOn | src/BaseLocationManager.cpp:225-239 | the depot kept by a base is a resource depot of the list that the tile index places on it, and no later unit of the list is one; none exactly when no unit of the list is |
| BaseLocations.MarkedBases | src/BaseLocationManager.cpp:213-273 | the reset and both depot loops keep the number of bases and each one's id, facts and blocked flag |
| BaseLocations.MarkDepots | src/BaseLocationManager.cpp:225-273 | a base gets the player's flag iff it had it or one of the player's depots stands on it; its depot is the last such; ids, facts, blocked flags and the other player's flags are kept |
| BaseLocations.FrameOccupancy | src/BaseLocationManager.cpp:213-273 | after the reset and both depot loops, each player's flag on a base is set iff one of its depots stands there; the depot is the enemy's last there, else ours |
| BaseLocations.FrameKeepsBases | src/BaseLocationManager.cpp:213-325 | a frame keeps each base's id and facts |
| BaseLocations.SeenEnemyStart | src/BaseLocationManager.cpp:280-291 | the last base the game reports as the enemy start, none after it reported; none when none is |
| BaseLocations.EliminationInference | src/BaseLocationManager.cpp:294-325 | when elimination picks a base, it is an unexplored start location and every other start location is explored |
| BaseLocations.InferredEnemyStart | src/BaseLocationManager.cpp:294-325 | a pick is an unexplored start location; there is one exactly when the explored starts number one less than the starts and some start is unexplored |
| BaseLocations.EliminationFires | src/BaseLocationManager.cpp:294-325 | when base i is the only unexplored start location, elimination picks i, and a frame that knows no enemy start and sees none resolves it to i |
| BaseLocations.ResolvedEnemyStart | src/BaseLocationManager.cpp:276-325 | a known enemy start never changes; else a reported start wins; else the elimination pick is taken; any start found is reported or an unexplored start location |
| BaseLocations.FrameBasesOccupancy | src/BaseLocationManager.cpp:213-325 | after a frame a base is ours iff one of our depots stands on it, the enemy's iff one of its depots does or elimination just inferred it; ids, facts and blocked flags are kept |
| BaseLocations.FrameBases | src/BaseLocationManager.cpp:213-325 | a frame keeps the number of bases and each one's id, facts and blocked flag |
| BaseLocations.OccupiedSet | src/BaseLocationManager.cpp:329-342 | the occupied set holds exactly the bases the player occupies |
| BaseLocations.RepairedSelfStart | src/BaseLocationManager.cpp:426-451 | the first base that is our start location if any, else the first base we occupy, else none |
| BaseLocations.InitialLinks | src/BaseLocationManager.cpp:121-142 | the pointer loop's results satisfy the link invariant in the unsorted state |
| BaseLocations.InitialOccupancy | src/BaseLocationManager.cpp:169-171 | with no base occupied, the two empty occupied sets are exact |
| BaseLocations.LinksSorted | src/BaseLocationManager.cpp:690-691 | a permutation sorted from the enemy start is a valid sorted state |
| BaseLocations.FirstMinOverAll | src/BaseLocationManager.cpp:507-555 | over an order listing every base once, the minimum loop finds nothing exactly when nothing is scored, and otherwise a smallest score |
| BaseLocations.ClosestMember | src/BaseLocationManager.cpp:458-472 | the closest-base loop finds nothing exactly when the set is empty; else a member nearest to the unit, strictly nearer than every lower-numbered member |
| BaseLocations.SortsBeforeIsStrictTotal | src/BaseLocationManager.cpp:679-686 | "nearer, or as near and built first" is a strict total order, so the sorted list is unique |
| BaseLocations.SelectionStart | src/BaseLocationManager.cpp:669-674 | the distance map of every base starts the selection sort with nothing placed |
| BaseLocations.SelectionStep | src/BaseLocationManager.cpp:675-689 | taking the remaining base that sorts first keeps the placed prefix sorted and before every remaining base |
| BaseLocations.SelectionEnd | src/BaseLocationManager.cpp:675-690 | when the map is empty the placed list is a permutation of the bases, sorted by distance |
| BaseLocations.ClampUnreachable | src/BaseLocationManager.cpp:543-547 | a negative enemy distance counts as zero; others are kept |
| BaseLocations.ExpansionScore | src/BaseLocationManager.cpp:509-548 | a scored base is not mineral-only, not a start, unoccupied, unblocked and buildable when asked, and reachable from home; its score is its home distance minus its enemy distance clamped at zero, or the home distance alone without an enemy home |
| BaseLocations.ExpansionCandidates | src/BaseLocationManager.cpp:509-536 | a base has a score iff it is not mineral-only, not a start, unoccupied, passes the optional checks and is reachable from home; with no enemy home its score is its home distance |
| BaseLocations.ExpansionChoice | src/BaseLocationManager.cpp:492-558 | the expansion loop returns nothing exactly when no base is a candidate; otherwise a candidate whose score is no larger than any other candidate's |
| BaseLocations.NoExpansionAmongStarts | src/BaseLocationManager.cpp:509-513 | on a map of start locations only, there is never an expansion |
| BaseLocations.ExpansionExample | src/BaseLocationManager.cpp:509-554 | on five bases, two of them start locations, the three candidates score 10-5, 20-25 and 30-5, and base 3, scoring -5, is chosen |
| Manager.BaseLocationManager.constructor | src/BaseLocationManager.cpp:6-11 | a new manager is unsorted and has no bases, pointers, starts or occupied sets yet |
| Manager.BaseLocationManager.AffectToCluster | src/BaseLocationManager.cpp:174-196 | true iff some cluster passes both tests; then exactly the first such cluster gets the resource; on false nothing changes |
| Manager.BaseLocationManager.NewProximityGrid | src/BaseLocationManager.cpp:23-35 | the grid has the map's size and every tile is false |
| Manager.BaseLocationManager.ClusterMinerals | src/BaseLocationManager.cpp:39-79 | the clusters are the mineral pass's; a tile is marked exactly when it is in a square of some mineral |
| Manager.BaseLocationManager.AddGeysers | src/BaseLocationManager.cpp:82-105 | the clusters are the geyser pass's; a tile is marked exactly when it was marked or is in a square of some geyser |
| Manager.BaseLocationManager.CreateBases | src/BaseLocationManager.cpp:111-119 | the bases are built from the qualifying clusters, with ids 0, 1, 2, ... |
| Manager.BaseLocationManager.LinkBases | src/BaseLocationManager.cpp:121-142 | the pointers are 0..n-1; the start list is the start locations in order; each player's start is the last base flagged as such |
| Manager.BaseLocationManager.BuildTileIndex | src/BaseLocationManager.cpp:148-167 | every tile holds the first base containing its centre inside the playable area, and none elsewhere |
| Manager.BaseLocationManager.GetBaseLocation | src/BaseLocationManager.cpp:354-363 | the lookup returns the tile-index entry the cast position lands on, none for an invalid position |
| Manager.BaseLocationManager.BuildGrids | src/BaseLocationManager.cpp:15-167 | the grids hold the proximity marks and the tile index of the bases built from the qualifying clusters |
| Manager.BaseLocationManager.LinkStarts | src/BaseLocationManager.cpp:121-171 | the links and empty occupied sets of `onStart`, with each player's start the last flagged base |
| Manager.BaseLocationManager.OnStart | src/BaseLocationManager.cpp:13-172 | establishes the invariant; the bases come from the clusters, the pointers are in creation order and unsorted, the occupied sets are empty |
| Manager.BaseLocationManager.FixNullPlayerStartingBaseLocation | src/BaseLocationManager.cpp:426-451 | a known start is kept; an unknown one becomes the first start-location base, else the first base we occupy, else stays unknown |
| Manager.BaseLocationManager.ResetBaseLocations | src/BaseLocationManager.cpp:213-221 | every base loses both flags and its depot |
| Manager.BaseLocationManager.MarkResourceDepots | src/BaseLocationManager.cpp:223-273 | the bases become the marks of the player's depots, as `MarkDepots` states |
| Manager.BaseLocationManager.DetectEnemyStart | src/BaseLocationManager.cpp:279-291 | the enemy start becomes the last base the game reports as it |
| Manager.BaseLocationManager.InferEnemyStart | src/BaseLocationManager.cpp:293-325 | the enemy start becomes the elimination's pick, which the enemy then occupies; without a pick nothing changes |
| Manager.BaseLocationManager.RebuildOccupiedSets | src/BaseLocationManager.cpp:327-343 | each occupied set becomes exactly the bases the player occupies |
| Manager.BaseLocationManager.UpdateOccupancy | src/BaseLocationManager.cpp:213-274 | the reset and the two depot loops give the marked bases |
| Manager.BaseLocationManager.ResolveEnemyStart | src/BaseLocationManager.cpp:276-325 | the enemy start is resolved only while unknown; only the elimination changes a base |
| Manager.BaseLocationManager.MarkBaseLocations | src/BaseLocationManager.cpp:213-325 | the marks and the enemy-start search keep every base's facts and the links |
| Manager.BaseLocationManager.UpdateBaseLocations | src/BaseLocationManager.cpp:213-343 | the marks, the search and the rebuilt occupied sets restore the invariant |
| Manager.BaseLocationManager.RepairSelfStart | src/BaseLocationManager.cpp:206-211 | the repair runs only when our start is unknown |
| Manager.BaseLocationManager.SortOnce | src/BaseLocationManager.cpp:345-348 | the sort runs only when unsorted and the enemy start is known; otherwise the pointers stay |
| Manager.BaseLocationManager.OnFrame | src/BaseLocationManager.cpp:198-352 | preserves the invariant; our start is repaired only when unknown; the enemy start only when unknown; the bases are `FrameBases`; once sorted the pointers never change again |
| Manager.BaseLocationManager.ClosestRemaining | src/BaseLocationManager.cpp:677-686 | the inner loop picks a remaining base that sorts before every other remaining base |
| Manager.BaseLocationManager.DistancesFrom | src/BaseLocationManager.cpp:668-674 | every base is keyed to its squared distance from the enemy start |
| Manager.BaseLocationManager.SortBaseLocationPtrs | src/BaseLocationManager.cpp:665-692 | the pointers become a permutation of the bases, sorted by distance to the enemy start with ties to the earlier base; the flag is set |
| Manager.BaseLocationManager.GetBaseLocations | src/BaseLocationManager.cpp:411-414 | every base once; in creation order while unsorted |
| Manager.BaseLocationManager.GetStartingBaseLocations | src/BaseLocationManager.cpp:416-419 | exactly the start locations, in increasing order, as many as there are |
| Manager.BaseLocationManager.GetPlayerStartingBaseLocation | src/BaseLocationManager.cpp:421-424 | a known start is a base |
| Manager.BaseLocationManager.GetOccupiedBaseLocations | src/BaseLocationManager.cpp:453-456 | exactly the bases the player occupies |
| Manager.BaseLocationManager.IsInProximityOfResources | src/BaseLocationManager.cpp:694-697 | the tile is near a mineral or a geyser of the neutral units |
| Manager.BaseLocationManager.GetBasePosition | src/BaseLocationManager.cpp:566-577 | the result is the depot tile of some base |
| Manager.BaseLocationManager.BasePositionMirror | src/BaseLocationManager.cpp:571-574 | our i-th position is the enemy's i-th from the other end |
| Manager.BaseLocationManager.BasePositionUnsorted | src/BaseLocationManager.cpp:566-577 | before the sort the enemy's i-th position is base i's depot |
| Manager.BaseLocationManager.BasePositionsByDistance | src/BaseLocationManager.cpp:566-577 | once sorted, the enemy's positions run from nearest to its start outwards, and ours the other way |
| Manager.BaseLocationManager.ExpansionCandidateScore | src/BaseLocationManager.cpp:509-554 | the loop body skips a base or scores it exactly as `ExpansionScore` does |
| Manager.BaseLocationManager.NextExpansion | src/BaseLocationManager.cpp:492-558 | the result is the strict-minimum scan of the expansion scores over the base order |
| Manager.BaseLocationManager.NextExpansionPosition | src/BaseLocationManager.cpp:560-564 | the next expansion's depot tile, or (0, 0) when there is none |
| Manager.BaseLocationManager.GetClosestOccupiedBaseLocationForUnit | src/BaseLocationManager.cpp:458-472 | none exactly when the owner occupies nothing; else a nearest occupied base, the lowest-numbered among equally near |
| Manager.BaseLocationManager.GetBaseForDepotPosition | src/BaseLocationManager.cpp:607-617 | the first base whose depot goes on the tile; none when no base's does |
| Manager.BaseLocationManager.GetBaseForDepot | src/BaseLocationManager.cpp:619-629 | the first base whose depot goes on the depot unit's tile |
| Manager.BaseLocationManager.GetBaseContainingPosition | src/BaseLocationManager.cpp:650-663 | the first base the player occupies that contains the position; none when no such base exists |
| Manager.BaseLocationManager.SetLocationAsBlocked | src/BaseLocationManager.cpp:631-640 | every base containing the position gets the flag; every other base and every other field is unchanged |
| Manager.BaseLocationManager.ClearBlockedLocations | src/BaseLocationManager.cpp:642-648 | no base is blocked afterwards; nothing else changes |
| Manager.BaseLocationManager.KeepOccupancy | src/BaseLocationManager.cpp:631-648 | changing only blocked flags keeps the ids, facts and occupied sets |

## Left out

- Drawing, profiling, `DisplayError` and `SendChat` (src/BaseLocationManager.cpp:200-204, 365-409, 145, 431, 436, 445). These are debug output only.
- The combat influence-map calls at src/BaseLocationManager.cpp:108-109. They are calls into another component.
- `getBaseCount` and its default argument. It is a thin wrapper around a building count kept by another component.
- `getClosestBasePosition` and its default arguments. The shift branch depends on float vector normalisation, and the function is not one of the modelled operations.
- The BWAPI branches (`#ifndef SC2API` and the `#else` arms).
- Players other than Self and Enemy. The manager's maps only have entries for those two; `.at()` on any other key would throw.
- `BaseLocation.cpp` is not part of this model. `World` and `FrameView` stand in for what the manager asks of a base: `containsPosition`, `getGroundDistance`, the constructor's facts, `isExplored` and `isPlayerStartLocation`.
- `Util::CalcCenter`, terrain height, `isValidPosition` and `canBuildHere` are uninterpreted functions. `Util::DistSq` is the plain squared Euclidean distance on reals.
- Float rounding: coordinates and distances are exact reals.
- `mapMin` and `mapMax` are read as float positions (src/BaseLocationManager.cpp:149-153); the tile loops start at the truncated minimum and run while a tile is below the float maximum. `World` gives these bounds as integer tiles. That is the same range when the bounds are whole numbers, as the playable area's corners are; fractional bounds are not modelled.
- Common.TruncToInt: behaviour outside the C++ `int` range is not modelled.
- BaseLocations.ExpansionScore: the difference of the two `int` ground distances is unbounded, so the model has no overflow. The `INT_MAX` initial minimum is never compared, because the first candidate always wins.
- `BOT_ASSERT`: the model turns each one into a `requires`. These are the home base in `getNextExpansion` (`NextExpansion`, `NextExpansionPosition`) and the index bounds in `getBasePosition`. The source has undefined behaviour when they fail. The non-zero check on the resulting position only logs, so it is left out.
- Manager.BaseLocationManager.GetBasePosition: the ensures only says the result is some base's depot tile. Its meaning (the mirror for Self, the unsorted order, the distance order once sorted) is stated by `BasePositionMirror`, `BasePositionUnsorted` and `BasePositionsByDistance`.
- Manager.BaseLocationManager.NextExpansion: the ensures ties the result to the scan over `ExpansionScores`. The score each base gets is stated by `BaseLocations.ExpansionScore`. That the scan returns nothing exactly when there is no candidate, and otherwise a minimal candidate, is stated by `BaseLocations.ExpansionChoice`, `BaseLocations.ExpansionCandidates` and `BaseLocations.ExpansionExample`.
- Manager.BaseLocationManager.IsInProximityOfResources and the marking loops: the grid is unchecked in the source, so every coordinate must lie in the map. This is a `requires` (`SquaresInGrid` for `onStart`, bounds for the query).
- Manager.BaseLocationManager.AffectToCluster: the source appends to a vector passed by reference. The model returns the new cluster list, because the caller owns the clusters as a value.
- That the sorted flag and `sortBaseLocationPtrs` are private (src/BaseLocationManager.h:11, 20). Dafny has no access control without export sets, so this is not expressed.
- `isSupplyProvider`'s supply figure, `isCombatUnit`'s building, attack-range and opening checks, and the other data-driven members of `UnitType`. The game data they read becomes arguments, or the member is left out.
- `CombatUpgrades::iterator` is left out (src/libvoxelbot/combat/combat_upgrades.cpp:11).
- The RangedManager and MicroManager headers. They declare combat micro-management and contain no logic of this component.
