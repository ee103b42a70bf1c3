/**
 * `BaseLocationManager`: finds the base locations of the map once, at game
 * start, and keeps per frame which player occupies which of them, where the
 * players started, and an order of the bases by distance to the enemy start.
 *
 * `BaseLocation *` pointers into the manager's vector of bases are base
 * indices here: base i is `bases[i]` and has id i.
 */
module Manager {
  import opened Common
  import opened Selection
  import opened Proximity
  import opened Clustering
  import opened BaseLocations

  class BaseLocationManager {
    /** The bot's map, terrain and placement services. */
    const world: World

    var sorted: bool
    /** `m_baseLocationData`. */
    var bases: seq<BaseLocation>
    /** `m_baseLocationPtrs`: every base once, in creation order until sorted. */
    var basePtrs: seq<nat>
    /** `m_startingBaseLocations`. */
    var startingBases: seq<nat>
    /** `m_playerStartingBaseLocations`. */
    var playerStart: map<Player, Option<nat>>
    /** `m_occupiedBaseLocations`. */
    var occupied: map<Player, set<nat>>
    /** `m_tileBaseLocations`: the base each tile belongs to. */
    var tileBase: array2<Option<nat>>
    /** `m_resourceProximity`. */
    var resourceProximity: array2<bool>

    /** The neutral units `onStart` was given. */
    ghost var neutrals: seq<Resource>
    /** The fixed facts of every base, as built at `onStart`. */
    ghost var facts: seq<BaseFacts>

    /** Both grids cover the map and hold what `onStart` computes for n bases. */
    ghost predicate GridsOk(n: nat)
      reads this`tileBase, this`resourceProximity, this`neutrals, tileBase, resourceProximity
    {
      && WellFormed(world)
      && tileBase.Length0 == world.totalWidth && tileBase.Length1 == world.totalHeight
      && resourceProximity.Length0 == world.totalWidth && resourceProximity.Length1 == world.totalHeight
      && (forall a, b :: 0 <= a < world.totalWidth && 0 <= b < world.totalHeight ==>
            tileBase[a, b] == TileIndexEntry(world, n, a, b))
      && (forall a, b :: 0 <= a < world.totalWidth && 0 <= b < world.totalHeight ==>
            resourceProximity[a, b] == NearResource(neutrals, a, b))
    }

    /** Base i has id i and keeps the facts it was built with. */
    ghost predicate BasesOk()
      reads this`bases, this`facts
    {
      BasesHold(facts, bases)
    }

    /**
     * The pointers list every base once, in creation order until sorted and
     * then by distance to the enemy start; the start locations are listed in
     * order; each player's start, when known, is a base.
     */
    ghost predicate LinksOk()
      reads this`basePtrs, this`sorted, this`startingBases, this`playerStart, this`facts
    {
      LinksHold(facts, basePtrs, sorted, startingBases, playerStart)
    }

    /** The occupied sets list exactly the bases each player occupies. */
    ghost predicate OccupancyOk()
      reads this`occupied, this`bases
    {
      OccupancyHolds(bases, occupied)
    }

    ghost predicate Inv()
      reads this, tileBase, resourceProximity
    {
      GridsOk(|facts|) && BasesOk() && LinksOk() && OccupancyOk()
    }

    /** The state the constructor leaves: nothing found yet. */
    ghost predicate Unstarted()
      reads this
    {
      && !sorted && bases == [] && basePtrs == [] && startingBases == []
      && playerStart == map[] && occupied == map[]
    }

    constructor(world: World)
      ensures this.world == world && Unstarted()
    {
      this.world := world;
      sorted := false;
      bases := [];
      basePtrs := [];
      startingBases := [];
      playerStart := map[];
      occupied := map[];
      tileBase := new Option<nat>[0, 0];
      resourceProximity := new bool[0, 0];
      neutrals := [];
      facts := [];
    }

    /**
     * `affectToCluster`: scan the clusters in order and append `res` to the
     * first one whose centre is near enough and on the same height level.
     */
    method AffectToCluster(clusters: seq<Cluster>, res: Resource, maxDistSq: real)
      returns (found: bool, r: seq<Cluster>)
      ensures found <==> exists j :: 0 <= j < |clusters| && Fits(world.terrain, clusters[j], res, maxDistSq)
      ensures found ==> var i := FirstFit(world.terrain, clusters, res, maxDistSq).value;
                        r == clusters[i := clusters[i] + [res]]
      ensures !found ==> r == clusters
      ensures r == Affect(world.terrain, clusters, res, maxDistSq)
    {
      found := false;
      r := clusters;
      var i := 0;
      while i < |clusters|
        invariant 0 <= i <= |clusters|
        invariant forall j :: 0 <= j < i ==> !Fits(world.terrain, clusters[j], res, maxDistSq)
      {
        var center := world.terrain.calcCenter(clusters[i]);
        var distSq := DistSq(res.pos, center);
        if distSq < maxDistSq {
          if Abs(world.terrain.height(res.pos) - world.terrain.height(center)) < 1.0 {
            r := clusters[i := clusters[i] + [res]];
            found := true;
            return;
          }
        }
        i := i + 1;
      }
    }

    /** The proximity grid as `onStart` allocates it: the map's size, every tile cleared. */
    method NewProximityGrid() returns (grid: array2<bool>)
      ensures fresh(grid)
      ensures grid.Length0 == world.totalWidth && grid.Length1 == world.totalHeight
      ensures forall a, b :: 0 <= a < grid.Length0 && 0 <= b < grid.Length1 ==> !grid[a, b]
    {
      grid := new bool[world.totalWidth, world.totalHeight];
      for x := 0 to world.totalWidth
        invariant forall a, b :: 0 <= a < x && 0 <= b < world.totalHeight ==> !grid[a, b]
      {
        for y := 0 to world.totalHeight
          invariant forall a, b :: 0 <= b < world.totalHeight && (0 <= a < x || (a == x && 0 <= b < y)) ==> !grid[a, b]
        {
          grid[x, y] := false;
        }
      }
    }

    /**
     * The mineral loop of `onStart`: mark the two squares around every
     * mineral, then join it to a cluster or found a new one.
     */
    method ClusterMinerals(units: seq<Resource>, grid: array2<bool>) returns (clusters: seq<Cluster>)
      requires SquaresInGrid(units, grid.Length0, grid.Length1)
      requires forall a, b :: 0 <= a < grid.Length0 && 0 <= b < grid.Length1 ==> !grid[a, b]
      modifies grid
      ensures clusters == MineralPass(world.terrain, units)
      ensures forall a, b :: 0 <= a < grid.Length0 && 0 <= b < grid.Length1 ==> grid[a, b] == MineralsCover(units, a, b)
    {
      clusters := [];
      for k := 0 to |units|
        invariant clusters == MineralPass(world.terrain, units[..k])
        invariant forall a, b :: 0 <= a < grid.Length0 && 0 <= b < grid.Length1 ==> grid[a, b] == MineralsCover(units[..k], a, b)
      {
        assert units[..k + 1][..k] == units[..k];
        var res := units[k];
        if res.kind != Mineral {
          continue;
        }
        var x := res.tile.x;
        var y := res.tile.y;
        for xShift := 0 to 2
          invariant x == if xShift == 2 then res.tile.x - 1 else res.tile.x
          invariant forall a, b :: 0 <= a < grid.Length0 && 0 <= b < grid.Length1 ==>
                      grid[a, b] == (MineralsCover(units[..k], a, b)
                                     || (xShift >= 1 && InCutSquare(res.tile.x, y, MineralRadius, a, b))
                                     || (xShift >= 2 && InCutSquare(res.tile.x - 1, y, MineralRadius, a, b)))
        {
          x := x - xShift;
          MarkCutSquare(grid, x, y, MineralRadius);
        }
        var found, joined := AffectToCluster(clusters, res, MaxClusterDistanceSq);
        clusters := joined;
        if !found {
          clusters := clusters + [[res]];
        }
      }
      assert units[..|units|] == units;
    }

    /** The geyser loop of `onStart`: mark the square around every geyser, and join it to a cluster if one fits. */
    method AddGeysers(units: seq<Resource>, grid: array2<bool>, minerals: seq<Cluster>) returns (clusters: seq<Cluster>)
      requires SquaresInGrid(units, grid.Length0, grid.Length1)
      modifies grid
      ensures clusters == GeyserPass(world.terrain, minerals, units)
      ensures forall a, b :: 0 <= a < grid.Length0 && 0 <= b < grid.Length1 ==>
                grid[a, b] == (old(grid[a, b]) || GeysersCover(units, a, b))
    {
      clusters := minerals;
      for k := 0 to |units|
        invariant clusters == GeyserPass(world.terrain, minerals, units[..k])
        invariant forall a, b :: 0 <= a < grid.Length0 && 0 <= b < grid.Length1 ==>
                    grid[a, b] == (old(grid[a, b]) || GeysersCover(units[..k], a, b))
      {
        assert units[..k + 1][..k] == units[..k];
        var res := units[k];
        if res.kind != Geyser {
          continue;
        }
        MarkCutSquare(grid, res.tile.x, res.tile.y, GeyserRadius);
        var _, joined := AffectToCluster(clusters, res, GeyserClusterDistanceSq);
        clusters := joined;
      }
      assert units[..|units|] == units;
    }

    /** The base loop of `onStart`: base `baseID++` for every cluster of more than four resources. */
    method CreateBases(clusters: seq<Cluster>) returns (created: seq<BaseLocation>)
      ensures created == BuildBases(world, Qualifying(clusters))
    {
      created := [];
      var baseID := 0;
      for k := 0 to |clusters|
        invariant created == BuildBases(world, Qualifying(clusters[..k]))
        invariant baseID == |created|
      {
        assert clusters[..k + 1][..k] == clusters[..k];
        if |clusters[k]| > MinBaseResources {
          created := created + [NewBase(world, baseID, clusters[k])];
          baseID := baseID + 1;
        }
      }
      assert clusters[..|clusters|] == clusters;
    }

    /**
     * The pointer loop of `onStart`: every base in order, the start
     * locations in order, and for each player the last base that is its start.
     */
    method LinkBases(created: seq<BaseLocation>) returns (ptrs: seq<nat>, starts: seq<nat>, selfStart: Option<nat>, enemyStart: Option<nat>)
      ensures ptrs == Range(|created|)
      ensures starts == TrueIndices(StartFlags(FactsOf(created)))
      ensures selfStart == LastTrue(SelfStartFlags(FactsOf(created)))
      ensures enemyStart == LastTrue(EnemyStartFlags(FactsOf(created)))
    {
      ghost var fs := FactsOf(created);
      ghost var startFlags, selfFlags, enemyFlags := StartFlags(fs), SelfStartFlags(fs), EnemyStartFlags(fs);
      selfStart, enemyStart := None, None;
      ptrs := [];
      starts := [];
      for i := 0 to |created|
        invariant ptrs == Range(i)
        invariant starts == TrueIndices(startFlags[..i])
        invariant selfStart == LastTrue(selfFlags[..i])
        invariant enemyStart == LastTrue(enemyFlags[..i])
      {
        TrueIndicesStep(startFlags, i);
        LastTrueStep(selfFlags, i);
        LastTrueStep(enemyFlags, i);
        assert startFlags[i] == created[i].facts.isStartLocation;
        assert selfFlags[i] == created[i].facts.isSelfStart;
        assert enemyFlags[i] == created[i].facts.isEnemyStart;
        ptrs := ptrs + [i];
        if created[i].facts.isStartLocation {
          starts := starts + [i];
        }
        if created[i].facts.isSelfStart {
          selfStart := Some(i);
        }
        if created[i].facts.isEnemyStart {
          enemyStart := Some(i);
        }
      }
      assert startFlags[..|created|] == startFlags;
      assert selfFlags[..|created|] == selfFlags;
      assert enemyFlags[..|created|] == enemyFlags;
    }

    /**
     * The tile loops of `onStart`: every tile of the playable area maps to
     * the first of the n bases that contains its centre; other tiles to none.
     */
    method BuildTileIndex(n: nat) returns (index: array2<Option<nat>>)
      requires WellFormed(world)
      ensures fresh(index)
      ensures index.Length0 == world.totalWidth && index.Length1 == world.totalHeight
      ensures forall a, b :: 0 <= a < index.Length0 && 0 <= b < index.Length1 ==> index[a, b] == TileIndexEntry(world, n, a, b)
    {
      index := new Option<nat>[world.totalWidth, world.totalHeight]((_, _) => None);
      var x := world.mapMin.x;
      while x < world.mapMax.x
        invariant world.mapMin.x <= x
        invariant forall a, b :: 0 <= a < index.Length0 && 0 <= b < index.Length1 ==>
                    index[a, b] == (if a < x then TileIndexEntry(world, n, a, b) else None)
      {
        var y := world.mapMin.y;
        while y < world.mapMax.y
          invariant world.mapMin.y <= y
          invariant forall a, b :: 0 <= a < index.Length0 && 0 <= b < index.Length1 ==>
                      index[a, b] == (if a < x || (a == x && b < y) then TileIndexEntry(world, n, a, b) else None)
        {
          var pos := TileCenter(x, y);
          var b := 0;
          while b < n && !world.containsPosition(b, pos)
            invariant 0 <= b <= n
            invariant forall j :: 0 <= j < b ==> !world.containsPosition(j, pos)
          {
            b := b + 1;
          }
          FirstContainingAt(world, n, pos, b);
          if b < n {
            index[x, y] := Some(b);
          }
          y := y + 1;
        }
        x := x + 1;
      }
    }

    /** `getBaseLocation`: the base the tile under `pos` belongs to; none for an invalid position. */
    function GetBaseLocation(pos: Position): (r: Option<nat>)
      requires GridsOk(|facts|)
      reads this, tileBase, resourceProximity
      ensures r == LocateBase(world, |facts|, pos)
    {
      if !world.isValidPosition(pos) then None
      else tileBase[TruncToInt(pos.x), TruncToInt(pos.y)]
    }

    /** The proximity grid, the clusters and the tile index of `onStart`, stored; the bases they make. */
    method BuildGrids(units: seq<Resource>) returns (created: seq<BaseLocation>)
      requires WellFormed(world)
      requires SquaresInGrid(units, world.totalWidth, world.totalHeight)
      modifies this`tileBase, this`resourceProximity, this`neutrals
      ensures GridsOk(|created|)
      ensures fresh(tileBase) && fresh(resourceProximity)
      ensures neutrals == units
      ensures created == BuildBases(world, Qualifying(ResourceClusters(world.terrain, units)))
    {
      var grid := NewProximityGrid();
      var minerals := ClusterMinerals(units, grid);
      var clusters := AddGeysers(units, grid, minerals);
      created := CreateBases(clusters);
      neutrals := units;
      resourceProximity := grid;
      tileBase := BuildTileIndex(|created|);
    }

    /**
     * The rest of `onStart`, once the bases exist: the base pointers, the
     * start locations, each player's start and empty occupied sets.
     */
    method LinkStarts()
      requires !sorted
      requires forall i :: 0 <= i < |bases| ==> bases[i].id == i && !bases[i].occupiedBySelf && !bases[i].occupiedByEnemy
      modifies this`facts, this`basePtrs, this`startingBases, this`playerStart, this`occupied
      ensures BasesOk() && LinksOk() && OccupancyOk()
      ensures facts == FactsOf(bases)
      ensures basePtrs == Range(|bases|)
      ensures playerStart == map[Self := LastTrue(SelfStartFlags(facts)), Enemy := LastTrue(EnemyStartFlags(facts))]
      ensures occupied == map[Self := {}, Enemy := {}]
    {
      ghost var fs := FactsOf(bases);
      var ptrs, starts, selfStart, enemyStart := LinkBases(bases);
      InitialLinks(fs, selfStart, enemyStart);
      InitialOccupancy(bases);
      assert BasesHold(fs, bases);
      var starts0 := map[Self := selfStart, Enemy := enemyStart];
      assert starts0 == map[Self := LastTrue(SelfStartFlags(fs)), Enemy := LastTrue(EnemyStartFlags(fs))];
      facts := fs;
      basePtrs, startingBases, playerStart, occupied := ptrs, starts, starts0, map[Self := {}, Enemy := {}];
    }

    /**
     * `onStart`: mark the resource-proximity grid and cluster the minerals,
     * add the geysers to existing clusters, make a base of every cluster of
     * more than four resources, link the starting bases, and map every tile
     * of the playable area to the first base containing its centre.
     */
    method OnStart(units: seq<Resource>)
      requires Unstarted()
      requires WellFormed(world)
      requires SquaresInGrid(units, world.totalWidth, world.totalHeight)
      modifies this
      ensures Inv()
      ensures neutrals == units
      ensures bases == BuildBases(world, Qualifying(ResourceClusters(world.terrain, units)))
      ensures facts == FactsOf(bases)
      ensures basePtrs == Range(|bases|) && !sorted
      ensures playerStart == map[Self := LastTrue(SelfStartFlags(facts)), Enemy := LastTrue(EnemyStartFlags(facts))]
      ensures occupied == map[Self := {}, Enemy := {}]
    {
      bases := BuildGrids(units);
      LinkStarts();
    }

    // ------------------------------------------------------------ onFrame

    /**
     * `FixNullPlayerStartingBaseLocation`: when our start is unknown, the
     * first base that is our start location, else the first base we occupy;
     * nothing when neither exists.
     */
    method FixNullPlayerStartingBaseLocation()
      requires BasesOk() && LinksOk()
      modifies this`playerStart
      ensures LinksOk()
      ensures old(playerStart[Self]).Some? ==> playerStart == old(playerStart)
      ensures old(playerStart[Self]).None? ==> playerStart == old(playerStart)[Self := RepairedSelfStart(facts, bases)]
    {
      if playerStart[Self].Some? {
        return;
      }
      LinksWithStart(facts, basePtrs, sorted, startingBases, playerStart, Self, RepairedSelfStart(facts, bases));
      ghost var startFlags, occupiedFlags := SelfStartFlags(facts), OccupiedFlags(bases, Self);
      for i := 0 to |bases|
        invariant forall j :: 0 <= j < i ==> !startFlags[j]
        invariant playerStart == old(playerStart)
      {
        if bases[i].facts.isSelfStart {
          FirstTrueAt(startFlags, i);
          playerStart := playerStart[Self := Some(i)];
          return;
        }
      }
      FirstTrueAt(startFlags, |bases|);
      for i := 0 to |bases|
        invariant forall j :: 0 <= j < i ==> !occupiedFlags[j]
        invariant playerStart == old(playerStart)
      {
        if bases[i].IsOccupiedBy(Self) {
          FirstTrueAt(occupiedFlags, i);
          playerStart := playerStart[Self := Some(i)];
          return;
        }
      }
      FirstTrueAt(occupiedFlags, |bases|);
      assert old(playerStart)[Self := None] == old(playerStart);
    }

    /** The reset loop of `onFrame`: both occupying flags cleared and the depot forgotten, on every base. */
    method ResetBaseLocations()
      modifies this`bases
      ensures bases == ResetOccupancy(old(bases))
    {
      for i := 0 to |bases|
        invariant |bases| == |old(bases)|
        invariant forall j :: 0 <= j < i ==> bases[j] == ResetOccupancy(old(bases))[j]
        invariant forall j :: i <= j < |bases| ==> bases[j] == old(bases)[j]
      {
        bases := bases[i := bases[i].SetOccupying(Self, false).(resourceDepot := None).SetOccupying(Enemy, false)];
      }
      assert bases == ResetOccupancy(old(bases));
    }

    /**
     * An occupancy loop of `onFrame`: every resource depot of `units` that
     * the tile index places on a base marks that base occupied by p and
     * becomes its depot.
     */
    method MarkResourceDepots(units: seq<Unit>, p: Player)
      requires GridsOk(|facts|) && |facts| == |bases|
      modifies this`bases
      ensures bases == MarkDepots(world, old(bases), units, p)
    {
      for k := 0 to |units|
        invariant bases == MarkDepots(world, old(bases), units[..k], p)
      {
        MarkDepotsStep(world, old(bases), units, p, k);
        var unit := units[k];
        if !unit.unitType.IsResourceDepot() {
          continue;
        }
        var baseLocation := GetBaseLocation(unit.pos);
        if baseLocation.Some? {
          var b := baseLocation.value;
          bases := bases[b := bases[b].SetOccupying(p, true).(resourceDepot := Some(unit))];
        }
      }
      assert units[..|units|] == units;
    }

    /** The first way the enemy start becomes known: the last base the game reports as the enemy's start. */
    method DetectEnemyStart(view: FrameView)
      requires Enemy in playerStart && playerStart[Enemy].None?
      modifies this`playerStart
      ensures playerStart == old(playerStart)[Enemy := SeenEnemyStart(view, |bases|)]
    {
      ghost var seen := SeenEnemyStartFlags(view, |bases|);
      assert old(playerStart)[Enemy := None] == old(playerStart);
      for i := 0 to |bases|
        invariant playerStart == old(playerStart)[Enemy := LastTrue(seen[..i])]
      {
        LastTrueStep(seen, i);
        if view.isEnemyStart(i) {
          playerStart := playerStart[Enemy := Some(i)];
        }
      }
      assert seen[..|bases|] == seen;
    }

    /**
     * The second way: when all start locations but one are explored, the
     * unexplored one is the enemy's start, and the enemy occupies it.
     */
    method InferEnemyStart(view: FrameView)
      requires BasesOk() && Enemy in playerStart && playerStart[Enemy].None?
      modifies this`playerStart, this`bases
      ensures playerStart == old(playerStart)[Enemy := InferredEnemyStart(facts, view, |startingBases|)]
      ensures bases == match InferredEnemyStart(facts, view, |startingBases|)
                       case None => old(bases)
                       case Some(u) => old(bases)[u := old(bases)[u].SetOccupying(Enemy, true)]
    {
      ghost var explored, unexploredFlags := ExploredStartFlags(facts, view), UnexploredStartFlags(facts, view);
      var numStartLocations := |startingBases|;
      var numExploredLocations := 0;
      var unexplored: Option<nat> := None;
      for i := 0 to |bases|
        invariant bases == old(bases) && playerStart == old(playerStart)
        invariant numExploredLocations == CountTrue(explored[..i])
        invariant unexplored == LastTrue(unexploredFlags[..i])
      {
        CountTrueStep(explored, i);
        LastTrueStep(unexploredFlags, i);
        if !bases[i].facts.isStartLocation {
          continue;
        }
        if view.isExplored(i) {
          numExploredLocations := numExploredLocations + 1;
        } else {
          unexplored := Some(i);
        }
      }
      assert explored[..|bases|] == explored;
      assert unexploredFlags[..|bases|] == unexploredFlags;
      if numExploredLocations == numStartLocations - 1 && unexplored.Some? {
        var u := unexplored.value;
        playerStart := playerStart[Enemy := unexplored];
        bases := bases[u := bases[u].SetOccupying(Enemy, true)];
      } else {
        assert old(playerStart)[Enemy := None] == old(playerStart);
      }
    }

    /** The loop that rebuilds both occupied sets from the bases' flags. */
    method RebuildOccupiedSets()
      requires GridsOk(|facts|) && BasesOk() && LinksOk()
      modifies this`occupied
      ensures occupied == old(occupied)[Self := OccupiedSet(bases, Self)][Enemy := OccupiedSet(bases, Enemy)]
      ensures Inv()
    {
      var selfBases: set<nat> := {};
      var enemyBases: set<nat> := {};
      assert OccupiedSet(bases[..0], Self) == {} && OccupiedSet(bases[..0], Enemy) == {};
      for i := 0 to |bases|
        invariant occupied == old(occupied)
        invariant selfBases == OccupiedSet(bases[..i], Self)
        invariant enemyBases == OccupiedSet(bases[..i], Enemy)
      {
        OccupiedSetStep(bases, i, Self);
        OccupiedSetStep(bases, i, Enemy);
        if bases[i].IsOccupiedBy(Self) {
          selfBases := selfBases + {i};
        }
        if bases[i].IsOccupiedBy(Enemy) {
          enemyBases := enemyBases + {i};
        }
      }
      assert bases[..|bases|] == bases;
      occupied := occupied[Self := selfBases][Enemy := enemyBases];
      forall p: Player
        ensures p in occupied && occupied[p] == OccupiedSet(bases, p)
      {
        if p == Self {
        }
      }
    }

    /** The reset loop and the two depot loops of `onFrame`, ours first, then the enemy's. */
    method UpdateOccupancy(selfBuildings: seq<Unit>, enemyUnits: seq<Unit>)
      requires GridsOk(|facts|) && |facts| == |bases|
      modifies this`bases
      ensures bases == MarkedBases(world, old(bases), selfBuildings, enemyUnits)
    {
      ResetBaseLocations();
      MarkResourceDepots(selfBuildings, Self);
      MarkResourceDepots(enemyUnits, Enemy);
    }

    /**
     * The two stages of `onFrame` that look for the enemy start while it is
     * unknown: first the base the game reports, then elimination among the
     * start locations.
     */
    method ResolveEnemyStart(view: FrameView)
      requires BasesOk() && Enemy in playerStart
      modifies this`playerStart, this`bases
      ensures playerStart == old(playerStart)[Enemy := ResolvedEnemyStart(facts, view, old(playerStart[Enemy]), |startingBases|)]
      ensures bases == if old(playerStart[Enemy]).Some? || SeenEnemyStart(view, |bases|).Some? then old(bases)
                       else match InferredEnemyStart(facts, view, |startingBases|)
                         case None => old(bases)
                         case Some(u) => old(bases)[u := old(bases)[u].SetOccupying(Enemy, true)]
    {
      ghost var resolved := ResolvedEnemyStart(facts, view, playerStart[Enemy], |startingBases|);
      if playerStart[Enemy].Some? {
        assert old(playerStart)[Enemy := resolved] == old(playerStart);
        return;
      }
      DetectEnemyStart(view);
      if playerStart[Enemy].None? {
        InferEnemyStart(view);
      }
    }

    /**
     * The occupancy marks of `onFrame` and the search for the enemy start;
     * the occupied sets are stale until they are rebuilt.
     */
    method MarkBaseLocations(selfBuildings: seq<Unit>, enemyUnits: seq<Unit>, view: FrameView)
      requires GridsOk(|facts|) && BasesOk() && LinksOk()
      modifies this`bases, this`playerStart
      ensures GridsOk(|facts|) && BasesOk() && LinksOk()
      ensures playerStart == old(playerStart)[Enemy := ResolvedEnemyStart(facts, view, old(playerStart[Enemy]), |startingBases|)]
      ensures bases == FrameBases(world, facts, old(bases), selfBuildings, enemyUnits, view, old(playerStart[Enemy]), |startingBases|)
    {
      LinksWithStart(facts, basePtrs, sorted, startingBases, playerStart, Enemy,
                     ResolvedEnemyStart(facts, view, playerStart[Enemy], |startingBases|));
      FrameKeepsBases(world, facts, bases, selfBuildings, enemyUnits, view, playerStart[Enemy], |startingBases|);
      UpdateOccupancy(selfBuildings, enemyUnits);
      MarkedKeepsBases(world, facts, old(bases), selfBuildings, enemyUnits);
      ResolveEnemyStart(view);
    }

    /**
     * The middle of `onFrame`: the occupancy marks, the search for the enemy
     * start and the occupied sets rebuilt from the new marks.
     */
    method UpdateBaseLocations(selfBuildings: seq<Unit>, enemyUnits: seq<Unit>, view: FrameView)
      requires Inv()
      modifies this`bases, this`playerStart, this`occupied
      ensures Inv()
      ensures playerStart == old(playerStart)[Enemy := ResolvedEnemyStart(facts, view, old(playerStart[Enemy]), |startingBases|)]
      ensures bases == FrameBases(world, facts, old(bases), selfBuildings, enemyUnits, view, old(playerStart[Enemy]), |startingBases|)
    {
      MarkBaseLocations(selfBuildings, enemyUnits, view);
      RebuildOccupiedSets();
    }

    /**
     * `onFrame`: repair our start if it is unknown; recompute which player
     * occupies which base from the resource depots; look for the enemy start
     * while it is unknown; rebuild the occupied sets; and sort the bases by
     * distance to the enemy start, once, as soon as it is known.
     */
    method OnFrame(selfBuildings: seq<Unit>, enemyUnits: seq<Unit>, view: FrameView)
      requires Inv()
      modifies this`bases, this`playerStart, this`occupied, this`basePtrs, this`sorted
      ensures Inv()
      ensures playerStart[Self] == if old(playerStart[Self]).Some? then old(playerStart[Self]) else RepairedSelfStart(facts, old(bases))
      ensures playerStart[Enemy] == ResolvedEnemyStart(facts, view, old(playerStart[Enemy]), |startingBases|)
      ensures bases == FrameBases(world, facts, old(bases), selfBuildings, enemyUnits, view, old(playerStart[Enemy]), |startingBases|)
      ensures sorted == (old(sorted) || playerStart[Enemy].Some?)
      ensures old(sorted) ==> basePtrs == old(basePtrs)
    {
      RepairSelfStart();
      UpdateBaseLocations(selfBuildings, enemyUnits, view);
      SortOnce();
    }

    /** The first stage of `onFrame`: our start repaired when it is unknown. */
    method RepairSelfStart()
      requires Inv()
      modifies this`playerStart
      ensures Inv()
      ensures playerStart == old(playerStart)[Self := if old(playerStart[Self]).Some? then old(playerStart[Self]) else RepairedSelfStart(facts, bases)]
    {
      if playerStart[Self].None? {
        FixNullPlayerStartingBaseLocation();
      } else {
        assert old(playerStart)[Self := old(playerStart[Self])] == old(playerStart);
      }
    }

    /** The last stage of `onFrame`: the bases sorted, once, as soon as the enemy start is known. */
    method SortOnce()
      requires Inv()
      modifies this`basePtrs, this`sorted
      ensures Inv()
      ensures sorted == (old(sorted) || playerStart[Enemy].Some?)
      ensures old(sorted) || playerStart[Enemy].None? ==> basePtrs == old(basePtrs)
    {
      if !sorted && playerStart[Enemy].Some? {
        SortBaseLocationPtrs();
      }
    }

    // ------------------------------------------------------------ sortBaseLocationPtrs

    /**
     * The inner loop of `sortBaseLocationPtrs`, over the map in key order:
     * the first remaining base with the smallest distance.
     */
    method ClosestRemaining(distances: map<nat, real>, ghost from: Position) returns (best: nat)
      requires distances != map[]
      requires |facts| == |bases|
      requires forall b :: b in distances ==> b < |bases| && distances[b] == DistSq(from, facts[b].position)
      ensures best in distances
      ensures forall b :: b in distances && b != best ==> SortsBefore(facts, from, best, b)
    {
      var found: Option<nat> := None;
      var smallestDistance: real := 0.0;
      for i := 0 to |bases|
        invariant found.Some? ==> found.value < i && found.value in distances && smallestDistance == distances[found.value]
        invariant found.None? ==> forall b :: b in distances ==> b >= i
        invariant found.Some? ==>
                    forall b :: b in distances && b < i && b != found.value ==> SortsBefore(facts, from, found.value, b)
      {
        if i in distances && (found.None? || distances[i] < smallestDistance) {
          smallestDistance := distances[i];
          found := Some(i);
        }
      }
      assert found.Some? by {
        var b :| b in distances;
      }
      best := found.value;
    }

    /** The first loop of `sortBaseLocationPtrs`: every base keyed to its squared distance to `from`. */
    method DistancesFrom(from: Position) returns (distances: map<nat, real>)
      requires BasesOk() && IsIndexPermutation(basePtrs, |bases|)
      ensures forall b :: b in distances ==> b < |bases| && distances[b] == DistSq(from, facts[b].position)
      ensures forall i :: 0 <= i < |bases| ==> i in distances
    {
      distances := map[];
      for k := 0 to |basePtrs|
        invariant forall j :: 0 <= j < k ==> basePtrs[j] in distances
        invariant forall b :: b in distances ==> b < |bases| && distances[b] == DistSq(from, facts[b].position)
      {
        var baseLocation := basePtrs[k];
        distances := distances[baseLocation := DistSq(from, bases[baseLocation].facts.position)];
      }
      forall i | 0 <= i < |bases|
        ensures i in distances
      {
        assert i in basePtrs;
        var k :| 0 <= k < |basePtrs| && basePtrs[k] == i;
      }
    }

    /**
     * `sortBaseLocationPtrs`: a selection sort of the bases by squared
     * distance to the enemy start, ties to the earlier base.
     */
    method SortBaseLocationPtrs()
      requires BasesOk() && LinksOk() && !sorted
      requires playerStart[Enemy].Some?
      modifies this`basePtrs, this`sorted
      ensures sorted && LinksOk()
      ensures IsIndexPermutation(basePtrs, |bases|)
      ensures SortedFrom(facts, facts[playerStart[Enemy].value].position, basePtrs)
    {
      ghost var ptrs := basePtrs;
      var from := bases[playerStart[Enemy].value].facts.position;
      var distances := DistancesFrom(from);
      SelectionStart(facts, from, distances);
      var sortedPtrs: seq<nat> := [];
      while distances != map[]
        invariant SelectionState(facts, from, |bases|, sortedPtrs, distances)
        decreases |distances|
      {
        var b := ClosestRemaining(distances, from);
        SelectionStep(facts, from, |bases|, sortedPtrs, distances, b);
        sortedPtrs := sortedPtrs + [b];
        distances := distances - {b};
      }
      SelectionEnd(facts, from, sortedPtrs);
      LinksSorted(facts, ptrs, startingBases, playerStart, sortedPtrs);
      basePtrs := sortedPtrs;
      sorted := true;
    }

    // ------------------------------------------------------------ queries

    /** `getBaseLocations`: every base once; in creation order until sorted. */
    function GetBaseLocations(): (r: seq<nat>)
      requires LinksOk()
      reads this
      ensures IsIndexPermutation(r, |facts|)
      ensures !sorted ==> r == Range(|facts|)
    {
      basePtrs
    }

    /** `getStartingBaseLocations`: exactly the start locations, in increasing order. */
    function GetStartingBaseLocations(): (r: seq<nat>)
      requires LinksOk()
      reads this
      ensures forall i :: 0 <= i < |facts| ==> (i in r <==> facts[i].isStartLocation)
      ensures forall k :: 0 <= k < |r| ==> r[k] < |facts|
      ensures forall k1, k2 :: 0 <= k1 < k2 < |r| ==> r[k1] < r[k2]
      ensures |r| == CountTrue(StartFlags(facts))
    {
      TrueIndicesCount(StartFlags(facts));
      startingBases
    }

    /** `getPlayerStartingBaseLocation`: the player's start, when known, is a base. */
    function GetPlayerStartingBaseLocation(player: Player): (r: Option<nat>)
      requires LinksOk()
      reads this
      ensures r.Some? ==> r.value < |facts|
    {
      playerStart[player]
    }

    /** `getOccupiedBaseLocations`: exactly the bases the player occupies. */
    function GetOccupiedBaseLocations(player: Player): (r: set<nat>)
      requires OccupancyOk()
      reads this
      ensures forall i: nat :: i in r <==> i < |bases| && bases[i].IsOccupiedBy(player)
    {
      occupied[player]
    }

    /** `isInProximityOfResources`: the tile is near a mineral field or a geyser. */
    function IsInProximityOfResources(x: int, y: int): (r: bool)
      requires GridsOk(|facts|)
      requires 0 <= x < world.totalWidth && 0 <= y < world.totalHeight
      reads this, tileBase, resourceProximity
      ensures r == NearResource(neutrals, x, y)
    {
      resourceProximity[x, y]
    }

    /**
     * `getBasePosition`: the depot tile of the base at `index` in the base
     * order, counted from the far end for our own player.
     */
    function GetBasePosition(player: Player, index: int): (tile: TilePos)
      requires BasesOk() && LinksOk()
      requires 0 <= index < |basePtrs|
      reads this
      ensures exists b :: 0 <= b < |facts| && tile == facts[b].depotPosition
    {
      var k := if player == Self then |basePtrs| - index - 1 else index;
      bases[basePtrs[k]].facts.depotPosition
    }

    /** Our i-th base position is the enemy's i-th from the other end. */
    lemma BasePositionMirror(index: int)
      requires BasesOk() && LinksOk()
      requires 0 <= index < |basePtrs|
      ensures GetBasePosition(Self, index) == GetBasePosition(Enemy, |basePtrs| - 1 - index)
    {
    }

    /** Before the sort the enemy's i-th base position is the depot of base i. */
    lemma BasePositionUnsorted(index: int)
      requires BasesOk() && LinksOk() && !sorted
      requires 0 <= index < |basePtrs|
      ensures GetBasePosition(Enemy, index) == facts[index].depotPosition
    {
    }

    /**
     * Once sorted, the enemy's base positions run from the base nearest the
     * enemy start outwards, and ours from the farthest inwards.
     */
    lemma BasePositionsByDistance(i: int, j: int)
      requires BasesOk() && LinksOk() && sorted
      requires 0 <= i <= j < |basePtrs|
      ensures var from := facts[playerStart[Enemy].value].position;
              && DistSq(from, facts[basePtrs[i]].position) <= DistSq(from, facts[basePtrs[j]].position)
              && GetBasePosition(Enemy, i) == facts[basePtrs[i]].depotPosition
              && GetBasePosition(Self, i) == facts[basePtrs[|basePtrs| - 1 - i]].depotPosition
    {
      var from := facts[playerStart[Enemy].value].position;
      if i < j {
        assert SortsBefore(facts, from, basePtrs[i], basePtrs[j]);
      }
    }

    /**
     * The body of the `getNextExpansion` loop for one base: skip it (no
     * score) when it cannot be expanded to, else its ground distance from
     * home minus its distance from the enemy home, an unreachable enemy
     * distance counting as zero.
     */
    method ExpansionCandidateScore(base: BaseLocation, home: nat, enemyHome: Option<nat>, checkBlocked: bool, checkBuildable: bool)
      returns (score: Option<int>)
      ensures ExpansionScore(world, base, home, enemyHome, checkBlocked, checkBuildable)
                == if score.None? then None else Some(score.value as real)
    {
      if base.facts.isMineralOnly || base.facts.isStartLocation || base.IsOccupiedBy(Self) || base.IsOccupiedBy(Enemy) {
        return None;
      }
      if checkBlocked && base.isBlocked {
        return None;
      }
      var tile := base.facts.depotPosition;
      if checkBuildable && !world.canBuildDepot(tile) {
        return None;
      }
      var distanceFromHome := world.groundDistance(home, tile);
      if distanceFromHome < 0 {
        return None;
      }
      var distanceFromEnemyHome := 0;
      if enemyHome.Some? {
        distanceFromEnemyHome := world.groundDistance(enemyHome.value, tile);
        if distanceFromEnemyHome < 0 {
          distanceFromEnemyHome := 0;
        }
      }
      return Some(distanceFromHome - distanceFromEnemyHome);
    }

    /**
     * `getNextExpansion`: over the base order, the first base with the
     * smallest ground distance from the player's home minus that from the
     * other player's home, among the free, reachable bases that are neither
     * mineral-only nor a start location (nor blocked, nor unbuildable, when
     * asked).
     */
    method NextExpansion(player: Player, checkBlocked: bool, checkBuildable: bool) returns (r: Option<nat>)
      requires IsIndexPermutation(basePtrs, |bases|) && StartsAreBases(playerStart, |bases|)
      requires playerStart[player].Some?
      ensures var scores := ExpansionScores(world, bases, playerStart[player].value, playerStart[Opponent(player)],
                                            checkBlocked, checkBuildable);
              r == FirstMin(basePtrs, scores)
    {
      var home := playerStart[player].value;
      var enemyHome := playerStart[Opponent(player)];
      ghost var scores := ExpansionScores(world, bases, home, enemyHome, checkBlocked, checkBuildable);
      var closest: Option<nat> := None;
      var minDistance: int := 0;
      for k := 0 to |basePtrs|
        invariant closest == FirstMin(basePtrs[..k], scores)
        invariant closest.Some? ==> scores[closest.value] == Some(minDistance as real)
      {
        FirstMinStep(basePtrs, scores, k);
        var score := ExpansionCandidateScore(bases[basePtrs[k]], home, enemyHome, checkBlocked, checkBuildable);
        assert scores[basePtrs[k]] == if score.None? then None else Some(score.value as real);
        if score.None? {
          continue;
        }
        if closest.None? || score.value < minDistance {
          closest := Some(basePtrs[k]);
          minDistance := score.value;
        }
      }
      assert basePtrs[..|basePtrs|] == basePtrs;
      r := closest;
    }

    /** `getNextExpansionPosition`: the depot tile of the next expansion, or (0, 0) when there is none. */
    method NextExpansionPosition(player: Player, checkBlocked: bool, checkBuildable: bool) returns (tile: TilePos)
      requires BasesOk() && LinksOk()
      requires playerStart[player].Some?
      ensures var e := FirstMin(basePtrs, ExpansionScores(world, bases, playerStart[player].value, playerStart[Opponent(player)],
                                                          checkBlocked, checkBuildable));
              tile == if e.Some? then facts[e.value].depotPosition else TilePos(0, 0)
    {
      var closestBase := NextExpansion(player, checkBlocked, checkBuildable);
      tile := if closestBase.Some? then bases[closestBase.value].facts.depotPosition else TilePos(0, 0);
    }

    /**
     * `getClosestOccupiedBaseLocationForUnit`: among the bases the unit's
     * owner occupies, in index order, the first one nearest to the unit;
     * none when the owner occupies no base.
     */
    method GetClosestOccupiedBaseLocationForUnit(unit: Unit) returns (r: Option<nat>)
      requires BasesOk() && OccupancyOk()
      ensures var members := occupied[unit.player];
              && r == FirstMin(Range(|bases|), DistanceScores(facts, members, unit.pos))
              && (r.None? <==> members == {})
              && (r.Some? ==> r.value in members
                              && (forall b :: b in members ==> DistSq(unit.pos, facts[r.value].position) <= DistSq(unit.pos, facts[b].position))
                              && (forall b :: b in members && b < r.value ==> DistSq(unit.pos, facts[r.value].position) < DistSq(unit.pos, facts[b].position)))
    {
      var members := occupied[unit.player];
      ghost var scores := DistanceScores(facts, members, unit.pos);
      ghost var order := Range(|bases|);
      var closestBase: Option<nat> := None;
      var minDistance: real := 0.0;
      for i := 0 to |bases|
        invariant closestBase == FirstMin(order[..i], scores)
        invariant closestBase.Some? ==> scores[closestBase.value] == Some(minDistance)
      {
        FirstMinStep(order, scores, i);
        if i !in members {
          continue;
        }
        var distance := DistSq(unit.pos, bases[i].facts.position);
        if closestBase.None? || distance < minDistance {
          closestBase := Some(i);
          minDistance := distance;
        }
      }
      assert order[..|bases|] == order;
      ClosestMember(facts, members, unit.pos);
      r := closestBase;
    }

    /** `getBaseForDepotPosition`: the first base whose depot goes on `position`. */
    method GetBaseForDepotPosition(position: TilePos) returns (r: Option<nat>)
      ensures r.Some? ==> r.value < |bases| && bases[r.value].facts.depotPosition == position
      ensures r.Some? ==> forall j :: 0 <= j < r.value ==> bases[j].facts.depotPosition != position
      ensures r.None? ==> forall j :: 0 <= j < |bases| ==> bases[j].facts.depotPosition != position
    {
      for i := 0 to |bases|
        invariant forall j :: 0 <= j < i ==> bases[j].facts.depotPosition != position
      {
        if bases[i].facts.depotPosition == position {
          return Some(i);
        }
      }
      return None;
    }

    /** `getBaseForDepot`: the first base whose depot goes on the depot's tile. */
    method GetBaseForDepot(depot: Unit) returns (r: Option<nat>)
      ensures r == FirstTrue(DepotFlags(FactsOf(bases), depot.tile))
    {
      r := GetBaseForDepotPosition(depot.tile);
      FirstTrueAt(DepotFlags(FactsOf(bases), depot.tile), if r.Some? then r.value else |bases|);
    }

    /** `getBaseContainingPosition`: the first base the player occupies that contains `position`. */
    method GetBaseContainingPosition(position: Position, player: Player) returns (r: Option<nat>)
      ensures r.Some? ==> r.value < |bases| && bases[r.value].IsOccupiedBy(player) && world.containsPosition(r.value, position)
      ensures r.Some? ==> forall j :: 0 <= j < r.value ==> !(bases[j].IsOccupiedBy(player) && world.containsPosition(j, position))
      ensures r.None? ==> forall j :: 0 <= j < |bases| ==> !(bases[j].IsOccupiedBy(player) && world.containsPosition(j, position))
      ensures r == FirstTrue(ContainingFlags(world, bases, position, player))
    {
      ghost var flags := ContainingFlags(world, bases, position, player);
      for i := 0 to |bases|
        invariant forall j :: 0 <= j < i ==> !flags[j]
      {
        if !bases[i].IsOccupiedBy(player) {
          continue;
        }
        if world.containsPosition(i, position) {
          FirstTrueAt(flags, i);
          return Some(i);
        }
      }
      FirstTrueAt(flags, |bases|);
      return None;
    }

    /** `SetLocationAsBlocked`: every base containing `position` gets the blocked flag; nothing else changes. */
    method SetLocationAsBlocked(position: Position, isBlocked: bool)
      requires Inv()
      modifies this`bases
      ensures Inv()
      ensures |bases| == |old(bases)|
      ensures forall i :: 0 <= i < |bases| ==>
                bases[i] == if world.containsPosition(i, position) then old(bases)[i].(isBlocked := isBlocked) else old(bases)[i]
    {
      for i := 0 to |bases|
        invariant |bases| == |old(bases)|
        invariant forall j :: 0 <= j < |bases| ==>
                    bases[j] == if j < i && world.containsPosition(j, position) then old(bases)[j].(isBlocked := isBlocked) else old(bases)[j]
      {
        if world.containsPosition(i, position) {
          bases := bases[i := bases[i].(isBlocked := isBlocked)];
        }
      }
      KeepOccupancy(old(bases));
    }

    /** `ClearBlockedLocations`: no base is blocked; nothing else changes. */
    method ClearBlockedLocations()
      requires Inv()
      modifies this`bases
      ensures Inv()
      ensures |bases| == |old(bases)|
      ensures forall i :: 0 <= i < |bases| ==> bases[i] == old(bases)[i].(isBlocked := false)
    {
      for i := 0 to |bases|
        invariant |bases| == |old(bases)|
        invariant forall j :: 0 <= j < |bases| ==> bases[j] == if j < i then old(bases)[j].(isBlocked := false) else old(bases)[j]
      {
        bases := bases[i := bases[i].(isBlocked := false)];
      }
      KeepOccupancy(old(bases));
    }

    /** Bases that differ from `before` only in their blocked flags keep the ids, facts and occupied sets. */
    lemma KeepOccupancy(before: seq<BaseLocation>)
      requires |bases| == |before|
      requires forall i :: 0 <= i < |bases| ==> bases[i] == before[i].(isBlocked := bases[i].isBlocked)
      requires OccupancyHolds(before, occupied)
      requires |facts| == |before| && forall i :: 0 <= i < |before| ==> before[i].id == i && before[i].facts == facts[i]
      ensures BasesOk() && OccupancyOk()
    {
      assert OccupiedSet(bases, Self) == OccupiedSet(before, Self);
      assert OccupiedSet(bases, Enemy) == OccupiedSet(before, Enemy);
    }
}
}
