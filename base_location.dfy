/**
 * Base locations as the manager sees them, the map services it calls, and
 * the per-frame bookkeeping of onFrame written as functions on values:
 * the tile lookup, the occupancy marks left by resource depots, the
 * enemy-start inference and the expansion score.
 */
module BaseLocations {
  import opened Common
  import opened UnitTypes
  import opened Selection
  import opened Clustering

  /** `Players::Self` and `Players::Enemy`, the two keys of the manager's per-player maps. */
  datatype Player = Self | Enemy

  function Opponent(p: Player): (q: Player)
    ensures q != p
  {
    if p == Self then Enemy else Self
  }

  /** Each player's start, when known, is one of the n bases. */
  predicate StartsAreBases(playerStart: map<Player, Option<nat>>, n: nat)
  {
    forall p: Player :: p in playerStart && (playerStart[p].Some? ==> playerStart[p].value < n)
  }

  /** A unit as the manager reads it: type, owner, position and tile. */
  datatype Unit = Unit(unitType: UnitType, player: Player, pos: Position, tile: TilePos)

  /**
   * What a base location fixes once, when it is built from its cluster:
   * its centre, where its depot goes, whether it is a start location, whether
   * it has no geyser, and whether it is each player's start.
   */
  datatype BaseFacts = BaseFacts(
    position: Position,
    depotPosition: TilePos,
    isStartLocation: bool,
    isMineralOnly: bool,
    isSelfStart: bool,
    isEnemyStart: bool)

  /** A base location: its id, its fixed facts and the state the manager rewrites every frame. */
  datatype BaseLocation = BaseLocation(
    id: nat,
    facts: BaseFacts,
    occupiedBySelf: bool,
    occupiedByEnemy: bool,
    resourceDepot: Option<Unit>,
    isBlocked: bool)
  {
    /** `isOccupiedByPlayer(p)`. */
    predicate IsOccupiedBy(p: Player)
    {
      if p == Self then occupiedBySelf else occupiedByEnemy
    }

    /** `setPlayerOccupying(p, v)`: only p's flag changes. */
    function SetOccupying(p: Player, v: bool): (b: BaseLocation)
      ensures b.IsOccupiedBy(p) == v
      ensures b.IsOccupiedBy(Opponent(p)) == IsOccupiedBy(Opponent(p))
      ensures b.id == id && b.facts == facts && b.resourceDepot == resourceDepot && b.isBlocked == isBlocked
    {
      if p == Self then this.(occupiedBySelf := v) else this.(occupiedByEnemy := v)
    }
  }

  /**
   * The services of the bot the manager calls: map size and playable area,
   * terrain height and cluster centres, position validity, the
   * `BaseLocation` constructor (the facts of base `id` built from a
   * cluster), its `containsPosition` and `getGroundDistance`, and the
   * building placer's check for a command-center footprint.
   */
  datatype World = World(
    totalWidth: nat,
    totalHeight: nat,
    mapMin: TilePos,
    mapMax: TilePos,
    terrain: Terrain,
    isValidPosition: Position -> bool,
    newBase: (nat, Cluster) -> BaseFacts,
    containsPosition: (nat, Position) -> bool,
    groundDistance: (nat, TilePos) -> int,
    canBuildDepot: TilePos -> bool)

  /** The playable area lies in the map, and a valid position casts to a tile of the map. */
  ghost predicate WellFormed(w: World)
  {
    && 0 <= w.mapMin.x && w.mapMax.x <= w.totalWidth
    && 0 <= w.mapMin.y && w.mapMax.y <= w.totalHeight
    && forall p :: w.isValidPosition(p) ==>
         0 <= TruncToInt(p.x) < w.totalWidth && 0 <= TruncToInt(p.y) < w.totalHeight
  }

  /**
   * What the game reports about base i this frame: `isExplored()` and
   * `isPlayerStartLocation(Enemy)`.
   */
  datatype FrameView = FrameView(isExplored: nat -> bool, isEnemyStart: nat -> bool)

  /** `BaseLocation(bot, id, cluster)`: unoccupied, without depot, not blocked. */
  function NewBase(w: World, id: nat, cluster: Cluster): (b: BaseLocation)
    ensures b.id == id && !b.occupiedBySelf && !b.occupiedByEnemy && b.resourceDepot.None? && !b.isBlocked
  {
    BaseLocation(id, w.newBase(id, cluster), false, false, None, false)
  }

  // ---------------------------------------------------------------- tile index

  /** The first base, in creation order, among bases 0 .. n-1, that contains `pos`. */
  function FirstContaining(w: World, n: nat, pos: Position): (r: Option<nat>)
    ensures r.Some? ==> r.value < n && w.containsPosition(r.value, pos)
    ensures r.Some? ==> forall j :: 0 <= j < r.value ==> !w.containsPosition(j, pos)
    ensures r.None? ==> forall j :: 0 <= j < n ==> !w.containsPosition(j, pos)
  {
    if n == 0 then None
    else
      var r := FirstContaining(w, n - 1, pos);
      if r.Some? then r
      else if w.containsPosition(n - 1, pos) then Some(n - 1)
      else None
  }

  /** A scan over the bases that stops at b, having passed only bases not containing `pos`. */
  lemma FirstContainingAt(w: World, n: nat, pos: Position, b: nat)
    requires b <= n && forall j :: 0 <= j < b ==> !w.containsPosition(j, pos)
    ensures b < n && w.containsPosition(b, pos) ==> FirstContaining(w, n, pos) == Some(b)
    ensures b == n ==> FirstContaining(w, n, pos) == None
  {
  }

  predicate InPlayableArea(w: World, x: int, y: int)
  {
    w.mapMin.x <= x < w.mapMax.x && w.mapMin.y <= y < w.mapMax.y
  }

  /** What the tile index holds for tile (x, y) once bases 0 .. n-1 exist. */
  function TileIndexEntry(w: World, n: nat, x: int, y: int): (r: Option<nat>)
    ensures r.Some? ==> InPlayableArea(w, x, y) && r.value < n && w.containsPosition(r.value, TileCenter(x, y))
    ensures !InPlayableArea(w, x, y) ==> r.None?
    ensures InPlayableArea(w, x, y) ==> r == FirstContaining(w, n, TileCenter(x, y))
  {
    if InPlayableArea(w, x, y) then FirstContaining(w, n, TileCenter(x, y)) else None
  }

  /** `getBaseLocation(pos)`: nothing for an invalid position, else the entry of the tile the cast lands on. */
  function LocateBase(w: World, n: nat, pos: Position): (r: Option<nat>)
    ensures !w.isValidPosition(pos) ==> r.None?
    ensures r.Some? ==> r.value < n
    ensures w.isValidPosition(pos) ==> r == TileIndexEntry(w, n, TruncToInt(pos.x), TruncToInt(pos.y))
  {
    if !w.isValidPosition(pos) then None
    else TileIndexEntry(w, n, TruncToInt(pos.x), TruncToInt(pos.y))
  }

  // ---------------------------------------------------------------- occupancy

  /** Every base's occupying flags cleared and its depot forgotten. */
  function ResetOccupancy(bs: seq<BaseLocation>): (r: seq<BaseLocation>)
    ensures |r| == |bs|
    ensures forall i :: 0 <= i < |bs| ==>
              r[i] == bs[i].(occupiedBySelf := false, occupiedByEnemy := false, resourceDepot := None)
  {
    seq(|bs|, i requires 0 <= i < |bs| =>
      bs[i].(occupiedBySelf := false, occupiedByEnemy := false, resourceDepot := None))
  }

  /** Unit u is a resource depot that the tile index places on base i. */
  predicate DepotOn(w: World, n: nat, u: Unit, i: nat)
  {
    u.unitType.IsResourceDepot() && LocateBase(w, n, u.pos) == Some(i)
  }

  /**
   * One iteration of an occupancy loop of onFrame, for a unit of player p:
   * when u is a depot the tile index places on a base, that base becomes
   * occupied by p with depot u; no other base changes.
   */
  function MarkDepot(w: World, bs: seq<BaseLocation>, u: Unit, p: Player): (r: seq<BaseLocation>)
    ensures |r| == |bs|
    ensures forall j :: 0 <= j < |bs| ==>
              r[j] == if DepotOn(w, |bs|, u, j) then bs[j].SetOccupying(p, true).(resourceDepot := Some(u)) else bs[j]
  {
    if !u.unitType.IsResourceDepot() then bs
    else match LocateBase(w, |bs|, u.pos)
      case None => bs
      case Some(i) => bs[i := bs[i].SetOccupying(p, true).(resourceDepot := Some(u))]
  }

  /** Unit u is `us[k]` for a k at which u is a depot on base i and no later unit of `us` is. */
  ghost predicate IsLastDepot(w: World, n: nat, us: seq<Unit>, i: nat, u: Unit)
  {
    exists k :: 0 <= k < |us| && us[k] == u && DepotOn(w, n, u, i)
                && forall j :: k < j < |us| ==> !DepotOn(w, n, us[j], i)
  }

  /** The last unit of `us` that is a depot on base i; none exactly when no unit is. */
  function LastDepotOn(w: World, n: nat, us: seq<Unit>, i: nat): (r: Option<Unit>)
    ensures r.Some? ==> r.value in us && DepotOn(w, n, r.value, i)
    ensures r.Some? ==> IsLastDepot(w, n, us, i, r.value)
    ensures r.None? <==> forall k :: 0 <= k < |us| ==> !DepotOn(w, n, us[k], i)
    decreases |us|
  {
    if us == [] then None
    else if DepotOn(w, n, us[|us| - 1], i) then
      IsLastDepotAtEnd(w, n, us, i);
      Some(us[|us| - 1])
    else
      var r := LastDepotOn(w, n, us[..|us| - 1], i);
      if r.Some? then
        IsLastDepotExtend(w, n, us, i, r.value);
        r
      else
        r
  }

  /** A depot at the end of `us` is the last one. */
  lemma IsLastDepotAtEnd(w: World, n: nat, us: seq<Unit>, i: nat)
    requires |us| > 0 && DepotOn(w, n, us[|us| - 1], i)
    ensures IsLastDepot(w, n, us, i, us[|us| - 1])
  {
    var k := |us| - 1;
    assert us[k] == us[|us| - 1];
  }

  /** Appending a unit that is not a depot on base i keeps the last depot. */
  lemma IsLastDepotExtend(w: World, n: nat, us: seq<Unit>, i: nat, u: Unit)
    requires |us| > 0 && !DepotOn(w, n, us[|us| - 1], i)
    requires IsLastDepot(w, n, us[..|us| - 1], i, u)
    ensures IsLastDepot(w, n, us, i, u)
  {
    var pre := us[..|us| - 1];
    var k :| 0 <= k < |pre| && pre[k] == u && DepotOn(w, n, u, i)
             && forall j :: k < j < |pre| ==> !DepotOn(w, n, pre[j], i);
    assert us[k] == u;
    forall j | k < j < |us|
      ensures !DepotOn(w, n, us[j], i)
    {
      if j < |pre| {
        assert us[j] == pre[j];
      }
    }
  }

  /**
   * An occupancy loop over the units `us` of player p: a base gets p's flag
   * exactly when it had it or some depot of `us` stands on it; its depot is
   * the last such unit; nothing else about any base changes.
   */
  function MarkDepots(w: World, bs: seq<BaseLocation>, us: seq<Unit>, p: Player): (r: seq<BaseLocation>)
    ensures |r| == |bs|
    ensures forall i :: 0 <= i < |bs| ==>
              && r[i].id == bs[i].id && r[i].facts == bs[i].facts && r[i].isBlocked == bs[i].isBlocked
              && r[i].IsOccupiedBy(Opponent(p)) == bs[i].IsOccupiedBy(Opponent(p))
    ensures forall i :: 0 <= i < |bs| ==>
              (r[i].IsOccupiedBy(p) <==>
                 bs[i].IsOccupiedBy(p) || exists k :: 0 <= k < |us| && DepotOn(w, |bs|, us[k], i))
    ensures forall i :: 0 <= i < |bs| ==>
              r[i].resourceDepot == (match LastDepotOn(w, |bs|, us, i)
                                     case None => bs[i].resourceDepot
                                     case Some(u) => Some(u))
    decreases |us|
  {
    if us == [] then bs
    else
      var pre := us[..|us| - 1];
      var before := MarkDepots(w, bs, pre, p);
      assert forall k :: 0 <= k < |pre| ==> pre[k] == us[k];
      MarkDepot(w, before, us[|us| - 1], p)
  }

  /** Scanning one more unit of an occupancy loop applies `MarkDepot` to it. */
  lemma MarkDepotsStep(w: World, bs: seq<BaseLocation>, us: seq<Unit>, p: Player, k: nat)
    requires k < |us|
    ensures MarkDepots(w, bs, us[..k + 1], p) == MarkDepot(w, MarkDepots(w, bs, us[..k], p), us[k], p)
  {
    assert us[..k + 1][..k] == us[..k];
  }

  /** The fixed facts of every base, in base order. */
  function FactsOf(bs: seq<BaseLocation>): (fs: seq<BaseFacts>)
    ensures |fs| == |bs| && forall i :: 0 <= i < |bs| ==> fs[i] == bs[i].facts
  {
    seq(|bs|, i requires 0 <= i < |bs| => bs[i].facts)
  }

  /** Base i is a start location. */
  function StartFlags(fs: seq<BaseFacts>): (f: seq<bool>)
    ensures |f| == |fs| && forall i :: 0 <= i < |fs| ==> f[i] == fs[i].isStartLocation
  {
    seq(|fs|, i requires 0 <= i < |fs| => fs[i].isStartLocation)
  }

  /** Base i is our start. */
  function SelfStartFlags(fs: seq<BaseFacts>): (f: seq<bool>)
    ensures |f| == |fs| && forall i :: 0 <= i < |fs| ==> f[i] == fs[i].isSelfStart
  {
    seq(|fs|, i requires 0 <= i < |fs| => fs[i].isSelfStart)
  }

  /** Base i was the enemy's start when it was built. */
  function EnemyStartFlags(fs: seq<BaseFacts>): (f: seq<bool>)
    ensures |f| == |fs| && forall i :: 0 <= i < |fs| ==> f[i] == fs[i].isEnemyStart
  {
    seq(|fs|, i requires 0 <= i < |fs| => fs[i].isEnemyStart)
  }

  /** Base i is occupied by player p. */
  function OccupiedFlags(bs: seq<BaseLocation>, p: Player): (f: seq<bool>)
    ensures |f| == |bs| && forall i :: 0 <= i < |bs| ==> f[i] == bs[i].IsOccupiedBy(p)
  {
    seq(|bs|, i requires 0 <= i < |bs| => bs[i].IsOccupiedBy(p))
  }

  /** The game reports base i as the enemy's start this frame. */
  function SeenEnemyStartFlags(view: FrameView, n: nat): (f: seq<bool>)
    ensures |f| == n && forall i :: 0 <= i < n ==> f[i] == view.isEnemyStart(i)
  {
    seq(n, i requires 0 <= i < n => view.isEnemyStart(i))
  }

  /** Base i is a start location the game reports as explored. */
  function ExploredStartFlags(fs: seq<BaseFacts>, view: FrameView): (f: seq<bool>)
    ensures |f| == |fs|
    ensures forall i :: 0 <= i < |fs| ==> f[i] == (fs[i].isStartLocation && view.isExplored(i))
  {
    seq(|fs|, i requires 0 <= i < |fs| => fs[i].isStartLocation && view.isExplored(i))
  }

  /** Base i is a start location not yet explored. */
  function UnexploredStartFlags(fs: seq<BaseFacts>, view: FrameView): (f: seq<bool>)
    ensures |f| == |fs|
    ensures forall i :: 0 <= i < |fs| ==> f[i] == (fs[i].isStartLocation && !view.isExplored(i))
  {
    seq(|fs|, i requires 0 <= i < |fs| => fs[i].isStartLocation && !view.isExplored(i))
  }

  /**
   * The second stage of the enemy-start resolution: with `numStarts` start
   * locations, when all but one are explored, the last unexplored one.
   */
  function InferredEnemyStart(fs: seq<BaseFacts>, view: FrameView, numStarts: int): (r: Option<nat>)
    ensures r.Some? ==> r.value < |fs| && fs[r.value].isStartLocation && !view.isExplored(r.value)
    ensures r.Some? <==>
              CountTrue(ExploredStartFlags(fs, view)) == numStarts - 1
              && exists j :: 0 <= j < |fs| && fs[j].isStartLocation && !view.isExplored(j)
  {
    var unexplored := LastTrue(UnexploredStartFlags(fs, view));
    if CountTrue(ExploredStartFlags(fs, view)) == numStarts - 1 && unexplored.Some? then unexplored
    else None
  }

  /**
   * Elimination: when the inference picks a base, that base is a start
   * location nobody has explored, and every other start location has been
   * explored, so the pick is the only one possible.
   */
  lemma EliminationInference(fs: seq<BaseFacts>, view: FrameView)
    ensures var u := InferredEnemyStart(fs, view, CountTrue(StartFlags(fs)));
            u.Some? ==>
              && u.value < |fs| && fs[u.value].isStartLocation && !view.isExplored(u.value)
              && forall j :: 0 <= j < |fs| && j != u.value && fs[j].isStartLocation ==> view.isExplored(j)
  {
    var u := InferredEnemyStart(fs, view, CountTrue(StartFlags(fs)));
    if u.Some? {
      var un := UnexploredStartFlags(fs, view);
      CountSplit(StartFlags(fs), ExploredStartFlags(fs, view), un);
      forall j | 0 <= j < |fs| && j != u.value && fs[j].isStartLocation
        ensures view.isExplored(j)
      {
        TwoSetFlags(un, u.value, j);
      }
    }
  }

  /**
   * The converse of `EliminationInference`: when base i is the only start
   * location left unexplored, elimination picks it, and so does the
   * resolution of a frame in which the enemy start is unknown and not reported.
   */
  lemma EliminationFires(fs: seq<BaseFacts>, view: FrameView, i: nat)
    requires i < |fs| && fs[i].isStartLocation && !view.isExplored(i)
    requires forall j :: 0 <= j < |fs| && j != i && fs[j].isStartLocation ==> view.isExplored(j)
    ensures InferredEnemyStart(fs, view, CountTrue(StartFlags(fs))) == Some(i)
    ensures SeenEnemyStart(view, |fs|).None? ==>
              ResolvedEnemyStart(fs, view, None, CountTrue(StartFlags(fs))) == Some(i)
  {
    var un := UnexploredStartFlags(fs, view);
    CountSplit(StartFlags(fs), ExploredStartFlags(fs, view), un);
    CountOnly(un, i);
    assert un[i];
  }

  /** The last base the game reports as the enemy's start this frame. */
  function SeenEnemyStart(view: FrameView, n: nat): (r: Option<nat>)
    ensures r.Some? ==> r.value < n && view.isEnemyStart(r.value)
    ensures r.Some? ==> forall j :: r.value < j < n ==> !view.isEnemyStart(j)
    ensures r.None? ==> forall j :: 0 <= j < n ==> !view.isEnemyStart(j)
  {
    LastTrue(SeenEnemyStartFlags(view, n))
  }

  /**
   * The enemy start after a frame: a known one stays; otherwise the one the
   * game reports, and failing that the one left by elimination.
   */
  function ResolvedEnemyStart(fs: seq<BaseFacts>, view: FrameView, prev: Option<nat>, numStarts: int): (r: Option<nat>)
    ensures prev.Some? ==> r == prev
    ensures prev.None? && r.Some? ==>
              r.value < |fs| && (view.isEnemyStart(r.value) || (fs[r.value].isStartLocation && !view.isExplored(r.value)))
    ensures prev.None? && SeenEnemyStart(view, |fs|).Some? ==> r == SeenEnemyStart(view, |fs|)
    ensures prev.None? && SeenEnemyStart(view, |fs|).None? ==> r == InferredEnemyStart(fs, view, numStarts)
  {
    if prev.Some? then prev
    else if SeenEnemyStart(view, |fs|).Some? then SeenEnemyStart(view, |fs|)
    else InferredEnemyStart(fs, view, numStarts)
  }

  /** The bases after the reset loop and the two depot loops of onFrame; ids, facts and blocked flags are kept. */
  function MarkedBases(w: World, bs: seq<BaseLocation>, selfBuildings: seq<Unit>, enemyUnits: seq<Unit>): (r: seq<BaseLocation>)
    ensures |r| == |bs|
    ensures forall i :: 0 <= i < |bs| ==> r[i].id == bs[i].id && r[i].facts == bs[i].facts && r[i].isBlocked == bs[i].isBlocked
  {
    MarkDepots(w, MarkDepots(w, ResetOccupancy(bs), selfBuildings, Self), enemyUnits, Enemy)
  }

  /**
   * After the marks of a frame, a base is occupied by a player exactly when
   * one of that player's depots stands on it, its depot is the enemy's last
   * depot there or else our last one, and its facts and blocked flag are kept.
   */
  lemma FrameOccupancy(w: World, bs: seq<BaseLocation>, selfBuildings: seq<Unit>, enemyUnits: seq<Unit>)
    ensures var m := MarkedBases(w, bs, selfBuildings, enemyUnits);
            && |m| == |bs|
            && (forall i :: 0 <= i < |bs| ==>
                  && m[i].id == bs[i].id && m[i].facts == bs[i].facts && m[i].isBlocked == bs[i].isBlocked
                  && (m[i].IsOccupiedBy(Self) <==> exists k :: 0 <= k < |selfBuildings| && DepotOn(w, |bs|, selfBuildings[k], i))
                  && (m[i].IsOccupiedBy(Enemy) <==> exists k :: 0 <= k < |enemyUnits| && DepotOn(w, |bs|, enemyUnits[k], i)))
            && (forall i :: 0 <= i < |bs| ==>
                  m[i].resourceDepot == (if LastDepotOn(w, |bs|, enemyUnits, i).Some? then LastDepotOn(w, |bs|, enemyUnits, i)
                                         else LastDepotOn(w, |bs|, selfBuildings, i)))
  {
    var r := ResetOccupancy(bs);
    var m1 := MarkDepots(w, r, selfBuildings, Self);
    assert forall i :: 0 <= i < |bs| ==> !r[i].IsOccupiedBy(Self) && !r[i].IsOccupiedBy(Enemy) && r[i].resourceDepot.None?;
    assert forall i :: 0 <= i < |bs| ==> !m1[i].IsOccupiedBy(Enemy);
  }

  /**
   * The bases after a whole frame: the marks, and the occupying flag the
   * elimination sets on the inferred enemy start.
   */
  function FrameBases(w: World, fs: seq<BaseFacts>, bs: seq<BaseLocation>, selfBuildings: seq<Unit>, enemyUnits: seq<Unit>,
                      view: FrameView, prevEnemy: Option<nat>, numStarts: int): (r: seq<BaseLocation>)
    requires |fs| == |bs|
    ensures |r| == |bs|
    ensures forall i :: 0 <= i < |bs| ==> r[i].id == bs[i].id && r[i].facts == bs[i].facts && r[i].isBlocked == bs[i].isBlocked
  {
    var m := MarkedBases(w, bs, selfBuildings, enemyUnits);
    if prevEnemy.Some? || SeenEnemyStart(view, |bs|).Some? then m
    else match InferredEnemyStart(fs, view, numStarts)
      case None => m
      case Some(u) => m[u := m[u].SetOccupying(Enemy, true)]
  }

  /** Base i has id i and the facts `fs[i]`. */
  ghost predicate BasesHold(fs: seq<BaseFacts>, bs: seq<BaseLocation>)
  {
    |fs| == |bs| && forall i :: 0 <= i < |bs| ==> bs[i].id == i && bs[i].facts == fs[i]
  }

  /** The marks of a frame keep every base's id and facts. */
  lemma MarkedKeepsBases(w: World, fs: seq<BaseFacts>, bs: seq<BaseLocation>, selfBuildings: seq<Unit>, enemyUnits: seq<Unit>)
    requires BasesHold(fs, bs)
    ensures BasesHold(fs, MarkedBases(w, bs, selfBuildings, enemyUnits))
  {
    FrameOccupancy(w, bs, selfBuildings, enemyUnits);
  }

  /** So does a whole frame. */
  lemma FrameKeepsBases(w: World, fs: seq<BaseFacts>, bs: seq<BaseLocation>, selfBuildings: seq<Unit>, enemyUnits: seq<Unit>,
                        view: FrameView, prevEnemy: Option<nat>, numStarts: int)
    requires BasesHold(fs, bs)
    ensures BasesHold(fs, FrameBases(w, fs, bs, selfBuildings, enemyUnits, view, prevEnemy, numStarts))
  {
    FrameOccupancy(w, bs, selfBuildings, enemyUnits);
  }

  /** The bases player p occupies. */
  function OccupiedSet(bs: seq<BaseLocation>, p: Player): (s: set<nat>)
    ensures forall i: nat :: i in s <==> i < |bs| && bs[i].IsOccupiedBy(p)
  {
    set i: nat | i < |bs| && bs[i].IsOccupiedBy(p)
  }

  /** The bases of a longer prefix: the next base joins when p occupies it. */
  lemma OccupiedSetStep(bs: seq<BaseLocation>, i: nat, p: Player)
    requires i < |bs|
    ensures OccupiedSet(bs[..i + 1], p) == OccupiedSet(bs[..i], p) + (if bs[i].IsOccupiedBy(p) then {i} else {})
  {
    assert forall j :: 0 <= j < i ==> bs[..i + 1][j] == bs[..i][j];
  }

  /**
   * `FixNullPlayerStartingBaseLocation`: the first base that is our start,
   * else the first base we occupied.
   */
  function RepairedSelfStart(fs: seq<BaseFacts>, bs: seq<BaseLocation>): (r: Option<nat>)
    ensures r.Some? ==> r.value < |fs| || r.value < |bs|
    ensures FirstTrue(SelfStartFlags(fs)).Some? ==> r == FirstTrue(SelfStartFlags(fs))
    ensures FirstTrue(SelfStartFlags(fs)).None? ==> r == FirstTrue(OccupiedFlags(bs, Self))
  {
    match FirstTrue(SelfStartFlags(fs))
    case Some(i) => Some(i)
    case None => FirstTrue(OccupiedFlags(bs, Self))
  }

  // ---------------------------------------------------------------- base order

  /** s lists 0 .. n-1, each exactly once. */
  predicate IsIndexPermutation(s: seq<nat>, n: nat)
  {
    && |s| == n
    && (forall k :: 0 <= k < |s| ==> s[k] < n)
    && (forall k1, k2 :: 0 <= k1 < k2 < |s| ==> s[k1] != s[k2])
    && (forall i :: 0 <= i < n ==> i in s)
  }

  lemma RangeIsIndexPermutation(n: nat)
    ensures IsIndexPermutation(Range(n), n)
  {
    assert forall i :: 0 <= i < n ==> Range(n)[i] == i;
  }

  /**
   * Over an order that lists every index once, `FirstMin` finds nothing
   * exactly when nothing is scored, and otherwise an index of smallest score.
   */
  lemma FirstMinOverAll(order: seq<nat>, scores: seq<Option<real>>)
    requires IsIndexPermutation(order, |scores|)
    ensures FirstMin(order, scores).None? <==> forall i :: 0 <= i < |scores| ==> scores[i].None?
    ensures FirstMin(order, scores).Some? ==>
              forall i :: 0 <= i < |scores| && scores[i].Some? ==>
                scores[FirstMin(order, scores).value].value <= scores[i].value
  {
    var r := FirstMin(order, scores);
    FirstMinSpec(order, scores);
    forall i | 0 <= i < |scores| && scores[i].Some?
      ensures r.Some? && scores[r.value].value <= scores[i].value
    {
      assert i in order;
      var k :| 0 <= k < |order| && order[k] == i;
      assert scores[order[k]].Some?;
    }
  }

  /**
   * The closest member: scanning the bases in index order, `FirstMin` of the
   * distances to `pos` finds nothing exactly when there are no members, and
   * otherwise a nearest member, the lowest-numbered one among equally near.
   */
  lemma ClosestMember(fs: seq<BaseFacts>, members: set<nat>, pos: Position)
    requires forall b :: b in members ==> b < |fs|
    ensures var r := FirstMin(Range(|fs|), DistanceScores(fs, members, pos));
            && (r.None? <==> members == {})
            && (r.Some? ==>
                  && r.value in members
                  && (forall b :: b in members ==> DistSq(pos, fs[r.value].position) <= DistSq(pos, fs[b].position))
                  && (forall b :: b in members && b < r.value ==> DistSq(pos, fs[r.value].position) < DistSq(pos, fs[b].position)))
  {
    var scores := DistanceScores(fs, members, pos);
    var r := FirstMin(Range(|fs|), scores);
    FirstMinOverRange(scores);
    if r.Some? {
      var c := r.value;
      assert scores[c].Some?;
      forall b | b in members
        ensures DistSq(pos, fs[c].position) <= DistSq(pos, fs[b].position)
      {
        assert scores[b].Some?;
      }
      forall b | b in members && b < c
        ensures DistSq(pos, fs[c].position) < DistSq(pos, fs[b].position)
      {
        assert scores[b].Some?;
      }
    }
  }

  /** A map whose keys are exactly the indices below n has n entries. */
  lemma {:induction false} IndexMapSize<V>(m: map<nat, V>, n: nat)
    requires forall b :: b in m ==> b < n
    requires forall i :: 0 <= i < n ==> i in m
    ensures |m| == n
  {
    if n > 0 {
      var rest := m - {n - 1};
      IndexMapSize(rest, n - 1);
      assert m.Keys == rest.Keys + {n - 1};
    } else {
      assert m.Keys == {};
    }
  }

  /** Base i comes before base j in the order of `sortBaseLocationPtrs`: nearer to `from`, or as near and built first. */
  predicate SortsBefore(fs: seq<BaseFacts>, from: Position, i: nat, j: nat)
    requires i < |fs| && j < |fs|
  {
    var di := DistSq(from, fs[i].position);
    var dj := DistSq(from, fs[j].position);
    di < dj || (di == dj && i < j)
  }

  /** The order is strict and total, so a sequence sorted by it is determined by its elements. */
  lemma SortsBeforeIsStrictTotal(fs: seq<BaseFacts>, from: Position)
    ensures forall i: nat, j: nat :: i < |fs| && j < |fs| && i != j ==> SortsBefore(fs, from, i, j) != SortsBefore(fs, from, j, i)
    ensures forall i: nat :: i < |fs| ==> !SortsBefore(fs, from, i, i)
    ensures forall i: nat, j: nat, k: nat :: i < |fs| && j < |fs| && k < |fs| && SortsBefore(fs, from, i, j) && SortsBefore(fs, from, j, k) ==>
              SortsBefore(fs, from, i, k)
  {
  }

  predicate SortedFrom(fs: seq<BaseFacts>, from: Position, s: seq<nat>)
    requires forall k :: 0 <= k < |s| ==> s[k] < |fs|
  {
    forall k1, k2 :: 0 <= k1 < k2 < |s| ==> SortsBefore(fs, from, s[k1], s[k2])
  }

  /**
   * Where the selection sort stands: `done` holds the bases already taken,
   * nearest first, each nearer than every base still keyed in `remaining`
   * to its distance from `from`, and the two together hold 0 .. n-1 once.
   */
  ghost predicate SelectionState(fs: seq<BaseFacts>, from: Position, n: nat, done: seq<nat>, remaining: map<nat, real>)
  {
    && n == |fs|
    && (forall b :: b in remaining ==> b < n && remaining[b] == DistSq(from, fs[b].position))
    && (forall k :: 0 <= k < |done| ==> done[k] < n && done[k] !in remaining)
    && (forall i :: 0 <= i < n ==> i in remaining || i in done)
    && |done| + |remaining| == n
    && SortedFrom(fs, from, done)
    && (forall k, b :: 0 <= k < |done| && b in remaining ==> SortsBefore(fs, from, done[k], b))
  }

  /** Before the first pass every base is still to be placed. */
  lemma SelectionStart(fs: seq<BaseFacts>, from: Position, remaining: map<nat, real>)
    requires forall b :: b in remaining ==> b < |fs| && remaining[b] == DistSq(from, fs[b].position)
    requires forall i :: 0 <= i < |fs| ==> i in remaining
    ensures SelectionState(fs, from, |fs|, [], remaining)
  {
    IndexMapSize(remaining, |fs|);
  }

  /** Taking the remaining base that sorts before all others keeps the state. */
  lemma SelectionStep(fs: seq<BaseFacts>, from: Position, n: nat, done: seq<nat>, remaining: map<nat, real>, b: nat)
    requires SelectionState(fs, from, n, done, remaining)
    requires b in remaining
    requires forall c :: c in remaining && c != b ==> SortsBefore(fs, from, b, c)
    ensures SelectionState(fs, from, n, done + [b], remaining - {b})
    ensures |remaining - {b}| < |remaining|
  {
    assert remaining.Keys == (remaining - {b}).Keys + {b};
    var done' := done + [b];
    forall i | 0 <= i < n
      ensures i in remaining - {b} || i in done'
    {
      if i == b {
        assert done'[|done|] == b;
      } else if i in done {
        var k :| 0 <= k < |done| && done[k] == i;
        assert done'[k] == i;
      }
    }
  }

  /** Once nothing remains, the bases taken are every base once, nearest first. */
  lemma SelectionEnd(fs: seq<BaseFacts>, from: Position, done: seq<nat>)
    requires SelectionState(fs, from, |fs|, done, map[])
    ensures IsIndexPermutation(done, |fs|)
    ensures SortedFrom(fs, from, done)
  {
  }

  // ---------------------------------------------------------------- lookups

  /** Base i has its depot on `tile`. */
  function DepotFlags(fs: seq<BaseFacts>, tile: TilePos): (f: seq<bool>)
    ensures |f| == |fs| && forall i :: 0 <= i < |fs| ==> f[i] == (fs[i].depotPosition == tile)
  {
    seq(|fs|, i requires 0 <= i < |fs| => fs[i].depotPosition == tile)
  }

  /** Base i is occupied by p and contains `pos`. */
  function ContainingFlags(w: World, bs: seq<BaseLocation>, pos: Position, p: Player): (f: seq<bool>)
    ensures |f| == |bs|
    ensures forall i :: 0 <= i < |bs| ==> f[i] == (bs[i].IsOccupiedBy(p) && w.containsPosition(i, pos))
  {
    seq(|bs|, i requires 0 <= i < |bs| => bs[i].IsOccupiedBy(p) && w.containsPosition(i, pos))
  }

  /** The squared distance from `pos` to every base of `members`; no score for the others. */
  function DistanceScores(fs: seq<BaseFacts>, members: set<nat>, pos: Position): (s: seq<Option<real>>)
    ensures |s| == |fs|
    ensures forall i :: 0 <= i < |fs| ==> s[i] == (if i in members then Some(DistSq(pos, fs[i].position)) else None)
  {
    seq(|fs|, i requires 0 <= i < |fs| => if i in members then Some(DistSq(pos, fs[i].position)) else None)
  }

  /** The bases `onStart` builds: base i from the i-th qualifying cluster. */
  function BuildBases(w: World, cs: seq<Cluster>): (bs: seq<BaseLocation>)
    ensures |bs| == |cs| && forall i :: 0 <= i < |cs| ==> bs[i] == NewBase(w, i, cs[i])
  {
    seq(|cs|, i requires 0 <= i < |cs| => NewBase(w, i, cs[i]))
  }

  // ---------------------------------------------------------------- expansion

  /** An unreachable (negative) ground distance from the enemy home counts as zero. */
  function ClampUnreachable(d: int): (r: nat)
    ensures d >= 0 ==> r == d
    ensures d < 0 ==> r == 0
  {
    if d < 0 then 0 else d
  }

  /**
   * The score `getNextExpansion` gives base b, or `None` when b is not a
   * candidate: mineral-only, a start location, occupied by either player,
   * blocked (when checked), unbuildable (when checked) or unreachable from home.
   */
  function ExpansionScore(w: World, b: BaseLocation, home: nat, enemyHome: Option<nat>,
                          checkBlocked: bool, checkBuildable: bool): (r: Option<real>)
    ensures r.Some? ==>
              && !b.facts.isMineralOnly && !b.facts.isStartLocation && !b.occupiedBySelf && !b.occupiedByEnemy
              && (checkBlocked ==> !b.isBlocked) && (checkBuildable ==> w.canBuildDepot(b.facts.depotPosition))
              && w.groundDistance(home, b.facts.depotPosition) >= 0
    ensures r.Some? ==> r.value <= w.groundDistance(home, b.facts.depotPosition) as real
    ensures r.Some? && enemyHome.None? ==> r.value == w.groundDistance(home, b.facts.depotPosition) as real
    ensures r.Some? && enemyHome.Some? ==>
              r.value == (w.groundDistance(home, b.facts.depotPosition)
                          - ClampUnreachable(w.groundDistance(enemyHome.value, b.facts.depotPosition))) as real
  {
    var tile := b.facts.depotPosition;
    if b.facts.isMineralOnly || b.facts.isStartLocation || b.occupiedBySelf || b.occupiedByEnemy then None
    else if checkBlocked && b.isBlocked then None
    else if checkBuildable && !w.canBuildDepot(tile) then None
    else
      var fromHome := w.groundDistance(home, tile);
      if fromHome < 0 then None
      else
        var fromEnemy := if enemyHome.None? then 0 else ClampUnreachable(w.groundDistance(enemyHome.value, tile));
        Some((fromHome - fromEnemy) as real)
  }

  function ExpansionScores(w: World, bs: seq<BaseLocation>, home: nat, enemyHome: Option<nat>,
                           checkBlocked: bool, checkBuildable: bool): (s: seq<Option<real>>)
    ensures |s| == |bs|
    ensures forall i :: 0 <= i < |bs| ==> s[i] == ExpansionScore(w, bs[i], home, enemyHome, checkBlocked, checkBuildable)
  {
    seq(|bs|, i requires 0 <= i < |bs| => ExpansionScore(w, bs[i], home, enemyHome, checkBlocked, checkBuildable))
  }

  /** A base is a candidate exactly when it has a score, and then it is free, not a start, and reachable. */
  lemma ExpansionCandidates(w: World, b: BaseLocation, home: nat, enemyHome: Option<nat>,
                            checkBlocked: bool, checkBuildable: bool)
    ensures ExpansionScore(w, b, home, enemyHome, checkBlocked, checkBuildable).Some? <==>
              && !b.facts.isMineralOnly && !b.facts.isStartLocation
              && !b.IsOccupiedBy(Self) && !b.IsOccupiedBy(Enemy)
              && (checkBlocked ==> !b.isBlocked)
              && (checkBuildable ==> w.canBuildDepot(b.facts.depotPosition))
              && w.groundDistance(home, b.facts.depotPosition) >= 0
    ensures enemyHome.None? && ExpansionScore(w, b, home, enemyHome, checkBlocked, checkBuildable).Some? ==>
              ExpansionScore(w, b, home, enemyHome, checkBlocked, checkBuildable).value
                == w.groundDistance(home, b.facts.depotPosition) as real
  {
  }

  /**
   * Over a base order that lists every base once, the expansion scan finds
   * nothing exactly when no base is a candidate, and otherwise a candidate
   * whose score is no larger than any other candidate's.
   */
  lemma ExpansionChoice(w: World, bs: seq<BaseLocation>, order: seq<nat>, home: nat, enemyHome: Option<nat>,
                        checkBlocked: bool, checkBuildable: bool)
    requires IsIndexPermutation(order, |bs|)
    ensures var r := FirstMin(order, ExpansionScores(w, bs, home, enemyHome, checkBlocked, checkBuildable));
            && (r.None? <==> forall i :: 0 <= i < |bs| ==> ExpansionScore(w, bs[i], home, enemyHome, checkBlocked, checkBuildable).None?)
            && (r.Some? ==>
                  && r.value < |bs| && ExpansionScore(w, bs[r.value], home, enemyHome, checkBlocked, checkBuildable).Some?
                  && forall i :: 0 <= i < |bs| && ExpansionScore(w, bs[i], home, enemyHome, checkBlocked, checkBuildable).Some? ==>
                       ExpansionScore(w, bs[r.value], home, enemyHome, checkBlocked, checkBuildable).value
                         <= ExpansionScore(w, bs[i], home, enemyHome, checkBlocked, checkBuildable).value)
  {
    FirstMinOverAll(order, ExpansionScores(w, bs, home, enemyHome, checkBlocked, checkBuildable));
  }

  /** Occupancy-free expansions never include start locations: a map of start locations only has none. */
  lemma NoExpansionAmongStarts(w: World, bs: seq<BaseLocation>, order: seq<nat>, home: nat, enemyHome: Option<nat>,
                               checkBlocked: bool, checkBuildable: bool)
    requires forall k :: 0 <= k < |order| ==> order[k] < |bs|
    requires forall i :: 0 <= i < |bs| ==> bs[i].facts.isStartLocation
    ensures FirstMin(order, ExpansionScores(w, bs, home, enemyHome, checkBlocked, checkBuildable)).None?
  {
    FirstMinSpec(order, ExpansionScores(w, bs, home, enemyHome, checkBlocked, checkBuildable));
  }

  /**
   * Three free bases at ground distances 10, 20, 30 from home and 5, 25, 5
   * from the enemy home score 5, -5, 25: the second one is chosen.
   */
  lemma ExpansionExample()
    ensures var w := ExampleWorld();
            FirstMin(Range(5), ExpansionScores(w, ExampleBases(w), 0, Some(1), false, false)) == Some(3)
  {
    var w := ExampleWorld();
    var bs := ExampleBases(w);
    var s := ExpansionScores(w, bs, 0, Some(1), false, false);
    assert s[0] == None && s[1] == None;
    assert s[2] == Some(5.0) && s[3] == Some(-5.0) && s[4] == Some(25.0);
    var r := Range(5);
    assert r[..0] == [];
    FirstMinStep(r, s, 0);
    FirstMinStep(r, s, 1);
    FirstMinStep(r, s, 2);
    FirstMinStep(r, s, 3);
    FirstMinStep(r, s, 4);
    assert r == r[..5];
  }

  /** Bases 0 and 1 are the two starts; bases 2, 3, 4 have their depots on tiles (2, 0), (3, 0), (4, 0). */
  function ExampleWorld(): World
  {
    World(
      64, 64, TilePos(0, 0), TilePos(64, 64),
      Terrain(_ => 0.0, _ => Position(0.0, 0.0)),
      _ => false,
      (id: nat, _) => BaseFacts(Position(id as real, 0.0), TilePos(id, 0), id < 2, false, id == 0, id == 1),
      (_, _) => false,
      (from: nat, t: TilePos) =>
        if from == 0 then (if t.x == 2 then 10 else if t.x == 3 then 20 else 30)
        else (if t.x == 3 then 25 else 5),
      _ => true)
  }

  function ExampleBases(w: World): seq<BaseLocation>
  {
    [NewBase(w, 0, []), NewBase(w, 1, []), NewBase(w, 2, []), NewBase(w, 3, []), NewBase(w, 4, [])]
  }

  /**
   * The pointers list every base once, in creation order until sorted and
   * then by distance to the enemy start; the start locations are listed in
   * order; each player's start, when known, is a base.
   */
  ghost predicate LinksHold(fs: seq<BaseFacts>, ptrs: seq<nat>, sorted: bool, starts: seq<nat>, playerStart: map<Player, Option<nat>>)
  {
    && IsIndexPermutation(ptrs, |fs|)
    && (!sorted ==> ptrs == Range(|fs|))
    && starts == TrueIndices(StartFlags(fs))
    && StartsAreBases(playerStart, |fs|)
    && (sorted ==> playerStart[Enemy].Some? && SortedFrom(fs, fs[playerStart[Enemy].value].position, ptrs))
  }

  /** The occupied sets list exactly the bases each player occupies. */
  ghost predicate OccupancyHolds(bs: seq<BaseLocation>, occupied: map<Player, set<nat>>)
  {
    forall p: Player :: p in occupied && occupied[p] == OccupiedSet(bs, p)
  }

  /** The links `onStart` makes: pointers in creation order, unsorted, and the last start found for each player. */
  lemma InitialLinks(fs: seq<BaseFacts>, selfStart: Option<nat>, enemyStart: Option<nat>)
    requires selfStart.Some? ==> selfStart.value < |fs|
    requires enemyStart.Some? ==> enemyStart.value < |fs|
    ensures LinksHold(fs, Range(|fs|), false, TrueIndices(StartFlags(fs)), map[Self := selfStart, Enemy := enemyStart])
  {
    RangeIsIndexPermutation(|fs|);
    var m := map[Self := selfStart, Enemy := enemyStart];
    forall p: Player
      ensures p in m && (m[p].Some? ==> m[p].value < |fs|)
    {
      if p == Self {
      }
    }
  }

  /** With no base occupied, both occupied sets are empty. */
  lemma InitialOccupancy(bs: seq<BaseLocation>)
    requires forall i :: 0 <= i < |bs| ==> !bs[i].occupiedBySelf && !bs[i].occupiedByEnemy
    ensures OccupancyHolds(bs, map[Self := {}, Enemy := {}])
  {
    var m: map<Player, set<nat>> := map[Self := {}, Enemy := {}];
    forall p: Player
      ensures p in m && m[p] == OccupiedSet(bs, p)
    {
      assert OccupiedSet(bs, p) == {};
      if p == Self {
      }
    }
  }

  /** Recording a player's start keeps the links, as long as a sorted order's enemy start stays put. */
  lemma LinksWithStart(fs: seq<BaseFacts>, ptrs: seq<nat>, sorted: bool, starts: seq<nat>,
                       playerStart: map<Player, Option<nat>>, p: Player, v: Option<nat>)
    requires LinksHold(fs, ptrs, sorted, starts, playerStart)
    requires v.Some? ==> v.value < |fs|
    requires sorted && p == Enemy ==> v == playerStart[Enemy]
    ensures LinksHold(fs, ptrs, sorted, starts, playerStart[p := v])
  {
  }

  /** A sorted order from a known enemy start is a valid state of the links. */
  lemma LinksSorted(fs: seq<BaseFacts>, ptrs: seq<nat>, starts: seq<nat>, playerStart: map<Player, Option<nat>>, sortedPtrs: seq<nat>)
    requires LinksHold(fs, ptrs, false, starts, playerStart)
    requires playerStart[Enemy].Some?
    requires IsIndexPermutation(sortedPtrs, |fs|)
    requires SortedFrom(fs, fs[playerStart[Enemy].value].position, sortedPtrs)
    ensures LinksHold(fs, sortedPtrs, true, starts, playerStart)
  {
  }

  /**
   * After a whole frame a base is ours exactly when one of our depots stands
   * on it, and the enemy's exactly when one of its depots does or it is the
   * start the elimination just inferred; its id, facts and blocked flag stay.
   */
  lemma FrameBasesOccupancy(w: World, fs: seq<BaseFacts>, bs: seq<BaseLocation>, selfBuildings: seq<Unit>, enemyUnits: seq<Unit>,
                            view: FrameView, prevEnemy: Option<nat>, numStarts: int)
    requires |fs| == |bs|
    ensures var r := FrameBases(w, fs, bs, selfBuildings, enemyUnits, view, prevEnemy, numStarts);
            var inferred := prevEnemy.None? && SeenEnemyStart(view, |bs|).None?;
            forall i :: 0 <= i < |bs| ==>
              && r[i].id == bs[i].id && r[i].facts == bs[i].facts && r[i].isBlocked == bs[i].isBlocked
              && (r[i].IsOccupiedBy(Self) <==> exists k :: 0 <= k < |selfBuildings| && DepotOn(w, |bs|, selfBuildings[k], i))
              && (r[i].IsOccupiedBy(Enemy) <==>
                    (exists k :: 0 <= k < |enemyUnits| && DepotOn(w, |bs|, enemyUnits[k], i))
                    || (inferred && InferredEnemyStart(fs, view, numStarts) == Some(i)))
  {
    FrameOccupancy(w, bs, selfBuildings, enemyUnits);
  }
}
