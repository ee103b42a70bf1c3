/**
 * Greedy resource clustering of `BaseLocationManager::onStart`: minerals
 * first, each joining the first cluster that passes the distance and
 * terrain-height tests or else founding a new one; then geysers, which may
 * only join; finally the clusters of more than four resources become bases.
 */
module Clustering {
  import opened Common

  /** `Util::TileToPosition(12*12)`; tile and map units coincide in the SC2 build. */
  const MaxClusterDistanceSq: real := 144.0
  /** Geysers are tested against a slightly larger threshold. */
  const GeyserClusterDistanceSq: real := MaxClusterDistanceSq + 10.0
  /** A cluster becomes a base only when it has more than this many resources. */
  const MinBaseResources: nat := 4

  type Cluster = seq<Resource>

  /** The map services clustering asks: `terrainHeight` and `Util::CalcCenter`. */
  datatype Terrain = Terrain(height: Position -> real, calcCenter: Cluster -> Position)

  /**
   * The two tests of `affectToCluster` for one cluster: the squared distance
   * to its freshly computed centre is below the threshold, and the terrain
   * heights differ by less than one level.
   */
  predicate Fits(t: Terrain, cluster: Cluster, res: Resource, maxDistSq: real)
  {
    var center := t.calcCenter(cluster);
    DistSq(res.pos, center) < maxDistSq && Abs(t.height(res.pos) - t.height(center)) < 1.0
  }

  /** The first cluster, in order, that `res` fits. */
  function FirstFit(t: Terrain, cs: seq<Cluster>, res: Resource, maxDistSq: real): (r: Option<nat>)
    ensures r.Some? ==> r.value < |cs| && Fits(t, cs[r.value], res, maxDistSq)
    ensures r.Some? ==> forall j :: 0 <= j < r.value ==> !Fits(t, cs[j], res, maxDistSq)
    ensures r.None? ==> forall j :: 0 <= j < |cs| ==> !Fits(t, cs[j], res, maxDistSq)
  {
    if cs == [] then None
    else if Fits(t, cs[0], res, maxDistSq) then Some(0)
    else match FirstFit(t, cs[1..], res, maxDistSq)
      case None => None
      case Some(i) => Some(i + 1)
  }

  /** The clusters after `affectToCluster`: `res` appended to its first fitting cluster, if any. */
  function Affect(t: Terrain, cs: seq<Cluster>, res: Resource, maxDistSq: real): (r: seq<Cluster>)
    ensures |r| == |cs|
    ensures forall j :: 0 <= j < |cs| ==>
              r[j] == if FirstFit(t, cs, res, maxDistSq) == Some(j) then cs[j] + [res] else cs[j]
  {
    match FirstFit(t, cs, res, maxDistSq)
    case None => cs
    case Some(i) => cs[i := cs[i] + [res]]
  }

  /**
   * One iteration of the mineral loop: join a cluster, or found a new one.
   * Only a mineral changes anything; it founds a cluster of its own exactly
   * when it fits none; existing clusters are only extended.
   */
  function MineralStep(t: Terrain, cs: seq<Cluster>, res: Resource): (r: seq<Cluster>)
    ensures res.kind != Mineral ==> r == cs
    ensures |cs| <= |r| <= |cs| + 1
    ensures res.kind == Mineral ==> (|r| == |cs| + 1 <==> FirstFit(t, cs, res, MaxClusterDistanceSq).None?)
    ensures |r| == |cs| + 1 ==> r[|cs|] == [res]
    ensures forall j :: 0 <= j < |cs| ==> cs[j] <= r[j]
    ensures res.kind == Mineral && FirstFit(t, cs, res, MaxClusterDistanceSq).Some? ==>
              r == Affect(t, cs, res, MaxClusterDistanceSq)
  {
    if res.kind != Mineral then cs
    else if FirstFit(t, cs, res, MaxClusterDistanceSq).Some? then Affect(t, cs, res, MaxClusterDistanceSq)
    else cs + [[res]]
  }

  /** One iteration of the geyser loop: join a cluster, never found one. */
  function GeyserStep(t: Terrain, cs: seq<Cluster>, res: Resource): (r: seq<Cluster>)
    ensures res.kind != Geyser ==> r == cs
    ensures |r| == |cs|
    ensures forall j :: 0 <= j < |cs| ==> cs[j] <= r[j]
    ensures res.kind == Geyser ==> r == Affect(t, cs, res, GeyserClusterDistanceSq)
  {
    if res.kind != Geyser then cs else Affect(t, cs, res, GeyserClusterDistanceSq)
  }

  /** The clusters after the mineral loop has seen `rs`: never more clusters than minerals. */
  function MineralPass(t: Terrain, rs: seq<Resource>): (r: seq<Cluster>)
    ensures |r| <= |OfKind(rs, Mineral)|
    decreases |rs|
  {
    if rs == [] then [] else MineralStep(t, MineralPass(t, rs[..|rs| - 1]), rs[|rs| - 1])
  }

  /** The clusters after the geyser loop has seen `rs`, starting from `cs`: as many as before. */
  function GeyserPass(t: Terrain, cs: seq<Cluster>, rs: seq<Resource>): (r: seq<Cluster>)
    ensures |r| == |cs|
    decreases |rs|
  {
    if rs == [] then cs else GeyserStep(t, GeyserPass(t, cs, rs[..|rs| - 1]), rs[|rs| - 1])
  }

  /**
   * The clusters `onStart` ends with, for the neutral units `rs`: the
   * geyser pass adds no cluster, so there are no more clusters than minerals.
   */
  function ResourceClusters(t: Terrain, rs: seq<Resource>): (r: seq<Cluster>)
    ensures |r| == |MineralPass(t, rs)| <= |OfKind(rs, Mineral)|
  {
    GeyserPass(t, MineralPass(t, rs), rs)
  }

  /** The clusters that become bases, in cluster order: clusters of `cs` with more than four resources. */
  function Qualifying(cs: seq<Cluster>): (r: seq<Cluster>)
    ensures |r| <= |cs|
    ensures forall k :: 0 <= k < |r| ==> |r[k]| > MinBaseResources
    decreases |cs|
  {
    if cs == [] then []
    else Qualifying(cs[..|cs| - 1]) + (if |cs[|cs| - 1]| > MinBaseResources then [cs[|cs| - 1]] else [])
  }

  function Flatten(cs: seq<Cluster>): seq<Resource>
    decreases |cs|
  {
    if cs == [] then [] else Flatten(cs[..|cs| - 1]) + cs[|cs| - 1]
  }

  function OfKind(rs: seq<Resource>, kind: ResourceKind): seq<Resource>
    decreases |rs|
  {
    if rs == [] then []
    else OfKind(rs[..|rs| - 1], kind) + (if rs[|rs| - 1].kind == kind then [rs[|rs| - 1]] else [])
  }

  lemma {:induction false} FlattenAppendAt(cs: seq<Cluster>, i: nat, res: Resource)
    requires i < |cs|
    ensures multiset(Flatten(cs[i := cs[i] + [res]])) == multiset(Flatten(cs)) + multiset{res}
    decreases |cs|
  {
    var n := |cs| - 1;
    var cs' := cs[i := cs[i] + [res]];
    if i == n {
      assert cs'[..n] == cs[..n];
    } else {
      assert cs'[..n] == cs[..n][i := cs[..n][i] + [res]];
      FlattenAppendAt(cs[..n], i, res);
    }
  }

  lemma FlattenNewCluster(cs: seq<Cluster>, res: Resource)
    ensures Flatten(cs + [[res]]) == Flatten(cs) + [res]
  {
    assert (cs + [[res]])[..|cs|] == cs;
  }

  /** Every cluster is non-empty and made of minerals only. */
  predicate MineralClusters(cs: seq<Cluster>)
  {
    forall i :: 0 <= i < |cs| ==> |cs[i]| > 0 && forall e :: e in cs[i] ==> e.kind == Mineral
  }

  /**
   * One iteration of the mineral loop keeps every cluster a non-empty set of
   * minerals, and adds the resource to the clusters when it is a mineral.
   */
  lemma MineralStepKeeps(t: Terrain, cs: seq<Cluster>, res: Resource)
    requires MineralClusters(cs)
    ensures MineralClusters(MineralStep(t, cs, res))
    ensures multiset(Flatten(MineralStep(t, cs, res)))
              == multiset(Flatten(cs)) + (if res.kind == Mineral then multiset{res} else multiset{})
  {
    if res.kind == Mineral {
      match FirstFit(t, cs, res, MaxClusterDistanceSq)
      case Some(i) =>
        FlattenAppendAt(cs, i, res);
      case None =>
        FlattenNewCluster(cs, res);
    }
  }

  /**
   * After the mineral loop every cluster is non-empty and made of minerals
   * only, and the clusters hold every mineral of the list exactly once.
   */
  lemma {:induction false} MineralPassPartitions(t: Terrain, rs: seq<Resource>)
    ensures forall i :: 0 <= i < |MineralPass(t, rs)| ==> |MineralPass(t, rs)[i]| > 0
    ensures forall i, e :: 0 <= i < |MineralPass(t, rs)| && e in MineralPass(t, rs)[i] ==> e.kind == Mineral
    ensures multiset(Flatten(MineralPass(t, rs))) == multiset(OfKind(rs, Mineral))
    decreases |rs|
  {
    if rs != [] {
      var n := |rs| - 1;
      var pre := rs[..n];
      MineralPassPartitions(t, pre);
      MineralStepKeeps(t, MineralPass(t, pre), rs[n]);
    }
  }

  /**
   * The geyser loop never adds a cluster, only extends existing ones, and
   * what it adds are geysers of the list, each at most once.
   */
  lemma {:induction false} GeyserPassOnlyJoins(t: Terrain, cs: seq<Cluster>, rs: seq<Resource>)
    ensures |GeyserPass(t, cs, rs)| == |cs|
    ensures forall i :: 0 <= i < |cs| ==> cs[i] <= GeyserPass(t, cs, rs)[i]
    ensures multiset(Flatten(GeyserPass(t, cs, rs))) <= multiset(Flatten(cs)) + multiset(OfKind(rs, Geyser))
    decreases |rs|
  {
    if rs != [] {
      var n := |rs| - 1;
      var res := rs[n];
      var before := GeyserPass(t, cs, rs[..n]);
      GeyserPassOnlyJoins(t, cs, rs[..n]);
      if res.kind == Geyser {
        match FirstFit(t, before, res, GeyserClusterDistanceSq)
        case Some(i) =>
          FlattenAppendAt(before, i, res);
          forall j | 0 <= j < |cs|
            ensures cs[j] <= GeyserPass(t, cs, rs)[j]
          {
            assert cs[j] <= before[j];
          }
        case None =>
      }
    }
  }

  /** No cluster, and so no base, is founded by a geyser: every cluster starts with a mineral. */
  lemma FoundedByMinerals(t: Terrain, rs: seq<Resource>)
    ensures forall i :: 0 <= i < |ResourceClusters(t, rs)| ==>
              |ResourceClusters(t, rs)[i]| > 0 && ResourceClusters(t, rs)[i][0].kind == Mineral
  {
    var cs := MineralPass(t, rs);
    MineralPassPartitions(t, rs);
    GeyserPassOnlyJoins(t, cs, rs);
    forall i | 0 <= i < |ResourceClusters(t, rs)|
      ensures |ResourceClusters(t, rs)[i]| > 0 && ResourceClusters(t, rs)[i][0].kind == Mineral
    {
      assert cs[i] <= ResourceClusters(t, rs)[i];
      assert cs[i][0] in cs[i];
    }
  }

  /**
   * Cluster i becomes a base exactly when it has more than four resources,
   * and then it is base number "how many earlier clusters became bases";
   * conversely every base k is such a cluster i, so nothing else is listed.
   */
  lemma {:induction false} QualifyingOrder(cs: seq<Cluster>)
    ensures forall k :: 0 <= k < |Qualifying(cs)| ==> |Qualifying(cs)[k]| > MinBaseResources
    ensures forall i :: 0 <= i < |cs| && |cs[i]| > MinBaseResources ==>
              |Qualifying(cs[..i])| < |Qualifying(cs)| && Qualifying(cs)[|Qualifying(cs[..i])|] == cs[i]
    ensures forall k :: 0 <= k < |Qualifying(cs)| ==> QualifyingFrom(cs, k)
    ensures |Qualifying(cs)| <= |cs|
    decreases |cs|
  {
    if cs != [] {
      var n := |cs| - 1;
      var pre := cs[..n];
      QualifyingOrder(pre);
      var q := Qualifying(pre);
      assert Qualifying(cs) == q + (if |cs[n]| > MinBaseResources then [cs[n]] else []);
      forall i | 0 <= i < |cs| && |cs[i]| > MinBaseResources
        ensures |Qualifying(cs[..i])| < |Qualifying(cs)| && Qualifying(cs)[|Qualifying(cs[..i])|] == cs[i]
      {
        if i == n {
          assert cs[..i] == pre;
        } else {
          assert pre[..i] == cs[..i];
          assert pre[i] == cs[i];
        }
      }
    }
    QualifyingSources(cs);
  }

  /** Base k of `Qualifying(cs)` is some cluster i of `cs` with exactly k bases before it. */
  ghost predicate QualifyingFrom(cs: seq<Cluster>, k: nat)
    requires k < |Qualifying(cs)|
  {
    exists i :: 0 <= i < |cs| && cs[i] == Qualifying(cs)[k] && |Qualifying(cs[..i])| == k
  }

  /** Every base of `Qualifying(cs)` comes from `cs` in that way. */
  lemma {:induction false} QualifyingSources(cs: seq<Cluster>)
    ensures forall k :: 0 <= k < |Qualifying(cs)| ==> QualifyingFrom(cs, k)
    decreases |cs|
  {
    if cs != [] {
      var n := |cs| - 1;
      var pre := cs[..n];
      QualifyingSources(pre);
      var q := Qualifying(pre);
      assert Qualifying(cs) == q + (if |cs[n]| > MinBaseResources then [cs[n]] else []);
      forall k | 0 <= k < |Qualifying(cs)|
        ensures QualifyingFrom(cs, k)
      {
        if k < |q| {
          assert QualifyingFrom(pre, k);
          var i :| 0 <= i < n && pre[i] == q[k] && |Qualifying(pre[..i])| == k;
          assert pre[..i] == cs[..i];
          assert cs[i] == Qualifying(cs)[k];
        } else {
          assert cs[..n] == pre;
          assert cs[n] == Qualifying(cs)[k];
        }
      }
    } else {
      assert Qualifying(cs) == [];
    }
  }
}
