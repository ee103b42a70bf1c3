/**
 * The scan shapes the base-location manager's loops are built from, as
 * functions on values: the first or last index whose flag is set, the
 * indices of all set flags, how many are set, and the first strict minimum
 * of a score over an iteration order.
 */
module Selection {
  import opened Common

  /** 0, 1, ..., n - 1. */
  function Range(n: nat): (r: seq<nat>)
    ensures |r| == n
    ensures forall k :: 0 <= k < n ==> r[k] == k
  {
    if n == 0 then [] else Range(n - 1) + [n - 1]
  }

  /** The first set flag: a scan that stops at its first match. */
  function FirstTrue(f: seq<bool>): (r: Option<nat>)
    ensures r.Some? ==> r.value < |f| && f[r.value] && forall j :: 0 <= j < r.value ==> !f[j]
    ensures r.None? ==> forall j :: 0 <= j < |f| ==> !f[j]
  {
    if f == [] then None
    else if f[0] then Some(0)
    else match FirstTrue(f[1..])
      case None => None
      case Some(i) => Some(i + 1)
  }

  /** A scan that stops at i, having passed only unset flags, found the first set flag. */
  lemma FirstTrueAt(f: seq<bool>, i: nat)
    requires i <= |f| && forall j :: 0 <= j < i ==> !f[j]
    ensures i < |f| && f[i] ==> FirstTrue(f) == Some(i)
    ensures i == |f| ==> FirstTrue(f) == None
  {
  }

  /** The last set flag: a scan that overwrites its answer at every match. */
  function LastTrue(f: seq<bool>): (r: Option<nat>)
    ensures r.Some? ==> r.value < |f| && f[r.value] && forall j :: r.value < j < |f| ==> !f[j]
    ensures r.None? ==> forall j :: 0 <= j < |f| ==> !f[j]
  {
    if f == [] then None
    else if f[|f| - 1] then Some(|f| - 1)
    else LastTrue(f[..|f| - 1])
  }

  /** The indices of the set flags, in increasing order: a scan that appends every match. */
  function TrueIndices(f: seq<bool>): (r: seq<nat>)
    ensures forall k :: 0 <= k < |r| ==> r[k] < |f| && f[r[k]]
    ensures forall i :: 0 <= i < |f| && f[i] ==> i in r
    ensures forall k1, k2 :: 0 <= k1 < k2 < |r| ==> r[k1] < r[k2]
  {
    if f == [] then []
    else TrueIndices(f[..|f| - 1]) + (if f[|f| - 1] then [|f| - 1] else [])
  }

  /** Scanning one more flag appends its index when it is set. */
  lemma TrueIndicesStep(f: seq<bool>, i: nat)
    requires i < |f|
    ensures TrueIndices(f[..i + 1]) == TrueIndices(f[..i]) + (if f[i] then [i] else [])
  {
    assert f[..i + 1][..i] == f[..i];
  }

  /** Scanning one more flag moves the last match there when it is set. */
  lemma LastTrueStep(f: seq<bool>, i: nat)
    requires i < |f|
    ensures LastTrue(f[..i + 1]) == if f[i] then Some(i) else LastTrue(f[..i])
  {
    assert f[..i + 1][..i] == f[..i];
  }

  /** How many flags are set. */
  function CountTrue(f: seq<bool>): (c: nat)
    ensures c <= |f|
    ensures c == 0 <==> forall j :: 0 <= j < |f| ==> !f[j]
  {
    if f == [] then 0
    else CountTrue(f[..|f| - 1]) + (if f[|f| - 1] then 1 else 0)
  }

  /** Scanning one more flag adds one to the count when it is set. */
  lemma CountTrueStep(f: seq<bool>, i: nat)
    requires i < |f|
    ensures CountTrue(f[..i + 1]) == CountTrue(f[..i]) + (if f[i] then 1 else 0)
  {
    assert f[..i + 1][..i] == f[..i];
  }

  lemma {:induction false} TrueIndicesCount(f: seq<bool>)
    ensures |TrueIndices(f)| == CountTrue(f)
  {
    if f != [] {
      TrueIndicesCount(f[..|f| - 1]);
    }
  }

  /**
   * When every set flag of `whole` is set in exactly one of `a` and `b`,
   * and `a` and `b` set nothing else, the counts add up.
   */
  lemma {:induction false} CountSplit(whole: seq<bool>, a: seq<bool>, b: seq<bool>)
    requires |whole| == |a| == |b|
    requires forall i :: 0 <= i < |whole| ==> (whole[i] <==> a[i] || b[i]) && !(a[i] && b[i])
    ensures CountTrue(whole) == CountTrue(a) + CountTrue(b)
  {
    if whole != [] {
      var n := |whole| - 1;
      CountSplit(whole[..n], a[..n], b[..n]);
    }
  }

  /** Two different set flags count at least two. */
  lemma {:induction false} TwoSetFlags(f: seq<bool>, i: nat, j: nat)
    requires i < |f| && j < |f|
    ensures i != j && f[i] && f[j] ==> CountTrue(f) >= 2
  {
    if i != j && f[i] && f[j] {
      var n := |f| - 1;
      if i == n || j == n {
        var k := if i == n then j else i;
        assert f[..n][k];
      } else {
        assert f[..n][i] && f[..n][j];
        TwoSetFlags(f[..n], i, j);
      }
    }
  }

  /** When flag i is the only set flag, the count is one. */
  lemma {:induction false} CountOnly(f: seq<bool>, i: nat)
    requires i < |f| && f[i]
    requires forall j :: 0 <= j < |f| && j != i ==> !f[j]
    ensures CountTrue(f) == 1
  {
    var n := |f| - 1;
    if i == n {
      assert forall j :: 0 <= j < n ==> !f[..n][j];
    } else {
      assert f[..n][i];
      CountOnly(f[..n], i);
    }
  }

  /** A single set flag is the only one. */
  lemma CountOneIsUnique(f: seq<bool>, i: nat, j: nat)
    requires CountTrue(f) == 1
    requires i < |f| && j < |f| && f[i] && f[j]
    ensures i == j
  {
    TwoSetFlags(f, i, j);
  }

  /**
   * The loop `if (!best || score < minScore) { best = x; minScore = score; }`
   * run over `order`, where `scores[x]` is `None` for an `x` the loop skips.
   */
  function FirstMin(order: seq<nat>, scores: seq<Option<real>>): (r: Option<nat>)
    requires forall k :: 0 <= k < |order| ==> order[k] < |scores|
    ensures r.Some? ==> r.value < |scores| && scores[r.value].Some? && r.value in order
    decreases |order|
  {
    if order == [] then None
    else
      var best := FirstMin(order[..|order| - 1], scores);
      var x := order[|order| - 1];
      if scores[x].Some? && (best.None? || scores[x].value < scores[best.value].value) then Some(x)
      else best
  }

  /** Scanning one more entry of the order: it takes over when scored and strictly lower. */
  lemma FirstMinStep(order: seq<nat>, scores: seq<Option<real>>, k: nat)
    requires forall j :: 0 <= j < |order| ==> order[j] < |scores|
    requires k < |order|
    ensures var best := FirstMin(order[..k], scores);
            var x := order[k];
            FirstMin(order[..k + 1], scores)
              == if scores[x].Some? && (best.None? || scores[x].value < scores[best.value].value) then Some(x) else best
  {
    assert order[..k + 1][..k] == order[..k];
  }

  /**
   * `FirstMin` finds nothing exactly when nothing is scored; otherwise its
   * answer has the smallest score, and every scored entry met before it
   * scores strictly more.
   */
  lemma {:induction false} FirstMinSpec(order: seq<nat>, scores: seq<Option<real>>)
    requires forall k :: 0 <= k < |order| ==> order[k] < |scores|
    ensures FirstMin(order, scores).None? <==> forall k :: 0 <= k < |order| ==> scores[order[k]].None?
    ensures FirstMin(order, scores).Some? ==>
              var b := FirstMin(order, scores).value;
              (forall k :: 0 <= k < |order| && scores[order[k]].Some? ==> scores[b].value <= scores[order[k]].value)
              && exists p :: 0 <= p < |order| && order[p] == b
                   && forall k :: 0 <= k < p && scores[order[k]].Some? ==> scores[b].value < scores[order[k]].value
    decreases |order|
  {
    if order != [] {
      var n := |order| - 1;
      var pre := order[..n];
      assert forall k :: 0 <= k < n ==> pre[k] == order[k];
      FirstMinSpec(pre, scores);
      var best := FirstMin(pre, scores);
      var x := order[n];
      if scores[x].Some? && (best.None? || scores[x].value < scores[best.value].value) {
        assert FirstMin(order, scores) == Some(x);
        assert order[n] == x;
      } else if best.Some? {
        assert FirstMin(order, scores) == best;
        var p :| 0 <= p < n && pre[p] == best.value
                 && forall k :: 0 <= k < p && scores[pre[k]].Some? ==> scores[best.value].value < scores[pre[k]].value;
        assert order[p] == best.value;
      } else {
        assert FirstMin(order, scores) == None;
      }
    }
  }

  /**
   * Over 0 .. n-1 in order, `FirstMin` finds nothing exactly when nothing is
   * scored; otherwise its answer has the smallest score, and every scored
   * index below it scores strictly more.
   */
  lemma FirstMinOverRange(scores: seq<Option<real>>)
    ensures FirstMin(Range(|scores|), scores).None? <==> forall i :: 0 <= i < |scores| ==> scores[i].None?
    ensures FirstMin(Range(|scores|), scores).Some? ==>
              var b := FirstMin(Range(|scores|), scores).value;
              && (forall i :: 0 <= i < |scores| && scores[i].Some? ==> scores[b].value <= scores[i].value)
              && (forall i :: 0 <= i < b && scores[i].Some? ==> scores[b].value < scores[i].value)
  {
    var order := Range(|scores|);
    var r := FirstMin(order, scores);
    FirstMinSpec(order, scores);
    forall i | 0 <= i < |scores| && scores[i].Some?
      ensures r.Some? && scores[r.value].value <= scores[i].value
    {
      assert order[i] == i && scores[order[i]].Some?;
    }
    if r.Some? {
      var p :| 0 <= p < |order| && order[p] == r.value
               && forall k :: 0 <= k < p && scores[order[k]].Some? ==> scores[r.value].value < scores[order[k]].value;
      forall i | 0 <= i < r.value && scores[i].Some?
        ensures scores[r.value].value < scores[i].value
      {
        assert order[i] == i;
      }
    }
  }
}
