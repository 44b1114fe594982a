/** Grouping of order-flow bubbles: how the ordered list is cut into the groups that are merged. */
module BubbleGroups {
  import opened BubbleOrder
  import opened BubbleStyle

  datatype MergeConfig = MergeConfig(enabled: set<Tier>, maxDistance: nat, style: Style)

  // ---- Grouping ----

  function Distance(a: int, b: int): nat {
    if a <= b then b - a else a - b
  }

  /** Two bubbles that may be merged directly. */
  predicate Near(a: Bubble, b: Bubble, c: MergeConfig) {
    && a.segment == b.segment && a.direction == b.direction
    && a.tier in c.enabled && b.tier in c.enabled
    && Distance(a.bucket, b.bucket) <= c.maxDistance
  }

  /** Bubble `k` joins the group of the one before it. */
  predicate Joined(bs: seq<Bubble>, k: nat, c: MergeConfig)
    requires 0 < k < |bs|
  {
    Near(bs[k - 1], bs[k], c)
  }

  /** Where the group that starts at `i` ends. */
  function GroupEnd(bs: seq<Bubble>, i: nat, c: MergeConfig): (e: nat)
    requires i < |bs|
    ensures i < e <= |bs|
    decreases |bs| - i
  {
    if i + 1 < |bs| && Joined(bs, i + 1, c) then GroupEnd(bs, i + 1, c) else i + 1
  }

  /** The groups from position `i` on, as half-open spans. */
  function Spans(bs: seq<Bubble>, i: nat, c: MergeConfig): seq<(nat, nat)>
    requires i <= |bs|
    decreases |bs| - i
  {
    if i == |bs| then [] else [(i, GroupEnd(bs, i, c))] + Spans(bs, GroupEnd(bs, i, c), c)
  }

  /** Every bubble between `i` and `j` joins the one before it. */
  predicate Run(bs: seq<Bubble>, i: nat, j: nat, c: MergeConfig)
    requires i <= j < |bs|
  {
    forall k :: i < k <= j ==> Joined(bs, k, c)
  }

  lemma {:induction false} GroupEndIsMaximal(bs: seq<Bubble>, i: nat, c: MergeConfig)
    requires i < |bs|
    ensures var e := GroupEnd(bs, i, c);
            Run(bs, i, e - 1, c) && (e < |bs| ==> !Joined(bs, e, c))
    decreases |bs| - i
  {
    if i + 1 < |bs| && Joined(bs, i + 1, c) { GroupEndIsMaximal(bs, i + 1, c); }
  }

  predicate InSpan(s: (nat, nat), i: nat) {
    s.0 <= i < s.1
  }

  predicate SameGroup(spans: seq<(nat, nat)>, i: nat, j: nat) {
    exists s :: s in spans && InSpan(s, i) && InSpan(s, j)
  }

  /** The groups are the maximal runs: two bubbles are in one group exactly when everything
      between them joins. */
  lemma {:induction false} GroupsAreMaximalRuns(bs: seq<Bubble>, from: nat, c: MergeConfig, i: nat, j: nat)
    requires from <= i <= j < |bs|
    ensures SameGroup(Spans(bs, from, c), i, j) <==> Run(bs, i, j, c)
    decreases |bs| - from
  {
    var e, spans := GroupEnd(bs, from, c), Spans(bs, from, c);
    GroupEndIsMaximal(bs, from, c);
    if j < e {
      assert InSpan(spans[0], i) && InSpan(spans[0], j);
    } else if i < e {
      assert e < |bs| && !Joined(bs, e, c);
      LaterSpans(bs, e, c);
    } else {
      GroupsAreMaximalRuns(bs, e, c, i, j);
      assert spans[1..] == Spans(bs, e, c);
      assert forall s :: s in spans <==> s == spans[0] || s in spans[1..];
    }
  }

  lemma {:induction false} LaterSpans(bs: seq<Bubble>, i: nat, c: MergeConfig)
    requires i <= |bs|
    ensures forall s :: s in Spans(bs, i, c) ==> i <= s.0 < s.1 <= |bs|
    decreases |bs| - i
  {
    if i < |bs| { LaterSpans(bs, GroupEnd(bs, i, c), c); }
  }

  // ---- Single linkage ----

  /** A chain of bubbles of the list, each near the next. */
  predicate Chain(bs: seq<Bubble>, path: seq<nat>, c: MergeConfig) {
    && path != []
    && (forall k :: 0 <= k < |path| ==> path[k] < |bs|)
    && (forall k :: 0 < k < |path| ==> Near(bs[path[k - 1]], bs[path[k]], c))
  }

  /** No bubble of a disabled tier lies between two near ones. */
  predicate Unbroken(bs: seq<Bubble>, c: MergeConfig) {
    forall i, k, j :: 0 <= i < k < j < |bs| && Near(bs[i], bs[j], c) ==> bs[k].tier in c.enabled
  }

  /** In the ordered list everything between two near bubbles joins: nothing else can come between. */
  lemma NearIsRun(bs: seq<Bubble>, i: nat, j: nat, c: MergeConfig)
    requires Ordered(bs, Place) && Unbroken(bs, c) && i <= j < |bs| && Near(bs[i], bs[j], c)
    ensures Run(bs, i, j, c)
  {
    forall k | i < k <= j ensures Joined(bs, k, c) {
      assert Before(bs[i], bs[k - 1], Place) && Before(bs[k - 1], bs[k], Place) && Before(bs[k], bs[j], Place);
    }
  }

  /** Everything between two bubbles joins, whichever comes first. */
  predicate Between(bs: seq<Bubble>, i: nat, j: nat, c: MergeConfig)
    requires i < |bs| && j < |bs|
  {
    if i <= j then Run(bs, i, j, c) else Run(bs, j, i, c)
  }

  lemma RunsCompose(bs: seq<Bubble>, i: nat, m: nat, j: nat, c: MergeConfig)
    requires i < |bs| && m < |bs| && j < |bs| && Between(bs, i, m, c) && Between(bs, m, j, c)
    ensures Between(bs, i, j, c)
  {
  }

  lemma NearIsBetween(bs: seq<Bubble>, i: nat, j: nat, c: MergeConfig)
    requires Ordered(bs, Place) && Unbroken(bs, c) && i < |bs| && j < |bs| && Near(bs[i], bs[j], c)
    ensures Between(bs, i, j, c)
  {
    if i <= j { NearIsRun(bs, i, j, c); } else { NearIsRun(bs, j, i, c); }
  }

  lemma {:induction false} ChainIsRun(bs: seq<Bubble>, path: seq<nat>, c: MergeConfig)
    requires Ordered(bs, Place) && Unbroken(bs, c) && Chain(bs, path, c)
    ensures Between(bs, path[0], path[|path| - 1], c)
    decreases |path|
  {
    var n := |path| - 1;
    if n > 0 {
      var init := path[..n];
      assert init[0] == path[0] && init[|init| - 1] == path[n - 1];
      ChainIsRun(bs, init, c);
      NearIsBetween(bs, path[n - 1], path[n], c);
      RunsCompose(bs, path[0], path[n - 1], path[n], c);
    }
  }

  function Steps(i: nat, j: nat): seq<nat>
    requires i <= j
  {
    seq(j + 1 - i, k requires 0 <= k < j + 1 - i => i + k)
  }

  lemma RunIsChain(bs: seq<Bubble>, i: nat, j: nat, c: MergeConfig)
    requires i <= j < |bs| && Run(bs, i, j, c)
    ensures Chain(bs, Steps(i, j), c)
    ensures Steps(i, j)[0] == i && Steps(i, j)[|Steps(i, j)| - 1] == j
  {
    var path := Steps(i, j);
    forall k | 0 < k < |path| ensures Near(bs[path[k - 1]], bs[path[k]], c) {
      assert Joined(bs, i + k, c);
    }
  }

  /** A chain of bubbles of one segment and direction connects them, each within the distance of the
      next. */
  ghost predicate Linked(bs: seq<Bubble>, c: MergeConfig, i: nat, j: nat) {
    exists path :: Chain(bs, path, c) && path[0] == i && path[|path| - 1] == j
  }

  lemma LinkedIfTogether(bs: seq<Bubble>, c: MergeConfig, i: nat, j: nat)
    requires i <= j < |bs| && SameGroup(Spans(bs, 0, c), i, j)
    ensures Linked(bs, c, i, j)
  {
    GroupsAreMaximalRuns(bs, 0, c, i, j);
    RunIsChain(bs, i, j, c);
  }

  /** When nothing disabled comes between near bubbles, merging is single-linkage clustering: two
      bubbles of the ordered list share an output bubble exactly when a chain connects them. */
  lemma SingleLinkage(bs: seq<Bubble>, c: MergeConfig, i: nat, j: nat)
    requires Ordered(bs, Place) && Unbroken(bs, c) && i <= j < |bs|
    ensures SameGroup(Spans(bs, 0, c), i, j) <==> Linked(bs, c, i, j)
  {
    GroupsAreMaximalRuns(bs, 0, c, i, j);
    if Run(bs, i, j, c) { LinkedIfTogether(bs, c, i, j); }
    if Linked(bs, c, i, j) {
      var path :| Chain(bs, path, c) && path[0] == i && path[|path| - 1] == j;
      ChainIsRun(bs, path, c);
    }
  }

  /** Groups and chains agree on every two bubbles. */
  ghost predicate ClustersByLinkage(bs: seq<Bubble>, c: MergeConfig) {
    forall i: nat, j: nat :: i <= j < |bs| ==> (SameGroup(Spans(bs, 0, c), i, j) <==> Linked(bs, c, i, j))
  }

  /** Exactly when merging is single-linkage clustering. */
  lemma SingleLinkageExactly(bs: seq<Bubble>, c: MergeConfig)
    requires Ordered(bs, Place)
    ensures ClustersByLinkage(bs, c) <==> Unbroken(bs, c)
  {
    if Unbroken(bs, c) {
      forall i: nat, j: nat | i <= j < |bs| ensures SameGroup(Spans(bs, 0, c), i, j) <==> Linked(bs, c, i, j) {
        SingleLinkage(bs, c, i, j);
      }
    }
    if ClustersByLinkage(bs, c) {
      forall i, k, j | 0 <= i < k < j < |bs| && Near(bs[i], bs[j], c) ensures bs[k].tier in c.enabled {
        assert Chain(bs, [i, j], c);
        GroupsAreMaximalRuns(bs, 0, c, i, j);
        assert Joined(bs, k, c);
      }
    }
  }

  /** It always is while every tier is enabled. */
  lemma AllEnabledIsUnbroken(bs: seq<Bubble>, c: MergeConfig)
    requires Ordered(bs, Place) && c.enabled == {F1, F2, F3}
    ensures Unbroken(bs, c) && ClustersByLinkage(bs, c)
  {
    forall i, k, j | 0 <= i < k < j < |bs| && Near(bs[i], bs[j], c) ensures bs[k].tier in c.enabled {
      match bs[k].tier case F1 => case F2 => case F3 =>
    }
    SingleLinkageExactly(bs, c);
  }

  /** With a tier disabled it need not be: three bubbles in neighbouring buckets, the middle one of a
      disabled tier, stay apart although the outer two are near. */
  lemma DisabledBubbleSeparates(c: MergeConfig, a: Bubble, d: Bubble, b: Bubble)
    requires a.tier == F3 && d.tier == F2 && b.tier == F1 && c.enabled == {F1, F3} && c.maxDistance == 2
    requires a.segment == b.segment == d.segment && a.direction == b.direction == d.direction
    requires d.bucket == a.bucket + 1 && b.bucket == a.bucket + 2
    ensures Ordered([a, d, b], Place) && !Unbroken([a, d, b], c)
    ensures Linked([a, d, b], c, 0, 2) && !SameGroup(Spans([a, d, b], 0, c), 0, 2)
  {
    var bs := [a, d, b];
    assert Near(bs[0], bs[2], c);
    assert Chain(bs, [0, 2], c);
    GroupsAreMaximalRuns(bs, 0, c, 0, 2);
    assert !Joined(bs, 1, c);
  }
}
