/** What the output bubbles of a candle are clusters of. */
module BubbleClusters {
  import opened Common
  import opened BubbleOrder
  import opened BubbleGroups
  import opened BubbleMerge
  import opened BubbleAggregate
  import opened BubbleDetect
  import opened BubbleOutput

  /** The span is one class of linked bubbles: its bubbles are linked with each other and with no other. */
  ghost predicate IsCluster(bs: seq<Bubble>, c: MergeConfig, s: (nat, nat)) {
    && s.0 < s.1 <= |bs|
    && forall i: nat, j: nat :: i <= j < |bs| && (InSpan(s, i) || InSpan(s, j)) ==>
         (InSpan(s, i) && InSpan(s, j) <==> Linked(bs, c, i, j))
  }

  ghost predicate Clustered(bs: seq<Bubble>, c: MergeConfig) {
    forall n :: 0 <= n < |Spans(bs, 0, c)| ==> IsCluster(bs, c, Spans(bs, 0, c)[n])
  }

  lemma {:induction false} SpansAreDisjoint(bs: seq<Bubble>, from: nat, c: MergeConfig,
          s: (nat, nat), t: (nat, nat), i: nat)
    requires from <= |bs| && s in Spans(bs, from, c) && t in Spans(bs, from, c) && InSpan(s, i) && InSpan(t, i)
    ensures s == t
    decreases |bs| - from
  {
    var e, spans := GroupEnd(bs, from, c), Spans(bs, from, c);
    LaterSpans(bs, e, c);
    assert spans[1..] == Spans(bs, e, c);
    assert forall x :: x in spans <==> x == spans[0] || x in spans[1..];
    if i >= e { SpansAreDisjoint(bs, e, c, s, t, i); }
  }

  lemma SpanOf(bs: seq<Bubble>, c: MergeConfig, i: nat) returns (s: (nat, nat))
    requires i < |bs|
    ensures s in Spans(bs, 0, c) && InSpan(s, i)
  {
    GroupsAreMaximalRuns(bs, 0, c, i, i);
    s :| s in Spans(bs, 0, c) && InSpan(s, i) && InSpan(s, i);
  }

  /** Sharing a group is being in the same span. */
  lemma SameSpan(bs: seq<Bubble>, c: MergeConfig, s: (nat, nat), i: nat, j: nat)
    requires s in Spans(bs, 0, c) && (InSpan(s, i) || InSpan(s, j))
    ensures SameGroup(Spans(bs, 0, c), i, j) <==> InSpan(s, i) && InSpan(s, j)
  {
    if SameGroup(Spans(bs, 0, c), i, j) {
      var t :| t in Spans(bs, 0, c) && InSpan(t, i) && InSpan(t, j);
      SpansAreDisjoint(bs, 0, c, s, t, if InSpan(s, i) then i else j);
    }
  }

  lemma SpanIsCluster(bs: seq<Bubble>, c: MergeConfig, s: (nat, nat))
    requires ClustersByLinkage(bs, c) && s in Spans(bs, 0, c)
    ensures IsCluster(bs, c, s)
  {
    LaterSpans(bs, 0, c);
    forall i: nat, j: nat | i <= j < |bs| && (InSpan(s, i) || InSpan(s, j))
      ensures InSpan(s, i) && InSpan(s, j) <==> Linked(bs, c, i, j)
    {
      SameSpan(bs, c, s, i, j);
    }
  }

  lemma ClusterLinks(bs: seq<Bubble>, c: MergeConfig, i: nat, j: nat)
    requires Clustered(bs, c) && i <= j < |bs|
    ensures SameGroup(Spans(bs, 0, c), i, j) <==> Linked(bs, c, i, j)
  {
    var s := SpanOf(bs, c, i);
    var n :| 0 <= n < |Spans(bs, 0, c)| && Spans(bs, 0, c)[n] == s;
    SameSpan(bs, c, s, i, j);
  }

  /** The groups of an ordered list are the classes of linked bubbles if and only if no bubble of a
      disabled tier stands between two near ones. */
  lemma ClusteredExactly(bs: seq<Bubble>, c: MergeConfig)
    requires Ordered(bs, Place)
    ensures Clustered(bs, c) <==> Unbroken(bs, c)
  {
    SingleLinkageExactly(bs, c);
    if Unbroken(bs, c) {
      forall n | 0 <= n < |Spans(bs, 0, c)| ensures IsCluster(bs, c, Spans(bs, 0, c)[n]) {
        SpanIsCluster(bs, c, Spans(bs, 0, c)[n]);
      }
    }
    if Clustered(bs, c) {
      forall i: nat, j: nat | i <= j < |bs| ensures SameGroup(Spans(bs, 0, c), i, j) <==> Linked(bs, c, i, j) {
        ClusterLinks(bs, c, i, j);
      }
    }
  }

  // ---- The output of a candle ----

  /** The bubbles that a candle's tiers keep, in the order in which they are merged. */
  function ToMerge(c: Context, rs: seq<Reading>, phase: Phase, ids: (Key, Tier) -> int): seq<Bubble>
    requires c.Valid() && Candidates(rs).Ok? && Found(c, rs, Candidates(rs).value, c.config.Active(phase), ids).Ok?
  {
    Sort(Kept(c.config, Found(c, rs, Candidates(rs).value, c.config.Active(phase), ids).value), Place)
  }

  /** The output is one bubble for each span, and that is the span merged. */
  predicate MergesSpans(out: seq<Bubble>, bs: seq<Bubble>, c: MergeConfig, hash: seq<Bubble> -> int)
    requires c.style.Valid()
  {
    var merged, spans := MergeFrom(bs, 0, c, hash), Spans(bs, 0, c);
    && merged.Ok? && multiset(out) == multiset(merged.value) && |merged.value| == |spans|
    && forall n :: 0 <= n < |spans| ==>
         var s := spans[n]; s.0 < s.1 <= |bs| && MergeSpan(bs[s.0..s.1], c.style, hash) == Ok(merged.value[n])
  }

  lemma EmittedMerges(c: Config, phase: Phase, kept: seq<Bubble>, hash: seq<Bubble> -> int)
    requires c.Valid() && c.Merges(phase) && Emitted(c, phase, kept, hash).Ok?
    ensures MergesSpans(Emitted(c, phase, kept, hash).value, Sort(kept, Place), c.merge, hash)
  {
    var bs := Sort(kept, Place);
    var merged := MergeFrom(bs, 0, c.merge, hash);
    OneBubblePerGroup(bs, 0, c.merge, hash);
    SortSorts(merged.value, Output);
  }

  /** Each output bubble of a candle is a group of the kept bubbles merged, and the groups are exactly the
      single-linkage clusters of the kept bubbles if and only if no kept bubble of a disabled tier stands
      between two near ones. */
  lemma OutputIsClusters(c: Context, rs: seq<Reading>, phase: Phase, ids: (Key, Tier) -> int, hash: seq<Bubble> -> int)
    requires c.Valid() && c.config.Merges(phase) && Detect(c, rs, phase, ids, hash).Ok?
    ensures MergesSpans(Detect(c, rs, phase, ids, hash).value, ToMerge(c, rs, phase, ids), c.config.merge, hash)
    ensures Clustered(ToMerge(c, rs, phase, ids), c.config.merge)
       <==> Unbroken(ToMerge(c, rs, phase, ids), c.config.merge)
  {
    var kept := Kept(c.config, Found(c, rs, Candidates(rs).value, c.config.Active(phase), ids).value);
    EmittedMerges(c.config, phase, kept, hash);
    SortSorts(kept, Place);
    ClusteredExactly(Sort(kept, Place), c.config.merge);
  }
}
