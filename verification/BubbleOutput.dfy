/** From the bubbles found in a candle to the output: the best of each tier, merged and sorted. */
module BubbleOutput {
  import opened Common
  import opened BubbleOrder
  import opened BubbleGroups
  import opened BubbleMerge
  import opened BubbleAggregate
  import opened BubbleDetect

  // ---- The best of each tier ----

  function OfTier(bs: seq<Bubble>, t: Tier): seq<Bubble> {
    if bs == [] then []
    else OfTier(bs[..|bs| - 1], t) + if bs[|bs| - 1].tier == t then [bs[|bs| - 1]] else []
  }

  function FirstOf(bs: seq<Bubble>, max: nat): seq<Bubble> {
    if |bs| <= max then bs else bs[..max]
  }

  function Rest(bs: seq<Bubble>, max: nat): seq<Bubble> {
    if |bs| <= max then [] else bs[max..]
  }

  function TopOf(bs: seq<Bubble>, t: Tier, max: nat): seq<Bubble> {
    FirstOf(Sort(OfTier(bs, t), Strength), max)
  }

  function Kept(c: Config, bs: seq<Bubble>): seq<Bubble> {
    TopOf(bs, F3, c.f3.maxBubbles) + TopOf(bs, F2, c.f2.maxBubbles) + TopOf(bs, F1, c.f1.maxBubbles)
  }

  lemma {:induction false} OfTierMembers(bs: seq<Bubble>, t: Tier)
    ensures forall b :: b in OfTier(bs, t) <==> b in bs && b.tier == t
  {
    if bs != [] {
      OfTierMembers(bs[..|bs| - 1], t);
      assert bs == bs[..|bs| - 1] + [bs[|bs| - 1]];
    }
  }

  lemma CutRanks(rows: seq<Bubble>, max: nat, o: Order)
    requires Ordered(rows, o)
    ensures FirstOf(rows, max) + Rest(rows, max) == rows
    ensures forall i, j :: 0 <= i < |FirstOf(rows, max)| && 0 <= j < |Rest(rows, max)| ==>
        Before(FirstOf(rows, max)[i], Rest(rows, max)[j], o)
  {
  }

  lemma CutSum(rows: seq<Bubble>, max: nat, f: Field)
    requires forall b :: b in rows ==> 0 <= Value(b, f)
    ensures SumOf(FirstOf(rows, max), f) <= SumOf(rows, f)
    ensures |rows| <= max ==> SumOf(FirstOf(rows, max), f) == SumOf(rows, f)
  {
    if |rows| > max {
      assert rows == rows[..max] + rows[max..];
      SumOfConcat(rows[..max], rows[max..], f);
      SumAtLeastZero(rows[max..], f);
    }
  }

  /** A tier keeps as many as it may; whatever it drops ranks behind everything it keeps. */
  lemma KeptAreBest(bs: seq<Bubble>, t: Tier, max: nat)
    ensures var kept, dropped := TopOf(bs, t, max), Rest(Sort(OfTier(bs, t), Strength), max);
            && |kept| == (if |OfTier(bs, t)| <= max then |OfTier(bs, t)| else max)
            && multiset(kept) + multiset(dropped) == multiset(OfTier(bs, t))
            && (forall i, j :: 0 <= i < |kept| && 0 <= j < |dropped| ==> Before(kept[i], dropped[j], Strength))
  {
    SortSorts(OfTier(bs, t), Strength);
    CutRanks(Sort(OfTier(bs, t), Strength), max, Strength);
  }

  lemma TopMembers(bs: seq<Bubble>, t: Tier, max: nat)
    ensures forall b :: b in TopOf(bs, t, max) ==> b in bs && b.tier == t
  {
    SortSorts(OfTier(bs, t), Strength);
    OfTierMembers(bs, t);
    forall b | b in TopOf(bs, t, max) ensures b in bs && b.tier == t {
      assert b in Sort(OfTier(bs, t), Strength);
    }
  }

  // ---- Sums ----

  lemma {:induction false} TiersPartition(bs: seq<Bubble>, f: Field)
    ensures SumOf(OfTier(bs, F3), f) + SumOf(OfTier(bs, F2), f) + SumOf(OfTier(bs, F1), f) == SumOf(bs, f)
  {
    if bs != [] {
      var init, last := bs[..|bs| - 1], bs[|bs| - 1];
      TiersPartition(init, f);
      TierSum(init, last, F1, f);
      TierSum(init, last, F2, f);
      TierSum(init, last, F3, f);
      assert bs == init + [last];
    }
  }

  lemma TierSum(init: seq<Bubble>, last: Bubble, t: Tier, f: Field)
    ensures SumOf(OfTier(init + [last], t), f)
         == SumOf(OfTier(init, t), f) + if last.tier == t then Value(last, f) else 0
  {
    assert (init + [last])[..|init|] == init;
    if last.tier == t {
      SumOfConcat(OfTier(init, t), [last], f);
      SumOfOne(last, f);
    } else {
      assert OfTier(init, t) + [] == OfTier(init, t);
    }
  }

  lemma {:induction false} SumAtLeastZero(bs: seq<Bubble>, f: Field)
    requires forall b :: b in bs ==> 0 <= Value(b, f)
    ensures 0 <= SumOf(bs, f)
  {
    if bs != [] {
      assert bs[|bs| - 1] in bs;
      SumAtLeastZero(bs[..|bs| - 1], f);
    }
  }

  /** Keeping the best of a tier loses no more than what is dropped, and nothing when all fit. */
  lemma TopSum(bs: seq<Bubble>, t: Tier, max: nat, f: Field)
    requires forall b :: b in bs ==> 0 <= Value(b, f)
    ensures SumOf(TopOf(bs, t, max), f) <= SumOf(OfTier(bs, t), f)
    ensures |OfTier(bs, t)| <= max ==> SumOf(TopOf(bs, t, max), f) == SumOf(OfTier(bs, t), f)
  {
    SortSums(OfTier(bs, t), Strength, f);
    SortSorts(OfTier(bs, t), Strength);
    OfTierMembers(bs, t);
    CutSum(Sort(OfTier(bs, t), Strength), max, f);
  }

  predicate NothingDropped(c: Config, bs: seq<Bubble>) {
    forall t :: |OfTier(bs, t)| <= c.For(t).maxBubbles
  }

  lemma KeptSum(c: Config, bs: seq<Bubble>, f: Field)
    requires forall b :: b in bs ==> 0 <= Value(b, f)
    ensures SumOf(Kept(c, bs), f) <= SumOf(bs, f)
    ensures NothingDropped(c, bs) ==> SumOf(Kept(c, bs), f) == SumOf(bs, f)
  {
    var a, b, d := TopOf(bs, F3, c.f3.maxBubbles), TopOf(bs, F2, c.f2.maxBubbles), TopOf(bs, F1, c.f1.maxBubbles);
    SumOfConcat(a + b, d, f);
    SumOfConcat(a, b, f);
    TopSum(bs, F3, c.f3.maxBubbles, f);
    TopSum(bs, F2, c.f2.maxBubbles, f);
    TopSum(bs, F1, c.f1.maxBubbles, f);
    TiersPartition(bs, f);
    assert c.For(F3) == c.f3 && c.For(F2) == c.f2 && c.For(F1) == c.f1;
  }

  lemma KeptMembers(c: Config, bs: seq<Bubble>)
    ensures forall b :: b in Kept(c, bs) ==> b in bs
  {
    TopMembers(bs, F3, c.f3.maxBubbles);
    TopMembers(bs, F2, c.f2.maxBubbles);
    TopMembers(bs, F1, c.f1.maxBubbles);
  }

  // ---- The output ----

  function Emitted(c: Config, phase: Phase, kept: seq<Bubble>, hash: seq<Bubble> -> int): Result<seq<Bubble>, ()>
    requires c.merge.style.Valid()
  {
    var merged := if c.Merges(phase) then MergeFrom(Sort(kept, Place), 0, c.merge, hash) else Ok(kept);
    if merged.Err? then Err(()) else Ok(Sort(merged.value, Output))
  }

  function Detect(c: Context, rs: seq<Reading>, phase: Phase, ids: (Key, Tier) -> int,
          hash: seq<Bubble> -> int): Result<seq<Bubble>, ()>
    requires c.Valid()
  {
    var ks := Candidates(rs);
    if ks.Err? then Err(())
    else
      var found := Found(c, rs, ks.value, c.config.Active(phase), ids);
      if found.Err? then Err(()) else Emitted(c.config, phase, Kept(c.config, found.value), hash)
  }

  /** Whether neighbours are merged now or later, the output adds up to the bubbles kept. */
  lemma EmittedSums(c: Config, phase: Phase, kept: seq<Bubble>, hash: seq<Bubble> -> int, f: Field)
    requires c.merge.style.Valid() && Emitted(c, phase, kept, hash).Ok? && forall b :: b in kept ==> b.merged == 1
    ensures SumOf(Emitted(c, phase, kept, hash).value, f) == SumOf(kept, f)
    ensures Ordered(Emitted(c, phase, kept, hash).value, Output)
  {
    var merged := if c.Merges(phase) then MergeFrom(Sort(kept, Place), 0, c.merge, hash) else Ok(kept);
    SortSums(merged.value, Output, f);
    SortSorts(merged.value, Output);
    if c.Merges(phase) {
      MergeConserves(kept, c.merge, hash, f);
    }
  }

  /** The bubbles of a candle's output, of all tiers and however merged, never report more volume
      of any side than the candle traded. */
  lemma NeverMoreThanTraded(c: Context, rs: seq<Reading>, phase: Phase, ids: (Key, Tier) -> int,
          hash: seq<Bubble> -> int, f: Field)
    requires c.Valid() && Detect(c, rs, phase, ids, hash).Ok? && IsVolume(f)
    ensures SumOf(Detect(c, rs, phase, ids, hash).value, f) <= Traded(rs, Everywhere, f)
  {
    var ks, tiers := Candidates(rs).value, c.config.Active(phase);
    var found := Found(c, rs, ks, tiers, ids).value;
    CandidatesAreBuckets(rs);
    FoundExactly(c, rs, ks, tiers, ids);
    FoundBound(c, rs, ks, tiers, ids, f);
    NarrowerIsLess(rs, AtKeys(KeySet(ks)), Everywhere, f);
    forall b | b in found ensures 0 <= Value(b, f) { BubbleBound(c, rs, b, f); }
    KeptSum(c.config, found, f);
    KeptMembers(c.config, found);
    EmittedSums(c.config, phase, Kept(c.config, found), hash, f);
  }

  /** When no tier overflows, the output adds up exactly to the accepted candidates, and counts
      them: in volumes, in strength and in number. */
  lemma OutputAddsUp(c: Context, rs: seq<Reading>, phase: Phase, ids: (Key, Tier) -> int, hash: seq<Bubble> -> int,
          f: Field)
    requires c.Valid() && Detect(c, rs, phase, ids, hash).Ok?
    requires NothingDropped(c.config, Found(c, rs, Candidates(rs).value, c.config.Active(phase), ids).value)
    ensures SumOf(Detect(c, rs, phase, ids, hash).value, f)
         == SumOf(Found(c, rs, Candidates(rs).value, c.config.Active(phase), ids).value, f)
  {
    var ks, tiers := Candidates(rs).value, c.config.Active(phase);
    CandidatesAreBuckets(rs);
    FoundExactly(c, rs, ks, tiers, ids);
    FoundAddsUp(c, rs, phase, Found(c, rs, ks, tiers, ids).value, hash, f);
  }

  lemma FoundAddsUp(c: Context, rs: seq<Reading>, phase: Phase, found: seq<Bubble>, hash: seq<Bubble> -> int, f: Field)
    requires c.Valid() && Emitted(c.config, phase, Kept(c.config, found), hash).Ok?
    requires NothingDropped(c.config, found) && forall b :: b in found ==> Detected(c, rs, b)
    ensures SumOf(Emitted(c.config, phase, Kept(c.config, found), hash).value, f) == SumOf(found, f)
  {
    forall b | b in found ensures 0 <= Value(b, f) { assert Detected(c, rs, b); }
    KeptSum(c.config, found, f);
    KeptMembers(c.config, found);
    EmittedSums(c.config, phase, Kept(c.config, found), hash, f);
  }

  lemma DetectedIsSound(c: Context, rs: seq<Reading>, b: Bubble, mode: Mode)
    requires c.Valid() && Detected(c, rs, b) && (forall r :: r in rs ==> Balances(r))
    requires c.config.For(b.tier).mode == mode
    ensures Sound(b, mode)
  {
    AggregateBalances(rs, Key(b.segment, b.bucket), c.config.For(b.tier).sources);
  }

  /** With one mode in all tiers, every bubble of the output is well formed: its sides add up, its
      direction is the sign of its delta, and its strength is its total or the size of its delta. */
  lemma OutputIsSound(c: Context, rs: seq<Reading>, phase: Phase, ids: (Key, Tier) -> int, hash: seq<Bubble> -> int,
          mode: Mode)
    requires c.Valid() && Detect(c, rs, phase, ids, hash).Ok? && (forall r :: r in rs ==> Balances(r))
    requires forall t :: c.config.For(t).mode == mode
    ensures forall b :: b in Detect(c, rs, phase, ids, hash).value ==> Sound(b, mode)
  {
    var ks, tiers := Candidates(rs).value, c.config.Active(phase);
    var found := Found(c, rs, ks, tiers, ids).value;
    CandidatesAreBuckets(rs);
    FoundExactly(c, rs, ks, tiers, ids);
    KeptMembers(c.config, found);
    forall b | b in found ensures Sound(b, mode) {
      assert Detected(c, rs, b);
      DetectedIsSound(c, rs, b, mode);
    }
    EmittedIsSound(c.config, phase, Kept(c.config, found), hash, mode);
  }

  lemma EmittedIsSound(c: Config, phase: Phase, kept: seq<Bubble>, hash: seq<Bubble> -> int, mode: Mode)
    requires c.merge.style.Valid() && Emitted(c, phase, kept, hash).Ok? && forall b :: b in kept ==> Sound(b, mode)
    ensures forall b :: b in Emitted(c, phase, kept, hash).value ==> Sound(b, mode)
  {
    var merged := if c.Merges(phase) then MergeFrom(Sort(kept, Place), 0, c.merge, hash) else Ok(kept);
    SortSorts(kept, Place);
    if c.Merges(phase) {
      MergingKeepsMeaning(Sort(kept, Place), 0, c.merge, hash, mode);
    }
    SortSorts(merged.value, Output);
  }
}
