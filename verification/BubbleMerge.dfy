/** Merging of order-flow bubbles: each group of the ordered list becomes one bubble. */
module BubbleMerge {
  import opened Common
  import opened BubbleOrder
  import Sorting
  import opened BubbleStyle
  import opened BubbleGroups

  // ---- Merging a group ----

  datatype Field = BuyVolume | SellVolume | UnknownVolume | TotalVolume | TotalStrength | Merged

  function Value(b: Bubble, f: Field): int {
    match f
    case BuyVolume => b.buy
    case SellVolume => b.sell
    case UnknownVolume => b.unknown
    case TotalVolume => b.total
    case TotalStrength => b.strength
    case Merged => b.merged
  }

  function SumOf(bs: seq<Bubble>, f: Field): int {
    if bs == [] then 0 else SumOf(bs[..|bs| - 1], f) + Value(bs[|bs| - 1], f)
  }

  lemma {:induction false} SumOfConcat(a: seq<Bubble>, b: seq<Bubble>, f: Field)
    ensures SumOf(a + b, f) == SumOf(a, f) + SumOf(b, f)
  {
    if b == [] {
      assert a + b == a;
    } else {
      assert (a + b)[..|a + b| - 1] == a + b[..|b| - 1];
      SumOfConcat(a, b[..|b| - 1], f);
    }
  }

  /** The strongest of the group; among equals the lowest price, and the last of those. */
  function Anchor(group: seq<Bubble>): Bubble
    requires group != []
  {
    var last := group[|group| - 1];
    if |group| == 1 then last
    else
      var best := Anchor(group[..|group| - 1]);
      if last.strength > best.strength || (last.strength == best.strength && last.bucket <= best.bucket)
      then last
      else best
  }

  function MinLow(group: seq<Bubble>): int
    requires group != []
  {
    var last := group[|group| - 1];
    if |group| == 1 then last.low else var m := MinLow(group[..|group| - 1]); if last.low < m then last.low else m
  }

  function MaxHigh(group: seq<Bubble>): int
    requires group != []
  {
    var last := group[|group| - 1];
    if |group| == 1 then last.high else var m := MaxHigh(group[..|group| - 1]); if last.high > m then last.high else m
  }

  function TopTier(group: seq<Bubble>): Tier {
    if group == [] then F1
    else
      var t, last := TopTier(group[..|group| - 1]), group[|group| - 1].tier;
      if Priority(last) > Priority(t) then last else t
  }

  function MaxThreshold(group: seq<Bubble>): int
    requires group != []
  {
    var last := group[|group| - 1];
    if |group| == 1 then last.threshold
    else var m := MaxThreshold(group[..|group| - 1]); if last.threshold >= m then last.threshold else m
  }

  function AllSources(group: seq<Bubble>): set<int> {
    if group == [] then {} else AllSources(group[..|group| - 1]) + group[|group| - 1].sources
  }

  function DirectionOf(delta: int): Direction {
    if delta < 0 then Sell else if delta == 0 then Neutral else Buy
  }

  /** The group as one bubble. Its id is a hash of the ids of the group, left to the caller. */
  function MergeGroup(group: seq<Bubble>, id: int, size: nat): Bubble
    requires group != []
  {
    var anchor := Anchor(group);
    var buy, sell := SumOf(group, BuyVolume), SumOf(group, SellVolume);
    Bubble(id, anchor.segment, DirectionOf(buy - sell), anchor.bucket, MinLow(group), MaxHigh(group),
           TopTier(group), anchor.mode, AllSources(group),
           buy, sell, SumOf(group, UnknownVolume), SumOf(group, TotalVolume), SumOf(group, TotalStrength),
           MaxThreshold(group), size, |group|)
  }

  /** The running sums of the checked arithmetic stay in range. */
  predicate SumsFit(group: seq<Bubble>) {
    group != [] ==>
      var last := group[|group| - 1];
      && SumsFit(group[..|group| - 1])
      && 0 <= last.buy && 0 <= last.sell && 0 <= last.unknown && 0 < last.total
      && SumOf(group, BuyVolume) <= I128_MAX && SumOf(group, SellVolume) <= I128_MAX
      && SumOf(group, UnknownVolume) <= I128_MAX && SumOf(group, TotalVolume) <= I128_MAX
      && I128_MIN <= SumOf(group, TotalStrength) <= I128_MAX
  }

  /** What merging demands of a group; any failure is an error. */
  predicate GroupFits(group: seq<Bubble>, style: Style)
    requires group != [] && style.Valid()
  {
    && SumsFit(group) && 0 <= SumOf(group, TotalStrength) && |group| <= 65_535
    && Size(style, Anchor(group).mode, SumOf(group, TotalStrength)).Some?
  }

  function MergeFitting(group: seq<Bubble>, style: Style, hash: seq<Bubble> -> int): Result<Bubble, ()>
    requires group != [] && style.Valid()
  {
    if GroupFits(group, style)
    then Ok(MergeGroup(group, hash(group), Size(style, Anchor(group).mode, SumOf(group, TotalStrength)).value))
    else Err(())
  }

  function MergeSpan(group: seq<Bubble>, style: Style, hash: seq<Bubble> -> int): Result<Bubble, ()>
    requires group != [] && style.Valid()
  {
    if |group| == 1 then Ok(group[0]) else MergeFitting(group, style, hash)
  }

  /** One output bubble for each group from position `i` on. */
  function MergeFrom(bs: seq<Bubble>, i: nat, c: MergeConfig, hash: seq<Bubble> -> int): Result<seq<Bubble>, ()>
    requires i <= |bs| && c.style.Valid()
    decreases |bs| - i
  {
    if i == |bs| then Ok([])
    else
      var e := GroupEnd(bs, i, c);
      var first := MergeSpan(bs[i..e], c.style, hash);
      if first.Err? then Err(())
      else
        var rest := MergeFrom(bs, e, c, hash);
        if rest.Err? then Err(()) else Ok([first.value] + rest.value)
  }

  /** The output has one bubble for each group, in order, and it is that group merged. */
  lemma {:induction false} OneBubblePerGroup(bs: seq<Bubble>, i: nat, c: MergeConfig, hash: seq<Bubble> -> int)
    requires i <= |bs| && c.style.Valid() && MergeFrom(bs, i, c, hash).Ok?
    ensures |MergeFrom(bs, i, c, hash).value| == |Spans(bs, i, c)|
    ensures forall n :: 0 <= n < |Spans(bs, i, c)| ==>
              var s := Spans(bs, i, c)[n];
              s.0 < s.1 <= |bs| && MergeSpan(bs[s.0..s.1], c.style, hash) == Ok(MergeFrom(bs, i, c, hash).value[n])
    decreases |bs| - i
  {
    if i < |bs| {
      OneBubblePerGroup(bs, GroupEnd(bs, i, c), c, hash);
    }
  }

  /** Merging conserves every volume, the strength and the number of bubbles. */
  lemma {:induction false} MergingConserves(bs: seq<Bubble>, i: nat, c: MergeConfig, hash: seq<Bubble> -> int, f: Field)
    requires i <= |bs| && c.style.Valid() && MergeFrom(bs, i, c, hash).Ok?
    requires forall b :: b in bs ==> b.merged == 1
    ensures SumOf(MergeFrom(bs, i, c, hash).value, f) == SumOf(bs[i..], f)
    decreases |bs| - i
  {
    if i < |bs| {
      var e := GroupEnd(bs, i, c);
      var group := bs[i..e];
      MergingConserves(bs, e, c, hash, f);
      assert bs[i..] == group + bs[e..];
      SumOfConcat(group, bs[e..], f);
      var first := MergeSpan(group, c.style, hash).value;
      SumOfConcat([first], MergeFrom(bs, e, c, hash).value, f);
      assert SumOf([first], f) == Value(first, f) by { assert [first][..0] == []; }
      SpanConserves(group, c, hash, f);
    }
  }

  lemma SumOfMore(bs: seq<Bubble>, b: Bubble, f: Field)
    ensures SumOf(bs + [b], f) == SumOf(bs, f) + Value(b, f)
  {
    assert (bs + [b])[..|bs|] == bs;
  }

  lemma {:induction false} InsertSums(bs: seq<Bubble>, b: Bubble, o: Order, f: Field)
    ensures SumOf(Sorting.Insert(bs, b, By(o)), f) == SumOf(bs, f) + Value(b, f)
  {
    if bs == [] || By(o)(bs[|bs| - 1], b) {
      SumOfMore(bs, b, f);
    } else {
      var init, last := bs[..|bs| - 1], bs[|bs| - 1];
      InsertSums(init, b, o, f);
      SumOfMore(Sorting.Insert(init, b, By(o)), last, f);
    }
  }

  lemma {:induction false} SortSums(bs: seq<Bubble>, o: Order, f: Field)
    ensures SumOf(Sort(bs, o), f) == SumOf(bs, f)
  {
    if bs != [] {
      SortSums(bs[..|bs| - 1], o, f);
      InsertSums(Sort(bs[..|bs| - 1], o), bs[|bs| - 1], o, f);
    }
  }

  /** From any list of detected bubbles to the merged one: nothing is lost or counted twice. */
  lemma MergeConserves(bubbles: seq<Bubble>, c: MergeConfig, hash: seq<Bubble> -> int, f: Field)
    requires c.style.Valid() && MergeFrom(Sort(bubbles, Place), 0, c, hash).Ok?
    requires forall b :: b in bubbles ==> b.merged == 1
    ensures SumOf(MergeFrom(Sort(bubbles, Place), 0, c, hash).value, f) == SumOf(bubbles, f)
  {
    SortSorts(bubbles, Place);
    SortSums(bubbles, Place, f);
    MergingConserves(Sort(bubbles, Place), 0, c, hash, f);
    assert Sort(bubbles, Place)[0..] == Sort(bubbles, Place);
  }

  lemma SpanConserves(group: seq<Bubble>, c: MergeConfig, hash: seq<Bubble> -> int, f: Field)
    requires group != [] && c.style.Valid() && MergeSpan(group, c.style, hash).Ok?
    requires forall b :: b in group ==> b.merged == 1
    ensures Value(MergeSpan(group, c.style, hash).value, f) == SumOf(group, f)
  {
    if |group| == 1 {
      assert group[..0] == [];
    } else if f == Merged {
      CountsOne(group);
    }
  }

  lemma {:induction false} CountsOne(group: seq<Bubble>)
    requires forall b :: b in group ==> b.merged == 1
    ensures SumOf(group, Merged) == |group|
  {
    if group != [] { CountsOne(group[..|group| - 1]); }
  }

  // ---- What a merged bubble still means ----

  function Abs(x: int): int { if x < 0 then -x else x }

  /** Sides add up to the total, the direction is the sign of the delta, and the strength is the
      total or the size of the delta. */
  predicate WellFormed(b: Bubble) {
    && 0 <= b.buy && 0 <= b.sell && 0 <= b.unknown
    && b.total == b.buy + b.sell + b.unknown
    && b.direction == DirectionOf(b.buy - b.sell)
    && b.strength == (if b.mode == Volume then b.total else Abs(b.buy - b.sell))
    && b.low <= b.bucket <= b.high
  }

  predicate OfOneKind(group: seq<Bubble>, segment: int, direction: Direction) {
    forall b :: b in group ==> b.segment == segment && b.direction == direction && WellFormed(b)
  }

  lemma {:induction false} SumsAgree(group: seq<Bubble>, segment: int, direction: Direction)
    requires OfOneKind(group, segment, direction)
    ensures SumOf(group, TotalVolume)
         == SumOf(group, BuyVolume) + SumOf(group, SellVolume) + SumOf(group, UnknownVolume)
    ensures 0 <= SumOf(group, BuyVolume) && 0 <= SumOf(group, SellVolume) && 0 <= SumOf(group, UnknownVolume)
    ensures group != [] ==> DirectionOf(SumOf(group, BuyVolume) - SumOf(group, SellVolume)) == direction
  {
    if group != [] {
      var init, last := group[..|group| - 1], group[|group| - 1];
      assert last in group;
      SumsAgree(init, segment, direction);
    }
  }

  lemma {:induction false} StrengthsAgree(group: seq<Bubble>, segment: int, direction: Direction, mode: Mode)
    requires OfOneKind(group, segment, direction) && (forall b :: b in group ==> b.mode == mode)
    ensures SumOf(group, TotalStrength)
         == if mode == Volume then SumOf(group, TotalVolume)
            else Abs(SumOf(group, BuyVolume) - SumOf(group, SellVolume))
  {
    if group != [] {
      var init, last := group[..|group| - 1], group[|group| - 1];
      assert last in group;
      StrengthsAgree(init, segment, direction, mode);
      SumsAgree(init, segment, direction);
    }
  }

  lemma {:induction false} AnchorIsStrongest(group: seq<Bubble>)
    requires group != []
    ensures Anchor(group) in group
    ensures forall b :: b in group ==>
              || b.strength < Anchor(group).strength
              || (b.strength == Anchor(group).strength && Anchor(group).bucket <= b.bucket)
    ensures forall b :: b in group ==> MinLow(group) <= b.low && b.high <= MaxHigh(group)
  {
    if |group| > 1 {
      var init, last := group[..|group| - 1], group[|group| - 1];
      AnchorIsStrongest(init);
      assert forall b :: b in group ==> b in init || b == last;
    }
  }

  /** A merged group keeps its segment and direction, and its sides still add up. */
  lemma MergedMeaning(group: seq<Bubble>, id: int, size: nat, segment: int, direction: Direction)
    requires group != [] && OfOneKind(group, segment, direction)
    ensures var m := MergeGroup(group, id, size);
            && m.segment == segment && m.direction == direction
            && m.total == m.buy + m.sell + m.unknown
            && m.low <= m.bucket <= m.high
  {
    AnchorIsStrongest(group);
    SumsAgree(group, segment, direction);
  }

  /** When all its bubbles use one mode, its strength still is the total or the size of the delta. */
  lemma MergedStrength(group: seq<Bubble>, id: int, size: nat, segment: int, direction: Direction, mode: Mode)
    requires group != [] && OfOneKind(group, segment, direction) && (forall b :: b in group ==> b.mode == mode)
    ensures Sound(MergeGroup(group, id, size), mode)
  {
    AnchorIsStrongest(group);
    MergedMeaning(group, id, size, segment, direction);
    SumsAgree(group, segment, direction);
    StrengthsAgree(group, segment, direction, mode);
  }

  predicate Sound(b: Bubble, mode: Mode) {
    WellFormed(b) && b.mode == mode
  }

  lemma {:induction false} GroupIsOfOneKind(bs: seq<Bubble>, i: nat, e: nat, c: MergeConfig)
    requires i < e <= |bs| && Run(bs, i, e - 1, c)
    requires forall b :: b in bs ==> WellFormed(b)
    ensures OfOneKind(bs[i..e], bs[i].segment, bs[i].direction)
    decreases e
  {
    if i + 1 < e {
      GroupIsOfOneKind(bs, i, e - 1, c);
      assert Joined(bs, e - 1, c);
      assert bs[e - 2] in bs[i..e - 1];
      assert bs[i..e] == bs[i..e - 1] + [bs[e - 1]];
    } else {
      assert bs[i..e] == [bs[i]];
    }
  }

  lemma SpanKeepsMeaning(bs: seq<Bubble>, i: nat, c: MergeConfig, hash: seq<Bubble> -> int, mode: Mode)
    requires i < |bs| && c.style.Valid() && (forall b :: b in bs ==> Sound(b, mode))
    ensures var one := MergeSpan(bs[i..GroupEnd(bs, i, c)], c.style, hash); one.Ok? ==> Sound(one.value, mode)
  {
    var e := GroupEnd(bs, i, c);
    GroupEndIsMaximal(bs, i, c);
    GroupIsOfOneKind(bs, i, e, c);
    forall b | b in bs[i..e] ensures b.mode == mode { assert b in bs && Sound(b, mode); }
    var one := MergeSpan(bs[i..e], c.style, hash);
    if one.Ok? {
      MergedStrength(bs[i..e], hash(bs[i..e]), one.value.size, bs[i].segment, bs[i].direction, mode);
    }
  }

  /** When every bubble uses one mode, merging maps well-formed bubbles to well-formed ones. */
  lemma {:induction false} MergingKeepsMeaning(bs: seq<Bubble>, i: nat, c: MergeConfig, hash: seq<Bubble> -> int,
          mode: Mode)
    requires i <= |bs| && c.style.Valid() && MergeFrom(bs, i, c, hash).Ok?
    requires forall b :: b in bs ==> Sound(b, mode)
    ensures forall b :: b in MergeFrom(bs, i, c, hash).value ==> Sound(b, mode)
    decreases |bs| - i
  {
    if i < |bs| {
      SpanKeepsMeaning(bs, i, c, hash, mode);
      MergingKeepsMeaning(bs, GroupEnd(bs, i, c), c, hash, mode);
    }
  }

  // ---- The method ----

  function Prepended(out: seq<Bubble>, rest: Result<seq<Bubble>, ()>): Result<seq<Bubble>, ()> {
    if rest.Err? then rest else Ok(out + rest.value)
  }

  lemma PrependOne(out: seq<Bubble>, bs: seq<Bubble>, i: nat, c: MergeConfig, hash: seq<Bubble> -> int)
    requires i < |bs| && c.style.Valid()
    ensures var one := MergeSpan(bs[i..GroupEnd(bs, i, c)], c.style, hash);
            Prepended(out, MergeFrom(bs, i, c, hash)) ==
              if one.Err? then Err(()) else Prepended(out + [one.value], MergeFrom(bs, GroupEnd(bs, i, c), c, hash))
  {
    var one, rest := MergeSpan(bs[i..GroupEnd(bs, i, c)], c.style, hash), MergeFrom(bs, GroupEnd(bs, i, c), c, hash);
    if one.Ok? && rest.Ok? {
      assert out + ([one.value] + rest.value) == out + [one.value] + rest.value;
    }
  }

  /** A group whose first `k` bubbles do not fit does not fit. */
  lemma {:induction false} PrefixMustFit(group: seq<Bubble>, k: nat)
    requires k <= |group| && SumsFit(group)
    ensures SumsFit(group[..k])
  {
    if k < |group| {
      PrefixMustFit(group[..|group| - 1], k);
      assert group[..|group| - 1][..k] == group[..k];
    } else {
      assert group[..k] == group;
    }
  }

  /** The accumulators after part of a group. */
  datatype Sums = Sums(
    sources: set<int>, buy: int, sell: int, unknown: int, total: int, strength: int, low: int, high: int, tier: Tier)

  /** The accumulators after the first `k` bubbles. */
  function Running(group: seq<Bubble>, k: nat): Sums
    requires group != [] && k <= |group|
  {
    var g := group[..k];
    Sums(AllSources(g), SumOf(g, BuyVolume), SumOf(g, SellVolume), SumOf(g, UnknownVolume),
         SumOf(g, TotalVolume), SumOf(g, TotalStrength), if k == 0 then group[0].low else MinLow(g),
         if k == 0 then group[0].high else MaxHigh(g), TopTier(g))
  }

  function Including(s: Sums, b: Bubble): Sums {
    Sums(s.sources + b.sources, s.buy + b.buy, s.sell + b.sell, s.unknown + b.unknown, s.total + b.total,
         s.strength + b.strength, if s.low > b.low then b.low else s.low, if s.high < b.high then b.high else s.high,
         if Priority(b.tier) > Priority(s.tier) then b.tier else s.tier)
  }

  predicate InRange(s: Sums, b: Bubble) {
    && 0 <= b.buy && 0 <= b.sell && 0 <= b.unknown && 0 < b.total
    && s.buy <= I128_MAX && s.sell <= I128_MAX && s.unknown <= I128_MAX && s.total <= I128_MAX
    && I128_MIN <= s.strength <= I128_MAX
  }

  lemma RunningStep(group: seq<Bubble>, k: nat)
    requires k < |group|
    ensures Running(group, k + 1) == Including(Running(group, k), group[k])
    ensures SumsFit(group[..k + 1]) <==> SumsFit(group[..k]) && InRange(Running(group, k + 1), group[k])
  {
    var g := group[..k + 1];
    assert g[..k] == group[..k] && g[k] == group[k];
  }

  /** The loop over the group with its running sums. */
  method MergeOne(group: seq<Bubble>, style: Style, hash: seq<Bubble> -> int) returns (r: Result<Bubble, ()>)
    requires group != [] && style.Valid()
    ensures r == MergeFitting(group, style, hash)
  {
    var s := Sums({}, 0, 0, 0, 0, 0, group[0].low, group[0].high, F1);
    for k := 0 to |group|
      invariant SumsFit(group[..k]) && s == Running(group, k)
    {
      RunningStep(group, k);
      s := Including(s, group[k]);
      if !InRange(s, group[k]) {
        if SumsFit(group) { PrefixMustFit(group, k + 1); }
        return Err(());
      }
    }
    assert group[..|group|] == group;
    if s.strength < 0 || |group| > 65_535 {
      return Err(());
    }
    var anchor := Anchor(group);
    var size := Size(style, anchor.mode, s.strength);
    if size.None? {
      return Err(());
    }
    r := Ok(Bubble(hash(group), anchor.segment, DirectionOf(s.buy - s.sell), anchor.bucket, s.low, s.high, s.tier,
                   anchor.mode, s.sources, s.buy, s.sell, s.unknown, s.total, s.strength,
                   MaxThreshold(group), size.value, |group|));
  }

  /** The inner loop: the end of the group that starts at `index`. */
  method FindEnd(bs: seq<Bubble>, index: nat, c: MergeConfig) returns (end: nat)
    requires index < |bs|
    ensures end == GroupEnd(bs, index, c)
  {
    end := index + 1;
    if bs[index].tier in c.enabled {
      while end < |bs| && Near(bs[end - 1], bs[end], c)
        invariant index < end <= |bs|
        invariant GroupEnd(bs, end - 1, c) == GroupEnd(bs, index, c)
      {
        end := end + 1;
      }
    }
  }

  /** The loop of the source over the sorted list. */
  method Merge(bubbles: seq<Bubble>, c: MergeConfig, hash: seq<Bubble> -> int) returns (r: Result<seq<Bubble>, ()>)
    requires c.style.Valid()
    ensures r == MergeFrom(Sort(bubbles, Place), 0, c, hash)
  {
    var bs := Sort(bubbles, Place);
    var out, index := [], 0;
    ghost var all := MergeFrom(bs, 0, c, hash);
    assert all.Ok? ==> [] + all.value == all.value;
    while index < |bs|
      invariant index <= |bs|
      invariant all == Prepended(out, MergeFrom(bs, index, c, hash))
    {
      PrependOne(out, bs, index, c, hash);
      var end := FindEnd(bs, index, c);
      var one := Ok(bs[index]);
      if end - index > 1 {
        one := MergeOne(bs[index..end], c.style, hash);
      }
      if one.Err? {
        return Err(());
      }
      out := out + [one.value];
      index := end;
    }
    assert out + [] == out;
    r := Ok(out);
  }
}
