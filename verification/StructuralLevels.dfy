/** Naked and reaction levels: how finalized candles create them and when later ones touch them. */
module StructuralLevels {
  import opened Common
  import opened LevelModel

  // ---- One candle ----

  predicate Reaches(c: Candle, tick: int, tolerance: nat) {
    c.low.Some? && c.high.Some? && c.low.value <= tick + tolerance && c.high.value >= tick - tolerance
  }

  /** A candle touches a naked or reaction level that is older than its end and within its range. */
  predicate Touches(c: Candle, l: Level, tolerance: nat) {
    !IsTop(l.kind) && c.end > l.created && Reaches(c, l.tick, tolerance)
  }

  function Aged(l: Level, c: Candle, tolerance: nat): Level {
    if l.touched.None? && Touches(c, l, tolerance) then l.(touched := Some(c.end)) else l
  }

  function AllAged(ls: seq<Level>, c: Candle, tolerance: nat): seq<Level> {
    if ls == [] then [] else AllAged(ls[..|ls| - 1], c, tolerance) + [Aged(ls[|ls| - 1], c, tolerance)]
  }

  function NakedLevel(b: Bubble, c: Candle): Level {
    LevelFrom(Naked, b.tick, c.end, None, b, 0)
  }

  /** The bubbles of the candle before, as far as this one stays away from them. */
  function NakedLevels(pending: seq<Bubble>, c: Candle, tolerance: nat): seq<Level> {
    if pending == [] then []
    else
      var b := pending[|pending| - 1];
      NakedLevels(pending[..|pending| - 1], c, tolerance)
      + if Reaches(c, b.tick, tolerance) then [] else [NakedLevel(b, c)]
  }

  /** The strongest bubble, the smaller id first, and the last of those. */
  function Strongest(bs: seq<Bubble>): Bubble
    requires bs != []
  {
    var last := bs[|bs| - 1];
    if |bs| == 1 then last
    else
      var best := Strongest(bs[..|bs| - 1]);
      if last.strength > best.strength || (last.strength == best.strength && last.id <= best.id) then last else best
  }

  predicate Above(a: Option<int>, b: Option<int>) {
    a.Some? && b.Some? && a.value > b.value
  }

  predicate HasRange(c: Candle) {
    c.low.Some? && c.high.Some?
  }

  /** A pivot: the middle candle's high or low stands out on both sides. */
  function Reactions(left: Candle, center: Candle, right: Candle): seq<Level> {
    if center.bubbles == [] || !(HasRange(left) && HasRange(center) && HasRange(right)) then []
    else
      var b := Strongest(center.bubbles);
      (if Above(center.high, left.high) && Above(center.high, right.high)
       then [LevelFrom(ReactionHigh, center.high.value, right.end, None, b, 0)] else [])
      + (if Above(left.low, center.low) && Above(right.low, center.low)
         then [LevelFrom(ReactionLow, center.low.value, right.end, None, b, 0)] else [])
  }

  function LastThree(frames: seq<Candle>): seq<Candle> {
    if |frames| <= 3 then frames else frames[|frames| - 3..]
  }

  function Confirmed(frames: seq<Candle>): seq<Level> {
    if |frames| == 3 then Reactions(frames[0], frames[1], frames[2]) else []
  }

  /** A naked level stands for a bubble that the next candle stayed away from. */
  lemma {:induction false} NakedExactly(pending: seq<Bubble>, c: Candle, tolerance: nat, l: Level)
    ensures l in NakedLevels(pending, c, tolerance)
       <==> exists b :: b in pending && !Reaches(c, b.tick, tolerance) && l == NakedLevel(b, c)
  {
    if pending != [] {
      var init, last := pending[..|pending| - 1], pending[|pending| - 1];
      assert pending == init + [last];
      NakedExactly(init, c, tolerance, l);
      assert forall b :: b in pending <==> b in init || b == last;
    }
  }

  /** No bubble is stronger, and none as strong has a smaller id. */
  lemma {:induction false} StrongestIsStrongest(bs: seq<Bubble>)
    requires bs != []
    ensures Strongest(bs) in bs
    ensures forall b :: b in bs ==>
              || b.strength < Strongest(bs).strength
              || (b.strength == Strongest(bs).strength && Strongest(bs).id <= b.id)
  {
    if |bs| > 1 {
      var init, last := bs[..|bs| - 1], bs[|bs| - 1];
      StrongestIsStrongest(init);
      assert forall b :: b in bs ==> b in init || b == last;
    }
  }

  // ---- All levels that candles create ----

  function PendingAfter(cs: seq<Candle>): seq<Bubble> {
    if cs == [] then [] else cs[|cs| - 1].bubbles
  }

  /** What a candle creates after those before it: naked levels of the candle before, and reaction
      levels of the three latest. */
  function Newborn(before: seq<Candle>, c: Candle, tolerance: nat): seq<Level> {
    NakedLevels(PendingAfter(before), c, tolerance)
    + if |before| >= 2 then Reactions(before[|before| - 2], before[|before| - 1], c) else []
  }

  /** The level as it stands after the candles from `from` on: touched by the first that reaches it. */
  function Lived(l: Level, cs: seq<Candle>, from: nat, tolerance: nat): Level
    decreases |cs| - from
  {
    if from >= |cs| then l
    else if Touches(cs[from], l, tolerance) then l.(touched := Some(cs[from].end))
    else Lived(l, cs, from + 1, tolerance)
  }

  /** A level as it was created, and the position of the first candle that may touch it. */
  datatype Birth = Birth(level: Level, next: nat)

  function Tagged(ls: seq<Level>, next: nat): seq<Birth> {
    seq(|ls|, i requires 0 <= i < |ls| => Birth(ls[i], next))
  }

  /** All naked and reaction levels that a list of candles creates, in order. */
  function Births(cs: seq<Candle>, tolerance: nat): seq<Birth> {
    if cs == [] then []
    else
      var before := cs[..|cs| - 1];
      Births(before, tolerance) + Tagged(Newborn(before, cs[|cs| - 1], tolerance), |cs|)
  }

  /** Each of them as it stands after all candles. */
  function Standing(births: seq<Birth>, cs: seq<Candle>, tolerance: nat): seq<Level> {
    seq(|births|, i requires 0 <= i < |births| => Lived(births[i].level, cs, births[i].next, tolerance))
  }

  predicate Newly(l: Level) {
    l.touched.None? && !IsTop(l.kind)
  }

  predicate AllActive(births: seq<Birth>, n: nat) {
    forall i :: 0 <= i < |births| ==> Newly(births[i].level) && births[i].next <= n
  }

  lemma {:induction false} NakedAreActive(pending: seq<Bubble>, c: Candle, tolerance: nat)
    ensures forall l :: l in NakedLevels(pending, c, tolerance) ==> Newly(l)
  {
    if pending != [] { NakedAreActive(pending[..|pending| - 1], c, tolerance); }
  }

  lemma NewbornAreActive(before: seq<Candle>, c: Candle, tolerance: nat)
    ensures forall l :: l in Newborn(before, c, tolerance) ==> Newly(l)
  {
    NakedAreActive(PendingAfter(before), c, tolerance);
  }

  lemma {:induction false} BirthsAreActive(cs: seq<Candle>, tolerance: nat)
    ensures AllActive(Births(cs, tolerance), |cs|)
  {
    if cs != [] {
      BirthsAreActive(cs[..|cs| - 1], tolerance);
      NewbornAreActive(cs[..|cs| - 1], cs[|cs| - 1], tolerance);
    }
  }

  /** One more candle ages a level by one step. */
  lemma {:induction false} LivedStep(l: Level, cs: seq<Candle>, c: Candle, from: nat, tolerance: nat)
    requires from <= |cs| && l.touched.None?
    ensures Lived(l, cs + [c], from, tolerance) == Aged(Lived(l, cs, from, tolerance), c, tolerance)
    decreases |cs| - from
  {
    if from < |cs| {
      assert (cs + [c])[from] == cs[from];
      if !Touches(cs[from], l, tolerance) { LivedStep(l, cs, c, from + 1, tolerance); }
    } else {
      assert (cs + [c])[from] == c;
    }
  }

  lemma {:induction false} AgedAt(ls: seq<Level>, c: Candle, tolerance: nat)
    ensures |AllAged(ls, c, tolerance)| == |ls|
    ensures forall i :: 0 <= i < |ls| ==> AllAged(ls, c, tolerance)[i] == Aged(ls[i], c, tolerance)
  {
    if ls != [] { AgedAt(ls[..|ls| - 1], c, tolerance); }
  }

  /** What stands after one more candle: the levels from before, aged, and the new ones. */
  lemma StandingStep(cs: seq<Candle>, c: Candle, tolerance: nat)
    ensures Standing(Births(cs + [c], tolerance), cs + [c], tolerance)
         == AllAged(Standing(Births(cs, tolerance), cs, tolerance), c, tolerance) + Newborn(cs, c, tolerance)
  {
    assert (cs + [c])[..|cs|] == cs;
    BirthsAreActive(cs, tolerance);
    JoinStanding(Births(cs, tolerance), cs, c, Newborn(cs, c, tolerance), tolerance);
  }

  lemma JoinStanding(births: seq<Birth>, cs: seq<Candle>, c: Candle, born: seq<Level>, tolerance: nat)
    requires AllActive(births, |cs|)
    ensures Standing(births + Tagged(born, |cs| + 1), cs + [c], tolerance)
         == AllAged(Standing(births, cs, tolerance), c, tolerance) + born
  {
    var ls := Standing(births, cs, tolerance);
    AgedAt(ls, c, tolerance);
    var all := births + Tagged(born, |cs| + 1);
    forall i | 0 <= i < |all|
      ensures (AllAged(ls, c, tolerance) + born)[i] == Lived(all[i].level, cs + [c], all[i].next, tolerance)
    {
      if i < |births| {
        LivedStep(births[i].level, cs, c, births[i].next, tolerance);
      }
    }
  }

  /** A level is still active exactly when no later candle reached it; otherwise it bears the end
      of the first that did. */
  lemma {:induction false} ActiveIffNeverReached(l: Level, cs: seq<Candle>, from: nat, tolerance: nat)
    requires l.touched.None?
    ensures Lived(l, cs, from, tolerance).touched.None?
       <==> forall j :: from <= j < |cs| ==> !Touches(cs[j], l, tolerance)
    ensures Lived(l, cs, from, tolerance).touched.Some? ==>
              exists j :: from <= j < |cs| && FirstToTouch(l, cs, from, tolerance, j)
                && Lived(l, cs, from, tolerance).touched == Some(cs[j].end)
    decreases |cs| - from
  {
    if from < |cs| && Touches(cs[from], l, tolerance) {
      assert FirstToTouch(l, cs, from, tolerance, from);
    } else if from < |cs| {
      ActiveIffNeverReached(l, cs, from + 1, tolerance);
      if Lived(l, cs, from, tolerance).touched.Some? {
        var j :| from + 1 <= j < |cs| && FirstToTouch(l, cs, from + 1, tolerance, j)
                 && Lived(l, cs, from + 1, tolerance).touched == Some(cs[j].end);
        assert FirstToTouch(l, cs, from, tolerance, j);
      }
    }
  }

  predicate FirstToTouch(l: Level, cs: seq<Candle>, from: nat, tolerance: nat, j: nat)
    requires j < |cs|
  {
    Touches(cs[j], l, tolerance) && forall i :: from <= i < j ==> !Touches(cs[i], l, tolerance)
  }

  // ---- Ageing and selecting ----

  /** Ageing touches no top level. */
  lemma {:induction false} OthersAge(ls: seq<Level>, c: Candle, tolerance: nat)
    ensures Keep(AllAged(ls, c, tolerance), NotTop) == AllAged(Keep(ls, NotTop), c, tolerance)
  {
    if ls != [] {
      var init, last := ls[..|ls| - 1], ls[|ls| - 1];
      OthersAge(init, c, tolerance);
      KeepAppend(AllAged(init, c, tolerance), Aged(last, c, tolerance), NotTop);
      AgedIfKept(Keep(init, NotTop), last, c, tolerance, NotTop);
    }
  }

  lemma {:induction false} TopsDoNotAge(ls: seq<Level>, c: Candle, tolerance: nat)
    ensures Keep(AllAged(ls, c, tolerance), TopOnly) == Keep(ls, TopOnly)
  {
    if ls != [] {
      var init, last := ls[..|ls| - 1], ls[|ls| - 1];
      TopsDoNotAge(init, c, tolerance);
      KeepAppend(AllAged(init, c, tolerance), Aged(last, c, tolerance), TopOnly);
    }
  }

  /** Touched levels stay touched, so those that are active afterwards were active before. */
  lemma {:induction false} ActivesAge(ls: seq<Level>, c: Candle, tolerance: nat)
    ensures Keep(AllAged(ls, c, tolerance), Active) == Keep(AllAged(Keep(ls, Active), c, tolerance), Active)
  {
    if ls != [] {
      var init, last := ls[..|ls| - 1], ls[|ls| - 1];
      ActivesAge(init, c, tolerance);
      KeepAppend(AllAged(init, c, tolerance), Aged(last, c, tolerance), Active);
      AgedIfKept(Keep(init, Active), last, c, tolerance, Active);
      if last.touched.None? {
        KeepAppend(AllAged(Keep(init, Active), c, tolerance), Aged(last, c, tolerance), Active);
      } else {
        assert AllAged(Keep(init, Active), c, tolerance) + [] == AllAged(Keep(init, Active), c, tolerance);
      }
    }
  }

  lemma AgedIfKept(ls: seq<Level>, l: Level, c: Candle, tolerance: nat, t: Test)
    ensures AllAged(ls + Kept(l, t), c, tolerance)
         == AllAged(ls, c, tolerance) + if Passes(t, l) then [Aged(l, c, tolerance)] else []
  {
    if Passes(t, l) {
      assert (ls + [l])[..|ls|] == ls;
    } else {
      assert ls + Kept(l, t) == ls;
    }
  }
}
