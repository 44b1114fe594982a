/** The day and week levels of a list of candles, and what updating a list of levels keeps of them. */
module TopLevelRuns {
  import opened Common
  import opened Grid
  import opened LevelModel
  import opened TopLevels

  function Length(kind: Kind): (length: i64)
    requires IsTop(kind)
    ensures 0 < length
  {
    if kind == TopDay then DAY_NS else WEEK_NS
  }

  function WindowStart(kind: Kind, start: i64): int
    requires IsTop(kind)
  {
    PeriodStart(start, 0, Length(kind))
  }

  // ---- The levels of all directed bubbles ----

  /** A level for each bubble with a direction. */
  function Levels(bubbles: seq<Bubble>, kind: Kind, created: i64, window: int, next: nat): (ls: seq<Level>)
    requires IsTop(kind)
    ensures Fresh(ls, kind, window, next)
  {
    if bubbles == [] then []
    else
      var before, b := Levels(bubbles[..|bubbles| - 1], kind, created, window, next), bubbles[|bubbles| - 1];
      if b.direction == Neutral then before
      else before + [LevelFrom(kind, b.tick, created, Some(window), b, next + |before|)]
  }

  function LevelsOf(c: Candle, kind: Kind, next: nat): (ls: seq<Level>)
    requires IsTop(kind)
    ensures Fresh(ls, kind, WindowStart(kind, c.start), next)
  {
    Levels(c.bubbles, kind, c.end, WindowStart(kind, c.start), next)
  }

  /** The number that follows them. */
  function After(c: Candle, kind: Kind, next: nat): (n: nat)
    requires IsTop(kind)
    ensures n == next + |LevelsOf(c, kind, next)|
  {
    next + |LevelsOf(c, kind, next)|
  }

  /** The day levels and then the week levels of each candle. */
  function Candidates(cs: seq<Candle>): seq<Level> {
    if cs == [] then [] else CandidatesWith(Candidates(cs[..|cs| - 1]), cs[|cs| - 1])
  }

  function CandidatesWith(tops: seq<Level>, c: Candle): seq<Level> {
    tops + LevelsOf(c, TopDay, |tops|) + LevelsOf(c, TopWeek, After(c, TopDay, |tops|))
  }

  /** The bubbles with a direction, in order. */
  function Directed(bubbles: seq<Bubble>): seq<Bubble> {
    if bubbles == [] then []
    else
      var b := bubbles[|bubbles| - 1];
      Directed(bubbles[..|bubbles| - 1]) + if b.direction == Neutral then [] else [b]
  }

  /** Those of the candles in one window. */
  function Sources(cs: seq<Candle>, kind: Kind, window: int): seq<Bubble>
    requires IsTop(kind)
  {
    if cs == [] then []
    else
      var c := cs[|cs| - 1];
      Sources(cs[..|cs| - 1], kind, window) + if WindowStart(kind, c.start) == window then Directed(c.bubbles) else []
  }

  /** The levels are those of the bubbles, one by one and in order. */
  predicate AreOf(ls: seq<Level>, bs: seq<Bubble>, kind: Kind, window: int) {
    && |ls| == |bs|
    && forall i :: 0 <= i < |bs| ==>
         ls[i] == LevelFrom(kind, bs[i].tick, ls[i].created, Some(window), bs[i], ls[i].arrival)
  }

  lemma {:induction false} LevelsAreDirected(bubbles: seq<Bubble>, kind: Kind, created: i64, window: int, next: nat)
    requires IsTop(kind)
    ensures AreOf(Levels(bubbles, kind, created, window, next), Directed(bubbles), kind, window)
  {
    if bubbles != [] { LevelsAreDirected(bubbles[..|bubbles| - 1], kind, created, window, next); }
  }

  lemma SelectFresh(added: seq<Level>, kind: Kind, window: int, next: nat, kind': Kind, window': int)
    requires Fresh(added, kind, window, next)
    ensures Keep(added, OfWindow(kind', window')) == if (kind', window') == (kind, window) then added else []
  {
    if (kind', window') == (kind, window) {
      KeepAll(added, OfWindow(kind', window'));
    } else {
      KeepNone(added, OfWindow(kind', window'));
    }
  }

  /** The number of the candle's first level of the kind. */
  function Next(tops: seq<Level>, c: Candle, kind: Kind): nat {
    if kind == TopDay then |tops| else After(c, TopDay, |tops|)
  }

  /** What one more candle contributes to a window. */
  lemma SelectStep(tops: seq<Level>, c: Candle, kind: Kind, window: int)
    requires IsTop(kind)
    ensures Keep(CandidatesWith(tops, c), OfWindow(kind, window))
         == Keep(tops, OfWindow(kind, window))
            + if WindowStart(kind, c.start) == window then LevelsOf(c, kind, Next(tops, c, kind)) else []
  {
    var days := tops + LevelsOf(c, TopDay, |tops|);
    SelectOne(tops, c, |tops|, TopDay, kind, window);
    SelectOne(days, c, After(c, TopDay, |tops|), TopWeek, kind, window);
    assert Keep(days, OfWindow(kind, window)) + [] == Keep(days, OfWindow(kind, window));
    assert Keep(tops, OfWindow(kind, window)) + [] == Keep(tops, OfWindow(kind, window));
  }

  lemma SelectOne(tops: seq<Level>, c: Candle, next: nat, own: Kind, kind: Kind, window: int)
    requires IsTop(own)
    ensures Keep(tops + LevelsOf(c, own, next), OfWindow(kind, window))
         == Keep(tops, OfWindow(kind, window))
            + if kind == own && WindowStart(own, c.start) == window then LevelsOf(c, own, next) else []
  {
    KeepJoin(tops, LevelsOf(c, own, next), OfWindow(kind, window));
    SelectFresh(LevelsOf(c, own, next), own, WindowStart(own, c.start), next, kind, window);
  }

  lemma JoinAreOf(a: seq<Level>, b: seq<Level>, x: seq<Bubble>, y: seq<Bubble>, kind: Kind, window: int)
    requires AreOf(a, x, kind, window) && AreOf(b, y, kind, window)
    ensures AreOf(a + b, x + y, kind, window)
  {
  }

  /** The candidates of a window are the levels of the directed bubbles of its candles, one for each
      and in order. */
  lemma {:induction false} CandidatesAreBubbles(cs: seq<Candle>, kind: Kind, window: int)
    requires IsTop(kind)
    ensures AreOf(Keep(Candidates(cs), OfWindow(kind, window)), Sources(cs, kind, window), kind, window)
  {
    if cs != [] {
      var before, c := cs[..|cs| - 1], cs[|cs| - 1];
      CandidatesAreBubbles(before, kind, window);
      var tops := Candidates(before);
      SelectStep(tops, c, kind, window);
      var next := Next(tops, c, kind);
      LevelsAreDirected(c.bubbles, kind, c.end, WindowStart(kind, c.start), next);
      var more := if WindowStart(kind, c.start) == window then LevelsOf(c, kind, next) else [];
      var from := if WindowStart(kind, c.start) == window then Directed(c.bubbles) else [];
      JoinAreOf(Keep(tops, OfWindow(kind, window)), more, Sources(before, kind, window), from, kind, window);
    }
  }

  lemma {:induction false} CandidatesNumbered(cs: seq<Candle>)
    ensures Numbered(Candidates(cs), |Candidates(cs)|)
  {
    if cs != [] {
      CandidatesNumbered(cs[..|cs| - 1]);
      var tops, c := Candidates(cs[..|cs| - 1]), cs[|cs| - 1];
      JoinNumbered(tops, LevelsOf(c, TopDay, |tops|), |tops|);
      var days := After(c, TopDay, |tops|);
      JoinNumbered(tops + LevelsOf(c, TopDay, |tops|), LevelsOf(c, TopWeek, days), days);
    }
  }

  // ---- Updating a list of levels ----

  function WithKind(levels: seq<Level>, c: Candle, kind: Kind, next: nat, k: nat): seq<Level>
    requires IsTop(kind)
  {
    Updated(levels, kind, WindowStart(kind, c.start), LevelsOf(c, kind, next), k)
  }

  /** A candle's day levels first, then its week levels. */
  function WithTops(levels: seq<Level>, c: Candle, next: nat, k: nat): seq<Level> {
    WithKind(WithKind(levels, c, TopDay, next, k), c, TopWeek, After(c, TopDay, next), k)
  }

  /** Of one window and direction the levels are the best of all candidates. */
  predicate BestFrom(levels: seq<Level>, tops: seq<Level>, kind: Kind, direction: Direction, k: nat, window: int) {
    Rivals(levels, kind, window, direction) == TopK(Rivals(tops, kind, window, direction), k)
  }

  ghost predicate IsBest(levels: seq<Level>, tops: seq<Level>, kind: Kind, k: nat, from: int) {
    forall window, direction :: window >= from && direction != Neutral ==>
      BestFrom(levels, tops, kind, direction, k, window)
  }

  predicate NoneLater(tops: seq<Level>, kind: Kind, from: int) {
    forall i :: 0 <= i < |tops| && tops[i].kind == kind ==> tops[i].window.Some? && tops[i].window.value <= from
  }

  /** Every level of the kind is of this window. */
  predicate AllInWindow(levels: seq<Level>, kind: Kind, window: int) {
    forall l :: l in levels && l.kind == kind ==> l.window == Some(window)
  }

  /** What holds of one kind when its current window starts at `from`. */
  ghost predicate KindSound(levels: seq<Level>, tops: seq<Level>, kind: Kind, k: nat, from: int) {
    IsBest(levels, tops, kind, k, from) && NoneLater(tops, kind, from)
  }

  /** The kind's own update keeps its best, from its window on. */
  lemma OwnKindBest(levels: seq<Level>, tops: seq<Level>, c: Candle, next: nat, kind: Kind, k: nat, from: int)
    requires IsTop(kind) && Numbered(levels, next) && Numbered(tops, next)
    requires KindSound(levels, tops, kind, k, from) && from <= WindowStart(kind, c.start)
    ensures IsBest(WithKind(levels, c, kind, next, k), tops + LevelsOf(c, kind, next), kind, k,
                   WindowStart(kind, c.start))
  {
    var w, added := WindowStart(kind, c.start), LevelsOf(c, kind, next);
    JoinNumbered(tops, added, next);
    forall window, direction | window >= w && direction != Neutral
      ensures BestFrom(WithKind(levels, c, kind, next, k), tops + added, kind, direction, k, window)
    {
      assert BestFrom(levels, tops, kind, direction, k, window);
      RivalsOfBoth(tops, added, kind, window, direction);
      if window == w {
        UpdatedRivals(levels, kind, w, added, k, next, direction);
        OrderIsDistinct(tops + added, kind, w, direction);
        Streaming(Rivals(tops, kind, w, direction), Rivals(added, kind, w, direction), k);
      } else {
        UpdatedOthers(levels, kind, w, added, k, next, kind, window, direction);
        assert Rivals(tops, kind, window, direction) == {};
        assert Rivals(added, kind, window, direction) == {};
      }
    }
  }

  /** The other kind's update does not touch it. */
  lemma OtherKindBest(levels: seq<Level>, tops: seq<Level>, c: Candle, next: nat, kind: Kind, k: nat, other: Kind,
          from: int)
    requires IsTop(kind) && other != kind && IsBest(levels, tops, other, k, from)
    ensures IsBest(WithKind(levels, c, kind, next, k), tops + LevelsOf(c, kind, next), other, k, from)
  {
    var w, added := WindowStart(kind, c.start), LevelsOf(c, kind, next);
    forall window, direction | window >= from && direction != Neutral
      ensures BestFrom(WithKind(levels, c, kind, next, k), tops + added, other, direction, k, window)
    {
      assert BestFrom(levels, tops, other, direction, k, window);
      UpdatedOthers(levels, kind, w, added, k, next, other, window, direction);
      RivalsOfBoth(tops, added, other, window, direction);
      assert Rivals(added, other, window, direction) == {};
      assert Rivals(tops + added, other, window, direction) == Rivals(tops, other, window, direction);
    }
  }

  lemma UpdatedMembers(levels: seq<Level>, kind: Kind, window: int, added: seq<Level>, k: nat, l: Level)
    requires l in Updated(levels, kind, window, added, k)
    ensures (l in levels && (l.kind == kind ==> l.window == Some(window))) || l in added
  {
    var joined := Retained(levels, kind, window) + added;
    TrimmedMembers(Trimmed(joined, kind, window, Buy, k), kind, window, Sell, k, l);
    TrimmedMembers(joined, kind, window, Buy, k, l);
    KeepMembers(levels, InWindow(kind, window), l);
  }

  lemma OwnWindow(levels: seq<Level>, c: Candle, kind: Kind, next: nat, k: nat)
    requires IsTop(kind)
    ensures AllInWindow(WithKind(levels, c, kind, next, k), kind, WindowStart(kind, c.start))
  {
    var w, added := WindowStart(kind, c.start), LevelsOf(c, kind, next);
    forall l | l in WithKind(levels, c, kind, next, k) && l.kind == kind ensures l.window == Some(w) {
      UpdatedMembers(levels, kind, w, added, k, l);
    }
  }

  lemma OtherWindow(levels: seq<Level>, c: Candle, kind: Kind, next: nat, k: nat, other: Kind, w: int)
    requires IsTop(kind) && other != kind && AllInWindow(levels, other, w)
    ensures AllInWindow(WithKind(levels, c, kind, next, k), other, w)
  {
    forall l | l in WithKind(levels, c, kind, next, k) && l.kind == other ensures l.window == Some(w) {
      UpdatedMembers(levels, kind, WindowStart(kind, c.start), LevelsOf(c, kind, next), k, l);
    }
  }

  /** Nothing but top levels comes or goes. */
  lemma OthersStay(levels: seq<Level>, c: Candle, kind: Kind, next: nat, k: nat)
    requires IsTop(kind)
    ensures Keep(WithKind(levels, c, kind, next, k), NotTop) == Keep(levels, NotTop)
  {
    var w, added := WindowStart(kind, c.start), LevelsOf(c, kind, next);
    var joined := Retained(levels, kind, w) + added;
    var once := Trimmed(joined, kind, w, Buy, k);
    KeepThrough(once, NotTop, Ranked(Rivals(once, kind, w, Sell), kind, w, Sell, k));
    KeepThrough(joined, NotTop, Ranked(Rivals(joined, kind, w, Buy), kind, w, Buy, k));
    KeepJoin(Retained(levels, kind, w), added, NotTop);
    KeepNone(added, NotTop);
    KeepThrough(levels, NotTop, InWindow(kind, w));
  }

  // ---- One candle ----

  /** What holds of both kinds after a candle that started at `start`. */
  ghost predicate TopsSound(levels: seq<Level>, tops: seq<Level>, k: nat, start: i64) {
    && KindSound(levels, tops, TopDay, k, WindowStart(TopDay, start))
    && KindSound(levels, tops, TopWeek, k, WindowStart(TopWeek, start))
    && AllInWindow(levels, TopDay, WindowStart(TopDay, start))
    && AllInWindow(levels, TopWeek, WindowStart(TopWeek, start))
  }

  lemma WithKindNumbered(levels: seq<Level>, c: Candle, kind: Kind, next: nat, k: nat)
    requires IsTop(kind) && Numbered(levels, next)
    ensures Numbered(WithKind(levels, c, kind, next, k), After(c, kind, next))
  {
    UpdatedNumbered(levels, kind, WindowStart(kind, c.start), LevelsOf(c, kind, next), k, next);
  }

  lemma WithTopsNumbered(levels: seq<Level>, c: Candle, next: nat, k: nat)
    requires Numbered(levels, next)
    ensures Numbered(WithTops(levels, c, next, k), After(c, TopWeek, After(c, TopDay, next)))
  {
    WithKindNumbered(levels, c, TopDay, next, k);
    WithKindNumbered(WithKind(levels, c, TopDay, next, k), c, TopWeek, After(c, TopDay, next), k);
  }

  lemma DaysBest(levels: seq<Level>, tops: seq<Level>, c: Candle, next: nat, k: nat, day: int, week: int)
    requires Numbered(levels, next) && Numbered(tops, next)
    requires KindSound(levels, tops, TopDay, k, day) && day <= WindowStart(TopDay, c.start)
    requires KindSound(levels, tops, TopWeek, k, week)
    ensures var levels', tops' := WithKind(levels, c, TopDay, next, k), tops + LevelsOf(c, TopDay, next);
            && KindSound(levels', tops', TopDay, k, WindowStart(TopDay, c.start))
            && KindSound(levels', tops', TopWeek, k, week)
            && AllInWindow(levels', TopDay, WindowStart(TopDay, c.start))
  {
    OwnKindBest(levels, tops, c, next, TopDay, k, day);
    OtherKindBest(levels, tops, c, next, TopDay, k, TopWeek, week);
    OwnWindow(levels, c, TopDay, next, k);
  }

  lemma WeeksBest(levels: seq<Level>, tops: seq<Level>, c: Candle, next: nat, k: nat, day: int, week: int)
    requires Numbered(levels, next) && Numbered(tops, next)
    requires KindSound(levels, tops, TopDay, k, day) && AllInWindow(levels, TopDay, day)
    requires KindSound(levels, tops, TopWeek, k, week) && week <= WindowStart(TopWeek, c.start)
    ensures var levels', tops' := WithKind(levels, c, TopWeek, next, k), tops + LevelsOf(c, TopWeek, next);
            && KindSound(levels', tops', TopDay, k, day) && AllInWindow(levels', TopDay, day)
            && KindSound(levels', tops', TopWeek, k, WindowStart(TopWeek, c.start))
            && AllInWindow(levels', TopWeek, WindowStart(TopWeek, c.start))
  {
    OwnKindBest(levels, tops, c, next, TopWeek, k, week);
    OtherKindBest(levels, tops, c, next, TopWeek, k, TopDay, day);
    OwnWindow(levels, c, TopWeek, next, k);
    OtherWindow(levels, c, TopWeek, next, k, TopDay, day);
  }

  /** A candle keeps both kinds the best, each from its new window on. */
  lemma WithTopsBest(levels: seq<Level>, tops: seq<Level>, c: Candle, k: nat, day: int, week: int)
    requires Numbered(levels, |tops|) && Numbered(tops, |tops|)
    requires KindSound(levels, tops, TopDay, k, day) && day <= WindowStart(TopDay, c.start)
    requires KindSound(levels, tops, TopWeek, k, week) && week <= WindowStart(TopWeek, c.start)
    ensures TopsSound(WithTops(levels, c, |tops|, k), CandidatesWith(tops, c), k, c.start)
  {
    var levels', tops' := WithKind(levels, c, TopDay, |tops|, k), tops + LevelsOf(c, TopDay, |tops|);
    JoinNumbered(tops, LevelsOf(c, TopDay, |tops|), |tops|);
    WithKindNumbered(levels, c, TopDay, |tops|, k);
    DaysBest(levels, tops, c, |tops|, k, day, week);
    WeeksBest(levels', tops', c, After(c, TopDay, |tops|), k, WindowStart(TopDay, c.start), week);
  }

  /** Only the top levels of the list matter. */
  lemma SameTops(levels: seq<Level>, levels': seq<Level>, kind: Kind, window: int, direction: Direction)
    requires IsTop(kind) && Keep(levels, TopOnly) == Keep(levels', TopOnly)
    ensures Rivals(levels, kind, window, direction) == Rivals(levels', kind, window, direction)
  {
    forall l: Level | IsTop(l.kind) ensures l in levels <==> l in levels' {
      KeepMembers(levels, TopOnly, l);
      KeepMembers(levels', TopOnly, l);
    }
  }

  lemma SameTopsSound(levels: seq<Level>, levels': seq<Level>, tops: seq<Level>, kind: Kind, k: nat, from: int)
    requires IsTop(kind) && Keep(levels, TopOnly) == Keep(levels', TopOnly) && KindSound(levels, tops, kind, k, from)
    ensures KindSound(levels', tops, kind, k, from)
  {
    forall window, direction | window >= from && direction != Neutral
      ensures BestFrom(levels', tops, kind, direction, k, window)
    {
      assert BestFrom(levels, tops, kind, direction, k, window);
      SameTops(levels, levels', kind, window, direction);
    }
  }

  lemma SameTopsInWindow(levels: seq<Level>, levels': seq<Level>, kind: Kind, window: int)
    requires IsTop(kind) && Keep(levels, TopOnly) == Keep(levels', TopOnly) && AllInWindow(levels, kind, window)
    ensures AllInWindow(levels', kind, window)
  {
    forall l | l in levels' && l.kind == kind ensures l.window == Some(window) {
      KeepMembers(levels, TopOnly, l);
      KeepMembers(levels', TopOnly, l);
    }
  }

  lemma EmptySound(kind: Kind, k: nat, from: int)
    ensures KindSound([], [], kind, k, from)
  {
    forall window, direction | window >= from && direction != Neutral
      ensures BestFrom([], [], kind, direction, k, window)
    {
      assert Rivals([], kind, window, direction) == {};
    }
  }
}
