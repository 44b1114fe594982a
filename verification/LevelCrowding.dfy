/** The room that the configuration reserves for top levels does not protect them: new naked and
    reaction levels crowd them out. */
module LevelCrowding {
  import opened Common
  import opened LevelModel
  import opened TopLevels
  import opened TopLevelRuns
  import opened StructuralLevels
  import opened LevelCapacity
  import opened LevelRuns

  ghost predicate EndsWith(ls: seq<Level>, born: seq<Level>) {
    |born| <= |ls| && ls[|ls| - |born|..] == born
  }

  predicate AllNew(born: seq<Level>) {
    forall i :: 0 <= i < |born| ==> Newly(born[i])
  }

  lemma KeepEnd(ls: seq<Level>, born: seq<Level>, t: Test)
    requires EndsWith(ls, born) && forall i :: 0 <= i < |born| ==> Passes(t, born[i])
    ensures EndsWith(Keep(ls, t), born)
  {
    var n := |ls| - |born|;
    assert ls == ls[..n] + born;
    KeepJoin(ls[..n], born, t);
    KeepAll(born, t);
  }

  lemma NoneAdded(c: Candle, kind: Kind, next: nat)
    requires IsTop(kind) && Directed(c.bubbles) == []
    ensures LevelsOf(c, kind, next) == []
  {
    LevelsAreDirected(c.bubbles, kind, c.end, WindowStart(kind, c.start), next);
  }

  /** Without new top levels the newest levels stay at the end. */
  lemma WithKindEnd(ls: seq<Level>, c: Candle, kind: Kind, next: nat, k: nat, born: seq<Level>)
    requires IsTop(kind) && EndsWith(ls, born) && AllNew(born) && Directed(c.bubbles) == []
    ensures EndsWith(WithKind(ls, c, kind, next, k), born)
  {
    var w := WindowStart(kind, c.start);
    NoneAdded(c, kind, next);
    KeepEnd(ls, born, InWindow(kind, w));
    var joined := Retained(ls, kind, w);
    assert joined + LevelsOf(c, kind, next) == joined;
    KeepEnd(joined, born, Ranked(Rivals(joined, kind, w, Buy), kind, w, Buy, k));
    var once := Trimmed(joined, kind, w, Buy, k);
    KeepEnd(once, born, Ranked(Rivals(once, kind, w, Sell), kind, w, Sell, k));
  }

  lemma FilledEnd(e: Engine, cs: seq<Candle>, c: Candle, cfg: Config)
    requires Tracks(e, cs) && Directed(c.bubbles) == []
    ensures EndsWith(Filled(e, c, cfg), Newborn(cs, c, cfg.tolerance)) && AllNew(Newborn(cs, c, cfg.tolerance))
  {
    var born, k := Newborn(cs, c, cfg.tolerance), cfg.topPerSide;
    NewbornAreActive(cs, c, cfg.tolerance);
    forall i | 0 <= i < |born| ensures Newly(born[i]) { assert born[i] in born; }
    ShapedIs(e, cs, c, cfg);
    var shaped := Shaped(e, c, cfg);
    assert EndsWith(shaped, born);
    WithKindEnd(shaped, c, TopDay, e.next, k, born);
    WithKindEnd(WithKind(shaped, c, TopDay, e.next, k), c, TopWeek, After(c, TopDay, e.next), k, born);
  }

  lemma OnlyNewLeft(ls: seq<Level>, born: seq<Level>, max: nat)
    requires TopsAreActive(ls) && EndsWith(ls, born) && AllNew(born) && |born| >= max
    ensures Keep(Evicted(ls, max), TopOnly) == []
  {
    KeepEnd(ls, born, Active);
    var active := Keep(ls, Active);
    EvictsTouchedFirst(ls, max);
    EvictedTopsAreActive(ls, max);
    TopsOfActive(Evicted(ls, max));
    LastOfNew(active, born, max);
  }

  lemma LastOfNew(ls: seq<Level>, born: seq<Level>, max: nat)
    requires EndsWith(ls, born) && AllNew(born) && |born| >= max
    ensures Keep(Last(ls, max), TopOnly) == []
  {
    var left := Last(ls, max);
    forall i | 0 <= i < |left| ensures !Passes(TopOnly, left[i]) {
      assert left[i] == ls[|ls| - |born|..][|born| - |left| + i];
    }
    KeepNone(left, TopOnly);
  }

  /** A candle that brings no directed bubble but creates as many levels as there may be leaves no top
      level, whatever the best of the current day and week are. */
  lemma CrowdedOut(offered: seq<Candle>, c: Candle, cfg: Config)
    requires Refused(LastStart(Accepted(offered)), c).None? && Directed(c.bubbles) == []
    requires |Newborn(Accepted(offered), c, cfg.tolerance)| >= cfg.maxLevels
    ensures Keep(Execute(offered + [c], cfg).levels, TopOnly) == []
  {
    assert (offered + [c])[..|offered|] == offered;
    var e, cs := Execute(offered, cfg), Accepted(offered);
    RunsTrack(offered, cfg);
    FilledNumbered(e, cs, c, cfg);
    FilledEnd(e, cs, c, cfg);
    OnlyNewLeft(Filled(e, c, cfg), Newborn(cs, c, cfg.tolerance), cfg.maxLevels);
  }

  // ---- An instance ----

  /** Room for four levels, as four top levels need. */
  const Four := Config(0, 4, 1)

  function At(direction: Direction, id: nat): Bubble {
    Bubble(0, 0, 60, 100, direction, 1, id)
  }

  const Busy := Candle(0, true, 0, 60, Some(100), Some(100),
                       [At(Buy, 1), At(Neutral, 2), At(Neutral, 3), At(Neutral, 4)])
  const Away := Candle(0, true, 60, 120, Some(0), Some(0), [])

  lemma FirstDay(kind: Kind, start: i64)
    requires IsTop(kind) && 0 <= start < DAY_NS
    ensures WindowStart(kind, start) == 0
  {
    var length := Length(kind);
    assert start / length == 0;
  }

  lemma AcceptedFirst(c: Candle)
    requires c.isFinal && AllBelong(c) && c.low.Some? && c.high == c.low && 0 <= c.start < DAY_NS
    ensures Accepted([c]) == [c]
  {
    FirstDay(TopDay, c.start);
    FirstDay(TopWeek, c.start);
    assert [c][..0] == [];
  }

  lemma AcceptedNext(start: i64, c: Candle)
    requires c.isFinal && AllBelong(c) && c.low.Some? && c.high == c.low && start < c.start && 0 <= c.start < DAY_NS
    ensures Refused(Some(start), c).None?
  {
    FirstDay(TopDay, c.start);
    FirstDay(TopWeek, c.start);
  }

  lemma FourNaked()
    ensures |Newborn([Busy], Away, 0)| == 4
  {
    var bs := Busy.bubbles;
    assert bs[..3][..2] == bs[..2] && bs[..2][..1] == bs[..1] && bs[..1][..0] == [];
    assert |NakedLevels(bs[..1], Away, 0)| == 1;
    assert |NakedLevels(bs[..2], Away, 0)| == 2;
    assert |NakedLevels(bs[..3], Away, 0)| == 3;
    assert |NakedLevels(bs, Away, 0)| == 4;
  }

  lemma OneDirected()
    ensures Directed(Busy.bubbles) == [At(Buy, 1)]
  {
    var bs := Busy.bubbles;
    assert bs[..3][..2] == bs[..2] && bs[..2][..1] == bs[..1] && bs[..1][..0] == [];
    assert Directed(bs[..1]) == [At(Buy, 1)];
    assert Directed(bs[..3]) == Directed(bs[..2]) == Directed(bs[..1]);
  }

  lemma SourcesAppend(cs: seq<Candle>, c: Candle, kind: Kind, w: int)
    requires IsTop(kind) && WindowStart(kind, c.start) == w
    ensures Sources(cs + [c], kind, w) == Sources(cs, kind, w) + Directed(c.bubbles)
  {
    assert (cs + [c])[..|cs|] == cs;
  }

  lemma SourcesOfTwo(a: Candle, b: Candle, kind: Kind, w: int)
    requires IsTop(kind) && WindowStart(kind, a.start) == w && WindowStart(kind, b.start) == w
    ensures Sources([] + [a] + [b], kind, w) == [] + Directed(a.bubbles) + Directed(b.bubbles)
  {
    SourcesAppend([], a, kind, w);
    SourcesAppend([] + [a], b, kind, w);
  }

  /** The day's first two candles, of which the second creates too many levels. */
  lemma CrowdedByTwo(a: Candle, b: Candle, cfg: Config)
    requires a.isFinal && AllBelong(a) && a.low.Some? && a.high == a.low && 0 <= a.start < b.start
    requires b.isFinal && AllBelong(b) && b.low.Some? && b.high == b.low && b.start < DAY_NS
    requires Directed(b.bubbles) == [] && |Newborn([a], b, cfg.tolerance)| >= cfg.maxLevels
    ensures Accepted([a]) == [a] && Refused(Some(a.start), b).None?
    ensures Sources([] + [a] + [b], TopDay, 0) == [] + Directed(a.bubbles) + []
    ensures Keep(Execute([a] + [b], cfg).levels, TopOnly) == []
  {
    AcceptedFirst(a);
    AcceptedNext(a.start, b);
    CrowdedOut([a], b, cfg);
    FirstDay(TopDay, a.start);
    FirstDay(TopDay, b.start);
    SourcesOfTwo(a, b, TopDay, 0);
  }

  /** The buy bubble of the first candle is the best of its day, the second candle is of the same day,
      and yet its level is gone. */
  lemma ReservedLevelIsCrowdedOut(a: Candle, b: Candle, cfg: Config)
    requires a == Busy && b == Away && cfg == Four
    ensures Accepted([a]) == [a] && Refused(Some(a.start), b).None?
    ensures Sources([] + [a] + [b], TopDay, 0) == [At(Buy, 1)]
    ensures Keep(Execute([a] + [b], cfg).levels, TopOnly) == []
  {
    FourNaked();
    OneDirected();
    CrowdedByTwo(a, b, cfg);
  }
}
