/** Whole runs of the structural level engine: touching, activating, confirming, updating the top
    levels and evicting, candle by candle. */
module LevelRuns {
  import opened Common
  import opened LevelModel
  import opened TopLevels
  import opened TopLevelRuns
  import opened StructuralLevels
  import opened LevelCapacity

  datatype Config = Config(tolerance: nat, maxLevels: nat, topPerSide: nat)

  /** `next` numbers the top levels. */
  datatype Engine = Engine(levels: seq<Level>, frames: seq<Candle>, pending: seq<Bubble>, last: Option<i64>, next: nat)

  const NewEngine := Engine([], [], [], None, 0)

  predicate Belongs(b: Bubble, c: Candle) {
    b.instrument == c.instrument && b.start == c.start && b.end == c.end
  }

  predicate AllBelong(c: Candle) {
    forall i :: 0 <= i < |c.bubbles| ==> Belongs(c.bubbles[i], c)
  }

  /** The day and the week of the candle end within 64 bits. */
  predicate WindowsFit(c: Candle) {
    WindowStart(TopDay, c.start) + DAY_NS <= I64_MAX && WindowStart(TopWeek, c.start) + WEEK_NS <= I64_MAX
  }

  datatype Refusal = NotFinal | Late | Foreign | Missing | Inverted | Overflow

  function Refused(last: Option<i64>, c: Candle): Option<Refusal> {
    if !c.isFinal then Some(NotFinal)
    else if last.Some? && c.start <= last.value then Some(Late)
    else if !AllBelong(c) then Some(Foreign)
    else if c.high.None? || c.low.None? then Some(Missing)
    else if c.low.value > c.high.value then Some(Inverted)
    else if !WindowsFit(c) then Some(Overflow)
    else None
  }

  /** Touched, activated and confirmed, but not yet with the candle's top levels. */
  function Shaped(e: Engine, c: Candle, cfg: Config): seq<Level> {
    AllAged(e.levels, c, cfg.tolerance) + NakedLevels(e.pending, c, cfg.tolerance)
        + Confirmed(LastThree(e.frames + [c]))
  }

  /** All levels before any is evicted. */
  function Filled(e: Engine, c: Candle, cfg: Config): seq<Level> {
    WithTops(Shaped(e, c, cfg), c, e.next, cfg.topPerSide)
  }

  function NextAfter(c: Candle, next: nat): nat {
    After(c, TopWeek, After(c, TopDay, next))
  }

  function Advanced(e: Engine, c: Candle, cfg: Config): Engine {
    Engine(Evicted(Filled(e, c, cfg), cfg.maxLevels), LastThree(e.frames + [c]), c.bubbles, Some(c.start),
           NextAfter(c, e.next))
  }

  function Ingested(e: Engine, c: Candle, cfg: Config): Engine {
    if Refused(e.last, c).Some? then e else Advanced(e, c, cfg)
  }

  function Execute(offered: seq<Candle>, cfg: Config): Engine {
    if offered == [] then NewEngine else Ingested(Execute(offered[..|offered| - 1], cfg), offered[|offered| - 1], cfg)
  }

  function LastStart(cs: seq<Candle>): Option<i64> {
    if cs == [] then None else Some(cs[|cs| - 1].start)
  }

  /** The candles of the run that count. */
  function Accepted(offered: seq<Candle>): seq<Candle> {
    if offered == [] then [] else AcceptedWith(Accepted(offered[..|offered| - 1]), offered[|offered| - 1])
  }

  function AcceptedWith(before: seq<Candle>, c: Candle): seq<Candle> {
    if Refused(LastStart(before), c).Some? then before else before + [c]
  }

  // ---- What every run keeps ----

  /** The engine knows the latest candles and numbers its top levels in order. */
  predicate Tracks(e: Engine, cs: seq<Candle>) {
    && e.frames == LastThree(cs) && e.pending == PendingAfter(cs) && e.last == LastStart(cs)
    && e.next == |Candidates(cs)|
    && Numbered(e.levels, e.next) && TopsAreActive(e.levels)
  }

  lemma FramesStep(cs: seq<Candle>, c: Candle)
    ensures LastThree(LastThree(cs) + [c]) == LastThree(cs + [c])
    ensures |cs| >= 2 ==> LastThree(cs + [c]) == [cs[|cs| - 2], cs[|cs| - 1], c]
    ensures |cs| < 2 ==> |LastThree(cs + [c])| < 3
  {
  }

  lemma CandidatesStep(cs: seq<Candle>, c: Candle)
    ensures Candidates(cs + [c]) == CandidatesWith(Candidates(cs), c)
    ensures |Candidates(cs + [c])| == NextAfter(c, |Candidates(cs)|)
  {
    assert (cs + [c])[..|cs|] == cs;
  }

  lemma Associate(a: seq<Level>, b: seq<Level>, c: seq<Level>)
    ensures a + b + c == a + (b + c)
  {
  }

  lemma ShapedIs(e: Engine, cs: seq<Candle>, c: Candle, cfg: Config)
    requires e.frames == LastThree(cs) && e.pending == PendingAfter(cs)
    ensures Shaped(e, c, cfg) == AllAged(e.levels, c, cfg.tolerance) + Newborn(cs, c, cfg.tolerance)
  {
    FramesStep(cs, c);
    Associate(AllAged(e.levels, c, cfg.tolerance), NakedLevels(e.pending, c, cfg.tolerance),
              Confirmed(LastThree(cs + [c])));
  }

  lemma JoinNewborn(ls: seq<Level>, born: seq<Level>, next: nat)
    requires Numbered(ls, next) && TopsAreActive(ls) && forall l :: l in born ==> Newly(l)
    ensures Numbered(ls + born, next) && TopsAreActive(ls + born)
  {
    forall i | 0 <= i < |born| ensures Newly(born[i]) { assert born[i] in born; }
  }

  lemma AgedNumbered(ls: seq<Level>, c: Candle, tolerance: nat, next: nat)
    requires Numbered(ls, next) && TopsAreActive(ls)
    ensures Numbered(AllAged(ls, c, tolerance), next) && TopsAreActive(AllAged(ls, c, tolerance))
  {
    AgedAt(ls, c, tolerance);
  }

  lemma ShapedNumbered(e: Engine, cs: seq<Candle>, c: Candle, cfg: Config)
    requires Tracks(e, cs)
    ensures Numbered(Shaped(e, c, cfg), e.next) && TopsAreActive(Shaped(e, c, cfg))
  {
    ShapedIs(e, cs, c, cfg);
    AgedNumbered(e.levels, c, cfg.tolerance, e.next);
    NewbornAreActive(cs, c, cfg.tolerance);
    JoinNewborn(AllAged(e.levels, c, cfg.tolerance), Newborn(cs, c, cfg.tolerance), e.next);
  }

  lemma WithKindActive(levels: seq<Level>, c: Candle, kind: Kind, next: nat, k: nat)
    requires IsTop(kind) && TopsAreActive(levels)
    ensures TopsAreActive(WithKind(levels, c, kind, next, k))
  {
    var out := WithKind(levels, c, kind, next, k);
    forall i | 0 <= i < |out| && IsTop(out[i].kind) ensures out[i].touched.None? {
      assert out[i] in out;
      UpdatedMembers(levels, kind, WindowStart(kind, c.start), LevelsOf(c, kind, next), k, out[i]);
    }
  }

  lemma FilledNumbered(e: Engine, cs: seq<Candle>, c: Candle, cfg: Config)
    requires Tracks(e, cs)
    ensures Numbered(Filled(e, c, cfg), NextAfter(c, e.next)) && TopsAreActive(Filled(e, c, cfg))
  {
    var shaped := Shaped(e, c, cfg);
    ShapedNumbered(e, cs, c, cfg);
    WithTopsNumbered(shaped, c, e.next, cfg.topPerSide);
    WithKindActive(shaped, c, TopDay, e.next, cfg.topPerSide);
    WithKindActive(WithKind(shaped, c, TopDay, e.next, cfg.topPerSide), c, TopWeek, After(c, TopDay, e.next),
                   cfg.topPerSide);
  }

  lemma EvictedNumbered(ls: seq<Level>, max: nat, next: nat)
    requires Numbered(ls, next)
    ensures Numbered(Evicted(ls, max), next)
  {
    EvictedInOrder(ls, max);
  }

  lemma AdvanceTracks(e: Engine, cs: seq<Candle>, c: Candle, cfg: Config)
    requires Tracks(e, cs)
    ensures Tracks(Advanced(e, c, cfg), cs + [c])
  {
    FramesStep(cs, c);
    CandidatesStep(cs, c);
    FilledNumbered(e, cs, c, cfg);
    EvictedNumbered(Filled(e, c, cfg), cfg.maxLevels, NextAfter(c, e.next));
    EvictedTopsAreActive(Filled(e, c, cfg), cfg.maxLevels);
  }

  lemma {:induction false} RunsTrack(offered: seq<Candle>, cfg: Config)
    ensures Tracks(Execute(offered, cfg), Accepted(offered))
  {
    if offered != [] {
      var before, c := offered[..|offered| - 1], offered[|offered| - 1];
      RunsTrack(before, cfg);
      if Refused(LastStart(Accepted(before)), c).None? {
        AdvanceTracks(Execute(before, cfg), Accepted(before), c, cfg);
      }
    }
  }

  /** There are never more levels than the configuration allows. */
  lemma {:induction false} CapacityIsKept(offered: seq<Candle>, cfg: Config)
    ensures |Execute(offered, cfg).levels| <= cfg.maxLevels
  {
    if offered != [] {
      var before, c := offered[..|offered| - 1], offered[|offered| - 1];
      CapacityIsKept(before, cfg);
      EvictsTouchedFirst(Filled(Execute(before, cfg), c, cfg), cfg.maxLevels);
    }
  }

  /** A candle of a run evicts a top level exactly when one stands among the oldest active levels, as
      many as are too many. */
  lemma CandleEvictsTopExactly(offered: seq<Candle>, c: Candle, cfg: Config)
    ensures var filled := Filled(Execute(offered, cfg), c, cfg);
            (Keep(Evicted(filled, cfg.maxLevels), TopOnly) == Keep(filled, TopOnly)
             <==> SparesTops(filled, cfg.maxLevels))
  {
    RunsTrack(offered, cfg);
    FilledNumbered(Execute(offered, cfg), Accepted(offered), c, cfg);
    EvictsTopExactly(Filled(Execute(offered, cfg), c, cfg), cfg.maxLevels);
  }

  // ---- Runs with enough room ----

  /** How much room there is: for every level, for every active one, or for every top level. */
  datatype Room = ForAll | ForActive | ForTops

  predicate Enough(room: Room, ls: seq<Level>, max: nat) {
    match room
    case ForAll => |ls| <= max
    case ForActive => |Keep(ls, Active)| <= max
    case ForTops => SparesTops(ls, max)
  }

  /** At every accepted candle of the run there was that much room before levels were evicted. */
  predicate Always(room: Room, offered: seq<Candle>, cfg: Config) {
    offered != [] ==>
      var before, c := offered[..|offered| - 1], offered[|offered| - 1];
      && Always(room, before, cfg)
      && (Refused(LastStart(Accepted(before)), c).None? ==>
            Enough(room, Filled(Execute(before, cfg), c, cfg), cfg.maxLevels))
  }

  /** Room for every level is room for the active ones, and that is room for the top levels. */
  lemma {:induction false} MoreRoom(offered: seq<Candle>, cfg: Config)
    ensures Always(ForAll, offered, cfg) ==> Always(ForActive, offered, cfg)
    ensures Always(ForActive, offered, cfg) ==> Always(ForTops, offered, cfg)
  {
    if offered != [] {
      var before, c := offered[..|offered| - 1], offered[|offered| - 1];
      MoreRoom(before, cfg);
      Parts(Filled(Execute(before, cfg), c, cfg));
    }
  }

  // ---- The top levels ----

  ghost predicate TopsBest(levels: seq<Level>, cs: seq<Candle>, k: nat) {
    if cs == [] then levels == [] else TopsSound(levels, Candidates(cs), k, cs[|cs| - 1].start)
  }

  /** A window is not later than that of a later candle. */
  lemma EarlierWindow(levels: seq<Level>, cs: seq<Candle>, k: nat, kind: Kind, start: i64) returns (from: int)
    requires TopsBest(levels, cs, k) && IsTop(kind) && (cs != [] ==> cs[|cs| - 1].start < start)
    ensures from <= WindowStart(kind, start) && KindSound(levels, Candidates(cs), kind, k, from)
  {
    if cs == [] {
      from := WindowStart(kind, start);
      EmptySound(kind, k, from);
    } else {
      from := WindowStart(kind, cs[|cs| - 1].start);
      Grid.PeriodsAreMonotone(cs[|cs| - 1].start, start, 0, Length(kind));
    }
  }

  lemma ShapedTops(e: Engine, cs: seq<Candle>, c: Candle, cfg: Config)
    requires e.frames == LastThree(cs) && e.pending == PendingAfter(cs)
    ensures Keep(Shaped(e, c, cfg), TopOnly) == Keep(e.levels, TopOnly)
  {
    ShapedIs(e, cs, c, cfg);
    var aged, born := AllAged(e.levels, c, cfg.tolerance), Newborn(cs, c, cfg.tolerance);
    NewbornAreActive(cs, c, cfg.tolerance);
    forall i | 0 <= i < |born| ensures Newly(born[i]) { assert born[i] in born; }
    KeepNone(born, TopOnly);
    KeepJoin(aged, born, TopOnly);
    TopsDoNotAge(e.levels, c, cfg.tolerance);
    assert Keep(e.levels, TopOnly) + [] == Keep(e.levels, TopOnly);
  }

  lemma FilledBest(e: Engine, cs: seq<Candle>, c: Candle, cfg: Config)
    requires Tracks(e, cs) && TopsBest(e.levels, cs, cfg.topPerSide) && (cs != [] ==> cs[|cs| - 1].start < c.start)
    ensures TopsSound(Filled(e, c, cfg), CandidatesWith(Candidates(cs), c), cfg.topPerSide, c.start)
  {
    var k, shaped, tops := cfg.topPerSide, Shaped(e, c, cfg), Candidates(cs);
    var day := EarlierWindow(e.levels, cs, k, TopDay, c.start);
    var week := EarlierWindow(e.levels, cs, k, TopWeek, c.start);
    ShapedTops(e, cs, c, cfg);
    SameTopsSound(e.levels, shaped, tops, TopDay, k, day);
    SameTopsSound(e.levels, shaped, tops, TopWeek, k, week);
    ShapedNumbered(e, cs, c, cfg);
    CandidatesNumbered(cs);
    WithTopsBest(shaped, tops, c, k, day, week);
  }

  lemma SparedSound(levels: seq<Level>, levels': seq<Level>, tops: seq<Level>, k: nat, start: i64)
    requires Keep(levels, TopOnly) == Keep(levels', TopOnly) && TopsSound(levels, tops, k, start)
    ensures TopsSound(levels', tops, k, start)
  {
    SameTopsSound(levels, levels', tops, TopDay, k, WindowStart(TopDay, start));
    SameTopsSound(levels, levels', tops, TopWeek, k, WindowStart(TopWeek, start));
    SameTopsInWindow(levels, levels', TopDay, WindowStart(TopDay, start));
    SameTopsInWindow(levels, levels', TopWeek, WindowStart(TopWeek, start));
  }

  lemma AdvanceBest(e: Engine, cs: seq<Candle>, c: Candle, cfg: Config)
    requires Tracks(e, cs) && TopsBest(e.levels, cs, cfg.topPerSide) && (cs != [] ==> cs[|cs| - 1].start < c.start)
    requires SparesTops(Filled(e, c, cfg), cfg.maxLevels)
    ensures TopsBest(Advanced(e, c, cfg).levels, cs + [c], cfg.topPerSide)
  {
    var filled := Filled(e, c, cfg);
    FilledBest(e, cs, c, cfg);
    FilledNumbered(e, cs, c, cfg);
    EvictsTopExactly(filled, cfg.maxLevels);
    CandidatesStep(cs, c);
    SparedSound(filled, Evicted(filled, cfg.maxLevels), CandidatesWith(Candidates(cs), c), cfg.topPerSide, c.start);
  }

  lemma {:induction false} RunsAreBest(offered: seq<Candle>, cfg: Config)
    requires Always(ForTops, offered, cfg)
    ensures TopsBest(Execute(offered, cfg).levels, Accepted(offered), cfg.topPerSide)
  {
    if offered != [] {
      var before, c := offered[..|offered| - 1], offered[|offered| - 1];
      RunsAreBest(before, cfg);
      RunsTrack(before, cfg);
      if Refused(LastStart(Accepted(before)), c).None? {
        AdvanceBest(Execute(before, cfg), Accepted(before), c, cfg);
      }
    }
  }

  /** As long as no top level had to go, the day and week levels of a direction are exactly the best
      `topPerSide`, by strength, bubble id and arrival, of the levels of all directed bubbles of the
      accepted candles in the current window, and no level of an earlier window is left. */
  lemma RetainedAreBest(offered: seq<Candle>, cfg: Config, kind: Kind, direction: Direction)
    requires Always(ForTops, offered, cfg) && Accepted(offered) != [] && IsTop(kind) && direction != Neutral
    ensures var cs, levels := Accepted(offered), Execute(offered, cfg).levels;
            var window := WindowStart(kind, cs[|cs| - 1].start);
            && Rivals(levels, kind, window, direction)
               == TopK(Rivals(Candidates(cs), kind, window, direction), cfg.topPerSide)
            && AllInWindow(levels, kind, window)
            && AreOf(Keep(Candidates(cs), OfWindow(kind, window)), Sources(cs, kind, window), kind, window)
  {
    var cs, levels := Accepted(offered), Execute(offered, cfg).levels;
    var window := WindowStart(kind, cs[|cs| - 1].start);
    RunsAreBest(offered, cfg);
    assert BestFrom(levels, Candidates(cs), kind, direction, cfg.topPerSide, window);
    CandidatesAreBubbles(cs, kind, window);
  }

  /** Of each kind and direction there are as many as candidates, but no more than `topPerSide`. */
  lemma RetainedCount(offered: seq<Candle>, cfg: Config, kind: Kind, direction: Direction)
    requires Always(ForTops, offered, cfg) && Accepted(offered) != [] && IsTop(kind) && direction != Neutral
    ensures var cs, levels := Accepted(offered), Execute(offered, cfg).levels;
            var window := WindowStart(kind, cs[|cs| - 1].start);
            var all := |Rivals(Candidates(cs), kind, window, direction)|;
            |Rivals(levels, kind, window, direction)| == if all < cfg.topPerSide then all else cfg.topPerSide
  {
    var cs := Accepted(offered);
    var window := WindowStart(kind, cs[|cs| - 1].start);
    RetainedAreBest(offered, cfg, kind, direction);
    CandidatesNumbered(cs);
    OrderIsDistinct(Candidates(cs), kind, window, direction);
    TopKSize(Rivals(Candidates(cs), kind, window, direction), cfg.topPerSide);
  }

  // ---- Naked and reaction levels ----

  /** The naked and reaction levels that the candles create, as they stand after all of them. */
  function Others(cs: seq<Candle>, tolerance: nat): seq<Level> {
    Standing(Births(cs, tolerance), cs, tolerance)
  }

  lemma ShapedOthers(e: Engine, cs: seq<Candle>, c: Candle, cfg: Config)
    requires e.frames == LastThree(cs) && e.pending == PendingAfter(cs)
    ensures Keep(Shaped(e, c, cfg), NotTop)
         == AllAged(Keep(e.levels, NotTop), c, cfg.tolerance) + Newborn(cs, c, cfg.tolerance)
  {
    var born := Newborn(cs, c, cfg.tolerance);
    ShapedIs(e, cs, c, cfg);
    NewbornAreActive(cs, c, cfg.tolerance);
    forall i | 0 <= i < |born| ensures Newly(born[i]) { assert born[i] in born; }
    KeepAll(born, NotTop);
    KeepJoin(AllAged(e.levels, c, cfg.tolerance), born, NotTop);
    OthersAge(e.levels, c, cfg.tolerance);
  }

  lemma WithTopsOthers(levels: seq<Level>, c: Candle, next: nat, k: nat)
    ensures Keep(WithTops(levels, c, next, k), NotTop) == Keep(levels, NotTop)
  {
    OthersStay(levels, c, TopDay, next, k);
    OthersStay(WithKind(levels, c, TopDay, next, k), c, TopWeek, After(c, TopDay, next), k);
  }

  lemma FilledOthers(e: Engine, cs: seq<Candle>, c: Candle, cfg: Config)
    requires e.frames == LastThree(cs) && e.pending == PendingAfter(cs)
    ensures Keep(Filled(e, c, cfg), NotTop)
         == AllAged(Keep(e.levels, NotTop), c, cfg.tolerance) + Newborn(cs, c, cfg.tolerance)
  {
    ShapedOthers(e, cs, c, cfg);
    WithTopsOthers(Shaped(e, c, cfg), c, e.next, cfg.topPerSide);
  }

  /** As long as nothing had to go, the naked and reaction levels are exactly those that the accepted
      candles create, in order, each touched by the first later candle that reaches it. */
  lemma {:induction false} LevelsAreStanding(offered: seq<Candle>, cfg: Config)
    requires Always(ForAll, offered, cfg)
    ensures Keep(Execute(offered, cfg).levels, NotTop) == Others(Accepted(offered), cfg.tolerance)
  {
    if offered != [] {
      var before, c := offered[..|offered| - 1], offered[|offered| - 1];
      LevelsAreStanding(before, cfg);
      RunsTrack(before, cfg);
      if Refused(LastStart(Accepted(before)), c).None? {
        FilledOthers(Execute(before, cfg), Accepted(before), c, cfg);
        StandingStep(Accepted(before), c, cfg.tolerance);
      }
    }
  }

  /** Which of two lists that agree on their active levels stay active is the same. */
  lemma SameActives(ls: seq<Level>, ls': seq<Level>, c: Candle, tolerance: nat, born: seq<Level>)
    requires Keep(ls, Active) == Keep(ls', Active)
    ensures Keep(AllAged(ls, c, tolerance) + born, Active) == Keep(AllAged(ls', c, tolerance) + born, Active)
  {
    ActivesAge(ls, c, tolerance);
    ActivesAge(ls', c, tolerance);
    KeepJoin(AllAged(ls, c, tolerance), born, Active);
    KeepJoin(AllAged(ls', c, tolerance), born, Active);
  }

  /** Touched levels may have gone without changing which naked and reaction levels are active: those
      that no later candle reached. */
  lemma {:induction false} ActivesAreStanding(offered: seq<Candle>, cfg: Config)
    requires Always(ForActive, offered, cfg)
    ensures Keep(Keep(Execute(offered, cfg).levels, NotTop), Active)
         == Keep(Others(Accepted(offered), cfg.tolerance), Active)
  {
    if offered != [] {
      var before, c := offered[..|offered| - 1], offered[|offered| - 1];
      ActivesAreStanding(before, cfg);
      RunsTrack(before, cfg);
      if Refused(LastStart(Accepted(before)), c).None? {
        ActivesStep(Execute(before, cfg), Accepted(before), c, cfg);
      }
    }
  }

  lemma ActivesStep(e: Engine, cs: seq<Candle>, c: Candle, cfg: Config)
    requires Tracks(e, cs) && |Keep(Filled(e, c, cfg), Active)| <= cfg.maxLevels
    requires Keep(Keep(e.levels, NotTop), Active) == Keep(Others(cs, cfg.tolerance), Active)
    ensures Keep(Keep(Advanced(e, c, cfg).levels, NotTop), Active) == Keep(Others(cs + [c], cfg.tolerance), Active)
  {
    var filled := Filled(e, c, cfg);
    RoomForActive(filled, cfg.maxLevels);
    KeepCommutes(Evicted(filled, cfg.maxLevels), NotTop, Active);
    KeepCommutes(filled, NotTop, Active);
    FilledOthers(e, cs, c, cfg);
    SameActives(Keep(e.levels, NotTop), Others(cs, cfg.tolerance), c, cfg.tolerance, Newborn(cs, c, cfg.tolerance));
    StandingStep(cs, c, cfg.tolerance);
  }
}
