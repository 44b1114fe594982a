/** The phase classifier of the event pulse: its guarded transition table, the dwell
    candidate, and what advancing the clock does to a machine state. */
module PhaseModel {
  import opened Common

  const SCALE: int := 100_000_000

  datatype Phase = Normal | Buildup | Ignition | Cascade | Exhaustion | Aftermath | Invalid

  datatype FamilyFlags = FamilyFlags(price: bool, flow: bool, book: bool, derivatives: bool, breadth: bool) {
    function Count(): nat {
      (if price then 1 else 0) + (if flow then 1 else 0) + (if book then 1 else 0)
      + (if derivatives then 1 else 0) + (if breadth then 1 else 0)
    }

    function Intensity(): int {
      (if price then 25_000_000 else 0) + (if flow then 25_000_000 else 0)
      + (if book then 15_000_000 else 0) + (if derivatives then 20_000_000 else 0)
      + (if breadth then 15_000_000 else 0)
    }
  }

  datatype Evidence = Evidence(
    availableAt: i64,
    families: FamilyFlags,
    intensity: int,
    confidence: int,
    reversalRisk: int,
    valid: bool,
    fullyWarmed: bool,
    spreadBps: int)

  datatype PhaseError = TimeRegression | ScoreDomain

  datatype Candidate = Candidate(target: Phase, start: i64, dwell: int)

  datatype State = State(
    phase: Phase,
    evidence: Option<Evidence>,
    candidate: Option<Candidate>,
    now: Option<i64>)

  const Initial := State(Normal, None, None, None)

  predicate InDomain(e: Evidence) {
    && 0 <= e.intensity <= SCALE
    && 0 <= e.confidence <= SCALE
    && 0 <= e.reversalRisk <= SCALE
    && e.intensity == e.families.Intensity()
  }

  /** The guarded transition table: the target named by `e` in `phase`, and its dwell. */
  function Transition(phase: Phase, e: Evidence): Option<(Phase, int)> {
    var high := e.intensity >= 80_000_000 && e.families.price && e.families.flow;
    var wide := e.families.derivatives || e.families.breadth;
    if !e.valid && phase != Invalid then Some((Invalid, 0))
    else match phase
      case Invalid =>
        if e.fullyWarmed && e.intensity < 40_000_000 then Some((Normal, 1_000_000_000)) else None
      case Normal =>
        if high then Some((Ignition, 100_000_000))
        else if e.intensity >= 60_000_000 && e.confidence >= 80_000_000 && e.families.Count() >= 2
        then Some((Buildup, 250_000_000))
        else None
      case Buildup =>
        if high then Some((Ignition, 100_000_000))
        else if e.intensity < 40_000_000 then Some((Normal, 500_000_000))
        else None
      case Ignition =>
        if e.intensity >= 85_000_000 && wide then Some((Cascade, 250_000_000))
        else if e.reversalRisk >= 65_000_000 then Some((Exhaustion, 250_000_000))
        else None
      case Cascade =>
        if e.reversalRisk >= 65_000_000 || e.intensity <= 40_000_000 then Some((Exhaustion, 250_000_000))
        else None
      case Exhaustion =>
        if e.intensity >= 85_000_000 && e.reversalRisk < 35_000_000 && wide then Some((Cascade, 250_000_000))
        else if e.intensity < 60_000_000 && e.reversalRisk >= 50_000_000 then Some((Aftermath, 1_000_000_000))
        else None
      case Aftermath =>
        if e.intensity >= 60_000_000 && e.reversalRisk < 35_000_000 then Some((Buildup, 500_000_000))
        else if e.intensity < 40_000_000 && e.reversalRisk < 20_000_000 && e.spreadBps < 8 * SCALE
        then Some((Normal, 5_000_000_000))
        else None
  }

  /** What the evidence in force, if any, names in the current phase. */
  function Named(phase: Phase, evidence: Option<Evidence>): Option<(Phase, int)> {
    if evidence.None? then None else Transition(phase, evidence.value)
  }

  /** Keeps a candidate whose target is still named; otherwise starts afresh at `t`. */
  function Refresh(s: State, t: i64): State {
    if s.evidence.None? then s
    else match Transition(s.phase, s.evidence.value)
      case None => s.(candidate := None)
      case Some((target, dwell)) =>
        if s.candidate.Some? && s.candidate.value.target == target then s
        else s.(candidate := Some(Candidate(target, t, dwell)))
  }

  /** The candidate, if any, is what the evidence names, started by now and is not yet due. */
  predicate Pending(s: State) {
    && s.now.Some?
    && (s.candidate.Some? ==>
          && Named(s.phase, s.evidence) == Some((s.candidate.value.target, s.candidate.value.dwell))
          && s.candidate.value.start <= s.now.value < s.candidate.value.start + s.candidate.value.dwell)
  }

  /** What every operation keeps. In particular the phase is Invalid while the evidence is. */
  predicate Coherent(s: State) {
    && (s.now.None? ==> s == Initial)
    && (s.evidence.None? ==> s.phase == Normal)
    && (s.now.Some? ==> Pending(s))
    && (s.evidence.Some? && !s.evidence.value.valid ==> s.phase == Invalid)
    && (s.evidence.Some? && s.evidence.value.valid && s.candidate.None? ==> Named(s.phase, s.evidence).None?)
  }

  datatype Entry =
    | Observed(at: i64, evidence: Evidence)
    | Entered(at: i64, from: Phase, to: Phase)

  /** The state reached, whether the call failed, and the phase entries made on the way. */
  datatype Outcome = Outcome(state: State, error: Option<PhaseError>, entries: seq<Entry>)

  function Prefixed(e: Entry, o: Outcome): Outcome {
    o.(entries := [e] + o.entries)
  }

  /** Runs every transition whose deadline is at most `at`, each exactly at its deadline.
      A zero-dwell transition keeps the remaining time but leads to Invalid. */
  function Drain(s: State, at: i64): Outcome
    requires Pending(s) && s.now.value <= at
    decreases at - s.now.value, if s.phase == Invalid then 0 else 1
  {
    var r := Refresh(s, s.now.value);
    if r.candidate.None? then Outcome(Refresh(r.(now := Some(at)), at), None, [])
    else
      var c := r.candidate.value;
      var deadline := c.start + c.dwell;
      if deadline > I64_MAX then Outcome(r, Some(ScoreDomain), [])
      else if deadline > at then Outcome(Refresh(r.(now := Some(at)), at), None, [])
      else
        Prefixed(Entered(deadline, s.phase, c.target),
                 Drain(r.(now := Some(deadline), phase := c.target, candidate := None), at))
  }

  function Advance(s: State, at: i64): Outcome
    requires Coherent(s)
  {
    if s.now.None? then Outcome(s.(now := Some(at)), None, [])
    else if at < s.now.value then Outcome(s, Some(TimeRegression), [])
    else Drain(s, at)
  }

  function Observe(s: State, e: Evidence): Outcome
    requires Coherent(s)
  {
    if s.now.Some? && e.availableAt < s.now.value then Outcome(s, Some(TimeRegression), [])
    else if !InDomain(e) then Outcome(s, Some(ScoreDomain), [])
    else
      var a := Advance(s, e.availableAt);
      if a.error.Some? then a
      else
        var seen := a.state.(evidence := Some(e));
        Outcome(if e.valid then Refresh(seen, e.availableAt) else seen.(phase := Invalid, candidate := None),
                None, a.entries + [Observed(e.availableAt, e)])
  }

  /** Whether `Drain` to `at` makes a transition at once. */
  predicate Fires(s: State, at: i64)
    requires s.now.Some?
  {
    var r := Refresh(s, s.now.value);
    r.candidate.Some? && r.candidate.value.start + r.candidate.value.dwell <= at
  }

  function Fired(s: State, at: i64): State
    requires Pending(s) && Fires(s, at)
  {
    var r := Refresh(s, s.now.value);
    r.(now := Some(r.candidate.value.start + r.candidate.value.dwell), phase := r.candidate.value.target,
       candidate := None)
  }

  /** A due transition is the first step of the drain, and leaves less time or leaves for Invalid. */
  lemma DrainFires(s: State, at: i64)
    requires Pending(s) && s.now.value <= at && Fires(s, at)
    ensures var f := Fired(s, at);
            && Pending(f) && f.now.value <= at
            && Drain(s, at) == Prefixed(Entered(f.now.value, s.phase, f.phase), Drain(f, at))
            && (f.now.value > s.now.value || (f.phase == Invalid && s.phase != Invalid && f.now.value == s.now.value))
  {
  }

  // ---- What every operation keeps ----

  /** The evidence may still be invalid in a valid phase, but only half way through `Drain`. */
  lemma {:induction false} DrainCoherent(s: State, at: i64)
    requires Pending(s) && s.now.value <= at
    requires s.evidence.None? ==> s.phase == Normal
    ensures var o := Drain(s, at);
            && Coherent(o.state)
            && o.state.evidence == s.evidence
            && o.state.now.Some? && s.now.value <= o.state.now.value <= at
            && (o.error.None? ==>
                  && o.state.now.value == at
                  && (o.state.candidate.None? <==> Named(o.state.phase, o.state.evidence).None?))
    decreases at - s.now.value, if s.phase == Invalid then 0 else 1
  {
    if Fires(s, at) { DrainCoherent(Fired(s, at), at); }
  }

  /** Every operation keeps the machine coherent, so its phase is Invalid at every return
      made while the evidence in force is invalid, whether the call succeeded or not. */
  lemma AdvanceCoherent(s: State, at: i64)
    requires Coherent(s)
    ensures Coherent(Advance(s, at).state)
    ensures Advance(s, at).error.None? ==> Advance(s, at).state.now == Some(at)
  {
    if s.now.Some? && s.now.value <= at { DrainCoherent(s, at); }
  }

  lemma SeenCoherent(s: State, e: Evidence)
    requires Coherent(s) && s.now == Some(e.availableAt)
    ensures var seen := s.(evidence := Some(e));
            Coherent(if e.valid then Refresh(seen, e.availableAt) else seen.(phase := Invalid, candidate := None))
  {
    if s.candidate.Some? && Transition(s.phase, e).Some? && s.candidate.value.target == Transition(s.phase, e).value.0 {
      DwellDetermined(s.phase, s.evidence.value, e);
    }
  }

  lemma ObserveCoherent(s: State, e: Evidence)
    requires Coherent(s)
    ensures Coherent(Observe(s, e).state)
  {
    AdvanceCoherent(s, e.availableAt);
    var a := Advance(s, e.availableAt);
    if a.error.None? { SeenCoherent(a.state, e); }
  }

  // ---- Polling granularity ----

  /** A poll before the next deadline only moves the clock; a later poll starts over from there. */
  lemma QuietPoll(s: State, a: i64, b: i64)
    requires Pending(s) && s.now.value <= a <= b
    requires !Fires(s, a)
    ensures var first := Drain(s, a);
            && first.entries == []
            && (first.error.Some? ==> Drain(s, b) == first)
            && (first.error.None? ==>
                  && Pending(first.state) && first.state.now == Some(a)
                  && Drain(first.state, b) == Drain(s, b))
  {
    var r := Refresh(s, s.now.value);
    assert Refresh(r, a) == r;
  }

  /** Draining to `a` and from there to `b` gives the whole; if the first fails, it is the whole. */
  predicate Joins(first: Outcome, whole: Outcome, a: i64, b: i64)
    requires a <= b
  {
    if first.error.Some? then whole == first
    else
      && Pending(first.state) && first.state.now == Some(a)
      && var second := Drain(first.state, b);
         whole == Outcome(second.state, second.error, first.entries + second.entries)
  }

  lemma PrefixedJoins(e: Entry, first: Outcome, whole: Outcome, a: i64, b: i64)
    requires a <= b && Joins(first, whole, a, b)
    ensures Joins(Prefixed(e, first), Prefixed(e, whole), a, b)
  {
    if first.error.None? {
      var second := Drain(first.state, b);
      assert [e] + (first.entries + second.entries) == ([e] + first.entries) + second.entries;
    }
  }

  lemma {:induction false} DrainPolling(s: State, a: i64, b: i64)
    requires Pending(s) && s.now.value <= a <= b
    ensures Joins(Drain(s, a), Drain(s, b), a, b)
    decreases a - s.now.value, if s.phase == Invalid then 0 else 1
  {
    if Fires(s, a) {
      var f := Fired(s, a);
      DrainFires(s, a);
      DrainFires(s, b);
      DrainPolling(f, a, b);
      PrefixedJoins(Entered(f.now.value, s.phase, f.phase), Drain(f, a), Drain(f, b), a, b);
    } else {
      QuietPoll(s, a, b);
      assert [] + Drain(s, b).entries == Drain(s, b).entries;
    }
  }

  /** Polling in two steps is polling once: same phase, candidate with its original start,
      clock, entries and error. If the first poll fails the longer one fails identically. */
  lemma PollingGranularity(s: State, a: i64, b: i64)
    requires Coherent(s)
    requires a <= b
    requires s.now.Some? ==> s.now.value <= a
    ensures Coherent(Advance(s, a).state)
    ensures var first, whole := Advance(s, a), Advance(s, b);
            if first.error.Some? then whole == first
            else var second := Advance(first.state, b);
                 whole == Outcome(second.state, second.error, first.entries + second.entries)
  {
    AdvanceCoherent(s, a);
    if s.now.Some? { DrainPolling(s, a, b); }
  }

  /** The first deadline after `at` of the transitions that one evidence makes from `start` on, each
      dwell beginning at the deadline before; none if they end by then. */
  function FirstBeyond(phase: Phase, e: Evidence, start: int, at: int): Option<int>
    decreases at - start, if phase == Invalid then 0 else 1
  {
    match Transition(phase, e)
    case None => None
    case Some((target, dwell)) =>
      if start + dwell > at then Some(start + dwell) else FirstBeyond(target, e, start + dwell, at)
  }

  /** The next deadline lies beyond the clock's range. */
  predicate Beyond(s: State, at: int)
    requires s.now.Some?
  {
    && s.evidence.Some?
    && var start := if s.candidate.Some? then s.candidate.value.start else s.now.value;
       var next := FirstBeyond(s.phase, s.evidence.value, start, at);
       next.Some? && next.value > I64_MAX
  }

  lemma {:induction false} DrainFailsExactly(s: State, at: i64)
    requires Pending(s) && s.now.value <= at
    ensures Drain(s, at).error == (if Beyond(s, at) then Some(ScoreDomain) else None)
    decreases at - s.now.value, if s.phase == Invalid then 0 else 1
  {
    if Fires(s, at) {
      DrainFires(s, at);
      DrainFailsExactly(Fired(s, at), at);
    }
  }

  /** An advance fails exactly when time runs backwards or the next deadline is out of range. */
  lemma AdvanceFailsExactly(s: State, at: i64)
    requires Coherent(s)
    ensures Advance(s, at).error.None?
       <==> s.now.None? || (s.now.value <= at && !Beyond(s, at))
  {
    if s.now.Some? && s.now.value <= at { DrainFailsExactly(s, at); }
  }

  lemma {:induction false} BeyondIsNear(phase: Phase, e: Evidence, start: int, at: int)
    requires start <= at
    ensures FirstBeyond(phase, e, start, at).Some? ==> FirstBeyond(phase, e, start, at).value <= at + 5_000_000_000
    decreases at - start, if phase == Invalid then 0 else 1
  {
    match Transition(phase, e)
    case None =>
    case Some((target, dwell)) => if start + dwell <= at { BeyondIsNear(target, e, start + dwell, at); }
  }

  /** So no advance fails, except backwards, up to five seconds before the end of the range. */
  lemma InRangeNeverFails(s: State, at: i64)
    requires Coherent(s) && (s.now.Some? ==> s.now.value <= at)
    requires at <= I64_MAX - 5_000_000_000
    ensures Advance(s, at).error.None?
  {
    AdvanceFailsExactly(s, at);
    if s.now.Some? && s.evidence.Some? {
      BeyondIsNear(s.phase, s.evidence.value, if s.candidate.Some? then s.candidate.value.start else s.now.value, at);
    }
  }

  /** Once the next deadline lies beyond the clock's range every later call fails and the
      machine never moves again. */
  lemma OverflowIsAbsorbing(s: State, at: i64, later: i64, e: Evidence)
    requires Coherent(s)
    requires s.now.Some? && s.now.value <= at && Beyond(s, at)
    ensures var stuck := Advance(s, at).state;
            && Advance(s, at).error == Some(ScoreDomain) && Coherent(stuck)
            && Advance(stuck, later).state == stuck && Advance(stuck, later).error.Some?
            && Observe(stuck, e).state == stuck && Observe(stuck, e).error.Some?
  {
    AdvanceCoherent(s, at);
    DrainFailsExactly(s, at);
    DrainStuck(s, at);
  }

  lemma {:induction false} DrainStuck(s: State, at: i64)
    requires Pending(s) && s.now.value <= at
    requires s.evidence.None? ==> s.phase == Normal
    requires Drain(s, at).error.Some?
    ensures var stuck := Drain(s, at).state;
            && Drain(s, at).error == Some(ScoreDomain)
            && stuck.candidate.Some?
            && stuck.candidate.value.start + stuck.candidate.value.dwell > I64_MAX
            && Refresh(stuck, at) == stuck
    decreases at - s.now.value, if s.phase == Invalid then 0 else 1
  {
    if Fires(s, at) { DrainStuck(Fired(s, at), at); }
  }

  // ---- Settling under one valid evidence ----

  /** For one valid evidence the transition graph has no cycle: no chain of four. */
  lemma NoFourStepChain(p0: Phase, p1: Phase, p2: Phase, p3: Phase, e: Evidence)
    requires e.valid
    requires Transition(p0, e).Some? && Transition(p0, e).value.0 == p1
    requires Transition(p1, e).Some? && Transition(p1, e).value.0 == p2
    requires Transition(p2, e).Some? && Transition(p2, e).value.0 == p3
    ensures Transition(p3, e).None?
  {
  }

  function Next(phase: Phase, e: Evidence): Phase {
    if Transition(phase, e).None? then phase else Transition(phase, e).value.0
  }

  function DwellOf(phase: Phase, e: Evidence): int {
    if Transition(phase, e).None? then 0 else Transition(phase, e).value.1
  }

  /** Where repeated transitions end under `e`, after how many of them, and in what time. */
  function SettledPhase(phase: Phase, e: Evidence): Phase {
    Next(Next(Next(phase, e), e), e)
  }

  function Remaining(phase: Phase, e: Evidence): nat {
    if Transition(phase, e).None? then 0
    else if Transition(Next(phase, e), e).None? then 1
    else if Transition(Next(Next(phase, e), e), e).None? then 2
    else 3
  }

  function SettleTime(phase: Phase, e: Evidence): int {
    DwellOf(phase, e) + DwellOf(Next(phase, e), e) + DwellOf(Next(Next(phase, e), e), e)
  }

  lemma ChainShrinks(phase: Phase, e: Evidence)
    requires e.valid && Transition(phase, e).Some?
    ensures Remaining(Next(phase, e), e) == Remaining(phase, e) - 1
    ensures SettledPhase(Next(phase, e), e) == SettledPhase(phase, e)
    ensures SettleTime(Next(phase, e), e) == SettleTime(phase, e) - DwellOf(phase, e)
  {
    var p1 := Next(phase, e);
    var p2 := Next(p1, e);
    if Transition(p1, e).Some? && Transition(p2, e).Some? {
      NoFourStepChain(phase, p1, p2, Next(p2, e), e);
    }
  }

  lemma {:induction false} DrainSettles(s: State, at: i64)
    requires Pending(s) && s.now.value <= at
    requires s.evidence.Some? && s.evidence.value.valid
    ensures var e, o := s.evidence.value, Drain(s, at);
            && |o.entries| + Remaining(o.state.phase, e) == Remaining(s.phase, e)
            && SettledPhase(o.state.phase, e) == SettledPhase(s.phase, e)
            && (o.error.None? && at - s.now.value >= SettleTime(s.phase, e) ==> Transition(o.state.phase, e).None?)
    decreases at - s.now.value, if s.phase == Invalid then 0 else 1
  {
    if Fires(s, at) {
      ChainShrinks(s.phase, s.evidence.value);
      DrainSettles(Fired(s, at), at);
    }
  }

  lemma QuietForever(s: State, at: i64)
    requires Coherent(s) && s.now.Some? && s.now.value <= at
    requires Named(s.phase, s.evidence).None?
    ensures Advance(s, at) == Outcome(s.(now := Some(at)), None, [])
  {
  }

  lemma SettleBounds(phase: Phase, e: Evidence)
    requires e.valid
    ensures Remaining(phase, e) <= 3
    ensures 0 <= SettleTime(phase, e) <= 5_000_000_000
    ensures Transition(phase, e).None? ==> Remaining(phase, e) == 0 && SettledPhase(phase, e) == phase
  {
  }

  /** With valid evidence held fixed the machine makes at most three more phase changes,
      reaches the end of its chain within five seconds, and never moves again. */
  lemma Settling(s: State, at: i64, later: i64)
    requires Coherent(s)
    requires s.evidence.Some? && s.evidence.value.valid
    requires s.now.value <= at <= later
    ensures var e, o := s.evidence.value, Advance(s, at);
            && |o.entries| <= Remaining(s.phase, e) <= 3
            && 0 <= SettleTime(s.phase, e) <= 5_000_000_000
            && (o.error.None? && at - s.now.value >= SettleTime(s.phase, e) ==>
                  && o.state == s.(phase := SettledPhase(s.phase, e), candidate := None, now := Some(at))
                  && |o.entries| == Remaining(s.phase, e)
                  && Advance(s, later) == Outcome(o.state.(now := Some(later)), None, o.entries))
  {
    var e, o := s.evidence.value, Advance(s, at);
    SettleBounds(s.phase, e);
    DrainSettles(s, at);
    DrainCoherent(s, at);
    if o.error.None? && at - s.now.value >= SettleTime(s.phase, e) {
      SettleBounds(o.state.phase, e);
      PollingGranularity(s, at, later);
      QuietForever(o.state, later);
      assert o.entries + [] == o.entries;
    }
  }

  /** Three changes is the exact bound. */
  lemma ThreeChangesHappen(e: Evidence)
    requires e.valid && e.intensity >= 85_000_000 && e.reversalRisk >= 65_000_000
    requires e.families.price && e.families.flow && e.families.breadth
    ensures Remaining(Normal, e) == 3 && SettledPhase(Normal, e) == Exhaustion
  {
  }

  /** Dwells depend on the two phases only, and only entering Invalid takes less than 100 ms. */
  lemma DwellDetermined(phase: Phase, e: Evidence, e': Evidence)
    requires Transition(phase, e).Some? && Transition(phase, e').Some?
    requires Transition(phase, e).value.0 == Transition(phase, e').value.0
    ensures Transition(phase, e) == Transition(phase, e')
    ensures Transition(phase, e).value.0 != phase
    ensures Transition(phase, e).value.0 == Invalid || Transition(phase, e).value.1 >= 100_000_000
  {
  }
}
