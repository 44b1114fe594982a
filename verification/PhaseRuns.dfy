/** Whole runs of the phase machine: what the log of observations and phase entries
    of any run says about when a phase may be entered. */
module PhaseRuns {
  import opened Common
  import opened PhaseModel

  datatype Op = DoObserve(evidence: Evidence) | DoAdvance(at: i64)

  datatype History = History(state: State, log: seq<Entry>)

  function Apply(s: State, op: Op): Outcome
    requires Coherent(s)
  {
    match op
    case DoObserve(e) => Observe(s, e)
    case DoAdvance(at) => Advance(s, at)
  }

  lemma ApplyCoherent(s: State, op: Op)
    requires Coherent(s)
    ensures Coherent(Apply(s, op).state)
  {
    match op
    case DoObserve(e) => ObserveCoherent(s, e);
    case DoAdvance(at) => AdvanceCoherent(s, at);
  }

  /** The run of `ops` on a new machine; failed calls are part of a run. */
  function Execute(ops: seq<Op>): (h: History)
    ensures Coherent(h.state)
  {
    if ops == [] then History(Initial, [])
    else
      var h := Execute(ops[..|ops| - 1]);
      var o := Apply(h.state, ops[|ops| - 1]);
      ApplyCoherent(h.state, ops[|ops| - 1]);
      History(o.state, h.log + o.entries)
  }

  // ---- Reading a log, without the machine ----

  function PhaseAfter(log: seq<Entry>): Phase {
    if log == [] then Normal
    else match log[|log| - 1]
      case Entered(_, _, to) => to
      case Observed(_, e) => if e.valid then PhaseAfter(log[..|log| - 1]) else Invalid
  }

  function EvidenceAfter(log: seq<Entry>): Option<Evidence> {
    if log == [] then None
    else match log[|log| - 1]
      case Entered(_, _, _) => EvidenceAfter(log[..|log| - 1])
      case Observed(_, e) => Some(e)
  }

  /** The target and dwell named by the evidence in force at the end of `log`. */
  function NamedAfter(log: seq<Entry>): Option<(Phase, int)> {
    Named(PhaseAfter(log), EvidenceAfter(log))
  }

  /** The last entry is a valid observation that left both the phase and the named target as they were. */
  predicate Continues(log: seq<Entry>)
    requires log != []
  {
    var last, before := log[|log| - 1], log[..|log| - 1];
    && last.Observed? && last.evidence.valid
    && NamedAfter(log).Some? && NamedAfter(before).Some?
    && NamedAfter(log).value.0 == NamedAfter(before).value.0
  }

  /** The index of the entry since which the named target has stood without a break. */
  function PendingFrom(log: seq<Entry>): (k: nat)
    requires log != []
    ensures k < |log|
  {
    if Continues(log) then PendingFrom(log[..|log| - 1]) else |log| - 1
  }

  /** Entry `i` left the phase the log was in, towards the target named by the evidence in
      force, exactly when that target had stood for its dwell. */
  predicate Justified(log: seq<Entry>, i: nat)
    requires i < |log|
  {
    log[i].Entered? ==>
      var before := log[..i];
      && before != []
      && log[i].from == PhaseAfter(before)
      && NamedAfter(before).Some?
      && log[i].to == NamedAfter(before).value.0
      && log[i].at == before[PendingFrom(before)].at + NamedAfter(before).value.1
  }

  predicate AllJustified(log: seq<Entry>) {
    forall i :: 0 <= i < |log| ==> Justified(log, i)
  }

  predicate Ordered(log: seq<Entry>) {
    forall i, j :: 0 <= i <= j < |log| ==> log[i].at <= log[j].at
  }

  /** The state says of the present exactly what the log says. The only state with a target
      named but no candidate is the one right after an invalid observation. */
  predicate Tracks(s: State, log: seq<Entry>) {
    && s.phase == PhaseAfter(log)
    && s.evidence == EvidenceAfter(log)
    && (log != [] ==> s.now.Some? && log[|log| - 1].at <= s.now.value)
    && (s.candidate.Some? ==> log != [] && s.candidate.value.start == log[PendingFrom(log)].at)
    && (s.candidate.None? && NamedAfter(log).Some? ==>
          && s.now == Some(log[|log| - 1].at) && PendingFrom(log) == |log| - 1)
  }

  predicate Sound(s: State, log: seq<Entry>) {
    Tracks(s, log) && AllJustified(log) && Ordered(log)
  }

  lemma Extend(log: seq<Entry>, e: Entry)
    requires AllJustified(log) && Ordered(log)
    requires log != [] ==> log[|log| - 1].at <= e.at
    requires Justified(log + [e], |log|)
    ensures AllJustified(log + [e]) && Ordered(log + [e])
  {
    forall i | 0 <= i < |log| ensures Justified(log + [e], i) {
      assert Justified(log, i);
      assert (log + [e])[..i] == log[..i];
    }
  }

  lemma RefreshSound(s: State, log: seq<Entry>)
    requires Pending(s) && Sound(s, log)
    ensures Sound(Refresh(s, s.now.value), log)
  {
  }

  /** What firing a due candidate adds to the log. */
  lemma FireSound(s: State, at: i64, log: seq<Entry>)
    requires Pending(s) && Sound(s, log) && Fires(s, at)
    ensures Sound(Fired(s, at), log + [Entered(Fired(s, at).now.value, s.phase, Fired(s, at).phase)])
  {
    RefreshSound(s, log);
    var f := Fired(s, at);
    var e := Entered(f.now.value, s.phase, f.phase);
    assert (log + [e])[..|log|] == log;
    Extend(log, e);
  }

  /** A drain to `at` that began with this log left a sound state, and a candidate for any target. */
  predicate EndsSound(o: Outcome, at: i64, log: seq<Entry>) {
    && Sound(o.state, log + o.entries)
    && (o.error.None? ==> o.state.now == Some(at))
    && (o.error.None? && o.state.candidate.None? ==> NamedAfter(log + o.entries).None?)
  }

  lemma PrefixedEndsSound(e: Entry, o: Outcome, at: i64, log: seq<Entry>)
    requires EndsSound(o, at, log + [e])
    ensures EndsSound(Prefixed(e, o), at, log)
  {
    assert log + ([e] + o.entries) == log + [e] + o.entries;
  }

  lemma {:induction false} DrainSound(s: State, at: i64, log: seq<Entry>)
    requires Pending(s) && s.now.value <= at
    requires Sound(s, log)
    ensures EndsSound(Drain(s, at), at, log)
    decreases at - s.now.value, if s.phase == Invalid then 0 else 1
  {
    if Fires(s, at) {
      var f := Fired(s, at);
      var e := Entered(f.now.value, s.phase, f.phase);
      DrainFires(s, at);
      FireSound(s, at, log);
      DrainSound(f, at, log + [e]);
      PrefixedEndsSound(e, Drain(f, at), at, log);
    } else {
      QuietSound(s, at, log);
      NoEntries(Drain(s, at), at, log);
    }
  }

  lemma NoEntries(o: Outcome, at: i64, log: seq<Entry>)
    requires o.entries == [] && Sound(o.state, log)
    requires o.error.None? ==> o.state.now == Some(at)
    requires o.error.None? && o.state.candidate.None? ==> NamedAfter(log).None?
    ensures EndsSound(o, at, log)
  {
    assert log + [] == log;
  }

  lemma QuietSound(s: State, at: i64, log: seq<Entry>)
    requires Pending(s) && s.now.value <= at
    requires Sound(s, log) && !Fires(s, at)
    ensures var o := Drain(s, at);
            && o.entries == []
            && Sound(o.state, log)
            && (o.error.None? ==> o.state.now == Some(at))
            && (o.error.None? && o.state.candidate.None? ==> NamedAfter(log).None?)
  {
    RefreshSound(s, log);
  }

  lemma AdvanceSound(s: State, at: i64, log: seq<Entry>)
    requires Coherent(s) && Sound(s, log)
    ensures EndsSound(Advance(s, at), at, log)
  {
    assert log + [] == log;
    if s.now.Some? && s.now.value <= at { DrainSound(s, at, log); }
  }

  lemma SeenSound(s: State, log: seq<Entry>, e: Evidence)
    requires Coherent(s) && Sound(s, log)
    requires s.now == Some(e.availableAt)
    requires s.candidate.None? ==> NamedAfter(log).None?
    ensures var seen := s.(evidence := Some(e));
            Sound(if e.valid then Refresh(seen, e.availableAt) else seen.(phase := Invalid, candidate := None),
                  log + [Observed(e.availableAt, e)])
  {
    var entry := Observed(e.availableAt, e);
    assert (log + [entry])[..|log|] == log;
    Extend(log, entry);
  }

  lemma ApplySound(s: State, op: Op, log: seq<Entry>)
    requires Coherent(s) && Sound(s, log)
    ensures Sound(Apply(s, op).state, log + Apply(s, op).entries)
  {
    assert log + [] == log;
    match op
    case DoAdvance(at) => AdvanceSound(s, at, log);
    case DoObserve(e) =>
      AdvanceSound(s, e.availableAt, log);
      AdvanceCoherent(s, e.availableAt);
      var a := Advance(s, e.availableAt);
      if a.error.None? && InDomain(e) && (s.now.Some? ==> s.now.value <= e.availableAt) {
        SeenSound(a.state, log + a.entries, e);
        assert log + (a.entries + [Observed(e.availableAt, e)])
            == log + a.entries + [Observed(e.availableAt, e)];
      }
  }

  /** In every run, with its failed calls, the log is ordered, every phase entry is justified
      by the log before it, and the machine's state is what the log says. */
  lemma {:induction false} RunsAreSound(ops: seq<Op>)
    ensures Sound(Execute(ops).state, Execute(ops).log)
  {
    if ops != [] {
      RunsAreSound(ops[..|ops| - 1]);
      ApplySound(Execute(ops[..|ops| - 1]).state, ops[|ops| - 1], Execute(ops[..|ops| - 1]).log);
    }
  }

  /** From `PendingFrom` on, the phase is unchanged and every evidence names the same target
      with the same dwell. */
  lemma {:induction false} PendingWindow(log: seq<Entry>, m: nat)
    requires log != [] && NamedAfter(log).Some?
    requires PendingFrom(log) <= m < |log|
    ensures PhaseAfter(log[..m + 1]) == PhaseAfter(log)
    ensures NamedAfter(log[..m + 1]) == NamedAfter(log)
    ensures m > PendingFrom(log) ==> log[m].Observed? && log[m].evidence.valid
  {
    var n := |log| - 1;
    if m == n {
      assert log[..m + 1] == log;
    } else {
      DwellDetermined(PhaseAfter(log), EvidenceAfter(log).value, EvidenceAfter(log[..n]).value);
      PendingWindow(log[..n], m);
      assert log[..n][..m + 1] == log[..m + 1];
    }
  }

  /** It goes back as far as that is true: the entry itself brought the phase or the target about. */
  lemma {:induction false} PendingIsEarliest(log: seq<Entry>)
    requires log != [] && NamedAfter(log).Some?
    ensures var k := PendingFrom(log);
            || log[k].Entered? || !log[k].evidence.valid
            || NamedAfter(log[..k]).None? || NamedAfter(log[..k]).value.0 != NamedAfter(log).value.0
  {
    var n := |log| - 1;
    if Continues(log) {
      PendingIsEarliest(log[..n]);
      assert log[..n][..PendingFrom(log)] == log[..PendingFrom(log)];
    }
  }

  /** In every run the candidate that the machine keeps is the target named now, and it starts at the
      earliest entry from which that target was named without a break. */
  lemma CandidateSince(ops: seq<Op>, m: nat)
    requires Execute(ops).state.candidate.Some?
    requires Execute(ops).log != [] && PendingFrom(Execute(ops).log) <= m < |Execute(ops).log|
    ensures var c, log := Execute(ops).state.candidate.value, Execute(ops).log;
            var k := PendingFrom(log);
            && c.start == log[k].at
            && NamedAfter(log[..m + 1]) == Some((c.target, c.dwell))
            && PhaseAfter(log[..m + 1]) == Execute(ops).state.phase
            && (m > k ==> log[m].Observed? && log[m].evidence.valid)
            && (|| log[k].Entered? || !log[k].evidence.valid
                || NamedAfter(log[..k]).None? || NamedAfter(log[..k]).value.0 != c.target)
  {
    RunsAreSound(ops);
    PendingWindow(Execute(ops).log, m);
    PendingIsEarliest(Execute(ops).log);
  }

  lemma EnteredChangesPhase(log: seq<Entry>, i: nat)
    requires i < |log| && log[i].Entered? && Justified(log, i)
    ensures log[i].to != log[i].from
    ensures log[i].to == Invalid || NamedAfter(log[..i]).value.1 >= 100_000_000
  {
    var e := EvidenceAfter(log[..i]).value;
    DwellDetermined(log[i].from, e, e);
  }

  /** From entry `k` to entry `i` the phase stood unchanged, no invalid evidence arrived,
      and every evidence in force named the target that `i` enters, with this dwell. */
  predicate Stood(log: seq<Entry>, k: nat, i: nat, dwell: int)
    requires k < i < |log| && log[i].Entered?
  {
    && (forall m {:trigger log[..m + 1]} :: k <= m < i ==>
          && PhaseAfter(log[..m + 1]) == log[i].from
          && NamedAfter(log[..m + 1]) == Some((log[i].to, dwell)))
    && (forall m :: k < m < i ==> log[m].Observed? && log[m].evidence.valid)
  }

  lemma JustifiedStood(log: seq<Entry>, i: nat) returns (k: nat, dwell: int)
    requires i < |log| && log[i].Entered? && Justified(log, i)
    ensures k < i && log[k].at + dwell == log[i].at
    ensures dwell == NamedAfter(log[..i]).value.1
    ensures Stood(log, k, i, dwell)
  {
    var before := log[..i];
    k, dwell := PendingFrom(before), NamedAfter(before).value.1;
    forall m | k <= m < i
      ensures PhaseAfter(log[..m + 1]) == log[i].from
      ensures NamedAfter(log[..m + 1]) == Some((log[i].to, dwell))
      ensures k < m ==> log[m].Observed? && log[m].evidence.valid
    {
      PendingWindow(before, m);
      assert before[..m + 1] == log[..m + 1];
    }
  }

  /** Hysteresis over whole runs. A phase is entered at time t only if some log entry lies
      exactly its dwell before t, and from that entry until t the phase stood unchanged, no
      invalid evidence arrived and every evidence in force named that same target. */
  lemma Hysteresis(ops: seq<Op>, i: nat) returns (k: nat, dwell: int)
    requires i < |Execute(ops).log| && Execute(ops).log[i].Entered?
    ensures k < i
    ensures var log := Execute(ops).log;
            && log[i].from != log[i].to
            && log[k].at + dwell == log[i].at
            && Stood(log, k, i, dwell)
            && (log[i].to != Invalid ==> dwell >= 100_000_000)
  {
    var log := Execute(ops).log;
    RunsAreSound(ops);
    assert Justified(log, i);
    EnteredChangesPhase(log, i);
    k, dwell := JustifiedStood(log, i);
  }

  /** An entry into a phase other than Invalid comes at least 100 ms after the entry,
      or the invalidation, that brought the machine into the phase it leaves. */
  lemma EntriesAreSpaced(ops: seq<Op>, i: nat, j: nat)
    requires i < j < |Execute(ops).log|
    requires Execute(ops).log[i].Entered? || !Execute(ops).log[i].evidence.valid
    requires Execute(ops).log[j].Entered? && Execute(ops).log[j].to != Invalid
    ensures Execute(ops).log[j].at - Execute(ops).log[i].at >= 100_000_000
  {
    var log := Execute(ops).log;
    RunsAreSound(ops);
    assert Justified(log, j);
    EnteredChangesPhase(log, j);
    var before := log[..j];
    var k := PendingFrom(before);
    if k < i {
      PendingWindow(before, i);
    }
    assert log[i].at <= log[k].at;
  }

  // ---- Polls do not matter ----

  /** The observations of a run, without its polls. */
  function OnlyObserves(ops: seq<Op>): seq<Op> {
    if ops == [] then []
    else if ops[|ops| - 1].DoAdvance? then OnlyObserves(ops[..|ops| - 1])
    else OnlyObserves(ops[..|ops| - 1]) + [ops[|ops| - 1]]
  }

  /** Every call of the run succeeds. */
  predicate Accepted(ops: seq<Op>) {
    ops != [] ==>
      && Accepted(ops[..|ops| - 1])
      && Apply(Execute(ops[..|ops| - 1]).state, ops[|ops| - 1]).error.None?
  }

  lemma ExecuteAppend(ops: seq<Op>, op: Op)
    ensures Execute(ops + [op]) == Step(Execute(ops), op)
  {
    assert (ops + [op])[..|ops|] == ops;
  }

  function TimeOf(op: Op): i64 {
    if op.DoAdvance? then op.at else op.evidence.availableAt
  }

  function Step(h: History, op: Op): History
    requires Coherent(h.state)
  {
    var o := Apply(h.state, op);
    History(o.state, h.log + o.entries)
  }

  /** A poll at `t` finds the same state, log and error in both histories. */
  predicate PolledAlike(h: History, bare: History, t: i64) {
    && Coherent(h.state) && Coherent(bare.state)
    && (h.state.now.Some? ==> h.state.now.value <= t)
    && (bare.state.now.Some? ==> bare.state.now.value <= t)
    && Step(h, DoAdvance(t)) == Step(bare, DoAdvance(t))
    && Advance(h.state, t).error == Advance(bare.state, t).error
  }

  lemma StepAlike(h: History, bare: History, op: Op, t: i64)
    requires PolledAlike(h, bare, TimeOf(op)) && TimeOf(op) <= t
    requires Apply(h.state, op).error.None?
    ensures PolledAlike(Step(h, op), if op.DoAdvance? then bare else Step(bare, op), t)
  {
    AcceptedTimes(h.state, op);
    ApplyCoherent(h.state, op);
    AdvanceCoherent(bare.state, TimeOf(op));
    match op {
      case DoAdvance(at) =>
        PollingThenPoll(bare, at, t);
      case DoObserve(e) =>
        ObserveFromPoll(h, e);
        ObserveFromPoll(bare, e);
        ObserveCoherent(bare.state, e);
    }
  }

  /** However a run of accepted calls was polled, a poll at any later time finds the same
      state, log and error as it does after the run of its observations alone. */
  lemma {:induction false} PollsDoNotMatter(ops: seq<Op>, t: i64)
    requires Accepted(ops)
    requires Execute(ops).state.now.Some? ==> Execute(ops).state.now.value <= t
    ensures PolledAlike(Execute(ops), Execute(OnlyObserves(ops)), t)
  {
    if ops != [] {
      var prior, op := ops[..|ops| - 1], ops[|ops| - 1];
      AcceptedTimes(Execute(prior).state, op);
      PollsDoNotMatter(prior, TimeOf(op));
      ExecuteAppend(OnlyObserves(prior), op);
      StepAlike(Execute(prior), Execute(OnlyObserves(prior)), op, t);
    }
  }

  lemma AcceptedTimes(s: State, op: Op)
    requires Coherent(s) && Apply(s, op).error.None?
    ensures s.now.Some? ==> s.now.value <= TimeOf(op)
    ensures Advance(s, TimeOf(op)).error.None?
    ensures Apply(s, op).state.now == Some(TimeOf(op))
  {
    AdvanceCoherent(s, TimeOf(op));
  }

  lemma PollingThenPoll(h: History, a: i64, t: i64)
    requires Coherent(h.state) && a <= t
    requires h.state.now.Some? ==> h.state.now.value <= a
    requires Advance(h.state, a).error.None?
    ensures Coherent(Advance(h.state, a).state)
    ensures var first, whole := Advance(h.state, a), Advance(h.state, t);
            var second := Advance(first.state, t);
            && whole.state == second.state && whole.error == second.error
            && h.log + whole.entries == h.log + first.entries + second.entries
  {
    PollingGranularity(h.state, a, t);
    var first := Advance(h.state, a);
    var second := Advance(first.state, t);
    assert h.log + (first.entries + second.entries) == h.log + first.entries + second.entries;
  }

  lemma ObserveFromPoll(h: History, e: Evidence)
    requires Coherent(h.state)
    requires h.state.now.Some? ==> h.state.now.value <= e.availableAt
    requires InDomain(e) && Advance(h.state, e.availableAt).error.None?
    ensures var a, o := Advance(h.state, e.availableAt), Observe(h.state, e);
            var seen := a.state.(evidence := Some(e));
            && o.state == (if e.valid then Refresh(seen, e.availableAt) else seen.(phase := Invalid, candidate := None))
            && h.log + o.entries == h.log + a.entries + [Observed(e.availableAt, e)]
            && o.error.None?
  {
    var a := Advance(h.state, e.availableAt);
    assert h.log + (a.entries + [Observed(e.availableAt, e)]) == h.log + a.entries + [Observed(e.availableAt, e)];
  }

  // ---- A machine that is stuck ----

  /** Evidence of all families at the last instant of the clock. */
  const AtTheEnd := Evidence(I64_MAX, FamilyFlags(true, true, true, true, true), SCALE, SCALE, 0, true, true, 0)

  /** It is observed without an error, and then every call fails and changes nothing: the dwell that it
      starts ends beyond the clock's range. */
  lemma ObservedAtTheEnd(ops: seq<Op>, op: Op)
    requires ops == [DoObserve(AtTheEnd)]
    ensures Apply(Initial, DoObserve(AtTheEnd)).error.None?
    ensures var s := Execute(ops).state;
            && s.now == Some(I64_MAX) && Beyond(s, I64_MAX)
            && Apply(s, op).error.Some? && Apply(s, op).state == s
  {
    assert ops[..0] == [] && Execute([]) == History(Initial, []);
    assert InDomain(AtTheEnd) && Transition(Normal, AtTheEnd) == Some((Ignition, 100_000_000));
    var s := Execute(ops).state;
    var ignition := Candidate(Ignition, I64_MAX, 100_000_000);
    assert s == Observe(Initial, AtTheEnd).state == State(Normal, Some(AtTheEnd), Some(ignition), Some(I64_MAX));
    assert Advance(s, I64_MAX) == Outcome(s, Some(ScoreDomain), []);
    var later, e := if op.DoAdvance? then op.at else 0, if op.DoObserve? then op.evidence else AtTheEnd;
    OverflowIsAbsorbing(s, I64_MAX, later, e);
  }
}
