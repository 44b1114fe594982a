/** How often a session is returned: in order always, and once exactly when no finished session is
    taken up again. */
module ProfileSessions {
  import opened Common
  import opened Grid
  import opened ProfileBatch
  import opened ProfileModel
  import opened ProfileRefusals
  import opened ProfileRuns

  /** Returned sessions come in order, last the current one; each lasts one session length. */
  predicate InOrder(c: Config, h: History) {
    && (forall i, j :: 0 <= i < j < |h.emitted| ==> h.emitted[i].0.start <= h.emitted[j].0.start)
    && (forall i :: 0 <= i < |h.emitted| ==> h.emitted[i].0.end == h.emitted[i].0.start + c.time.session)
    && (h.builder.session.Some? ==>
          forall i :: 0 <= i < |h.emitted| ==> h.emitted[i].0.start <= h.builder.session.value)
  }

  /** No session is returned twice, or current after it was returned. */
  predicate EachOnce(h: History) {
    && (forall i, j :: 0 <= i < j < |h.emitted| ==> h.emitted[i].0.start < h.emitted[j].0.start)
    && (h.builder.session.Some? ==>
          forall i :: 0 <= i < |h.emitted| ==> h.emitted[i].0.start < h.builder.session.value)
  }

  /** A trade is accepted while idle, from before the end of the session returned last. */
  predicate Resumes(c: Config, h: History, op: Op)
    requires c.Valid()
  {
    && op.DoIngest? && Apply(h.builder, c, op).1.Ok? && h.builder.session.None?
    && h.emitted != [] && op.at < h.emitted[|h.emitted| - 1].0.end
  }

  /** A trade that is not late is not of an earlier session than a returned one; it is of the same
      session exactly when it is before that session's end. */
  lemma NotBefore(c: Config, h: History, t: Trade, i: nat)
    requires c.Valid() && Owned(c, h) && Timely(c, h, t) && i < |h.emitted|
    ensures h.emitted[i].0.start <= t.session
    ensures h.emitted[i].0.start == t.session <==> t.at < h.emitted[i].0.start + c.time.session
  {
    var first := h.emitted[i].1[0];
    PeriodsAreMonotone(first.at, t.at, c.time.anchor, c.time.session);
    PeriodHolds(t.at, c.time.anchor, c.time.session);
  }

  lemma OrderAfterStart(c: Config, h: History, h': History, t: Trade)
    requires c.Valid() && Owned(c, h) && InOrder(c, h) && Timely(c, h, t) && Starts(h, h', t)
    ensures InOrder(c, h')
    ensures EachOnce(h') <==> EachOnce(h) && (h.emitted != [] ==> t.at >= h.emitted[|h.emitted| - 1].0.end)
  {
    forall i | 0 <= i < |h.emitted| ensures h.emitted[i].0.start <= t.session { NotBefore(c, h, t, i); }
    if h.emitted != [] {
      var n := |h.emitted| - 1;
      NotBefore(c, h, t, n);
      assert forall i :: 0 <= i < |h.emitted| ==> h.emitted[i].0.start <= h.emitted[n].0.start;
    }
  }

  lemma OrderAfterReturn(c: Config, h: History, h': History, r: Profile)
    requires InOrder(c, h) && h.builder.session == Some(r.start) && r.end == r.start + c.time.session
    requires h'.emitted == h.emitted + [(r, h.current)]
    requires h'.builder.session.Some? ==> r.start < h'.builder.session.value
    ensures InOrder(c, h') && (EachOnce(h') <==> EachOnce(h))
  {
    assert h'.emitted[|h.emitted|] == (r, h.current);
    assert forall i :: 0 <= i < |h.emitted| ==> h'.emitted[i] == h.emitted[i];
  }

  lemma OrderAfterOther(c: Config, h: History, h': History)
    requires InOrder(c, h) && h'.emitted == h.emitted && h'.builder.session == h.builder.session
    ensures InOrder(c, h') && (EachOnce(h') <==> EachOnce(h))
  {
  }

  lemma IngestStep(c: Config, h: History, op: Op)
    requires c.Valid() && Owned(c, h) && InOrder(c, h) && op.DoIngest? && Apply(h.builder, c, op).1.Ok?
    ensures InOrder(c, Next(c, h, op))
    ensures EachOnce(Next(c, h, op)) <==> EachOnce(h) && !Resumes(c, h, op)
  {
    var h' := Next(c, h, op);
    var t, rs := IngestKinds(c, h, op);
    if rs != [] {
      SnapshotStart(h.builder, c, rs[0]);
      OrderAfterReturn(c, h, h', rs[0]);
    } else if h.builder.session.None? {
      OrderAfterStart(c, h, h', t);
    } else {
      OrderAfterOther(c, h, h');
    }
  }

  lemma OtherStep(c: Config, h: History, op: Op)
    requires c.Valid() && Tidy(h.builder) && InOrder(c, h) && (op.DoIngest? ==> Apply(h.builder, c, op).1.Err?)
    ensures InOrder(c, Next(c, h, op))
    ensures EachOnce(Next(c, h, op)) <==> EachOnce(h)
  {
    var h' := Next(c, h, op);
    if Apply(h.builder, c, op).1.Err? {
      FailureLeaves(h.builder, c, op);
      OrderAfterOther(c, h, h');
    } else {
      var rs, _ := OtherKinds(c, h, op);
      if rs == [] {
        OrderAfterOther(c, h, h');
      } else {
        SnapshotStart(h.builder, c, rs[0]);
        OrderAfterReturn(c, h, h', rs[0]);
      }
    }
  }

  /** No call of the run takes up a returned session again. */
  predicate NeverResumes(c: Config, ops: seq<Op>)
    requires c.Valid()
  {
    ops != [] ==>
      && NeverResumes(c, ops[..|ops| - 1])
      && !Resumes(c, Execute(c, ops[..|ops| - 1]), ops[|ops| - 1])
  }

  /** In every run sessions are returned in order, and each once exactly when no trade is accepted
      from before the end of a session that has been returned. */
  lemma {:induction false} OnceExactly(c: Config, ops: seq<Op>)
    requires c.Valid()
    ensures InOrder(c, Execute(c, ops))
    ensures EachOnce(Execute(c, ops)) <==> NeverResumes(c, ops)
  {
    if ops != [] {
      var prior, op := ops[..|ops| - 1], ops[|ops| - 1];
      var h := Execute(c, prior);
      OnceExactly(c, prior);
      RunsAreSettled(c, prior);
      if op.DoIngest? && Apply(h.builder, c, op).1.Ok? { IngestStep(c, h, op); } else { OtherStep(c, h, op); }
    }
  }

  // ---- Without finish ----

  /** While idle, the clock is past the session returned last. */
  predicate IdleIsPast(h: History) {
    h.builder.session.None? && h.emitted != [] ==>
      h.builder.last.Some? && h.emitted[|h.emitted| - 1].0.end <= h.builder.last.value
  }

  lemma IdleIsPastKept(c: Config, h: History, op: Op)
    requires c.Valid() && Tidy(h.builder) && IdleIsPast(h) && !op.DoFinish?
    ensures IdleIsPast(Next(c, h, op))
    ensures !Resumes(c, h, op)
  {
    if Apply(h.builder, c, op).1.Err? {
      FailureLeaves(h.builder, c, op);
    } else if op.DoIngest? {
      TradeIsPast(c, h, op);
    } else {
      AdvanceIsPast(c, h, op);
    }
  }

  /** A trade leaves no session idle, and starts none that was returned. */
  lemma TradeIsPast(c: Config, h: History, op: Op)
    requires c.Valid() && IdleIsPast(h) && op.DoIngest? && Apply(h.builder, c, op).1.Ok?
    ensures IdleIsPast(Next(c, h, op)) && !Resumes(c, h, op)
  {
    var _, _ := IngestKinds(c, h, op);
  }

  lemma AdvanceIsPast(c: Config, h: History, op: Op)
    requires c.Valid() && IdleIsPast(h) && op.DoAdvance? && Apply(h.builder, c, op).1.Ok?
    ensures IdleIsPast(Next(c, h, op))
  {
    var rs, _ := OtherKinds(c, h, op);
    if rs != [] { SnapshotStart(h.builder, c, rs[0]); }
  }

  /** Without a finish every session is returned once. */
  lemma {:induction false} WithoutFinish(c: Config, ops: seq<Op>)
    requires c.Valid() && forall i :: 0 <= i < |ops| ==> !ops[i].DoFinish?
    ensures NeverResumes(c, ops) && IdleIsPast(Execute(c, ops)) && EachOnce(Execute(c, ops))
  {
    if ops != [] {
      var prior := ops[..|ops| - 1];
      WithoutFinish(c, prior);
      RunsAreSettled(c, prior);
      IdleIsPastKept(c, Execute(c, prior), ops[|ops| - 1]);
    }
    OnceExactly(c, ops);
  }

  // ---- All trades of a session ----

  /** The trades of one session, in order. */
  function InSession(ts: seq<Trade>, session: int): seq<Trade> {
    if ts == [] then []
    else InSession(ts[..|ts| - 1], session) + if ts[|ts| - 1].session == session then [ts[|ts| - 1]] else []
  }

  lemma {:induction false} InSessionConcat(a: seq<Trade>, b: seq<Trade>, session: int)
    ensures InSession(a + b, session) == InSession(a, session) + InSession(b, session)
  {
    if b == [] {
      assert a + b == a;
    } else {
      assert (a + b)[..|a + b| - 1] == a + b[..|b| - 1];
      InSessionConcat(a, b[..|b| - 1], session);
    }
  }

  lemma {:induction false} AllOrNone(ts: seq<Trade>, own: int, session: int)
    requires forall i :: 0 <= i < |ts| ==> ts[i].session == own
    ensures InSession(ts, session) == if own == session then ts else []
  {
    if ts != [] {
      AllOrNone(ts[..|ts| - 1], own, session);
      assert ts == ts[..|ts| - 1] + [ts[|ts| - 1]];
    }
  }

  /** Each list of trades is of the session of its profile, and sessions differ. */
  predicate OfOwnSessions(es: seq<(Profile, seq<Trade>)>) {
    && (forall i, j :: 0 <= i < j < |es| ==> es[i].0.start < es[j].0.start)
    && (forall i, k :: 0 <= i < |es| && 0 <= k < |es[i].1| ==> es[i].1[k].session == es[i].0.start)
  }

  lemma {:induction false} NoneInEarlier(es: seq<(Profile, seq<Trade>)>, session: int)
    requires OfOwnSessions(es) && forall i :: 0 <= i < |es| ==> es[i].0.start != session
    ensures InSession(AllOf(es), session) == []
  {
    if es != [] {
      var n := |es| - 1;
      NoneInEarlier(es[..n], session);
      InSessionConcat(AllOf(es[..n]), es[n].1, session);
      AllOrNone(es[n].1, es[n].0.start, session);
    }
  }

  lemma {:induction false} OnlyInOwn(es: seq<(Profile, seq<Trade>)>, i: nat)
    requires OfOwnSessions(es) && i < |es|
    ensures InSession(AllOf(es), es[i].0.start) == es[i].1
  {
    var n := |es| - 1;
    InSessionConcat(AllOf(es[..n]), es[n].1, es[i].0.start);
    AllOrNone(es[n].1, es[n].0.start, es[i].0.start);
    if i < n {
      OnlyInOwn(es[..n], i);
    } else {
      NoneInEarlier(es[..n], es[i].0.start);
    }
  }

  /** Unless a returned session is taken up again, each profile is that of all accepted trades of its
      session, over the whole run. */
  lemma WholeSessions(c: Config, ops: seq<Op>, i: nat)
    requires c.Valid() && NeverResumes(c, ops) && i < |Execute(c, ops).emitted|
    ensures var r := Execute(c, ops).emitted[i].0; IsProfileOf(c, InSession(Accepted(c, ops), r.start), r)
  {
    var h := Execute(c, ops);
    var start := h.emitted[i].0.start;
    OnceExactly(c, ops);
    RunsAreSettled(c, ops);
    ProfilesAreExact(c, ops, i);
    TradesAreShared(c, ops);
    InSessionConcat(AllOf(h.emitted), h.current, start);
    OnlyInOwn(h.emitted, i);
    if h.builder.session.Some? { AllOrNone(h.current, h.builder.session.value, start); }
    assert InSession(h.current, start) == [] && h.emitted[i].1 + [] == h.emitted[i].1;
  }
}
