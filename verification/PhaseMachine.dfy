/** The phase machine as the object that owns the phase, evidence, candidate and clock. */
module PhaseMachine {
  import opened Common
  import opened PhaseModel

  /** Draining `s` to `at` ends as `goal` does. */
  predicate DrainsTo(s: State, at: i64, goal: Outcome) {
    && Pending(s) && s.now.value <= at
    && Drain(s, at).state == goal.state && Drain(s, at).error == goal.error
  }

  lemma FiredDrains(s: State, at: i64)
    requires Pending(s) && s.now.value <= at && PhaseModel.Fires(s, at)
    ensures DrainsTo(Fired(s, at), at, Drain(s, at))
    ensures Fired(s, at).now.value > s.now.value || (Fired(s, at).phase == Invalid && s.phase != Invalid)
  {
    DrainFires(s, at);
  }

  datatype Turn = Fires | Stays | Fails

  /** What a turn may do to the state, given the drain it is part of. */
  predicate TurnTaken(s: State, at: i64, turn: Turn, s': State) {
    if s.now.None? then turn == Stays && s' == s
    else
      && Pending(s) && s.now.value <= at
      && (turn == Fires <==> PhaseModel.Fires(s, at))
      && match turn
         case Fires => s' == Fired(s, at)
         case Stays => s' == Refresh(s, s.now.value)
             && Drain(s, at) == Outcome(Refresh(s'.(now := Some(at)), at), None, [])
         case Fails => Drain(s, at) == Outcome(s', Some(ScoreDomain), [])
  }

  class Machine {
    var phase: Phase
    var evidence: Option<Evidence>
    var candidate: Option<Candidate>
    var now: Option<i64>

    function View(): State
      reads this
    {
      State(phase, evidence, candidate, now)
    }

    predicate Valid()
      reads this
    {
      Coherent(View())
    }

    constructor ()
      ensures Valid() && View() == Initial
    {
      phase, evidence, candidate, now := Normal, None, None, None;
    }

    method RefreshCandidate(at: i64)
      modifies this
      ensures View() == Refresh(old(View()), at)
    {
      if evidence.None? { return; }
      match Transition(phase, evidence.value) {
        case None =>
          candidate := None;
        case Some((target, dwell)) =>
          if !(candidate.Some? && candidate.value.target == target) {
            candidate := Some(Candidate(target, at, dwell));
          }
      }
    }

    /** One turn of the loop: makes a due transition, fails, or stays. */
    method TakeTurn(at: i64) returns (turn: Turn)
      requires if now.Some? then Pending(View()) && now.value <= at else View() == Initial
      modifies this
      ensures TurnTaken(old(View()), at, turn, View())
    {
      RefreshCandidate(if now.Some? then now.value else at);
      if candidate.None? {
        return Stays;
      }
      var deadline := candidate.value.start + candidate.value.dwell;
      if deadline > I64_MAX {
        return Fails;
      }
      if deadline > at {
        return Stays;
      }
      now := Some(deadline);
      phase := candidate.value.target;
      candidate := None;
      return Fires;
    }

    /** Terminates because each turn either leaves less time or leaves for Invalid. */
    method AdvanceTo(at: i64) returns (r: Result<(), PhaseError>)
      requires Valid()
      modifies this
      ensures Valid()
      ensures View() == Advance(old(View()), at).state
      ensures r == match Advance(old(View()), at).error
                   case None => Ok(())
                   case Some(e) => Err(e)
    {
      AdvanceCoherent(View(), at);
      if now.Some? && at < now.value {
        return Err(TimeRegression);
      }
      ghost var goal := Advance(View(), at);
      while true
        invariant if now.None? then View() == old(View()) == Initial else DrainsTo(View(), at, goal)
        decreases if now.Some? then at - now.value else 0, if phase == Invalid then 0 else 1
      {
        ghost var before := View();
        var turn := TakeTurn(at);
        if turn == Fails {
          return Err(ScoreDomain);
        }
        if turn == Stays {
          break;
        }
        FiredDrains(before, at);
      }
      now := Some(at);
      RefreshCandidate(at);
      r := Ok(());
    }

    method Observe(e: Evidence) returns (r: Result<(), PhaseError>)
      requires Valid()
      modifies this
      ensures Valid()
      ensures View() == PhaseModel.Observe(old(View()), e).state
      ensures r == match PhaseModel.Observe(old(View()), e).error
                   case None => Ok(())
                   case Some(error) => Err(error)
    {
      ObserveCoherent(View(), e);
      if now.Some? && e.availableAt < now.value {
        return Err(TimeRegression);
      }
      if !InDomain(e) {
        return Err(ScoreDomain);
      }
      r := AdvanceTo(e.availableAt);
      if r.Err? {
        return;
      }
      evidence := Some(e);
      if !e.valid {
        phase := Invalid;
        candidate := None;
        return Ok(());
      }
      RefreshCandidate(e.availableAt);
    }
  }
}
