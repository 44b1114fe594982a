/** The gauge of valid books: how many instruments have a valid book in some session, kept by
    reference counts. */
module ValidBooks {
  import opened Common
  import opened Ordering

  type Session = int
  type Instrument = int
  type Pair = (Session, Instrument)

  // ---- What is counted ----

  function Holders(pairs: set<Pair>, i: Instrument): set<Session> {
    set p | p in pairs && p.1 == i :: p.0
  }

  function Instruments(pairs: set<Pair>): set<Instrument> {
    set p | p in pairs :: p.1
  }

  /** For each held instrument the number of sessions that hold it. */
  function References(pairs: set<Pair>): map<Instrument, int> {
    map i | i in Instruments(pairs) :: |Holders(pairs, i)|
  }

  lemma HeldIffHolders(pairs: set<Pair>, i: Instrument)
    ensures i in Instruments(pairs) <==> Holders(pairs, i) != {}
  {
    if i in Instruments(pairs) {
      var p :| p in pairs && p.1 == i;
      assert p.0 in Holders(pairs, i);
    } else {
      assert Holders(pairs, i) == {};
    }
  }

  lemma ReferenceCount(pairs: set<Pair>, i: Instrument)
    ensures Get(References(pairs), i) == |Holders(pairs, i)|
  {
    HeldIffHolders(pairs, i);
  }

  lemma HoldersAdd(pairs: set<Pair>, s: Session, i: Instrument, j: Instrument)
    ensures Holders(pairs + {(s, i)}, j) == Holders(pairs, j) + if i == j then {s} else {}
  {
    var more := pairs + {(s, i)};
    forall x | x in Holders(pairs, j) ensures x in Holders(more, j) {
      assert (x, j) in more;
    }
    if i == j { assert (s, i) in more; }
  }

  lemma HoldersRemove(pairs: set<Pair>, s: Session, i: Instrument, j: Instrument)
    ensures Holders(pairs - {(s, i)}, j) == Holders(pairs, j) - if i == j then {s} else {}
  {
    var less := pairs - {(s, i)};
    forall x | x in Holders(pairs, j) && !(i == j && x == s) ensures x in Holders(less, j) {
      assert (x, j) in less;
    }
  }

  lemma InstrumentsAdd(pairs: set<Pair>, s: Session, i: Instrument)
    ensures Instruments(pairs + {(s, i)}) == Instruments(pairs) + {i}
  {
    var more := pairs + {(s, i)};
    forall x | x in Instruments(pairs) + {i} ensures x in Instruments(more) {
      if x == i {
        assert (s, i) in more;
      } else {
        var p :| p in pairs && p.1 == x;
        assert p in more;
      }
    }
  }

  lemma HoldersUp(pairs: set<Pair>, s: Session, i: Instrument)
    requires (s, i) !in pairs
    ensures |Holders(pairs + {(s, i)}, i)| == |Holders(pairs, i)| + 1
  {
    HoldersAdd(pairs, s, i, i);
    forall p | p in pairs && p.1 == i ensures p.0 != s {
      assert p == (p.0, i);
    }
    assert s !in Holders(pairs, i);
  }

  lemma HoldersOther(pairs: set<Pair>, s: Session, i: Instrument, j: Instrument)
    ensures j != i ==> Holders(pairs + {(s, i)}, j) == Holders(pairs, j)
  {
    HoldersAdd(pairs, s, i, j);
  }

  /** A new holder adds one to its instrument's count. */
  lemma CountUp(pairs: set<Pair>, s: Session, i: Instrument)
    requires (s, i) !in pairs
    ensures References(pairs + {(s, i)}) == References(pairs)[i := Get(References(pairs), i) + 1]
  {
    var more := pairs + {(s, i)};
    InstrumentsAdd(pairs, s, i);
    HoldersUp(pairs, s, i);
    ReferenceCount(pairs, i);
    forall j | j in Instruments(more)
      ensures References(more)[j] == (if j == i then Get(References(pairs), i) + 1 else References(pairs)[j])
    {
      HoldersOther(pairs, s, i, j);
    }
  }

  lemma InstrumentsRemove(pairs: set<Pair>, s: Session, i: Instrument)
    ensures Instruments(pairs - {(s, i)})
         == if Holders(pairs, i) <= {s} then Instruments(pairs) - {i} else Instruments(pairs)
  {
    var less := pairs - {(s, i)};
    forall x ensures x in Instruments(less) <==> x in Instruments(pairs) && !(x == i && Holders(pairs, i) <= {s}) {
      HeldIffHolders(less, x);
      HeldIffHolders(pairs, x);
      HoldersRemove(pairs, s, i, x);
      if x != i {
        assert Holders(pairs, x) - {} == Holders(pairs, x);
      } else if Holders(pairs, i) <= {s} {
        assert Holders(less, i) == {};
      }
    }
  }

  /** The count after one reference less, dropping the entry at zero. */
  function Decremented(m: map<Instrument, int>, i: Instrument): map<Instrument, int> {
    if i !in m then m else if m[i] == 1 then m - {i} else m[i := m[i] - 1]
  }

  lemma CountDown(pairs: set<Pair>, s: Session, i: Instrument)
    requires (s, i) in pairs
    ensures Get(References(pairs), i) > 0
    ensures References(pairs - {(s, i)}) == Decremented(References(pairs), i)
  {
    var less := pairs - {(s, i)};
    assert s in Holders(pairs, i);
    ReferenceCount(pairs, i);
    InstrumentsRemove(pairs, s, i);
    HoldersRemove(pairs, s, i, i);
    OnlyHolder(Holders(pairs, i), s);
    forall j | j in Instruments(pairs) && j != i ensures |Holders(less, j)| == |Holders(pairs, j)| {
      HoldersRemove(pairs, s, i, j);
      assert Holders(pairs, j) - {} == Holders(pairs, j);
    }
  }

  lemma OnlyHolder(holders: set<Session>, s: Session)
    requires s in holders
    ensures |holders - {s}| == |holders| - 1
    ensures |holders| == 1 <==> holders <= {s}
  {
    if |holders| == 1 {
      assert holders - {s} == {};
    }
    if holders <= {s} {
      assert holders == {s};
    }
  }

  // ---- The object ----

  function PairsOf(bySession: map<Session, set<Instrument>>): set<Pair> {
    set s, i | s in bySession && i in bySession[s] :: (s, i)
  }

  class Books {
    var bySession: map<Session, set<Instrument>>
    var references: map<Instrument, int>
    /** The published gauge. */
    var gauge: int

    function Pairs(): set<Pair>
      reads this
    {
      PairsOf(bySession)
    }

    predicate Valid()
      reads this
    {
      && references == References(Pairs())
      && gauge == |Instruments(Pairs())|
      && (forall s :: s in bySession ==> bySession[s] != {})
    }

    constructor ()
      ensures Valid() && Pairs() == {}
    {
      bySession, references, gauge := map[], map[], 0;
      new;
      assert Pairs() == {} && Instruments({}) == {};
    }

    method UniqueCount() returns (n: nat)
      requires references == References(Pairs())
      ensures n == |Instruments(Pairs())|
    {
      n := |references|;
      assert references.Keys == Instruments(Pairs());
    }

    /** A session's book became valid. */
    method Resynchronized(s: Session, i: Instrument)
      requires Valid()
      modifies this
      ensures Valid() && Pairs() == old(Pairs()) + {(s, i)}
    {
      var books := if s in bySession then bySession[s] else {};
      AddPair(bySession, s, i);
      if i !in books {
        CountUp(Pairs(), s, i);
        references := references[i := Get(references, i) + 1];
      } else {
        assert Pairs() + {(s, i)} == Pairs();
      }
      bySession := bySession[s := books + {i}];
      gauge := UniqueCount();
    }

    method DecrementReference(i: Instrument)
      requires i in references ==> references[i] > 0
      modifies `references
      ensures references == Decremented(old(references), i)
    {
      if i in references {
        references := references[i := references[i] - 1];
        if references[i] == 0 {
          references := references - {i};
        }
      }
    }

    /** A session's book became invalid. */
    method Invalidated(s: Session, i: Instrument)
      requires Valid()
      modifies this
      ensures Valid() && Pairs() == old(Pairs()) - {(s, i)}
    {
      if s in bySession && i in bySession[s] {
        RemovePair(bySession, s, i);
        CountDown(Pairs(), s, i);
        DecrementReference(i);
        bySession := bySession[s := bySession[s] - {i}];
      } else {
        assert Pairs() - {(s, i)} == Pairs();
      }
      if s in bySession && bySession[s] == {} {
        ghost var before := Pairs();
        bySession := bySession - {s};
        assert Pairs() == before;
      }
      gauge := UniqueCount();
    }

    /** A session was lost: every book that it held is gone. */
    method ClearSession(s: Session)
      requires Valid()
      modifies this
      ensures Valid() && Pairs() == Without(old(Pairs()), s)
    {
      if s in bySession {
        var todo := bySession[s];
        ghost var pairs := Pairs();
        assert forall i :: i in todo ==> (s, i) in pairs;
        while todo != {}
          invariant references == References(pairs)
          invariant forall i :: i in todo ==> (s, i) in pairs
          invariant forall p :: p in pairs && p.0 == s ==> p.1 in todo
          invariant Without(pairs, s) == Without(old(Pairs()), s)
          invariant bySession == old(bySession)
          decreases todo
        {
          var i := Least(todo);
          CountDown(pairs, s, i);
          DecrementReference(i);
          pairs := pairs - {(s, i)};
          todo := todo - {i};
        }
        bySession := bySession - {s};
        assert Pairs() == Without(old(Pairs()), s);
        assert pairs == Without(pairs, s);
      } else {
        assert Pairs() == Without(Pairs(), s);
      }
      gauge := UniqueCount();
    }
  }

  function Without(pairs: set<Pair>, s: Session): set<Pair> {
    set p | p in pairs && p.0 != s
  }

  lemma AddPair(bySession: map<Session, set<Instrument>>, s: Session, i: Instrument)
    ensures PairsOf(bySession[s := (if s in bySession then bySession[s] else {}) + {i}])
         == PairsOf(bySession) + {(s, i)}
  {
  }

  lemma RemovePair(bySession: map<Session, set<Instrument>>, s: Session, i: Instrument)
    requires s in bySession
    ensures PairsOf(bySession[s := bySession[s] - {i}]) == PairsOf(bySession) - {(s, i)}
  {
  }

  // ---- Whole runs ----

  datatype Event =
    | Resync(session: Session, instrument: Instrument)
    | Invalidate(session: Session, instrument: Instrument)
    | Clear(session: Session)

  /** The books held after a run of events. */
  function Held(events: seq<Event>): set<Pair> {
    if events == [] then {}
    else
      var before := Held(events[..|events| - 1]);
      match events[|events| - 1]
      case Resync(s, i) => before + {(s, i)}
      case Invalidate(s, i) => before - {(s, i)}
      case Clear(s) => Without(before, s)
  }

  predicate Ends(e: Event, s: Session, i: Instrument) {
    e == Invalidate(s, i) || e == Clear(s)
  }

  /** The session's book was made valid at some point and nothing ended it since. */
  predicate StillValid(events: seq<Event>, s: Session, i: Instrument) {
    exists k :: 0 <= k < |events| && events[k] == Resync(s, i)
      && forall j :: k < j < |events| ==> !Ends(events[j], s, i)
  }

  /** A book is held exactly when the last event about it in its session made it valid. */
  lemma {:induction false} HeldIffStillValid(events: seq<Event>, s: Session, i: Instrument)
    ensures (s, i) in Held(events) <==> StillValid(events, s, i)
  {
    if events != [] {
      var prior, e := events[..|events| - 1], events[|events| - 1];
      HeldIffStillValid(prior, s, i);
      if e == Resync(s, i) {
        assert events[|events| - 1] == Resync(s, i);
      } else if Ends(e, s, i) {
        assert !StillValid(events, s, i);
      } else {
        if StillValid(prior, s, i) {
          var k :| 0 <= k < |prior| && prior[k] == Resync(s, i)
                   && forall j :: k < j < |prior| ==> !Ends(prior[j], s, i);
          assert events[k] == Resync(s, i);
        }
        if StillValid(events, s, i) {
          var k :| 0 <= k < |events| && events[k] == Resync(s, i)
                   && forall j :: k < j < |events| ==> !Ends(events[j], s, i);
          assert prior[k] == Resync(s, i);
          assert forall j :: k < j < |prior| ==> !Ends(prior[j], s, i) by {
            assert forall j :: k < j < |prior| ==> prior[j] == events[j];
          }
        }
      }
    }
  }

  /** Driving the object with a run of events: the gauge is the number of instruments with a valid
      book in some session, and each count the number of those sessions. */
  method Observe(events: seq<Event>) returns (gauge: int, references: map<Instrument, int>)
    ensures gauge == |Instruments(Held(events))|
    ensures references == References(Held(events))
  {
    var books := new Books();
    for n := 0 to |events|
      invariant fresh(books) && books.Valid() && books.Pairs() == Held(events[..n])
    {
      assert events[..n + 1][..n] == events[..n];
      match events[n] {
        case Resync(s, i) => books.Resynchronized(s, i);
        case Invalidate(s, i) => books.Invalidated(s, i);
        case Clear(s) => books.ClearSession(s);
      }
    }
    assert events[..|events|] == events;
    gauge, references := books.gauge, books.references;
  }
}
