/** Producers, one worker and shutdown around a mailbox, in any interleaving: where every accepted
    item ends up. */
module SinkProtocol {
  import opened Common
  import opened SinkMailbox

  /** Items are numbered in the order in which they were accepted. */
  type Item = nat

  datatype Worker = Idle | Holding(item: Item) | Gone

  /** The mailbox, the worker, and what has become of the items so far. */
  datatype World = World(
    mail: Mail<Item>, worker: Worker, accepted: nat,
    handed: seq<Item>, evicted: seq<Item>, discarded: seq<Item>)

  const Start := World(Mail([], false, 0), Idle, 0, [], [], [])

  /** The atomic steps: any producer pushes, the worker takes its turn or reports the sink's
      answer, anyone closes. */
  datatype Action = Push | Take | Report(failed: bool) | Close

  function Step(w: World, capacity: nat, policy: Policy, a: Action): World
    requires 0 < capacity
  {
    match a
    case Push =>
      var (m, r) := Pushed(w.mail, capacity, policy, w.accepted);
      if r == Ok(Accepted) then w.(mail := m, accepted := w.accepted + 1)
      else if r.Ok? && r.value.DroppedOldest? then
        w.(mail := m, accepted := w.accepted + 1, evicted := w.evicted + [w.mail.items[0]])
      else w
    case Take =>
      if w.worker != Idle then w
      else
        var (m, r) := Popping(w.mail);
        (match r
         case Took(item) => w.(mail := m, worker := Holding(item), handed := w.handed + [item])
         case Ended => w.(worker := Gone)
         case Waits => w)
    case Report(failed) =>
      if !w.worker.Holding? || w.mail.inFlight == 0 then w
      else
        var (m, n) := Finished(w.mail, failed);
        w.(mail := m, worker := if failed then Gone else Idle,
           discarded := if failed then w.discarded + w.mail.items else w.discarded)
    case Close => w.(mail := w.mail.(closed := true))
  }

  function Run(capacity: nat, policy: Policy, actions: seq<Action>): World
    requires 0 < capacity
  {
    if actions == [] then Start
    else Step(Run(capacity, policy, actions[..|actions| - 1]), capacity, policy, actions[|actions| - 1])
  }

  predicate Ascending(s: seq<Item>) {
    forall i, j :: 0 <= i < j < |s| ==> s[i] < s[j]
  }

  /** The mailbox and its worker agree. */
  predicate Coherent(w: World, capacity: nat) {
    && |w.mail.items| <= capacity
    && w.mail.inFlight == (if w.worker.Holding? then 1 else 0)
    && (w.worker.Holding? ==> w.handed != [] && w.handed[|w.handed| - 1] == w.worker.item)
    && (w.worker == Gone ==> w.mail.closed && w.mail.items == [])
  }

  /** The sink sees items in the order of acceptance, and the queue continues it. */
  predicate InOrder(w: World) {
    && Ascending(w.handed + w.mail.items)
    && (forall x :: x in w.handed + w.mail.items ==> x < w.accepted)
  }

  function Times(s: seq<Item>, x: Item): nat {
    multiset(s)[x]
  }

  /** Every accepted item was handed to the sink, waits, was evicted or was discarded: each once,
      and nothing else was. */
  ghost predicate Accounted(w: World) {
    forall x: Item :: Times(w.handed, x) + Times(w.mail.items, x) + Times(w.evicted, x) + Times(w.discarded, x)
             == if x < w.accepted then 1 else 0
  }

  lemma CoherentStep(w: World, capacity: nat, policy: Policy, a: Action)
    requires 0 < capacity && Coherent(w, capacity)
    ensures Coherent(Step(w, capacity, policy, a), capacity)
  {
  }

  lemma AppendAscending(s: seq<Item>, x: Item)
    requires Ascending(s) && (forall y :: y in s ==> y < x)
    ensures Ascending(s + [x])
  {
    forall i | 0 <= i < |s| ensures s[i] < x { assert s[i] in s; }
  }

  lemma DropOne(s: seq<Item>, i: nat)
    requires i < |s| && Ascending(s)
    ensures Ascending(s[..i] + s[i + 1..])
  {
    var t := s[..i] + s[i + 1..];
    forall a, b | 0 <= a < b < |t| ensures t[a] < t[b] {
      assert t[a] == s[if a < i then a else a + 1] && t[b] == s[if b < i then b else b + 1];
    }
  }

  /** What a push does to the line of handed and queued items. */
  lemma PushInOrder(w: World, capacity: nat, policy: Policy)
    requires 0 < capacity && InOrder(w)
    ensures InOrder(Step(w, capacity, policy, Push))
  {
    var line, w' := w.handed + w.mail.items, Step(w, capacity, policy, Push);
    if w'.accepted > w.accepted {
      if |w.mail.items| < capacity {
        AppendAscending(line, w.accepted);
        assert w'.handed + w'.mail.items == line + [w.accepted];
      } else {
        var h := |w.handed|;
        DropOne(line, h);
        var shorter := line[..h] + line[h + 1..];
        assert shorter == w.handed + w.mail.items[1..];
        forall x | x in shorter ensures x < w.accepted { assert x in line; }
        AppendAscending(shorter, w.accepted);
        assert w'.handed + w'.mail.items == shorter + [w.accepted];
      }
    }
  }

  lemma InOrderStep(w: World, capacity: nat, policy: Policy, a: Action)
    requires 0 < capacity && InOrder(w)
    ensures InOrder(Step(w, capacity, policy, a))
  {
    var line, w' := w.handed + w.mail.items, Step(w, capacity, policy, a);
    match a {
      case Push => PushInOrder(w, capacity, policy);
      case Take =>
        if w.mail.items != [] {
          assert w.handed + [w.mail.items[0]] + w.mail.items[1..] == line;
        }
      case Report(failed) =>
        if w'.mail.items == [] {
          assert w'.handed + w'.mail.items == line[..|w.handed|];
          forall x | x in w'.handed + w'.mail.items ensures x in line { }
        }
      case Close =>
    }
  }

  lemma OneMore(s: seq<Item>, y: Item, x: Item)
    ensures Times(s + [y], x) == Times(s, x) + if x == y then 1 else 0
  {
  }

  lemma OneLess(s: seq<Item>, x: Item)
    requires s != []
    ensures Times(s, x) == Times(s[1..], x) + if x == s[0] then 1 else 0
  {
    assert s == [s[0]] + s[1..];
  }

  lemma Joined(s: seq<Item>, t: seq<Item>, x: Item)
    ensures Times(s + t, x) == Times(s, x) + Times(t, x)
  {
  }

  lemma AccountedPush(w: World, capacity: nat, policy: Policy)
    requires 0 < capacity && Accounted(w)
    ensures Accounted(Step(w, capacity, policy, Push))
  {
    var w' := Step(w, capacity, policy, Push);
    if w'.accepted > w.accepted {
      forall x: Item ensures Times(w'.handed, x) + Times(w'.mail.items, x) + Times(w'.evicted, x)
          + Times(w'.discarded, x)
                    == if x < w'.accepted then 1 else 0
      {
        if |w.mail.items| < capacity {
          OneMore(w.mail.items, w.accepted, x);
        } else {
          OneLess(w.mail.items, x);
          OneMore(w.mail.items[1..], w.accepted, x);
          OneMore(w.evicted, w.mail.items[0], x);
        }
      }
    }
  }

  lemma AccountedTake(w: World, capacity: nat, policy: Policy)
    requires 0 < capacity && Accounted(w)
    ensures Accounted(Step(w, capacity, policy, Take))
  {
    var w' := Step(w, capacity, policy, Take);
    if w.mail.items != [] {
      forall x: Item ensures Times(w'.handed, x) + Times(w'.mail.items, x)
          == Times(w.handed, x) + Times(w.mail.items, x) {
        OneLess(w.mail.items, x);
        OneMore(w.handed, w.mail.items[0], x);
      }
    }
  }

  lemma AccountedReport(w: World, capacity: nat, policy: Policy, failed: bool)
    requires 0 < capacity && Accounted(w)
    ensures Accounted(Step(w, capacity, policy, Report(failed)))
  {
    var w' := Step(w, capacity, policy, Report(failed));
    forall x: Item ensures Times(w'.discarded, x) + Times(w'.mail.items, x)
        == Times(w.discarded, x) + Times(w.mail.items, x) {
      Joined(w.discarded, w.mail.items, x);
    }
  }

  lemma AccountedStep(w: World, capacity: nat, policy: Policy, a: Action)
    requires 0 < capacity && Accounted(w)
    ensures Accounted(Step(w, capacity, policy, a))
  {
    match a
    case Push => AccountedPush(w, capacity, policy);
    case Take => AccountedTake(w, capacity, policy);
    case Report(failed) => AccountedReport(w, capacity, policy, failed);
    case Close =>
  }

  /** After any interleaving the queue is within its capacity, one item at most is in flight, the
      sink has seen items in the order of acceptance, and every accepted item is accounted for. */
  lemma {:induction false} RunsAreSound(capacity: nat, policy: Policy, actions: seq<Action>)
    requires 0 < capacity
    ensures var w := Run(capacity, policy, actions);
            Coherent(w, capacity) && InOrder(w) && Accounted(w)
  {
    if actions != [] {
      var prior, a := actions[..|actions| - 1], actions[|actions| - 1];
      RunsAreSound(capacity, policy, prior);
      var w := Run(capacity, policy, prior);
      CoherentStep(w, capacity, policy, a);
      InOrderStep(w, capacity, policy, a);
      AccountedStep(w, capacity, policy, a);
    } else {
      assert forall x: Item :: Times([], x) == 0;
    }
  }

  /** The decrement of the in-flight count never underflows: a worker that reports holds an item
      that is counted. */
  lemma ReportIsCounted(capacity: nat, policy: Policy, actions: seq<Action>)
    requires 0 < capacity && Run(capacity, policy, actions).worker.Holding?
    ensures Run(capacity, policy, actions).mail.inFlight == 1
  {
    RunsAreSound(capacity, policy, actions);
  }

  /** A status of nothing queued and nothing in flight means that no accepted item is pending: each
      was handed to the sink and answered, evicted, or discarded after its failure. */
  lemma QuietMeansDone(capacity: nat, policy: Policy, actions: seq<Action>, x: Item)
    requires 0 < capacity
    requires Run(capacity, policy, actions).mail.items == [] && Run(capacity, policy, actions).mail.inFlight == 0
    ensures var w := Run(capacity, policy, actions);
            && !w.worker.Holding?
            && Times(w.handed, x) + Times(w.evicted, x) + Times(w.discarded, x) == if x < w.accepted then 1 else 0
  {
    RunsAreSound(capacity, policy, actions);
    var w := Run(capacity, policy, actions);
    assert Times(w.handed, x) + Times(w.mail.items, x) + Times(w.evicted, x) + Times(w.discarded, x)
        == if x < w.accepted then 1 else 0;
  }

  /** Items are evicted only under DropOldest, and discarded only when the sink failed. */
  lemma {:induction false} LossesHaveReasons(capacity: nat, policy: Policy, actions: seq<Action>)
    requires 0 < capacity
    ensures var w := Run(capacity, policy, actions);
            && (w.evicted != [] ==> policy == DropOldest)
            && (w.discarded != [] ==> Report(true) in actions && w.worker == Gone)
  {
    if actions != [] {
      var prior, a := actions[..|actions| - 1], actions[|actions| - 1];
      LossesHaveReasons(capacity, policy, prior);
      assert actions == prior + [a];
    }
  }

  // ---- Shutdown ----

  /** The worker's own steps while the sink answers without error. */
  function Drained(w: World, capacity: nat, policy: Policy): World
    requires 0 < capacity && Coherent(w, capacity) && w.mail.closed
    decreases |w.mail.items| + (if w.worker == Gone then 0 else 1), if w.worker.Holding? then 1 else 0
  {
    CoherentStep(w, capacity, policy, Take);
    CoherentStep(w, capacity, policy, Report(false));
    match w.worker
    case Gone => w
    case Holding(_) => Drained(Step(w, capacity, policy, Report(false)), capacity, policy)
    case Idle => Drained(Step(w, capacity, policy, Take), capacity, policy)
  }

  /** A closed mailbox drains: while the sink answers, the worker hands over everything queued, in
      order, and then ends with nothing pending. */
  lemma {:induction false} ClosingDrains(w: World, capacity: nat, policy: Policy)
    requires 0 < capacity && Coherent(w, capacity) && w.mail.closed
    ensures var d := Drained(w, capacity, policy);
            && d.worker == Gone && d.mail == Mail([], true, 0)
            && d.handed == w.handed + w.mail.items
            && d.evicted == w.evicted && d.discarded == w.discarded && d.accepted == w.accepted
    decreases |w.mail.items| + (if w.worker == Gone then 0 else 1), if w.worker.Holding? then 1 else 0
  {
    CoherentStep(w, capacity, policy, Take);
    CoherentStep(w, capacity, policy, Report(false));
    match w.worker {
      case Gone =>
        assert w.handed + [] == w.handed;
      case Holding(_) =>
        ClosingDrains(Step(w, capacity, policy, Report(false)), capacity, policy);
      case Idle =>
        ClosingDrains(Step(w, capacity, policy, Take), capacity, policy);
        if w.mail.items != [] {
          assert w.handed + [w.mail.items[0]] + w.mail.items[1..] == w.handed + w.mail.items;
        }
    }
  }

  /** Once the worker is gone nothing changes any more: pushes are refused. */
  lemma GoneIsFinal(w: World, capacity: nat, policy: Policy, a: Action)
    requires 0 < capacity && Coherent(w, capacity) && w.worker == Gone
    ensures Step(w, capacity, policy, a) == w
  {
  }
}
