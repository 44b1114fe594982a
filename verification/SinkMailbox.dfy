/** The bounded FIFO between producers and one sink worker. Every method runs under the lock, so
    each is one atomic step. */
module SinkMailbox {
  import opened Common

  datatype Policy =
    | BlockWithDeadline | DropNewest | DropOldest | LatestPerKey | SpillToDisk | DisableSink | FailEngine

  datatype PushOutcome = Accepted | DroppedNewest | DroppedOldest(dropped: nat)

  datatype SinkError = WorkerClosed | EngineFailure | DeadlineExceeded | UnsupportedPolicy(policy: Policy)

  datatype Mail<T> = Mail(items: seq<T>, closed: bool, inFlight: nat)

  function Pushed<T>(m: Mail<T>, capacity: nat, policy: Policy, item: T): (Mail<T>, Result<PushOutcome, SinkError>)
    requires 0 < capacity
  {
    if m.closed then (m, Err(WorkerClosed))
    else if |m.items| < capacity then (m.(items := m.items + [item]), Ok(Accepted))
    else match policy
      case DropNewest => (m, Ok(DroppedNewest))
      case DropOldest => (m.(items := m.items[1..] + [item]), Ok(DroppedOldest(1)))
      case FailEngine => (m, Err(EngineFailure))
      case BlockWithDeadline => (m, Err(DeadlineExceeded))
      case _ => (m, Err(UnsupportedPolicy(policy)))
  }

  /** What a waiting worker does when it holds the lock: takes the first item, gives up on a closed
      and empty mailbox, or goes on waiting. */
  datatype Popped<T> = Took(item: T) | Ended | Waits

  function Popping<T>(m: Mail<T>): (Mail<T>, Popped<T>) {
    if m.items != [] then (m.(items := m.items[1..], inFlight := m.inFlight + 1), Took(m.items[0]))
    else if m.closed then (m, Ended)
    else (m, Waits)
  }

  function Finished<T>(m: Mail<T>, closeAndDiscard: bool): (Mail<T>, nat)
    requires m.inFlight > 0
  {
    var m' := m.(inFlight := m.inFlight - 1);
    if closeAndDiscard then (m'.(closed := true, items := []), |m.items|) else (m', 0)
  }

  /** The mailbox after a worker took `n` turns. */
  function AfterTakes<T>(m: Mail<T>, n: nat): Mail<T> {
    if n == 0 then m else Popping(AfterTakes(m, n - 1)).0
  }

  lemma {:induction false} TakesEmptyTheQueue<T>(m: Mail<T>, n: nat)
    ensures var taken := if n < |m.items| then n else |m.items|;
            AfterTakes(m, n) == Mail(m.items[taken..], m.closed, m.inFlight + taken)
  {
    if n > 0 { TakesEmptyTheQueue(m, n - 1); }
  }

  class Mailbox<T> {
    const capacity: nat
    const policy: Policy
    var items: seq<T>
    var closed: bool
    var inFlight: nat

    function View(): Mail<T>
      reads this
    {
      Mail(items, closed, inFlight)
    }

    constructor (capacity: nat, policy: Policy)
      requires 0 < capacity
      ensures this.capacity == capacity && this.policy == policy && View() == Mail([], false, 0)
    {
      this.capacity, this.policy := capacity, policy;
      items, closed, inFlight := [], false, 0;
    }

    method Push(item: T) returns (r: Result<PushOutcome, SinkError>)
      requires 0 < capacity
      modifies this
      ensures (View(), r) == Pushed(old(View()), capacity, policy, item)
    {
      if closed {
        return Err(WorkerClosed);
      }
      if |items| < capacity {
        items := items + [item];
        return Ok(Accepted);
      }
      match policy {
        case DropNewest =>
          return Ok(DroppedNewest);
        case DropOldest =>
          items := items[1..];
          items := items + [item];
          return Ok(DroppedOldest(1));
        case FailEngine =>
          return Err(EngineFailure);
        case BlockWithDeadline =>
          return Err(DeadlineExceeded);
        case _ =>
          return Err(UnsupportedPolicy(policy));
      }
    }

    /** One turn of the worker's waiting loop. */
    method TryPop() returns (r: Popped<T>)
      modifies this
      ensures (View(), r) == Popping(old(View()))
    {
      if items != [] {
        var item := items[0];
        items := items[1..];
        inFlight := inFlight + 1;
        return Took(item);
      }
      if closed {
        return Ended;
      }
      r := Waits;
    }

    method FinishItem(closeAndDiscard: bool) returns (discarded: nat)
      requires inFlight > 0
      modifies this
      ensures (View(), discarded) == Finished(old(View()), closeAndDiscard)
    {
      discarded := 0;
      if closeAndDiscard {
        closed := true;
        discarded := |items|;
        items := [];
      }
      inFlight := inFlight - 1;
    }

    method Close()
      modifies this
      ensures View() == old(View()).(closed := true)
    {
      closed := true;
    }

    /** Exactly the next `queued` turns of a worker hand over an item, and after them `queued` more
        items than the `pending` ones await completion. */
    method Status() returns (queued: nat, pending: nat)
      ensures forall n: nat :: Popping(AfterTakes(View(), n)).1.Took? <==> n < queued
      ensures AfterTakes(View(), queued) == Mail([], closed, pending + queued)
    {
      queued, pending := |items|, inFlight;
      forall n: nat ensures Popping(AfterTakes(View(), n)).1.Took? <==> n < queued {
        TakesEmptyTheQueue(View(), n);
      }
      TakesEmptyTheQueue(View(), queued);
    }
  }
}
