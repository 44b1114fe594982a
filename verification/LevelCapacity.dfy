/** Which levels give way when there are too many. */
module LevelCapacity {
  import opened Common
  import opened LevelModel

  function FirstTouched(ls: seq<Level>): (i: nat)
    ensures i <= |ls|
    ensures i < |ls| ==> ls[i].touched.Some?
    ensures forall k :: 0 <= k < i ==> ls[k].touched.None?
  {
    if ls == [] || ls[0].touched.Some? then 0 else 1 + FirstTouched(ls[1..])
  }

  /** Where the next eviction strikes: the oldest touched level, or the oldest of all. */
  function Victim(ls: seq<Level>): (i: nat)
    requires ls != []
    ensures i < |ls|
  {
    if FirstTouched(ls) < |ls| then FirstTouched(ls) else 0
  }

  function Without(ls: seq<Level>, i: nat): seq<Level>
    requires i < |ls|
  {
    ls[..i] + ls[i + 1..]
  }

  function Evicted(ls: seq<Level>, max: nat): seq<Level> {
    if |ls| <= max then ls else Evicted(Without(ls, Victim(ls)), max)
  }

  lemma {:induction false} Parts(ls: seq<Level>)
    ensures |Keep(ls, Active)| + |Keep(ls, Touched)| == |ls|
  {
    if ls != [] { Parts(ls[..|ls| - 1]); }
  }

  lemma DropTouched(ls: seq<Level>)
    requires FirstTouched(ls) < |ls|
    ensures var rest := Without(ls, FirstTouched(ls));
            && Keep(ls, Touched) == [ls[FirstTouched(ls)]] + Keep(rest, Touched)
            && Keep(rest, Active) == Keep(ls, Active)
  {
    var i := FirstTouched(ls);
    NoneBefore(ls, i);
    SplitAt(ls, i);
    DropOne(ls[..i], ls[i], ls[i + 1..]);
  }

  lemma SplitAt(ls: seq<Level>, i: nat)
    requires i < |ls|
    ensures ls[..i] + [ls[i]] + ls[i + 1..] == ls
  {
  }

  lemma NoneBefore(ls: seq<Level>, i: nat)
    requires i <= |ls| && forall k :: 0 <= k < i ==> ls[k].touched.None?
    ensures Keep(ls[..i], Touched) == []
  {
    KeepNone(ls[..i], Touched);
  }

  lemma DropOne(a: seq<Level>, l: Level, b: seq<Level>)
    requires Keep(a, Touched) == [] && l.touched.Some?
    ensures Keep(a + [l] + b, Touched) == [l] + Keep(a + b, Touched)
    ensures Keep(a + [l] + b, Active) == Keep(a + b, Active)
  {
    KeepBetween(a, l, b, Touched);
    KeepBetween(a, l, b, Active);
    Unit([l], Keep(b, Touched));
    Unit(Keep(a, Active), Keep(b, Active));
  }

  lemma KeepBetween(a: seq<Level>, l: Level, b: seq<Level>, t: Test)
    ensures Keep(a + [l] + b, t) == Keep(a, t) + Kept(l, t) + Keep(b, t)
    ensures Keep(a + b, t) == Keep(a, t) + Keep(b, t)
  {
    KeepJoin(a + [l], b, t);
    KeepAppend(a, l, t);
    KeepJoin(a, b, t);
  }

  lemma Unit(a: seq<Level>, b: seq<Level>)
    ensures [] + a + b == a + b && [] + b == b && a + [] + b == a + b
  {
  }

  predicate Untouched(ls: seq<Level>) {
    forall i :: 0 <= i < |ls| ==> ls[i].touched.None?
  }

  lemma NoneTouched(ls: seq<Level>)
    requires Untouched(ls)
    ensures Keep(ls, Active) == ls && Keep(ls, Touched) == []
  {
    KeepAll(ls, Active);
    KeepNone(ls, Touched);
  }

  function Last(ls: seq<Level>, n: nat): seq<Level> {
    if |ls| <= n then ls else ls[|ls| - n..]
  }

  lemma DropFirst(l: Level, ls: seq<Level>, n: nat)
    requires n <= |ls|
    ensures Last([l] + ls, n) == Last(ls, n)
  {
  }

  function Spare(max: nat, active: nat): nat {
    if max > active then max - active else 0
  }

  /** How eviction divides among touched and active levels. */
  predicate TakesTouchedFirst(ls: seq<Level>, max: nat, out: seq<Level>) {
    && |out| == (if |ls| <= max then |ls| else max)
    && Keep(out, Active) == Last(Keep(ls, Active), max)
    && Keep(out, Touched) == Last(Keep(ls, Touched), Spare(max, |Keep(ls, Active)|))
  }

  lemma AfterTouched(ls: seq<Level>, max: nat, out: seq<Level>)
    requires |ls| > max && FirstTouched(ls) < |ls| && TakesTouchedFirst(Without(ls, FirstTouched(ls)), max, out)
    ensures TakesTouchedFirst(ls, max, out)
  {
    var rest := Without(ls, FirstTouched(ls));
    Parts(ls);
    Parts(rest);
    DropTouched(ls);
    DropFirst(ls[FirstTouched(ls)], Keep(rest, Touched), Spare(max, |Keep(ls, Active)|));
  }

  lemma AfterActive(l: Level, rest: seq<Level>, max: nat, out: seq<Level>)
    requires |rest| >= max && Untouched(rest) && Untouched([l] + rest) && TakesTouchedFirst(rest, max, out)
    ensures TakesTouchedFirst([l] + rest, max, out)
  {
    NoneTouched(rest);
    NoneTouched([l] + rest);
    DropFirst(l, rest, max);
  }

  lemma OldestActive(ls: seq<Level>)
    requires ls != [] && FirstTouched(ls) == |ls|
    ensures Without(ls, Victim(ls)) == ls[1..] && [ls[0]] + ls[1..] == ls && Untouched(ls) && Untouched(ls[1..])
  {
  }

  lemma AfterVictim(ls: seq<Level>, max: nat, out: seq<Level>)
    requires |ls| > max && TakesTouchedFirst(Without(ls, Victim(ls)), max, out)
    ensures TakesTouchedFirst(ls, max, out)
  {
    if FirstTouched(ls) < |ls| {
      AfterTouched(ls, max, out);
    } else {
      OldestActive(ls);
      AfterActive(ls[0], ls[1..], max, out);
    }
  }

  /** Eviction takes the oldest touched levels first; active ones go only when no touched one is
      left, the oldest first. */
  lemma {:induction false} EvictsTouchedFirst(ls: seq<Level>, max: nat)
    ensures TakesTouchedFirst(ls, max, Evicted(ls, max))
    decreases |ls|
  {
    if |ls| <= max {
      Parts(ls);
    } else {
      EvictsTouchedFirst(Without(ls, Victim(ls)), max);
      AfterVictim(ls, max, Evicted(ls, max));
    }
  }

  /** Where the levels that are left stood before. */
  function Survivors(ls: seq<Level>, max: nat): (at: seq<nat>)
    decreases |ls|
  {
    if |ls| <= max then seq(|ls|, i requires 0 <= i < |ls| => i)
    else Shifted(Survivors(Without(ls, Victim(ls)), max), Victim(ls))
  }

  function Shifted(at: seq<nat>, v: nat): (r: seq<nat>)
    ensures |r| == |at| && forall i :: 0 <= i < |at| ==> r[i] == if at[i] < v then at[i] else at[i] + 1
  {
    seq(|at|, i requires 0 <= i < |at| => if at[i] < v then at[i] else at[i] + 1)
  }

  predicate Embeds(out: seq<Level>, ls: seq<Level>, at: seq<nat>) {
    && |at| == |out|
    && (forall i :: 0 <= i < |at| ==> at[i] < |ls| && out[i] == ls[at[i]])
    && forall i, j :: 0 <= i < j < |at| ==> at[i] < at[j]
  }

  lemma ShiftedEmbeds(out: seq<Level>, ls: seq<Level>, at: seq<nat>, v: nat)
    requires v < |ls| && Embeds(out, Without(ls, v), at)
    ensures Embeds(out, ls, Shifted(at, v))
  {
  }

  /** What is left stands in the order in which it stood. */
  lemma {:induction false} EvictedInOrder(ls: seq<Level>, max: nat)
    ensures Embeds(Evicted(ls, max), ls, Survivors(ls, max))
    decreases |ls|
  {
    if |ls| > max {
      EvictedInOrder(Without(ls, Victim(ls)), max);
      ShiftedEmbeds(Evicted(ls, max), ls, Survivors(Without(ls, Victim(ls)), max), Victim(ls));
    }
  }

  // ---- When the top levels stay ----

  predicate TopsAreActive(ls: seq<Level>) {
    forall i :: 0 <= i < |ls| && IsTop(ls[i].kind) ==> ls[i].touched.None?
  }

  /** How many active levels have to go. */
  function Excess(ls: seq<Level>, max: nat): (n: nat)
    ensures n <= |Keep(ls, Active)|
  {
    if |Keep(ls, Active)| > max then |Keep(ls, Active)| - max else 0
  }

  /** No top level is among the oldest active ones, as many as have to go. */
  predicate SparesTops(ls: seq<Level>, max: nat) {
    NoTops(Keep(ls, Active)[..Excess(ls, max)])
  }

  predicate NoTops(ls: seq<Level>) {
    forall i :: 0 <= i < |ls| ==> !IsTop(ls[i].kind)
  }

  /** The top levels of a list are among its active ones. */
  lemma TopsOfActive(ls: seq<Level>)
    requires TopsAreActive(ls)
    ensures Keep(Keep(ls, Active), TopOnly) == Keep(ls, TopOnly)
  {
    KeepThrough(ls, TopOnly, Active);
  }

  lemma EvictedTopsAreActive(ls: seq<Level>, max: nat)
    requires TopsAreActive(ls)
    ensures TopsAreActive(Evicted(ls, max))
  {
    EvictedInOrder(ls, max);
  }

  lemma EmptySelection(ls: seq<Level>, t: Test)
    ensures Keep(ls, t) == [] <==> forall i :: 0 <= i < |ls| ==> !Passes(t, ls[i])
  {
    if forall i :: 0 <= i < |ls| ==> !Passes(t, ls[i]) {
      KeepNone(ls, t);
    } else {
      var i :| 0 <= i < |ls| && Passes(t, ls[i]);
      KeepMembers(ls, t, ls[i]);
    }
  }

  /** A call evicts a top level exactly when one stands among the oldest active levels, as many as
      are too many. */
  lemma EvictsTopExactly(ls: seq<Level>, max: nat)
    requires TopsAreActive(ls)
    ensures Keep(Evicted(ls, max), TopOnly) == Keep(ls, TopOnly) <==> SparesTops(ls, max)
  {
    EvictsTouchedFirst(ls, max);
    EvictedTopsAreActive(ls, max);
    TopsOfActive(ls);
    TopsOfActive(Evicted(ls, max));
    LastIsRest(Keep(ls, Active), Excess(ls, max), max);
    TopsOfTwo(Keep(ls, Active)[..Excess(ls, max)], Last(Keep(ls, Active), max));
  }

  lemma LastIsRest(active: seq<Level>, n: nat, max: nat)
    requires n == if |active| > max then |active| - max else 0
    ensures active[..n] + Last(active, max) == active
  {
  }

  lemma TopsOfTwo(gone: seq<Level>, left: seq<Level>)
    ensures Keep(left, TopOnly) == Keep(gone + left, TopOnly) <==> NoTops(gone)
  {
    KeepJoin(gone, left, TopOnly);
    NoTopsIsNone(gone);
    Prefixed(Keep(gone, TopOnly), Keep(left, TopOnly));
  }

  lemma NoTopsIsNone(ls: seq<Level>)
    ensures NoTops(ls) <==> Keep(ls, TopOnly) == []
  {
    EmptySelection(ls, TopOnly);
    assert forall i :: 0 <= i < |ls| ==> (Passes(TopOnly, ls[i]) <==> IsTop(ls[i].kind));
  }

  lemma Prefixed(a: seq<Level>, b: seq<Level>)
    ensures b == a + b <==> a == []
  {
    assert |a + b| == |a| + |b|;
  }

  /** As long as the active levels fit, none of them goes. */
  lemma RoomForActive(ls: seq<Level>, max: nat)
    requires |Keep(ls, Active)| <= max
    ensures Keep(Evicted(ls, max), Active) == Keep(ls, Active)
  {
    EvictsTouchedFirst(ls, max);
  }

  /** The loop of the source. */
  method EnforceCapacity(levels: seq<Level>, max: nat) returns (out: seq<Level>)
    ensures out == Evicted(levels, max)
  {
    out := levels;
    while |out| > max
      invariant Evicted(out, max) == Evicted(levels, max)
      decreases |out|
    {
      var remove := 0;
      while remove < |out| && out[remove].touched.None?
        invariant remove <= |out|
        invariant forall k :: 0 <= k < remove ==> out[k].touched.None?
      {
        remove := remove + 1;
      }
      assert remove == FirstTouched(out);
      if remove == |out| {
        remove := 0;
      }
      out := out[..remove] + out[remove + 1..];
    }
  }
}
