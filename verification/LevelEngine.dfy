/** The structural level engine as an object. */
module LevelEngine {
  import opened Common
  import opened LevelModel
  import opened TopLevels
  import opened TopLevelRuns
  import opened TopLevelTrim
  import opened StructuralLevels
  import opened LevelCapacity
  import opened LevelRuns

  lemma AppendOther(levels: seq<Level>, l: Level, next: nat)
    requires Numbered(levels, next) && !IsTop(l.kind)
    ensures Numbered(levels + [l], next)
  {
  }

  lemma KeepNext(levels: seq<Level>, i: nat, t: Test)
    requires i < |levels|
    ensures Keep(levels[..i + 1], t)
         == if Passes(t, levels[i]) then Keep(levels[..i], t) + [levels[i]] else Keep(levels[..i], t)
  {
    assert levels[..i + 1] == levels[..i] + [levels[i]];
    KeepAppend(levels[..i], levels[i], t);
    assert Keep(levels[..i], t) + [] == Keep(levels[..i], t);
  }

  class StructuralLevelEngine {
    const config: Config
    var levels: seq<Level>
    var frames: seq<Candle>
    var pending: seq<Bubble>
    var last: Option<i64>
    var next: nat

    function View(): Engine
      reads this
    {
      Engine(levels, frames, pending, last, next)
    }

    ghost predicate Valid()
      reads this
    {
      Numbered(levels, next)
    }

    constructor (config: Config)
      ensures this.config == config && View() == NewEngine && Valid()
    {
      this.config := config;
      levels, frames, pending, last, next := [], [], [], None, 0;
    }

    method TouchExisting(c: Candle)
      requires Valid()
      modifies `levels
      ensures levels == AllAged(old(levels), c, config.tolerance) && Valid()
    {
      ghost var was := levels;
      for i := 0 to |levels|
        invariant |levels| == |was| && levels[i..] == was[i..]
        invariant levels[..i] == AllAged(was[..i], c, config.tolerance)
      {
        var l := levels[i];
        assert was[..i + 1][..i] == was[..i] && was[i] == was[i..][0] == levels[i..][0] == l;
        if !(l.touched.Some? || IsTop(l.kind) || c.end <= l.created) && Reaches(c, l.tick, config.tolerance) {
          levels := levels[i := l.(touched := Some(c.end))];
        }
        assert levels[..i + 1] == levels[..i] + [levels[i]];
        assert levels[i + 1..] == was[i + 1..] by { assert was[i..][1..] == was[i + 1..]; }
      }
      assert was[..|was|] == was && levels[..|was|] == levels;
      AgedAt(was, c, config.tolerance);
    }

    method ActivateNaked(c: Candle)
      requires Valid()
      modifies `levels, `pending
      ensures levels == old(levels) + NakedLevels(old(pending), c, config.tolerance) && pending == [] && Valid()
    {
      var taken := pending;
      pending := [];
      for n := 0 to |taken|
        invariant levels == old(levels) + NakedLevels(taken[..n], c, config.tolerance) && pending == [] && Valid()
      {
        assert taken[..n + 1][..n] == taken[..n];
        if !Reaches(c, taken[n].tick, config.tolerance) {
          AppendOther(levels, NakedLevel(taken[n], c), next);
          levels := levels + [NakedLevel(taken[n], c)];
        }
      }
      assert taken[..|taken|] == taken;
    }

    method PushFrame(c: Candle)
      modifies `frames
      ensures frames == LastThree(old(frames) + [c])
    {
      frames := frames + [c];
      ghost var all := frames;
      while |frames| > 3
        invariant |frames| <= |all| && frames == all[|all| - |frames|..]
        invariant |frames| >= 3 || frames == all
      {
        frames := frames[1..];
      }
    }

    method ConfirmReactions()
      requires Valid()
      modifies `levels
      ensures levels == old(levels) + Confirmed(frames) && Valid()
    {
      levels := levels + Confirmed(frames);
    }

    method RetainWindow(kind: Kind, window: int)
      requires Valid()
      modifies `levels
      ensures levels == Retained(old(levels), kind, window) && Valid()
    {
      var all, kept := levels, [];
      for i := 0 to |all|
        invariant levels == all && kept == Keep(all[..i], InWindow(kind, window))
      {
        KeepNext(all, i, InWindow(kind, window));
        if all[i].kind != kind || all[i].window == Some(window) {
          kept := kept + [all[i]];
        }
      }
      assert all[..|all|] == all;
      KeepNumbered(all, InWindow(kind, window), next);
      levels := kept;
    }

    method AppendDirected(c: Candle, kind: Kind, window: int)
      requires Valid() && IsTop(kind)
      modifies `levels, `next
      ensures levels == old(levels) + Levels(c.bubbles, kind, c.end, window, old(next)) && Valid()
      ensures next == old(next) + |Levels(c.bubbles, kind, c.end, window, old(next))|
    {
      for n := 0 to |c.bubbles|
        invariant levels == old(levels) + Levels(c.bubbles[..n], kind, c.end, window, old(next))
        invariant next == old(next) + |Levels(c.bubbles[..n], kind, c.end, window, old(next))|
      {
        var b := c.bubbles[n];
        assert c.bubbles[..n + 1][..n] == c.bubbles[..n];
        if b.direction != Neutral {
          levels := levels + [LevelFrom(kind, b.tick, c.end, Some(window), b, next)];
          next := next + 1;
        }
      }
      assert c.bubbles[..|c.bubbles|] == c.bubbles;
      JoinNumbered(old(levels), Levels(c.bubbles, kind, c.end, window, old(next)), old(next));
    }

    method UpdateTop(c: Candle, kind: Kind)
      requires Valid() && IsTop(kind)
      modifies `levels, `next
      ensures levels == WithKind(old(levels), c, kind, old(next), config.topPerSide) && Valid()
      ensures next == After(c, kind, old(next))
    {
      var window := WindowStart(kind, c.start);
      WithKindNumbered(levels, c, kind, next, config.topPerSide);
      RetainWindow(kind, window);
      AppendDirected(c, kind, window);
      KeepOrder(levels, Ranked(Rivals(levels, kind, window, Buy), kind, window, Buy, config.topPerSide));
      levels := TrimTop(levels, kind, window, Buy, config.topPerSide);
      levels := TrimTop(levels, kind, window, Sell, config.topPerSide);
    }

    method EnforceMaximum()
      requires Valid()
      modifies `levels
      ensures levels == Evicted(old(levels), config.maxLevels) && Valid()
    {
      EvictedNumbered(levels, config.maxLevels, next);
      levels := EnforceCapacity(levels, config.maxLevels);
    }

    /** The checks before anything is changed, and that of the windows. */
    method Check(c: Candle) returns (r: Option<Refusal>)
      ensures r == Refused(last, c)
    {
      if !c.isFinal {
        return Some(NotFinal);
      }
      if last.Some? && c.start <= last.value {
        return Some(Late);
      }
      for n := 0 to |c.bubbles|
        invariant forall i :: 0 <= i < n ==> Belongs(c.bubbles[i], c)
      {
        if c.bubbles[n].instrument != c.instrument || c.bubbles[n].start != c.start || c.bubbles[n].end != c.end {
          return Some(Foreign);
        }
      }
      if c.high.None? || c.low.None? {
        return Some(Missing);
      }
      if c.low.value > c.high.value {
        return Some(Inverted);
      }
      if !WindowsFit(c) {
        return Some(Overflow);
      }
      r := None;
    }

    /** Touches, activates and confirms. */
    method Shape(c: Candle)
      requires Valid()
      modifies `levels, `pending, `frames
      ensures levels == Shaped(old(View()), c, config) && frames == LastThree(old(frames) + [c]) && Valid()
    {
      TouchExisting(c);
      ActivateNaked(c);
      PushFrame(c);
      ConfirmReactions();
    }

    method Advance(c: Candle)
      requires Valid()
      modifies this
      ensures View() == Advanced(old(View()), c, config) && Valid()
    {
      Shape(c);
      UpdateTop(c, TopDay);
      UpdateTop(c, TopWeek);
      pending := c.bubbles;
      last := Some(c.start);
      EnforceMaximum();
    }

    /** The source works on a clone and swaps it in at the end, so a refused candle changes nothing. */
    method IngestFinalized(c: Candle) returns (r: Result<(), Refusal>)
      requires Valid()
      modifies this
      ensures View() == Ingested(old(View()), c, config) && Valid()
      ensures r == if Refused(old(last), c).Some? then Err(Refused(old(last), c).value) else Ok(())
    {
      var refusal := Check(c);
      if refusal.Some? {
        return Err(refusal.value);
      }
      Advance(c);
      r := Ok(());
    }
  }
}
