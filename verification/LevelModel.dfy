/** Structural levels, and the candles and bubbles that they come from. */
module LevelModel {
  import opened Common

  const DAY_NS: i64 := 86_400_000_000_000
  const WEEK_NS: i64 := 604_800_000_000_000

  datatype Kind = Naked | ReactionHigh | ReactionLow | TopDay | TopWeek
  datatype Direction = Sell | Neutral | Buy

  predicate IsTop(kind: Kind) {
    kind == TopDay || kind == TopWeek
  }

  /** A bubble, with the candle that it was found in. */
  datatype Bubble = Bubble(
    instrument: int, start: i64, end: i64, tick: int, direction: Direction, strength: int, id: nat)

  /** A candle with its range in ticks, if it has one, and its bubbles. */
  datatype Candle = Candle(
    instrument: int, isFinal: bool, start: i64, end: i64, low: Option<int>, high: Option<int>, bubbles: seq<Bubble>)

  /** Active until `touched` records the end of a candle. `arrival` counts the top levels that were
      appended before it. */
  datatype Level = Level(
    kind: Kind, direction: Direction, tick: int, strength: int, bubble: nat, created: i64,
    touched: Option<i64>, window: Option<int>, arrival: nat)

  function LevelFrom(kind: Kind, tick: int, created: i64, window: Option<int>, b: Bubble, arrival: nat): Level {
    Level(kind, b.direction, tick, b.strength, b.id, created, None, window, arrival)
  }

  // ---- Lists of levels ----

  /** What a level must pass to be selected. */
  datatype Test =
    | Active
    | Touched
    | TopOnly
    | NotTop
    | InWindow(kind: Kind, window: int)
    | OfWindow(kind: Kind, window: int)
    | Ranked(rivals: set<Level>, kind: Kind, window: int, direction: Direction, k: nat)

  predicate Matches(l: Level, kind: Kind, window: int, direction: Direction) {
    l.kind == kind && l.window == Some(window) && l.direction == direction
  }

  /** Stronger first, then the smaller bubble id, then the earlier one. */
  predicate Beats(a: Level, b: Level) {
    || a.strength > b.strength
    || (a.strength == b.strength && (a.bubble < b.bubble || (a.bubble == b.bubble && a.arrival < b.arrival)))
  }

  function Beaters(s: set<Level>, x: Level): set<Level> {
    set a | a in s && Beats(a, x)
  }

  predicate Passes(t: Test, l: Level) {
    match t
    case Active => l.touched.None?
    case Touched => l.touched.Some?
    case TopOnly => IsTop(l.kind)
    case NotTop => !IsTop(l.kind)
    case InWindow(kind, window) => l.kind != kind || l.window == Some(window)
    case OfWindow(kind, window) => l.kind == kind && l.window == Some(window)
    case Ranked(rivals, kind, window, direction, k) =>
      Matches(l, kind, window, direction) ==> |Beaters(rivals, l)| < k
  }

  function Kept(l: Level, t: Test): seq<Level> {
    if Passes(t, l) then [l] else []
  }

  function Keep(levels: seq<Level>, t: Test): seq<Level> {
    if levels == [] then [] else Keep(levels[..|levels| - 1], t) + Kept(levels[|levels| - 1], t)
  }

  lemma KeepAppend(levels: seq<Level>, l: Level, t: Test)
    ensures Keep(levels + [l], t) == Keep(levels, t) + Kept(l, t)
  {
    assert (levels + [l])[..|levels|] == levels;
  }

  lemma {:induction false} KeepMembers(levels: seq<Level>, t: Test, l: Level)
    ensures l in Keep(levels, t) <==> l in levels && Passes(t, l)
  {
    if levels != [] {
      KeepMembers(levels[..|levels| - 1], t, l);
      assert levels == levels[..|levels| - 1] + [levels[|levels| - 1]];
    }
  }

  lemma {:induction false} KeepJoin(a: seq<Level>, b: seq<Level>, t: Test)
    ensures Keep(a + b, t) == Keep(a, t) + Keep(b, t)
  {
    if b == [] {
      assert a + b == a;
    } else {
      assert (a + b)[..|a + b| - 1] == a + b[..|b| - 1];
      KeepJoin(a, b[..|b| - 1], t);
    }
  }

  lemma {:induction false} KeepAll(levels: seq<Level>, t: Test)
    requires forall i :: 0 <= i < |levels| ==> Passes(t, levels[i])
    ensures Keep(levels, t) == levels
  {
    if levels != [] { KeepAll(levels[..|levels| - 1], t); }
  }

  lemma {:induction false} KeepNone(levels: seq<Level>, t: Test)
    requires forall i :: 0 <= i < |levels| ==> !Passes(t, levels[i])
    ensures Keep(levels, t) == []
  {
    if levels != [] { KeepNone(levels[..|levels| - 1], t); }
  }

  lemma KeepIfKept(levels: seq<Level>, l: Level, t: Test, u: Test)
    ensures Keep(levels + Kept(l, u), t) == Keep(levels, t) + if Passes(u, l) then Kept(l, t) else []
  {
    if Passes(u, l) {
      KeepAppend(levels, l, t);
    } else {
      assert levels + Kept(l, u) == levels;
    }
  }

  /** A selection that spares everything `t` selects does not change what `t` selects. */
  lemma {:induction false} KeepThrough(levels: seq<Level>, t: Test, u: Test)
    requires forall i :: 0 <= i < |levels| && Passes(t, levels[i]) ==> Passes(u, levels[i])
    ensures Keep(Keep(levels, u), t) == Keep(levels, t)
  {
    if levels != [] {
      var init, last := levels[..|levels| - 1], levels[|levels| - 1];
      KeepThrough(init, t, u);
      KeepIfKept(Keep(init, u), last, t, u);
      assert Passes(t, last) ==> Passes(u, last);
    }
  }

  lemma {:induction false} KeepCommutes(levels: seq<Level>, t: Test, u: Test)
    ensures Keep(Keep(levels, u), t) == Keep(Keep(levels, t), u)
  {
    if levels != [] {
      var init, last := levels[..|levels| - 1], levels[|levels| - 1];
      KeepCommutes(init, t, u);
      KeepIfKept(Keep(init, u), last, t, u);
      KeepIfKept(Keep(init, t), last, u, t);
    }
  }
}
