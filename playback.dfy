/**
 * The timeline's playback controls as a state machine over the four pieces
 * of component state they touch: `isPlaying`, `currentTimeIndex`,
 * `playerMovements` and `activeMovements`.
 *
 * Each handler is a function from the state before to the state its setters
 * produce; `Settle` then applies the effect that re-derives the shown
 * movements. React runs that effect when the index or the list changes;
 * after a handler, which never replaces the list, only when the index moved.
 */
module Playback {
  import opened Movements

  datatype State = State(isPlaying: bool, index: int, movements: seq<Movement>, active: seq<Movement>)

  /** The component's initial state. */
  const Initial: State := State(false, 0, [], [])

  /**
   * The shown movements agree with the index: nothing is shown, or exactly
   * the movements up to and including the current one.
   */
  predicate Consistent(s: State) {
    s.active == [] || (0 <= s.index < |s.movements| && s.active == s.movements[..s.index + 1])
  }

  /** The effect that shows the prefix up to the index, when the index is in range. */
  function Sync(s: State): (r: State)
    ensures r.isPlaying == s.isPlaying && r.index == s.index && r.movements == s.movements
    ensures 0 <= s.index < |s.movements| ==> Consistent(r) && |r.active| == s.index + 1
    ensures !(0 <= s.index < |s.movements|) ==> r.active == s.active
  {
    if 0 <= s.index < |s.movements| then s.(active := s.movements[..s.index + 1]) else s
  }

  /**
   * The effect depends on the index and the list. A handler never replaces the
   * list, so after a handler the effect runs only if the index changed.
   */
  function Settle(before: State, after: State): (r: State)
    ensures r.isPlaying == after.isPlaying && r.index == after.index && r.movements == after.movements
    ensures after.index == before.index ==> r.active == after.active
    ensures after.index != before.index && 0 <= after.index < |after.movements| ==>
              r.active == after.movements[..after.index + 1]
    ensures after.index != before.index && !(0 <= after.index < |after.movements|) ==> r.active == after.active
  {
    if after.index != before.index then Sync(after) else after
  }

  /** One interval callback: advance, or stop on the last movement. */
  function Tick(s: State): (r: State)
    ensures r.movements == s.movements && r.active == s.active
    ensures s.index < |s.movements| - 1 ==> r.isPlaying == s.isPlaying && r.index == s.index + 1
    ensures s.index >= |s.movements| - 1 ==> !r.isPlaying && r.index == s.index
    ensures s.index <= |s.movements| - 1 ==> r.index <= |s.movements| - 1
  {
    if s.index >= |s.movements| - 1 then s.(isPlaying := false) else s.(index := s.index + 1)
  }

  /** A tick followed by the effect it triggers: the next movement is shown, or playback stops. */
  function Advance(s: State): (r: State)
    ensures r.movements == s.movements
    ensures -1 <= s.index < |s.movements| - 1 ==>
              r.isPlaying == s.isPlaying && r.index == s.index + 1 && r.active == s.movements[..s.index + 2]
    ensures s.index < -1 ==> r == s.(index := s.index + 1)
    ensures s.index >= |s.movements| - 1 ==> r == s.(isPlaying := false)
  {
    Settle(s, Tick(s))
  }

  /** The interval only runs while playing with a non-empty list. */
  predicate Ticking(s: State) {
    s.isPlaying && |s.movements| > 0
  }

  /** The play/pause button. */
  function PlayPause(s: State): (r: State)
    ensures r.movements == s.movements && r.active == s.active
    ensures r.isPlaying == !s.isPlaying
    ensures s.isPlaying ==> r.index == s.index
    ensures !s.isPlaying ==> r.index == (if s.index >= |s.movements| - 1 then 0 else s.index)
  {
    if s.isPlaying then s.(isPlaying := false)
    else if s.index >= |s.movements| - 1 then s.(isPlaying := true, index := 0)
    else s.(isPlaying := true)
  }

  /** The reset button. */
  function Reset(s: State): (r: State)
    ensures !r.isPlaying && r.index == 0 && r.active == [] && r.movements == s.movements
  {
    s.(isPlaying := false, index := 0, active := [])
  }

  /** The skip button: jump to the last movement (index -1 when there is none). */
  function Skip(s: State): (r: State)
    ensures !r.isPlaying && r.index == |s.movements| - 1
    ensures r.movements == s.movements && r.active == s.active
  {
    s.(isPlaying := false, index := |s.movements| - 1)
  }

  /**
   * A new list from the transactions effect. An empty transaction list leaves
   * the state alone; otherwise the list is replaced, the index is kept, and the
   * effect (whose dependency, the list, always changes) re-derives the shown movements.
   */
  function Load(s: State, ms: seq<Movement>): (r: State)
    ensures |ms| == 0 ==> r == s
    ensures |ms| > 0 ==> r.movements == ms && r.index == s.index && r.isPlaying == s.isPlaying
    ensures |ms| > 0 && 0 <= s.index < |ms| ==> r.active == ms[..s.index + 1]
    ensures |ms| > 0 && !(0 <= s.index < |ms|) ==> r.active == s.active
  {
    if |ms| == 0 then s else Sync(s.(movements := ms))
  }

  /** `k` interval callbacks, each with its effect. */
  function Run(s: State, k: nat): State
    decreases k
  {
    if k == 0 then s else Run(Advance(s), k - 1)
  }

  // ------------------------------------------------------------ invariant

  /** Every control, tick and effect keeps the shown movements consistent with the index. */
  lemma ControlsKeepConsistent(s: State)
    requires Consistent(s)
    ensures Consistent(Sync(s))
    ensures Consistent(Advance(s))
    ensures Consistent(Settle(s, PlayPause(s)))
    ensures Consistent(Settle(s, Reset(s)))
    ensures Consistent(Settle(s, Skip(s)))
  {
  }

  /** A new list can leave shown movements from the old list, unlike every other transition. */
  lemma LoadCanBreakConsistency(m1: Movement, m2: Movement)
    requires m1 != m2
    ensures var s := State(false, 1, [m1, m1], [m1, m1]);
            Consistent(s) && !Consistent(Load(s, [m2]))
  {
    var s := State(false, 1, [m1, m1], [m1, m1]);
    assert s.movements[..2] == [m1, m1];
    var r := Load(s, [m2]);
    assert r.active == [m1, m1] && r.movements == [m2];
  }

  // ------------------------------------------------------------ scenarios

  /**
   * Playing through: from a playing state at index `i`, `k` ticks that stay
   * within the list move the index to `i + k` and show the movements up to it.
   */
  lemma {:induction false} PlayThrough(s: State, k: nat)
    requires s.isPlaying && 0 <= s.index && s.index + k <= |s.movements| - 1
    requires k == 0 ==> Consistent(s) && s.active != []
    ensures var r := Run(s, k);
            r.isPlaying && r.index == s.index + k && r.movements == s.movements &&
            r.active == s.movements[..s.index + k + 1]
    decreases k
  {
    if k > 0 {
      var t := Advance(s);
      assert t.index == s.index + 1 && t.active == s.movements[..s.index + 2];
      PlayThrough(t, k - 1);
    }
  }

  /** On the last movement the next tick stops playback and everything stays shown. */
  lemma StopsAtEnd(s: State)
    requires Ticking(s) && Consistent(s) && s.index == |s.movements| - 1
    ensures var r := Advance(s);
            !r.isPlaying && r.index == |s.movements| - 1 && r.movements == s.movements &&
            r.active == s.active && (r.active == [] || r.active == s.movements)
  {
    assert s.movements[..|s.movements|] == s.movements;
  }

  /**
   * Pressing play on the last movement restarts from the first one; after
   * `|ms| - 1` ticks every movement is shown, and one more tick stops playback.
   */
  lemma {:induction false} ReplayFromEnd(s: State)
    requires !s.isPlaying && |s.movements| > 1 && s.index == |s.movements| - 1
    ensures var p := Settle(s, PlayPause(s));
            p.isPlaying && p.index == 0 && p.active == s.movements[..1]
    ensures var e := Run(Settle(s, PlayPause(s)), |s.movements| - 1);
            e.isPlaying && e.index == |s.movements| - 1 && e.active == s.movements
    ensures var e := Advance(Run(Settle(s, PlayPause(s)), |s.movements| - 1));
            !e.isPlaying && e.active == s.movements
  {
    var p := Settle(s, PlayPause(s));
    assert p.index == 0 && p.active == s.movements[..1];
    PlayThrough(p, |s.movements| - 1);
    var e := Run(p, |s.movements| - 1);
    assert s.movements[..|s.movements|] == s.movements;
    StopsAtEnd(e);
  }

  /**
   * Two movements from a fresh start: loading shows the first, play keeps it,
   * a tick shows both, and the next tick stops playback.
   */
  lemma PlayTwo(ms: seq<Movement>)
    requires |ms| == 2
    ensures Load(Initial, ms) == State(false, 0, ms, ms[..1])
    ensures var s := Load(Initial, ms); Settle(s, PlayPause(s)) == State(true, 0, ms, ms[..1])
    ensures Advance(State(true, 0, ms, ms[..1])) == State(true, 1, ms, ms)
    ensures Advance(State(true, 1, ms, ms)) == State(false, 1, ms, ms)
  {
    assert ms[..2] == ms;
  }

  /** Reset clears the shown movements only when the index was already 0. */
  lemma ResetQuirk(s: State)
    ensures s.index == 0 ==> Settle(s, Reset(s)).active == []
    ensures s.index != 0 && |s.movements| > 0 ==> Settle(s, Reset(s)).active == s.movements[..1]
    ensures s.index != 0 && |s.movements| == 0 ==> Settle(s, Reset(s)).active == []
  {
  }

  /** Skip shows everything when the list is non-empty; on an empty list the index becomes -1. */
  lemma SkipShowsAll(s: State)
    requires Consistent(s)
    ensures |s.movements| > 0 ==> Settle(s, Skip(s)).active == s.movements || Settle(s, Skip(s)).active == []
    ensures |s.movements| > 0 && s.index != |s.movements| - 1 ==> Settle(s, Skip(s)).active == s.movements
    ensures |s.movements| == 0 ==> Settle(s, Skip(s)).index == -1
  {
    assert s.movements[..|s.movements|] == s.movements;
  }

  /**
   * Skip on the empty initial list leaves the index at -1, a new list keeps it,
   * and play then starts from there: the first tick shows the first movement.
   */
  lemma PlayFromMinusOne(m1: Movement, m2: Movement)
    ensures var s := Load(Settle(Initial, Skip(Initial)), [m1, m2]);
            var p := Settle(s, PlayPause(s));
            p.index == -1 && Ticking(p) && Advance(p).index == 0 && Advance(p).active == [m1]
  {
  }

  /** Play on an empty list sets the flag, but no interval runs, so nothing advances. */
  lemma PlayOnEmpty(s: State)
    requires !s.isPlaying && |s.movements| == 0 && s.index >= -1
    ensures var r := Settle(s, PlayPause(s));
            r.isPlaying && r.index == 0 && r.active == s.active && !Ticking(r)
  {
  }
}
