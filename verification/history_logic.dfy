/**
 * Undo and redo. The history keeps past snapshots (most recent last) and, after
 * an undo, future snapshots; a new edit discards the future. The source
 * mutates two stacks; here every operation returns the new history.
 */
module HistoryLogic {
  import opened Wrappers
  import opened FormulaToken

  /** The editor state worth restoring. */
  datatype Snapshot = Snapshot(tokens: seq<Token>, cursorIndex: int, selectionStart: int, selectionEnd: int)

  /** `past` is the undo stack and `future` the redo stack, both with their top last. */
  datatype History = History(past: seq<Snapshot>, future: seq<Snapshot>)

  /** The result of an undo or redo: the new history, and the state to show (None: nothing to do). */
  datatype Step = Step(history: History, state: Option<Snapshot>)

  const MaxHistory := 50

  const Empty := History([], [])

  /** Together the two stacks never hold more than `MaxHistory` snapshots. */
  predicate Bounded(h: History) {
    |h.past| + |h.future| <= MaxHistory
  }

  /** Records the state before an edit; the oldest snapshot goes once there are more than `MaxHistory`. */
  function PushSnapshot(h: History, s: Snapshot): (r: History)
    ensures r.future == []
    ensures |r.past| > 0 && r.past[|r.past| - 1] == s
    ensures |h.past| < MaxHistory ==> r.past == h.past + [s]
    ensures |h.past| >= MaxHistory ==> r.past == h.past[1..] + [s]
    ensures Bounded(h) ==> Bounded(r)
  {
    var stack := h.past + [s];
    var trimmed := if |stack| > MaxHistory then stack[1..] else stack;
    History(trimmed, [])
  }

  function CanUndo(h: History): bool {
    |h.past| > 0
  }

  function CanRedo(h: History): bool {
    |h.future| > 0
  }

  /** Steps back: the current state goes onto the redo stack, the last past state is returned. */
  function Undo(h: History, current: Snapshot): (r: Step)
    ensures !CanUndo(h) ==> r == Step(h, None)
    ensures CanUndo(h) ==>
      r.state == Some(h.past[|h.past| - 1]) &&
      r.history.past == h.past[..|h.past| - 1] &&
      r.history.future == h.future + [current]
    ensures |r.history.past| + |r.history.future| == |h.past| + |h.future|
  {
    if |h.past| == 0 then Step(h, None)
    else
      var n := |h.past|;
      Step(History(h.past[..n - 1], h.future + [current]), Some(h.past[n - 1]))
  }

  /** Steps forward: the current state goes back onto the undo stack, the last future state is returned. */
  function Redo(h: History, current: Snapshot): (r: Step)
    ensures !CanRedo(h) ==> r == Step(h, None)
    ensures CanRedo(h) ==>
      r.state == Some(h.future[|h.future| - 1]) &&
      r.history.future == h.future[..|h.future| - 1] &&
      r.history.past == h.past + [current]
    ensures |r.history.past| + |r.history.future| == |h.past| + |h.future|
  {
    if |h.future| == 0 then Step(h, None)
    else
      var n := |h.future|;
      Step(History(h.past + [current], h.future[..n - 1]), Some(h.future[n - 1]))
  }

  /** Redo right after an undo restores both the history and the state that was current. */
  lemma RedoUndoesUndo(h: History, current: Snapshot)
    requires CanUndo(h)
    ensures var u := Undo(h, current);
            Redo(u.history, u.state.value) == Step(h, Some(current))
  {
    var u := Undo(h, current);
    assert u.history.past + [u.state.value] == h.past;
    assert (h.future + [current])[..|h.future|] == h.future;
  }

  /** Undo right after a redo restores both the history and the state that was current. */
  lemma UndoUndoesRedo(h: History, current: Snapshot)
    requires CanRedo(h)
    ensures var r := Redo(h, current);
            Undo(r.history, r.state.value) == Step(h, Some(current))
  {
    var r := Redo(h, current);
    assert r.history.future + [r.state.value] == h.future;
    assert (h.past + [current])[..|h.past|] == h.past;
  }

  /** An undo right after recording a state brings that state back, and nothing is left to redo but the present. */
  lemma UndoAfterPush(h: History, s: Snapshot, current: Snapshot)
    ensures var u := Undo(PushSnapshot(h, s), current);
            u.state == Some(s) && u.history.future == [current]
  {
  }

  /** Each operation keeps the two stacks within `MaxHistory` snapshots in total. */
  lemma OperationsStayBounded(h: History, s: Snapshot)
    requires Bounded(h)
    ensures Bounded(PushSnapshot(h, s))
    ensures Bounded(Undo(h, s).history)
    ensures Bounded(Redo(h, s).history)
  {
  }
}
