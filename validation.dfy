/**
 The two bounds checks that guard the executor's index arithmetic.
 Each answers "valid or not"; instead of printing a diagnostic, the model
 returns which diagnostic would be printed.
 */
module Validation {

  import opened Todo

  /** The answer of a bounds check: `Valid` is the `true` result, every other tag names the message shown. */
  datatype Verdict =
    | Valid
    | ListEmpty        // the task list has no tasks yet
    | NothingToUndo    // no command has been recorded in this session
    | InvalidArgument  // the number is outside 1..len; the caller's usage line follows

  /**
   Whether `tId` names a task of a list of `len` tasks (1-based).
   The empty-list case is decided first, so it wins over the range check.
   */
  function CheckTaskNum(tId: nat, len: nat): (v: Verdict)
    ensures v == Valid <==> 0 < len && 1 <= tId <= len
    ensures v == ListEmpty <==> len == 0
    ensures v == InvalidArgument <==> 0 < len && (tId == 0 || len < tId)
    ensures v != NothingToUndo
  {
    if len == 0 then ListEmpty
    else if tId <= 0 || tId > len then InvalidArgument
    else Valid
  }

  /**
   Whether `steps` commands of a history of `len` snapshots can be undone.
   Same shape as `CheckTaskNum`, over the history length.
   */
  function CheckUndo(steps: nat, len: nat): (v: Verdict)
    ensures v == Valid <==> 0 < len && 1 <= steps <= len
    ensures v == NothingToUndo <==> len == 0
    ensures v == InvalidArgument <==> 0 < len && (steps == 0 || len < steps)
    ensures v != ListEmpty
  {
    if len == 0 then NothingToUndo
    else if steps <= 0 || steps > len then InvalidArgument
    else Valid
  }

  /** A valid task number makes `tId - 1` a position of the list. */
  lemma TaskIndexInBounds(tId: nat, len: nat)
    requires CheckTaskNum(tId, len) == Valid
    ensures 0 <= tId - 1 < len
  {
  }

  /**
   A valid undo count keeps the executor's arithmetic in range: once the
   current state is pushed (the history then has `len + 1` entries),
   `cacheSize - steps - 1` neither underflows nor reaches the entry just
   pushed.
   */
  lemma UndoIndexInBounds(steps: nat, len: nat)
    requires CheckUndo(steps, len) == Valid
    ensures var cacheSize := len + 1; 0 <= cacheSize - steps - 1 < len
  {
  }

  /**
   The parser's sentinel is never a valid position of a list shorter than
   `usize::MAX`, so non-numeric arguments surface as an out-of-range or
   empty-list error.
   */
  lemma SentinelRejected(len: nat)
    requires len < USIZE_MAX
    ensures CheckTaskNum(USIZE_MAX, len) != Valid && CheckUndo(USIZE_MAX, len) != Valid
    ensures 0 < len ==> CheckTaskNum(USIZE_MAX, len) == InvalidArgument && CheckUndo(USIZE_MAX, len) == InvalidArgument
  {
  }
}
