# cli-todo command interpreter, modelled in Dafny

cli-todo is a single-user to-do list driven by typed commands. It reads one line
at a time, turns the line into a `Command` (`add`, `update`, `remove`, `clear`,
`complete`, `undo`, `help`, `quit`) and applies it to the user's task list. Before
each command that changes the list, it pushes a full copy of the user onto a
session-long history, so `undo k` can return to any earlier state. Undo is itself
recorded, which makes it undoable.

The model has five modules:

- `Todo` (`todo.dfy`) holds the entities: `Task`, `User`, `Command`, Rust's
  `Option`, and the 64-bit `usize` range as the subset type `Usize`.
- `Validation` (`validation.dfy`) holds the two bounds checks. Each returns a
  `Verdict` naming the diagnostic it would print, or `Valid`.
- `Parser` (`parser.dfy`) models `Command::op`. It covers Rust's `str::trim`
  (Unicode White_Space at both ends), `splitn(2, ' ')`, and
  `parse::<usize>().unwrap_or(usize::MAX)` (an optional `+`, then ASCII digits
  that fit in 64 bits). It also gives `Format`, the line the help text shows for each
  command, and proves that parsing that line gives back the command.
- `Session` (`session.dfy`) models one pass of the main loop's `match` as the pure
  transition `Exec` over the live user and the history. The class
  `Session.Session` keeps those two loop variables as fields. It updates them in
  place with `Step` (one command) and `Run` (the read loop), and both methods are
  proved to follow `Exec`.
- `History` (`history.dfy`) proves properties of many steps: the history records
  every change, `undo k` returns to the state before the k-th most recent change,
  and undo can be undone. It ties the state the read loop leaves to those
  theorems, and works through two sample sessions: two adds, a complete, a
  remove and `undo 1`; and `clear` then `undo 1` on an empty list.

## Model

| member | source | states |
|---|---|---|
| Validation.CheckTaskNum | src/validation.rs:9-19 | A task number is valid iff the list is non-empty and `1 <= tId <= len`. An empty list gives the "list empty" diagnostic, which wins over the range check. A non-empty list with a number outside `1..len` gives "invalid argument". |
| Validation.CheckUndo | src/validation.rs:27-37 | An undo count is valid iff the history is non-empty and `1 <= steps <= len`. An empty history gives "nothing to undo". Otherwise a count outside `1..len` gives "invalid argument". |
| Validation.TaskIndexInBounds | src/main.rs:119-134 | When the check passes, `t_id - 1` is a position of the task list. |
| Validation.UndoIndexInBounds | src/main.rs:138-142 | When the undo check passes, `cache_size - steps - 1` (with `cache_size` read after the push) neither underflows nor reaches the snapshot just pushed. |
| Validation.SentinelRejected | src/main.rs:74-82 | The `usize::MAX` that stands for an unparsable number never passes either check on a shorter list or history. On a non-empty one it is reported as an invalid argument. |
| Parser.TrimStart | src/main.rs:67 | Leading whitespace removed: the result is a suffix, what was dropped is all whitespace, and the result starts with non-whitespace. |
| Parser.TrimEnd | src/main.rs:67 | The mirror image of `TrimStart` at the end of the string. |
| Parser.Trim | src/main.rs:67 | The result starts and ends with non-whitespace, is no longer than the input, and is empty exactly when the input is all whitespace. |
| Parser.TrimIgnoresPadding | src/main.rs:67 | Whitespace added around a string never changes its trimmed form. |
| Parser.TrimIdempotent | src/main.rs:67 | Trimming twice is the same as trimming once. |
| Parser.SplitOnce | src/main.rs:67 | `splitn(2, ' ')` gives one piece iff there is no space; otherwise the first piece has no space, and the two pieces joined by a space give back the string. |
| Parser.SplitOnceJoin | src/main.rs:72 | Splitting a space-free word, a space and a rest gives exactly that word and that rest: splitting inverts joining. |
| Parser.ParseUsize | src/main.rs:74 | Text with no digit becomes `usize::MAX`. Any other result comes from text that ends in a digit. |
| Parser.ParseUsizeDigits | src/main.rs:74 | A run of ASCII digits whose value fits in a `usize` parses to that value, with or without a leading `+` (leading zeros allowed). |
| Parser.LeadingZero | src/main.rs:74 | A leading zero does not change a numeral's value, so `007` is read as 7. |
| Parser.ParseUsizeNoDigits | src/main.rs:74 | The empty text and a lone `+` give the sentinel `usize::MAX`. |
| Parser.ParseUsizeNonDigit | src/main.rs:74 | Any character other than a digit after the optional leading `+` (a `-` sign, a letter, a space) gives the sentinel. |
| Parser.ParseUsizeOverflow | src/main.rs:74 | A digit run whose value exceeds `usize::MAX` gives the sentinel, with or without a `+`. |
| Parser.ParseUsizeAccepted | src/main.rs:74 | Conversely, any result other than the sentinel comes from an optional `+` followed by a digit run with exactly that value. |
| Parser.ParseUsizeDecimal | src/main.rs:79-82 | The decimal numeral of any `usize`, with or without a leading `+`, parses back to that number. |
| Parser.Parse | src/main.rs:65-88 | A recognised line always starts (after trimming) with one of the eight keywords. |
| Parser.Match | src/main.rs:69-86 | The match on the one or two pieces: only a keyword as first piece can yield a command. Each arm is stated by `NumericArguments`, `TextArguments`, `HelpQuitIgnoreRest`, `BareKeywords` and `UpdateNeedsTitle`. |
| Parser.NumericArguments | src/main.rs:79-82 | For `remove`, `complete` and `undo`, the whole text after the keyword's space is read as the number. |
| Parser.RemoveTwoWords | src/main.rs:79 | `remove 1 2` is not `remove 1`: the argument `1 2` is not a number, so it asks for task `usize::MAX`. |
| Parser.TextArguments | src/main.rs:70-85 | `add` keeps the whole text after its space as an uncompleted task's title. `update` cuts that text once more at its first space: the id token is read as a number and the rest is the new title, and without a second space the line is refused. `clear` followed by any text is refused. |
| Parser.UpdateBadId | src/main.rs:71-74 | An `update` whose id token is not a number (`update abc x`) asks to retitle task `usize::MAX`. |
| Parser.UpdateLeadingZeros | src/main.rs:71-74 | Leading zeros in the id token of `update` are dropped: `update 007 x` retitles task 7. |
| Parser.HelpQuitIgnoreRest | src/main.rs:83-84 | The line parses to `Help` (resp. `Quit`) iff its first word is `help` (resp. `quit`), whatever follows. |
| Parser.BareKeywords | src/main.rs:70-82 | The line parses to `Clear` iff the trimmed line is exactly `clear`. A keyword that needs an argument is refused when it stands alone. |
| Parser.UpdateNeedsTitle | src/main.rs:71-77 | `update` followed by a single word (a number but no title) is refused. |
| Parser.ParsedWellFormed | src/main.rs:67-78 | Every title the parser produces, for `add` or `update`, is non-empty and does not end in whitespace. |
| Parser.ParsedAdd | src/main.rs:70 | A parsed `add` holds an uncompleted task whose title is the whole rest of the trimmed line after the first space. |
| Parser.ParseIgnoresPadding | src/main.rs:67 | Whitespace around a line never changes the command it parses to. |
| Parser.ParseFormat | src/printing.rs:71-78 | Every command the parser can produce, written in the form the help text documents, parses back to itself. |
| Parser.ParseFormatParse | src/main.rs:65-88 | Parsing is a normal form: re-parsing the help-text form of a parsed command gives the same command. |
| Session.Exec | src/main.rs:113-153 | A command changes the state iff it is recognised and passes its bounds check (`add` and `clear` always pass; `help` and `quit` never change anything). A change pushes exactly the previous user onto the history. Anything else leaves the state as it was. Only `quit` stops the loop. The user's name is never changed. |
| Session.AddAppends | src/main.rs:114-117 | `add` always succeeds and appends the new task after the unchanged old ones. The name is kept and the previous user is pushed onto the history. |
| Session.ClearEmpties | src/main.rs:146-149 | `clear` always succeeds, empties the list, keeps the name, and records the previous user. |
| Session.BadTaskNumberChangesNothing | src/main.rs:118-136 | For `update`, `complete` and `remove`, a number the check refuses leaves the tasks and the history unchanged and reports the check's diagnostic. |
| Session.UpdateRetitles | src/main.rs:118-123 | A valid `update` changes that task's title, keeps its flag, and leaves every other task and the name unchanged. The previous user is pushed onto the history. |
| Session.CompleteToggles | src/main.rs:124-130 | A valid `complete` flips that task's flag, keeps its title, and leaves every other task and the name unchanged. The previous user is pushed onto the history. |
| Session.CompleteTwiceRestores | src/main.rs:44-46 | Completing the same task twice gives back the original tasks (a completed task is uncompleted). |
| Session.RemoveShifts | src/main.rs:131-136 | A valid `remove` deletes that task. Earlier tasks keep their positions and later ones move down by one. The name is kept and the previous user is pushed onto the history. |
| Session.UndoRestoresSnapshot | src/main.rs:137-144 | A valid `undo k` records the current user and restores the snapshot taken `k` recorded commands ago. |
| Session.BadUndoChangesNothing | src/main.rs:137-138 | An undo count of 0, or one larger than the history, changes nothing and reports the diagnostic. |
| Session.InertCommands | src/main.rs:150-152 | `help`, `quit` and unrecognised input leave the tasks and the history alone. |
| Session.Session.constructor | src/main.rs:100-101 | The loop starts with the loaded user and an empty history. |
| Session.Session.Step | src/main.rs:113-153 | The in-place update of the two loop variables yields exactly the state and outcome of `Exec`, keeps the history owned by the same user, and signals a stop exactly on `quit`. |
| Session.Session.Run | src/main.rs:109-157 | Running the loop over a sequence of lines leaves the state that `RunLines` gives: every line is applied in turn up to and including the first `quit`. |
| History.HistoryRecordsEveryChange | src/main.rs:113-149 | After a run of accepted commands, the history has grown by exactly the users as they were before each of those commands, in order. |
| History.UndoReturnsToEarlierState | src/main.rs:137-144 | After N accepted commands, `undo k` with `1 <= k <= N` restores the user exactly as it was before the (N - k + 1)-th of them. |
| History.UndoOneRevertsLast | src/main.rs:137-144 | `undo 1` right after any accepted command restores the user from before that command. |
| History.UndoIsUndoable | src/main.rs:47-48 | `undo k` restores the k-th latest snapshot, and `undo 1` right after it returns to the state before the undo. |
| History.RunLinesReplays | src/main.rs:109-157 | When no line is a `quit`, the read loop's final state is `Replay` of the parsed lines, so the history and undo theorems apply to what `Session.Run` leaves. |
| History.RunLinesStopsAtQuit | src/main.rs:109-157 | For quit-free lines, then a `quit` line, then any further lines, the read loop's final state is `Replay` of the lines before the `quit`; the lines after it are never applied. |
| History.NameNeverChanges | src/main.rs:113-153 | No sequence of commands changes the user's name or lets a snapshot of another user into the history. |
| History.ShoppingLines | src/main.rs:65-88 | The sample lines `add Buy milk`, `add Walk dog`, `complete 1`, `remove 2` and `undo 1` parse to the commands they name. |
| History.ShoppingSteps | src/main.rs:113-149 | From an empty list, those five commands give the task lists `[Buy milk]`, `[Buy milk, Walk dog]`, then with `Buy milk` completed, then `[Buy milk]`. After `undo 1` the removed task is back, with `Buy milk` still completed, and five snapshots are recorded. |
| History.ShoppingSession | src/main.rs:109-149 | The same sample session, starting from the input lines. |
| History.UpdateOutOfRange | src/main.rs:118-123 | `update 5 New title` on a two-task list is refused as an invalid argument, and nothing changes. |
| History.ClearSteps | src/main.rs:146-149 | `clear` on an empty list is recorded, and `undo 1` then restores the (empty) user. |
| History.ClearOnEmptyIsRecorded | src/main.rs:137-149 | The same, starting from the input lines `clear` and `undo 1`. |

## Left out

- Storage is not part of this model: loading the user from its JSON file, and writing it back after every loop pass and on exit. The loaded user is a parameter of the `Session` constructor.
- Printing is not part of this model: the task box, the help text, the prompt and the colours. A step reports an `Outcome`, and a refused check reports which diagnostic (a `Verdict`), instead of the text.
- The username prompt and reading lines from standard input are not modelled. `Run` takes the input lines as a sequence, and an I/O error on reading (the `expect` panics) is not modelled.
- The `Swap`, `Search` and `Move` commands are commented out in the source and do not exist there, so they are not modelled.
- Task lists and the history are unbounded sequences. A `Vec` growing beyond its capacity (an allocation failure) is not modelled.
- `usize` is taken to be 64 bits wide. On a 32-bit target the sentinel and the largest accepted number would be `0xFFFF_FFFF`.
- Splitting: only the space character `' '` splits the line, as `splitn(2, ' ')` does; a tab or other whitespace inside the line does not. Whitespace at either end is removed by the trim before the split.
- The wording of the diagnostics is not modelled. The undo usage message says the count must be smaller than the number of commands, but the check accepts a count equal to it, and the model follows the check. The help line for `remove` mentions a title, but the command takes a task number.
