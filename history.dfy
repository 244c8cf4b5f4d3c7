/**
 The undo history over many steps: every recorded command leaves behind the
 state it replaced, so `undo k` returns to the state before the k-th most
 recent recorded command, and an undo can itself be undone.
 */
module History {

  import opened Todo
  import opened Validation
  import opened Session
  import Parser

  /** Applies the commands one after the other. */
  function Replay(s: State, cs: seq<Option<Command>>): (final: State)
    decreases |cs|
  {
    if cs == [] then s else Replay(Exec(s, cs[0]).next, cs[1..])
  }

  /** Every command of `cs`, applied in turn from `s`, is accepted and recorded. */
  predicate AllApplied(s: State, cs: seq<Option<Command>>)
    decreases |cs|
  {
    cs == [] || (Exec(s, cs[0]).outcome == Applied && AllApplied(Exec(s, cs[0]).next, cs[1..]))
  }

  /** The user as it was just before each command of `cs`, in order. */
  function Befores(s: State, cs: seq<Option<Command>>): (us: seq<User>)
    ensures |us| == |cs|
    decreases |cs|
  {
    if cs == [] then [] else [s.user] + Befores(Exec(s, cs[0]).next, cs[1..])
  }

  /**
   The history holds, in order, the state before every recorded command:
   after a run of accepted commands it has grown by exactly those states.
   */
  lemma {:induction false} HistoryRecordsEveryChange(s: State, cs: seq<Option<Command>>)
    requires AllApplied(s, cs)
    ensures Replay(s, cs).history == s.history + Befores(s, cs)
    decreases |cs|
  {
    if cs != [] {
      var s1 := Exec(s, cs[0]).next;
      HistoryRecordsEveryChange(s1, cs[1..]);
      assert s1.history == s.history + [s.user];
    }
  }

  /**
   After N accepted commands, `undo k` with `1 <= k <= N` restores the user
   exactly as it was before the (N - k + 1)-th of them.
   */
  lemma UndoReturnsToEarlierState(s: State, cs: seq<Option<Command>>, k: Usize)
    requires AllApplied(s, cs)
    requires 1 <= k <= |cs|
    ensures Exec(Replay(s, cs), Some(Undo(k))).next.user == Befores(s, cs)[|cs| - k]
  {
    HistoryRecordsEveryChange(s, cs);
    var r := Replay(s, cs);
    UndoRestoresSnapshot(r, k);
    assert r.history[|r.history| - k] == Befores(s, cs)[|cs| - k];
  }

  /** `undo 1` reverts the most recent recorded command, whatever it was. */
  lemma UndoOneRevertsLast(s: State, c: Option<Command>)
    requires Exec(s, c).outcome == Applied
    ensures Exec(Exec(s, c).next, Some(Undo(1))).next.user == s.user
  {
    UndoRestoresSnapshot(Exec(s, c).next, 1);
  }

  /** An undo is recorded like any other command, so `undo 1` right after it returns to the state before it. */
  lemma UndoIsUndoable(s: State, k: Usize)
    requires 1 <= k <= |s.history|
    ensures var after := Exec(s, Some(Undo(k))).next;
      && after.user == s.history[|s.history| - k]
      && Exec(after, Some(Undo(1))).next.user == s.user
  {
    UndoRestoresSnapshot(s, k);
    UndoOneRevertsLast(s, Some(Undo(k)));
  }

  /** No sequence of commands changes the user's name, since every restored snapshot is a copy of the same user. */
  lemma {:induction false} NameNeverChanges(s: State, cs: seq<Option<Command>>)
    requires SameOwner(s)
    ensures SameOwner(Replay(s, cs)) && Replay(s, cs).user.name == s.user.name
    decreases |cs|
  {
    if cs != [] {
      NameNeverChanges(Exec(s, cs[0]).next, cs[1..]);
    }
  }

  /** The parsed form of each input line, in order. */
  function ParseAll(lines: seq<string>): (cs: seq<Option<Command>>)
    ensures |cs| == |lines|
    decreases |lines|
  {
    if lines == [] then [] else [Parser.Parse(lines[0])] + ParseAll(lines[1..])
  }

  /** No line of `lines` is a `quit`. */
  predicate NoQuit(lines: seq<string>)
  {
    Some(Quit) !in ParseAll(lines)
  }

  /**
   Without a `quit`, the read loop applies every line in turn: it is `Replay`
   of the parsed lines, so what `Session.Run` leaves is covered by the
   theorems above.
   */
  lemma {:induction false} RunLinesReplays(s: State, lines: seq<string>)
    requires NoQuit(lines)
    ensures RunLines(s, lines) == Replay(s, ParseAll(lines))
    decreases |lines|
  {
    if lines != [] {
      var cs := ParseAll(lines);
      HeadTail(Parser.Parse(lines[0]), ParseAll(lines[1..]));
      assert cs[0] in cs;
      RunLinesReplays(Exec(s, cs[0]).next, lines[1..]);
    }
  }

  /**
   With a `quit` line after the quit-free lines `pre`, the loop ends there: the
   state is `Replay` of `pre`, and the lines `post` after the `quit` are never read.
   */
  lemma {:induction false} RunLinesStopsAtQuit(s: State, pre: seq<string>, quit: string, post: seq<string>)
    requires NoQuit(pre) && Parser.Parse(quit) == Some(Quit)
    ensures RunLines(s, pre + [quit] + post) == Replay(s, ParseAll(pre))
    decreases |pre|
  {
    var lines := pre + [quit] + post;
    if pre == [] {
      assert lines[0] == quit;
      RunLinesQuit(s, lines);
    } else {
      var cs := ParseAll(pre);
      HeadTail(Parser.Parse(pre[0]), ParseAll(pre[1..]));
      assert cs[0] in cs;
      AroundQuit(pre, quit, post);
      var next := RunLinesStep(s, lines);
      RunLinesStopsAtQuit(next, pre[1..], quit, post);
    }
  }

  /** A sequence built from a head and a tail gives them back. */
  lemma HeadTail<T>(x: T, xs: seq<T>)
    ensures ([x] + xs)[0] == x && ([x] + xs)[1..] == xs
  {
  }

  /** Dropping the first of the lines before a marker keeps the marker and what follows. */
  lemma AroundQuit<T>(pre: seq<T>, q: T, post: seq<T>)
    requires pre != []
    ensures (pre + [q] + post)[0] == pre[0]
    ensures (pre + [q] + post)[1..] == pre[1..] + [q] + post
  {
  }

  /** A first line that is a `quit` ends the loop with the state unchanged. */
  lemma RunLinesQuit(s: State, lines: seq<string>)
    requires lines != [] && Parser.Parse(lines[0]) == Some(Quit)
    ensures RunLines(s, lines) == s
  {
    InertCommands(s, Parser.Parse(lines[0]));
  }

  /** A first line that is not a `quit` is applied, and the loop goes on with the rest. */
  lemma RunLinesStep(s: State, lines: seq<string>) returns (next: State)
    requires lines != [] && Parser.Parse(lines[0]) != Some(Quit)
    ensures next == Exec(s, Parser.Parse(lines[0])).next
    ensures RunLines(s, lines) == RunLines(next, lines[1..])
  {
    next := Exec(s, Parser.Parse(lines[0])).next;
  }

  // ---------------------------------------------------------------------
  // A worked session
  // ---------------------------------------------------------------------

  /** The help-text lines of the `add` and `clear` commands used in the sample sessions below. */
  lemma DocumentedWords()
    ensures Parser.Format(Add(Task("Buy milk", false))) == "add Buy milk"
    ensures Parser.Format(Add(Task("Walk dog", false))) == "add Walk dog"
    ensures Parser.Format(Clear) == "clear"
  {
  }

  /** The help-text lines of the commands with a task number or undo count used below. */
  lemma DocumentedNumbers()
    ensures Parser.Format(Complete(1)) == "complete 1"
    ensures Parser.Format(Remove(2)) == "remove 2"
    ensures Parser.Format(Undo(1)) == "undo 1"
  {
    SingleDigits();
  }

  /** The help-text line of the `update` command used below. */
  lemma DocumentedUpdate()
    ensures Parser.Format(Update(5, "New title")) == "update 5 New title"
  {
    SingleDigits();
  }

  /** The numerals of the task numbers used below. */
  lemma SingleDigits()
    ensures Parser.Decimal(1) == "1" && Parser.Decimal(2) == "2" && Parser.Decimal(5) == "5"
  {
  }

  /**
   The lines of the shopping session parse to the commands they name.
   The lines are parameters fixed by `requires`, so that the verifier does not
   evaluate the parser on string literals, which is slow.
   */
  lemma ShoppingLines(l1: string, l2: string, l3: string, l4: string, l5: string)
    requires l1 == "add Buy milk" && l2 == "add Walk dog" && l3 == "complete 1"
    requires l4 == "remove 2" && l5 == "undo 1"
    ensures Parser.Parse(l1) == Some(Add(Task("Buy milk", false)))
    ensures Parser.Parse(l2) == Some(Add(Task("Walk dog", false)))
    ensures Parser.Parse(l3) == Some(Complete(1))
    ensures Parser.Parse(l4) == Some(Remove(2))
    ensures Parser.Parse(l5) == Some(Undo(1))
  {
    DocumentedWords();
    DocumentedNumbers();
    Parser.ParseFormat(Add(Task("Buy milk", false)));
    Parser.ParseFormat(Add(Task("Walk dog", false)));
    Parser.ParseFormat(Complete(1));
    Parser.ParseFormat(Remove(2));
    Parser.ParseFormat(Undo(1));
  }

  /**
   Two adds, a complete, a remove and `undo 1` from an empty list: the undo
   brings back exactly the removed task and nothing else.
   The lines are parameters fixed by `requires`, so that the verifier does not
   evaluate the parser on string literals, which is slow.
   */
  lemma ShoppingSession(name: string, l1: string, l2: string, l3: string, l4: string, l5: string)
    requires l1 == "add Buy milk" && l2 == "add Walk dog" && l3 == "complete 1"
    requires l4 == "remove 2" && l5 == "undo 1"
    ensures var milk, dog := Task("Buy milk", false), Task("Walk dog", false);
      var s0 := State(User(name, []), []);
      var s1 := Exec(s0, Parser.Parse(l1)).next;
      var s2 := Exec(s1, Parser.Parse(l2)).next;
      var s3 := Exec(s2, Parser.Parse(l3)).next;
      var s4 := Exec(s3, Parser.Parse(l4)).next;
      var s5 := Exec(s4, Parser.Parse(l5)).next;
      && s1.user.tasks == [milk]
      && s2.user.tasks == [milk, dog]
      && s3.user.tasks == [milk.(completed := true), dog]
      && s4.user.tasks == [milk.(completed := true)]
      && s5.user.tasks == [milk.(completed := true), dog]
      && |s5.history| == 5
  {
    ShoppingLines(l1, l2, l3, l4, l5);
    ShoppingSteps(name);
  }

  /** The shopping session over the parsed commands. */
  lemma ShoppingSteps(name: string)
    ensures var milk, dog := Task("Buy milk", false), Task("Walk dog", false);
      var s0 := State(User(name, []), []);
      var s1 := Exec(s0, Some(Add(milk))).next;
      var s2 := Exec(s1, Some(Add(dog))).next;
      var s3 := Exec(s2, Some(Complete(1))).next;
      var s4 := Exec(s3, Some(Remove(2))).next;
      var s5 := Exec(s4, Some(Undo(1))).next;
      && s1.user.tasks == [milk]
      && s2.user.tasks == [milk, dog]
      && s3.user.tasks == [milk.(completed := true), dog]
      && s4.user.tasks == [milk.(completed := true)]
      && s5.user.tasks == [milk.(completed := true), dog]
      && |s5.history| == 5
  {
    var milk, dog := Task("Buy milk", false), Task("Walk dog", false);
    var done := milk.(completed := true);
    var u0, u1, u2 := User(name, []), User(name, [milk]), User(name, [milk, dog]);
    var u3, u4 := User(name, [done, dog]), User(name, [done]);
    var s0 := State(u0, []);
    var s1 := Exec(s0, Some(Add(milk))).next;
    assert s1 == State(u1, [u0]);
    var s2 := Exec(s1, Some(Add(dog))).next;
    assert s2 == State(u2, [u0, u1]);
    var s3 := Exec(s2, Some(Complete(1))).next;
    assert s3 == State(u3, [u0, u1, u2]);
    var s4 := Exec(s3, Some(Remove(2))).next;
    assert s4 == State(u4, [u0, u1, u2, u3]);
    var s5 := Exec(s4, Some(Undo(1))).next;
    assert s5 == State(u3, [u0, u1, u2, u3, u4]);
  }

  /**
   `update 5 New title` on a two-task list is refused as out of range, and nothing changes.
   The lines are parameters fixed by `requires`, so that the verifier does not
   evaluate the parser on string literals, which is slow.
   */
  lemma UpdateOutOfRange(s: State, line: string)
    requires line == "update 5 New title"
    requires |s.user.tasks| == 2
    ensures Exec(s, Parser.Parse(line)) == Transition(s, Rejected(InvalidArgument))
  {
    DocumentedUpdate();
    Parser.ParseFormat(Update(5, "New title"));
  }

  /**
   `clear` on an empty list is still recorded, and `undo 1` brings back the (empty) list.
   The lines are parameters fixed by `requires`, so that the verifier does not
   evaluate the parser on string literals, which is slow.
   */
  lemma ClearOnEmptyIsRecorded(name: string, clear: string, undo: string)
    requires clear == "clear" && undo == "undo 1"
    ensures var s1 := Exec(State(User(name, []), []), Parser.Parse(clear)).next;
      && s1.history == [User(name, [])]
      && Exec(s1, Parser.Parse(undo)).next.user == User(name, [])
  {
    DocumentedWords();
    DocumentedNumbers();
    Parser.ParseFormat(Clear);
    Parser.ParseFormat(Undo(1));
    ClearSteps(name);
  }

  /** `clear` then `undo 1` from an empty list, over the parsed commands. */
  lemma ClearSteps(name: string)
    ensures var s1 := Exec(State(User(name, []), []), Some(Clear)).next;
      && s1.history == [User(name, [])]
      && Exec(s1, Some(Undo(1))).next.user == User(name, [])
  {
  }
}
