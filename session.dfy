/**
 The interpreter session: the live user, the history of snapshots, and the
 step that applies one parsed command to them.

 `Exec` is the transition as a function of the state; the class `Session`
 holds the state in fields and changes it in place with `Step` (one input
 line) and `Run` (the read loop), each proved to follow `Exec`.
 */
module Session {

  import opened Todo
  import opened Validation
  import Parser

  /** What one step reports instead of the text it would print. */
  datatype Outcome =
    | Applied                  // the command changed the user and was recorded in the history
    | Rejected(why: Verdict)   // a bounds check refused the number; nothing changed
    | HelpShown
    | Unrecognized
    | Quitting

  /** The live user and the snapshots taken before each recorded command, oldest first. */
  datatype State = State(user: User, history: seq<User>)

  /** The state a step leads to and what it reports. */
  datatype Transition = Transition(next: State, outcome: Outcome)

  /** Every snapshot belongs to the live user: the history only ever holds copies of that user. */
  ghost predicate SameOwner(s: State)
  {
    forall i :: 0 <= i < |s.history| ==> s.history[i].name == s.user.name
  }

  /** The commands that change the state, and when: the reference for `Exec`'s bounds checks. */
  predicate Accepted(s: State, c: Command)
  {
    match c
    case Add(_) => true
    case Clear => true
    case Update(id, _) => 1 <= id <= |s.user.tasks|
    case Complete(id) => 1 <= id <= |s.user.tasks|
    case Remove(id) => 1 <= id <= |s.user.tasks|
    case Undo(steps) => 1 <= steps <= |s.history|
    case Help => false
    case Quit => false
  }

  /**
   One pass of the session loop's `match`. A command that changes the user
   first pushes the pre-command user onto the history; a refused or inert
   command changes nothing.
   */
  function Exec(s: State, c: Option<Command>): (t: Transition)
    ensures t.outcome == Applied <==> c.Some? && Accepted(s, c.value)
    ensures t.outcome == Applied ==> t.next.history == s.history + [s.user]
    ensures t.outcome != Applied ==> t.next == s
    ensures t.outcome == Quitting <==> c == Some(Quit)
    ensures SameOwner(s) ==> SameOwner(t.next) && t.next.user.name == s.user.name
  {
    var u := s.user;
    var pushed := s.history + [u];
    match c
    case Some(Add(task)) =>
      Transition(State(u.(tasks := u.tasks + [task]), pushed), Applied)
    case Some(Update(tId, title)) =>
      var v := CheckTaskNum(tId, |u.tasks|);
      if v == Valid then
        var i := tId - 1;
        Transition(State(u.(tasks := u.tasks[i := u.tasks[i].(title := title)]), pushed), Applied)
      else Transition(s, Rejected(v))
    case Some(Complete(tId)) =>
      var v := CheckTaskNum(tId, |u.tasks|);
      if v == Valid then
        var i := tId - 1;
        Transition(State(u.(tasks := u.tasks[i := u.tasks[i].(completed := !u.tasks[i].completed)]), pushed), Applied)
      else Transition(s, Rejected(v))
    case Some(Remove(tId)) =>
      var v := CheckTaskNum(tId, |u.tasks|);
      if v == Valid then
        var i := tId - 1;
        Transition(State(u.(tasks := u.tasks[..i] + u.tasks[i + 1..]), pushed), Applied)
      else Transition(s, Rejected(v))
    case Some(Undo(steps)) =>
      var v := CheckUndo(steps, |s.history|);
      if v == Valid then
        var cacheSize := |pushed|;
        Transition(State(pushed[cacheSize - steps - 1], pushed), Applied)
      else Transition(s, Rejected(v))
    case Some(Clear) =>
      Transition(State(u.(tasks := []), pushed), Applied)
    case Some(Help) => Transition(s, HelpShown)
    case Some(Quit) => Transition(s, Quitting)
    case None => Transition(s, Unrecognized)
  }

  // ---------------------------------------------------------------------
  // What each command does to the state
  // ---------------------------------------------------------------------

  /** `add` always succeeds: one more task, the new one last, the others and the name unchanged, the old user recorded. */
  lemma AddAppends(s: State, task: Task)
    ensures var t := Exec(s, Some(Add(task)));
      && t.outcome == Applied
      && t.next.user.name == s.user.name
      && t.next.history == s.history + [s.user]
      && |t.next.user.tasks| == |s.user.tasks| + 1
      && t.next.user.tasks[..|s.user.tasks|] == s.user.tasks
      && t.next.user.tasks[|s.user.tasks|] == task
  {
  }

  /** `clear` always succeeds, also on an empty list, and is recorded so it can be undone. */
  lemma ClearEmpties(s: State)
    ensures var t := Exec(s, Some(Clear));
      && t.outcome == Applied
      && t.next.user.tasks == []
      && t.next.user.name == s.user.name
      && t.next.history[|s.history|] == s.user
  {
  }

  /** A task number the bounds check refuses leaves the tasks and the history as they were. */
  lemma BadTaskNumberChangesNothing(s: State, c: Command)
    requires c.Update? || c.Complete? || c.Remove?
    requires CheckTaskNum(c.id, |s.user.tasks|) != Valid
    ensures Exec(s, Some(c)) == Transition(s, Rejected(CheckTaskNum(c.id, |s.user.tasks|)))
  {
  }

  /** `update` on a valid position changes that task's title and nothing else, and records the old user. */
  lemma UpdateRetitles(s: State, id: Usize, title: string)
    requires 1 <= id <= |s.user.tasks|
    ensures var t := Exec(s, Some(Update(id, title)));
      var tasks := t.next.user.tasks;
      && t.outcome == Applied
      && t.next.user.name == s.user.name
      && t.next.history == s.history + [s.user]
      && |tasks| == |s.user.tasks|
      && tasks[id - 1] == Task(title, s.user.tasks[id - 1].completed)
      && forall j :: 0 <= j < |tasks| && j != id - 1 ==> tasks[j] == s.user.tasks[j]
  {
  }

  /** `complete` on a valid position flips that task's flag and nothing else, and records the old user. */
  lemma CompleteToggles(s: State, id: Usize)
    requires 1 <= id <= |s.user.tasks|
    ensures var t := Exec(s, Some(Complete(id)));
      var tasks := t.next.user.tasks;
      && t.outcome == Applied
      && t.next.user.name == s.user.name
      && t.next.history == s.history + [s.user]
      && |tasks| == |s.user.tasks|
      && tasks[id - 1] == Task(s.user.tasks[id - 1].title, !s.user.tasks[id - 1].completed)
      && forall j :: 0 <= j < |tasks| && j != id - 1 ==> tasks[j] == s.user.tasks[j]
  {
  }

  /** Completing the same task twice gives back the original tasks. */
  lemma CompleteTwiceRestores(s: State, id: Usize)
    requires 1 <= id <= |s.user.tasks|
    ensures Exec(Exec(s, Some(Complete(id))).next, Some(Complete(id))).next.user == s.user
  {
    CompleteToggles(s, id);
    var s1 := Exec(s, Some(Complete(id))).next;
    CompleteToggles(s1, id);
    var s2 := Exec(s1, Some(Complete(id))).next;
    assert s2.user.tasks == s.user.tasks;
  }

  /** `remove` on a valid position deletes that task; the later ones move down by one, the name is kept and the old user recorded. */
  lemma RemoveShifts(s: State, id: Usize)
    requires 1 <= id <= |s.user.tasks|
    ensures var t := Exec(s, Some(Remove(id)));
      var tasks := t.next.user.tasks;
      && t.outcome == Applied
      && t.next.user.name == s.user.name
      && t.next.history == s.history + [s.user]
      && |tasks| == |s.user.tasks| - 1
      && (forall j :: 0 <= j < id - 1 ==> tasks[j] == s.user.tasks[j])
      && (forall j :: id - 1 <= j < |tasks| ==> tasks[j] == s.user.tasks[j + 1])
  {
  }

  /** `undo k` with `1 <= k <= L` records the current user and restores the snapshot taken `k` commands ago. */
  lemma UndoRestoresSnapshot(s: State, steps: Usize)
    requires 1 <= steps <= |s.history|
    ensures var t := Exec(s, Some(Undo(steps)));
      && t.outcome == Applied
      && t.next.user == s.history[|s.history| - steps]
      && t.next.history == s.history + [s.user]
  {
  }

  /** An undo count the bounds check refuses changes nothing. */
  lemma BadUndoChangesNothing(s: State, steps: Usize)
    requires CheckUndo(steps, |s.history|) != Valid
    ensures Exec(s, Some(Undo(steps))) == Transition(s, Rejected(CheckUndo(steps, |s.history|)))
    ensures steps == 0 || |s.history| < steps
  {
  }

  /** `help`, `quit` and unrecognised input leave the tasks and the history alone. */
  lemma InertCommands(s: State, c: Option<Command>)
    requires c == None || c == Some(Help) || c == Some(Quit)
    ensures Exec(s, c).next == s
  {
  }

  /** The read loop over a sequence of input lines: it stops after the first `quit`. */
  function RunLines(s: State, lines: seq<string>): (final: State)
    decreases |lines|
  {
    if lines == [] then s
    else
      var t := Exec(s, Parser.Parse(lines[0]));
      if t.outcome == Quitting then t.next else RunLines(t.next, lines[1..])
  }

  /**
   The live session. `user` and `cache` are the two variables the main loop
   owns; commands update them in place.
   */
  class Session {
    var user: User
    var cache: seq<User>

    ghost predicate Valid()
      reads this
    {
      SameOwner(Current())
    }

    ghost function Current(): State
      reads this
    {
      State(user, cache)
    }

    /** The loop starts with the user read from storage and an empty history. */
    constructor (loaded: User)
      ensures Valid() && user == loaded && cache == []
    {
      user := loaded;
      cache := [];
    }

    /** Applies one parsed input line; `quit` tells the loop to stop. */
    method Step(c: Option<Command>) returns (quit: bool, outcome: Outcome)
      requires Valid()
      modifies this
      ensures Valid()
      ensures Transition(Current(), outcome) == Exec(old(Current()), c)
      ensures quit <==> c == Some(Quit)
      ensures user.name == old(user.name)
    {
      quit := false;
      match c {
        case Some(Add(task)) =>
          cache := cache + [user];
          user := user.(tasks := user.tasks + [task]);
          outcome := Applied;
        case Some(Update(tId, title)) =>
          var v := CheckTaskNum(tId, |user.tasks|);
          if v.Valid? {
            cache := cache + [user];
            var tasks := user.tasks;
            tasks := tasks[tId - 1 := tasks[tId - 1].(title := title)];
            user := user.(tasks := tasks);
            outcome := Applied;
          } else {
            outcome := Rejected(v);
          }
        case Some(Complete(tId)) =>
          var v := CheckTaskNum(tId, |user.tasks|);
          if v.Valid? {
            cache := cache + [user];
            var tasks := user.tasks;
            var task := tasks[tId - 1];
            tasks := tasks[tId - 1 := task.(completed := !task.completed)];
            user := user.(tasks := tasks);
            outcome := Applied;
          } else {
            outcome := Rejected(v);
          }
        case Some(Remove(tId)) =>
          var v := CheckTaskNum(tId, |user.tasks|);
          if v.Valid? {
            cache := cache + [user];
            user := user.(tasks := user.tasks[..tId - 1] + user.tasks[tId..]);
            outcome := Applied;
          } else {
            outcome := Rejected(v);
          }
        case Some(Undo(steps)) =>
          var v := CheckUndo(steps, |cache|);
          if v.Valid? {
            cache := cache + [user];
            var cacheSize := |cache|;
            user := cache[cacheSize - steps - 1];
            outcome := Applied;
          } else {
            outcome := Rejected(v);
          }
        case Some(Clear) =>
          cache := cache + [user];
          user := user.(tasks := []);
          outcome := Applied;
        case Some(Help) =>
          outcome := HelpShown;
        case Some(Quit) =>
          quit := true;
          outcome := Quitting;
        case None =>
          outcome := Unrecognized;
      }
    }

    /** The session loop: parse and apply each line until a `quit` or the end of the input. */
    method Run(lines: seq<string>)
      requires Valid()
      modifies this
      ensures Valid()
      ensures Current() == RunLines(old(Current()), lines)
    {
      var i := 0;
      var quit := false;
      while i < |lines| && !quit
        invariant 0 <= i <= |lines|
        invariant Valid()
        invariant quit ==> Current() == RunLines(old(Current()), lines)
        invariant !quit ==> RunLines(old(Current()), lines) == RunLines(Current(), lines[i..])
      {
        assert lines[i..][0] == lines[i] && lines[i..][1..] == lines[i + 1..];
        var outcome;
        quit, outcome := Step(Parser.Parse(lines[i]));
        i := i + 1;
      }
    }
  }
}
