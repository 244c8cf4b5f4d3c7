/**
 The command parser: one input line becomes `Some(command)` or `None`.
 The line is trimmed of whitespace at both ends, cut at its first space into
 a keyword and the rest, and the keyword is matched exactly (case-sensitive).
 Numeric arguments that are not a valid `usize` become `usize::MAX`.
 */
module Parser {

  import opened Todo

  // ---------------------------------------------------------------------
  // Trimming
  // ---------------------------------------------------------------------

  /** Rust's `char::is_whitespace`: the characters with the Unicode White_Space property. */
  predicate IsWhitespace(ch: char)
  {
    || '\t' <= ch <= '\r'
    || ch == ' '
    || ch == '\U{85}'
    || ch == '\U{A0}'
    || ch == '\U{1680}'
    || '\U{2000}' <= ch <= '\U{200A}'
    || ch == '\U{2028}'
    || ch == '\U{2029}'
    || ch == '\U{202F}'
    || ch == '\U{205F}'
    || ch == '\U{3000}'
  }

  predicate AllWhitespace(s: string)
  {
    forall i :: 0 <= i < |s| ==> IsWhitespace(s[i])
  }

  /** A string that trimming leaves alone: empty, or beginning and ending with a non-whitespace character. */
  predicate Trimmed(s: string)
  {
    s == [] || (!IsWhitespace(s[0]) && !IsWhitespace(s[|s| - 1]))
  }

  /** Drops the leading whitespace: the result is a suffix of `s` and what was dropped is all whitespace. */
  function TrimStart(s: string): (r: string)
    ensures |r| <= |s| && r == s[|s| - |r|..]
    ensures AllWhitespace(s[..|s| - |r|])
    ensures r == [] || !IsWhitespace(r[0])
  {
    if s != [] && IsWhitespace(s[0]) then
      var r := TrimStart(s[1..]);
      assert s[..|s| - |r|] == [s[0]] + s[1..][..|s| - 1 - |r|];
      WhitespaceJoin([s[0]], s[1..][..|s| - 1 - |r|]);
      r
    else s
  }

  /** Drops the trailing whitespace: the result is a prefix of `s` and what was dropped is all whitespace. */
  function TrimEnd(s: string): (r: string)
    ensures |r| <= |s| && r == s[..|r|]
    ensures AllWhitespace(s[|r|..])
    ensures r == [] || !IsWhitespace(r[|r| - 1])
  {
    if s != [] && IsWhitespace(s[|s| - 1]) then
      var r := TrimEnd(s[..|s| - 1]);
      assert s[|r|..] == s[..|s| - 1][|r|..] + [s[|s| - 1]];
      WhitespaceJoin(s[..|s| - 1][|r|..], [s[|s| - 1]]);
      r
    else s
  }

  lemma WhitespaceJoin(x: string, y: string)
    requires AllWhitespace(x) && AllWhitespace(y)
    ensures AllWhitespace(x + y)
  {
    forall i | 0 <= i < |x + y| ensures IsWhitespace((x + y)[i]) {
      if i < |x| {
        assert (x + y)[i] == x[i];
      } else {
        assert (x + y)[i] == y[i - |x|];
      }
    }
  }

  /** Rust's `str::trim`. */
  function Trim(s: string): (r: string)
    ensures Trimmed(r)
    ensures |r| <= |s|
    ensures r == [] <==> AllWhitespace(s)
  {
    var t := TrimStart(s);
    var r := TrimEnd(t);
    assert t != [] ==> t[0] == s[|s| - |t|];
    assert r == [] ==> AllWhitespace(s) by {
      if r == [] {
        assert s == s[..|s| - |t|] + t;
      }
    }
    r
  }

  lemma {:induction false} TrimStartSkipsWhitespace(a: string, t: string)
    requires AllWhitespace(a)
    ensures TrimStart(a + t) == TrimStart(t)
    decreases |a|
  {
    if a == [] {
      assert a + t == t;
    } else {
      assert (a + t)[0] == a[0];
      assert (a + t)[1..] == a[1..] + t;
      TrimStartSkipsWhitespace(a[1..], t);
    }
  }

  lemma {:induction false} TrimStartKeepsTail(s: string, b: string)
    requires !AllWhitespace(s)
    ensures TrimStart(s + b) == TrimStart(s) + b
    decreases |s|
  {
    assert (s + b)[0] == s[0];
    if IsWhitespace(s[0]) {
      assert (s + b)[1..] == s[1..] + b;
      TrimStartKeepsTail(s[1..], b);
    }
  }

  lemma {:induction false} TrimEndSkipsWhitespace(t: string, b: string)
    requires AllWhitespace(b)
    ensures TrimEnd(t + b) == TrimEnd(t)
    decreases |b|
  {
    if b == [] {
      assert t + b == t;
    } else {
      var b' := b[..|b| - 1];
      assert (t + b)[|t + b| - 1] == b[|b| - 1];
      assert (t + b)[..|t + b| - 1] == t + b';
      TrimEndSkipsWhitespace(t, b');
    }
  }

  /** Whitespace around a line never changes what trimming yields. */
  lemma TrimIgnoresPadding(a: string, s: string, b: string)
    requires AllWhitespace(a) && AllWhitespace(b)
    ensures Trim(a + s + b) == Trim(s)
  {
    if AllWhitespace(s) {
      assert forall i | 0 <= i < |a + s + b| :: IsWhitespace((a + s + b)[i]) by {
        forall i | 0 <= i < |a + s + b| ensures IsWhitespace((a + s + b)[i]) {
          if i < |a| {
            assert (a + s + b)[i] == a[i];
          } else if i < |a| + |s| {
            assert (a + s + b)[i] == s[i - |a|];
          } else {
            assert (a + s + b)[i] == b[i - |a| - |s|];
          }
        }
      }
    } else {
      calc {
        Trim(a + s + b);
        { assert a + s + b == a + (s + b); }
        TrimEnd(TrimStart(a + (s + b)));
        { TrimStartSkipsWhitespace(a, s + b); }
        TrimEnd(TrimStart(s + b));
        { TrimStartKeepsTail(s, b); }
        TrimEnd(TrimStart(s) + b);
        { TrimEndSkipsWhitespace(TrimStart(s), b); }
        TrimEnd(TrimStart(s));
      }
    }
  }

  /** Trimming leaves an already trimmed string alone, so it is idempotent. */
  lemma TrimKeepsTrimmed(s: string)
    requires Trimmed(s)
    ensures Trim(s) == s
  {
  }

  lemma TrimIdempotent(s: string)
    ensures Trim(Trim(s)) == Trim(s)
  {
    TrimKeepsTrimmed(Trim(s));
  }

  // ---------------------------------------------------------------------
  // Splitting at the first space
  // ---------------------------------------------------------------------

  /** The position of the first `ch` in `s`, if any. */
  function IndexOf(s: string, ch: char): (r: Option<nat>)
    ensures r.None? <==> ch !in s
    ensures r.Some? ==> r.value < |s| && s[r.value] == ch && ch !in s[..r.value]
  {
    if s == [] then None
    else if s[0] == ch then Some(0)
    else
      match IndexOf(s[1..], ch)
      case None => None
      case Some(i) =>
        assert s[..i + 1] == [s[0]] + s[1..][..i];
        Some(i + 1)
  }

  /**
   Rust's `s.splitn(2, ' ')` collected into a vector: one piece when `s`
   holds no space, otherwise the text before the first space and everything
   after it (which may itself contain spaces).
   */
  function SplitOnce(s: string): (parts: seq<string>)
    ensures |parts| == 1 || |parts| == 2
    ensures |parts| == 1 <==> ' ' !in s
    ensures |parts| == 1 ==> parts[0] == s
    ensures |parts| == 2 ==> ' ' !in parts[0] && parts[0] + [' '] + parts[1] == s
  {
    match IndexOf(s, ' ')
    case None => [s]
    case Some(i) =>
      assert s == s[..i] + [' '] + s[i + 1..];
      [s[..i], s[i + 1..]]
  }

  /** Splitting inverts joining with a space, as long as the first part has none. */
  lemma SplitOnceJoin(a: string, b: string)
    requires ' ' !in a
    ensures SplitOnce(a + [' '] + b) == [a, b]
  {
    var s := a + [' '] + b;
    assert s[|a|] == ' ';
    assert s[..|a|] == a;
    assert s[|a| + 1..] == b;
  }

  // ---------------------------------------------------------------------
  // Numbers
  // ---------------------------------------------------------------------

  predicate IsDigit(ch: char)
  {
    '0' <= ch <= '9'
  }

  /** A non-empty run of ASCII decimal digits. */
  predicate IsDigits(s: string)
  {
    |s| > 0 && forall i :: 0 <= i < |s| ==> IsDigit(s[i])
  }

  /** The value of a run of decimal digits, most significant first. */
  function DigitsValue(s: string): (n: nat)
    requires forall i :: 0 <= i < |s| ==> IsDigit(s[i])
    decreases |s|
  {
    if s == [] then 0
    else
      assert IsDigit(s[|s| - 1]);
      DigitsValue(s[..|s| - 1]) * 10 + (s[|s| - 1] as int - '0' as int)
  }

  /** Rust's `s.parse::<usize>().unwrap_or(usize::MAX)`: an optional `+`, then digits whose value fits. */
  function ParseUsize(s: string): (n: Usize)
    ensures (forall i :: 0 <= i < |s| ==> !IsDigit(s[i])) ==> n == USIZE_MAX
    ensures n < USIZE_MAX ==> IsDigit(s[|s| - 1])
  {
    var digits := if |s| > 0 && s[0] == '+' then s[1..] else s;
    if IsDigits(digits) && DigitsValue(digits) <= USIZE_MAX then
      assert IsDigit(digits[|digits| - 1]);
      DigitsValue(digits)
    else
      USIZE_MAX
  }

  /** The shortest decimal numeral of `n`, as `Display` writes a `usize`. */
  function Decimal(n: nat): (s: string)
    ensures IsDigits(s)
  {
    var last := ('0' as int + n % 10) as char;
    if n < 10 then [last] else Decimal(n / 10) + [last]
  }

  lemma {:induction false} DecimalValue(n: nat)
    ensures DigitsValue(Decimal(n)) == n
  {
    if n >= 10 {
      var s := Decimal(n);
      assert s[..|s| - 1] == Decimal(n / 10);
      DecimalValue(n / 10);
    }
  }

  /** Every `usize` survives being written in decimal and parsed back, with or without a `+` sign. */
  lemma ParseUsizeDecimal(n: Usize)
    ensures ParseUsize(Decimal(n)) == n
    ensures ParseUsize("+" + Decimal(n)) == n
  {
    DecimalValue(n);
    assert ("+" + Decimal(n))[1..] == Decimal(n);
  }

  /** A run of digits whose value fits is accepted, with or without a `+` sign, and gives that value. */
  lemma ParseUsizeDigits(d: string)
    requires IsDigits(d) && DigitsValue(d) <= USIZE_MAX
    ensures ParseUsize(d) == DigitsValue(d)
    ensures ParseUsize("+" + d) == DigitsValue(d)
  {
    assert d[0] != '+';
    assert ("+" + d)[1..] == d;
  }

  /** Leading zeros do not change the value of a numeral, so `007` is read as 7. */
  lemma {:induction false} LeadingZero(d: string)
    requires forall i :: 0 <= i < |d| ==> IsDigit(d[i])
    ensures DigitsValue(['0'] + d) == DigitsValue(d)
    decreases |d|
  {
    if d != [] {
      var z := ['0'] + d;
      assert z[..|z| - 1] == ['0'] + d[..|d| - 1];
      assert z[|z| - 1] == d[|d| - 1];
      LeadingZero(d[..|d| - 1]);
    }
  }

  /** The empty text and a lone sign are not numbers. */
  lemma ParseUsizeNoDigits(s: string)
    requires s == [] || s == ['+']
    ensures ParseUsize(s) == USIZE_MAX
  {
  }

  /**
   A character other than a digit anywhere after the optional leading `+`
   (a `-` sign, a letter, a second word) makes the text the sentinel.
   */
  lemma ParseUsizeNonDigit(s: string, i: nat)
    requires i < |s| && !IsDigit(s[i])
    requires i > 0 || s[0] != '+'
    ensures ParseUsize(s) == USIZE_MAX
  {
    if s[0] == '+' {
      assert s[1..][i - 1] == s[i];
    }
  }

  /** A numeral too large for a `usize` gives the sentinel, with or without a `+` sign. */
  lemma ParseUsizeOverflow(d: string)
    requires IsDigits(d) && DigitsValue(d) > USIZE_MAX
    ensures ParseUsize(d) == USIZE_MAX
    ensures ParseUsize("+" + d) == USIZE_MAX
  {
    assert d[0] != '+';
    assert ("+" + d)[1..] == d;
  }

  /** Conversely, any result other than the sentinel comes from an optional `+` and a run of digits with that value. */
  lemma ParseUsizeAccepted(s: string)
    requires ParseUsize(s) < USIZE_MAX
    ensures s != []
    ensures var d := if s[0] == '+' then s[1..] else s;
      IsDigits(d) && ParseUsize(s) == DigitsValue(d)
  {
  }

  // ---------------------------------------------------------------------
  // Commands
  // ---------------------------------------------------------------------

  const Keywords: set<string> := {"add", "update", "remove", "clear", "complete", "undo", "help", "quit"}

  /** The keywords that are refused when nothing follows them. */
  const NeedsArgument: set<string> := {"add", "update", "remove", "complete", "undo"}

  /** `Command::op`: trim the line, cut it at the first space, match the pieces. */
  function Parse(line: string): (c: Option<Command>)
    ensures c.Some? ==> SplitOnce(Trim(line))[0] in Keywords
  {
    Match(SplitOnce(Trim(line)))
  }

  /** The `match` on the one or two pieces of the line: keyword first, exact and case-sensitive. */
  function Match(words: seq<string>): (c: Option<Command>)
    requires |words| == 1 || |words| == 2
    ensures c.Some? ==> words[0] in Keywords
  {
    var key := words[0];
    if |words| == 2 then
      var arg := words[1];
      if key == "add" then Some(Add(Task(arg, false)))
      else if key == "update" then
        var x := SplitOnce(arg);
        if |x| == 2 then Some(Update(ParseUsize(x[0]), x[1])) else None
      else if key == "remove" then Some(Remove(ParseUsize(arg)))
      else if key == "complete" then Some(Complete(ParseUsize(arg)))
      else if key == "undo" then Some(Undo(ParseUsize(arg)))
      else if key == "help" then Some(Help)
      else if key == "quit" then Some(Quit)
      else None
    else if key == "clear" then Some(Clear)
    else if key == "help" then Some(Help)
    else if key == "quit" then Some(Quit)
    else None
  }

  /**
   The argument of `remove`, `complete` and `undo` is read whole as a number:
   whatever follows the keyword's space goes to `ParseUsize`.
   */
  lemma NumericArguments(line: string, key: string, arg: string)
    requires SplitOnce(Trim(line)) == [key, arg]
    ensures key == "remove" ==> Parse(line) == Some(Remove(ParseUsize(arg)))
    ensures key == "complete" ==> Parse(line) == Some(Complete(ParseUsize(arg)))
    ensures key == "undo" ==> Parse(line) == Some(Undo(ParseUsize(arg)))
  {
    assert Parse(line) == Match([key, arg]);
    MatchNumeric(key, arg);
  }

  lemma MatchNumeric(key: string, arg: string)
    ensures key == "remove" ==> Match([key, arg]) == Some(Remove(ParseUsize(arg)))
    ensures key == "complete" ==> Match([key, arg]) == Some(Complete(ParseUsize(arg)))
    ensures key == "undo" ==> Match([key, arg]) == Some(Undo(ParseUsize(arg)))
  {
  }

  /**
   A second word after the number is not ignored: `remove 1 2` asks to remove
   task `usize::MAX`. The line is a parameter so that the verifier does not
   evaluate the parser on the literal.
   */
  lemma RemoveTwoWords(line: string)
    requires line == "remove 1 2"
    ensures Parse(line) == Some(Remove(USIZE_MAX))
  {
    assert line == "remove" + " " + "1 2";
    WordsOfKeywordLine("remove", "1 2");
    NumericArguments(line, "remove", "1 2");
    ParseUsizeNonDigit("1 2", 1);
  }

  /**
   The other keywords that take the rest of the line: `add` keeps it whole as the
   title; `update` cuts it once more at the first space, reading the id token with
   `ParseUsize` and keeping the rest as the new title, and is refused when there
   is no second space; `clear` with anything after it is refused.
   */
  lemma TextArguments(line: string, key: string, arg: string)
    requires SplitOnce(Trim(line)) == [key, arg]
    ensures key == "add" ==> Parse(line) == Some(Add(Task(arg, false)))
    ensures key == "update" && |SplitOnce(arg)| == 2 ==>
      Parse(line) == Some(Update(ParseUsize(SplitOnce(arg)[0]), SplitOnce(arg)[1]))
    ensures key == "update" && |SplitOnce(arg)| == 1 ==> Parse(line).None?
    ensures key == "clear" ==> Parse(line).None?
  {
    assert Parse(line) == Match([key, arg]);
    MatchText(key, arg);
  }

  lemma MatchText(key: string, arg: string)
    ensures key == "add" ==> Match([key, arg]) == Some(Add(Task(arg, false)))
    ensures key == "update" && |SplitOnce(arg)| == 2 ==>
      Match([key, arg]) == Some(Update(ParseUsize(SplitOnce(arg)[0]), SplitOnce(arg)[1]))
    ensures key == "update" && |SplitOnce(arg)| == 1 ==> Match([key, arg]).None?
    ensures key == "clear" ==> Match([key, arg]).None?
  {
  }

  /**
   The id token of `update` goes through the same number reading: a token that
   is not a number stands for task `usize::MAX`. The line is a parameter so that
   the verifier does not evaluate the parser on the literal.
   */
  lemma UpdateBadId(line: string)
    requires line == "update abc x"
    ensures Parse(line) == Some(Update(USIZE_MAX, "x"))
  {
    UpdateLine(line, "abc", "x");
    ParseUsizeNonDigit("abc", 0);
  }

  /** Leading zeros in the id token of `update` are dropped: `update 007 x` retitles task 7. */
  lemma UpdateLeadingZeros(line: string)
    requires line == "update 007 x"
    ensures Parse(line) == Some(Update(7, "x"))
  {
    UpdateLine(line, "007", "x");
    LeadingZerosValue("007");
  }

  /** The numeral `007` is read as 7. */
  lemma LeadingZerosValue(id: string)
    requires id == "007"
    ensures ParseUsize(id) == 7
  {
    var d := "7";
    assert DigitsValue(d) == DigitsValue([]) * 10 + 7;
    LeadingZero(d);
    LeadingZero(['0'] + d);
    assert id == ['0'] + (['0'] + d);
    ParseUsizeDigits(id);
  }

  /** An `update` line with a one-letter title parses to its id token read as a number and that title. */
  lemma UpdateLine(line: string, id: string, title: string)
    requires id != [] && ' ' !in id && |title| == 1 && 'a' <= title[0] <= 'z'
    requires line == "update" + [' '] + id + [' '] + title
    ensures Parse(line) == Some(Update(ParseUsize(id), title))
  {
    var arg := id + [' '] + title;
    assert line == "update" + " " + arg;
    WordsOfKeywordLine("update", arg);
    SplitOnceJoin(id, title);
    TextArguments(line, "update", arg);
  }

  /** `help` and `quit` are accepted whatever follows them. */
  lemma HelpQuitIgnoreRest(line: string)
    ensures Parse(line) == Some(Help) <==> SplitOnce(Trim(line))[0] == "help"
    ensures Parse(line) == Some(Quit) <==> SplitOnce(Trim(line))[0] == "quit"
  {
    MatchHelpQuit(SplitOnce(Trim(line)));
  }

  lemma MatchHelpQuit(words: seq<string>)
    requires |words| == 1 || |words| == 2
    ensures Match(words) == Some(Help) <==> words[0] == "help"
    ensures Match(words) == Some(Quit) <==> words[0] == "quit"
  {
  }

  /**
   `clear` is accepted only on its own, and the keywords that take an
   argument are refused without one.
   */
  lemma BareKeywords(line: string)
    ensures Parse(line) == Some(Clear) <==> Trim(line) == "clear"
    ensures Trim(line) in NeedsArgument ==> Parse(line).None?
  {
    var t := Trim(line);
    MatchBareKeywords(SplitOnce(t));
    if t == "clear" || t in NeedsArgument {
      SingleWord(t);
    }
  }

  lemma MatchBareKeywords(words: seq<string>)
    requires |words| == 1 || |words| == 2
    ensures Match(words) == Some(Clear) <==> words == ["clear"]
    ensures |words| == 1 && words[0] in NeedsArgument ==> Match(words).None?
  {
  }

  /** A word without a space is split into itself alone. */
  lemma SingleWord(k: string)
    requires k == "clear" || k in NeedsArgument
    ensures SplitOnce(k) == [k]
  {
    assert ' ' !in k;
  }

  /** `update` needs a number and a title: `update 3` is refused. */
  lemma UpdateNeedsTitle(line: string, arg: string)
    requires SplitOnce(Trim(line)) == ["update", arg]
    requires ' ' !in arg
    ensures Parse(line).None?
  {
  }

  /** The text after the first space of a title-like string is title-like too. */
  lemma TextAfterSpace(t: string, a: string, b: string)
    requires TitleOk(t) && t == a + [' '] + b
    ensures TitleOk(b) && b[|b| - 1] == t[|t| - 1]
  {
    assert |b| > 0 ==> t[|t| - 1] == b[|b| - 1];
  }

  /** The matcher produces well-formed commands from a title-like argument. */
  lemma MatchWellFormed(words: seq<string>)
    requires |words| == 1 || (|words| == 2 && TitleOk(words[1]))
    requires Match(words).Some?
    ensures WellFormed(Match(words).value)
  {
    if |words| == 2 {
      var x := SplitOnce(words[1]);
      if |x| == 2 {
        TextAfterSpace(words[1], x[0], x[1]);
      }
    }
  }

  /**
   The title of a parsed `add` or `update` is never empty and does not end in
   whitespace: the line was trimmed, so the text after a space cannot be empty.
   */
  lemma ParsedWellFormed(line: string)
    requires Parse(line).Some?
    ensures WellFormed(Parse(line).value)
  {
    var t := Trim(line);
    var words := SplitOnce(t);
    if |words| == 2 {
      TextAfterSpace(t, words[0], words[1]);
    }
    MatchWellFormed(words);
  }

  /** A parsed `add` holds an uncompleted task whose title is the rest of the line after the first space. */
  lemma ParsedAdd(line: string)
    requires Parse(line).Some? && Parse(line).value.Add?
    ensures |SplitOnce(Trim(line))| == 2
    ensures Parse(line).value.task == Task(SplitOnce(Trim(line))[1], false)
  {
    MatchAdd(SplitOnce(Trim(line)));
  }

  lemma MatchAdd(words: seq<string>)
    requires |words| == 1 || |words| == 2
    requires Match(words).Some? && Match(words).value.Add?
    ensures |words| == 2 && Match(words).value.task == Task(words[1], false)
  {
  }

  /** Whitespace around the line never changes the command. */
  lemma ParseIgnoresPadding(a: string, line: string, b: string)
    requires AllWhitespace(a) && AllWhitespace(b)
    ensures Parse(a + line + b) == Parse(line)
  {
    TrimIgnoresPadding(a, line, b);
  }

  /** A title the parser can produce: non-empty and not ending in whitespace. */
  predicate TitleOk(title: string)
  {
    title != [] && !IsWhitespace(title[|title| - 1])
  }

  /** The commands the parser can produce. */
  predicate WellFormed(c: Command)
  {
    match c
    case Add(task) => !task.completed && TitleOk(task.title)
    case Update(_, title) => TitleOk(title)
    case _ => true
  }

  /** The input line that the help text documents for a command. */
  function Format(c: Command): (line: string)
  {
    match c
    case Add(task) => "add " + task.title
    case Update(id, title) => "update " + Decimal(id) + " " + title
    case Remove(id) => "remove " + Decimal(id)
    case Clear => "clear"
    case Complete(id) => "complete " + Decimal(id)
    case Undo(steps) => "undo " + Decimal(steps)
    case Help => "help"
    case Quit => "quit"
  }

  /** A keyword, a space and an argument are trimmed to themselves and split back apart. */
  lemma WordsOfKeywordLine(key: string, arg: string)
    requires key != [] && ' ' !in key && !IsWhitespace(key[0])
    requires TitleOk(arg)
    ensures SplitOnce(Trim(key + " " + arg)) == [key, arg]
  {
    var line := key + " " + arg;
    assert line[0] == key[0] && line[|line| - 1] == arg[|arg| - 1];
    TrimKeepsTrimmed(line);
    SplitOnceJoin(key, arg);
  }

  /** The decimal numeral of a number is a title-like word without spaces. */
  lemma DecimalIsWord(n: nat)
    ensures ' ' !in Decimal(n) && TitleOk(Decimal(n)) && !IsWhitespace(Decimal(n)[0])
  {
    var d := Decimal(n);
    assert IsDigit(d[0]) && IsDigit(d[|d| - 1]);
  }

  /** Writing a parser-producible command as the help text documents it and parsing it back gives the command. */
  lemma ParseFormat(c: Command)
    requires WellFormed(c)
    ensures Parse(Format(c)) == Some(c)
  {
    match c
    case Add(task) => ParseFormatAdd(task);
    case Update(id, title) => ParseFormatUpdate(id, title);
    case Remove(id) => ParseFormatNumber(c, "remove", id);
    case Complete(id) => ParseFormatNumber(c, "complete", id);
    case Undo(steps) => ParseFormatNumber(c, "undo", steps);
    case Clear => ParseClear(Format(c));
    case Help => ParseHelp(Format(c));
    case Quit => ParseQuit(Format(c));
  }

  lemma ParseFormatAdd(task: Task)
    requires !task.completed && TitleOk(task.title)
    ensures Parse(Format(Add(task))) == Some(Add(task))
  {
    assert Format(Add(task)) == "add" + " " + task.title;
    ParseKeywordLine("add", task.title);
  }

  lemma ParseFormatNumber(c: Command, key: string, n: Usize)
    requires c == Remove(n) || c == Complete(n) || c == Undo(n)
    requires key == (if c.Remove? then "remove" else if c.Complete? then "complete" else "undo")
    ensures Parse(Format(c)) == Some(c)
  {
    assert Format(c) == key + " " + Decimal(n);
    ParseNumberLine(key, n);
  }

  /**
   The bare keywords parse to their commands. The line is a parameter fixed by
   `requires` so that the verifier does not evaluate the parser on a literal.
   */
  lemma ParseClear(line: string)
    requires line == "clear"
    ensures Parse(line) == Some(Clear)
  {
    BareWord(line);
    assert Match([line]) == Some(Clear);
  }

  lemma ParseHelp(line: string)
    requires line == "help"
    ensures Parse(line) == Some(Help)
  {
    BareWord(line);
    assert Match([line]) == Some(Help);
  }

  lemma ParseQuit(line: string)
    requires line == "quit"
    ensures Parse(line) == Some(Quit)
  {
    BareWord(line);
    assert Match([line]) == Some(Quit);
  }

  lemma ParseFormatUpdate(id: Usize, title: string)
    requires TitleOk(title)
    ensures Parse(Format(Update(id, title))) == Some(Update(id, title))
  {
    DecimalIsWord(id);
    var rest := Decimal(id) + " " + title;
    assert rest[|rest| - 1] == title[|title| - 1];
    assert Format(Update(id, title)) == "update" + " " + rest;
    ParseKeywordLine("update", rest);
    SplitOnceJoin(Decimal(id), title);
    ParseUsizeDecimal(id);
  }

  lemma ParseNumberLine(key: string, n: Usize)
    requires key in Keywords
    ensures Parse(key + " " + Decimal(n)) == Match([key, Decimal(n)])
    ensures ParseUsize(Decimal(n)) == n
  {
    DecimalIsWord(n);
    ParseKeywordLine(key, Decimal(n));
    ParseUsizeDecimal(n);
  }

  lemma ParseKeywordLine(key: string, arg: string)
    requires key in Keywords
    requires TitleOk(arg)
    ensures Parse(key + " " + arg) == Match([key, arg])
  {
    assert ' ' !in key;
    WordsOfKeywordLine(key, arg);
  }

  /** A word that starts and ends with a letter and holds no space is its own trimmed, unsplit line. */
  lemma BareWord(w: string)
    requires w != [] && ' ' !in w
    requires 'a' <= w[0] <= 'z' && 'a' <= w[|w| - 1] <= 'z'
    ensures SplitOnce(Trim(w)) == [w]
  {
    TrimKeepsTrimmed(w);
  }

  /**
   Parsing is a normal form: the documented line of a parsed command parses
   to the same command, whatever spacing or numeral spelling the input used.
   */
  lemma ParseFormatParse(line: string)
    requires Parse(line).Some?
    ensures Parse(Format(Parse(line).value)) == Parse(line)
  {
    ParsedWellFormed(line);
    ParseFormat(Parse(line).value);
  }
}
