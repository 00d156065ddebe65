/** Windows command lines: quoting an argument list so that the C runtime's
    splitting rules give it back. */
module Argv {
  import opened Chars

  predicate Special(c: char) { IsBlank(c) || c == '\n' || c == '\U{000b}' || c == '"' }

  predicate NeedsQuotes(arg: string) { arg == "" || exists i :: 0 <= i < |arg| && Special(arg[i]) }

  function Slashes(n: nat): (s: string)
    ensures |s| == n
  {
    seq(n, _ => '\\')
  }

  /** The text inside the quotes, when `n` backslashes are pending: they are
      doubled before a quote (which gets one more) and before the end. */
  function Body(arg: string, n: nat): string {
    if arg == "" then Slashes(2 * n)
    else if arg[0] == '\\' then Body(arg[1..], n + 1)
    else if arg[0] == '"' then Slashes(2 * n + 1) + "\"" + Body(arg[1..], 0)
    else Slashes(n) + [arg[0]] + Body(arg[1..], 0)
  }

  function Quoted(arg: string): string {
    if NeedsQuotes(arg) then "\"" + Body(arg, 0) + "\"" else arg
  }

  function CommandLine(args: seq<string>): string {
    if args == [] then ""
    else if |args| == 1 then Quoted(args[0])
    else CommandLine(args[..|args| - 1]) + " " + Quoted(args[|args| - 1])
  }

  method HasSpecial(arg: string) returns (found: bool)
    ensures found <==> exists i :: 0 <= i < |arg| && Special(arg[i])
  {
    for i := 0 to |arg|
      invariant forall j :: 0 <= j < i ==> !Special(arg[j])
    {
      if Special(arg[i]) { return true; }
    }
    return false;
  }

  method QuoteArgvArgument(arg: string) returns (result: string)
    ensures result == Quoted(arg)
  {
    hide Slashes, Body;
    var special := HasSpecial(arg);
    if arg != "" && !special { return arg; }
    result := "\"";
    var i := 0;
    assert arg[0..] == arg;
    while true
      invariant 0 <= i <= |arg|
      invariant result + Body(arg[i..], 0) == "\"" + Body(arg, 0)
      decreases |arg| - i
    {
      ghost var from := i;
      var backslashes := 0;
      while i < |arg| && arg[i] == '\\'
        invariant from <= i <= |arg| && backslashes == i - from
        invariant Body(arg[from..], 0) == Body(arg[i..], backslashes)
      {
        BodyStep(arg, i, backslashes);
        i := i + 1;
        backslashes := backslashes + 1;
      }
      BodyStep(arg, i, backslashes);
      if i == |arg| {
        result := result + Slashes(backslashes * 2);
        break;
      }
      if arg[i] == '"' {
        Regroup(result, Slashes(backslashes * 2 + 1), "\"", Body(arg[i + 1..], 0));
        result := result + Slashes(backslashes * 2 + 1) + "\"";
      } else {
        Regroup(result, Slashes(backslashes), [arg[i]], Body(arg[i + 1..], 0));
        result := result + Slashes(backslashes) + [arg[i]];
      }
      i := i + 1;
    }
    result := result + "\"";
  }

  lemma BodyStep(arg: string, i: nat, n: nat)
    requires i <= |arg|
    ensures
      Body(arg[i..], n) ==
        if i == |arg| then Slashes(n * 2)
        else if arg[i] == '\\' then Body(arg[i + 1..], n + 1)
        else Slashes(if arg[i] == '"' then n * 2 + 1 else n) + [arg[i]] + Body(arg[i + 1..], 0)
  {
    hide Slashes;
    if i < |arg| { assert arg[i..][1..] == arg[i + 1..]; }
  }

  method BuildCommandLine(args: seq<string>) returns (cmdLine: string)
    ensures cmdLine == CommandLine(args)
  {
    cmdLine := "";
    for i := 0 to |args|
      invariant cmdLine == CommandLine(args[..i])
    {
      if i > 0 { cmdLine := cmdLine + " "; }
      var quoted := QuoteArgvArgument(args[i]);
      cmdLine := cmdLine + quoted;
      assert args[..i + 1][..i] == args[..i];
      if i == 0 { assert cmdLine == quoted; }
    }
    assert args[..|args|] == args;
  }

  /** How many backslashes a text starts with. */
  function Leading(s: string): (n: nat)
    ensures n <= |s|
    ensures n < |s| ==> s[n] != '\\'
  {
    if s != "" && s[0] == '\\' then 1 + Leading(s[1..]) else 0
  }

  /** The C runtime's rules for one argument ("Parsing C command-line arguments"):
      2n backslashes and a quote are n backslashes and a delimiter, 2n+1 are n
      backslashes and a literal quote, other backslashes are literal, two quotes
      inside a quoted part are one literal quote, and blanks end the argument
      outside quotes.  Returns the argument and the text after it. */
  function Scan(s: string, quoting: bool): (r: (string, string))
    ensures |r.1| <= |s|
    decreases |s|, 1
  {
    ScanRun(Leading(s), s[Leading(s)..], quoting)
  }

  /** The same after `n` backslashes have been counted. */
  function ScanRun(n: nat, t: string, quoting: bool): (r: (string, string))
    requires t == "" || t[0] != '\\'
    ensures |r.1| <= n + |t|
    decreases n + |t|, 0
  {
    if t != "" && t[0] == '"' then
      if n % 2 == 1 then Prepend(Slashes(n / 2) + "\"", Scan(t[1..], quoting))
      else if quoting && |t| > 1 && t[1] == '"' then Prepend(Slashes(n / 2) + "\"", Scan(t[2..], quoting))
      else Prepend(Slashes(n / 2), Scan(t[1..], !quoting))
    else if n > 0 then Prepend(Slashes(n), Scan(t, quoting))
    else if t == "" || (!quoting && IsBlank(t[0])) then ("", t)
    else Prepend([t[0]], Scan(t[1..], quoting))
  }

  function Prepend(a: string, r: (string, string)): (string, string) { (a + r.0, r.1) }

  function SkipBlanks(s: string): (r: string)
    ensures |r| <= |s| && (r != "" ==> !IsBlank(r[0]))
  {
    if s != "" && IsBlank(s[0]) then SkipBlanks(s[1..]) else s
  }

  function SplitArgs(s: string): seq<string>
    decreases |s|
  {
    var t := SkipBlanks(s);
    if t == "" then []
    else
      var (arg, rest) := Scan(t, false);
      ScanConsumes(t);
      [arg] + SplitArgs(rest)
  }

  /** The program name has no escapes: quotes are dropped and only group. */
  function ScanProgram(s: string, quoting: bool): (string, string) {
    if s == "" || (!quoting && IsBlank(s[0])) then ("", s)
    else
      var (arg, rest) := ScanProgram(s[1..], if s[0] == '"' then !quoting else quoting);
      (if s[0] == '"' then arg else [s[0]] + arg, rest)
  }

  function SplitCommandLine(s: string): seq<string> {
    var (program, rest) := ScanProgram(s, false);
    [program] + SplitArgs(rest)
  }

  lemma ScanConsumes(s: string)
    requires s != "" && !IsBlank(s[0])
    ensures |Scan(s, false).1| < |s|
  {
  }

  /** What may follow an argument on the line. */
  predicate Ends(rest: string) { rest == "" || IsBlank(rest[0]) }

  lemma {:induction false} LeadingSlashes(n: nat, t: string)
    requires t == "" || t[0] != '\\'
    ensures Leading(Slashes(n) + t) == n && (Slashes(n) + t)[n..] == t
  {
    if n > 0 {
      assert (Slashes(n) + t)[1..] == Slashes(n - 1) + t;
      LeadingSlashes(n - 1, t);
    } else {
      assert Slashes(0) + t == t;
    }
  }

  lemma ScanIsRun(n: nat, t: string, quoting: bool)
    requires t == "" || t[0] != '\\'
    ensures Scan(Slashes(n) + t, quoting) == ScanRun(n, t, quoting)
  {
    hide ScanRun, Slashes;
    LeadingSlashes(n, t);
  }

  /** One step of the scan, by what the leading backslashes are followed by. */
  lemma ScanSlashes(n: nat, t: string, quoting: bool)
    requires t == "" || (t[0] != '\\' && t[0] != '"')
    ensures Scan(Slashes(n) + t, quoting) == Prepend(Slashes(n), Scan(t, quoting))
  {
    hide Scan, Slashes;
    ScanIsRun(n, t, quoting);
    if n == 0 { SlashesMove(0, t); SlashesMove(0, Scan(t, quoting).0); }
  }

  lemma ScanEscapedQuote(n: nat, t: string, quoting: bool)
    ensures Scan(Slashes(2 * n + 1) + ("\"" + t), quoting) == Prepend(Slashes(n) + "\"", Scan(t, quoting))
  {
    hide Scan, Slashes;
    ScanIsRun(2 * n + 1, "\"" + t, quoting);
    assert ("\"" + t)[1..] == t;
  }

  lemma ScanDelimiter(n: nat, t: string, quoting: bool)
    requires !quoting || Ends(t)
    ensures Scan(Slashes(2 * n) + ("\"" + t), quoting) == Prepend(Slashes(n), Scan(t, !quoting))
  {
    hide Scan, Slashes;
    ScanIsRun(2 * n, "\"" + t, quoting);
    assert ("\"" + t)[1..] == t;
  }

  lemma ScanChar(c: char, t: string, quoting: bool)
    requires c != '\\' && c != '"' && (quoting || !IsBlank(c))
    ensures Scan([c] + t, quoting) == Prepend([c], Scan(t, quoting))
  {
    hide Scan, Slashes;
    SlashesMove(0, [c] + t);
    ScanIsRun(0, [c] + t, quoting);
    assert ([c] + t)[1..] == t;
  }

  lemma ScanEnd(rest: string)
    requires Ends(rest)
    ensures Scan(rest, false) == ("", rest)
  {
    hide Scan, Slashes;
    SlashesMove(0, rest);
    ScanIsRun(0, rest, false);
  }

  /** An argument that needs no quotes is read as it stands. */
  lemma {:induction false} ScanPlain(arg: string, rest: string)
    requires (forall i :: 0 <= i < |arg| ==> !Special(arg[i])) && Ends(rest)
    ensures Scan(arg + rest, false) == (arg, rest)
    decreases |arg|
  {
    hide Scan, Leading, Slashes;
    var n := Leading(arg);
    AllSlashes(arg);
    var t := arg[n..];
    assert arg + rest == Slashes(n) + (t + rest);
    ScanSlashes(n, t + rest, false);
    if t != "" {
      assert !Special(t[0]);
      assert t + rest == [t[0]] + (t[1..] + rest);
      ScanChar(t[0], t[1..] + rest, false);
      ScanPlain(t[1..], rest);
      assert [t[0]] + t[1..] == t;
    } else {
      assert t + rest == rest;
      ScanEnd(rest);
    }
  }

  lemma {:induction false} AllSlashes(s: string)
    ensures s == Slashes(Leading(s)) + s[Leading(s)..]
  {
    if s != "" && s[0] == '\\' { AllSlashes(s[1..]); }
  }

  lemma SlashesMove(n: nat, s: string)
    ensures Slashes(n + 1) + s == Slashes(n) + (['\\'] + s) && Slashes(0) + s == s
  {
  }

  /** The body with what follows it, by the first character of the argument. */
  lemma BodyShape(arg: string, n: nat, end: string)
    ensures arg == "" ==> Body(arg, n) + end == Slashes(2 * n) + end
    ensures arg != "" && arg[0] == '\\' ==> Body(arg, n) + end == Body(arg[1..], n + 1) + end
    ensures arg != "" && arg[0] == '"' ==>
              Body(arg, n) + end == Slashes(2 * n + 1) + ("\"" + (Body(arg[1..], 0) + end))
    ensures arg != "" && arg[0] != '\\' && arg[0] != '"' ==>
              Body(arg, n) + end == Slashes(n) + ([arg[0]] + (Body(arg[1..], 0) + end))
  {
    hide Slashes;
    if arg != "" {
      var rest := Body(arg[1..], 0);
      Regroup(Slashes(2 * n + 1), "\"", rest, end);
      Regroup(Slashes(n), [arg[0]], rest, end);
    }
  }

  lemma Regroup(a: string, b: string, c: string, d: string)
    ensures a + b + c + d == a + (b + (c + d)) && b + c + d == b + (c + d)
  {
  }

  /** The quoted body and its closing quote are read back as the argument. */
  lemma {:induction false} ScanBody(arg: string, n: nat, rest: string)
    requires Ends(rest)
    ensures Scan(Body(arg, n) + ("\"" + rest), true) == (Slashes(n) + arg, rest)
    decreases |arg|
  {
    hide Scan, Leading, Slashes, Body;
    var end := "\"" + rest;
    BodyShape(arg, n, end);
    if arg == "" {
      ScanDelimiter(n, rest, true);
      ScanEnd(rest);
    } else {
      SlashesMove(n, arg[1..]);
      ScanBody(arg[1..], if arg[0] == '\\' then n + 1 else 0, rest);
      var tail := Body(arg[1..], 0) + end;
      if arg[0] == '"' {
        ScanEscapedQuote(n, tail, true);
        FirstApart(Slashes(n), arg);
      } else if arg[0] != '\\' {
        ScanSlashes(n, [arg[0]] + tail, true);
        ScanChar(arg[0], tail, true);
        FirstApart(Slashes(n), arg);
      } else {
        assert ['\\'] + arg[1..] == arg;
      }
    }
  }

  lemma FirstApart(a: string, arg: string)
    requires arg != ""
    ensures a + [arg[0]] + arg[1..] == a + arg && a + ([arg[0]] + arg[1..]) == a + arg
  {
  }

  lemma ScanQuoted(arg: string, rest: string)
    requires Ends(rest)
    ensures Scan(Quoted(arg) + rest, false) == (arg, rest)
    ensures Quoted(arg) != "" && !IsBlank(Quoted(arg)[0])
  {
    if NeedsQuotes(arg) {
      hide Scan, Slashes, Body;
      var tail := Body(arg, 0) + ("\"" + rest);
      assert Quoted(arg) + rest == "\"" + tail;
      ScanDelimiter(0, tail, false);
      SlashesMove(0, "\"" + tail);
      ScanBody(arg, 0, rest);
      SlashesMove(0, arg);
    } else {
      hide Scan;
      ScanPlain(arg, rest);
    }
  }

  /** The arguments from the second on, each after a space. */
  function Tail(args: seq<string>): string {
    if args == [] then "" else " " + Quoted(args[0]) + Tail(args[1..])
  }

  lemma {:induction false} TailSnoc(args: seq<string>, last: string)
    ensures Tail(args + [last]) == Tail(args) + " " + Quoted(last)
  {
    if args != [] {
      assert (args + [last])[1..] == args[1..] + [last];
      TailSnoc(args[1..], last);
    }
  }

  lemma {:induction false} CommandLineIsTail(args: seq<string>)
    requires args != []
    ensures CommandLine(args) == Quoted(args[0]) + Tail(args[1..])
  {
    hide Quoted;
    if |args| > 1 {
      var init := args[..|args| - 1];
      CommandLineIsTail(init);
      assert args[1..] == init[1..] + [args[|args| - 1]];
      TailSnoc(init[1..], args[|args| - 1]);
    }
  }

  /** Splitting gives back every argument after the program name. */
  lemma {:induction false} TailRoundTrip(args: seq<string>)
    ensures SplitArgs(Tail(args)) == args
  {
    hide Scan, Quoted;
    if args != [] {
      var rest := Tail(args[1..]);
      var s := Quoted(args[0]) + rest;
      assert Tail(args) == " " + s;
      assert Tail(args)[1..] == s;
      ScanQuoted(args[0], rest);
      assert SkipBlanks(s) == s;
      TailRoundTrip(args[1..]);
    }
  }

  /** A program name survives exactly when it has no quote and, if it has to be
      quoted at all, does not end in a backslash. */
  predicate PlainProgram(arg: string) {
    (forall i :: 0 <= i < |arg| ==> arg[i] != '"') && (NeedsQuotes(arg) && arg != "" ==> arg[|arg| - 1] != '\\')
  }

  lemma {:induction false} ProgramUnquoted(arg: string, rest: string)
    requires (forall i :: 0 <= i < |arg| ==> !Special(arg[i])) && Ends(rest)
    ensures ScanProgram(arg + rest, false) == (arg, rest)
  {
    if arg != "" {
      assert !Special(arg[0]);
      assert (arg + rest)[1..] == arg[1..] + rest;
      assert [arg[0]] + arg[1..] == arg;
      ProgramUnquoted(arg[1..], rest);
    } else {
      assert arg + rest == rest;
    }
  }

  /** Inside quotes the text is taken up to the next quote. */
  lemma {:induction false} ProgramQuoted(text: string, rest: string)
    requires (forall i :: 0 <= i < |text| ==> text[i] != '"') && Ends(rest)
    ensures ScanProgram(text + "\"" + rest, true) == (text, rest)
    decreases |text|
  {
    var s := text + "\"" + rest;
    if text == "" {
      assert s[1..] == rest;
    } else {
      assert s[1..] == text[1..] + "\"" + rest;
      assert [text[0]] + text[1..] == text;
      ProgramQuoted(text[1..], rest);
    }
  }

  /** The trailing backslashes of an argument. */
  function Trailing(arg: string): nat {
    if arg == "" || arg[|arg| - 1] != '\\' then 0 else 1 + Trailing(arg[..|arg| - 1])
  }

  lemma {:induction false} BodyWithoutQuotes(arg: string, n: nat)
    requires forall i :: 0 <= i < |arg| ==> arg[i] != '"'
    ensures Body(arg, n) == Slashes(n) + arg + Slashes(Trailing(Slashes(n) + arg))
    decreases |arg|
  {
    hide Slashes, Trailing;
    if arg == "" {
      TrailingSlashes("", n);
      assert Slashes(n) + "" == Slashes(n) && "" + Slashes(n) == Slashes(n);
      SlashesSum(n);
    } else {
      SlashesMove(n, arg[1..]);
      SlashesMove(0, arg[1..]);
      FirstApart(Slashes(n), arg);
      BodyWithoutQuotes(arg[1..], if arg[0] == '\\' then n + 1 else 0);
      if arg[0] != '\\' {
        TrailingSuffix(Slashes(n) + [arg[0]], arg[1..]);
        Regroup(Slashes(n), [arg[0]], arg[1..], Slashes(Trailing(arg[1..])));
        Regroup(Slashes(n), [arg[0]], arg[1..], "");
        assert arg == [arg[0]] + arg[1..];
      }
    }
  }

  lemma SlashesSum(n: nat)
    ensures Slashes(2 * n) == Slashes(n) + Slashes(n)
  {
  }

  lemma {:induction false} TrailingSlashes(s: string, n: nat)
    requires s == "" || s[|s| - 1] != '\\'
    ensures Trailing(s + Slashes(n)) == n
  {
    var t := s + Slashes(n);
    if n > 0 {
      assert t[..|t| - 1] == s + Slashes(n - 1);
      TrailingSlashes(s, n - 1);
    } else {
      assert t == s;
    }
  }

  lemma {:induction false} TrailingSuffix(a: string, b: string)
    requires a != "" && a[|a| - 1] != '\\'
    ensures Trailing(a + b) == Trailing(b)
  {
    if b != "" && b[|b| - 1] == '\\' {
      assert (a + b)[..|a + b| - 1] == a + b[..|b| - 1];
      TrailingSuffix(a, b[..|b| - 1]);
    } else if b == "" {
      assert a + b == a;
    }
  }

  lemma {:induction false} ProgramHasNoQuote(s: string, quoting: bool)
    ensures '"' !in ScanProgram(s, quoting).0
  {
    if s != "" && (quoting || !IsBlank(s[0])) {
      ProgramHasNoQuote(s[1..], if s[0] == '"' then !quoting else quoting);
    }
  }

  lemma ProgramExactly(arg: string, rest: string)
    requires Ends(rest)
    ensures ScanProgram(Quoted(arg) + rest, false).0 == arg <==> PlainProgram(arg)
    ensures PlainProgram(arg) ==> ScanProgram(Quoted(arg) + rest, false).1 == rest
  {
    if '"' in arg {
      hide ScanProgram;
      ProgramHasNoQuote(Quoted(arg) + rest, false);
    } else if NeedsQuotes(arg) {
      ProgramInQuotes(arg, rest);
    } else {
      hide ScanProgram;
      ProgramUnquoted(arg, rest);
    }
  }

  lemma ProgramInQuotes(arg: string, rest: string)
    requires Ends(rest) && NeedsQuotes(arg) && '"' !in arg
    ensures ScanProgram(Quoted(arg) + rest, false) == (arg + Slashes(Trailing(arg)), rest)
    ensures arg + Slashes(Trailing(arg)) == arg <==> arg == "" || arg[|arg| - 1] != '\\'
  {
    hide Trailing, ScanProgram, NeedsQuotes, Quoted, Body, Slashes;
    BodyOfProgram(arg);
    var text := arg + Slashes(Trailing(arg));
    StillQuoteFree(arg, Trailing(arg));
    ProgramQuoted(text, rest);
    ProgramOpens(text + "\"" + rest);
    assert Quoted(arg) + rest == "\"" + (text + "\"" + rest);
    TrailingIsZero(arg);
    assert |text| == |arg| + Trailing(arg);
    if Trailing(arg) == 0 { SlashesMove(0, arg); assert text == arg; }
  }

  lemma StillQuoteFree(arg: string, n: nat)
    requires '"' !in arg
    ensures forall i :: 0 <= i < |arg + Slashes(n)| ==> (arg + Slashes(n))[i] != '"'
  {
  }

  lemma BodyOfProgram(arg: string)
    requires NeedsQuotes(arg) && '"' !in arg
    ensures Quoted(arg) == "\"" + (arg + Slashes(Trailing(arg))) + "\""
  {
    hide Slashes, Trailing, Body;
    BodyWithoutQuotes(arg, 0);
    SlashesMove(0, arg);
  }

  lemma ProgramOpens(s: string)
    ensures ScanProgram("\"" + s, false) == ScanProgram(s, true)
  {
    assert ("\"" + s)[1..] == s;
  }

  lemma TrailingIsZero(arg: string)
    ensures Trailing(arg) == 0 <==> arg == "" || arg[|arg| - 1] != '\\'
  {
  }

  /** A command line reaches the child only up to its first NUL. */
  function UntilNul(s: string): string {
    if s == "" || s[0] == '\0' then "" else [s[0]] + UntilNul(s[1..])
  }

  predicate NulFree(s: string) { forall i :: 0 <= i < |s| ==> s[i] != '\0' }

  lemma {:induction false} UntilNulOfNulFree(s: string)
    requires NulFree(s)
    ensures UntilNul(s) == s
  {
    if s != "" { UntilNulOfNulFree(s[1..]); }
  }

  lemma NulFreeSum(a: string, b: string)
    requires NulFree(a) && NulFree(b)
    ensures NulFree(a + b)
  {
  }

  lemma {:induction false} BodyNulFree(arg: string, n: nat)
    requires NulFree(arg)
    ensures NulFree(Body(arg, n))
    decreases |arg|
  {
    if arg != "" { BodyNulFree(arg[1..], if arg[0] == '\\' then n + 1 else 0); }
  }

  lemma QuotedNulFree(arg: string)
    requires NulFree(arg)
    ensures NulFree(Quoted(arg))
  {
    BodyNulFree(arg, 0);
    hide Body;
    NulFreeSum("\"", Body(arg, 0));
    NulFreeSum("\"" + Body(arg, 0), "\"");
  }

  lemma {:induction false} LineIsNulFree(args: seq<string>)
    requires forall i :: 0 <= i < |args| ==> NulFree(args[i])
    ensures NulFree(CommandLine(args))
  {
    if args != [] {
      hide NulFree, Quoted;
      var (init, last) := (args[..|args| - 1], args[|args| - 1]);
      assert forall i :: 0 <= i < |init| ==> init[i] == args[i];
      LineIsNulFree(init);
      QuotedNulFree(last);
      assert NulFree(" ") by { SpaceIsNotNul(); }
      NulFreeSum(CommandLine(init), " ");
      NulFreeSum(CommandLine(init) + " ", Quoted(last));
    } else {
      assert NulFree(CommandLine(args));
    }
  }

  lemma SpaceIsNotNul()
    ensures NulFree(" ")
  {
  }

  /** Main result: the child sees exactly the arguments that were passed, if and
      only if its program name is plain. */
  lemma CommandLineRoundTrip(args: seq<string>)
    requires args != [] && forall i :: 0 <= i < |args| ==> NulFree(args[i])
    ensures SplitCommandLine(UntilNul(CommandLine(args))) == args <==> PlainProgram(args[0])
  {
    hide ScanProgram, SplitArgs, Scan, UntilNul, CommandLine, PlainProgram, Body, Tail, Quoted, NulFree, Ends;
    hide SplitCommandLine;
    CommandLineIsTail(args);
    LineIsNulFree(args);
    UntilNulOfNulFree(CommandLine(args));
    SplitsExactly(args[0], args[1..]);
    assert args == [args[0]] + args[1..];
  }

  lemma SplitsExactly(program: string, args: seq<string>)
    ensures SplitCommandLine(Quoted(program) + Tail(args)) == [program] + args <==> PlainProgram(program)
  {
    hide ScanProgram, SplitArgs, PlainProgram, Tail, Quoted, Ends;
    TailEnds(args);
    ProgramExactly(program, Tail(args));
    TailRoundTrip(args);
    var (first, rest) := ScanProgram(Quoted(program) + Tail(args), false);
    assert ([first] + SplitArgs(rest))[0] == first && ([program] + args)[0] == program;
  }

  lemma TailEnds(args: seq<string>)
    ensures Ends(Tail(args))
  {
  }
}
