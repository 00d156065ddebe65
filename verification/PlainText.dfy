/** Text that names no macro: expansion copies it, and so `#if` expressions mean
    what their trees mean. */
module PlainText {
  import opened Options
  import opened Decimal
  import opened Chars
  import opened MacroText
  import opened Preprocessor
  import opened MacroBodies
  import PpExpr
  import PpExprMeaning

  /** The words that expansion, or the reading of `defined`, looks for. */
  function Special(m: Macros): Binding {
    map n | n in m.Keys + {"defined", "__LINE__", "__FILE__"} :: ""
  }

  /** Text without comments, `#`, open strings, or any such word. */
  predicate IsPlain(m: Macros, t: string) { Quiet(t, 0, Special(m)) }

  /* ----- expansion of a part of a text ----- */

  lemma {:induction false} ClosingShifts(x: string, y: string, i: nat, depth: nat, inString: bool)
    requires i <= |y|
    ensures
      var (c, d) := (ClosingParen(x + y, |x| + i, depth, inString), ClosingParen(y, i, depth, inString));
      (c.None? <==> d.None?) && (c.Some? ==> c.value == |x| + d.value)
    decreases |y| - i
  {
    if i < |y| {
      assert (x + y)[|x| + i] == y[i];
      if inString {
        ClosingShifts(x, y, i + 1, depth, y[i] != '"');
      } else if y[i] == '"' {
        ClosingShifts(x, y, i + 1, depth, true);
      } else if y[i] == '(' {
        ClosingShifts(x, y, i + 1, depth + 1, false);
      } else if !(y[i] == ')' && depth <= 1) {
        ClosingShifts(x, y, i + 1, if y[i] == ')' then depth - 1 else depth, false);
      }
    }
  }

  function MovedUse(u: Use, n: nat): Use {
    match u
    case BadCall(next) => BadCall(n + next)
    case Call(bound, next) => Call(bound, n + next)
    case _ => u
  }

  lemma UseShifts(def: MacroDef, x: string, y: string, j: nat)
    requires j <= |y|
    ensures UseOf(def, x + y, |x| + j) == MovedUse(UseOf(def, y, j), |x|)
  {
    hide ClosingParen, BlanksEnd, Bind, Arguments;
    EndsShift(x, y, j);
    var open := BlanksEnd(y, j);
    if def.isFunction && open < |y| {
      assert (x + y)[|x| + open] == y[open];
      ClosingShifts(x, y, open, 0, false);
      var close := ClosingParen(y, open, 0, false);
      if y[open] == '(' && close.Some? {
        OpenIsNotClosing(y, open);
        SlicesShift(x, y, open + 1, close.value);
      }
    }
  }

  lemma ExpandStepShifts(m: Macros, active: seq<string>, x: string, y: string, i: nat, loc: Loc)
    requires i < |y| && (i == 0 ==> Apart(x, y))
    ensures ExpandStep(m, active, x + y, |x| + i, loc) == Moved(ExpandStep(m, active, y, i, loc), |x|)
  {
    hide QuoteEnd, WordEnd, CopyStep, UseOf, Expand, SubstituteBody, Live;
    var t := x + y;
    assert t[|x| + i] == y[i] && (i > 0 ==> t[|x| + i - 1] == y[i - 1]);
    assert i == 0 && x != "" ==> t[|x| - 1] == x[|x| - 1];
    CopyShifts(x, y, i);
    EndsShift(x, y, i);
    var j := WordEnd(y, i);
    SlicesShift(x, y, i, j);
    var word := y[i..j];
    if word in Live(m, active) {
      LiveIsIn(m, active, word);
      UseShifts(m[word], x, y, j);
    }
  }

  lemma LiveIsIn(m: Macros, active: seq<string>, word: string)
    requires word in Live(m, active)
    ensures word in m
  {
  }

  /** Expansion does to the rest of a text what it does to that rest alone. */
  lemma {:induction false} ExpandTail(m: Macros, active: seq<string>, x: string, y: string, i: nat, loc: Loc)
    requires i <= |y| && (i == 0 ==> Apart(x, y))
    ensures Expand(m, active, x + y, |x| + i, loc) == Expand(m, active, y, i, loc)
    decreases |y| - i
  {
    hide ExpandStep;
    if i < |y| {
      ExpandStepShifts(m, active, x, y, i, loc);
      ExpandTail(m, active, x, y, ExpandStep(m, active, y, i, loc).next, loc);
    }
  }

  /** What stands in the brackets after a word, if there are any. */
  function Bracketed(t: string, j: nat): Option<(string, nat)>
    requires j <= |t|
  {
    var open := BlanksEnd(t, j);
    if open == |t| || t[open] != '(' then None
    else
      match ClosingParen(t, open, 0, false)
      case None => None
      case Some(close) =>
        assert close > open by { OpenIsNotClosing(t, open); }
        Some((t[open + 1..close], close + 1))
  }

  lemma BracketedShifts(x: string, y: string, j: nat)
    requires j <= |y|
    ensures
      var (b, c) := (Bracketed(x + y, |x| + j), Bracketed(y, j));
      (b.None? <==> c.None?) && (b.Some? ==> b.value == (c.value.0, |x| + c.value.1))
  {
    hide ClosingParen, BlanksEnd;
    EndsShift(x, y, j);
    var open := BlanksEnd(y, j);
    if open < |y| {
      assert (x + y)[|x| + open] == y[open];
      ClosingShifts(x, y, open, 0, false);
      var close := ClosingParen(y, open, 0, false);
      if y[open] == '(' && close.Some? {
        OpenIsNotClosing(y, open);
        SlicesShift(x, y, open + 1, close.value);
      }
    }
  }

  lemma DefinedShape(t: string, i: nat, m: Macros)
    requires i < |t|
    ensures
      DefinedStep(t, i, m) ==
        if t[i] == '"' then CopyStep(t, i)
        else if !StartsWord(t, i) then Step([t[i]], i + 1)
        else
          var j := WordEnd(t, i);
          var b := Bracketed(t, j);
          if t[i..j] == "defined" && b.Some? then Step(if Trim(b.value.0) in m then "1" else "0", b.value.1)
          else Step(t[i..j], j)
  {
    hide ClosingParen, BlanksEnd, WordEnd, CopyStep, Trim;
  }

  lemma DefinedShifts(x: string, y: string, i: nat, m: Macros)
    requires i < |y| && (i == 0 ==> Apart(x, y))
    ensures DefinedStep(x + y, |x| + i, m) == Moved(DefinedStep(y, i, m), |x|)
  {
    hide QuoteEnd, WordEnd, CopyStep, Bracketed, DefinedStep, Trim;
    var t := x + y;
    assert t[|x| + i] == y[i] && (i > 0 ==> t[|x| + i - 1] == y[i - 1]);
    assert i == 0 && x != "" ==> t[|x| - 1] == x[|x| - 1];
    CopyShifts(x, y, i);
    EndsShift(x, y, i);
    SlicesShift(x, y, i, WordEnd(y, i));
    BracketedShifts(x, y, WordEnd(y, i));
    DefinedShape(t, |x| + i, m);
    DefinedShape(y, i, m);
  }

  lemma {:induction false} ResolvedTail(x: string, y: string, i: nat, m: Macros)
    requires i <= |y| && (i == 0 ==> Apart(x, y))
    ensures Resolved(x + y, |x| + i, m) == Resolved(y, i, m)
    decreases |y| - i
  {
    hide DefinedStep;
    if i < |y| {
      DefinedShifts(x, y, i, m);
      ResolvedTail(x, y, DefinedStep(y, i, m).next, m);
    }
  }

  /* ----- plain text is copied ----- */

  lemma PlainSteps(m: Macros, active: seq<string>, a: string, y: string, i: nat, loc: Loc)
    requires i < |a| && Quiet(a, i, Special(m)) && Apart(a, y) && (i > 0 && IsNameChar(a[i]) ==> !IsNameChar(a[i - 1]))
    ensures
      var (t, s) := (a + y, Step(a[i..QuietEnd(a, i)], QuietEnd(a, i)));
      ExpandStep(m, active, t, i, loc) == s && DefinedStep(t, i, m) == s && Quiet(a, s.next, Special(m))
  {
    hide Expand, SubstituteBody, UseOf, ClosingParen, BlanksEnd;
    var (t, j) := (a + y, QuietEnd(a, i));
    assert t[i] == a[i] && (i > 0 ==> t[i - 1] == a[i - 1]) && t[i..j] == a[i..j];
    if IsNameChar(a[i]) {
      WordEndStaysHere(a, y, i);
    } else if a[i] == '"' {
      QuoteEndStays(a, y, i + 1);
    }
  }

  lemma {:induction false} PlainIsKept(m: Macros, active: seq<string>, a: string, y: string, i: nat, loc: Loc)
    requires i <= |a| && Quiet(a, i, Special(m)) && Apart(a, y)
    requires i > 0 && i < |a| && IsNameChar(a[i]) ==> !IsNameChar(a[i - 1])
    ensures Expand(m, active, a + y, i, loc) == a[i..] + Expand(m, active, a + y, |a|, loc)
    ensures Resolved(a + y, i, m) == a[i..] + Resolved(a + y, |a|, m)
    decreases |a| - i
  {
    hide Expand, Resolved, ExpandStep, DefinedStep, Quiet, QuietEnd, Special;
    if i < |a| {
      var (t, j) := (a + y, QuietEnd(a, i));
      var s := Step(a[i..j], j);
      PlainSteps(m, active, a, y, i, loc);
      WordsEndApart(a, i);
      PlainIsKept(m, active, a, y, j, loc);
      ExpandedStep(m, active, t, i, loc, s, "");
      ResolvedStep(t, i, m, s, "");
      EmptyFirst(Expand(m, active, t, i, loc), s.text, Expand(m, active, t, j, loc));
      EmptyFirst(Resolved(t, i, m), s.text, Resolved(t, j, m));
      PutTogether(a, i, j, Expand(m, active, t, |a|, loc));
      PutTogether(a, i, j, Resolved(t, |a|, m));
    } else {
      assert a[i..] == "";
    }
  }

  /** Main result: text that names no macro is copied, without changing what follows. */
  lemma PlainPasses(m: Macros, active: seq<string>, a: string, y: string, loc: Loc)
    requires IsPlain(m, a) && Apart(a, y)
    ensures Expand(m, active, a + y, 0, loc) == a + Expand(m, active, y, 0, loc)
    ensures Resolved(a + y, 0, m) == a + Resolved(y, 0, m)
  {
    hide Expand, Resolved, Quiet;
    PlainIsKept(m, active, a, y, 0, loc);
    ExpandTail(m, active, a, y, 0, loc);
    ResolvedTail(a, y, 0, m);
    assert a[0..] == a;
  }

  lemma PlainIsItself(m: Macros, t: string, loc: Loc)
    requires IsPlain(m, t)
    ensures Expanded(m, t, loc) == t && Resolved(t, 0, m) == t
  {
    hide IsPlain;
    PlainPasses(m, [], t, "", loc);
    assert t + "" == t;
    ExpandEnds(m, [], "", loc);
  }

  /** What stands for the line and the file it is on. */
  lemma PlaceNames(m: Macros, loc: Loc)
    ensures Expanded(m, "__LINE__", loc) == ToDec(loc.line)
    ensures Expanded(m, "__FILE__", loc) == "\"" + loc.file + "\""
  {
    hide UseOf, SubstituteBody, Live;
    var (line, file) := ("__LINE__", "__FILE__");
    WordRuns(line, 0, 8);
    WordRuns(file, 0, 8);
    assert line[0..8] == line && file[0..8] == file;
    assert ExpandStep(m, [], line, 0, loc) == Step(ToDec(loc.line), 8);
    assert ExpandStep(m, [], file, 0, loc) == Step("\"" + loc.file + "\"", 8);
    ExpandEnds(m, [], line, loc);
    ExpandEnds(m, [], file, loc);
  }
}
