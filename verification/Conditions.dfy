/** The condition of an `#if`: its text computes what its tree means, with
    `defined(name)` standing for whether the table has the name. */
module Conditions {
  import opened Options
  import opened Decimal
  import opened Chars
  import opened MacroText
  import opened Preprocessor
  import opened PlainText
  import opened PpExpr
  import opened PpExprMeaning
  import MacroBodies

  /** Macro names are names, as every definition makes sure. */
  predicate NamesOnly(m: Macros) { forall n :: n in m ==> n != "" && IsNameStart(n[0]) }

  lemma DefinitionsKeepNames(m: Macros, rest: string, lines: seq<string>, k: nat)
    requires NamesOnly(m) && k < |lines|
    ensures NamesOnly(Define(m, rest)) && NamesOnly(DefineBlock(m, lines, k))
  {
    HeaderNames(rest, false);
    HeaderNames(Rest(lines[k]), true);
  }

  lemma HeaderNames(rest: string, spaceAllowed: bool)
    ensures
      var h := ParseHeader(rest, spaceAllowed);
      h.Some? ==> h.value.0 != "" && IsNameStart(h.value.0[0])
  {
    hide ClosingParen, Arguments, IsVariadic;
    var s := TrimLeft(rest);
    if s != "" && IsNameStart(s[0]) { assert WordEnd(s, 0) > 0; }
  }

  /* ----- `defined` as a leaf of a tree ----- */

  const DEFINED := "defined("

  /** A leaf spelled `defined(name)`. */
  predicate AsksFor(s: string) { |s| > 9 && s[..8] == DEFINED && s[|s| - 1] == ')' && IsName(Asked(s)) }

  function Asked(s: string): string
    requires |s| > 9
  {
    s[8..|s| - 1]
  }

  /** The tree with 1 or 0 for each `defined(name)`. */
  function Settled(m: Macros, e: Expr): Expr {
    match e
    case Name(s) => if AsksFor(s) then Num(if Asked(s) in m then 1 else 0) else e
    case Not(x) => Not(Settled(m, x))
    case Neg(x) => Neg(Settled(m, x))
    case Bin(op, l, r) => Bin(op, Settled(m, l), Settled(m, r))
    case _ => e
  }

  /** The other names are names, and nothing in it names a macro. */
  predicate Readable(m: Macros, e: Expr) {
    match e
    case Name(s) => AsksFor(s) || (IsName(s) && LowerCase(s) != "not" && s !in Special(m))
    case Not(x) => Readable(m, x) && "not" !in m
    case Neg(x) => Readable(m, x)
    case Bin(op, l, r) => Readable(m, l) && Readable(m, r) && Spelling(TokOf(op)) !in m
    case _ => true
  }

  function SettledTok(m: Macros, t: Tok): Tok {
    if t.Ident? && AsksFor(t.text) then IntTok(if Asked(t.text) in m then 1 else 0) else t
  }

  function SettledToks(m: Macros, toks: seq<Tok>): seq<Tok> {
    seq(|toks|, i requires 0 <= i < |toks| => SettledTok(m, toks[i]))
  }

  /** A token that keeps its text when it is expanded. */
  predicate Kept(m: Macros, t: Tok) { Spelled(t) && (t.Ident? ==> t.text !in Special(m)) }

  predicate Fit(m: Macros, toks: seq<Tok>) {
    forall i :: 0 <= i < |toks| ==> Kept(m, SettledTok(m, toks[i]))
  }

  /* ----- tokens as plain text ----- */

  lemma NumeralsAreNoNames(m: Macros, n: nat)
    requires NamesOnly(m)
    ensures ToDec(n) !in Special(m) && forall i :: 0 <= i < |ToDec(n)| ==> IsNameChar(ToDec(n)[i])
  {
    assert IsDigit(ToDec(n)[0]) && !IsNameStart(ToDec(n)[0]);
    assert "defined"[0] == 'd' && "__LINE__"[0] == '_' && "__FILE__"[0] == '_';
  }

  lemma WordIsPlain(m: Macros, w: string)
    requires w != "" && (forall i :: 0 <= i < |w| ==> IsNameChar(w[i])) && w !in Special(m)
    ensures IsPlain(m, w + " ")
  {
    hide Special;
    var t := w + " ";
    MacroBodies.WordRuns(t, 0, |w|);
    assert t[0..|w|] == w && t[|w|] == ' ';
    assert MacroBodies.Quiet(t, |w| + 1, Special(m)) && MacroBodies.Quiet(t, |w|, Special(m));
  }

  lemma {:induction false} QuotedIsQuiet(l: string, y: string, i: nat, bound: Binding)
    requires i <= |l| && MacroBodies.AllQuoted(l, i) && MacroBodies.Quiet(l + y, |l|, bound)
    ensures MacroBodies.Quiet(l + y, i, bound)
    decreases |l| - i
  {
    if i < |l| {
      var j := QuoteEnd(l, i + 1);
      MacroBodies.QuoteEndStays(l, y, i + 1);
      assert (l + y)[i] == l[i] && (l + y)[j - 1] == l[j - 1];
      QuotedIsQuiet(l, y, j, bound);
    }
  }

  lemma LiteralIsPlain(m: Macros, s: string)
    ensures IsPlain(m, MacroBodies.Literal(s) + " ")
  {
    hide MacroBodies.AllQuoted;
    var l := MacroBodies.Literal(s);
    var t := l + " ";
    assert t[|l|] == ' ' && MacroBodies.Quiet(t, |l| + 1, Special(m)) && MacroBodies.Quiet(t, |l|, Special(m));
    MacroBodies.LiteralQuoted(s);
    QuotedIsQuiet(l, " ", 0, Special(m));
  }

  lemma MarkIsPlain(m: Macros, w: string)
    requires 1 <= |w| <= 2 && forall i :: 0 <= i < |w| ==> w[i] in "()=<>+-*/"
    ensures IsPlain(m, w + " ")
  {
    hide Special;
    var t := w + " ";
    assert t[|w|] == ' ' && forall i :: 0 <= i < |w| ==> t[i] == w[i];
    assert MacroBodies.Quiet(t, |t|, Special(m)) && MacroBodies.Quiet(t, |w|, Special(m));
    assert MacroBodies.Quiet(t, |w| - 1, Special(m));
  }

  lemma TokenIsPlain(m: Macros, t: Tok)
    requires NamesOnly(m) && Kept(m, t)
    ensures IsPlain(m, Spelling(t) + " ")
  {
    hide IsPlain;
    match t
    case IntTok(n) =>
      NumeralsAreNoNames(m, n);
      WordIsPlain(m, ToDec(n));
    case Ident(s) => WordIsPlain(m, s);
    case StrTok(s) => LiteralIsPlain(m, s);
    case LParen => MarkIsPlain(m, "(");
    case RParen => MarkIsPlain(m, ")");
    case OpTok(s) =>
      OperatorMarks(s);
      MarkIsPlain(m, s);
  }

  lemma OperatorMarks(s: string)
    requires OpOf(OpTok(s)).Some?
    ensures 1 <= |s| <= 2 && forall i :: 0 <= i < |s| ==> s[i] in "()=<>+-*/"
  {
    OpSpellings(s);
    assert s == "<>" || s == "<=" || s == ">=" || |s| == 1;
  }

  /* ----- the text of a condition ----- */

  lemma AskedIsAnswered(m: Macros, s: string, rest: string)
    requires AsksFor(s)
    ensures Resolved(s + " " + rest, 0, m) == (if Asked(s) in m then "1" else "0") + " " + Resolved(rest, 0, m)
  {
    hide Resolved, ClosingParen, Bracketed, Trim;
    var (n, t) := (Asked(s), s + " " + rest);
    AskedParts(s);
    assert t == "defined" + ("(" + n + ")" + " " + rest);
    assert t[..7] == "defined" && t[7] == '(';
    MacroBodies.WordRuns(t, 0, 7);
    NameInBrackets(t, 7, n);
    NameIsTrimmed(n);
    DefinedShape(t, 0, m);
    var x := if n in m then "1" else "0";
    assert DefinedStep(t, 0, m) == Step(x, |s|);
    ResolvedStep(t, 0, m, Step(x, |s|), "");
    MacroBodies.EmptyFirst(Resolved(t, 0, m), x, Resolved(t, |s|, m));
    assert t == s + (" " + rest);
    ResolvedTail(s, " " + rest, 0, m);
    BlankPasses(m, rest);
    assert x + (" " + Resolved(rest, 0, m)) == x + " " + Resolved(rest, 0, m);
  }

  lemma AskedParts(s: string)
    requires AsksFor(s)
    ensures s == "defined" + ("(" + Asked(s) + ")") && |s| == 9 + |Asked(s)|
  {
    assert s == s[..8] + Asked(s) + [s[|s| - 1]];
    assert DEFINED == "defined" + "(";
  }

  lemma BlankPasses(m: Macros, rest: string)
    ensures Resolved(" " + rest, 0, m) == " " + Resolved(rest, 0, m)
  {
    hide Resolved;
    assert MacroBodies.Quiet(" ", 1, Special(m)) && IsPlain(m, " ");
    PlainPasses(m, [], " ", rest, Loc(0, ""));
  }

  lemma NameInBrackets(t: string, j: nat, n: string)
    requires j + |n| + 2 <= |t| && t[j] == '(' && t[j + 1..j + 1 + |n|] == n && t[j + 1 + |n|] == ')' && IsName(n)
    ensures Bracketed(t, j) == Some((n, j + |n| + 2))
  {
    OpenIsNotClosing(t, j);
    NameCloses(t, j + 1, j + 1 + |n|, n);
  }

  lemma {:induction false} NameCloses(t: string, i: nat, close: nat, n: string)
    requires i <= close < |t| && t[close] == ')' && forall k :: i <= k < close ==> IsNameChar(t[k])
    ensures ClosingParen(t, i, 1, false) == Some(close)
    decreases close - i
  {
    if i < close { NameCloses(t, i + 1, close, n); }
  }

  lemma NameIsTrimmed(n: string)
    requires IsName(n)
    ensures Trim(n) == n
  {
  }

  lemma TextOfFirst(t: Tok, rest: seq<Tok>)
    ensures PpExprMeaning.Text([t] + rest) == Spelling(t) + " " + PpExprMeaning.Text(rest)
  {
    assert ([t] + rest)[1..] == rest;
  }

  lemma {:induction false} TextIsResolved(m: Macros, toks: seq<Tok>)
    requires NamesOnly(m) && Fit(m, toks)
    ensures Resolved(PpExprMeaning.Text(toks), 0, m) == PpExprMeaning.Text(SettledToks(m, toks))
  {
    hide Resolved, Spelling, PpExprMeaning.Text, SettledTok, Kept;
    if toks == [] {
      NothingThere(m);
    } else {
      var (t, rest) := (toks[0], toks[1..]);
      assert toks == [t] + rest && SettledToks(m, toks) == [SettledTok(m, t)] + SettledToks(m, rest);
      TextOfFirst(t, rest);
      TextOfFirst(SettledTok(m, t), SettledToks(m, rest));
      TextIsResolved(m, rest);
      TokenIsResolved(m, t, PpExprMeaning.Text(rest));
    }
  }

  lemma NothingThere(m: Macros)
    ensures Resolved("", 0, m) == "" && PpExprMeaning.Text([]) == "" && SettledToks(m, []) == []
  {
  }

  lemma TokenIsResolved(m: Macros, t: Tok, rest: string)
    requires NamesOnly(m) && Kept(m, SettledTok(m, t))
    ensures Resolved(Spelling(t) + " " + rest, 0, m) == Spelling(SettledTok(m, t)) + " " + Resolved(rest, 0, m)
  {
    hide Resolved, IsPlain, Kept;
    if t.Ident? && AsksFor(t.text) {
      AskedIsAnswered(m, t.text, rest);
      assert ToDec(1) == "1" && ToDec(0) == "0";
    } else {
      TokenIsPlain(m, t);
      PlainPasses(m, [], Spelling(t) + " ", rest, Loc(0, ""));
    }
  }

  lemma {:induction false} TextIsExpanded(m: Macros, toks: seq<Tok>, loc: Loc)
    requires NamesOnly(m) && forall i :: 0 <= i < |toks| ==> Kept(m, toks[i])
    ensures Expanded(m, PpExprMeaning.Text(toks), loc) == PpExprMeaning.Text(toks)
  {
    hide Expand, Spelling, PpExprMeaning.Text, Kept, IsPlain;
    if toks == [] {
      NothingThere(m);
      ExpandEnds(m, [], "", loc);
    } else {
      var (t, rest) := (toks[0], toks[1..]);
      assert toks == [t] + rest;
      TextOfFirst(t, rest);
      TextIsExpanded(m, rest, loc);
      TokenIsPlain(m, t);
      PlainPasses(m, [], Spelling(t) + " ", PpExprMeaning.Text(rest), loc);
    }
  }

  /* ----- trees ----- */

  lemma {:induction false} SettledPrints(m: Macros, e: Expr, level: nat)
    ensures Print(Settled(m, e), level) == SettledToks(m, Print(e, level))
    decreases e, 1
  {
    hide Print, Raw, Settled, SettledToks, SettledTok, Level;
    SettledRaw(m, e);
    LevelIsSettled(m, e);
    PrintShape(e, level);
    PrintShape(Settled(m, e), level);
    SettledBrackets(m, Raw(e));
  }

  lemma SettledBrackets(m: Macros, toks: seq<Tok>)
    ensures SettledToks(m, [LParen] + toks + [RParen]) == [LParen] + SettledToks(m, toks) + [RParen]
  {
    SettledMarks(m);
  }

  lemma {:induction false} SettledRaw(m: Macros, e: Expr)
    ensures Raw(Settled(m, e)) == SettledToks(m, Raw(e))
    decreases e, 0
  {
    hide Print;
    SettledMarks(m);
    match e
    case Not(x) => SettledPrints(m, x, NOT);
    case Neg(x) => SettledPrints(m, x, UNARY);
    case Bin(op, l, r) =>
      SettledPrints(m, l, LeftLevel(LevelOf(op)));
      SettledPrints(m, r, LevelOf(op) + 1);
      OperatorsAsk(m, op);
    case _ =>
  }

  lemma LevelIsSettled(m: Macros, e: Expr)
    ensures Level(Settled(m, e)) == Level(e)
  {
  }

  lemma SettledMarks(m: Macros)
    ensures SettledTok(m, LParen) == LParen && SettledTok(m, RParen) == RParen
    ensures SettledTok(m, OpTok("-")) == OpTok("-")
    ensures SettledTok(m, Ident("not")) == Ident("not")
  {
  }

  lemma OperatorsAsk(m: Macros, op: BinOp)
    ensures SettledTok(m, TokOf(op)) == TokOf(op)
  {
  }

  lemma {:induction false} ReadableFits(m: Macros, e: Expr, level: nat)
    requires Readable(m, e)
    ensures Fit(m, Print(e, level)) && ProperNames(Settled(m, e))
    decreases e, 1
  {
    RawFits(m, e);
    SettledMarks(m);
  }

  lemma {:induction false} RawFits(m: Macros, e: Expr)
    requires Readable(m, e)
    ensures Fit(m, Raw(e)) && ProperNames(Settled(m, e))
    decreases e, 0
  {
    hide Print;
    SettledMarks(m);
    match e
    case Not(x) => ReadableFits(m, x, NOT);
    case Neg(x) => ReadableFits(m, x, UNARY);
    case Bin(op, l, r) =>
      ReadableFits(m, l, LeftLevel(LevelOf(op)));
      ReadableFits(m, r, LevelOf(op) + 1);
      OperatorsAsk(m, op);
      OperatorIsKept(m, op);
    case _ =>
  }

  lemma OperatorIsKept(m: Macros, op: BinOp)
    requires Spelling(TokOf(op)) !in m
    ensures Kept(m, TokOf(op))
  {
    OperatorSpelled(op);
  }

  /** Whether a condition holds: its tree, with 1 for each `defined(name)` that the
      table has and 0 for the others, means a number other than zero. */
  predicate IsTrue(m: Macros, e: Expr) {
    var v := Meaning(Settled(m, e));
    v.Fine? && Numeric(v.v) != 0
  }

  /** Main result: what the text of a condition is worth. */
  lemma ConditionMeans(m: Macros, e: Expr, loc: Loc)
    requires NamesOnly(m) && Readable(m, e)
    ensures IfCondition(m, " " + PpExprMeaning.Text(Print(e, OR)), loc) <==> IsTrue(m, e)
  {
    hide PpExprMeaning.Text, Print, Resolved, Expand, EvalAll, Scan, Meaning, Settled, Readable, Special;
    hide MacroBodies.Quiet;
    var (toks, settled) := (Print(e, OR), Print(Settled(m, e), OR));
    ReadableFits(m, e, OR);
    SettledPrints(m, e, OR);
    TextIsResolved(m, toks);
    BlankPasses(m, PpExprMeaning.Text(toks));
    FitIsKept(m, toks);
    TextIsExpanded(m, settled, loc);
    BlankExpands(m, PpExprMeaning.Text(settled), loc);
    SpaceSkipped(PpExprMeaning.Text(settled));
    EvaluatesToMeaning(Settled(m, e));
  }

  lemma FitIsKept(m: Macros, toks: seq<Tok>)
    requires Fit(m, toks)
    ensures forall i :: 0 <= i < |SettledToks(m, toks)| ==> Kept(m, SettledToks(m, toks)[i])
  {
  }

  lemma BlankExpands(m: Macros, rest: string, loc: Loc)
    ensures Expanded(m, " " + rest, loc) == " " + Expanded(m, rest, loc)
  {
    hide Expand;
    assert MacroBodies.Quiet(" ", 1, Special(m)) && IsPlain(m, " ");
    PlainPasses(m, [], " ", rest, loc);
  }
}
