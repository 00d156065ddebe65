/** The one-pass `#if` evaluator computes the meaning of the expression tree. */
module PpExprMeaning {
  import opened Options
  import opened Decimal
  import opened Chars
  import opened Spans
  import opened PpExpr

  datatype Expr =
    | Num(n: nat) | Str(s: string) | Name(name: string)
    | Not(e: Expr) | Neg(e: Expr) | Bin(op: BinOp, l: Expr, r: Expr)

  /** A name that no macro replaced counts as zero. */
  function Meaning(e: Expr): Result<Value> {
    match e
    case Num(n) => Fine(I(n))
    case Str(s) => Fine(S(s))
    case Name(_) => Fine(I(0))
    case Not(x) =>
      var v := Meaning(x);
      if v.Bad? then v else Fine(Bit(!Truthy(v.v)))
    case Neg(x) =>
      var v := Meaning(x);
      if v.Bad? then v else if v.v.S? then Bad(NegatesString) else Fine(I(-v.v.n))
    case Bin(op, l, r) =>
      var (a, b) := (Meaning(l), Meaning(r));
      if a.Bad? then a else if b.Bad? then b else Apply(op, a.v, b.v)
  }

  /* ----- types ----- */

  datatype Type = NumberType | TextType

  function TypeOf(e: Expr): Type { if e.Str? then TextType else NumberType }

  /** Text may be compared for equality with text, and tested for emptiness. */
  predicate WellTyped(e: Expr) {
    match e
    case Not(x) => WellTyped(x)
    case Neg(x) => WellTyped(x) && TypeOf(x) == NumberType
    case Bin(op, l, r) =>
      && WellTyped(l) && WellTyped(r)
      && (if op.Or? || op.And? then true
          else if op.Eq? || op.Ne? then TypeOf(l) == TypeOf(r)
          else TypeOf(l) == TypeOf(r) == NumberType)
    case _ => true
  }

  lemma {:induction false} TypeIsSound(e: Expr)
    ensures Meaning(e).Fine? ==> (Meaning(e).v.S? <==> TypeOf(e) == TextType)
  {
  }

  /** Main result on failures: an ill-typed expression has no value, and a
      well-typed one lacks a value only where it divides by zero. */
  lemma {:induction false} FailsOnlyOn(e: Expr)
    ensures Meaning(e).Fine? ==> WellTyped(e)
    ensures WellTyped(e) && Meaning(e).Bad? ==> Meaning(e).e == DivisionByZero
  {
    match e
    case Not(x) => FailsOnlyOn(x);
    case Neg(x) =>
      FailsOnlyOn(x);
      TypeIsSound(x);
    case Bin(op, l, r) =>
      FailsOnlyOn(l);
      FailsOnlyOn(r);
      TypeIsSound(l);
      TypeIsSound(r);
    case _ =>
  }

  /* ----- printing ----- */

  function TokOf(op: BinOp): Tok {
    match op
    case Or => Ident("or")
    case And => Ident("and")
    case Mod => Ident("mod")
    case Eq => OpTok("=")
    case Ne => OpTok("<>")
    case Lt => OpTok("<")
    case Gt => OpTok(">")
    case Le => OpTok("<=")
    case Ge => OpTok(">=")
    case Add => OpTok("+")
    case Sub => OpTok("-")
    case Mul => OpTok("*")
    case Div => OpTok("/")
  }

  function Level(e: Expr): nat {
    match e
    case Bin(op, _, _) => LevelOf(op)
    case Not(_) => NOT
    case Neg(_) => UNARY
    case _ => PRIMARY
  }

  predicate Chains(level: nat) { HasOperators(level) && level != COMPARISON }

  function LeftLevel(level: nat): nat { if Chains(level) then level else level + 1 }

  /** The tokens of an expression where the grammar expects at least `level`. */
  function Print(e: Expr, level: nat): seq<Tok>
    decreases e, 1
  {
    if Level(e) < level then [LParen] + Raw(e) + [RParen] else Raw(e)
  }

  function Raw(e: Expr): seq<Tok>
    decreases e, 0
  {
    match e
    case Num(n) => [IntTok(n)]
    case Str(s) => [StrTok(s)]
    case Name(n) => [Ident(n)]
    case Not(x) => [Ident("not")] + Print(x, NOT)
    case Neg(x) => [OpTok("-")] + Print(x, UNARY)
    case Bin(op, l, r) => Print(l, LeftLevel(LevelOf(op))) + [TokOf(op)] + Print(r, LevelOf(op) + 1)
  }

  /** No name is spelled like `not`, which an operand may begin with. */
  predicate NamesOK(e: Expr) {
    match e
    case Name(n) => LowerCase(n) != "not"
    case Not(x) => NamesOK(x)
    case Neg(x) => NamesOK(x)
    case Bin(_, l, r) => NamesOK(l) && NamesOK(r)
    case _ => true
  }

  /* ----- evaluating what was printed ----- */

  predicate Starts(t: Tok, level: nat) {
    !t.End? && (level > NOT ==> !IdentIs(t, "not")) && (level > UNARY ==> t != OpTok("-"))
  }

  predicate Stops(t: Tok, level: nat) { OpOf(t).Some? ==> LevelOf(OpOf(t).value) < level }

  /** A chaining level may be followed by its own operators. */
  function Bound(level: nat): nat { if Chains(level) then level + 1 else level }

  function Ends(r: Result<Value>, pos: nat): Parsed { if r.Bad? then Err(r.e) else Got(r.v, pos) }

  function Continue(toks: seq<Tok>, level: nat, r: Result<Value>, pos: nat): Parsed
    requires Tokens(toks) && pos < |toks|
  {
    if r.Fine? && Chains(level) then EvalRest(toks, level, r.v, pos) else Ends(r, pos)
  }

  lemma {:induction false} PrintStarts(e: Expr, level: nat)
    requires NamesOK(e)
    ensures Print(e, level) != [] && Starts(Print(e, level)[0], level)
    decreases e, 1
  {
    if Level(e) >= level { RawStarts(e); }
  }

  lemma {:induction false} RawStarts(e: Expr)
    requires NamesOK(e)
    ensures Raw(e) != [] && Starts(Raw(e)[0], Level(e))
    decreases e, 0
  {
    match e
    case Bin(op, l, r) => PrintStarts(l, LeftLevel(LevelOf(op)));
    case _ =>
  }

  /** From a tight level up to a looser one, when nothing in between applies. */
  lemma {:induction false} Ascend(toks: seq<Tok>, level: nat, from: nat, pos: nat, r: Result<Value>, end: nat)
    requires Tokens(toks) && pos < |toks| && end < |toks| && OR <= level < from <= PRIMARY
    requires Eval(toks, from, pos) == Ends(r, end)
    requires Starts(toks[pos], from) && Stops(toks[end], Bound(level))
    ensures Eval(toks, level, pos) == Continue(toks, level, r, end)
    decreases from - level
  {
    hide Tokens, EvalPrimary, OpOf, Apply;
    if level + 1 < from { Ascend(toks, level + 1, from, pos, r, end); }
    assert Eval(toks, level + 1, pos) == Ends(r, end);
  }

  lemma ContinueEnds(toks: seq<Tok>, level: nat, r: Result<Value>, pos: nat)
    requires Tokens(toks) && pos < |toks| && Stops(toks[pos], level)
    ensures Continue(toks, level, r, pos) == Ends(r, pos)
  {
  }

  lemma PrintShape(e: Expr, level: nat)
    ensures Print(e, level) == if Level(e) < level then [LParen] + Raw(e) + [RParen] else Raw(e)
    ensures OR <= Level(e) <= PRIMARY
  {
  }

  lemma AtomPrinted(toks: seq<Tok>, e: Expr, pos: nat)
    requires Tokens(toks) && Level(e) == PRIMARY && Stands(toks, pos, Raw(e))
    ensures Eval(toks, PRIMARY, pos) == Ends(Meaning(e), pos + |Raw(e)|)
  {
    First(toks, pos, Raw(e));
    PrimaryIs(toks, pos);
  }

  /** Main lemma: at every level, evaluating the tokens printed for it yields the
      meaning, all tokens used, up to operators of that level that may follow. */
  lemma {:induction false} EvalPrinted(toks: seq<Tok>, e: Expr, level: nat, pos: nat)
    requires Tokens(toks) && OR <= level <= PRIMARY && NamesOK(e) && Stands(toks, pos, Print(e, level))
    requires Stops(toks[pos + |Print(e, level)|], Bound(level))
    ensures Eval(toks, level, pos) == Continue(toks, level, Meaning(e), pos + |Print(e, level)|)
    decreases e, if Level(e) < level then 4 else if Level(e) == level then 1 else 2
  {
    hide Eval, EvalRest, EvalPrimary, Tokens, Stands, Print, Raw, OpOf, Meaning, NamesOK;
    PrintShape(e, level);
    var end := pos + |Print(e, level)|;
    PrintStarts(e, level);
    First(toks, pos, Print(e, level));
    if Level(e) < level {
      Parenthesized(toks, e, pos);
      if level < PRIMARY { Ascend(toks, level, PRIMARY, pos, Meaning(e), end); }
    } else if Level(e) > level {
      var from := Level(e);
      RawStarts(e);
      PrintShape(e, from);
      EvalPrinted(toks, e, from, pos);
      ContinueEnds(toks, from, Meaning(e), end);
      Ascend(toks, level, from, pos, Meaning(e), end);
    } else if level == PRIMARY {
      AtomPrinted(toks, e, pos);
    } else if e.Bin? {
      OperatorPrinted(toks, e, pos);
    } else {
      PrefixPrinted(toks, e, pos);
    }
  }

  lemma {:induction false} Parenthesized(toks: seq<Tok>, e: Expr, pos: nat)
    requires Tokens(toks) && NamesOK(e) && Stands(toks, pos, [LParen] + Raw(e) + [RParen])
    ensures Eval(toks, PRIMARY, pos) == Ends(Meaning(e), pos + |Raw(e)| + 2)
    decreases e, 3
  {
    hide Tokens, Eval, EvalRest, EvalPrimary, Stands, Print, Raw, Meaning, NamesOK;
    PrintShape(e, OR);
    var close := pos + 1 + |Raw(e)|;
    Bracketed(toks, pos, LParen, Raw(e), RParen);
    EvalPrinted(toks, e, OR, pos + 1);
    ContinueEnds(toks, OR, Meaning(e), close);
    ParenthesesAround(toks, Meaning(e), pos, close);
  }

  lemma ParenthesesAround(toks: seq<Tok>, r: Result<Value>, pos: nat, close: nat)
    requires Tokens(toks) && pos + 1 < |toks| && close + 1 < |toks| && toks[pos] == LParen && toks[close] == RParen
    requires Eval(toks, OR, pos + 1) == Ends(r, close)
    ensures Eval(toks, PRIMARY, pos) == Ends(r, close + 1)
  {
    hide Tokens, Eval;
    PrimaryIs(toks, pos);
  }

  lemma PrefixShape(e: Expr)
    requires e.Not? || e.Neg?
    ensures Raw(e) == [if e.Not? then Ident("not") else OpTok("-")] + Print(e.e, Level(e))
    ensures Level(e) == if e.Not? then NOT else UNARY
    ensures NamesOK(e) ==> NamesOK(e.e)
  {
  }

  lemma {:induction false} PrefixPrinted(toks: seq<Tok>, e: Expr, pos: nat)
    requires Tokens(toks) && (e.Not? || e.Neg?) && NamesOK(e) && Stands(toks, pos, Raw(e))
    requires Stops(toks[pos + |Raw(e)|], Level(e))
    ensures Eval(toks, Level(e), pos) == Ends(Meaning(e), pos + |Raw(e)|)
    decreases e, 0
  {
    hide Tokens, Eval, EvalRest, EvalPrimary, Stands, Print, Raw, OpOf, Meaning, NamesOK, Level;
    PrefixShape(e);
    Split(toks, pos, [Raw(e)[0]], Print(e.e, Level(e)));
    First(toks, pos, Raw(e));
    EvalPrinted(toks, e.e, Level(e), pos + 1);
    PrefixStep(toks, e, pos, pos + |Raw(e)|);
  }

  lemma PrefixStep(toks: seq<Tok>, e: Expr, pos: nat, end: nat)
    requires Tokens(toks) && (e.Not? || e.Neg?) && pos + 1 < |toks| && end < |toks|
    requires toks[pos] == if e.Not? then Ident("not") else OpTok("-")
    requires Eval(toks, Level(e), pos + 1) == Ends(Meaning(e.e), end)
    ensures Eval(toks, Level(e), pos) == Ends(Meaning(e), end)
  {
    hide Tokens, EvalRest, EvalPrimary;
    assert LowerCase("not") == "not";
  }

  lemma OperatorShape(e: Expr)
    requires e.Bin?
    ensures
      var level := LevelOf(e.op);
      && Level(e) == level && HasOperators(level) && OR <= LeftLevel(level) <= PRIMARY && level + 1 <= PRIMARY
      && OpOf(TokOf(e.op)) == Some(e.op) && Stops(TokOf(e.op), Bound(LeftLevel(level))) && Stops(TokOf(e.op), level + 1)
      && Raw(e) == Print(e.l, LeftLevel(level)) + [TokOf(e.op)] + Print(e.r, level + 1)
      && (NamesOK(e) ==> NamesOK(e.l) && NamesOK(e.r))
  {
    assert LowerCase("or") == "or" && LowerCase("and") == "and" && LowerCase("mod") == "mod";
  }

  lemma {:induction false} OperatorPrinted(toks: seq<Tok>, e: Expr, pos: nat)
    requires Tokens(toks) && e.Bin? && NamesOK(e) && Stands(toks, pos, Raw(e))
    requires Stops(toks[pos + |Raw(e)|], Bound(Level(e)))
    ensures Eval(toks, Level(e), pos) == Continue(toks, Level(e), Meaning(e), pos + |Raw(e)|)
    decreases e, 0
  {
    hide Tokens, Eval, EvalRest, EvalPrimary, Stands, Print, Raw, OpOf, LevelOf, Meaning, NamesOK, Apply, TokOf;
    OperatorShape(e);
    var level := Level(e);
    var (l, r) := (Print(e.l, LeftLevel(level)), Print(e.r, level + 1));
    var (mid, end) := (pos + |l|, pos + |Raw(e)|);
    Separated(toks, pos, l, TokOf(e.op), r);
    EvalPrinted(toks, e.l, LeftLevel(level), pos);
    if !Chains(level) { ContinueEnds(toks, level + 1, Meaning(e.l), mid); }
    RightStops(toks[end], level);
    EvalPrinted(toks, e.r, level + 1, mid + 1);
    ContinueEnds(toks, level + 1, Meaning(e.r), end);
    LevelIsRest(toks, level, pos);
    MeaningOfBin(e);
    if Meaning(e.l).Fine? { OperatorApplies(toks, e, pos, mid, end); }
  }

  lemma MeaningOfBin(e: Expr)
    requires e.Bin?
    ensures Meaning(e.l).Bad? ==> Meaning(e) == Meaning(e.l)
    ensures Meaning(e.l).Fine? && Meaning(e.r).Bad? ==> Meaning(e) == Meaning(e.r)
    ensures Meaning(e.l).Fine? && Meaning(e.r).Fine? ==> Meaning(e) == Apply(e.op, Meaning(e.l).v, Meaning(e.r).v)
  {
    hide Apply;
  }

  lemma RightStops(t: Tok, level: nat)
    requires HasOperators(level) && Stops(t, Bound(level))
    ensures Stops(t, level + 1) && Stops(t, Bound(level + 1))
  {
  }

  lemma OperatorApplies(toks: seq<Tok>, e: Expr, pos: nat, mid: nat, end: nat)
    requires Tokens(toks) && e.Bin? && Meaning(e.l).Fine? && pos < |toks| && mid + 1 < |toks| && end < |toks|
    requires toks[mid] == TokOf(e.op) && HasOperators(Level(e))
    requires Eval(toks, Level(e) + 1, mid + 1) == Ends(Meaning(e.r), end)
    ensures EvalRest(toks, Level(e), Meaning(e.l).v, mid) == Continue(toks, Level(e), Meaning(e), end)
  {
    hide Tokens, Eval, EvalRest, EvalPrimary, Print, Raw, Apply, Meaning, OpOf, TokOf;
    OperatorShape(e);
    RestGoesOn(toks, Level(e), Meaning(e.l).v, mid, e.op);
    MeaningOfBin(e);
  }

  /* ----- from text to value ----- */

  function Spelling(t: Tok): string {
    match t
    case IntTok(n) => if n < 0 then "" else ToDec(n)
    case StrTok(s) => "\"" + Doubled(s) + "\""
    case Ident(s) => s
    case LParen => "("
    case RParen => ")"
    case OpTok(s) => s
    case End => ""
  }

  /** Tokens that some text spells. */
  predicate Spelled(t: Tok) {
    match t
    case IntTok(n) => n >= 0
    case Ident(s) => IsName(s)
    case OpTok(s) => OpOf(t).Some?
    case End => false
    case _ => true
  }

  predicate IsName(s: string) {
    s != "" && IsNameStart(s[0]) && forall i :: 0 <= i < |s| ==> IsNameChar(s[i])
  }

  predicate AllSpelled(toks: seq<Tok>) { forall i :: 0 <= i < |toks| ==> Spelled(toks[i]) }

  function Text(toks: seq<Tok>): string { if toks == [] then "" else Spelling(toks[0]) + " " + Text(toks[1..]) }

  lemma {:induction false} DigitsEnd(s: string, rest: string)
    requires AllDigits(s)
    ensures DigitsLength(s + " " + rest) == |s|
  {
    if s == "" {
      assert s + " " + rest == " " + rest;
    } else {
      assert (s + " " + rest)[1..] == s[1..] + " " + rest;
      DigitsEnd(s[1..], rest);
    }
  }

  lemma {:induction false} WordEnds(s: string, rest: string)
    requires forall i :: 0 <= i < |s| ==> IsNameChar(s[i])
    ensures WordLength(s + " " + rest) == |s|
  {
    if s == "" {
      assert s + " " + rest == " " + rest;
    } else {
      assert (s + " " + rest)[1..] == s[1..] + " " + rest;
      WordEnds(s[1..], rest);
    }
  }

  /** A literal with its quotes doubled reads back as itself, unless another quote
      follows it. */
  lemma {:induction false} QuotesRoundTrip(s: string, rest: string)
    requires rest == "" || rest[0] != '"'
    ensures ReadQuoted(Doubled(s) + "\"" + rest) == (s, rest)
  {
    var t := Doubled(s) + "\"" + rest;
    if s == "" {
      assert t == "\"" + rest;
      assert t[1..] == rest;
    } else {
      QuotesRoundTrip(s[1..], rest);
      var tail := Doubled(s[1..]) + "\"" + rest;
      if s[0] == '"' {
        assert t == "\"\"" + tail;
        assert t[2..] == tail;
      } else {
        assert t == [s[0]] + tail;
        assert t[1..] == tail;
      }
      assert s == [s[0]] + s[1..];
    }
  }

  lemma LexesInt(n: nat, rest: string)
    ensures Lex(ToDec(n) + " " + rest) == (Some(IntTok(n)), " " + rest)
  {
    var t := ToDec(n) + " " + rest;
    DigitsEnd(ToDec(n), rest);
    DecRoundTrip(n);
    assert t[0] == ToDec(n)[0] && t[..|ToDec(n)|] == ToDec(n) && t[|ToDec(n)|..] == " " + rest;
  }

  lemma LexesString(s: string, rest: string)
    requires rest == "" || rest[0] != '"'
    ensures Lex("\"" + Doubled(s) + "\"" + rest) == (Some(StrTok(s)), rest)
  {
    var t := "\"" + Doubled(s) + "\"" + rest;
    QuotesRoundTrip(s, rest);
    assert t[1..] == Doubled(s) + "\"" + rest;
  }

  lemma LexesName(s: string, rest: string)
    requires IsName(s)
    ensures Lex(s + " " + rest) == (Some(Ident(s)), " " + rest)
  {
    var t := s + " " + rest;
    WordEnds(s, rest);
    assert t[0] == s[0] && t[..|s|] == s && t[|s|..] == " " + rest;
  }

  lemma LexesOp(s: string, rest: string)
    requires OpOf(OpTok(s)).Some?
    ensures Lex(s + " " + rest) == (Some(OpTok(s)), " " + rest)
  {
    hide ReadQuoted, DigitsLength, WordLength;
    var t := s + " " + rest;
    OpSpellings(s);
    assert t[0] == s[0] && t[..|s|] == s && t[|s|..] == " " + rest;
    assert |s| == 1 ==> t[..2][1] == ' ';
    assert OpLength(t) == |s|;
  }

  lemma OpSpellings(s: string)
    requires OpOf(OpTok(s)).Some?
    ensures s == "<>" || s == "<=" || s == ">=" || (|s| == 1 && s[0] in "=<>+-*/")
  {
  }

  lemma LexesOne(tok: Tok, rest: string)
    requires Spelled(tok)
    ensures Spelling(tok) != "" && Lex(Spelling(tok) + " " + rest) == (Some(tok), " " + rest)
  {
    hide Lex;
    assert Spelling(tok) + " " + rest == Spelling(tok) + (" " + rest);
    match tok
    case IntTok(n) => LexesInt(n, rest);
    case StrTok(s) => LexesString(s, " " + rest);
    case Ident(s) => LexesName(s, rest);
    case OpTok(s) => LexesOp(s, rest);
    case LParen => LexesParenthesis(rest);
    case RParen => LexesParenthesis(rest);
  }

  lemma LexesParenthesis(rest: string)
    ensures Lex("(" + " " + rest) == (Some(LParen), " " + rest)
    ensures Lex(")" + " " + rest) == (Some(RParen), " " + rest)
  {
    assert ("(" + " " + rest)[1..] == (")" + " " + rest)[1..] == " " + rest;
  }

  lemma SpaceSkipped(rest: string)
    ensures Scan(" " + rest) == Scan(rest)
  {
    assert (" " + rest)[1..] == rest;
  }

  /** Every token list that can be spelled is scanned from its text. */
  lemma {:induction false} ScanRoundTrip(toks: seq<Tok>)
    requires AllSpelled(toks)
    ensures Scan(Text(toks)) == toks + [End]
  {
    hide Lex, Spelling, Spelled;
    if toks != [] {
      var rest := Text(toks[1..]);
      LexesOne(toks[0], rest);
      SpaceSkipped(rest);
      ScanRoundTrip(toks[1..]);
      var t := Spelling(toks[0]) + " " + rest;
      assert Scan(t) == [toks[0]] + Scan(" " + rest);
    }
  }

  /** Names that can be spelled, and are not `not`. */
  predicate ProperNames(e: Expr) {
    match e
    case Name(n) => IsName(n) && LowerCase(n) != "not"
    case Not(x) => ProperNames(x)
    case Neg(x) => ProperNames(x)
    case Bin(_, l, r) => ProperNames(l) && ProperNames(r)
    case _ => true
  }

  lemma {:induction false} PrintSpelled(e: Expr, level: nat)
    requires ProperNames(e)
    ensures AllSpelled(Print(e, level)) && NamesOK(e)
    decreases e, 1
  {
    RawSpelled(e);
  }

  lemma {:induction false} RawSpelled(e: Expr)
    requires ProperNames(e)
    ensures AllSpelled(Raw(e)) && NamesOK(e)
    decreases e, 0
  {
    match e
    case Not(x) => PrintSpelled(x, NOT);
    case Neg(x) => PrintSpelled(x, UNARY);
    case Bin(op, l, r) =>
      PrintSpelled(l, LeftLevel(LevelOf(op)));
      PrintSpelled(r, LevelOf(op) + 1);
      assert Spelled(TokOf(op)) by { OperatorSpelled(op); }
    case _ =>
  }

  lemma OperatorSpelled(op: BinOp)
    ensures Spelled(TokOf(op))
  {
  }

  /** Main result: evaluating the text printed for an expression, without needless
      parentheses, gives the value of its tree, or reports its one error. */
  lemma EvaluatesToMeaning(e: Expr)
    requires ProperNames(e)
    ensures
      EvalAll(Scan(Text(Print(e, OR)))) ==
        if Meaning(e).Bad? then Bad(Meaning(e).e) else Fine(Numeric(Meaning(e).v))
  {
    hide Eval, Meaning, Print, Text, Scan;
    var toks := Print(e, OR) + [End];
    PrintSpelled(e, OR);
    ScanRoundTrip(Print(e, OR));
    assert Tokens(toks) by { assert toks == Scan(Text(Print(e, OR))); }
    assert Stands(toks, 0, Print(e, OR));
    EvalPrinted(toks, e, OR, 0);
    ContinueEnds(toks, OR, Meaning(e), |toks| - 1);
  }
}
