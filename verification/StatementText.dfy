/** Statements as their tokens, to say which texts the statement parser takes as they
    are: control flow, procedures, and the simple statements within them. */
module StatementText {
  import opened Options
  import opened ExprSyntax
  import opened ExprParser
  import opened ExprRoundTrip
  import opened Spans

  datatype TypeBase = PlainBase | StringBase | NamedBase(name: string)

  /** A type with as many `PTR`s after it. */
  datatype Type = Type(base: TypeBase, ptrs: nat)

  datatype Param = Param(name: string, t: Type)

  /** `WHILE` or `UNTIL` with its condition. */
  datatype Test = Test(until: bool, c: Expr)

  /** The words that may stand after a block. */
  function Closers(): set<Word> { {KwElseIf, KwElse, KwEnd, KwCase, KwNext, KwLoop, KwWend} }

  lemma AreClosers()
    ensures {KwElseIf, KwElse, KwEnd} <= Closers() && {KwCase, KwEnd} <= Closers() && {KwEnd} <= Closers()
    ensures {KwNext} <= Closers() && {KwLoop} <= Closers() && {KwWend} <= Closers()
  {
  }

  predicate CanExit(w: Word) { w == KwFor || w == KwDo || w == KwWhile || w == KwSub || w == KwFunction }

  type ExitWord = w: Word | CanExit(w) witness KwFor

  datatype Stmt =
    | Let(name: string, e: Expr)
    | PrintOf(es: seq<Expr>)
    | Jump(back: bool, name: string)
    | Label(name: string)
    | Exit(what: ExitWord)
    | Return(value: Option<Expr>)
    | YieldOf(e: Expr)
    | CallOf(name: string, es: seq<Expr>)
    | Dim(name: string, t: Type)
    | Const(name: string, e: Expr)
    | While(c: Expr, body: Block)
    | Do(pre: Option<Test>, body: Block, post: Option<Test>)
    | For(name: string, start: Expr, end: Expr, step: Option<Expr>, body: Block, named: bool)
    | If(c: Expr, body: Block, more: Branches)
    | Select(e: Expr, blanks: nat, cases: Cases)
    | Procedure(name: string, params: seq<Param>, result: Option<Type>, body: Block)

  /** Statements with blank lines before each and at the end. */
  datatype Block = Done(blanks: nat) | Line(blanks: nat, s: Stmt, rest: Block)

  datatype Branches = EndIf | ElseIf(c: Expr, body: Block, more: Branches) | Else(body: Block)

  /** The arms of a SELECT; one without expressions is `CASE ELSE`. */
  datatype Cases = EndSelect | Case(es: seq<Expr>, body: Block, more: Cases)

  /* ----- their tokens ----- */

  const NL := Tok(Other(Newline))

  function Kw(w: Word): Token { Tok(Other(w)) }

  function Id(name: string): Token { Token(Identifier, name) }

  function ExprText(e: Expr): seq<Token> { Print(e, XOR) }

  function Copies(t: Token, n: nat): seq<Token> { if n == 0 then [] else [t] + Copies(t, n - 1) }

  function ListText(es: seq<Expr>): seq<Token> {
    if es == [] then [] else ExprText(es[0]) + if |es| == 1 then [] else [Tok(Comma)] + ListText(es[1..])
  }

  function BaseText(base: TypeBase): Token {
    match base
    case PlainBase => Kw(KwPlainType)
    case StringBase => Kw(KwString)
    case NamedBase(name) => Id(name)
  }

  function TypeText(t: Type): seq<Token> { [BaseText(t.base)] + Copies(Kw(KwPtr), t.ptrs) }

  function ParamText(a: Param): seq<Token> { [Id(a.name), Kw(KwAs)] + TypeText(a.t) }

  function ParamsText(params: seq<Param>): seq<Token> {
    if params == [] then []
    else ParamText(params[0]) + if |params| == 1 then [] else [Tok(Comma)] + ParamsText(params[1..])
  }

  function TestText(t: Option<Test>): seq<Token> {
    match t
    case None => [NL]
    case Some(t) => [Kw(if t.until then KwUntil else KwWhile)] + (ExprText(t.c) + [NL])
  }

  function StepText(step: Option<Expr>): seq<Token> {
    match step
    case None => [NL]
    case Some(e) => [Kw(KwStep)] + (ExprText(e) + [NL])
  }

  function NextText(name: string, named: bool): seq<Token> {
    if named then [Kw(KwNext), Id(name), NL] else [Kw(KwNext), NL]
  }

  function ProcedureWord(result: Option<Type>): Word { if result.Some? then KwFunction else KwSub }

  function ResultText(result: Option<Type>): seq<Token> {
    match result
    case None => [NL]
    case Some(t) => [Kw(KwAs)] + (TypeText(t) + [NL])
  }

  function StmtText(s: Stmt): seq<Token> {
    match s
    case Let(name, e) => [Id(name), Tok(Equals)] + (ExprText(e) + [NL])
    case PrintOf(es) => [Kw(KwPrint)] + (ListText(es) + [NL])
    case Jump(back, name) => [Kw(if back then KwGosub else KwGoto), Id(name), NL]
    case Label(name) => [Id(name), Token(Other(Newline), ":")]
    case Exit(what) => [Kw(KwExit), Kw(what), NL]
    case Return(value) => [Kw(KwReturn)] + ((if value.Some? then ExprText(value.value) else []) + [NL])
    case YieldOf(e) => [Kw(KwYield)] + (ExprText(e) + [NL])
    case CallOf(name, es) => [Kw(KwCall), Id(name), Tok(LParen)] + (ListText(es) + [Tok(RParen), NL])
    case Dim(name, t) => [Kw(KwDim), Id(name), Kw(KwAs)] + (TypeText(t) + [NL])
    case Const(name, e) => [Kw(KwConst), Id(name), Tok(Equals)] + (ExprText(e) + [NL])
    case While(c, body) => [Kw(KwWhile)] + (ExprText(c) + ([NL] + (BlockText(body) + [Kw(KwWend), NL])))
    case Do(pre, body, post) => [Kw(KwDo)] + (TestText(pre) + (BlockText(body) + ([Kw(KwLoop)] + TestText(post))))
    case For(name, start, end, step, body, named) =>
      [Kw(KwFor), Id(name), Tok(Equals)]
      + (ExprText(start)
         + ([Kw(KwTo)] + (ExprText(end) + (StepText(step) + (BlockText(body) + NextText(name, named))))))
    case If(c, body, more) => [Kw(KwIf)] + (ExprText(c) + ([Kw(KwThen), NL] + (BlockText(body) + BranchesText(more))))
    case Select(e, blanks, cases) =>
      [Kw(KwSelect), Kw(KwCase)] + (ExprText(e) + ([NL] + (Copies(NL, blanks) + CasesText(cases))))
    case Procedure(name, params, result, body) =>
      var w := ProcedureWord(result);
      [Kw(w), Id(name), Tok(LParen)]
      + (ParamsText(params) + ([Tok(RParen)] + (ResultText(result) + (BlockText(body) + [Kw(KwEnd), Kw(w), NL]))))
  }

  function BlockText(b: Block): seq<Token> {
    match b
    case Done(blanks) => Copies(NL, blanks)
    case Line(blanks, s, rest) => Copies(NL, blanks) + (StmtText(s) + BlockText(rest))
  }

  function BranchesText(more: Branches): seq<Token> {
    match more
    case EndIf => [Kw(KwEnd), Kw(KwIf), NL]
    case ElseIf(c, body, more) =>
      [Kw(KwElseIf)] + (ExprText(c) + ([Kw(KwThen), NL] + (BlockText(body) + BranchesText(more))))
    case Else(body) => [Kw(KwElse), NL] + (BlockText(body) + [Kw(KwEnd), Kw(KwIf), NL])
  }

  function CasesText(cases: Cases): seq<Token> {
    match cases
    case EndSelect => [Kw(KwEnd), Kw(KwSelect), NL]
    case Case(es, body, more) =>
      [Kw(KwCase)]
      + ((if es == [] then [Kw(KwElse)] else ListText(es)) + ([NL] + (BlockText(body) + CasesText(more))))
  }

  /* ----- parts by position ----- */

  lemma Head(toks: seq<Token>, pos: nat, t: Token, rest: seq<Token>)
    requires Stands(toks, pos, [t] + rest)
    ensures pos + 1 + |rest| < |toks| && toks[pos] == t && Stands(toks, pos + 1, rest)
  {
    Split(toks, pos, [t], rest);
    First(toks, pos, [t]);
  }

  lemma Heads(toks: seq<Token>, pos: nat, t: Token, u: Token, rest: seq<Token>)
    requires Stands(toks, pos, [t, u] + rest)
    ensures pos + 2 + |rest| < |toks| && toks[pos] == t && toks[pos + 1] == u && Stands(toks, pos + 2, rest)
  {
    assert [t, u] + rest == [t] + ([u] + rest);
    Head(toks, pos, t, [u] + rest);
    Head(toks, pos + 1, u, rest);
  }

  lemma ThreeHeads(toks: seq<Token>, pos: nat, t: Token, u: Token, v: Token, rest: seq<Token>)
    requires Stands(toks, pos, [t, u, v] + rest)
    ensures pos + 3 + |rest| < |toks| && toks[pos] == t && toks[pos + 1] == u && toks[pos + 2] == v
    ensures Stands(toks, pos + 3, rest)
  {
    assert [t, u, v] + rest == [t] + ([u, v] + rest);
    Head(toks, pos, t, [u, v] + rest);
    Heads(toks, pos + 1, u, v, rest);
  }

  /** What stands before the rest and where the rest stands. */
  lemma Before(toks: seq<Token>, pos: nat, a: seq<Token>, b: seq<Token>)
    requires Stands(toks, pos, a + b)
    ensures pos + |a| + |b| < |toks| && Stands(toks, pos, a) && Stands(toks, pos + |a|, b)
  {
    Split(toks, pos, a, b);
  }

  /** What may follow an expression in these statements. */
  predicate Closes(k: Kind) { k.Other? || k == RParen || k == Comma }

  predicate ExprAt(toks: seq<Token>, pos: nat, e: Expr) {
    pos + |ExprText(e)| < |toks| && toks[pos..pos + |ExprText(e)|] == ExprText(e)
    && Closes(toks[pos + |ExprText(e)|].kind)
  }

  lemma ExprParses(toks: seq<Token>, pos: nat, e: Expr)
    requires Tokens(toks) && ExprAt(toks, pos, e)
    ensures Parse(toks, XOR, pos) == Parsed(e, pos + |ExprText(e)|, 0)
  {
    hide Parse, Loop, Print, Tokens;
    var end := pos + |ExprText(e)|;
    assert Stands(toks, pos, Print(e, XOR));
    ParsePrinted(toks, e, XOR, pos);
    ContinueEnds(toks, XOR, e, end);
  }

  lemma {:induction false} TextStarts(e: Expr, level: nat)
    ensures Print(e, level) != [] && !Print(e, level)[0].kind.Other?
    decreases e, 1
  {
    if Level(e) >= level { RawIsExpr(e); }
  }

  lemma {:induction false} RawIsExpr(e: Expr)
    ensures Raw(e) != [] && !Raw(e)[0].kind.Other?
    decreases e, 0
  {
    match e
    case Member(obj, n) => if obj.Deref? { TextStarts(obj.e, CHAIN); } else { TextStarts(obj, CHAIN); }
    case MemberCall(obj, n, args) => if obj.Deref? { TextStarts(obj.e, CHAIN); } else { TextStarts(obj, CHAIN); }
    case Bin(op, l, r) => TextStarts(l, LeftLevel(LevelOfOp(op)));
    case _ =>
  }

  /** What an expression starts with: no word of a statement and no bracket that closes. */
  lemma ExprStarts(e: Expr)
    ensures ExprText(e) != [] && !ExprText(e)[0].kind.Other? && ExprText(e)[0].kind != RParen
    ensures ExprText(e)[0].kind != End
  {
    hide Print;
    TextStarts(e, XOR);
    PrintStarts(e, XOR);
  }

  /** The tokens a statement starts with. */
  predicate StartsStmt(k: Kind) {
    || k == Identifier
    || (k.Other? && (k.w == KwPrint || k.w == KwGoto || k.w == KwGosub || k.w == KwExit || k.w == KwReturn
                     || k.w == KwYield || k.w == KwCall || k.w == KwDim || k.w == KwConst || k.w == KwWhile
                     || k.w == KwDo || k.w == KwFor || k.w == KwIf || k.w == KwSelect || k.w == KwSub
                     || k.w == KwFunction))
  }

  lemma StmtStarts(s: Stmt)
    ensures StmtText(s) != [] && StartsStmt(StmtText(s)[0].kind)
  {
    hide ExprText, ListText, TypeText, BlockText, BranchesText, CasesText, TestText, StepText, ParamsText, ResultText;
  }

  /* ----- where the parts of a statement stand ----- */

  lemma LastOnes(toks: seq<Token>, pos: nat, s: seq<Token>)
    requires Stands(toks, pos, s)
    ensures |s| > 0 ==> toks[pos] == s[0]
    ensures |s| > 1 ==> toks[pos + 1] == s[1]
    ensures |s| > 2 ==> toks[pos + 2] == s[2]
  {
    var part := toks[pos..pos + |s|];
    assert forall i :: 0 <= i < |s| ==> part[i] == toks[pos + i];
  }

  lemma ExprThen(toks: seq<Token>, pos: nat, e: Expr, rest: seq<Token>)
    requires Stands(toks, pos, ExprText(e) + rest) && rest != [] && Closes(rest[0].kind)
    ensures
      var q := pos + |ExprText(e)|;
      ExprAt(toks, pos, e) && toks[q] == rest[0] && q + |rest| < |toks| && Stands(toks, q, rest)
  {
    hide ExprText;
    Before(toks, pos, ExprText(e), rest);
    First(toks, pos + |ExprText(e)|, rest);
  }

  /** A list of expressions that nothing continues. */
  predicate ListAt(toks: seq<Token>, pos: nat, es: seq<Expr>) {
    pos + |ListText(es)| < |toks| && toks[pos..pos + |ListText(es)|] == ListText(es)
    && Closes(toks[pos + |ListText(es)|].kind) && toks[pos + |ListText(es)|].kind != Comma
  }

  lemma ListThen(toks: seq<Token>, pos: nat, es: seq<Expr>, rest: seq<Token>)
    requires Stands(toks, pos, ListText(es) + rest) && rest != [] && Closes(rest[0].kind) && rest[0].kind != Comma
    ensures
      var q := pos + |ListText(es)|;
      ListAt(toks, pos, es) && toks[q] == rest[0] && q + |rest| < |toks| && Stands(toks, q, rest)
  {
    hide ListText;
    Before(toks, pos, ListText(es), rest);
    First(toks, pos + |ListText(es)|, rest);
  }

  lemma ListParts(toks: seq<Token>, pos: nat, es: seq<Expr>)
    requires ListAt(toks, pos, es) && es != []
    ensures
      var q := pos + |ExprText(es[0])|;
      && ExprAt(toks, pos, es[0])
      && (if |es| == 1 then q == pos + |ListText(es)|
          else toks[q].kind == Comma && ListAt(toks, q + 1, es[1..])
               && q + 1 + |ListText(es[1..])| == pos + |ListText(es)|)
  {
    hide ListText, ExprText, ListAt, ExprAt;
    ListShape(es);
    if |es| == 1 { OneAt(toks, pos, es); } else { MoreAt(toks, pos, es); }
  }

  lemma OneAt(toks: seq<Token>, pos: nat, es: seq<Expr>)
    requires ListAt(toks, pos, es) && es != [] && ListText(es) == ExprText(es[0])
    ensures ExprAt(toks, pos, es[0])
  {
    hide ListText, ExprText;
  }

  lemma MoreAt(toks: seq<Token>, pos: nat, es: seq<Expr>)
    requires ListAt(toks, pos, es) && es != []
    requires ListText(es) == ExprText(es[0]) + ([Tok(Comma)] + ListText(es[1..]))
    ensures
      var q := pos + |ExprText(es[0])|;
      ExprAt(toks, pos, es[0]) && toks[q].kind == Comma && ListAt(toks, q + 1, es[1..])
  {
    hide ListText, ExprText, ListAt, ExprAt;
    var rest := [Tok(Comma)] + ListText(es[1..]);
    ListIsAt(toks, pos, es);
    ExprThen(toks, pos, es[0], rest);
    Head(toks, pos + |ExprText(es[0])|, Tok(Comma), ListText(es[1..]));
    ListIsAt(toks, pos + |ExprText(es[0])| + 1, es[1..]);
  }

  lemma ListIsAt(toks: seq<Token>, pos: nat, es: seq<Expr>)
    ensures
      var q := pos + |ListText(es)|;
      ListAt(toks, pos, es) <==> Stands(toks, pos, ListText(es)) && Closes(toks[q].kind) && toks[q].kind != Comma
  {
    hide ListText;
  }

  lemma ListShape(es: seq<Expr>)
    requires es != []
    ensures |es| == 1 ==> ListText(es) == ExprText(es[0])
    ensures |es| > 1 ==> ListText(es) == ExprText(es[0]) + ([Tok(Comma)] + ListText(es[1..]))
  {
    hide ExprText;
  }

  lemma ListStarts(es: seq<Expr>)
    requires es != []
    ensures ListText(es) != [] && !ListText(es)[0].kind.Other? && ListText(es)[0].kind != RParen
    ensures ListText(es)[0].kind != End
  {
    hide ExprText;
    ExprStarts(es[0]);
  }

  lemma ExprAtStarts(toks: seq<Token>, pos: nat, e: Expr)
    requires ExprAt(toks, pos, e)
    ensures !toks[pos].kind.Other? && toks[pos].kind != RParen && toks[pos].kind != End
  {
    hide ExprText;
    ExprStarts(e);
    First(toks, pos, ExprText(e));
  }

  lemma ListAtStarts(toks: seq<Token>, pos: nat, es: seq<Expr>)
    requires ListAt(toks, pos, es)
    ensures es == [] ==> |ListText(es)| == 0
    ensures es != [] ==> !toks[pos].kind.Other? && toks[pos].kind != RParen && toks[pos].kind != End
  {
    if es != [] {
      hide ListText;
      ListStarts(es);
      First(toks, pos, ListText(es));
    }
  }

  /** A type that nothing continues. */
  predicate TypeAt(toks: seq<Token>, pos: nat, t: Type) {
    pos + |TypeText(t)| < |toks| && toks[pos..pos + |TypeText(t)|] == TypeText(t)
    && toks[pos + |TypeText(t)|].kind != Other(KwPtr)
  }

  lemma {:induction false} CopiesAre(t: Token, n: nat)
    ensures |Copies(t, n)| == n && forall i :: 0 <= i < n ==> Copies(t, n)[i] == t
  {
    if n > 0 { CopiesAre(t, n - 1); }
  }

  lemma TypeParts(toks: seq<Token>, pos: nat, t: Type)
    requires TypeAt(toks, pos, t)
    ensures |TypeText(t)| == 1 + t.ptrs && toks[pos] == BaseText(t.base)
    ensures forall i :: pos < i <= pos + t.ptrs ==> toks[i].kind == Other(KwPtr)
  {
    CopiesAre(Kw(KwPtr), t.ptrs);
    var part := toks[pos..pos + |TypeText(t)|];
    assert part[0] == toks[pos];
    forall i | pos < i <= pos + t.ptrs
      ensures toks[i].kind == Other(KwPtr)
    {
      assert toks[i] == part[i - pos] == Copies(Kw(KwPtr), t.ptrs)[i - pos - 1];
    }
  }

  lemma TypeThen(toks: seq<Token>, pos: nat, t: Type, rest: seq<Token>)
    requires Stands(toks, pos, TypeText(t) + rest) && rest != [] && rest[0].kind != Other(KwPtr)
    ensures
      var q := pos + |TypeText(t)|;
      TypeAt(toks, pos, t) && toks[q] == rest[0] && q + |rest| < |toks| && Stands(toks, q, rest)
  {
    hide TypeText;
    Before(toks, pos, TypeText(t), rest);
    First(toks, pos + |TypeText(t)|, rest);
  }

  /** Parameters and the bracket after them. */
  ghost predicate ParamsAt(toks: seq<Token>, pos: nat, params: seq<Param>) {
    Stands(toks, pos, ParamsText(params) + [Tok(RParen)])
  }

  lemma ParamsShape(params: seq<Param>)
    requires params != []
    ensures
      var more := if |params| == 1 then [] else [Tok(Comma)] + ParamsText(params[1..]);
      ParamsText(params) == [Id(params[0].name), Kw(KwAs)] + (TypeText(params[0].t) + more)
  {
    hide TypeText;
  }

  lemma ParamsParts(toks: seq<Token>, pos: nat, params: seq<Param>)
    requires ParamsAt(toks, pos, params) && params != []
    ensures
      var a := params[0];
      var q := pos + 2 + |TypeText(a.t)|;
      && q < |toks| && toks[pos].kind == Identifier && toks[pos + 1].kind == Other(KwAs) && TypeAt(toks, pos + 2, a.t)
      && (if |params| == 1 then q == pos + |ParamsText(params)| && toks[q].kind == RParen
          else toks[q].kind == Comma && ParamsAt(toks, q + 1, params[1..])
               && q + 1 + |ParamsText(params[1..])| == pos + |ParamsText(params)|)
  {
    hide TypeText, ParamsText, TypeAt;
    ParamsShape(params);
    var a := params[0];
    var q := pos + 2 + |TypeText(a.t)|;
    var close := [Tok(RParen)];
    if |params| == 1 {
      assert ParamsText(params) + close == [Id(a.name), Kw(KwAs)] + (TypeText(a.t) + close);
      Heads(toks, pos, Id(a.name), Kw(KwAs), TypeText(a.t) + close);
      TypeThen(toks, pos + 2, a.t, close);
    } else {
      var rest := [Tok(Comma)] + (ParamsText(params[1..]) + close);
      assert ParamsText(params) + close == [Id(a.name), Kw(KwAs)] + (TypeText(a.t) + rest);
      Heads(toks, pos, Id(a.name), Kw(KwAs), TypeText(a.t) + rest);
      TypeThen(toks, pos + 2, a.t, rest);
      Head(toks, q, Tok(Comma), ParamsText(params[1..]) + close);
    }
  }

  lemma ParamsStart(toks: seq<Token>, pos: nat, params: seq<Param>)
    requires ParamsAt(toks, pos, params)
    ensures
      var q := pos + |ParamsText(params)|;
      && q < |toks| && toks[q].kind == RParen && (params == [] ==> q == pos)
      && (params != [] ==> toks[pos].kind == Identifier)
  {
    if params == [] {
      First(toks, pos, [Tok(RParen)]);
    } else {
      hide ParamsText;
      ParamsParts(toks, pos, params);
      Before(toks, pos, ParamsText(params), [Tok(RParen)]);
      First(toks, pos + |ParamsText(params)|, [Tok(RParen)]);
    }
  }

  lemma EmptyList()
    ensures |ListText([])| == 0
  {
  }

  lemma LetParts(toks: seq<Token>, pos: nat, s: Stmt)
    requires (s.Let? || s.Const?) && Stands(toks, pos, StmtText(s))
    ensures
      var at := if s.Let? then pos else pos + 1;
      var q := at + 2 + |ExprText(s.e)|;
      && q + 1 == pos + |StmtText(s)| < |toks| && toks[at] == Id(s.name) && toks[at + 1] == Tok(Equals)
      && ExprAt(toks, at + 2, s.e) && toks[q] == NL
  {
    hide ExprText, ExprAt;
    if s.Let? {
      Heads(toks, pos, Id(s.name), Tok(Equals), ExprText(s.e) + [NL]);
      ExprThen(toks, pos + 2, s.e, [NL]);
    } else {
      ThreeHeads(toks, pos, Kw(KwConst), Id(s.name), Tok(Equals), ExprText(s.e) + [NL]);
      ExprThen(toks, pos + 3, s.e, [NL]);
    }
  }

  /** What `YIELD` or `RETURN` gives. */
  function Given(s: Stmt): Option<Expr>
    requires s.YieldOf? || s.Return?
  {
    if s.YieldOf? then Some(s.e) else s.value
  }

  lemma GivenParts(toks: seq<Token>, pos: nat, s: Stmt)
    requires (s.YieldOf? || s.Return?) && Stands(toks, pos, StmtText(s))
    ensures Given(s).None? ==> toks[pos + 1] == NL && |StmtText(s)| == 2
    ensures Given(s).Some? ==>
              var q := pos + 1 + |ExprText(Given(s).value)|;
              q + 1 == pos + |StmtText(s)| < |toks| && ExprAt(toks, pos + 1, Given(s).value) && toks[q] == NL
  {
    hide ExprText, ExprAt;
    if Given(s).Some? {
      var e := Given(s).value;
      Head(toks, pos, Kw(if s.YieldOf? then KwYield else KwReturn), ExprText(e) + [NL]);
      ExprThen(toks, pos + 1, e, [NL]);
    } else {
      assert StmtText(s) == [Kw(KwReturn), NL];
      LastOnes(toks, pos, StmtText(s));
    }
  }

  lemma PrintParts(toks: seq<Token>, pos: nat, s: Stmt)
    requires s.PrintOf? && Stands(toks, pos, StmtText(s))
    ensures
      var q := pos + 1 + |ListText(s.es)|;
      q + 1 == pos + |StmtText(s)| < |toks| && ListAt(toks, pos + 1, s.es) && toks[q] == NL
  {
    hide ListText, ListAt;
    Head(toks, pos, Kw(KwPrint), ListText(s.es) + [NL]);
    ListThen(toks, pos + 1, s.es, [NL]);
  }

  lemma CallParts(toks: seq<Token>, pos: nat, s: Stmt)
    requires s.CallOf? && Stands(toks, pos, StmtText(s))
    ensures
      var q := pos + 3 + |ListText(s.es)|;
      && q + 2 == pos + |StmtText(s)| < |toks| && toks[pos + 1] == Id(s.name) && toks[pos + 2] == Tok(LParen)
      && ListAt(toks, pos + 3, s.es) && toks[q] == Tok(RParen) && toks[q + 1] == NL
  {
    hide ListText, ListAt;
    ThreeHeads(toks, pos, Kw(KwCall), Id(s.name), Tok(LParen), ListText(s.es) + [Tok(RParen), NL]);
    ListThen(toks, pos + 3, s.es, [Tok(RParen), NL]);
    LastOnes(toks, pos + 3 + |ListText(s.es)|, [Tok(RParen), NL]);
  }

  lemma DimParts(toks: seq<Token>, pos: nat, s: Stmt)
    requires s.Dim? && Stands(toks, pos, StmtText(s))
    ensures
      var q := pos + 3 + |TypeText(s.t)|;
      && q + 1 == pos + |StmtText(s)| < |toks| && toks[pos + 1] == Id(s.name) && toks[pos + 2] == Kw(KwAs)
      && TypeAt(toks, pos + 3, s.t) && toks[q] == NL
  {
    hide TypeText, TypeAt;
    ThreeHeads(toks, pos, Kw(KwDim), Id(s.name), Kw(KwAs), TypeText(s.t) + [NL]);
    TypeThen(toks, pos + 3, s.t, [NL]);
  }

  lemma WordParts(toks: seq<Token>, pos: nat, s: Stmt)
    requires (s.Jump? || s.Exit?) && Stands(toks, pos, StmtText(s))
    ensures |StmtText(s)| == 3 && pos + 3 < |toks| && toks[pos + 2] == NL
    ensures toks[pos + 1] == if s.Jump? then Id(s.name) else Kw(s.what)
  {
    LastOnes(toks, pos, StmtText(s));
  }

  lemma LabelParts(toks: seq<Token>, pos: nat, s: Stmt)
    requires s.Label? && Stands(toks, pos, StmtText(s))
    ensures |StmtText(s)| == 2 && pos + 2 < |toks| && toks[pos + 1] == Token(Other(Newline), ":")
  {
    LastOnes(toks, pos, StmtText(s));
  }

  lemma LoopShape(s: Stmt)
    ensures s.While? ==>
              StmtText(s) == [Kw(KwWhile)] + (ExprText(s.c) + ([NL] + (BlockText(s.body) + [Kw(KwWend), NL])))
    ensures s.Do? ==>
              StmtText(s)
              == [Kw(KwDo)] + (TestText(s.pre) + (BlockText(s.body) + ([Kw(KwLoop)] + TestText(s.post))))
    ensures s.If? ==>
              StmtText(s)
              == [Kw(KwIf)] + (ExprText(s.c) + ([Kw(KwThen), NL] + (BlockText(s.body) + BranchesText(s.more))))
  {
    hide ExprText, BlockText, TestText, BranchesText;
  }

  lemma ForShape(s: Stmt)
    requires s.For?
    ensures
      var four := BlockText(s.body) + NextText(s.name, s.named);
      var two := ExprText(s.end) + (StepText(s.step) + four);
      StmtText(s) == [Kw(KwFor), Id(s.name), Tok(Equals)] + (ExprText(s.start) + ([Kw(KwTo)] + two))
  {
    hide ExprText, BlockText, StepText, NextText;
  }

  lemma SelectShape(s: Stmt)
    requires s.Select?
    ensures StmtText(s)
         == [Kw(KwSelect), Kw(KwCase)] + (ExprText(s.e) + ([NL] + (Copies(NL, s.blanks) + CasesText(s.cases))))
  {
    hide ExprText, CasesText;
  }

  lemma ProcedureShape(s: Stmt)
    requires s.Procedure?
    ensures
      var w := ProcedureWord(s.result);
      var two := ResultText(s.result) + (BlockText(s.body) + [Kw(KwEnd), Kw(w), NL]);
      StmtText(s) == [Kw(w), Id(s.name), Tok(LParen)] + ((ParamsText(s.params) + [Tok(RParen)]) + two)
  {
    hide ParamsText, ResultText, BlockText;
    var w := ProcedureWord(s.result);
    var two := ResultText(s.result) + (BlockText(s.body) + [Kw(KwEnd), Kw(w), NL]);
    assert ParamsText(s.params) + ([Tok(RParen)] + two) == (ParamsText(s.params) + [Tok(RParen)]) + two;
  }

  lemma WhileParts(toks: seq<Token>, pos: nat, c: Expr, body: Block) returns (q: nat, r: nat)
    requires Stands(toks, pos, StmtText(While(c, body)))
    ensures q == pos + 1 + |ExprText(c)| && r == q + 1 + |BlockText(body)|
    ensures r + 2 == pos + |StmtText(While(c, body))| && r + 2 < |toks|
    ensures ExprAt(toks, pos + 1, c) && toks[q] == NL && Stands(toks, q + 1, BlockText(body))
    ensures toks[r] == Kw(KwWend) && toks[r + 1] == NL
  {
    hide ExprText, BlockText, ExprAt, StmtText;
    LoopShape(While(c, body));
    var tail := [Kw(KwWend), NL];
    Head(toks, pos, Kw(KwWhile), ExprText(c) + ([NL] + (BlockText(body) + tail)));
    ExprThen(toks, pos + 1, c, [NL] + (BlockText(body) + tail));
    q := pos + 1 + |ExprText(c)|;
    Head(toks, q, NL, BlockText(body) + tail);
    Before(toks, q + 1, BlockText(body), tail);
    r := q + 1 + |BlockText(body)|;
    LastOnes(toks, r, tail);
  }

  lemma TestParts(toks: seq<Token>, pos: nat, t: Option<Test>)
    requires Stands(toks, pos, TestText(t))
    ensures t.None? ==> toks[pos] == NL && |TestText(t)| == 1
    ensures t.Some? ==>
              var q := pos + 1 + |ExprText(t.value.c)|;
              && toks[pos] == Kw(if t.value.until then KwUntil else KwWhile) && ExprAt(toks, pos + 1, t.value.c)
              && toks[q] == NL && q + 1 == pos + |TestText(t)|
  {
    hide ExprText, ExprAt;
    if t.Some? {
      Head(toks, pos, Kw(if t.value.until then KwUntil else KwWhile), ExprText(t.value.c) + [NL]);
      ExprThen(toks, pos + 1, t.value.c, [NL]);
    } else {
      LastOnes(toks, pos, [NL]);
    }
  }

  lemma DoParts(toks: seq<Token>, pos: nat, s: Stmt) returns (q: nat, r: nat)
    requires s.Do? && Stands(toks, pos, StmtText(s))
    ensures q == pos + 1 + |TestText(s.pre)| && r == q + |BlockText(s.body)|
    ensures r + 1 + |TestText(s.post)| == pos + |StmtText(s)| < |toks|
    ensures Stands(toks, pos + 1, TestText(s.pre)) && Stands(toks, q, BlockText(s.body))
    ensures toks[r] == Kw(KwLoop) && Stands(toks, r + 1, TestText(s.post))
  {
    hide TestText, BlockText, StmtText;
    LoopShape(s);
    var tail := [Kw(KwLoop)] + TestText(s.post);
    Head(toks, pos, Kw(KwDo), TestText(s.pre) + (BlockText(s.body) + tail));
    Before(toks, pos + 1, TestText(s.pre), BlockText(s.body) + tail);
    q := pos + 1 + |TestText(s.pre)|;
    Before(toks, q, BlockText(s.body), tail);
    r := q + |BlockText(s.body)|;
    Head(toks, r, Kw(KwLoop), TestText(s.post));
  }

  lemma StepParts(toks: seq<Token>, pos: nat, step: Option<Expr>)
    requires Stands(toks, pos, StepText(step))
    ensures step.None? ==> toks[pos] == NL && |StepText(step)| == 1
    ensures step.Some? ==>
              var q := pos + 1 + |ExprText(step.value)|;
              && toks[pos] == Kw(KwStep) && ExprAt(toks, pos + 1, step.value) && toks[q] == NL
              && q + 1 == pos + |StepText(step)|
  {
    hide ExprText, ExprAt;
    if step.Some? {
      Head(toks, pos, Kw(KwStep), ExprText(step.value) + [NL]);
      ExprThen(toks, pos + 1, step.value, [NL]);
    } else {
      LastOnes(toks, pos, [NL]);
    }
  }

  lemma StepStarts(step: Option<Expr>, rest: seq<Token>)
    ensures (StepText(step) + rest) != [] && Closes((StepText(step) + rest)[0].kind)
  {
  }

  lemma ForParts(toks: seq<Token>, pos: nat, s: Stmt) returns (q: nat, u: nat, v: nat, r: nat)
    requires s.For? && Stands(toks, pos, StmtText(s))
    ensures q == pos + 3 + |ExprText(s.start)| && u == q + 1 + |ExprText(s.end)| && v == u + |StepText(s.step)|
    ensures r == v + |BlockText(s.body)| && r + |NextText(s.name, s.named)| == pos + |StmtText(s)| < |toks|
    ensures toks[pos + 1] == Id(s.name) && toks[pos + 2] == Tok(Equals) && ExprAt(toks, pos + 3, s.start)
    ensures toks[q] == Kw(KwTo) && ExprAt(toks, q + 1, s.end) && Stands(toks, u, StepText(s.step))
    ensures Stands(toks, v, BlockText(s.body)) && Stands(toks, r, NextText(s.name, s.named))
  {
    hide ExprText, BlockText, ExprAt, StepText, NextText, StmtText, Stands;
    ForShape(s);
    var four := BlockText(s.body) + NextText(s.name, s.named);
    var three := StepText(s.step) + four;
    var two := ExprText(s.end) + three;
    ThreeHeads(toks, pos, Kw(KwFor), Id(s.name), Tok(Equals), ExprText(s.start) + ([Kw(KwTo)] + two));
    ExprThen(toks, pos + 3, s.start, [Kw(KwTo)] + two);
    q := pos + 3 + |ExprText(s.start)|;
    Head(toks, q, Kw(KwTo), two);
    StepStarts(s.step, four);
    ExprThen(toks, q + 1, s.end, three);
    u := q + 1 + |ExprText(s.end)|;
    Before(toks, u, StepText(s.step), four);
    v := u + |StepText(s.step)|;
    Before(toks, v, BlockText(s.body), NextText(s.name, s.named));
    r := v + |BlockText(s.body)|;
  }

  /** A word that ends its line, its block, and what follows. */
  lemma HeadedParts(toks: seq<Token>, pos: nat, w: Word, body: Block, rest: seq<Token>) returns (r: nat)
    requires Stands(toks, pos, [Kw(w), NL] + (BlockText(body) + rest))
    ensures r == pos + 2 + |BlockText(body)| && r + |rest| < |toks|
    ensures toks[pos] == Kw(w) && toks[pos + 1] == NL
    ensures Stands(toks, pos + 2, BlockText(body)) && Stands(toks, r, rest)
  {
    hide BlockText;
    Heads(toks, pos, Kw(w), NL, BlockText(body) + rest);
    Before(toks, pos + 2, BlockText(body), rest);
    r := pos + 2 + |BlockText(body)|;
  }

  lemma SelectParts(toks: seq<Token>, pos: nat, s: Stmt) returns (q: nat, r: nat)
    requires s.Select? && Stands(toks, pos, StmtText(s))
    ensures q == pos + 2 + |ExprText(s.e)| && r == q + 1 + s.blanks
    ensures r + |CasesText(s.cases)| == pos + |StmtText(s)| < |toks|
    ensures toks[pos + 1] == Kw(KwCase) && ExprAt(toks, pos + 2, s.e) && toks[q] == NL
    ensures (forall i :: q < i < r ==> toks[i] == NL) && Stands(toks, r, CasesText(s.cases))
  {
    hide ExprText, ExprAt, CasesText, StmtText, Copies, Stands;
    SelectShape(s);
    var rest := Copies(NL, s.blanks) + CasesText(s.cases);
    Heads(toks, pos, Kw(KwSelect), Kw(KwCase), ExprText(s.e) + ([NL] + rest));
    ExprThen(toks, pos + 2, s.e, [NL] + rest);
    q := pos + 2 + |ExprText(s.e)|;
    Head(toks, q, NL, rest);
    r := q + 1 + s.blanks;
    BlanksThen(toks, q + 1, s.blanks, CasesText(s.cases));
  }

  lemma BlanksThen(toks: seq<Token>, pos: nat, n: nat, rest: seq<Token>)
    requires Stands(toks, pos, Copies(NL, n) + rest)
    ensures pos + n + |rest| < |toks| && |Copies(NL, n)| == n
    ensures (forall i :: pos <= i < pos + n ==> toks[i] == NL) && Stands(toks, pos + n, rest)
  {
    CopiesAre(NL, n);
    Before(toks, pos, Copies(NL, n), rest);
    var part := toks[pos..pos + n];
    assert forall i :: pos <= i < pos + n ==> toks[i] == part[i - pos];
  }

  function ArmText(es: seq<Expr>): seq<Token> { if es == [] then [Kw(KwElse)] else ListText(es) }

  /** `ELSE` or expressions, and the end of the line. */
  predicate CaseAt(toks: seq<Token>, pos: nat, es: seq<Expr>) {
    && pos + |ArmText(es)| < |toks| && toks[pos + |ArmText(es)|].kind == Other(Newline)
    && if es == [] then toks[pos].kind == Other(KwElse) else ListAt(toks, pos, es)
  }

  lemma CaseParts(toks: seq<Token>, pos: nat, cases: Cases) returns (q: nat, r: nat)
    requires cases.Case? && Stands(toks, pos, CasesText(cases))
    ensures q == pos + 1 + |ArmText(cases.es)| && r == q + 1 + |BlockText(cases.body)|
    ensures r + |CasesText(cases.more)| == pos + |CasesText(cases)| < |toks|
    ensures CaseAt(toks, pos + 1, cases.es)
    ensures Stands(toks, q + 1, BlockText(cases.body)) && Stands(toks, r, CasesText(cases.more))
  {
    hide BlockText, CasesText, ArmText, CaseAt;
    CaseShape(cases);
    var two := BlockText(cases.body) + CasesText(cases.more);
    Head(toks, pos, Kw(KwCase), ArmText(cases.es) + ([NL] + two));
    ArmParts(toks, pos + 1, cases.es, [NL] + two);
    q := pos + 1 + |ArmText(cases.es)|;
    Head(toks, q, NL, two);
    Before(toks, q + 1, BlockText(cases.body), CasesText(cases.more));
    r := q + 1 + |BlockText(cases.body)|;
  }

  lemma CaseShape(cases: Cases)
    requires cases.Case?
    ensures CasesText(cases)
         == [Kw(KwCase)] + (ArmText(cases.es) + ([NL] + (BlockText(cases.body) + CasesText(cases.more))))
  {
    hide ListText, BlockText;
  }

  lemma ArmParts(toks: seq<Token>, pos: nat, es: seq<Expr>, rest: seq<Token>)
    requires Stands(toks, pos, ArmText(es) + rest) && rest != [] && rest[0] == NL
    ensures
      var q := pos + |ArmText(es)|;
      Stands(toks, q, rest) && q + |rest| < |toks| && CaseAt(toks, pos, es)
  {
    hide ListText, ListAt;
    Before(toks, pos, ArmText(es), rest);
    First(toks, pos + |ArmText(es)|, rest);
    if es == [] {
      Head(toks, pos, Kw(KwElse), rest);
    } else {
      ListThen(toks, pos, es, rest);
    }
  }

  function CasesWord(cases: Cases): Word { if cases.Case? then KwCase else KwEnd }

  lemma CasesStart(toks: seq<Token>, pos: nat, cases: Cases)
    requires Stands(toks, pos, CasesText(cases))
    ensures toks[pos].kind == Other(CasesWord(cases))
    ensures cases.EndSelect? ==> EndsBlock(toks, pos, KwSelect) && |CasesText(cases)| == 3
  {
    hide ListText, BlockText;
    LastOnes(toks, pos, CasesText(cases));
  }

  function BranchWord(more: Branches): Word {
    if more.ElseIf? then KwElseIf else if more.Else? then KwElse else KwEnd
  }

  lemma BranchCloses(more: Branches)
    ensures BranchWord(more) in {KwElseIf, KwElse, KwEnd}
  {
  }

  lemma BranchesStart(toks: seq<Token>, pos: nat, more: Branches)
    requires Stands(toks, pos, BranchesText(more))
    ensures toks[pos].kind == Other(BranchWord(more))
  {
    hide ExprText, BlockText;
    LastOnes(toks, pos, BranchesText(more));
  }

  lemma ProcedureParts(toks: seq<Token>, pos: nat, s: Stmt) returns (q: nat, v: nat, r: nat)
    requires s.Procedure? && Stands(toks, pos, StmtText(s))
    ensures q == pos + 3 + |ParamsText(s.params)| && v == q + 1 + |ResultText(s.result)|
    ensures r == v + |BlockText(s.body)| && r + 3 == pos + |StmtText(s)| < |toks|
    ensures toks[pos] == Kw(ProcedureWord(s.result)) && toks[pos + 1] == Id(s.name) && toks[pos + 2] == Tok(LParen)
    ensures ParamsAt(toks, pos + 3, s.params)
    ensures Stands(toks, q + 1, ResultText(s.result)) && Stands(toks, v, BlockText(s.body))
    ensures toks[r] == Kw(KwEnd) && toks[r + 1] == Kw(ProcedureWord(s.result)) && toks[r + 2] == NL
  {
    hide ParamsText, ResultText, BlockText, StmtText, Stands, ProcedureWord;
    ProcedureShape(s);
    var w := ProcedureWord(s.result);
    var tail := [Kw(KwEnd), Kw(w), NL];
    var two := ResultText(s.result) + (BlockText(s.body) + tail);
    var close := [Tok(RParen)];
    ThreeHeads(toks, pos, Kw(w), Id(s.name), Tok(LParen), (ParamsText(s.params) + close) + two);
    Before(toks, pos + 3, ParamsText(s.params) + close, two);
    Before(toks, pos + 3, ParamsText(s.params), close);
    q := pos + 3 + |ParamsText(s.params)|;
    First(toks, q, close);
    Before(toks, q + 1, ResultText(s.result), BlockText(s.body) + tail);
    v := q + 1 + |ResultText(s.result)|;
    Before(toks, v, BlockText(s.body), tail);
    r := v + |BlockText(s.body)|;
    LastOnes(toks, r, tail);
  }

  lemma ResultParts(toks: seq<Token>, pos: nat, result: Option<Type>)
    requires Stands(toks, pos, ResultText(result))
    ensures result.None? ==> toks[pos] == NL && |ResultText(result)| == 1
    ensures result.Some? ==>
              var q := pos + 1 + |TypeText(result.value)|;
              && toks[pos] == Kw(KwAs) && TypeAt(toks, pos + 1, result.value) && toks[q] == NL
              && q + 1 == pos + |ResultText(result)|
  {
    hide TypeText, TypeAt;
    if result.Some? {
      Head(toks, pos, Kw(KwAs), TypeText(result.value) + [NL]);
      TypeThen(toks, pos + 1, result.value, [NL]);
    } else {
      LastOnes(toks, pos, [NL]);
    }
  }

  /** A statement in a block and where the rest stands. */
  lemma LineParts(toks: seq<Token>, pos: nat, b: Block) returns (q: nat, r: nat)
    requires b.Line? && Stands(toks, pos, BlockText(b))
    ensures q == pos + b.blanks && r == q + |StmtText(b.s)| && r + |BlockText(b.rest)| == pos + |BlockText(b)| < |toks|
    ensures (forall i :: pos <= i < q ==> toks[i] == NL) && StartsStmt(toks[q].kind)
    ensures Stands(toks, q, StmtText(b.s)) && Stands(toks, r, BlockText(b.rest))
  {
    hide StmtText;
    BlanksThen(toks, pos, b.blanks, StmtText(b.s) + BlockText(b.rest));
    q := pos + b.blanks;
    Before(toks, q, StmtText(b.s), BlockText(b.rest));
    r := q + |StmtText(b.s)|;
    StmtStarts(b.s);
    First(toks, q, StmtText(b.s));
  }

  lemma DoneParts(toks: seq<Token>, pos: nat, b: Block)
    requires b.Done? && Stands(toks, pos, BlockText(b))
    ensures |BlockText(b)| == b.blanks && forall i :: pos <= i < pos + b.blanks ==> toks[i] == NL
  {
    assert Copies(NL, b.blanks) + [] == BlockText(b);
    BlanksThen(toks, pos, b.blanks, []);
  }

  /** Which statement a first token means. */
  lemma WhichStmt(toks: seq<Token>, pos: nat, s: Stmt)
    requires Stands(toks, pos, StmtText(s))
    ensures StartsStmt(toks[pos].kind)
    ensures toks[pos].kind == Identifier <==> s.Let? || s.Label?
    ensures toks[pos].kind == Other(KwPrint) <==> s.PrintOf?
    ensures toks[pos].kind == Other(KwGoto) || toks[pos].kind == Other(KwGosub) <==> s.Jump?
    ensures toks[pos].kind == Other(KwExit) <==> s.Exit?
    ensures toks[pos].kind == Other(KwReturn) <==> s.Return?
    ensures toks[pos].kind == Other(KwYield) <==> s.YieldOf?
    ensures toks[pos].kind == Other(KwCall) <==> s.CallOf?
    ensures toks[pos].kind == Other(KwDim) <==> s.Dim?
    ensures toks[pos].kind == Other(KwConst) <==> s.Const?
    ensures toks[pos].kind == Other(KwWhile) <==> s.While?
    ensures toks[pos].kind == Other(KwDo) <==> s.Do?
    ensures toks[pos].kind == Other(KwFor) <==> s.For?
    ensures toks[pos].kind == Other(KwIf) <==> s.If?
    ensures toks[pos].kind == Other(KwSelect) <==> s.Select?
    ensures toks[pos].kind == Other(KwSub) <==> s.Procedure? && s.result.None?
    ensures toks[pos].kind == Other(KwFunction) <==> s.Procedure? && s.result.Some?
  {
    StmtStarts(s);
    First(toks, pos, StmtText(s));
    FirstIs(s);
  }

  function FirstKind(s: Stmt): Kind {
    match s
    case Let(_, _) => Identifier
    case Label(_) => Identifier
    case PrintOf(_) => Other(KwPrint)
    case Jump(back, _) => Other(if back then KwGosub else KwGoto)
    case Exit(_) => Other(KwExit)
    case Return(_) => Other(KwReturn)
    case YieldOf(_) => Other(KwYield)
    case CallOf(_, _) => Other(KwCall)
    case Dim(_, _) => Other(KwDim)
    case Const(_, _) => Other(KwConst)
    case While(_, _) => Other(KwWhile)
    case Do(_, _, _) => Other(KwDo)
    case For(_, _, _, _, _, _) => Other(KwFor)
    case If(_, _, _) => Other(KwIf)
    case Select(_, _, _) => Other(KwSelect)
    case Procedure(_, _, result, _) => Other(ProcedureWord(result))
  }

  lemma FirstIs(s: Stmt)
    ensures StmtText(s) != [] && StmtText(s)[0].kind == FirstKind(s)
  {
    hide ExprText, ListText, TypeText, BlockText, BranchesText, CasesText, TestText, StepText, ParamsText, ResultText;
  }

  /* ----- blocks by position ----- */

  /** A block and a word after it that ends it. */
  ghost predicate BlockAt(toks: seq<Token>, pos: nat, b: Block, closers: set<Word>) {
    && Stands(toks, pos, BlockText(b)) && closers <= Closers()
    && var k := toks[pos + |BlockText(b)|].kind;
       k.Other? && k.w in closers
  }

  lemma BlockStands(toks: seq<Token>, pos: nat, b: Block, closers: set<Word>, w: Word)
    requires Stands(toks, pos, BlockText(b)) && w in closers && toks[pos + |BlockText(b)|].kind == Other(w)
    requires closers == {w} || closers == {KwElseIf, KwElse, KwEnd} || closers == {KwCase, KwEnd}
    requires w == KwEnd || w == KwNext || w == KwLoop || w == KwWend || closers != {w}
    ensures BlockAt(toks, pos, b, closers)
  {
    hide BlockText, Closers;
    AreClosers();
  }

  lemma NoCloser(k: Kind)
    requires k.Other? && k.w in Closers()
    ensures !StartsStmt(k) && k.w != Newline
  {
  }

  /** The first token that is no blank line: a statement's, or the one after the block. */
  lemma BlockStart(toks: seq<Token>, at: nat, b: Block)
    requires Stands(toks, at, BlockText(b))
    ensures b.blanks <= |BlockText(b)| && forall i :: at <= i < at + b.blanks ==> toks[i].kind == Other(Newline)
    ensures b.Done? ==> |BlockText(b)| == b.blanks
    ensures b.Line? ==>
              var q := at + b.blanks;
              var r := q + |StmtText(b.s)|;
              && r < |toks| && StartsStmt(toks[q].kind) && Stands(toks, q, StmtText(b.s))
              && Stands(toks, r, BlockText(b.rest)) && r + |BlockText(b.rest)| == at + |BlockText(b)|
  {
    hide BlockText, StmtText, StartsStmt;
    if b.Done? {
      DoneParts(toks, at, b);
    } else {
      var q, r := LineParts(toks, at, b);
    }
  }

  /** Skipping newlines goes past the blank lines of a block and no further. */
  lemma Skipped(toks: seq<Token>, at: nat, blanks: nat, pos: nat)
    requires at <= pos < |toks| && at + blanks < |toks|
    requires forall i :: at <= i < at + blanks ==> toks[i].kind == Other(Newline)
    requires forall i :: at <= i < pos ==> toks[i].kind == Other(Newline)
    requires toks[pos].kind != Other(Newline) && toks[at + blanks].kind != Other(Newline)
    ensures pos == at + blanks
  {
  }

  lemma BlanksSkipped(toks: seq<Token>, at: nat, b: Block, closers: set<Word>, pos: nat)
    requires BlockAt(toks, at, b, closers) && at <= pos < |toks| && toks[pos].kind != Other(Newline)
    requires forall i :: at <= i < pos ==> toks[i].kind == Other(Newline)
    ensures pos == at + b.blanks
  {
    hide BlockText, StmtText;
    BlockStart(toks, at, b);
    if b.Done? { NoCloser(toks[at + b.blanks].kind); }
    Skipped(toks, at, b.blanks, pos);
  }

  lemma BlockParts(toks: seq<Token>, at: nat, b: Block, closers: set<Word>)
    requires BlockAt(toks, at, b, closers)
    ensures at + b.blanks < |toks|
    ensures
      var k := toks[at + b.blanks].kind;
      if b.Done? then |BlockText(b)| == b.blanks && k.Other? && k.w in closers
      else
        var r := at + b.blanks + |StmtText(b.s)|;
        && k != End && !(k.Other? && k.w in closers)
        && Stands(toks, at + b.blanks, StmtText(b.s)) && BlockAt(toks, r, b.rest, closers)
        && r + |BlockText(b.rest)| == at + |BlockText(b)|
  {
    hide BlockText, StmtText;
    BlockStart(toks, at, b);
    if b.Line? {
      var k := toks[at + b.blanks].kind;
      if k.Other? && k.w in Closers() { NoCloser(k); }
    }
  }

  /** The rest of a module from `at` on, with its first blank lines passed over. */
  ghost predicate InModule(toks: seq<Token>, at: nat, b: Block, pos: nat) {
    && Stands(toks, at, BlockText(b)) && toks[at + |BlockText(b)|].kind == End && pos == at + b.blanks
  }

  lemma LinesSkipped(toks: seq<Token>, at: nat, b: Block, pos: nat)
    requires Stands(toks, at, BlockText(b)) && toks[at + |BlockText(b)|].kind == End
    requires at <= pos < |toks| && toks[pos].kind != Other(Newline)
    requires forall i :: at <= i < pos ==> toks[i].kind == Other(Newline)
    ensures InModule(toks, at, b, pos)
  {
    hide BlockText, StmtText;
    BlockStart(toks, at, b);
    Skipped(toks, at, b.blanks, pos);
  }

  lemma ModuleStarts(toks: seq<Token>, b: Block, pos: nat)
    requires toks == BlockText(b) + [Tok(End)] && pos < |toks| && toks[pos].kind != Other(Newline)
    requires forall i :: 0 <= i < pos ==> toks[i].kind == Other(Newline)
    ensures InModule(toks, 0, b, pos)
  {
    hide BlockText, InModule;
    assert toks[0..|BlockText(b)|] == BlockText(b);
    LinesSkipped(toks, 0, b, pos);
  }

  lemma ModuleParts(toks: seq<Token>, at: nat, b: Block, pos: nat)
    requires InModule(toks, at, b, pos)
    ensures pos < |toks|
    ensures
      var k := toks[pos].kind;
      if b.Done? then k == End
      else
        var r := pos + |StmtText(b.s)|;
        && k != End && k != Other(DocComment) && k != Other(KwExtern) && Stands(toks, pos, StmtText(b.s))
        && Stands(toks, r, BlockText(b.rest)) && toks[r + |BlockText(b.rest)|].kind == End
  {
    hide BlockText, StmtText;
    BlockStart(toks, at, b);
  }

  /** The line that closes a block. */
  predicate EndsBlock(toks: seq<Token>, pos: nat, w: Word) {
    && pos + 2 < |toks| && toks[pos].kind == Other(KwEnd) && toks[pos + 1].kind == Other(w)
    && toks[pos + 2].kind == Other(Newline)
  }

  /** A condition after its word, a block, and the branches that follow it. */
  ghost predicate ArmAt(toks: seq<Token>, pos: nat, c: Expr, body: Block, more: Branches) {
    Stands(toks, pos + 1, ExprText(c) + ([Kw(KwThen), NL] + (BlockText(body) + BranchesText(more))))
  }

  lemma IfIsArm(toks: seq<Token>, pos: nat, s: Stmt)
    requires s.If? && Stands(toks, pos, StmtText(s))
    ensures ArmAt(toks, pos, s.c, s.body, s.more)
    ensures |StmtText(s)| == 3 + |ExprText(s.c)| + |BlockText(s.body)| + |BranchesText(s.more)|
  {
    hide StmtText, ExprText, BlockText, BranchesText;
    LoopShape(s);
    Head(toks, pos, Kw(KwIf), ExprText(s.c) + ([Kw(KwThen), NL] + (BlockText(s.body) + BranchesText(s.more))));
  }

  lemma BranchShape(b: Branches)
    ensures b.ElseIf? ==>
              BranchesText(b)
              == [Kw(KwElseIf)] + (ExprText(b.c) + ([Kw(KwThen), NL] + (BlockText(b.body) + BranchesText(b.more))))
    ensures b.Else? ==> BranchesText(b) == [Kw(KwElse), NL] + (BlockText(b.body) + [Kw(KwEnd), Kw(KwIf), NL])
    ensures b.EndIf? ==> BranchesText(b) == [Kw(KwEnd), Kw(KwIf), NL]
  {
    hide ExprText, BlockText;
  }

  lemma ElseIfIsArm(toks: seq<Token>, pos: nat, b: Branches)
    requires Stands(toks, pos, BranchesText(b)) && toks[pos].kind == Other(KwElseIf)
    ensures b.ElseIf? && ArmAt(toks, pos, b.c, b.body, b.more)
    ensures |BranchesText(b)| == 3 + |ExprText(b.c)| + |BlockText(b.body)| + |BranchesText(b.more)|
  {
    hide ExprText, BlockText, BranchesText;
    BranchesStart(toks, pos, b);
    BranchShape(b);
    Head(toks, pos, Kw(KwElseIf), ExprText(b.c) + ([Kw(KwThen), NL] + (BlockText(b.body) + BranchesText(b.more))));
  }

  lemma ArmStands(toks: seq<Token>, pos: nat, c: Expr, body: Block, more: Branches)
    requires ArmAt(toks, pos, c, body, more)
    ensures
      var q := pos + 1 + |ExprText(c)|;
      && q + 1 < |toks| && ExprAt(toks, pos + 1, c)
      && toks[q].kind == Other(KwThen) && toks[q + 1].kind == Other(Newline)
      && BlockAt(toks, q + 2, body, {KwElseIf, KwElse, KwEnd})
      && Stands(toks, q + 2 + |BlockText(body)|, BranchesText(more))
  {
    hide ExprText, ExprAt, BlockText, BranchesText, BlockAt, Stands;
    ThenParts(toks, pos + 1, c, BlockText(body) + BranchesText(more));
    BodyParts(toks, pos + 3 + |ExprText(c)|, body, more);
  }

  lemma ThenParts(toks: seq<Token>, pos: nat, c: Expr, tail: seq<Token>)
    requires Stands(toks, pos, ExprText(c) + ([Kw(KwThen), NL] + tail))
    ensures
      var q := pos + |ExprText(c)|;
      && q + 1 < |toks| && ExprAt(toks, pos, c) && toks[q].kind == Other(KwThen) && toks[q + 1].kind == Other(Newline)
      && Stands(toks, q + 2, tail)
  {
    hide ExprText, ExprAt;
    ExprThen(toks, pos, c, [Kw(KwThen), NL] + tail);
    Heads(toks, pos + |ExprText(c)|, Kw(KwThen), NL, tail);
  }

  lemma BodyParts(toks: seq<Token>, pos: nat, body: Block, more: Branches)
    requires Stands(toks, pos, BlockText(body) + BranchesText(more))
    ensures BlockAt(toks, pos, body, {KwElseIf, KwElse, KwEnd})
    ensures Stands(toks, pos + |BlockText(body)|, BranchesText(more))
  {
    hide BlockText, BranchesText, BlockAt, BranchWord;
    Before(toks, pos, BlockText(body), BranchesText(more));
    BranchesStart(toks, pos + |BlockText(body)|, more);
    BranchCloses(more);
    BlockStands(toks, pos, body, {KwElseIf, KwElse, KwEnd}, BranchWord(more));
  }

  lemma ElseParts(toks: seq<Token>, pos: nat, b: Branches)
    requires !b.ElseIf? && Stands(toks, pos, BranchesText(b))
    ensures b.EndIf? ==> EndsBlock(toks, pos, KwIf) && |BranchesText(b)| == 3 && toks[pos].kind == Other(KwEnd)
    ensures b.Else? ==>
              var r := pos + 2 + |BlockText(b.body)|;
              && pos + 1 < |toks| && toks[pos].kind == Other(KwElse) && toks[pos + 1].kind == Other(Newline)
              && BlockAt(toks, pos + 2, b.body, {KwEnd}) && EndsBlock(toks, r, KwIf)
              && r + 3 == pos + |BranchesText(b)|
  {
    hide BlockText, BranchesText, BlockAt;
    BranchShape(b);
    var tail := [Kw(KwEnd), Kw(KwIf), NL];
    if b.Else? {
      var r := HeadedParts(toks, pos, KwElse, b.body, tail);
      LastOnes(toks, r, tail);
      BlockStands(toks, pos + 2, b.body, {KwEnd}, KwEnd);
    } else {
      LastOnes(toks, pos, tail);
    }
  }

  lemma NextParts(toks: seq<Token>, pos: nat, name: string, named: bool)
    requires Stands(toks, pos, NextText(name, named))
    ensures pos + |NextText(name, named)| < |toks| && toks[pos].kind == Other(KwNext)
    ensures named ==> |NextText(name, named)| == 3 && toks[pos + 1] == Id(name) && toks[pos + 2].kind == Other(Newline)
    ensures !named ==> |NextText(name, named)| == 2 && toks[pos + 1].kind == Other(Newline)
  {
    LastOnes(toks, pos, NextText(name, named));
  }

  /** Which of a label and an assignment a name begins. */
  lemma LabelOrLet(toks: seq<Token>, pos: nat, s: Stmt)
    requires Stands(toks, pos, StmtText(s)) && toks[pos].kind in {Identifier, Star, KwThis}
    ensures toks[pos].kind == Identifier && pos + 1 < |toks|
    ensures if s.Label? then toks[pos + 1] == Token(Other(Newline), ":") && |StmtText(s)| == 2
            else s.Let? && toks[pos + 1].kind == Equals
  {
    hide StmtText, ExprText, ExprAt;
    WhichStmt(toks, pos, s);
    if s.Let? { LetParts(toks, pos, s); } else { LabelParts(toks, pos, s); }
  }

  function HeaderLength(params: seq<Param>, result: Option<Type>): nat {
    4 + |ParamsText(params)| + |ResultText(result)|
  }

  /** A procedure's word, its name, its parameters, and its result if it has one. */
  ghost predicate HeaderAt(toks: seq<Token>, pos: nat, params: seq<Param>, result: Option<Type>) {
    && pos + HeaderLength(params, result) < |toks| && toks[pos].kind == Other(ProcedureWord(result))
    && toks[pos + 1].kind == Identifier && toks[pos + 2].kind == LParen && ParamsAt(toks, pos + 3, params)
    && Stands(toks, pos + 4 + |ParamsText(params)|, ResultText(result))
  }

  /** The header of a procedure, its block and its end. */
  lemma ProcedureStands(toks: seq<Token>, pos: nat, s: Stmt)
    requires s.Procedure? && Stands(toks, pos, StmtText(s))
    ensures
      var v := pos + HeaderLength(s.params, s.result);
      var r := v + |BlockText(s.body)|;
      && r + 3 == pos + |StmtText(s)| < |toks| && HeaderAt(toks, pos, s.params, s.result)
      && BlockAt(toks, v, s.body, {KwEnd}) && EndsBlock(toks, r, ProcedureWord(s.result))
  {
    hide StmtText, ParamsText, ResultText, BlockText, BlockAt, ParamsAt, ProcedureWord;
    var q, v, r := ProcedureParts(toks, pos, s);
    BlockStands(toks, v, s.body, {KwEnd}, KwEnd);
  }

  lemma WhileStands(toks: seq<Token>, pos: nat, s: Stmt)
    requires s.While? && Stands(toks, pos, StmtText(s))
    ensures
      var q := pos + 1 + |ExprText(s.c)|;
      var r := q + 1 + |BlockText(s.body)|;
      && r + 2 == pos + |StmtText(s)| < |toks| && ExprAt(toks, pos + 1, s.c) && toks[q] == NL
      && BlockAt(toks, q + 1, s.body, {KwWend})
      && toks[r].kind == Other(KwWend) && toks[r + 1].kind == Other(Newline)
  {
    hide StmtText, ExprText, BlockText, ExprAt, BlockAt, Stands;
    var q, r := WhileParts(toks, pos, s.c, s.body);
    BlockStands(toks, q + 1, s.body, {KwWend}, KwWend);
  }

  /** The header of a FOR loop, its block and its end. */
  lemma ForStands(toks: seq<Token>, pos: nat, s: Stmt)
    requires s.For? && Stands(toks, pos, StmtText(s))
    ensures
      var q := pos + 3 + |ExprText(s.start)|;
      var u := q + 1 + |ExprText(s.end)|;
      var v := u + |StepText(s.step)|;
      var r := v + |BlockText(s.body)|;
      && r + |NextText(s.name, s.named)| == pos + |StmtText(s)| < |toks| && toks[pos + 1] == Id(s.name)
      && toks[pos + 2].kind == Equals && ExprAt(toks, pos + 3, s.start) && toks[q].kind == Other(KwTo)
      && ExprAt(toks, q + 1, s.end) && Stands(toks, u, StepText(s.step)) && BlockAt(toks, v, s.body, {KwNext})
      && Stands(toks, r, NextText(s.name, s.named))
  {
    hide StmtText, ExprText, StepText, BlockText, NextText, ExprAt, BlockAt;
    var q, u, v, r := ForParts(toks, pos, s);
    NextParts(toks, r, s.name, s.named);
    BlockStands(toks, v, s.body, {KwNext}, KwNext);
  }

  lemma SelectStands(toks: seq<Token>, pos: nat, s: Stmt)
    requires s.Select? && Stands(toks, pos, StmtText(s))
    ensures
      var q := pos + 2 + |ExprText(s.e)|;
      var r := q + 1 + s.blanks;
      && r + |CasesText(s.cases)| == pos + |StmtText(s)| < |toks| && toks[pos + 1].kind == Other(KwCase)
      && ExprAt(toks, pos + 2, s.e) && toks[q] == NL && (forall i :: q < i < r ==> toks[i].kind == Other(Newline))
      && Stands(toks, r, CasesText(s.cases)) && toks[r].kind != Other(Newline)
  {
    hide StmtText, ExprText, ExprAt, CasesText, EndsBlock;
    var q, r := SelectParts(toks, pos, s);
    CasesStart(toks, r, s.cases);
  }

  /** The rest of a block after a statement and the blank lines that follow it. */
  lemma NextInBlock(toks: seq<Token>, at: nat, b: Block, closers: set<Word>, pos: nat) returns (next: nat, rest: Block)
    requires BlockAt(toks, at, b, closers) && b.Line? && pos < |toks| && toks[pos].kind != Other(Newline)
    requires at + b.blanks + |StmtText(b.s)| <= pos
    requires forall i :: at + b.blanks + |StmtText(b.s)| <= i < pos ==> toks[i].kind == Other(Newline)
    ensures rest == b.rest && BlockAt(toks, next, rest, closers) && pos == next + rest.blanks
    ensures next + |BlockText(rest)| == at + |BlockText(b)|
  {
    hide BlockText, StmtText, BlockAt, Stands;
    BlockParts(toks, at, b, closers);
    next, rest := at + b.blanks + |StmtText(b.s)|, b.rest;
    BlanksSkipped(toks, next, rest, closers, pos);
  }

  lemma NextLine(toks: seq<Token>, at: nat, b: Block, from: nat, pos: nat) returns (next: nat, rest: Block)
    requires b.Line? && InModule(toks, at, b, from) && pos < |toks| && toks[pos].kind != Other(Newline)
    requires from + |StmtText(b.s)| <= pos
    requires forall i :: from + |StmtText(b.s)| <= i < pos ==> toks[i].kind == Other(Newline)
    ensures rest == b.rest && InModule(toks, next, rest, pos)
  {
    hide BlockText, StmtText, InModule, Stands;
    ModuleParts(toks, at, b, from);
    next, rest := from + |StmtText(b.s)|, b.rest;
    LinesSkipped(toks, next, rest, pos);
  }
}
