/** The statement parser, as far as it moves and reports: it ends on every token
    list, gets past every token, recovers at line ends only, and accepts a block
    only with its own closing words. */
module Statements {
  import opened Options
  import opened Chars
  import opened Spans
  import opened ExprSyntax
  import opened ExprParser
  import opened StatementText

  predicate IsBreak(t: Token) { t.kind == Other(Newline) || t.kind == End }

  /** A line starts here, or the input ends here. */
  predicate LineStart(toks: seq<Token>, pos: nat)
    requires pos < |toks|
  {
    toks[pos].kind == End || (pos > 0 && toks[pos - 1].kind == Other(Newline))
  }

  /** The start of the next line, or the end of the input. */
  function AfterLine(toks: seq<Token>, pos: nat): (r: nat)
    requires Tokens(toks) && pos < |toks|
    ensures pos <= r < |toks| && LineStart(toks, r) && (toks[pos].kind != End ==> pos < r)
    ensures forall k :: pos <= k < r - 1 ==> !IsBreak(toks[k])
    decreases |toks| - pos
  {
    if toks[pos].kind == End then pos
    else if toks[pos].kind == Other(Newline) then pos + 1
    else AfterLine(toks, pos + 1)
  }

  /** Where the statement text ends if parsing it has ended at `pos`. */
  function TextEnd(toks: seq<Token>, pos: nat): nat
    requires pos < |toks|
  {
    if pos > 0 && toks[pos - 1].kind == Other(Newline) then pos - 1 else pos
  }

  /** The last tokens of the statement text are of these kinds. */
  ghost predicate EndsIn(toks: seq<Token>, pos: nat, kinds: seq<Kind>)
    requires pos < |toks|
  {
    var end := TextEnd(toks, pos);
    |kinds| <= end && forall i :: 0 <= i < |kinds| ==> toks[end - |kinds| + i].kind == kinds[i]
  }

  predicate IsProcedure(w: Word) {
    || w == KwSub || w == KwFunction || w == KwConstructor || w == KwDestructor || w == KwProperty
    || w == KwOperator
  }

  /** Blocks that `END` and the word which opened them close. */
  predicate EndClosed(w: Word) {
    w == KwEnum || w == KwType || w == KwUnion || w == KwNamespace || w == KwIf || w == KwSelect || IsProcedure(w)
  }

  /** The word that says what statement stands here; VIRTUAL only introduces one. */
  function Opening(toks: seq<Token>, pos: nat): Kind
    requires pos < |toks|
  {
    if toks[pos].kind == Other(KwVirtual) && pos + 1 < |toks| then toks[pos + 1].kind else toks[pos].kind
  }

  lemma EndsHere(toks: seq<Token>, end: nat, pos: nat, kinds: seq<Kind>)
    requires Tokens(toks) && 0 < |kinds| <= end < |toks| && IsBreak(toks[end]) && pos == AfterLine(toks, end)
    requires kinds[|kinds| - 1] != Other(Newline)
    requires forall i :: 0 <= i < |kinds| ==> toks[end - |kinds| + i].kind == kinds[i]
    ensures EndsIn(toks, pos, kinds)
  {
    assert toks[end - 1].kind == kinds[|kinds| - 1];
  }

  /** `END` and the word which opened the block. */
  ghost predicate EndsWith(toks: seq<Token>, pos: nat, k: Kind)
    requires pos < |toks|
  {
    EndsIn(toks, pos, [Other(KwEnd), k])
  }

  /** `NEXT`, with or without a name. */
  ghost predicate EndsInNext(toks: seq<Token>, pos: nat)
    requires pos < |toks|
  {
    EndsIn(toks, pos, [Other(KwNext)]) || EndsIn(toks, pos, [Other(KwNext), Identifier])
  }

  ghost predicate HasLoop(toks: seq<Token>, from: nat, to: nat)
    requires to < |toks|
  {
    exists q :: from < q < to && toks[q].kind == Other(KwLoop)
  }

  /** The statement from `from` to `to`, if it is a block, has its closing words. */
  ghost predicate IsClosed(toks: seq<Token>, from: nat, to: nat)
    requires from < |toks| && to < |toks|
  {
    var k := Opening(toks, from);
    && (k.Other? && EndClosed(k.w) ==> EndsWith(toks, to, k))
    && (k == Other(KwWhile) ==> EndsIn(toks, to, [Other(KwWend)]))
    && (k == Other(KwFor) ==> EndsInNext(toks, to))
    && (k == Other(KwDo) ==> HasLoop(toks, from, to))
  }

  predicate OpensBlock(toks: seq<Token>, pos: nat)
    requires pos < |toks|
  {
    match toks[pos].kind
    case Other(w) =>
      if w == KwVirtual then Opening(toks, pos) == Other(KwSub) || Opening(toks, pos) == Other(KwFunction)
      else EndClosed(w) || w == KwFor || w == KwDo || w == KwWhile
    case _ => false
  }

  predicate IsDeclaration(w: Word) { w == KwDim || w == KwRedim || w == KwConst || w == KwDeclare }

  predicate IsAction(w: Word) {
    || w == KwPrint || w == KwGoto || w == KwGosub || w == KwExit || w == KwCall || w == KwReturn
    || w == KwYield
  }

  predicate StartsLine(toks: seq<Token>, pos: nat)
    requires pos < |toks|
  {
    match toks[pos].kind
    case Other(w) => IsDeclaration(w) || IsAction(w)
    case k => k == Identifier || k == Star || k == KwThis
  }

  predicate StartsStatement(toks: seq<Token>, pos: nat)
    requires pos < |toks|
  {
    OpensBlock(toks, pos) || StartsLine(toks, pos)
  }

  lemma ClosedByEnd(toks: seq<Token>, from: nat, to: nat, w: Word)
    requires from < |toks| && to < |toks| && Opening(toks, from) == Other(w) && EndClosed(w)
    ensures EndsWith(toks, to, Other(w)) ==> IsClosed(toks, from, to)
  {
  }

  lemma ClosedByNext(toks: seq<Token>, from: nat, to: nat)
    requires from < |toks| && to < |toks| && Opening(toks, from) == Other(KwFor)
    ensures EndsInNext(toks, to) ==> IsClosed(toks, from, to)
  {
  }

  lemma ClosedByWend(toks: seq<Token>, from: nat, to: nat)
    requires from < |toks| && to < |toks| && Opening(toks, from) == Other(KwWhile)
    ensures EndsIn(toks, to, [Other(KwWend)]) ==> IsClosed(toks, from, to)
  {
  }

  lemma ClosedByLoop(toks: seq<Token>, from: nat, close: nat, to: nat)
    requires from < close <= to < |toks| && Opening(toks, from) == Other(KwDo)
    ensures toks[close].kind == Other(KwLoop) && close < to ==> IsClosed(toks, from, to)
  {
  }

  lemma NoBlockIsClosed(toks: seq<Token>, from: nat, to: nat)
    requires from < |toks| && to < |toks| && StartsLine(toks, from)
    ensures IsClosed(toks, from, to)
  {
  }

  lemma WhichBlock(toks: seq<Token>, pos: nat)
    requires pos < |toks| && OpensBlock(toks, pos)
    ensures
      || toks[pos].kind in {Other(KwIf), Other(KwSelect), Other(KwFor), Other(KwDo), Other(KwWhile)}
      || toks[pos].kind in {Other(KwEnum), Other(KwType), Other(KwUnion), Other(KwNamespace)}
      || (Opening(toks, pos).Other? && IsProcedure(Opening(toks, pos).w))
  {
  }

  lemma NoGroup(toks: seq<Token>, pos: nat, s: Stmt)
    requires Stands(toks, pos, StmtText(s))
    ensures toks[pos].kind !in {Other(KwEnum), Other(KwType), Other(KwUnion), Other(KwNamespace)}
  {
    hide StmtText;
    StmtStarts(s);
    First(toks, pos, StmtText(s));
  }

  lemma LineOrBlock(toks: seq<Token>, pos: nat, s: Stmt)
    requires Stands(toks, pos, StmtText(s)) && !OpensBlock(toks, pos)
    ensures StartsLine(toks, pos)
  {
    hide StmtText;
    StmtStarts(s);
    First(toks, pos, StmtText(s));
  }

  /** What the parser looks at in a type it has read. */
  datatype TypeForm = Plain | Text | Named | Compound | Unknown

  /** What each method wants is what is written where the parser stands, if anything
      is given; it takes no part in the parsing. */
  class StatementParser {
    const p: Parser
    var currentFunction: string

    constructor (toks: seq<Token>)
      requires Tokens(toks)
      ensures fresh(p) && p.Valid() && p.tokens == toks && p.pos == 0 && p.errors == 0 && currentFunction == ""
    {
      p := new Parser(toks);
      currentFunction := "";
    }

    twostate predicate Forward()
      reads p
    {
      p.Valid() && old(p.pos) <= p.pos && old(p.errors) <= p.errors
    }

    /** A statement has been parsed: it took at least one token, it ended where a
        line starts, and the enclosing function is again what it was. */
    twostate predicate Passed()
      reads this, p
    {
      Forward() && old(p.pos) < p.pos && LineStart(p.tokens, p.pos) && currentFunction == old(currentFunction)
    }

    /** Exactly this many tokens have been taken, without a report. */
    twostate predicate Took(n: nat)
      reads p
    {
      p.pos == old(p.pos) + n && p.errors == old(p.errors)
    }

    /** After the next token stand a name and this. */
    predicate NameBefore(k: Kind)
      requires p.Valid()
      reads p
    {
      p.pos + 2 < |p.tokens| && p.tokens[p.pos + 1].kind == Identifier && p.tokens[p.pos + 2].kind == k
    }

    /** A statement that is written here, if one is given. */
    ghost predicate Has(want: Option<Stmt>)
      reads p
    {
      want.Some? ==> Stands(p.tokens, p.pos, StmtText(want.value))
    }

    predicate At(k: Kind)
      requires p.Valid()
      reads p
    {
      p.tokens[p.pos].kind == k
    }

    predicate On(w: Word)
      requires p.Valid()
      reads p
    {
      At(Other(w))
    }

    /* ----- tokens ----- */

    method Take() returns (t: Token)
      requires p.Valid()
      modifies p
      ensures Forward() && t == p.tokens[old(p.pos)] && p.errors == old(p.errors)
      ensures p.pos == if t.kind == End then old(p.pos) else old(p.pos) + 1
    {
      NotLast(p.tokens, p.pos);
      t := p.Advance();
    }

    method Match(k: Kind) returns (found: bool)
      requires p.Valid() && k != End
      modifies p
      ensures Forward() && p.errors == old(p.errors) && found == (p.tokens[old(p.pos)].kind == k)
      ensures p.pos == old(p.pos) + if found then 1 else 0
    {
      found := At(k);
      if found { var _ := Take(); }
    }

    method MatchWord(w: Word) returns (found: bool)
      requires p.Valid()
      modifies p
      ensures Forward() && p.errors == old(p.errors) && found == (p.tokens[old(p.pos)].kind == Other(w))
      ensures p.pos == old(p.pos) + if found then 1 else 0
    {
      found := Match(Other(w));
    }

    method Expect(k: Kind) returns (text: string)
      requires p.Valid() && k != End
      modifies p
      ensures Forward() && text == p.tokens[old(p.pos)].text
      ensures if p.tokens[old(p.pos)].kind == k then p.pos == old(p.pos) + 1 && p.errors == old(p.errors)
              else p.pos == old(p.pos) && p.errors == old(p.errors) + 1
    {
      NotLast(p.tokens, p.pos);
      text := p.ExpectToken(k);
    }

    method ExpectWord(w: Word)
      requires p.Valid()
      modifies p
      ensures Forward()
      ensures if p.tokens[old(p.pos)].kind == Other(w) then p.pos == old(p.pos) + 1 && p.errors == old(p.errors)
              else p.pos == old(p.pos) && p.errors == old(p.errors) + 1
    {
      var _ := Expect(Other(w));
    }

    method Report()
      requires p.Valid()
      modifies p
      ensures Forward() && p.pos == old(p.pos) && p.errors == old(p.errors) + 1
    {
      p.errors := p.errors + 1;
    }

    method SkipNewlines()
      requires p.Valid()
      modifies p
      ensures Forward() && p.errors == old(p.errors) && !On(Newline)
      ensures forall k :: old(p.pos) <= k < p.pos ==> p.tokens[k].kind == Other(Newline)
      ensures p.pos == old(p.pos) || LineStart(p.tokens, p.pos)
    {
      while On(Newline)
        invariant Forward() && p.errors == old(p.errors)
        invariant forall k :: old(p.pos) <= k < p.pos ==> p.tokens[k].kind == Other(Newline)
        decreases |p.tokens| - p.pos
      {
        var _ := Take();
      }
    }

    /** Skips the rest of the line. */
    method Synchronize()
      requires p.Valid()
      modifies p
      ensures Forward() && p.errors == old(p.errors) && p.pos == AfterLine(p.tokens, old(p.pos))
    {
      while !On(Newline) && !At(End)
        invariant Forward() && p.errors == old(p.errors)
        invariant AfterLine(p.tokens, p.pos) == AfterLine(p.tokens, old(p.pos))
        decreases |p.tokens| - p.pos
      {
        var _ := Take();
      }
      if On(Newline) { var _ := Take(); }
    }

    /** In every case goes to the start of the next line, reporting what else it skips. */
    method ExpectStmtEnd()
      requires p.Valid()
      modifies p
      ensures Forward() && p.pos == AfterLine(p.tokens, old(p.pos)) && LineStart(p.tokens, p.pos)
      ensures p.errors == old(p.errors) + if old(IsBreak(p.tokens[p.pos])) then 0 else 1
      ensures old(On(Newline)) ==> Took(1)
    {
      if On(Newline) {
        var _ := Take();
      } else if !At(End) {
        Report();
        Synchronize();
      }
    }

    /** `END` and the word of the block, on a line of their own. */
    method ExpectEnd(w: Word)
      requires p.Valid() && w != Newline
      modifies p
      ensures Forward() && LineStart(p.tokens, p.pos)
      ensures p.errors == old(p.errors) ==> EndsWith(p.tokens, p.pos, Other(w))
      ensures old(EndsBlock(p.tokens, p.pos, w)) ==> Took(3)
    {
      hide Tokens, AfterLine, LineStart, EndsIn;
      ExpectWords(KwEnd, w);
      ghost var end := p.pos;
      ExpectStmtEnd();
      if p.errors == old(p.errors) { EndsHere(p.tokens, end, p.pos, [Other(KwEnd), Other(w)]); }
    }

    method ExpectWords(v: Word, w: Word)
      requires p.Valid()
      modifies p
      ensures Forward()
      ensures p.errors == old(p.errors)
              <==> old(p.pos) + 1 < |p.tokens| && p.tokens[old(p.pos)].kind == Other(v)
                   && p.tokens[old(p.pos) + 1].kind == Other(w)
      ensures p.errors == old(p.errors) ==> p.pos == old(p.pos) + 2
    {
      hide Tokens;
      ExpectWord(v);
      ExpectWord(w);
    }

    method CollectDocComment() returns (lines: seq<string>)
      requires p.Valid()
      modifies p
      ensures Forward() && p.errors == old(p.errors) && !On(DocComment)
      ensures (lines == [] <==> p.pos == old(p.pos)) && (!old(On(DocComment)) ==> Took(0))
    {
      lines := [];
      while On(DocComment)
        invariant Forward() && p.errors == old(p.errors) && (lines == [] <==> p.pos == old(p.pos))
        invariant p.pos == old(p.pos) || old(On(DocComment))
        decreases |p.tokens| - p.pos
      {
        var t := Take();
        lines := lines + [t.text];
        var _ := MatchWord(Newline);
      }
    }

    /* ----- parts of statements ----- */

    /** One that is written here is taken as it is, without a report. */
    method Expression(ghost want: Option<Expr> := None) returns (e: Expr)
      requires p.Valid() && (want.Some? ==> ExprAt(p.tokens, p.pos, want.value))
      modifies p
      ensures Forward() && (!old(At(End)) ==> old(p.pos) < p.pos)
      ensures want.Some? ==> Took(|ExprText(want.value)|)
    {
      hide Tokens, Parse, ExprText;
      if want.Some? { ExprParses(p.tokens, p.pos, want.value); }
      e := p.ParseExpr();
    }

    method Expressions(ghost want: seq<Expr> := [])
      requires p.Valid() && (want != [] ==> ListAt(p.tokens, p.pos, want))
      modifies p
      ensures Forward() && (want != [] ==> Took(|ListText(want)|))
    {
      hide ExprText, ListText, ExprAt;
      ghost var rest := want;
      ghost var end := p.pos + |ListText(want)|;
      if want != [] { ListParts(p.tokens, p.pos, want); }
      var _ := Expression(if want == [] then None else Some(want[0]));
      var more := Match(Comma);
      while more
        invariant Forward()
        invariant want != [] ==> p.errors == old(p.errors) && rest != []
        invariant want != [] ==> if more then |rest| > 1 && ListAt(p.tokens, p.pos, rest[1..])
                                              && p.pos + |ListText(rest[1..])| == end
                                 else p.pos == end
        decreases |p.tokens| - p.pos, more
      {
        if want != [] {
          rest := rest[1..];
          ListParts(p.tokens, p.pos, rest);
        }
        var _ := Expression(if want == [] then None else Some(rest[0]));
        more := Match(Comma);
      }
    }

    /** Arguments in parentheses, if any are given. */
    method OptionalArguments(ghost want: Option<seq<Expr>> := None)
      requires p.Valid()
      requires want.Some? ==>
                 var q := p.pos + 1 + |ListText(want.value)|;
                 q < |p.tokens| && At(LParen) && ListAt(p.tokens, p.pos + 1, want.value) && p.tokens[q].kind == RParen
      modifies p
      ensures Forward() && (want.Some? ==> Took(|ListText(want.value)| + 2))
    {
      hide ListText, ListAt, Tokens;
      var open := Match(LParen);
      if open {
        ghost var es := if want.Some? then want.value else [];
        if want.Some? { ListAtStarts(p.tokens, p.pos, es); }
        if !At(RParen) { Expressions(es); }
        var _ := Expect(RParen);
      }
    }

    method Names()
      requires p.Valid()
      modifies p
      ensures Forward()
    {
      var more := true;
      while more
        invariant Forward()
        decreases |p.tokens| - p.pos, more
      {
        var _ := Expect(Identifier);
        more := Match(Comma);
      }
    }

    method ParseTypeKeyword(ghost want: Option<Type> := None) returns (t: TypeForm)
      requires p.Valid() && (want.Some? ==> TypeAt(p.tokens, p.pos, want.value))
      modifies p
      ensures Forward() && (want.Some? ==> Took(|TypeText(want.value)|))
      decreases |p.tokens| - p.pos, 2
    {
      hide TypeText, Tokens;
      if want.Some? { TypeParts(p.tokens, p.pos, want.value); }
      t := ParseTypeBase();
      if t == TypeForm.Unknown { return; }
      while On(KwPtr)
        invariant Forward()
        invariant want.Some? ==> old(p.pos) < p.pos <= old(p.pos) + |TypeText(want.value)| && p.errors == old(p.errors)
        decreases |p.tokens| - p.pos
      {
        var _ := Take();
        t := Compound;
      }
    }

    /** A type without the `PTR`s after it. */
    method ParseTypeBase() returns (t: TypeForm)
      requires p.Valid()
      modifies p
      ensures Forward()
      ensures old(On(KwPlainType) || On(KwString) || At(Identifier)) ==> Took(1) && t != TypeForm.Unknown
      decreases |p.tokens| - p.pos, 1
    {
      hide Tokens;
      if On(KwPlainType) {
        var _ := Take();
        t := Plain;
      } else if On(KwString) {
        var _ := Take();
        t := Text;
      } else if On(KwAny) {
        var _ := Take();
        ExpectWord(KwPtr);
        t := Compound;
      } else if On(KwSub) || On(KwFunction) {
        ParseFunctionPointerType();
        t := Compound;
      } else if On(KwTask) || On(KwGenerator) {
        ParseCoroutineType();
        t := Compound;
      } else if At(Identifier) {
        var _ := Take();
        t := Named;
      } else {
        Report();
        t := TypeForm.Unknown;
      }
    }

    method ParseCoroutineType()
      requires p.Valid() && (On(KwTask) || On(KwGenerator))
      modifies p
      ensures Forward()
      decreases |p.tokens| - p.pos, 0
    {
      var isGenerator := MatchWord(KwGenerator);
      if !isGenerator { ExpectWord(KwTask); }
      var _ := Expect(LParen);
      ExpectWord(KwOf);
      var _ := ParseTypeKeyword();
      var _ := Expect(RParen);
    }

    method ParseFunctionPointerType()
      requires p.Valid() && (On(KwSub) || On(KwFunction))
      modifies p
      ensures Forward()
      decreases |p.tokens| - p.pos, 0
    {
      var isFunction := MatchWord(KwFunction);
      if !isFunction { ExpectWord(KwSub); }
      var convention := MatchWord(KwCdecl);
      if !convention { var _ := MatchWord(KwStdcall); }
      var _ := Expect(LParen);
      if !At(RParen) { ParseParamTypes(); }
      var _ := Expect(RParen);
      if isFunction {
        ExpectWord(KwAs);
        var _ := ParseTypeKeyword();
      }
    }

    method ParseParamTypes()
      requires p.Valid()
      modifies p
      ensures Forward()
      decreases |p.tokens| - p.pos, 4
    {
      var more := true;
      while more
        invariant Forward()
        decreases |p.tokens| - p.pos, more
      {
        ParseParamType();
        more := Match(Comma);
      }
    }

    method ParseParamType()
      requires p.Valid()
      modifies p
      ensures Forward()
      decreases |p.tokens| - p.pos, 3
    {
      if On(KwByRef) {
        Report();
        var _ := Take();
      }
      var _ := MatchWord(KwByVal);
      ExpectWord(KwAs);
      var _ := ParseTypeKeyword();
    }

    predicate IsLiteralDefault(e: Expr)
    {
      e.Int? || e.Double? || e.Str? || e.Bool? || (e.Neg? && IsLiteralDefault(e.e))
    }

    method ParseParamList(ghost want: Option<seq<Param>> := None) returns (count: nat)
      requires p.Valid()
      requires want.Some? ==>
                 At(LParen) && ParamsAt(p.tokens, p.pos + 1, want.value)
      modifies p
      ensures Forward() && (!old(At(LParen)) ==> p.pos == old(p.pos) && p.errors == old(p.errors) && count == 0)
      ensures want.Some? ==> Took(|ParamsText(want.value)| + 2)
    {
      hide ParamsText, ParamsAt, TypeText, Tokens;
      count := 0;
      var open := Match(LParen);
      if !open { return; }
      ghost var params := if want.Some? then want.value else [];
      if want.Some? { ParamsStart(p.tokens, p.pos, params); }
      if !At(RParen) { count := ParseParams(params); }
      var _ := Expect(RParen);
    }

    /** Parameters separated by commas. */
    method ParseParams(ghost want: seq<Param> := []) returns (count: nat)
      requires p.Valid() && (want != [] ==> ParamsAt(p.tokens, p.pos, want))
      modifies p
      ensures Forward() && (want != [] ==> Took(|ParamsText(want)|))
    {
      hide ParamsText, TypeText, TypeAt, ParamsAt, Tokens;
      count := 0;
      ghost var rest := want;
      ghost var end := p.pos + |ParamsText(want)|;
      var sawDefault := false;
      var more := true;
      while more
        invariant Forward()
        invariant want != [] ==> p.errors == old(p.errors) && !sawDefault
        invariant want != [] && more ==>
                    rest != [] && ParamsAt(p.tokens, p.pos, rest) && p.pos + |ParamsText(rest)| == end
        invariant want != [] && !more ==> p.pos == end
        decreases |p.tokens| - p.pos, more
      {
        if want != [] { ParamsParts(p.tokens, p.pos, rest); }
        sawDefault := ParseParam(sawDefault, if want == [] then None else Some(rest[0]));
        count := count + 1;
        more := Match(Comma);
        if want != [] { rest := rest[1..]; }
      }
    }

    /** One parameter; returns whether it or an earlier one has a default value. */
    method ParseParam(sawDefault: bool, ghost want: Option<Param> := None) returns (hasDefault: bool)
      requires p.Valid()
      requires want.Some? ==>
                 var end := p.pos + 2 + |TypeText(want.value.t)|;
                 && end < |p.tokens| && At(Identifier) && p.tokens[p.pos + 1].kind == Other(KwAs)
                 && TypeAt(p.tokens, p.pos + 2, want.value.t) && p.tokens[end].kind != Equals && !sawDefault
      modifies p
      ensures Forward() && (sawDefault ==> hasDefault)
      ensures want.Some? ==> Took(2 + |TypeText(want.value.t)|) && !hasDefault
    {
      hide TypeText, TypeAt, Tokens;
      var byRef, byVal := ParsePassing();
      var _ := Expect(Identifier);
      ExpectWord(KwAs);
      var t := ParseTypeKeyword(if want.Some? then Some(want.value.t) else None);
      byRef := byRef || (!byVal && (t == Text || t == Named));
      hasDefault := ParseDefault(byRef, sawDefault);
    }

    method ParseDefault(byRef: bool, sawDefault: bool) returns (hasDefault: bool)
      requires p.Valid()
      modifies p
      ensures Forward() && (sawDefault ==> hasDefault)
      ensures !sawDefault && !old(At(Equals)) ==> Took(0) && !hasDefault
    {
      hide Tokens;
      hasDefault := Match(Equals);
      if hasDefault {
        var e := Expression();
        if byRef || !IsLiteralDefault(e) { Report(); }
      } else if sawDefault {
        hasDefault := true;
        Report();
      }
    }

    method ParsePassing() returns (byRef: bool, byVal: bool)
      requires p.Valid()
      modifies p
      ensures Forward() && (!old(On(KwByRef)) && !old(On(KwByVal)) ==> Took(0))
    {
      hide Tokens;
      byRef := MatchWord(KwByRef);
      byVal := false;
      if !byRef { byVal := MatchWord(KwByVal); }
    }

    method ParseOptionalCallConv(isMethod: bool)
      requires p.Valid()
      modifies p
      ensures Forward() && (!old(On(KwCdecl)) && !old(On(KwStdcall)) ==> Took(0))
    {
      var cdecl := MatchWord(KwCdecl);
      if !cdecl {
        var stdcall := MatchWord(KwStdcall);
        if stdcall && isMethod { Report(); }
      }
    }

    method ParseOptionalTypeParams(isMethod: bool)
      requires p.Valid()
      modifies p
      ensures Forward()
      ensures old(p.pos + 1 < |p.tokens| && p.tokens[p.pos + 1].kind != Other(KwOf)) ==> Took(0)
    {
      NotLast(p.tokens, p.pos);
      if At(LParen) && p.tokens[p.pos + 1].kind == Other(KwOf) {
        var _ := Take();
        var _ := Take();
        Names();
        var _ := Expect(RParen);
        if isMethod { Report(); }
      }
    }

    method ParseMemberOrCallChain(base: Expr)
      requires p.Valid()
      modifies p
      ensures Forward()
    {
      hide Tokens, Chain;
      var _ := p.ParseMemberOrCallChain(base, p.errors);
    }

    /* ----- simple statements ----- */

    method ParseDim(ghost want: Option<Stmt> := None)
      requires p.Valid() && On(KwDim) && Has(want) && (want.Some? ==> want.value.Dim?)
      modifies p
      ensures Passed() && (want.Some? ==> Took(|StmtText(want.value)|))
    {
      hide StmtText, Stands, TypeText, TypeAt, Tokens, AfterLine, LineStart, IsBreak;
      if want.Some? { DimParts(p.tokens, p.pos, want.value); }
      ParseDimName();
      ParseTypeLine(if want.Some? then Some(want.value.t) else None);
    }

    method ParseDimName()
      requires p.Valid() && On(KwDim)
      modifies p
      ensures Forward() && old(p.pos) < p.pos
      ensures old(NameBefore(Other(KwAs))) ==> Took(2)
    {
      hide Tokens, AfterLine, LineStart, IsBreak;
      var _ := Take();
      var _ := Expect(Identifier);
      ParseArrayBounds();
    }

    /** `AS`, a type, and the end of the line. */
    method ParseTypeLine(ghost want: Option<Type> := None)
      requires p.Valid()
      requires want.Some? ==>
                 var q := p.pos + 1 + |TypeText(want.value)|;
                 q < |p.tokens| && On(KwAs) && TypeAt(p.tokens, p.pos + 1, want.value) && p.tokens[q] == NL
      modifies p
      ensures Forward() && LineStart(p.tokens, p.pos) && (want.Some? ==> Took(|TypeText(want.value)| + 2))
    {
      hide TypeText, TypeAt, Tokens, AfterLine, LineStart, IsBreak;
      ParseAsType(want);
      ExpectStmtEnd();
    }

    /** The parentheses that make a variable an array; empty ones leave its size open. */
    method ParseArrayBounds()
      requires p.Valid()
      modifies p
      ensures Forward() && (!old(At(LParen)) ==> Took(0))
    {
      var isArray := Match(LParen);
      if isArray {
        if !At(RParen) { ParseBounds(); }
        var _ := Expect(RParen);
      }
    }

    method ParseBounds()
      requires p.Valid()
      modifies p
      ensures Forward()
    {
      var _ := Expression();
      var both := MatchWord(KwTo);
      if both { var _ := Expression(); }
    }

    method ParseRedim()
      requires p.Valid() && On(KwRedim)
      modifies p
      ensures Passed()
    {
      var _ := Take();
      var _ := MatchWord(KwPreserve);
      var _ := Expect(Identifier);
      var _ := Expect(LParen);
      ParseBounds();
      var _ := Expect(RParen);
      var typed := MatchWord(KwAs);
      if typed { var _ := ParseTypeKeyword(); }
      ExpectStmtEnd();
    }

    method ParseConst(ghost want: Option<Stmt> := None)
      requires p.Valid() && On(KwConst) && Has(want) && (want.Some? ==> want.value.Const?)
      modifies p
      ensures Passed() && (want.Some? ==> Took(|StmtText(want.value)|))
    {
      hide StmtText, Stands, ExprText, ExprAt, Tokens, AfterLine, LineStart, IsBreak;
      if want.Some? { LetParts(p.tokens, p.pos, want.value); }
      ParseConstName();
      ParseValue(if want.Some? then Some(want.value.e) else None);
    }

    method ParseConstName()
      requires p.Valid() && On(KwConst)
      modifies p
      ensures Forward() && old(p.pos) < p.pos
      ensures old(NameBefore(Equals)) ==> Took(2)
    {
      hide Tokens, AfterLine, LineStart, IsBreak;
      var _ := Take();
      var _ := Expect(Identifier);
      var typed := MatchWord(KwAs);
      if typed { var _ := ParseTypeKeyword(); }
    }

    /** `=`, an expression, and the end of the line. */
    method ParseValue(ghost want: Option<Expr> := None)
      requires p.Valid()
      requires want.Some? ==>
                 var q := p.pos + 1 + |ExprText(want.value)|;
                 q < |p.tokens| && At(Equals) && ExprAt(p.tokens, p.pos + 1, want.value) && p.tokens[q] == NL
      modifies p
      ensures Forward() && LineStart(p.tokens, p.pos) && (want.Some? ==> Took(|ExprText(want.value)| + 2))
    {
      hide StmtText, Stands, ExprText, ExprAt, Tokens, AfterLine, LineStart, IsBreak;
      var _ := Expect(Equals);
      ParseExprLine(want);
    }

    /** An expression and the end of the line. */
    method ParseExprLine(ghost want: Option<Expr> := None)
      requires p.Valid()
      requires want.Some? ==>
                 var q := p.pos + |ExprText(want.value)|;
                 q < |p.tokens| && ExprAt(p.tokens, p.pos, want.value) && p.tokens[q] == NL
      modifies p
      ensures Forward() && LineStart(p.tokens, p.pos) && (want.Some? ==> Took(|ExprText(want.value)| + 1))
    {
      hide StmtText, Stands, ExprText, ExprAt, Tokens, AfterLine, LineStart, IsBreak;
      var _ := Expression(want);
      ExpectStmtEnd();
    }

    method ParsePrint(ghost want: Option<Stmt> := None)
      requires p.Valid() && On(KwPrint) && Has(want) && (want.Some? ==> want.value.PrintOf?)
      modifies p
      ensures Passed() && (want.Some? ==> Took(|StmtText(want.value)|))
    {
      hide StmtText, Stands, ListText, ListAt, Tokens, AfterLine, LineStart, IsBreak;
      ghost var es := if want.Some? then want.value.es else [];
      if want.Some? {
        PrintParts(p.tokens, p.pos, want.value);
        EmptyList();
      }
      var _ := Take();
      ParsePrinted(es);
      ExpectStmtEnd();
    }

    /** What is printed, if anything is. */
    method ParsePrinted(ghost want: seq<Expr> := [])
      requires p.Valid() && (want != [] ==> ListAt(p.tokens, p.pos, want))
      modifies p
      ensures Forward() && (if want == [] then old(On(Newline)) ==> Took(0) else Took(|ListText(want)|))
    {
      hide ListText, ListAt, Tokens;
      if want != [] { ListAtStarts(p.tokens, p.pos, want); }
      if !On(Newline) && !At(End) { Expressions(want); }
    }

    method ParseAssign(ghost want: Option<Stmt> := None)
      requires p.Valid() && (At(Identifier) || At(Star) || At(KwThis)) && Has(want) && (want.Some? ==> want.value.Let?)
      modifies p
      ensures Passed() && (want.Some? ==> Took(|StmtText(want.value)|))
    {
      hide StmtText, Stands, ExprText, ExprAt, Tokens, AfterLine, LineStart, IsBreak;
      if want.Some? { LetParts(p.tokens, p.pos, want.value); }
      ParseAssigned();
      ParseValue(if want.Some? then Some(want.value.e) else None);
    }

    /** What is assigned to. */
    method ParseAssigned()
      requires p.Valid() && (At(Identifier) || At(Star) || At(KwThis))
      modifies p
      ensures Forward() && old(p.pos) < p.pos
      ensures old(p.pos + 1 < |p.tokens| && At(Identifier) && p.tokens[p.pos + 1].kind == Equals) ==> Took(1)
    {
      hide Tokens, AfterLine, LineStart, IsBreak;
      if At(Star) {
        ParseDereference();
      } else if At(KwThis) {
        var _ := Take();
        ParseMemberOrCallChain(This);
      } else {
        var name := Take();
        if currentFunction == "" || LowerCase(name.text) != currentFunction { ParseTarget(name.text); }
      }
    }

    method ParseDereference()
      requires p.Valid() && At(Star)
      modifies p
      ensures Forward() && old(p.pos) < p.pos
    {
      hide Tokens, Parse;
      var _ := p.ParseUnaryPtrOps();
    }

    /** What follows the name that is assigned to: an index, members, or nothing. */
    method ParseTarget(name: string)
      requires p.Valid()
      modifies p
      ensures Forward() && (!old(At(LParen)) && !old(At(Dot)) && !old(At(Arrow)) ==> Took(0))
    {
      var indexed := Match(LParen);
      if indexed {
        var i := Expression();
        var _ := Expect(RParen);
        if At(Dot) || At(Arrow) { ParseMemberOrCallChain(Call(name, Arg(i, NoArgs))); }
      } else if At(Dot) || At(Arrow) {
        ParseMemberOrCallChain(Name(name));
      }
    }

    method ParseGoto(ghost want: Option<Stmt> := None)
      requires p.Valid() && (On(KwGoto) || On(KwGosub)) && Has(want) && (want.Some? ==> want.value.Jump?)
      modifies p
      ensures Passed() && (want.Some? ==> Took(|StmtText(want.value)|))
    {
      hide StmtText, Stands, Tokens, AfterLine, LineStart, IsBreak;
      if want.Some? { WordParts(p.tokens, p.pos, want.value); }
      var _ := Take();
      var _ := Expect(Identifier);
      ExpectStmtEnd();
    }

    method ParseLabel()
      requires p.Valid() && At(Identifier) && p.pos + 1 < |p.tokens| && p.tokens[p.pos + 1].kind == Other(Newline)
      modifies p
      ensures Passed() && p.errors == old(p.errors) && p.pos == old(p.pos) + 2
    {
      var _ := Take();
      var _ := Take();
    }

    method ParseExit(ghost want: Option<Stmt> := None)
      requires p.Valid() && On(KwExit) && Has(want) && (want.Some? ==> want.value.Exit?)
      modifies p
      ensures Passed() && (want.Some? ==> Took(|StmtText(want.value)|))
    {
      hide StmtText, Stands, Tokens, AfterLine, LineStart, IsBreak;
      if want.Some? { WordParts(p.tokens, p.pos, want.value); }
      var _ := Take();
      ParseExitWord();
      ExpectStmtEnd();
    }

    method ParseExitWord()
      requires p.Valid()
      modifies p
      ensures Forward() && (old(p.tokens[p.pos].kind.Other? && CanExit(p.tokens[p.pos].kind.w)) ==> Took(1))
    {
      hide Tokens;
      if On(KwFor) || On(KwDo) || On(KwWhile) || On(KwSub) || On(KwFunction) {
        var _ := Take();
      } else {
        Report();
      }
    }

    method ParseCallStmt(ghost want: Option<Stmt> := None)
      requires p.Valid() && On(KwCall) && Has(want) && (want.Some? ==> want.value.CallOf?)
      modifies p
      ensures Passed() && (want.Some? ==> Took(|StmtText(want.value)|))
    {
      hide StmtText, Stands, ListText, ListAt, Tokens, AfterLine, LineStart, IsBreak;
      if want.Some? { CallParts(p.tokens, p.pos, want.value); }
      ParseCallee();
      OptionalArguments(if want.Some? then Some(want.value.es) else None);
      ExpectStmtEnd();
    }

    method ParseCallee()
      requires p.Valid() && On(KwCall)
      modifies p
      ensures Forward() && old(p.pos) < p.pos
      ensures old(NameBefore(LParen)) ==> Took(2)
    {
      hide Tokens;
      var _ := Take();
      if At(KwThis) || At(KwBase) {
        var _ := Take();
        var _ := Expect(Dot);
        var _ := Expect(Identifier);
      } else {
        var _, _ := ParseNameParts();
      }
    }

    method ParseReturn(ghost want: Option<Stmt> := None)
      requires p.Valid() && On(KwReturn) && Has(want) && (want.Some? ==> want.value.Return?)
      modifies p
      ensures Passed() && (want.Some? ==> Took(|StmtText(want.value)|))
    {
      hide StmtText, Stands, ExprText, ExprAt, Tokens, AfterLine, LineStart, IsBreak;
      if want.Some? { GivenParts(p.tokens, p.pos, want.value); }
      var _ := Take();
      ParseResult(if want.Some? then want.value.value else None);
      ExpectStmtEnd();
    }

    /** What is returned, if anything is. */
    method ParseResult(ghost want: Option<Expr> := None)
      requires p.Valid() && (want.Some? ==> ExprAt(p.tokens, p.pos, want.value))
      modifies p
      ensures Forward() && (if want.None? then old(On(Newline)) ==> Took(0) else Took(|ExprText(want.value)|))
    {
      hide ExprText, ExprAt, Tokens;
      if want.Some? { ExprAtStarts(p.tokens, p.pos, want.value); }
      if !On(Newline) && !At(End) { var _ := Expression(want); }
    }

    method ParseYield(ghost want: Option<Stmt> := None)
      requires p.Valid() && On(KwYield) && Has(want) && (want.Some? ==> want.value.YieldOf?)
      modifies p
      ensures Passed() && (want.Some? ==> Took(|StmtText(want.value)|))
    {
      hide StmtText, Stands, ExprText, ExprAt, Tokens, AfterLine, LineStart, IsBreak;
      if want.Some? { GivenParts(p.tokens, p.pos, want.value); }
      var _ := Take();
      ParseExprLine(if want.Some? then Some(want.value.e) else None);
    }

    /* ----- declarations with lines of their own ----- */

    method ParseEnum()
      requires p.Valid() && On(KwEnum)
      modifies p
      ensures Passed()
      ensures p.errors == old(p.errors) ==> IsClosed(p.tokens, old(p.pos), p.pos)
    {
      ghost var start := p.pos;
      var _ := Take();
      var _ := Expect(Identifier);
      ExpectStmtEnd();
      SkipNewlines();
      while !On(KwEnd) && !At(End)
        invariant Forward() && old(p.pos) < p.pos && !On(Newline)
        decreases |p.tokens| - p.pos
      {
        ParseEnumMember();
        SkipNewlines();
      }
      ExpectEnd(KwEnum);
      ClosedByEnd(p.tokens, start, p.pos, KwEnum);
    }

    /** Even a line without a name is passed over, as its end is looked for. */
    method ParseEnumMember()
      requires p.Valid() && !At(End)
      modifies p
      ensures Passed()
    {
      var _ := Expect(Identifier);
      var valued := Match(Equals);
      if valued { var _ := Expression(); }
      ExpectStmtEnd();
    }

    method ParseRecordDecl()
      requires p.Valid() && (On(KwType) || On(KwUnion))
      modifies p
      ensures Passed()
      ensures p.errors == old(p.errors) ==> IsClosed(p.tokens, old(p.pos), p.pos)
    {
      ghost var start := p.pos;
      var closing := if On(KwUnion) then KwUnion else KwType;
      ParseRecordHeader();
      SkipNewlines();
      while !On(KwEnd) && !At(End)
        invariant Forward() && old(p.pos) < p.pos && !On(Newline)
        decreases |p.tokens| - p.pos
      {
        if On(KwDeclare) { ParseMethodPrototype(); } else { ParseField(); }
        SkipNewlines();
      }
      ExpectEnd(closing);
      ClosedByEnd(p.tokens, start, p.pos, closing);
    }

    method ParseRecordHeader()
      requires p.Valid() && !At(End)
      modifies p
      ensures Passed()
    {
      var _ := Take();
      var _ := Expect(Identifier);
      var based := MatchWord(KwExtends);
      if based { Names(); }
      ExpectStmtEnd();
    }

    /** A field's line; a line that is none is reported and passed over. */
    method ParseField()
      requires p.Valid() && !At(End)
      modifies p
      ensures Passed()
    {
      var _ := Expect(Identifier);
      ParseAsType();
      ExpectStmtEnd();
    }

    method ParseMethodPrototype()
      requires p.Valid() && On(KwDeclare)
      modifies p
      ensures Passed()
    {
      var _ := Take();
      var _ := MatchWord(KwVirtual);
      if On(KwConstructor) || On(KwDestructor) {
        var _ := Take();
        ParseNoParams();
      } else if On(KwSub) || On(KwFunction) {
        ParseMethodSignature();
      } else if On(KwProperty) {
        var _ := Take();
        var _ := Expect(Identifier);
        var _ := ParsePropertySignature();
      } else {
        Report();
      }
      ExpectStmtEnd();
    }

    method ParseNoParams()
      requires p.Valid()
      modifies p
      ensures Forward()
    {
      var count := ParseParamList();
      if count > 0 { Report(); }
    }

    method ParseMethodSignature()
      requires p.Valid() && (On(KwSub) || On(KwFunction))
      modifies p
      ensures Forward()
    {
      var isFunction := On(KwFunction);
      var _ := Take();
      var _ := Expect(Identifier);
      var _ := ParseParamList();
      if isFunction { ParseAsType(); }
      var _ := MatchWord(KwOverride);
    }

    /** A getter has a type and no parameters, a setter one parameter and no type. */
    method ParsePropertySignature() returns (isGetter: bool)
      requires p.Valid()
      modifies p
      ensures Forward()
    {
      var count := ParseParamList();
      isGetter := MatchWord(KwAs);
      if isGetter {
        var _ := ParseTypeKeyword();
        if count > 0 { Report(); }
      } else if count != 1 {
        Report();
      }
    }

    method ParseExternDecl()
      requires p.Valid() && On(KwDeclare)
      modifies p
      ensures Passed()
    {
      var _ := Take();
      var isFunction := false;
      if On(KwSub) || On(KwFunction) {
        isFunction := On(KwFunction);
        var _ := Take();
      } else {
        Report();
      }
      ParseExternName();
      var _ := ParseParamList();
      if isFunction { ParseAsType(); }
      ExpectStmtEnd();
    }

    method ParseAsType(ghost want: Option<Type> := None)
      requires p.Valid()
      requires want.Some? ==> On(KwAs) && TypeAt(p.tokens, p.pos + 1, want.value)
      modifies p
      ensures Forward() && (want.Some? ==> Took(1 + |TypeText(want.value)|))
    {
      hide TypeText, TypeAt, Tokens;
      ExpectWord(KwAs);
      var _ := ParseTypeKeyword(want);
    }

    /** The name of an extern procedure and the clauses that stand before its parameters. */
    method ParseExternName()
      requires p.Valid()
      modifies p
      ensures Forward()
    {
      var _ := Expect(Identifier);
      ParseOptionalCallConv(false);
      ParseClause(KwLib);
      ParseClause(KwAlias);
    }

    /** `LIB` or `ALIAS` with its string, if it is there. */
    method ParseClause(w: Word)
      requires p.Valid()
      modifies p
      ensures Forward()
    {
      var found := MatchWord(w);
      if found { var _ := Expect(StringLiteral); }
    }

    /* ----- blocks ----- */

    /** Statements up to one of `terminators`, which is then next unless the input ends. */
    method ParseBlockUntil(terminators: set<Word>, ghost want: Option<Block> := None)
      requires p.Valid() && (want.Some? ==> BlockAt(p.tokens, p.pos, want.value, terminators))
      modifies this, p
      ensures Forward() && currentFunction == old(currentFunction)
      ensures At(End) || (p.tokens[p.pos].kind.Other? && p.tokens[p.pos].kind.w in terminators)
      ensures p.pos == old(p.pos) || LineStart(p.tokens, p.pos)
      ensures want.Some? ==> Took(|BlockText(want.value)|)
      decreases |p.tokens| - p.pos, 6
    {
      hide Tokens, LineStart, BlockAt, BlockText, StmtText, StartsStmt;
      ghost var b := if want.Some? then want.value else Done(0);
      ghost var at: nat := p.pos;
      SkipNewlines();
      if want.Some? { BlanksSkipped(p.tokens, at, b, terminators, p.pos); }
      while !At(End) && !(p.tokens[p.pos].kind.Other? && p.tokens[p.pos].kind.w in terminators)
        invariant Forward() && currentFunction == old(currentFunction)
        invariant p.pos == old(p.pos) || LineStart(p.tokens, p.pos)
        invariant want.Some? ==>
                    && p.errors == old(p.errors) && BlockAt(p.tokens, at, b, terminators) && p.pos == at + b.blanks
                    && at + |BlockText(b)| == old(p.pos) + |BlockText(want.value)|
        decreases |p.tokens| - p.pos
      {
        if want.Some? { BlockParts(p.tokens, at, b, terminators); }
        ParseStatementAndBlanks(if want.Some? then Some(b.s) else None);
        if want.Some? { at, b := NextInBlock(p.tokens, at, b, terminators, p.pos); }
      }
      if want.Some? { BlockParts(p.tokens, at, b, terminators); }
    }

    /** A statement and the blank lines after it. */
    method ParseStatementAndBlanks(ghost want: Option<Stmt> := None)
      requires p.Valid() && !At(End) && Has(want)
      modifies this, p
      ensures Forward() && old(p.pos) < p.pos && LineStart(p.tokens, p.pos) && currentFunction == old(currentFunction)
      ensures want.Some? ==>
                var end := old(p.pos) + |StmtText(want.value)|;
                && end <= p.pos && p.errors == old(p.errors) && !On(Newline)
                && forall k :: end <= k < p.pos ==> p.tokens[k].kind == Other(Newline)
      decreases |p.tokens| - p.pos, 5
    {
      hide Tokens, LineStart, StmtText, AfterLine, IsClosed, StartsStatement;
      var _ := ParseStatement(want);
      SkipNewlines();
    }

    /** Main result: a statement is parsed in finitely many steps and takes at least
        one token, whatever the tokens are; afterwards a line starts or the input
        ends; a block is accepted only with its own closing words; and a statement
        that is written as it should be is taken to its end without a report. */
    method ParseStatement(ghost want: Option<Stmt> := None) returns (found: bool)
      requires p.Valid() && !At(End) && Has(want)
      modifies this, p
      ensures Passed() && found == old(StartsStatement(p.tokens, p.pos))
      ensures !found ==> p.errors == old(p.errors) + 1 && p.pos == AfterLine(p.tokens, old(p.pos))
      ensures p.errors == old(p.errors) ==> IsClosed(p.tokens, old(p.pos), p.pos)
      ensures want.Some? ==> Took(|StmtText(want.value)|)
      decreases |p.tokens| - p.pos, 4
    {
      hide Tokens, AfterLine, EndsIn, IsClosed, OpensBlock, StartsLine, StmtText;
      ghost var start := p.pos;
      found := true;
      if OpensBlock(p.tokens, p.pos) {
        ParseBlock(want);
      } else {
        found := ParseLine(want);
        if found { NoBlockIsClosed(p.tokens, start, p.pos); }
      }
    }

    /** A statement that has no lines of its own within it; anything else is reported
        and skipped to the end of its line. */
    method ParseLine(ghost want: Option<Stmt> := None) returns (found: bool)
      requires p.Valid() && !At(End) && Has(want) && !OpensBlock(p.tokens, p.pos)
      modifies p
      ensures Passed() && found == old(StartsLine(p.tokens, p.pos))
      ensures !found ==> p.errors == old(p.errors) + 1 && p.pos == AfterLine(p.tokens, old(p.pos))
      ensures want.Some? ==> Took(|StmtText(want.value)|)
    {
      hide StmtText, Stands, Tokens, AfterLine, LineStart;
      if want.Some? { LineOrBlock(p.tokens, p.pos, want.value); }
      var k := p.tokens[p.pos].kind;
      found := true;
      if k.Other? && IsDeclaration(k.w) {
        ParseDeclaration(want);
      } else if k.Other? && IsAction(k.w) {
        ParseAction(want);
      } else if k == Identifier || k == Star || k == KwThis {
        ParseLabelOrAssign(want);
      } else {
        found := false;
        Report();
        Synchronize();
      }
    }

    method ParseDeclaration(ghost want: Option<Stmt> := None)
      requires p.Valid() && p.tokens[p.pos].kind.Other? && IsDeclaration(p.tokens[p.pos].kind.w) && Has(want)
      modifies p
      ensures Passed() && (want.Some? ==> Took(|StmtText(want.value)|))
    {
      hide StmtText, Stands, Tokens, LineStart;
      if want.Some? { WhichStmt(p.tokens, p.pos, want.value); }
      if On(KwDim) { ParseDim(want); }
      else if On(KwRedim) { ParseRedim(); }
      else if On(KwConst) { ParseConst(want); }
      else { ParseExternDecl(); }
    }

    method ParseLabelOrAssign(ghost want: Option<Stmt> := None)
      requires p.Valid() && (At(Identifier) || At(Star) || At(KwThis)) && Has(want)
      modifies p
      ensures Passed() && (want.Some? ==> Took(|StmtText(want.value)|))
    {
      hide StmtText, Stands, LineStart;
      if want.Some? { LabelOrLet(p.tokens, p.pos, want.value); }
      NotLast(p.tokens, p.pos);
      var next := p.tokens[p.pos + 1];
      if At(Identifier) && next.kind == Other(Newline) && next.text == ":" { ParseLabel(); } else { ParseAssign(want); }
    }

    method ParseAction(ghost want: Option<Stmt> := None)
      requires p.Valid() && p.tokens[p.pos].kind.Other? && IsAction(p.tokens[p.pos].kind.w) && Has(want)
      modifies p
      ensures Passed() && (want.Some? ==> Took(|StmtText(want.value)|))
    {
      hide StmtText, Stands, Tokens, LineStart;
      if want.Some? { WhichStmt(p.tokens, p.pos, want.value); }
      if On(KwPrint) { ParsePrint(want); }
      else if On(KwGoto) || On(KwGosub) { ParseGoto(want); }
      else if On(KwExit) { ParseExit(want); }
      else if On(KwCall) { ParseCallStmt(want); }
      else if On(KwReturn) { ParseReturn(want); }
      else { ParseYield(want); }
    }

    method ParseBlock(ghost want: Option<Stmt> := None)
      requires p.Valid() && OpensBlock(p.tokens, p.pos) && Has(want)
      modifies this, p
      ensures Passed() && (p.errors == old(p.errors) ==> IsClosed(p.tokens, old(p.pos), p.pos))
      ensures want.Some? ==> Took(|StmtText(want.value)|)
      decreases |p.tokens| - p.pos, 3
    {
      hide StmtText, Stands, Tokens, LineStart, IsClosed, OpensBlock, Opening, IsProcedure;
      WhichBlock(p.tokens, p.pos);
      if want.Some? { NoGroup(p.tokens, p.pos, want.value); }
      if On(KwIf) || On(KwSelect) {
        ParseChoice(want);
      } else if On(KwFor) || On(KwDo) || On(KwWhile) {
        ParseLoop(want);
      } else if On(KwEnum) || On(KwType) || On(KwUnion) || On(KwNamespace) {
        ParseGroup();
      } else {
        ParseProcedure(want);
      }
    }

    method ParseChoice(ghost want: Option<Stmt> := None)
      requires p.Valid() && (On(KwIf) || On(KwSelect)) && Has(want)
      modifies this, p
      ensures Passed() && (p.errors == old(p.errors) ==> IsClosed(p.tokens, old(p.pos), p.pos))
      ensures want.Some? ==> Took(|StmtText(want.value)|)
      decreases |p.tokens| - p.pos, 2
    {
      hide StmtText, Stands, Tokens, LineStart, IsClosed;
      if want.Some? { WhichStmt(p.tokens, p.pos, want.value); }
      if On(KwIf) { ParseIf(want); } else { ParseSelectCase(want); }
    }

    method ParseLoop(ghost want: Option<Stmt> := None)
      requires p.Valid() && (On(KwFor) || On(KwDo) || On(KwWhile)) && Has(want)
      modifies this, p
      ensures Passed() && (p.errors == old(p.errors) ==> IsClosed(p.tokens, old(p.pos), p.pos))
      ensures want.Some? ==> Took(|StmtText(want.value)|)
      decreases |p.tokens| - p.pos, 2
    {
      hide StmtText, Stands, Tokens, LineStart, IsClosed;
      if want.Some? { WhichStmt(p.tokens, p.pos, want.value); }
      if On(KwFor) { ParseFor(want); }
      else if On(KwDo) { ParseDo(want); }
      else { ParseWhile(want); }
    }

    method ParseGroup()
      requires p.Valid() && (On(KwEnum) || On(KwType) || On(KwUnion) || On(KwNamespace))
      modifies this, p
      ensures Passed() && (p.errors == old(p.errors) ==> IsClosed(p.tokens, old(p.pos), p.pos))
      decreases |p.tokens| - p.pos, 2
    {
      if On(KwEnum) { ParseEnum(); }
      else if On(KwNamespace) { ParseNamespaceDecl(); }
      else { ParseRecordDecl(); }
    }

    method ParseProcedure(ghost want: Option<Stmt> := None)
      requires p.Valid() && OpensBlock(p.tokens, p.pos) && Has(want)
      requires var k := Opening(p.tokens, p.pos);
               k.Other? && IsProcedure(k.w)
      modifies this, p
      ensures Passed() && (p.errors == old(p.errors) ==> IsClosed(p.tokens, old(p.pos), p.pos))
      ensures want.Some? ==> Took(|StmtText(want.value)|)
      decreases |p.tokens| - p.pos, 2
    {
      hide StmtText, Stands, Tokens, LineStart, IsClosed;
      if want.Some? { WhichStmt(p.tokens, p.pos, want.value); }
      var k := Opening(p.tokens, p.pos);
      if k == Other(KwSub) { var _ := ParseSub(want); }
      else if k == Other(KwFunction) { var _ := ParseFunction(want); }
      else if k == Other(KwProperty) { ParseProperty(); }
      else if k == Other(KwOperator) { ParseOperatorDecl(); }
      else { ParseConstructor(); }
    }

    method ParseIf(ghost want: Option<Stmt> := None)
      requires p.Valid() && On(KwIf) && Has(want) && (want.Some? ==> want.value.If?)
      modifies this, p
      ensures Passed() && (p.errors == old(p.errors) ==> IsClosed(p.tokens, old(p.pos), p.pos))
      ensures want.Some? ==> Took(|StmtText(want.value)|)
      decreases |p.tokens| - p.pos, 1
    {
      hide StmtText, Stands, Tokens, LineStart, IsClosed, EndsIn, BranchesText, ArmAt;
      ghost var start := p.pos;
      ghost var more := if want.Some? then want.value.more else EndIf;
      if want.Some? { IfIsArm(p.tokens, p.pos, want.value); }
      ParseArm(if want.Some? then Some((want.value.c, want.value.body, more)) else None);
      while On(KwElseIf)
        invariant Forward() && old(p.pos) < p.pos && currentFunction == old(currentFunction)
        invariant want.Some? ==>
                    && p.errors == old(p.errors) && Stands(p.tokens, p.pos, BranchesText(more))
                    && p.pos + |BranchesText(more)| == old(p.pos) + |StmtText(want.value)|
        decreases |p.tokens| - p.pos
      {
        if want.Some? { ElseIfIsArm(p.tokens, p.pos, more); }
        ParseArm(if want.Some? then Some((more.c, more.body, more.more)) else None);
        if want.Some? { more := more.more; }
      }
      if want.Some? { BranchesStart(p.tokens, p.pos, more); }
      ParseElse(if want.Some? then Some(more) else None);
      ClosedByEnd(p.tokens, start, p.pos, KwIf);
    }

    /** The ELSE part, if there is one, and END IF. */
    method ParseElse(ghost want: Option<Branches> := None)
      requires p.Valid()
      requires want.Some? ==> !want.value.ElseIf? && Stands(p.tokens, p.pos, BranchesText(want.value))
      modifies this, p
      ensures Forward() && LineStart(p.tokens, p.pos) && currentFunction == old(currentFunction)
      ensures p.errors == old(p.errors) ==> EndsWith(p.tokens, p.pos, Other(KwIf))
      ensures want.Some? ==> Took(|BranchesText(want.value)|)
      decreases |p.tokens| - p.pos, 7
    {
      hide Tokens, LineStart, EndsIn, BranchesText, BlockText, BlockAt, AfterLine, Stands, EndsBlock;
      if want.Some? { ElseParts(p.tokens, p.pos, want.value); }
      if On(KwElse) { ParseElseBranch(if want.Some? then Some(want.value.body) else None); }
      ExpectEnd(KwIf);
    }

    method ParseElseBranch(ghost want: Option<Block> := None)
      requires p.Valid() && On(KwElse)
      requires want.Some? ==>
                 && p.pos + 1 < |p.tokens| && p.tokens[p.pos + 1].kind == Other(Newline)
                 && BlockAt(p.tokens, p.pos + 2, want.value, {KwEnd})
      modifies this, p
      ensures Forward() && currentFunction == old(currentFunction)
      ensures want.Some? ==> Took(2 + |BlockText(want.value)|)
      decreases |p.tokens| - p.pos, 6
    {
      hide Tokens, LineStart, AfterLine, IsBreak, BlockText, BlockAt;
      var _ := Take();
      ExpectStmtEnd();
      ParseBlockUntil({KwEnd}, want);
    }

    /** A condition and its block, up to the next branch. */
    method ParseArm(ghost want: Option<(Expr, Block, Branches)> := None)
      requires p.Valid() && (On(KwIf) || On(KwElseIf))
      requires want.Some? ==> ArmAt(p.tokens, p.pos, want.value.0, want.value.1, want.value.2)
      modifies this, p
      ensures Forward() && old(p.pos) < p.pos && currentFunction == old(currentFunction)
      ensures want.Some? ==>
                && Took(3 + |ExprText(want.value.0)| + |BlockText(want.value.1)|)
                && Stands(p.tokens, p.pos, BranchesText(want.value.2))
      decreases |p.tokens| - p.pos, 0
    {
      hide Tokens, LineStart, BranchesText, BlockText, BlockAt, ExprText, ExprAt, ArmAt;
      if want.Some? { ArmStands(p.tokens, p.pos, want.value.0, want.value.1, want.value.2); }
      ParseCondition(if want.Some? then Some(want.value.0) else None);
      ParseBlockUntil({KwElseIf, KwElse, KwEnd}, if want.Some? then Some(want.value.1) else None);
    }

    /** `IF` or `ELSEIF`, the condition, and `THEN` at the end of the line. */
    method ParseCondition(ghost want: Option<Expr> := None)
      requires p.Valid() && !At(End)
      requires want.Some? ==>
                 var q := p.pos + 1 + |ExprText(want.value)|;
                 && q + 1 < |p.tokens| && ExprAt(p.tokens, p.pos + 1, want.value)
                 && p.tokens[q].kind == Other(KwThen) && p.tokens[q + 1].kind == Other(Newline)
      modifies p
      ensures Passed() && (want.Some? ==> Took(|ExprText(want.value)| + 3))
    {
      hide Tokens, LineStart, ExprText, ExprAt, AfterLine, IsBreak;
      var _ := Take();
      var _ := Expression(want);
      ExpectWord(KwThen);
      ExpectStmtEnd();
    }

    method ParseSelectCase(ghost want: Option<Stmt> := None)
      requires p.Valid() && On(KwSelect) && Has(want) && (want.Some? ==> want.value.Select?)
      modifies this, p
      ensures Passed() && (p.errors == old(p.errors) ==> IsClosed(p.tokens, old(p.pos), p.pos))
      ensures want.Some? ==> Took(|StmtText(want.value)|)
      decreases |p.tokens| - p.pos, 1
    {
      hide StmtText, Stands, Tokens, LineStart, IsClosed, EndsIn, CasesText, EndsBlock;
      ghost var start := p.pos;
      ghost var cases := if want.Some? then want.value.cases else EndSelect;
      ParseSelector(want);
      while On(KwCase)
        invariant Forward() && old(p.pos) < p.pos && currentFunction == old(currentFunction)
        invariant want.Some? ==>
                    && p.errors == old(p.errors) && Stands(p.tokens, p.pos, CasesText(cases))
                    && p.pos + |CasesText(cases)| == old(p.pos) + |StmtText(want.value)|
        decreases |p.tokens| - p.pos
      {
        if want.Some? { CasesStart(p.tokens, p.pos, cases); }
        ParseCase(if want.Some? then Some(cases) else None);
        if want.Some? { cases := cases.more; }
      }
      if want.Some? { CasesStart(p.tokens, p.pos, cases); }
      ParseEnd(KwSelect, start);
    }

    /** The end of the block that started at `start`. */
    method ParseEnd(w: Word, ghost start: nat)
      requires p.Valid() && w != Newline && EndClosed(w) && start < p.pos && Opening(p.tokens, start) == Other(w)
      modifies p
      ensures Forward() && LineStart(p.tokens, p.pos)
      ensures p.errors == old(p.errors) ==> IsClosed(p.tokens, start, p.pos)
      ensures old(EndsBlock(p.tokens, p.pos, w)) ==> Took(3)
    {
      hide Tokens, LineStart, EndsWith, EndsBlock, Opening, EndClosed, IsClosed;
      ExpectEnd(w);
      ClosedByEnd(p.tokens, start, p.pos, w);
    }

    /** `SELECT CASE` with what is selected by, and blank lines. */
    method ParseSelector(ghost want: Option<Stmt> := None)
      requires p.Valid() && On(KwSelect) && Has(want) && (want.Some? ==> want.value.Select?)
      modifies p
      ensures Forward() && old(p.pos) < p.pos
      ensures want.Some? ==> Stands(p.tokens, p.pos, CasesText(want.value.cases)) && p.errors == old(p.errors)
      ensures want.Some? ==> p.pos + |CasesText(want.value.cases)| == old(p.pos) + |StmtText(want.value)|
    {
      hide StmtText, Stands, Tokens, LineStart, ExprText, ExprAt, CasesText;
      if want.Some? { SelectStands(p.tokens, p.pos, want.value); }
      ParseSelected(if want.Some? then Some(want.value.e) else None);
      SkipNewlines();
      if want.Some? { Skipped(p.tokens, old(p.pos) + |ExprText(want.value.e)| + 3, want.value.blanks, p.pos); }
    }

    method ParseSelected(ghost want: Option<Expr> := None)
      requires p.Valid() && On(KwSelect)
      requires want.Some? ==>
                 var q := p.pos + 2 + |ExprText(want.value)|;
                 && q < |p.tokens| && p.tokens[p.pos + 1].kind == Other(KwCase)
                 && ExprAt(p.tokens, p.pos + 2, want.value) && p.tokens[q] == NL
      modifies p
      ensures Passed() && (want.Some? ==> Took(|ExprText(want.value)| + 3))
    {
      hide Tokens, LineStart, ExprText, ExprAt;
      var _ := Take();
      ExpectWord(KwCase);
      ParseExprLine(want);
    }

    method ParseCase(ghost want: Option<Cases> := None)
      requires p.Valid() && On(KwCase)
      requires want.Some? ==> want.value.Case? && Stands(p.tokens, p.pos, CasesText(want.value))
      modifies this, p
      ensures Forward() && old(p.pos) < p.pos && currentFunction == old(currentFunction)
      ensures want.Some? ==> Stands(p.tokens, p.pos, CasesText(want.value.more)) && p.errors == old(p.errors)
      ensures want.Some? ==> p.pos + |CasesText(want.value.more)| == old(p.pos) + |CasesText(want.value)|
      decreases |p.tokens| - p.pos, 7
    {
      hide Tokens, LineStart, ListText, ListAt, BlockText, BlockAt, CasesText, ArmText;
      ghost var q, r: nat := 0, 0;
      if want.Some? {
        q, r := CaseParts(p.tokens, p.pos, want.value);
        CasesStart(p.tokens, r, want.value.more);
        BlockStands(p.tokens, q + 1, want.value.body, {KwCase, KwEnd}, CasesWord(want.value.more));
      }
      ParseCaseHead(if want.Some? then Some(want.value.es) else None);
      ParseBlockUntil({KwCase, KwEnd}, if want.Some? then Some(want.value.body) else None);
    }

    /** `CASE` with `ELSE` or expressions, and the end of the line. */
    method ParseCaseHead(ghost want: Option<seq<Expr>> := None)
      requires p.Valid() && On(KwCase)
      requires want.Some? ==> CaseAt(p.tokens, p.pos + 1, want.value)
      modifies p
      ensures Passed() && (want.Some? ==> Took(2 + |ArmText(want.value)|))
    {
      hide Tokens, LineStart, AfterLine, IsBreak, ArmText, CaseAt;
      var _ := Take();
      ParseValues(want);
      ExpectStmtEnd();
    }

    method ParseValues(ghost want: Option<seq<Expr>> := None)
      requires p.Valid() && (want.Some? ==> CaseAt(p.tokens, p.pos, want.value))
      modifies p
      ensures Forward() && (want.Some? ==> Took(|ArmText(want.value)|) && On(Newline))
    {
      hide Tokens, ListText, ListAt;
      if want.Some? && want.value != [] { ListAtStarts(p.tokens, p.pos, want.value); }
      var isElse := MatchWord(KwElse);
      if !isElse { Expressions(if want.Some? then want.value else []); }
    }

    method ParseFor(ghost want: Option<Stmt> := None)
      requires p.Valid() && On(KwFor) && Has(want) && (want.Some? ==> want.value.For?)
      modifies this, p
      ensures Passed()
      ensures p.errors == old(p.errors) ==> IsClosed(p.tokens, old(p.pos), p.pos)
      ensures want.Some? ==> Took(|StmtText(want.value)|)
      decreases |p.tokens| - p.pos, 1
    {
      hide StmtText, Stands, Tokens, LineStart, IsClosed, EndsInNext, NextText, BlockText, BlockAt;
      ghost var start := p.pos;
      var name := ParseForHeader(want);
      ParseBlockUntil({KwNext}, if want.Some? then Some(want.value.body) else None);
      ParseNext(name, if want.Some? then Some(want.value.named) else None);
      ClosedByNext(p.tokens, start, p.pos);
    }

    method ParseForHeader(ghost want: Option<Stmt> := None) returns (name: string)
      requires p.Valid() && On(KwFor) && Has(want) && (want.Some? ==> want.value.For?)
      modifies p
      ensures Passed()
      ensures want.Some? ==>
                var (body, next) := (want.value.body, NextText(want.value.name, want.value.named));
                && name == want.value.name && p.errors == old(p.errors)
                && p.pos + |BlockText(body)| + |next| == old(p.pos) + |StmtText(want.value)|
                && BlockAt(p.tokens, p.pos, body, {KwNext})
                && Stands(p.tokens, p.pos + |BlockText(body)|, next)
    {
      hide StmtText, Stands, Tokens, LineStart, NextText, BlockText, BlockAt, StepText, ExprText, ExprAt;
      if want.Some? { ForStands(p.tokens, p.pos, want.value); }
      name := ParseCounter();
      var _ := Expression(if want.Some? then Some(want.value.start) else None);
      ParseRange(if want.Some? then Some((want.value.end, want.value.step)) else None);
    }

    /** `FOR`, the counter and `=`. */
    method ParseCounter() returns (name: string)
      requires p.Valid() && On(KwFor)
      modifies p
      ensures Forward() && old(p.pos) < p.pos
      ensures old(NameBefore(Equals)) ==> Took(3) && name == p.tokens[old(p.pos) + 1].text
    {
      hide Tokens, LineStart;
      var _ := Take();
      name := Expect(Identifier);
      var _ := Expect(Equals);
    }

    /** `TO`, the last value, `STEP` with its value if there is one, and the end of the line. */
    method ParseRange(ghost want: Option<(Expr, Option<Expr>)> := None)
      requires p.Valid()
      requires want.Some? ==>
                 var q := p.pos + 1 + |ExprText(want.value.0)|;
                 On(KwTo) && ExprAt(p.tokens, p.pos + 1, want.value.0) && Stands(p.tokens, q, StepText(want.value.1))
      modifies p
      ensures Forward() && LineStart(p.tokens, p.pos)
      ensures want.Some? ==> Took(1 + |ExprText(want.value.0)| + |StepText(want.value.1)|)
    {
      hide Tokens, LineStart, StepText, ExprText, ExprAt, AfterLine, IsBreak;
      ExpectWord(KwTo);
      var _ := Expression(if want.Some? then Some(want.value.0) else None);
      ParseStep(if want.Some? then Some(want.value.1) else None);
    }

    method ParseStep(ghost want: Option<Option<Expr>> := None)
      requires p.Valid() && (want.Some? ==> Stands(p.tokens, p.pos, StepText(want.value)))
      modifies p
      ensures Forward() && LineStart(p.tokens, p.pos) && (want.Some? ==> Took(|StepText(want.value)|))
    {
      hide Tokens, LineStart, StepText, ExprText, ExprAt, AfterLine, IsBreak;
      if want.Some? { StepParts(p.tokens, p.pos, want.value); }
      var stepped := MatchWord(KwStep);
      if stepped { var _ := Expression(if want.Some? then want.value else None); }
      ExpectStmtEnd();
    }

    /** `NEXT`, which may repeat the name of the loop variable. */
    method ParseNext(name: string, ghost want: Option<bool> := None)
      requires p.Valid() && (want.Some? ==> Stands(p.tokens, p.pos, NextText(name, want.value)))
      modifies p
      ensures Forward() && LineStart(p.tokens, p.pos)
      ensures p.errors == old(p.errors) ==> EndsInNext(p.tokens, p.pos)
      ensures want.Some? ==> Took(|NextText(name, want.value)|)
    {
      hide Tokens, LineStart, NextText, AfterLine, EndsIn;
      if want.Some? { NextParts(p.tokens, p.pos, name, want.value); }
      ExpectWord(KwNext);
      var named := ParseNextName(name);
      ghost var end := p.pos;
      ExpectStmtEnd();
      if p.errors == old(p.errors) {
        EndsHere(p.tokens, end, p.pos, if named then [Other(KwNext), Identifier] else [Other(KwNext)]);
      }
    }

    method ParseNextName(name: string) returns (named: bool)
      requires p.Valid()
      modifies p
      ensures Forward() && named == old(At(Identifier)) && p.pos == old(p.pos) + (if named then 1 else 0)
      ensures (named ==> p.tokens[old(p.pos)].text == name) <==> p.errors == old(p.errors)
    {
      hide Tokens;
      named := At(Identifier);
      if named {
        var t := Take();
        if t.text != name { Report(); }
      }
    }

    method ParseDo(ghost want: Option<Stmt> := None)
      requires p.Valid() && On(KwDo) && Has(want) && (want.Some? ==> want.value.Do?)
      modifies this, p
      ensures Passed()
      ensures p.errors == old(p.errors) ==> IsClosed(p.tokens, old(p.pos), p.pos)
      ensures want.Some? ==> Took(|StmtText(want.value)|)
      decreases |p.tokens| - p.pos, 1
    {
      hide StmtText, Stands, Tokens, LineStart, IsClosed, TestText, BlockText, BlockAt;
      ghost var start := p.pos;
      ghost var q, r: nat := 0, 0;
      if want.Some? {
        q, r := DoParts(p.tokens, p.pos, want.value);
        BlockStands(p.tokens, q, want.value.body, {KwLoop}, KwLoop);
      }
      var _ := Take();
      ParseLoopTest(if want.Some? then Some(want.value.pre) else None);
      ParseBlockUntil({KwLoop}, if want.Some? then Some(want.value.body) else None);
      ghost var close := p.pos;
      ExpectWord(KwLoop);
      ParseLoopTest(if want.Some? then Some(want.value.post) else None);
      ClosedByLoop(p.tokens, start, close, p.pos);
    }

    /** `WHILE` or `UNTIL` with a condition, if there is one, and the end of the line. */
    method ParseLoopTest(ghost want: Option<Option<Test>> := None)
      requires p.Valid() && (want.Some? ==> Stands(p.tokens, p.pos, TestText(want.value)))
      modifies p
      ensures Forward() && LineStart(p.tokens, p.pos) && (want.Some? ==> Took(|TestText(want.value)|))
    {
      hide Tokens, LineStart, TestText, ExprText, ExprAt, AfterLine, IsBreak, Stands;
      if want.Some? { TestParts(p.tokens, p.pos, want.value); }
      ParseTest(if want.Some? && want.value.Some? then Some(want.value.value.c) else None);
      ExpectStmtEnd();
    }

    method ParseTest(ghost want: Option<Expr> := None)
      requires p.Valid()
      requires want.Some? ==> (On(KwWhile) || On(KwUntil)) && ExprAt(p.tokens, p.pos + 1, want.value)
      modifies p
      ensures Forward() && (want.Some? ==> Took(1 + |ExprText(want.value)|))
      ensures !old(On(KwWhile)) && !old(On(KwUntil)) ==> Took(0)
    {
      hide Tokens, ExprText, ExprAt;
      if On(KwWhile) || On(KwUntil) {
        var _ := Take();
        var _ := Expression(want);
      }
    }

    method ParseWhile(ghost want: Option<Stmt> := None)
      requires p.Valid() && On(KwWhile) && Has(want) && (want.Some? ==> want.value.While?)
      modifies this, p
      ensures Passed() && (p.errors == old(p.errors) ==> IsClosed(p.tokens, old(p.pos), p.pos))
      ensures want.Some? ==> Took(|StmtText(want.value)|)
      decreases |p.tokens| - p.pos, 1
    {
      hide StmtText, Stands, Tokens, LineStart, IsClosed, EndsIn, BlockText, BlockAt, ExprText, ExprAt;
      ghost var start := p.pos;
      if want.Some? { WhileStands(p.tokens, p.pos, want.value); }
      var _ := Take();
      ParseExprLine(if want.Some? then Some(want.value.c) else None);
      ParseBlockUntil({KwWend}, if want.Some? then Some(want.value.body) else None);
      ParseWend();
      ClosedByWend(p.tokens, start, p.pos);
    }

    method ParseWend()
      requires p.Valid()
      modifies p
      ensures Forward() && LineStart(p.tokens, p.pos)
      ensures p.errors == old(p.errors) ==> EndsIn(p.tokens, p.pos, [Other(KwWend)])
      ensures old(p.pos + 1 < |p.tokens| && On(KwWend) && p.tokens[p.pos + 1].kind == Other(Newline)) ==> Took(2)
    {
      hide Tokens, LineStart, AfterLine, EndsIn;
      ExpectWord(KwWend);
      ghost var end := p.pos;
      ExpectStmtEnd();
      if p.errors == old(p.errors) { EndsHere(p.tokens, end, p.pos, [Other(KwWend)]); }
    }

    method ParseNamespaceDecl()
      requires p.Valid() && On(KwNamespace)
      modifies this, p
      ensures Passed()
      ensures p.errors == old(p.errors) ==> IsClosed(p.tokens, old(p.pos), p.pos)
      decreases |p.tokens| - p.pos, 1
    {
      ghost var start := p.pos;
      var _ := Take();
      var _ := Expect(Identifier);
      ExpectStmtEnd();
      ParseBlockUntil({KwEnd});
      ParseEnd(KwNamespace, start);
    }

    /** The name of a procedure: whether it is a TYPE's method, and its last part. */
    method ParseProcName(ghost want: Option<seq<Param>> := None) returns (isMethod: bool, name: string)
      requires p.Valid()
      requires want.Some? ==>
                 var q := p.pos + 2 + |ParamsText(want.value)|;
                 && q + 1 < |p.tokens| && At(Identifier) && p.tokens[p.pos + 1].kind == LParen
                 && ParamsAt(p.tokens, p.pos + 2, want.value) && p.tokens[q + 1].kind != Other(KwAsync)
      modifies p
      ensures Forward() && (want.Some? ==> Took(3 + |ParamsText(want.value)|) && !isMethod)
    {
      hide Tokens, ParamsText, ParamsAt;
      if want.Some? { ParamsStart(p.tokens, p.pos + 2, want.value); }
      isMethod, name := ParseQualifiedName();
      var _ := ParseParamList(want);
      var _ := MatchWord(KwAsync);
    }

    /** A name before a bracket that opens parameters. */
    predicate CalledHere()
      requires p.Valid()
      reads p
    {
      && p.pos + 2 < |p.tokens| && At(Identifier) && p.tokens[p.pos + 1].kind == LParen
      && p.tokens[p.pos + 2].kind != Other(KwOf)
    }

    /** A name or two with a dot between them, and what may stand before parameters. */
    method ParseQualifiedName() returns (isMethod: bool, name: string)
      requires p.Valid()
      modifies p
      ensures Forward()
      ensures old(CalledHere()) ==> Took(1) && !isMethod
    {
      hide Tokens;
      isMethod, name := ParseNameParts();
      ParseOptionalCallConv(isMethod);
      ParseOptionalTypeParams(isMethod);
    }

    method ParseNameParts() returns (isMethod: bool, name: string)
      requires p.Valid()
      modifies p
      ensures Forward()
      ensures old(p.pos + 1 < |p.tokens| && At(Identifier) && p.tokens[p.pos + 1].kind == LParen) ==>
                Took(1) && !isMethod
    {
      hide Tokens;
      name := Expect(Identifier);
      isMethod := Match(Dot);
      if isMethod { name := Expect(Identifier); }
    }

    method ParseSub(ghost want: Option<Stmt> := None) returns (isMethod: bool)
      requires p.Valid() && Opening(p.tokens, p.pos) == Other(KwSub)
      requires Has(want) && (want.Some? ==> want.value.Procedure? && want.value.result.None?)
      modifies this, p
      ensures Passed() && (p.errors == old(p.errors) ==> IsClosed(p.tokens, old(p.pos), p.pos))
      ensures want.Some? ==> Took(|StmtText(want.value)|)
      decreases |p.tokens| - p.pos, 1
    {
      hide StmtText, Stands, Tokens, LineStart, IsClosed, BlockText, BlockAt, EndsBlock, Opening;
      hide HeaderAt, HeaderLength;
      ghost var start := p.pos;
      if want.Some? { ProcedureStands(p.tokens, p.pos, want.value); }
      isMethod := ParseSubHeader(if want.Some? then Some(want.value.params) else None);
      ParseBlockUntil({KwEnd}, if want.Some? then Some(want.value.body) else None);
      ParseEnd(KwSub, start);
    }

    method ParseSubHeader(ghost want: Option<seq<Param>> := None) returns (isMethod: bool)
      requires p.Valid() && Opening(p.tokens, p.pos) == Other(KwSub)
      requires want.Some? ==> HeaderAt(p.tokens, p.pos, want.value, None)
      modifies p
      ensures Forward() && old(p.pos) < p.pos && (want.Some? ==> Took(HeaderLength(want.value, None)))
    {
      hide Tokens, LineStart, Opening, Stands, ParamsText, ParamsAt, ResultText;
      if want.Some? { ResultParts(p.tokens, p.pos + 4 + |ParamsText(want.value)|, None); }
      TakeProcWord(KwSub);
      var name: string;
      isMethod, name := ParseProcName(want);
      ParseHeaderEnd();
    }

    /** The word that says which procedure stands here, with VIRTUAL before it or not. */
    method TakeProcWord(w: Word)
      requires p.Valid() && Opening(p.tokens, p.pos) == Other(w) && w != KwVirtual
      modifies p
      ensures Forward() && old(p.pos) < p.pos && (old(On(w)) ==> Took(1))
    {
      var _ := MatchWord(KwVirtual);
      var _ := Take();
    }

    /** `OVERRIDE`, if it is there, and the end of the line. */
    method ParseHeaderEnd()
      requires p.Valid()
      modifies p
      ensures Forward() && LineStart(p.tokens, p.pos) && (old(On(Newline)) ==> Took(1))
    {
      hide Tokens, LineStart, AfterLine, IsBreak;
      var _ := MatchWord(KwOverride);
      ExpectStmtEnd();
    }

    method ParseFunction(ghost want: Option<Stmt> := None) returns (isMethod: bool)
      requires p.Valid() && Opening(p.tokens, p.pos) == Other(KwFunction)
      requires Has(want) && (want.Some? ==> want.value.Procedure? && want.value.result.Some?)
      modifies this, p
      ensures Passed() && (p.errors == old(p.errors) ==> IsClosed(p.tokens, old(p.pos), p.pos))
      ensures want.Some? ==> Took(|StmtText(want.value)|)
      decreases |p.tokens| - p.pos, 1
    {
      hide StmtText, Stands, Tokens, LineStart, IsClosed, BlockText, BlockAt, EndsBlock, Opening;
      hide HeaderAt, HeaderLength;
      ghost var start := p.pos;
      if want.Some? { ProcedureStands(p.tokens, p.pos, want.value); }
      var name: string;
      isMethod, name := ParseFunctionHeader(if want.Some? then Some((want.value.params, want.value.result)) else None);
      ParseBodyOf(name, if want.Some? then Some(want.value.body) else None);
      ParseEnd(KwFunction, start);
    }

    method ParseFunctionHeader(ghost want: Option<(seq<Param>, Option<Type>)> := None)
      returns (isMethod: bool, name: string)
      requires p.Valid() && Opening(p.tokens, p.pos) == Other(KwFunction)
      requires want.Some? ==> want.value.1.Some? && HeaderAt(p.tokens, p.pos, want.value.0, want.value.1)
      modifies p
      ensures Forward() && old(p.pos) < p.pos
      ensures want.Some? ==> Took(HeaderLength(want.value.0, want.value.1))
    {
      hide Tokens, LineStart, Opening, Stands, ParamsText, ParamsAt, ResultText, TypeText, TypeAt;
      if want.Some? { ResultParts(p.tokens, p.pos + 4 + |ParamsText(want.value.0)|, want.value.1); }
      TakeProcWord(KwFunction);
      isMethod, name := ParseProcName(if want.Some? then Some(want.value.0) else None);
      ParseAsType(if want.Some? then want.value.1 else None);
      ParseHeaderEnd();
    }

    /** A body in which assigning to `name` sets the result. */
    method ParseBodyOf(name: string, ghost want: Option<Block> := None)
      requires p.Valid() && (want.Some? ==> BlockAt(p.tokens, p.pos, want.value, {KwEnd}))
      modifies this, p
      ensures Forward() && currentFunction == old(currentFunction)
      ensures want.Some? ==> Took(|BlockText(want.value)|)
      decreases |p.tokens| - p.pos, 7
    {
      hide Tokens, LineStart, BlockText, BlockAt;
      var outer := currentFunction;
      currentFunction := LowerCase(name);
      ParseBlockUntil({KwEnd}, want);
      currentFunction := outer;
    }

    method ParseConstructor()
      requires p.Valid() && (On(KwConstructor) || On(KwDestructor))
      modifies this, p
      ensures Passed()
      ensures p.errors == old(p.errors) ==> IsClosed(p.tokens, old(p.pos), p.pos)
      decreases |p.tokens| - p.pos, 1
    {
      ghost var start := p.pos;
      var word := if On(KwConstructor) then KwConstructor else KwDestructor;
      var _ := Take();
      var _ := Expect(Identifier);
      ParseNoParams();
      ExpectStmtEnd();
      ParseBlockUntil({KwEnd});
      ParseEnd(word, start);
    }

    method ParsePropertyName() returns (name: string)
      requires p.Valid() && On(KwProperty)
      modifies p
      ensures Forward() && old(p.pos) < p.pos
    {
      hide Tokens;
      var _ := Take();
      var _ := Expect(Identifier);
      var _ := Expect(Dot);
      name := Expect(Identifier);
    }

    method ParseProperty()
      requires p.Valid() && On(KwProperty)
      modifies this, p
      ensures Passed() && (p.errors == old(p.errors) ==> IsClosed(p.tokens, old(p.pos), p.pos))
      decreases |p.tokens| - p.pos, 1
    {
      hide Tokens, LineStart, IsClosed, EndsBlock, BlockText, BlockAt, AfterLine, IsBreak;
      ghost var start := p.pos;
      var name := ParsePropertyName();
      var isGetter := ParsePropertySignature();
      ExpectStmtEnd();
      if isGetter { ParseBodyOf(name); } else { ParseBlockUntil({KwEnd}); }
      ParseEnd(KwProperty, start);
    }

    method ParseOperatorHeader()
      requires p.Valid() && On(KwOperator)
      modifies p
      ensures Forward() && old(p.pos) < p.pos
    {
      hide Tokens;
      var _ := Take();
      if OpLevel(p.tokens[p.pos].kind) != 0 { var _ := Take(); } else { Report(); }
      var count := ParseParamList();
      if count != 2 { Report(); }
      ParseAsType();
    }

    method ParseOperatorDecl()
      requires p.Valid() && On(KwOperator)
      modifies this, p
      ensures Passed() && (p.errors == old(p.errors) ==> IsClosed(p.tokens, old(p.pos), p.pos))
      decreases |p.tokens| - p.pos, 1
    {
      ghost var start := p.pos;
      ParseOperatorHeader();
      ExpectStmtEnd();
      ParseBlockUntil({KwEnd});
      ParseEnd(KwOperator, start);
    }

    /* ----- the module ----- */

    method ParseExternBlock()
      requires p.Valid() && On(KwExtern)
      modifies this, p
      ensures Passed()
      ensures p.errors == old(p.errors) ==> EndsWith(p.tokens, p.pos, Other(KwExtern))
    {
      var _ := Take();
      var linkage := ParseLinkage();
      SkipNewlines();
      while !On(KwEnd) && !At(End)
        invariant Forward() && old(p.pos) < p.pos && currentFunction == old(currentFunction)
        decreases |p.tokens| - p.pos
      {
        ParseExternItem(linkage);
        SkipNewlines();
      }
      ExpectEnd(KwExtern);
    }

    method ParseLinkage() returns (linkage: string)
      requires p.Valid()
      modifies p
      ensures Forward() && linkage in {"C", "C++"}
    {
      linkage := Expect(StringLiteral);
      if linkage != "C" && linkage != "C++" {
        Report();
        linkage := "C";
      }
      ParseClause(KwLib);
      ExpectStmtEnd();
    }

    method ParseExternItem(linkage: string)
      requires p.Valid() && !At(End)
      modifies this, p
      ensures Passed()
    {
      if On(KwNamespace) {
        ParseExternNamespace();
      } else if On(KwDeclare) {
        ParseExternDecl();
      } else if On(KwSub) || On(KwFunction) {
        ParseExternExportDef(linkage);
      } else {
        Report();
        Synchronize();
      }
    }

    method ParseExternExportDef(linkage: string)
      requires p.Valid() && (On(KwSub) || On(KwFunction))
      modifies this, p
      ensures Passed()
    {
      if linkage != "C" { Report(); }
      var isMethod: bool;
      if On(KwSub) { isMethod := ParseSub(); } else { isMethod := ParseFunction(); }
      if isMethod { Report(); }
    }

    /** After a wrong line no blank lines are skipped: each is passed over, and reported. */
    method ParseExternNamespace()
      requires p.Valid() && On(KwNamespace)
      modifies p
      ensures Passed()
      ensures p.errors == old(p.errors) ==> IsClosed(p.tokens, old(p.pos), p.pos)
    {
      ghost var start := p.pos;
      var _ := Take();
      var _ := Expect(Identifier);
      ParseClause(KwAlias);
      ExpectStmtEnd();
      SkipNewlines();
      while !On(KwEnd) && !At(End)
        invariant Forward() && old(p.pos) < p.pos
        decreases |p.tokens| - p.pos
      {
        if !On(KwDeclare) {
          Report();
          Synchronize();
        } else {
          ParseExternDecl();
          SkipNewlines();
        }
      }
      ParseEnd(KwNamespace, start);
    }

    /** An EXTERN block or a statement with the comments before it, and blank lines. */
    method ParseItem(ghost want: Option<Stmt> := None)
      requires p.Valid() && !At(End) && Has(want)
      requires want.Some? ==> !On(KwExtern) && !On(DocComment)
      modifies this, p
      ensures Forward() && old(p.pos) < p.pos && currentFunction == old(currentFunction)
      ensures want.Some? ==>
                var end := old(p.pos) + |StmtText(want.value)|;
                && end <= p.pos && p.errors == old(p.errors) && !On(Newline)
                && forall k :: end <= k < p.pos ==> p.tokens[k].kind == Other(Newline)
    {
      hide Tokens, LineStart, StmtText, IsClosed, EndsWith, Stands;
      var _ := CollectDocComment();
      if At(End) { return; }
      if On(KwExtern) {
        ParseExternBlock();
        SkipNewlines();
      } else {
        ParseStatementAndBlanks(want);
      }
    }

    /** Main result: every token list is parsed to its end, and one that is written
        as it should be without a report. */
    method ParseModule(ghost want: Option<Block> := None)
      requires p.Valid()
      requires want.Some? ==> p.pos == 0 && p.tokens == BlockText(want.value) + [Tok(End)]
      modifies this, p
      ensures Forward() && At(End) && p.pos == |p.tokens| - 1 && currentFunction == old(currentFunction)
      ensures want.Some? ==> p.errors == old(p.errors)
    {
      hide Tokens, LineStart, BlockText, StmtText, InModule, Stands;
      ghost var b := if want.Some? then want.value else Done(0);
      ghost var at: nat := 0;
      SkipNewlines();
      if want.Some? { ModuleStarts(p.tokens, b, p.pos); }
      while !At(End)
        invariant Forward() && currentFunction == old(currentFunction)
        invariant want.Some? ==> p.errors == old(p.errors) && InModule(p.tokens, at, b, p.pos)
        decreases |p.tokens| - p.pos
      {
        ghost var from := p.pos;
        if want.Some? { ModuleParts(p.tokens, at, b, from); }
        ParseItem(if want.Some? then Some(b.s) else None);
        if want.Some? { at, b := NextLine(p.tokens, at, b, from, p.pos); }
      }
      NotLast(p.tokens, p.pos);
    }
  }
}
