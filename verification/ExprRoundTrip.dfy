/** Parsing what the printer wrote gives the expression back. */
module ExprRoundTrip {
  import opened ExprSyntax
  import opened ExprParser
  import opened Spans

  /** The next token neither extends a primary nor is an operator of this level
      or a tighter one. */
  predicate Stops(k: Kind, level: int) {
    k != Dot && k != Arrow && k != LParen && OpLevel(k) < level
  }

  /** A left-associative level may be followed by its own operators. */
  function Bound(level: nat): nat { if LeftAssoc(level) then level + 1 else level }

  function Continue(toks: seq<Token>, level: nat, e: Expr, pos: nat): Parsed<Expr>
    requires Tokens(toks) && pos < |toks|
  {
    if LeftAssoc(level) then Loop(toks, level, Parsed(e, pos, 0)) else Parsed(e, pos, 0)
  }

  /** Tokens that can start an expression printed for a level. */
  predicate Starts(k: Kind, level: nat) {
    && k != RParen && k != End
    && (level > NOT ==> k != KwNot)
    && (level > NEGATE ==> k != Minus)
    && (level > UNARY ==> k != KwAwait && k != At && k != Star)
  }

  lemma {:induction false} PrintStarts(e: Expr, level: nat)
    ensures Print(e, level) != [] && Starts(Print(e, level)[0].kind, level)
    decreases e, 1
  {
    if Level(e) >= level { RawStarts(e); }
  }

  lemma {:induction false} RawStarts(e: Expr)
    ensures Raw(e) != [] && Starts(Raw(e)[0].kind, Level(e))
    decreases e, 0
  {
    match e
    case Member(obj, n) => if obj.Deref? { PrintStarts(obj.e, CHAIN); } else { PrintStarts(obj, CHAIN); }
    case MemberCall(obj, n, args) => if obj.Deref? { PrintStarts(obj.e, CHAIN); } else { PrintStarts(obj, CHAIN); }
    case Bin(op, l, r) => PrintStarts(l, LeftLevel(LevelOfOp(op)));
    case _ =>
  }

  /** From a tight level up to a looser one, when nothing in between applies. */
  lemma {:induction false} Ascend(toks: seq<Token>, level: nat, from: nat, pos: nat, e: Expr, end: nat)
    requires Tokens(toks) && pos < |toks| && end < |toks| && XOR <= level < from <= PRIMARY
    requires Parse(toks, from, pos) == Parsed(e, end, 0)
    requires Starts(toks[pos].kind, from) && Stops(toks[end].kind, Bound(level))
    ensures Parse(toks, level, pos) == Continue(toks, level, e, end)
    decreases from - level
  {
    hide Tokens, Parse, Continue, Stops, Starts;
    if level + 1 < from {
      StopsLater(toks[end].kind, level);
      Ascend(toks, level + 1, from, pos, e, end);
      ContinueEnds(toks, level + 1, e, end);
    }
    StartsEarlier(toks[pos].kind, level + 1, from);
    AscendOne(toks, level, pos, e, end);
  }

  lemma StopsLater(k: Kind, level: nat)
    requires Stops(k, Bound(level))
    ensures Stops(k, level + 1) && Stops(k, Bound(level + 1))
  {
    hide OpOf;
  }

  lemma StartsEarlier(k: Kind, level: nat, from: nat)
    requires Starts(k, from) && level <= from
    ensures Starts(k, level)
  {
  }

  lemma AscendOne(toks: seq<Token>, level: nat, pos: nat, e: Expr, end: nat)
    requires Tokens(toks) && pos < |toks| && end < |toks| && XOR <= level < PRIMARY
    requires Parse(toks, level + 1, pos) == Parsed(e, end, 0)
    requires Starts(toks[pos].kind, level + 1) && Stops(toks[end].kind, Bound(level))
    ensures Parse(toks, level, pos) == Continue(toks, level, e, end)
  {
    hide Tokens, Parse, Loop, OpOf;
    if LeftAssoc(level) || level == POW {
      LevelIsLoop(toks, level, pos);
      if level == POW { LoopStops(toks, level, Parsed(e, end, 0)); }
    } else {
      LevelIsNext(toks, level, pos);
    }
  }

  /** Main result: at every level, parsing the tokens printed for it yields the
      expression, all tokens used and nothing reported, up to operators of that
      level that may follow. */
  lemma {:induction false} ParsePrinted(toks: seq<Token>, e: Expr, level: nat, pos: nat)
    requires Tokens(toks) && XOR <= level <= PRIMARY && Stands(toks, pos, Print(e, level))
    requires Stops(toks[pos + |Print(e, level)|].kind, Bound(level))
    ensures Parse(toks, level, pos) == Continue(toks, level, e, pos + |Print(e, level)|)
    decreases e, if Level(e) < level then 10 else if Level(e) == level then 1 else if level < PRIMARY then 7 else 5
  {
    hide Parse, Loop, ParsePrimary, Chain, Tokens, Stands, Print, Raw, OpOf, Level, Stops;
    PrintShape(e, level);
    if Level(e) < level {
      BracketedPrinted(toks, e, level, pos);
    } else if Level(e) > level {
      LooserPrinted(toks, e, level, pos);
    } else if level == PRIMARY {
      LiteralPrinted(toks, e, pos);
    } else if e.Bin? {
      OperatorPrinted(toks, e, pos);
    } else {
      BoundOfPrefix(e);
      PrefixPrinted(toks, e, e.e, pos);
    }
  }

  lemma BoundOfPrefix(e: Expr)
    requires Level(e) < PRIMARY && !e.Bin?
    ensures Bound(Level(e)) == Level(e) && !LeftAssoc(Level(e))
  {
  }

  /** An expression of a looser level than the one it is printed for. */
  lemma {:induction false} BracketedPrinted(toks: seq<Token>, e: Expr, level: nat, pos: nat)
    requires Tokens(toks) && XOR <= level <= PRIMARY && Level(e) < level && Stands(toks, pos, Print(e, level))
    requires Stops(toks[pos + |Print(e, level)|].kind, Bound(level))
    ensures Parse(toks, level, pos) == Continue(toks, level, e, pos + |Print(e, level)|)
    decreases e, 9
  {
    hide Parse, Loop, ParsePrimary, Chain, Tokens, Stands, Print, Raw, OpOf, Level;
    PrintShape(e, level);
    var end := pos + |Raw(e)| + 2;
    First(toks, pos, [Tok(LParen)] + Raw(e) + [Tok(RParen)]);
    Parenthesized(toks, e, pos);
    ChainEnds(toks, Parsed(e, end, 0));
    PrimaryIs(toks, pos);
    if level < PRIMARY { Ascend(toks, level, PRIMARY, pos, e, end); }
  }

  /** An expression of a tighter level than the one it is printed for. */
  lemma {:induction false} LooserPrinted(toks: seq<Token>, e: Expr, level: nat, pos: nat)
    requires Tokens(toks) && XOR <= level <= PRIMARY && level < Level(e) && Stands(toks, pos, Print(e, level))
    requires Stops(toks[pos + |Print(e, level)|].kind, Bound(level))
    ensures Parse(toks, level, pos) == Continue(toks, level, e, pos + |Print(e, level)|)
    decreases e, if level < PRIMARY then 6 else 4
  {
    hide Parse, Loop, ParsePrimary, Chain, Tokens, Stands, Print, Raw, OpOf;
    var end := pos + |Print(e, level)|;
    PrintShape(e, level);
    RawStarts(e);
    First(toks, pos, Print(e, level));
    if level == PRIMARY {
      PrintShape(e, CHAIN);
      ChainPrinted(toks, e, pos);
      ChainEnds(toks, Parsed(e, end, 0));
      PrimaryIs(toks, pos);
    } else {
      var from := if Level(e) > PRIMARY then PRIMARY else Level(e);
      PrintShape(e, from);
      ParsePrinted(toks, e, from, pos);
      ContinueEnds(toks, from, e, end);
      Ascend(toks, level, from, pos, e, end);
    }
  }

  lemma PrintShape(e: Expr, level: nat)
    ensures Print(e, level) == if Level(e) < level then [Tok(LParen)] + Raw(e) + [Tok(RParen)] else Raw(e)
    ensures 0 < Level(e) <= CHAIN && (Level(e) == POW ==> e.Bin?)
    ensures Level(e) < PRIMARY && !e.Bin? ==>
              (e.Not? || e.Neg? || e.Deref? || e.AddressOf? || e.Await?) && IsPrefix(e, e.e)
    ensures e.Bin? <==> Level(e) == POW || LeftAssoc(Level(e))
  {
  }

  lemma ContinueEnds(toks: seq<Token>, level: nat, e: Expr, pos: nat)
    requires Tokens(toks) && pos < |toks| && Stops(toks[pos].kind, level)
    ensures Continue(toks, level, e, pos) == Parsed(e, pos, 0)
  {
  }

  lemma ChainEnds(toks: seq<Token>, base: Parsed<Expr>)
    requires Tokens(toks) && base.pos < |toks| && toks[base.pos].kind != Dot && toks[base.pos].kind != Arrow
    ensures Chain(toks, base) == base
  {
  }

  lemma LiteralPrinted(toks: seq<Token>, e: Expr, pos: nat)
    requires Tokens(toks) && Level(e) == PRIMARY && Stands(toks, pos, Raw(e))
    ensures Parse(toks, PRIMARY, pos) == Parsed(e, pos + 1, 0) && |Raw(e)| == 1
  {
    hide Parse, Loop, Chain, Tokens, Stands, ParseName, ParseGroup, Print, PrintArgs, OpOf, Level;
    LiteralKinds(e);
    First(toks, pos, Raw(e));
    PrimaryIs(toks, pos);
  }

  lemma LiteralKinds(e: Expr)
    requires Level(e) == PRIMARY
    ensures e.Int? || e.Double? || e.Str? || e.Bool?
  {
  }

  lemma {:induction false} Parenthesized(toks: seq<Token>, e: Expr, pos: nat)
    requires Tokens(toks) && Stands(toks, pos, [Tok(LParen)] + Raw(e) + [Tok(RParen)])
    ensures ParsePrimary(toks, pos) == Chain(toks, Parsed(e, pos + |Raw(e)| + 2, 0))
    decreases e, 8
  {
    hide Tokens, Parse, Loop, ParsePrimary, Chain, Stands, Print, Raw;
    PrintShape(e, XOR);
    var close := pos + 1 + |Raw(e)|;
    Bracketed(toks, pos, Tok(LParen), Raw(e), Tok(RParen));
    ParsePrinted(toks, e, XOR, pos + 1);
    ContinueEnds(toks, XOR, e, close);
    ParenthesesAround(toks, e, pos, close);
  }

  lemma ParenthesesAround(toks: seq<Token>, e: Expr, pos: nat, close: nat)
    requires Tokens(toks) && pos + 1 < |toks| && close + 1 < |toks|
    requires toks[pos].kind == LParen && toks[close].kind == RParen
    requires Parse(toks, XOR, pos + 1) == Parsed(e, close, 0)
    ensures ParsePrimary(toks, pos) == Chain(toks, Parsed(e, close + 1, 0))
  {
    hide Tokens, Parse, Chain;
  }

  predicate IsPrefix(e: Expr, x: Expr) {
    e == Not(x) || e == Neg(x) || e == Deref(x) || e == AddressOf(x) || e == Await(x)
  }

  lemma PrefixShape(e: Expr, x: Expr)
    requires IsPrefix(e, x)
    ensures XOR <= Level(e) <= PRIMARY && !LeftAssoc(Level(e)) && x < e
    ensures Raw(e) == [Raw(e)[0]] + Print(x, Level(e))
  {
  }

  lemma {:induction false} PrefixPrinted(toks: seq<Token>, e: Expr, x: Expr, pos: nat)
    requires Tokens(toks) && IsPrefix(e, x) && Stands(toks, pos, Raw(e))
    requires Stops(toks[pos + |Raw(e)|].kind, Level(e))
    ensures Parse(toks, Level(e), pos) == Parsed(e, pos + |Raw(e)|, 0)
    decreases e, 0
  {
    hide Tokens, Parse, Loop, ParsePrimary, Chain, Stands, Print, Raw, OpOf, Level, IsPrefix;
    PrefixShape(e, x);
    Split(toks, pos, [Raw(e)[0]], Print(x, Level(e)));
    First(toks, pos, Raw(e));
    ParsePrinted(toks, x, Level(e), pos + 1);
    PrefixStep(toks, e, x, pos, pos + |Raw(e)|);
  }

  lemma PrefixStep(toks: seq<Token>, e: Expr, x: Expr, pos: nat, end: nat)
    requires Tokens(toks) && pos + 1 < |toks| && end < |toks|
    requires IsPrefix(e, x)
    requires toks[pos] == Raw(e)[0] && Parse(toks, Level(e), pos + 1) == Parsed(x, end, 0)
    ensures Parse(toks, Level(e), pos) == Parsed(e, end, 0)
  {
    hide Tokens, Loop, ParsePrimary;
  }

  lemma OperatorShape(op: BinOp, l: Expr, r: Expr)
    ensures
      var level := LevelOfOp(op);
      && (level == POW || LeftAssoc(level)) && Level(Bin(op, l, r)) == level
      && OpOf(KindOf(op)) == (level, op) && Stops(KindOf(op), Bound(LeftLevel(level)))
      && XOR <= LeftLevel(level) <= PRIMARY && XOR <= RightLevel(level) <= PRIMARY
      && Raw(Bin(op, l, r)) == Print(l, LeftLevel(level)) + [Tok(KindOf(op))] + Print(r, RightLevel(level))
  {
  }

  lemma OnlyOperators(k: Kind)
    ensures OpLevel(k) != NEGATE && OpLevel(k) != NOT
  {
  }

  lemma {:induction false} OperatorPrinted(toks: seq<Token>, e: Expr, pos: nat)
    requires Tokens(toks) && e.Bin? && Stands(toks, pos, Raw(e))
    requires Stops(toks[pos + |Raw(e)|].kind, Bound(Level(e)))
    ensures Parse(toks, Level(e), pos) == Continue(toks, Level(e), e, pos + |Raw(e)|)
    decreases e, 0
  {
    hide Tokens, Parse, Loop, ParsePrimary, Chain, Stands, Print, Raw, OpOf, KindOf, LevelOfOp, Level;
    OperatorShape(e.op, e.l, e.r);
    var level := Level(e);
    var mid := pos + |Print(e.l, LeftLevel(level))|;
    var end := pos + |Raw(e)|;
    Separated(toks, pos, Print(e.l, LeftLevel(level)), Tok(KindOf(e.op)), Print(e.r, RightLevel(level)));
    ParsePrinted(toks, e.l, LeftLevel(level), pos);
    OnlyOperators(toks[end].kind);
    ParsePrinted(toks, e.r, RightLevel(level), mid + 1);
    ContinueEnds(toks, RightLevel(level), e.r, end);
    LevelIsLoop(toks, level, pos);
    LoopGoesOn(toks, level, Parsed(e.l, mid, 0), e.op);
    if level == POW { LoopStops(toks, level, Parsed(e, end, 0)); }
  }

  /** A primary that member accesses may follow. */
  lemma {:induction false} ChainPrinted(toks: seq<Token>, e: Expr, pos: nat)
    requires Tokens(toks) && Stands(toks, pos, Print(e, CHAIN))
    requires toks[pos + |Print(e, CHAIN)|].kind != LParen
    ensures ParsePrimary(toks, pos) == Chain(toks, Parsed(e, pos + |Print(e, CHAIN)|, 0))
    decreases e, if Level(e) < CHAIN then 9 else 3
  {
    hide Tokens, Parse, Loop, ParsePrimary, ParseArgs, ParseArgList, Chain, Stands, Print, Raw;
    PrintShape(e, CHAIN);
    if Level(e) < CHAIN {
      Parenthesized(toks, e, pos);
    } else if e.Member? || e.MemberCall? {
      MemberPrinted(toks, e, pos);
    } else if e.Call? {
      CallPrinted(toks, e, pos);
    } else {
      AtomPrinted(toks, e, pos);
    }
  }

  lemma AtomPrinted(toks: seq<Token>, e: Expr, pos: nat)
    requires Tokens(toks) && (e.Name? || e.This? || e.Base?) && Stands(toks, pos, Raw(e))
    requires toks[pos + |Raw(e)|].kind != LParen
    ensures ParsePrimary(toks, pos) == Chain(toks, Parsed(e, pos + |Raw(e)|, 0))
  {
    hide Tokens, Parse, ParseArgs, Chain;
    First(toks, pos, Raw(e));
  }

  lemma {:induction false} CallPrinted(toks: seq<Token>, e: Expr, pos: nat)
    requires Tokens(toks) && e.Call? && Stands(toks, pos, Raw(e))
    ensures ParsePrimary(toks, pos) == Chain(toks, Parsed(e, pos + |Raw(e)|, 0))
    decreases e, 0
  {
    hide Tokens, Parse, ParsePrimary, ParseArgs, Chain, Stands, Raw, PrintArgs;
    CallShape(e);
    Separated(toks, pos, [], Token(Identifier, e.name), [Tok(LParen)] + PrintArgs(e.args) + [Tok(RParen)]);
    CallTokens(toks, pos + 1, e.args);
    ArgsPrinted(toks, e.args, pos + 2);
    CallStep(toks, e, pos, pos + |Raw(e)|);
  }

  lemma CallStep(toks: seq<Token>, e: Expr, pos: nat, end: nat)
    requires Tokens(toks) && e.Call? && pos + 2 < |toks|
    requires toks[pos] == Token(Identifier, e.name) && toks[pos + 1].kind == LParen
    requires ParseArgs(toks, pos + 2) == Parsed(e.args, end, 0)
    ensures ParsePrimary(toks, pos) == Chain(toks, Parsed(e, end, 0))
  {
    hide Tokens, Parse, ParseArgs, Chain;
  }

  lemma CallShape(e: Expr)
    requires e.Call?
    ensures Raw(e) == [] + [Token(Identifier, e.name)] + ([Tok(LParen)] + PrintArgs(e.args) + [Tok(RParen)])
  {
  }

  lemma CallTokens(toks: seq<Token>, pos: nat, args: Args)
    requires Stands(toks, pos, [Tok(LParen)] + PrintArgs(args) + [Tok(RParen)])
    ensures pos + 1 < |toks| && toks[pos] == Tok(LParen)
    ensures Stands(toks, pos + 1, PrintArgs(args) + [Tok(RParen)])
  {
    var rest := PrintArgs(args) + [Tok(RParen)];
    assert [Tok(LParen)] + PrintArgs(args) + [Tok(RParen)] == [] + [Tok(LParen)] + rest;
    Separated(toks, pos, [], Tok(LParen), rest);
  }

  /** The object of a member access as printed: `p->f` stands for `(*p).f`. */
  function Object(e: Expr): Expr
    requires e.Member? || e.MemberCall?
  {
    if e.obj.Deref? then e.obj.e else e.obj
  }

  function CallSuffix(e: Expr): seq<Token> {
    if e.MemberCall? then [Tok(LParen)] + PrintArgs(e.args) + [Tok(RParen)] else []
  }

  lemma MemberShape(e: Expr)
    requires e.Member? || e.MemberCall?
    ensures Raw(e) == Print(Object(e), CHAIN) + [Tok(if e.obj.Deref? then Arrow else Dot)]
                    + ([] + [Token(Identifier, e.name)] + CallSuffix(e))
  {
    var t := Tok(if e.obj.Deref? then Arrow else Dot);
    Regroup(Print(Object(e), CHAIN), t, Token(Identifier, e.name), CallSuffix(e));
  }

  lemma Regroup(a: seq<Token>, t: Token, f: Token, c: seq<Token>)
    ensures a + [t, f] + c == a + [t] + ([] + [f] + c)
  {
  }

  lemma ArgsShape(args: Args)
    requires args.Arg?
    ensures PrintArgs(args) == if args.rest.Arg? then Print(args.e, XOR) + [Tok(Comma)] + PrintArgs(args.rest)
                               else Print(args.e, XOR)
  {
  }

  lemma MemberTokens(toks: seq<Token>, e: Expr, pos: nat)
    requires (e.Member? || e.MemberCall?) && Stands(toks, pos, Raw(e))
    ensures
      var dot := pos + |Print(Object(e), CHAIN)|;
      && Stands(toks, pos, Print(Object(e), CHAIN))
      && pos + |Raw(e)| == dot + 2 + |CallSuffix(e)| < |toks|
      && toks[dot].kind == (if e.obj.Deref? then Arrow else Dot)
      && toks[dot + 1] == Token(Identifier, e.name)
      && Stands(toks, dot + 2, CallSuffix(e))
  {
    hide Stands, Print, Raw, PrintArgs;
    MemberShape(e);
    var obj := Print(Object(e), CHAIN);
    var field := Token(Identifier, e.name);
    Separated(toks, pos, obj, Tok(if e.obj.Deref? then Arrow else Dot), [] + [field] + CallSuffix(e));
    Separated(toks, pos + |obj| + 1, [], field, CallSuffix(e));
  }

  lemma MemberChain(toks: seq<Token>, e: Expr, dot: nat, end: nat)
    requires Tokens(toks) && (e.Member? || e.MemberCall?) && dot + 2 < |toks| && end < |toks|
    requires toks[dot].kind == (if e.obj.Deref? then Arrow else Dot)
    requires toks[dot + 1] == Token(Identifier, e.name)
    requires e.Member? ==> end == dot + 2 && toks[end].kind != LParen
    requires e.MemberCall? ==> toks[dot + 2].kind == LParen && dot + 3 < |toks|
    requires e.MemberCall? ==> ParseArgs(toks, dot + 3) == Parsed(e.args, end, 0)
    ensures Chain(toks, Parsed(Object(e), dot, 0)) == Chain(toks, Parsed(e, end, 0))
  {
    hide Tokens, ParseArgs, Chain;
    ChainStep(toks, Parsed(Object(e), dot, 0));
  }

  lemma {:induction false} MemberPrinted(toks: seq<Token>, e: Expr, pos: nat)
    requires Tokens(toks) && (e.Member? || e.MemberCall?) && Stands(toks, pos, Raw(e))
    requires toks[pos + |Raw(e)|].kind != LParen
    ensures ParsePrimary(toks, pos) == Chain(toks, Parsed(e, pos + |Raw(e)|, 0))
    decreases e, 0
  {
    hide Tokens, Parse, Loop, ParsePrimary, ParseArgs, ParseArgList, Chain, Stands, Print, Raw, PrintArgs, OpOf, OpLevel;
    hide Level;
    MemberTokens(toks, e, pos);
    var dot := pos + |Print(Object(e), CHAIN)|;
    ChainPrinted(toks, Object(e), pos);
    if e.MemberCall? {
      CallTokens(toks, dot + 2, e.args);
      ArgsPrinted(toks, e.args, dot + 3);
    }
    MemberChain(toks, e, dot, pos + |Raw(e)|);
  }

  lemma {:induction false} ArgsPrinted(toks: seq<Token>, args: Args, pos: nat)
    requires Tokens(toks) && Stands(toks, pos, PrintArgs(args) + [Tok(RParen)])
    ensures ParseArgs(toks, pos) == Parsed(args, pos + |PrintArgs(args)| + 1, 0)
    decreases args, 1
  {
    hide Tokens, ParseArgs, ParseArgList, Stands, Print, PrintArgs;
    Split(toks, pos, PrintArgs(args), [Tok(RParen)]);
    var close := pos + |PrintArgs(args)|;
    First(toks, close, [Tok(RParen)]);
    if args.Arg? {
      ArgsStart(toks, args, pos);
      ArgListPrinted(toks, args, pos);
    } else {
      assert PrintArgs(args) == [] by { NoArgsShape(); }
    }
    ArgsStep(toks, args, pos, close);
  }

  lemma NoArgsShape()
    ensures PrintArgs(NoArgs) == []
  {
  }

  lemma ArgsStart(toks: seq<Token>, args: Args, pos: nat)
    requires args.Arg? && Stands(toks, pos, PrintArgs(args))
    ensures pos < |toks| && toks[pos].kind != RParen
  {
    PrintStarts(args.e, XOR);
    First(toks, pos, PrintArgs(args));
  }

  lemma ArgsStep(toks: seq<Token>, args: Args, pos: nat, close: nat)
    requires Tokens(toks) && pos < |toks| && close + 1 < |toks| && toks[close].kind == RParen
    requires args.NoArgs? ==> close == pos
    requires args.Arg? ==> toks[pos].kind != RParen && ParseArgList(toks, pos) == Parsed(args, close, 0)
    ensures ParseArgs(toks, pos) == Parsed(args, close + 1, 0)
  {
    hide Tokens, ParseArgList;
  }

  lemma ArgListStep(toks: seq<Token>, args: Args, pos: nat, mid: nat, end: nat)
    requires Tokens(toks) && args.Arg? && pos < |toks| && mid < |toks| && end < |toks|
    requires Parse(toks, XOR, pos) == Parsed(args.e, mid, 0)
    requires args.rest.NoArgs? ==> toks[mid].kind != Comma && end == mid
    requires args.rest.Arg? ==> toks[mid].kind == Comma && mid + 1 < |toks|
    requires args.rest.Arg? ==> ParseArgList(toks, mid + 1) == Parsed(args.rest, end, 0)
    ensures ParseArgList(toks, pos) == Parsed(args, end, 0)
  {
    hide Tokens, Parse;
  }

  lemma {:induction false} ArgListPrinted(toks: seq<Token>, args: Args, pos: nat)
    requires Tokens(toks) && args.Arg? && Stands(toks, pos, PrintArgs(args))
    requires toks[pos + |PrintArgs(args)|].kind == RParen
    ensures ParseArgList(toks, pos) == Parsed(args, pos + |PrintArgs(args)|, 0)
    decreases args, 0
  {
    hide Tokens, Parse, ParseArgList, Loop, Stands, Print, PrintArgs;
    ArgsShape(args);
    var mid := pos + |Print(args.e, XOR)|;
    var end := pos + |PrintArgs(args)|;
    if args.rest.Arg? {
      Separated(toks, pos, Print(args.e, XOR), Tok(Comma), PrintArgs(args.rest));
      ArgListPrinted(toks, args.rest, mid + 1);
    }
    ParsePrinted(toks, args.e, XOR, pos);
    ContinueEnds(toks, XOR, args.e, mid);
    ArgListStep(toks, args, pos, mid, end);
  }

  ghost predicate NoEnd(s: seq<Token>) { forall i :: 0 <= i < |s| ==> s[i].kind != End }

  lemma {:induction false} PrintNoEnd(e: Expr, level: nat)
    ensures NoEnd(Print(e, level))
    decreases e, 1
  {
    RawNoEnd(e);
  }

  lemma {:induction false} RawNoEnd(e: Expr)
    ensures NoEnd(Raw(e))
    decreases e, 0
  {
    hide Print, PrintArgs, OpOf;
    match e
    case Call(_, args) => ArgsNoEnd(args);
    case Member(obj, _) => PrintNoEnd(if obj.Deref? then obj.e else obj, CHAIN);
    case MemberCall(obj, _, args) =>
      PrintNoEnd(if obj.Deref? then obj.e else obj, CHAIN);
      ArgsNoEnd(args);
    case Bin(op, l, r) =>
      PrintNoEnd(l, LeftLevel(LevelOfOp(op)));
      PrintNoEnd(r, RightLevel(LevelOfOp(op)));
    case Deref(x) => PrintNoEnd(x, UNARY);
    case AddressOf(x) => PrintNoEnd(x, UNARY);
    case Await(x) => PrintNoEnd(x, UNARY);
    case Neg(x) => PrintNoEnd(x, NEGATE);
    case Not(x) => PrintNoEnd(x, NOT);
    case _ =>
  }

  lemma {:induction false} ArgsNoEnd(args: Args)
    ensures NoEnd(PrintArgs(args))
    decreases args, 0
  {
    if args.Arg? {
      PrintNoEnd(args.e, XOR);
      ArgsNoEnd(args.rest);
    }
  }

  /** Main result: parsing a printed expression, followed by the end of input,
      returns it, uses all tokens, and reports nothing. */
  lemma RoundTrip(e: Expr)
    ensures var toks := Print(e, XOR) + [Tok(End)];
            Tokens(toks) && Parse(toks, XOR, 0) == Parsed(e, |toks| - 1, 0)
  {
    hide Parse, Loop, ParsePrimary, Chain, Print, Raw;
    var toks := Print(e, XOR) + [Tok(End)];
    PrintNoEnd(e, XOR);
    assert Stands(toks, 0, Print(e, XOR));
    ParsePrinted(toks, e, XOR, 0);
    ContinueEnds(toks, XOR, e, |toks| - 1);
  }

  /** No two expressions print alike, although parentheses are left out. */
  lemma PrintIsUnambiguous(a: Expr, b: Expr)
    requires Print(a, XOR) == Print(b, XOR)
    ensures a == b
  {
    RoundTrip(a);
    RoundTrip(b);
  }
}
