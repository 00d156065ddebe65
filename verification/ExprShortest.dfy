/** The printer writes the fewest tokens, and so the fewest parentheses. */
module ExprShortest {
  import opened ExprSyntax
  import opened ExprParser
  import opened ExprRoundTrip

  /** A token that the level takes as a prefix operator. */
  predicate HasPrefix(level: nat, k: Kind) {
    || (level == NOT && k == KwNot)
    || (level == NEGATE && k == Minus)
    || (level == UNARY && (k == KwAwait || k == At || k == Star))
  }

  /** Error-free, the result used at least as many tokens from `start` as the
      printer writes for that level. */
  ghost predicate NoShorter(start: nat, r: Parsed<Expr>, level: nat) {
    r.errs == 0 ==> r.pos >= start + |Print(r.v, level)|
  }

  lemma PrintSize(e: Expr, level: nat)
    ensures |Print(e, level)| == |Raw(e)| + if Level(e) < level then 2 else 0
  {
  }

  lemma PrefixIs(toks: seq<Token>, level: nat, pos: nat)
    requires Tokens(toks) && pos < |toks| && HasPrefix(level, toks[pos].kind)
    ensures pos + 1 < |toks| && XOR <= level <= PRIMARY
    ensures
      var (r, inner) := (Parse(toks, level, pos), Parse(toks, level, pos + 1));
      r.pos == inner.pos && r.errs == inner.errs && IsPrefix(r.v, inner.v) && Level(r.v) == level
  {
    hide Loop, ParsePrimary;
  }

  lemma NoPrefixIsNext(toks: seq<Token>, level: nat, pos: nat)
    requires Tokens(toks) && pos < |toks| && (level == NOT || level == NEGATE || level == UNARY)
    requires !HasPrefix(level, toks[pos].kind)
    ensures Parse(toks, level, pos) == Parse(toks, level + 1, pos)
  {
    hide Loop, ParsePrimary;
  }

  lemma {:induction false} LoopEnds(toks: seq<Token>, level: nat, left: Parsed<Expr>)
    requires Tokens(toks) && left.pos < |toks| && (LeftAssoc(level) || level == POW)
    ensures OpLevel(toks[Loop(toks, level, left).pos].kind) != level
    decreases |toks| - left.pos
  {
    hide Parse, Loop, OpOf;
    if OpLevel(toks[left.pos].kind) == level {
      var op := OpOf(toks[left.pos].kind).1;
      LoopGoesOn(toks, level, left, op);
      var right := Parse(toks, RightLevel(level), left.pos + 1);
      LoopEnds(toks, level, Parsed(Bin(op, left.v, right.v), right.pos, left.errs + right.errs));
    } else {
      LoopStops(toks, level, left);
    }
  }

  /** No caret follows the right operand of one, which has taken it. */
  lemma {:induction false} NoCaretLeft(toks: seq<Token>, pos: nat)
    requires Tokens(toks) && pos < |toks|
    ensures OpLevel(toks[Parse(toks, NEGATE, pos).pos].kind) != POW
    decreases |toks| - pos
  {
    hide Tokens, Parse, Loop, OpOf;
    if HasPrefix(NEGATE, toks[pos].kind) {
      PrefixIs(toks, NEGATE, pos);
      NoCaretLeft(toks, pos + 1);
    } else {
      NoPrefixIsNext(toks, NEGATE, pos);
      LevelIsLoop(toks, POW, pos);
      LoopEnds(toks, POW, Parse(toks, UNARY, pos));
    }
  }

  /** Main result: whatever tokens parse to an expression without an error, they
      are no fewer than those the printer writes for it. */
  lemma {:induction false} ParseIsNoShorter(toks: seq<Token>, level: nat, pos: nat)
    requires Tokens(toks) && pos < |toks| && XOR <= level <= PRIMARY
    ensures NoShorter(pos, Parse(toks, level, pos), level)
    decreases |toks| - pos, 20 - level, 1
  {
    hide Tokens, Parse, Loop, ParsePrimary, Print, Raw, Level, OpOf;
    if HasPrefix(level, toks[pos].kind) {
      PrefixIs(toks, level, pos);
      ParseIsNoShorter(toks, level, pos + 1);
      var (r, inner) := (Parse(toks, level, pos), Parse(toks, level, pos + 1));
      PrefixShape(r.v, inner.v);
      PrintSize(r.v, level);
    } else if level == PRIMARY {
      PrimaryIs(toks, pos);
      PrimaryIsNoShorter(toks, pos);
    } else {
      var left := Parse(toks, level + 1, pos);
      ParseIsNoShorter(toks, level + 1, pos);
      PrintSize(left.v, level);
      PrintSize(left.v, level + 1);
      if LeftAssoc(level) || level == POW {
        LevelIsLoop(toks, level, pos);
        LoopIsNoShorter(toks, level, pos, left);
      } else {
        NoPrefixIsNext(toks, level, pos);
      }
    }
  }

  lemma {:induction false} LoopIsNoShorter(toks: seq<Token>, level: nat, start: nat, left: Parsed<Expr>)
    requires Tokens(toks) && left.pos < |toks| && (LeftAssoc(level) || level == POW)
    requires NoShorter(start, left, LeftLevel(level))
    ensures NoShorter(start, Loop(toks, level, left), level)
    decreases |toks| - left.pos, 20 - level, 0
  {
    hide Tokens, Parse, Loop, Print, Raw, Level, OpOf, KindOf, LevelOfOp;
    var k := toks[left.pos].kind;
    if OpLevel(k) == level {
      var op := OpOf(k).1;
      LoopGoesOn(toks, level, left, op);
      var right := Parse(toks, RightLevel(level), left.pos + 1);
      ParseIsNoShorter(toks, RightLevel(level), left.pos + 1);
      var both := Parsed(Bin(op, left.v, right.v), right.pos, left.errs + right.errs);
      OperatorIs(k);
      OperatorShape(op, left.v, right.v);
      PrintSize(both.v, level);
      if level == POW {
        NoCaretLeft(toks, left.pos + 1);
        LoopStops(toks, level, both);
      } else {
        LoopIsNoShorter(toks, level, start, both);
      }
    } else {
      LoopStops(toks, level, left);
      PrintSize(left.v, level);
      PrintSize(left.v, LeftLevel(level));
    }
  }

  lemma OperatorIs(k: Kind)
    requires OpLevel(k) != 0
    ensures KindOf(OpOf(k).1) == k && LevelOfOp(OpOf(k).1) == OpLevel(k)
  {
  }

  lemma {:induction false} PrimaryIsNoShorter(toks: seq<Token>, pos: nat)
    requires Tokens(toks) && pos < |toks|
    ensures NoShorter(pos, ParsePrimary(toks, pos), PRIMARY)
    decreases |toks| - pos, 20 - PRIMARY, 0
  {
    hide Tokens, Parse, ParseName, ParseGroup, Chain;
    NotLast(toks, pos);
    var t := toks[pos];
    match t.kind
    case Identifier => NameIsNoShorter(toks, pos, t.text);
    case KwThis => ChainIsNoShorter(toks, pos, Parsed(This, pos + 1, 0));
    case KwBase => ChainIsNoShorter(toks, pos, Parsed(Base, pos + 1, 0));
    case LParen => GroupIsNoShorter(toks, pos);
    case IntLiteral => LiteralSize(Int(t.text));
    case DoubleLiteral => LiteralSize(Double(t.text));
    case StringLiteral => LiteralSize(Str(t.text));
    case KwTrue => LiteralSize(Bool(true));
    case KwFalse => LiteralSize(Bool(false));
    case _ =>
  }

  lemma LiteralSize(e: Expr)
    requires Level(e) == PRIMARY
    ensures |Print(e, PRIMARY)| == 1
  {
    LiteralKinds(e);
  }

  lemma {:induction false} NameIsNoShorter(toks: seq<Token>, pos: nat, name: string)
    requires Tokens(toks) && pos + 1 < |toks|
    ensures NoShorter(pos, ParseName(toks, name, pos + 1), PRIMARY)
    decreases |toks| - pos - 1, 22
  {
    hide Tokens, ParseArgs, Chain;
    if Is(toks, pos + 1, LParen) {
      NotLast(toks, pos + 1);
      var args := ParseArgs(toks, pos + 2);
      ArgsAreNoShorter(toks, pos + 2);
      CallSize(name, args.v);
      ChainIsNoShorter(toks, pos, Parsed(Call(name, args.v), args.pos, args.errs));
    } else {
      NameSize(name);
      ChainIsNoShorter(toks, pos, Parsed(Name(name), pos + 1, 0));
    }
  }

  lemma NameSize(name: string)
    ensures |Print(Name(name), CHAIN)| == 1
  {
  }

  lemma CallSize(name: string, args: Args)
    ensures |Print(Call(name, args), CHAIN)| == |PrintArgs(args)| + 3
  {
    hide PrintArgs;
  }

  lemma {:induction false} GroupIsNoShorter(toks: seq<Token>, pos: nat)
    requires Tokens(toks) && pos + 1 < |toks|
    ensures NoShorter(pos, ParseGroup(toks, pos + 1), PRIMARY)
    decreases |toks| - pos - 1, 22
  {
    hide Tokens, Parse, Chain, Print, Raw;
    ParseIsNoShorter(toks, XOR, pos + 1);
    var inner := Parse(toks, XOR, pos + 1);
    var close := Expect(toks, inner.pos, RParen);
    NotLast(toks, inner.pos);
    PrintSize(inner.v, XOR);
    PrintSize(inner.v, CHAIN);
    ChainIsNoShorter(toks, pos, Parsed(inner.v, close.pos, inner.errs + close.errs));
  }

  lemma {:induction false} ChainIsNoShorter(toks: seq<Token>, start: nat, base: Parsed<Expr>)
    requires Tokens(toks) && base.pos < |toks| && NoShorter(start, base, CHAIN)
    ensures NoShorter(start, Chain(toks, base), PRIMARY)
    decreases |toks| - base.pos, 20 - PRIMARY, 0
  {
    hide Tokens, Chain, MemberStep, Print, Raw, Level;
    var k := toks[base.pos].kind;
    ChainStep(toks, base);
    if k == Dot || k == Arrow {
      NotLast(toks, base.pos);
      var obj := Parsed(if k == Arrow then Deref(base.v) else base.v, base.pos + 1, 0);
      var r := MemberStep(toks, obj);
      MemberIsNoShorter(toks, obj);
      if r.errs == 0 {
        MemberCost(r.v, base.v);
        PrintSize(r.v, CHAIN);
      }
      ChainIsNoShorter(toks, start, r.(errs := base.errs + r.errs));
    } else {
      PrintSize(base.v, PRIMARY);
      PrintSize(base.v, CHAIN);
    }
  }

  /** A member of `base`, or of what it points to, after a dot or an arrow. */
  lemma MemberCost(e: Expr, base: Expr)
    requires (e.Member? || e.MemberCall?) && (e.obj == base || e.obj == Deref(base))
    ensures Level(e) == CHAIN && |Raw(e)| <= |Print(base, CHAIN)| + 2 + |CallSuffix(e)|
  {
    hide Print, Raw, PrintArgs;
    MemberShape(e);
    var inner := Object(e);
    if inner != base {
      PrintSize(inner, CHAIN);
      PrintSize(inner, UNARY);
      PrintSize(base, CHAIN);
      PrefixShape(base, inner);
    }
  }

  lemma {:induction false} MemberIsNoShorter(toks: seq<Token>, obj: Parsed<Expr>)
    requires Tokens(toks) && obj.pos < |toks| && obj.errs == 0
    ensures
      var r := MemberStep(toks, obj);
      r.errs == 0 ==>
        (r.v.Member? || r.v.MemberCall?) && r.v.obj == obj.v && r.pos >= obj.pos + 1 + |CallSuffix(r.v)|
    decreases |toks| - obj.pos, 21
  {
    hide Tokens, ParseArgs, PrintArgs;
    NotLast(toks, obj.pos);
    var field := Expect(toks, obj.pos, Identifier);
    if Is(toks, field.pos, LParen) {
      NotLast(toks, field.pos);
      ArgsAreNoShorter(toks, field.pos + 1);
    }
  }

  lemma {:induction false} ArgsAreNoShorter(toks: seq<Token>, pos: nat)
    requires Tokens(toks) && pos < |toks|
    ensures var r := ParseArgs(toks, pos); r.errs == 0 ==> r.pos >= pos + |PrintArgs(r.v)| + 1
    decreases |toks| - pos, 20, 1
  {
    hide Tokens, ParseArgList;
    if !Is(toks, pos, RParen) {
      ArgListIsNoShorter(toks, pos);
      NotLast(toks, ParseArgList(toks, pos).pos);
    } else {
      NotLast(toks, pos);
    }
  }

  lemma {:induction false} ArgListIsNoShorter(toks: seq<Token>, pos: nat)
    requires Tokens(toks) && pos < |toks|
    ensures var r := ParseArgList(toks, pos); r.v.Arg? && (r.errs == 0 ==> r.pos >= pos + |PrintArgs(r.v)|)
    decreases |toks| - pos, 20, 0
  {
    hide Tokens, Parse, Print;
    ParseIsNoShorter(toks, XOR, pos);
    var e := Parse(toks, XOR, pos);
    if Is(toks, e.pos, Comma) {
      NotLast(toks, e.pos);
      ArgListIsNoShorter(toks, e.pos + 1);
    }
  }

  /** So no tokens for an expression are fewer than the printed ones, which parse to it. */
  lemma PrintIsShortest(e: Expr, toks: seq<Token>, end: nat)
    requires Tokens(toks) && Parse(toks, XOR, 0) == Parsed(e, end, 0)
    ensures end >= |Print(e, XOR)|
    ensures var printed := Print(e, XOR) + [Tok(End)];
            Tokens(printed) && Parse(printed, XOR, 0) == Parsed(e, |Print(e, XOR)|, 0)
  {
    hide Parse, Print;
    ParseIsNoShorter(toks, XOR, 0);
    RoundTrip(e);
  }
}
