/** The recursive-descent expression parser: what each grammar level yields at a
    position, and the parser that moves a position and collects errors. */
module ExprParser {
  import opened ExprSyntax

  /** Token lists end with the only `End` token, as the lexer makes them. */
  predicate Tokens(toks: seq<Token>) {
    |toks| > 0 && forall i :: 0 <= i < |toks| ==> (toks[i].kind == End <==> i == |toks| - 1)
  }

  /** A parsed value, the position after it, and the number of errors reported. */
  datatype Parsed<T> = Parsed(v: T, pos: nat, errs: nat)

  function Next(toks: seq<Token>, pos: nat): nat { if pos + 1 < |toks| then pos + 1 else pos }

  predicate Is(toks: seq<Token>, pos: nat, k: Kind)
    requires pos < |toks|
  {
    toks[pos].kind == k
  }

  /** `expect` consumes the token it wants and reports anything else in place. */
  function Expect(toks: seq<Token>, pos: nat, k: Kind): (r: Parsed<string>)
    requires pos < |toks|
  {
    if Is(toks, pos, k) then Parsed(toks[pos].text, Next(toks, pos), 0) else Parsed(toks[pos].text, pos, 1)
  }

  /** Every parse ends within the tokens, and passes over at least one token
      unless it stands at the end. */
  predicate Moves<T>(toks: seq<Token>, pos: nat, r: Parsed<T>)
    requires pos < |toks|
  {
    pos <= r.pos < |toks| && (toks[pos].kind != End ==> pos < r.pos)
  }

  function Parse(toks: seq<Token>, level: nat, pos: nat): (r: Parsed<Expr>)
    requires Tokens(toks) && pos < |toks| && XOR <= level <= PRIMARY
    ensures Moves(toks, pos, r)
    decreases |toks| - pos, 20 - level, 1
  {
    if level == NOT && Is(toks, pos, KwNot) then Wrap(Parse(toks, NOT, pos + 1), (e: Expr) => Not(e))
    else if level == NEGATE && Is(toks, pos, Minus) then Wrap(Parse(toks, NEGATE, pos + 1), (e: Expr) => Neg(e))
    else if level == UNARY && Is(toks, pos, KwAwait) then Wrap(Parse(toks, UNARY, pos + 1), (e: Expr) => Await(e))
    else if level == UNARY && Is(toks, pos, At) then Wrap(Parse(toks, UNARY, pos + 1), (e: Expr) => AddressOf(e))
    else if level == UNARY && Is(toks, pos, Star) then Wrap(Parse(toks, UNARY, pos + 1), (e: Expr) => Deref(e))
    else if level == PRIMARY then ParsePrimary(toks, pos)
    else
      var left := Parse(toks, level + 1, pos);
      if LeftAssoc(level) || level == POW then Loop(toks, level, left) else left
  }

  function Wrap(r: Parsed<Expr>, f: Expr -> Expr): Parsed<Expr> { r.(v := f(r.v)) }

  /** The loop of a binary level: operators of that level, each with a right operand. */
  function Loop(toks: seq<Token>, level: nat, left: Parsed<Expr>): (r: Parsed<Expr>)
    requires Tokens(toks) && left.pos < |toks| && (LeftAssoc(level) || level == POW)
    ensures left.pos <= r.pos < |toks|
    decreases |toks| - left.pos, 20 - level, 0
  {
    var k := toks[left.pos].kind;
    if OpLevel(k) == level then
      var right := Parse(toks, RightLevel(level), left.pos + 1);
      Loop(toks, level, Parsed(Bin(OpOf(k).1, left.v, right.v), right.pos, left.errs + right.errs))
    else left
  }

  function ParsePrimary(toks: seq<Token>, pos: nat): (r: Parsed<Expr>)
    requires Tokens(toks) && pos < |toks|
    ensures Moves(toks, pos, r)
    decreases |toks| - pos, 20 - PRIMARY, 0
  {
    var t := toks[pos];
    match t.kind
    case IntLiteral => Parsed(Int(t.text), pos + 1, 0)
    case DoubleLiteral => Parsed(Double(t.text), pos + 1, 0)
    case StringLiteral => Parsed(Str(t.text), pos + 1, 0)
    case KwTrue => Parsed(Bool(true), pos + 1, 0)
    case KwFalse => Parsed(Bool(false), pos + 1, 0)
    case Identifier => ParseName(toks, t.text, pos + 1)
    case KwThis => Chain(toks, Parsed(This, pos + 1, 0))
    case KwBase => Chain(toks, Parsed(Base, pos + 1, 0))
    case LParen => ParseGroup(toks, pos + 1)
    case _ => Parsed(Int("0"), Next(toks, pos), 1)
  }

  /** A name that has been consumed: a call if a parenthesis follows. */
  function ParseName(toks: seq<Token>, name: string, pos: nat): (r: Parsed<Expr>)
    requires Tokens(toks) && pos < |toks|
    ensures pos <= r.pos < |toks|
    decreases |toks| - pos, 22
  {
    if Is(toks, pos, LParen) then
      var args := ParseArgs(toks, pos + 1);
      Chain(toks, Parsed(Call(name, args.v), args.pos, args.errs))
    else Chain(toks, Parsed(Name(name), pos, 0))
  }

  /** An expression in parentheses, of which the opening one has been consumed. */
  function ParseGroup(toks: seq<Token>, pos: nat): (r: Parsed<Expr>)
    requires Tokens(toks) && pos < |toks|
    ensures pos <= r.pos < |toks|
    decreases |toks| - pos, 22
  {
    var inner := Parse(toks, XOR, pos);
    var close := Expect(toks, inner.pos, RParen);
    Chain(toks, Parsed(inner.v, close.pos, inner.errs + close.errs))
  }

  /** Arguments and the closing parenthesis; the opening one has been consumed. */
  function ParseArgs(toks: seq<Token>, pos: nat): (r: Parsed<Args>)
    requires Tokens(toks) && pos < |toks|
    ensures pos <= r.pos < |toks|
    decreases |toks| - pos, 20, 1
  {
    var args := if Is(toks, pos, RParen) then Parsed(NoArgs, pos, 0) else ParseArgList(toks, pos);
    var close := Expect(toks, args.pos, RParen);
    Parsed(args.v, close.pos, args.errs + close.errs)
  }

  function ParseArgList(toks: seq<Token>, pos: nat): (r: Parsed<Args>)
    requires Tokens(toks) && pos < |toks|
    ensures pos <= r.pos < |toks|
    decreases |toks| - pos, 20, 0
  {
    var e := Parse(toks, XOR, pos);
    if Is(toks, e.pos, Comma) then
      var rest := ParseArgList(toks, e.pos + 1);
      Parsed(Arg(e.v, rest.v), rest.pos, e.errs + rest.errs)
    else Parsed(Arg(e.v, NoArgs), e.pos, e.errs)
  }

  /** Member accesses and member calls; `->` dereferences first. */
  function Chain(toks: seq<Token>, base: Parsed<Expr>): (r: Parsed<Expr>)
    requires Tokens(toks) && base.pos < |toks|
    ensures base.pos <= r.pos < |toks|
    decreases |toks| - base.pos, 20 - PRIMARY, 0
  {
    var k := toks[base.pos].kind;
    if k == Dot || k == Arrow then
      Chain(toks, MemberStep(toks, Parsed(if k == Arrow then Deref(base.v) else base.v, base.pos + 1, base.errs)))
    else base
  }

  /** The name after a dot, with its call arguments if it has any. */
  function MemberStep(toks: seq<Token>, obj: Parsed<Expr>): (r: Parsed<Expr>)
    requires Tokens(toks) && obj.pos < |toks|
    ensures obj.pos <= r.pos < |toks|
    decreases |toks| - obj.pos, 21
  {
    var field := Expect(toks, obj.pos, Identifier);
    if Is(toks, field.pos, LParen) then
      var args := ParseArgs(toks, field.pos + 1);
      Parsed(MemberCall(obj.v, field.v, args.v), args.pos, obj.errs + field.errs + args.errs)
    else Parsed(Member(obj.v, field.v), field.pos, obj.errs + field.errs)
  }

  lemma ChainStep(toks: seq<Token>, base: Parsed<Expr>)
    requires Tokens(toks) && base.pos < |toks|
    ensures
      var k := toks[base.pos].kind;
      Chain(toks, base) ==
        if k == Dot || k == Arrow then
          var r := MemberStep(toks, Parsed(if k == Arrow then Deref(base.v) else base.v, base.pos + 1, 0));
          Chain(toks, r.(errs := base.errs + r.errs))
        else base
  {
    hide Tokens, Parse, Loop, ParsePrimary, ParseArgs, ParseArgList, Expect, MemberStep;
    var k := toks[base.pos].kind;
    if k == Dot || k == Arrow {
      NotLast(toks, base.pos);
      MemberStepErrors(toks, Parsed(if k == Arrow then Deref(base.v) else base.v, base.pos + 1, base.errs));
    }
  }

  lemma MemberStepErrors(toks: seq<Token>, obj: Parsed<Expr>)
    requires Tokens(toks) && obj.pos < |toks|
    ensures
      var r := MemberStep(toks, obj.(errs := 0));
      MemberStep(toks, obj) == r.(errs := obj.errs + r.errs)
  {
    hide Tokens, ParseArgs, Expect;
  }

  lemma NotLast(toks: seq<Token>, pos: nat)
    requires Tokens(toks) && pos < |toks|
    ensures toks[pos].kind != End <==> pos + 1 < |toks|
  {
  }

  lemma PrimaryIs(toks: seq<Token>, pos: nat)
    requires Tokens(toks) && pos < |toks|
    ensures Parse(toks, PRIMARY, pos) == ParsePrimary(toks, pos)
  {
  }

  /** A level whose operator is a prefix, where there is none. */
  lemma LevelIsNext(toks: seq<Token>, level: nat, pos: nat)
    requires Tokens(toks) && pos < |toks| && (level == NOT || level == NEGATE || level == UNARY)
    requires var k := toks[pos].kind;
             k != KwNot && (level > NOT ==> k != Minus) && (level > NEGATE ==> k != KwAwait && k != At && k != Star)
    ensures Parse(toks, level, pos) == Parse(toks, level + 1, pos)
  {
    hide ParsePrimary, Loop;
  }

  lemma LevelIsLoop(toks: seq<Token>, level: nat, pos: nat)
    requires Tokens(toks) && pos < |toks| && (LeftAssoc(level) || level == POW)
    ensures Parse(toks, level, pos) == Loop(toks, level, Parse(toks, level + 1, pos))
  {
  }

  lemma LoopGoesOn(toks: seq<Token>, level: nat, left: Parsed<Expr>, op: BinOp)
    requires Tokens(toks) && left.pos < |toks| && (LeftAssoc(level) || level == POW)
    requires OpOf(toks[left.pos].kind) == (level, op)
    ensures left.pos + 1 < |toks|
    ensures
      var right := Parse(toks, RightLevel(level), left.pos + 1);
      Loop(toks, level, left)
      == Loop(toks, level, Parsed(Bin(op, left.v, right.v), right.pos, left.errs + right.errs))
  {
    hide Parse, ParsePrimary, ParseArgs, ParseArgList, Chain, MemberStep, Expect;
  }

  lemma LoopStops(toks: seq<Token>, level: nat, left: Parsed<Expr>)
    requires Tokens(toks) && left.pos < |toks| && (LeftAssoc(level) || level == POW)
    requires OpLevel(toks[left.pos].kind) != level
    ensures Loop(toks, level, left) == left
  {
  }

  /** A whole token list as one expression. */
  function ParseAll(toks: seq<Token>): Parsed<Expr>
    requires Tokens(toks)
  {
    Parse(toks, XOR, 0)
  }

  class Parser {
    const tokens: seq<Token>
    var pos: nat
    var errors: nat

    ghost predicate Valid()
      reads this
    {
      Tokens(tokens) && pos < |tokens|
    }

    constructor (toks: seq<Token>)
      requires Tokens(toks)
      ensures Valid() && tokens == toks && pos == 0 && errors == 0
    {
      tokens, pos, errors := toks, 0, 0;
    }

    /** The parser has moved and reported as `want` says, having returned `v`. */
    ghost predicate Did<T>(v: T, want: Parsed<T>, before: nat)
      reads this
    {
      Valid() && v == want.v && pos == want.pos && errors == before + want.errs
    }

    predicate Check(k: Kind)
      requires Valid()
      reads this
    {
      tokens[pos].kind == k
    }

    method Advance() returns (t: Token)
      requires Valid()
      modifies this`pos
      ensures Valid() && t == tokens[old(pos)] && pos == Next(tokens, old(pos))
    {
      t := tokens[pos];
      if pos + 1 < |tokens| { pos := pos + 1; }
    }

    method ExpectToken(k: Kind) returns (text: string)
      requires Valid()
      modifies this
      ensures Did(text, Expect(tokens, old(pos), k), old(errors))
    {
      text := tokens[pos].text;
      if Check(k) { var _ := Advance(); } else { errors := errors + 1; }
    }

    method ParseExpr() returns (e: Expr)
      requires Valid()
      modifies this
      ensures Did(e, Parse(tokens, XOR, old(pos)), old(errors))
      decreases |tokens| - pos, 20
    {
      e := ParseXor();
    }

    method ParseXor() returns (left: Expr)
      requires Valid()
      modifies this
      ensures Did(left, Parse(tokens, XOR, old(pos)), old(errors))
      decreases |tokens| - pos, 20 - XOR
    {
      hide Tokens, Parse, Loop, ParsePrimary, ParseArgs, ParseArgList, Chain, Expect;
      LevelIsLoop(tokens, XOR, pos);
      left := ParseOr();
      while Check(KwXor)
        invariant Valid() && old(pos) <= pos && errors >= old(errors)
        invariant Loop(tokens, XOR, Parsed(left, pos, errors - old(errors))) == Parse(tokens, XOR, old(pos))
        decreases |tokens| - pos
      {
        LoopGoesOn(tokens, XOR, Parsed(left, pos, errors - old(errors)), Xor);
        var _ := Advance();
        var right := ParseOr();
        left := Bin(Xor, left, right);
      }
      LoopStops(tokens, XOR, Parsed(left, pos, errors - old(errors)));
    }

    method ParseOr() returns (left: Expr)
      requires Valid()
      modifies this
      ensures Did(left, Parse(tokens, OR, old(pos)), old(errors))
      decreases |tokens| - pos, 20 - OR
    {
      hide Tokens, Parse, Loop, ParsePrimary, ParseArgs, ParseArgList, Chain, Expect;
      LevelIsLoop(tokens, OR, pos);
      left := ParseAnd();
      while Check(KwOr)
        invariant Valid() && old(pos) <= pos && errors >= old(errors)
        invariant Loop(tokens, OR, Parsed(left, pos, errors - old(errors))) == Parse(tokens, OR, old(pos))
        decreases |tokens| - pos
      {
        LoopGoesOn(tokens, OR, Parsed(left, pos, errors - old(errors)), Or);
        var _ := Advance();
        var right := ParseAnd();
        left := Bin(Or, left, right);
      }
      LoopStops(tokens, OR, Parsed(left, pos, errors - old(errors)));
    }

    method ParseAnd() returns (left: Expr)
      requires Valid()
      modifies this
      ensures Did(left, Parse(tokens, AND, old(pos)), old(errors))
      decreases |tokens| - pos, 20 - AND
    {
      hide Tokens, Parse, Loop, ParsePrimary, ParseArgs, ParseArgList, Chain, Expect;
      LevelIsLoop(tokens, AND, pos);
      left := ParseNot();
      while Check(KwAnd)
        invariant Valid() && old(pos) <= pos && errors >= old(errors)
        invariant Loop(tokens, AND, Parsed(left, pos, errors - old(errors))) == Parse(tokens, AND, old(pos))
        decreases |tokens| - pos
      {
        LoopGoesOn(tokens, AND, Parsed(left, pos, errors - old(errors)), And);
        var _ := Advance();
        var right := ParseNot();
        left := Bin(And, left, right);
      }
      LoopStops(tokens, AND, Parsed(left, pos, errors - old(errors)));
    }

    method ParseNot() returns (e: Expr)
      requires Valid()
      modifies this
      ensures Did(e, Parse(tokens, NOT, old(pos)), old(errors))
      decreases |tokens| - pos, 20 - NOT
    {
      if Check(KwNot) {
        var _ := Advance();
        e := ParseNot();
        e := Not(e);
      } else {
        e := ParseRelational();
      }
    }

    method ParseRelational() returns (left: Expr)
      requires Valid()
      modifies this
      ensures Did(left, Parse(tokens, RELATIONAL, old(pos)), old(errors))
      decreases |tokens| - pos, 20 - RELATIONAL
    {
      hide Tokens, Parse, Loop, ParsePrimary, ParseArgs, ParseArgList, Chain, Expect;
      LevelIsLoop(tokens, RELATIONAL, pos);
      left := ParseConcat();
      while true
        invariant Valid() && old(pos) <= pos && errors >= old(errors)
        invariant Loop(tokens, RELATIONAL, Parsed(left, pos, errors - old(errors)))
               == Parse(tokens, RELATIONAL, old(pos))
        decreases |tokens| - pos
      {
        var found, op := RelationalOp();
        if !found { break; }
        LoopGoesOn(tokens, RELATIONAL, Parsed(left, pos, errors - old(errors)), op);
        var _ := Advance();
        var right := ParseConcat();
        left := Bin(op, left, right);
      }
      LoopStops(tokens, RELATIONAL, Parsed(left, pos, errors - old(errors)));
    }

    method RelationalOp() returns (found: bool, op: BinOp)
      requires Valid()
      ensures found <==> OpLevel(tokens[pos].kind) == RELATIONAL
      ensures found ==> OpOf(tokens[pos].kind) == (RELATIONAL, op)
    {
      found := true;
      if Check(Equals) { op := Eq; }
      else if Check(NotEq) { op := Ne; }
      else if Check(Less) { op := Lt; }
      else if Check(LessEq) { op := Le; }
      else if Check(Greater) { op := Gt; }
      else if Check(GreaterEq) { op := Ge; }
      else { found, op := false, Eq; }
    }

    method ParseConcat() returns (left: Expr)
      requires Valid()
      modifies this
      ensures Did(left, Parse(tokens, CONCAT, old(pos)), old(errors))
      decreases |tokens| - pos, 20 - CONCAT
    {
      hide Tokens, Parse, Loop, ParsePrimary, ParseArgs, ParseArgList, Chain, Expect;
      LevelIsLoop(tokens, CONCAT, pos);
      left := ParseAdditive();
      while Check(Amp)
        invariant Valid() && old(pos) <= pos && errors >= old(errors)
        invariant Loop(tokens, CONCAT, Parsed(left, pos, errors - old(errors))) == Parse(tokens, CONCAT, old(pos))
        decreases |tokens| - pos
      {
        LoopGoesOn(tokens, CONCAT, Parsed(left, pos, errors - old(errors)), Concat);
        var _ := Advance();
        var right := ParseAdditive();
        left := Bin(Concat, left, right);
      }
      LoopStops(tokens, CONCAT, Parsed(left, pos, errors - old(errors)));
    }

    method ParseAdditive() returns (left: Expr)
      requires Valid()
      modifies this
      ensures Did(left, Parse(tokens, ADDITIVE, old(pos)), old(errors))
      decreases |tokens| - pos, 20 - ADDITIVE
    {
      hide Tokens, Parse, Loop, ParsePrimary, ParseArgs, ParseArgList, Chain, Expect;
      LevelIsLoop(tokens, ADDITIVE, pos);
      left := ParseShift();
      while Check(Plus) || Check(Minus)
        invariant Valid() && old(pos) <= pos && errors >= old(errors)
        invariant Loop(tokens, ADDITIVE, Parsed(left, pos, errors - old(errors))) == Parse(tokens, ADDITIVE, old(pos))
        decreases |tokens| - pos
      {
        var op := if Check(Plus) then Add else Sub;
        LoopGoesOn(tokens, ADDITIVE, Parsed(left, pos, errors - old(errors)), op);
        var _ := Advance();
        var right := ParseShift();
        left := Bin(op, left, right);
      }
      LoopStops(tokens, ADDITIVE, Parsed(left, pos, errors - old(errors)));
    }

    method ParseShift() returns (left: Expr)
      requires Valid()
      modifies this
      ensures Did(left, Parse(tokens, SHIFT, old(pos)), old(errors))
      decreases |tokens| - pos, 20 - SHIFT
    {
      hide Tokens, Parse, Loop, ParsePrimary, ParseArgs, ParseArgList, Chain, Expect;
      LevelIsLoop(tokens, SHIFT, pos);
      left := ParseMod();
      while Check(KwShl) || Check(KwShr)
        invariant Valid() && old(pos) <= pos && errors >= old(errors)
        invariant Loop(tokens, SHIFT, Parsed(left, pos, errors - old(errors))) == Parse(tokens, SHIFT, old(pos))
        decreases |tokens| - pos
      {
        var op := if Check(KwShl) then Shl else Shr;
        LoopGoesOn(tokens, SHIFT, Parsed(left, pos, errors - old(errors)), op);
        var _ := Advance();
        var right := ParseMod();
        left := Bin(op, left, right);
      }
      LoopStops(tokens, SHIFT, Parsed(left, pos, errors - old(errors)));
    }

    method ParseMod() returns (left: Expr)
      requires Valid()
      modifies this
      ensures Did(left, Parse(tokens, MOD, old(pos)), old(errors))
      decreases |tokens| - pos, 20 - MOD
    {
      hide Tokens, Parse, Loop, ParsePrimary, ParseArgs, ParseArgList, Chain, Expect;
      LevelIsLoop(tokens, MOD, pos);
      left := ParseIDiv();
      while Check(KwMod)
        invariant Valid() && old(pos) <= pos && errors >= old(errors)
        invariant Loop(tokens, MOD, Parsed(left, pos, errors - old(errors))) == Parse(tokens, MOD, old(pos))
        decreases |tokens| - pos
      {
        LoopGoesOn(tokens, MOD, Parsed(left, pos, errors - old(errors)), Mod);
        var _ := Advance();
        var right := ParseIDiv();
        left := Bin(Mod, left, right);
      }
      LoopStops(tokens, MOD, Parsed(left, pos, errors - old(errors)));
    }

    method ParseIDiv() returns (left: Expr)
      requires Valid()
      modifies this
      ensures Did(left, Parse(tokens, IDIV, old(pos)), old(errors))
      decreases |tokens| - pos, 20 - IDIV
    {
      hide Tokens, Parse, Loop, ParsePrimary, ParseArgs, ParseArgList, Chain, Expect;
      LevelIsLoop(tokens, IDIV, pos);
      left := ParseMulDiv();
      while Check(Backslash)
        invariant Valid() && old(pos) <= pos && errors >= old(errors)
        invariant Loop(tokens, IDIV, Parsed(left, pos, errors - old(errors))) == Parse(tokens, IDIV, old(pos))
        decreases |tokens| - pos
      {
        LoopGoesOn(tokens, IDIV, Parsed(left, pos, errors - old(errors)), IDiv);
        var _ := Advance();
        var right := ParseMulDiv();
        left := Bin(IDiv, left, right);
      }
      LoopStops(tokens, IDIV, Parsed(left, pos, errors - old(errors)));
    }

    method ParseMulDiv() returns (left: Expr)
      requires Valid()
      modifies this
      ensures Did(left, Parse(tokens, MULDIV, old(pos)), old(errors))
      decreases |tokens| - pos, 20 - MULDIV
    {
      hide Tokens, Parse, Loop, ParsePrimary, ParseArgs, ParseArgList, Chain, Expect;
      LevelIsLoop(tokens, MULDIV, pos);
      left := ParseNegate();
      while Check(Star) || Check(Slash)
        invariant Valid() && old(pos) <= pos && errors >= old(errors)
        invariant Loop(tokens, MULDIV, Parsed(left, pos, errors - old(errors))) == Parse(tokens, MULDIV, old(pos))
        decreases |tokens| - pos
      {
        var op := if Check(Star) then Mul else Div;
        LoopGoesOn(tokens, MULDIV, Parsed(left, pos, errors - old(errors)), op);
        var _ := Advance();
        var right := ParseNegate();
        left := Bin(op, left, right);
      }
      LoopStops(tokens, MULDIV, Parsed(left, pos, errors - old(errors)));
    }

    method ParseNegate() returns (e: Expr)
      requires Valid()
      modifies this
      ensures Did(e, Parse(tokens, NEGATE, old(pos)), old(errors))
      decreases |tokens| - pos, 20 - NEGATE
    {
      if Check(Minus) {
        var _ := Advance();
        e := ParseNegate();
        e := Neg(e);
      } else {
        e := ParsePow();
      }
    }

    method ParsePow() returns (left: Expr)
      requires Valid()
      modifies this
      ensures Did(left, Parse(tokens, POW, old(pos)), old(errors))
      decreases |tokens| - pos, 20 - POW
    {
      hide Tokens, Parse, Loop, ParsePrimary, ParseArgs, ParseArgList, Chain, Expect;
      LevelIsLoop(tokens, POW, pos);
      left := ParseUnaryPtrOps();
      while Check(Caret)
        invariant Valid() && old(pos) <= pos && errors >= old(errors)
        invariant Loop(tokens, POW, Parsed(left, pos, errors - old(errors))) == Parse(tokens, POW, old(pos))
        decreases |tokens| - pos
      {
        LoopGoesOn(tokens, POW, Parsed(left, pos, errors - old(errors)), Pow);
        var _ := Advance();
        var right := ParseNegate();
        left := Bin(Pow, left, right);
      }
      LoopStops(tokens, POW, Parsed(left, pos, errors - old(errors)));
    }

    method ParseUnaryPtrOps() returns (e: Expr)
      requires Valid()
      modifies this
      ensures Did(e, Parse(tokens, UNARY, old(pos)), old(errors))
      decreases |tokens| - pos, 20 - UNARY
    {
      if Check(KwAwait) {
        var _ := Advance();
        e := ParseUnaryPtrOps();
        e := Await(e);
      } else if Check(At) {
        var _ := Advance();
        e := ParseUnaryPtrOps();
        e := AddressOf(e);
      } else if Check(Star) {
        var _ := Advance();
        e := ParseUnaryPtrOps();
        e := Deref(e);
      } else {
        e := ParsePrimaryExpr();
      }
    }

    method ParsePrimaryExpr() returns (e: Expr)
      requires Valid()
      modifies this
      ensures Did(e, Parse(tokens, PRIMARY, old(pos)), old(errors))
      decreases |tokens| - pos, 20 - PRIMARY
    {
      PrimaryIs(tokens, pos);
      hide Tokens, Parse, Loop, ParseArgs, ParseArgList, Chain, MemberStep, Expect, ParseName, ParseGroup;
      NotLast(tokens, pos);
      var tok := Advance();
      match tok.kind
      case IntLiteral => e := Int(tok.text);
      case DoubleLiteral => e := Double(tok.text);
      case StringLiteral => e := Str(tok.text);
      case KwTrue => e := Bool(true);
      case KwFalse => e := Bool(false);
      case Identifier => e := ParseNameOrCall(tok.text);
      case KwThis => e := ParseMemberOrCallChain(This, errors);
      case KwBase => e := ParseMemberOrCallChain(Base, errors);
      case LParen => e := ParseParenthesized();
      case _ =>
        errors := errors + 1;
        e := Int("0");
    }

    method ParseCallArgs() returns (args: Args)
      requires Valid()
      modifies this
      ensures Did(args, ParseArgs(tokens, old(pos)), old(errors))
      decreases |tokens| - pos, 22
    {
      args := NoArgs;
      if !Check(RParen) { args := ParseMoreArgs(); }
      var _ := ExpectToken(RParen);
    }

    method ParseMoreArgs() returns (args: Args)
      requires Valid()
      modifies this
      ensures Did(args, ParseArgList(tokens, old(pos)), old(errors))
      decreases |tokens| - pos, 21
    {
      var e := ParseExpr();
      var rest := NoArgs;
      if Check(Comma) {
        var _ := Advance();
        rest := ParseMoreArgs();
      }
      args := Arg(e, rest);
    }

    method ParseNameOrCall(name: string) returns (e: Expr)
      requires Valid()
      modifies this
      ensures Did(e, ParseName(tokens, name, old(pos)), old(errors))
      decreases |tokens| - pos, 23
    {
      NotLast(tokens, pos);
      hide Tokens, Parse, Loop, ParsePrimary, ParseArgs, ParseArgList, Chain, MemberStep, Expect;
      ghost var before := errors;
      if Check(LParen) {
        var _ := Advance();
        var args := ParseCallArgs();
        e := ParseMemberOrCallChain(Call(name, args), before);
      } else {
        e := ParseMemberOrCallChain(Name(name), before);
      }
    }

    method ParseParenthesized() returns (e: Expr)
      requires Valid()
      modifies this
      ensures Did(e, ParseGroup(tokens, old(pos)), old(errors))
      decreases |tokens| - pos, 23
    {
      hide Tokens, Parse, Loop, ParseArgs, ParseArgList, Chain;
      ghost var before := errors;
      e := ParseExpr();
      var _ := ExpectToken(RParen);
      e := ParseMemberOrCallChain(e, before);
    }

    /** `before` is the error count when the expression that `base` starts began. */
    method ParseMemberOrCallChain(base: Expr, ghost before: nat) returns (e: Expr)
      requires Valid() && before <= errors
      modifies this
      ensures Did(e, Chain(tokens, Parsed(base, old(pos), old(errors) - before)), before)
      decreases |tokens| - pos, 20 - PRIMARY
    {
      hide Tokens, Parse, Loop, ParsePrimary, ParseArgs, ParseArgList, Chain, MemberStep, Expect;
      e := base;
      while Check(Dot) || Check(Arrow)
        invariant Valid() && old(pos) <= pos && errors >= before
        invariant Chain(tokens, Parsed(e, pos, errors - before))
               == Chain(tokens, Parsed(base, old(pos), old(errors) - before))
        decreases |tokens| - pos
      {
        ChainStep(tokens, Parsed(e, pos, errors - before));
        if Check(Arrow) { e := Deref(e); }
        NotLast(tokens, pos);
        var _ := Advance();
        e := ParseMember(e);
      }
      ChainStep(tokens, Parsed(e, pos, errors - before));
    }

    /** One name after a dot, with its call arguments if it has any. */
    method ParseMember(obj: Expr) returns (e: Expr)
      requires Valid()
      modifies this
      ensures Did(e, MemberStep(tokens, Parsed(obj, old(pos), 0)), old(errors))
      decreases |tokens| - pos, 23
    {
      hide Tokens, Parse, Loop, ParsePrimary, ParseArgs, ParseArgList, Chain;
      var field := ExpectToken(Identifier);
      if Check(LParen) {
        NotLast(tokens, pos);
        var _ := Advance();
        var args := ParseCallArgs();
        e := MemberCall(obj, field, args);
      } else {
        e := Member(obj, field);
      }
    }
  }
}
