/** How the parser groups what it reads, in terms of tokens alone. */
module ExprGrouping {
  import opened Options
  import opened ExprSyntax
  import opened ExprParser
  import opened ExprRoundTrip

  /** The binary operators, loosest first; those in one place bind alike. */
  const LOOSEST_FIRST: seq<seq<Kind>> := [
    [KwXor], [KwOr], [KwAnd], [Equals, NotEq, Less, LessEq, Greater, GreaterEq], [Amp], [Plus, Minus],
    [KwShl, KwShr], [KwMod], [Backslash], [Star, Slash], [Caret]]

  /** The place of AND, the tightest operator that NOT can stand to the left of
      without taking it in. */
  const AND_PLACE := 2

  const CARET_PLACE := 10

  predicate IsAt(k: Kind, place: nat) { place < |LOOSEST_FIRST| && k in LOOSEST_FIRST[place] }

  /** The operator that a token stands for. */
  function OperatorOf(k: Kind): BinOp {
    match k
    case KwXor => Xor
    case KwOr => Or
    case KwAnd => And
    case Equals => Eq
    case NotEq => Ne
    case Less => Lt
    case LessEq => Le
    case Greater => Gt
    case GreaterEq => Ge
    case Amp => Concat
    case Plus => Add
    case Minus => Sub
    case KwShl => Shl
    case KwShr => Shr
    case KwMod => Mod
    case Backslash => IDiv
    case Star => Mul
    case Slash => Div
    case _ => Pow
  }

  /** What a single token stands for as an operand. */
  function Operand(t: Token): Option<Expr> {
    match t.kind
    case IntLiteral => Some(Int(t.text))
    case DoubleLiteral => Some(Double(t.text))
    case StringLiteral => Some(Str(t.text))
    case Identifier => Some(Name(t.text))
    case _ => None
  }

  /** What a prefix operator makes of its operand. */
  function Prefixed(k: Kind, x: Expr): Option<Expr> {
    match k
    case Minus => Some(Neg(x))
    case KwNot => Some(Not(x))
    case Star => Some(Deref(x))
    case At => Some(AddressOf(x))
    case KwAwait => Some(Await(x))
    case _ => None
  }

  /** All of a token list is read, without an error, as this tree. */
  predicate Reads(toks: seq<Token>, e: Expr) {
    var all := toks + [Tok(End)];
    Tokens(all) && ParseAll(all) == Parsed(e, |toks|, 0)
  }

  /* ----- printing without parentheses ----- */

  /** The levels that these places have in the grammar. */
  function LevelOf(place: nat): nat {
    if place <= AND_PLACE then place + XOR else if place < CARET_PLACE then place + 2 else POW
  }

  lemma PlaceIsLevel(k: Kind, place: nat)
    requires IsAt(k, place)
    ensures place <= CARET_PLACE && (k == Caret <==> place == CARET_PLACE)
    ensures KindOf(OperatorOf(k)) == k && LevelOfOp(OperatorOf(k)) == LevelOf(place)
  {
    hide LOOSEST_FIRST, IsAt, OperatorOf, KindOf, OpOf, LevelOf;
    LevelAt(k, place);
    OperatorIsOfKind(k);
  }

  lemma LevelAt(k: Kind, place: nat)
    requires IsAt(k, place)
    ensures place <= CARET_PLACE && (k == Caret <==> place == CARET_PLACE)
    ensures OpLevel(k) == LevelOf(place) > 0
  {
    hide OpOf, LOOSEST_FIRST, IsAt;
    if place <= 3 {
      LooseLevel(k, place);
    } else if place <= 6 {
      MiddleLevel(k, place);
    } else {
      TightLevel(k, place);
    }
  }

  lemma LooseLevel(k: Kind, place: nat)
    requires IsAt(k, place) && place <= 3
    ensures OpLevel(k) == LevelOf(place) && k != Caret
  {
    hide LOOSEST_FIRST, IsAt;
    KindsAt(k, place);
  }

  lemma MiddleLevel(k: Kind, place: nat)
    requires IsAt(k, place) && 3 < place <= 6
    ensures OpLevel(k) == LevelOf(place) && k != Caret
  {
    hide LOOSEST_FIRST, IsAt;
    KindsAt(k, place);
  }

  lemma TightLevel(k: Kind, place: nat)
    requires IsAt(k, place) && 6 < place
    ensures OpLevel(k) == LevelOf(place) && place <= CARET_PLACE && (k == Caret <==> place == CARET_PLACE)
  {
    hide LOOSEST_FIRST, IsAt;
    KindsAt(k, place);
  }

  lemma OperatorIsOfKind(k: Kind)
    requires OpLevel(k) != 0
    ensures KindOf(OperatorOf(k)) == k
  {
  }

  lemma KindsAt(k: Kind, place: nat)
    requires IsAt(k, place)
    ensures |LOOSEST_FIRST| == 11 && place < 11
    ensures match place
            case 0 => k == KwXor
            case 1 => k == KwOr
            case 2 => k == KwAnd
            case 3 => k == Equals || k == NotEq || k == Less || k == LessEq || k == Greater || k == GreaterEq
            case 4 => k == Amp
            case 5 => k == Plus || k == Minus
            case 6 => k == KwShl || k == KwShr
            case 7 => k == KwMod
            case 8 => k == Backslash
            case 9 => k == Star || k == Slash
            case _ => k == Caret
  {
  }

  lemma PrintReads(e: Expr, toks: seq<Token>)
    requires Print(e, XOR) == toks
    ensures Reads(toks, e)
  {
    hide Print, Parse;
    RoundTrip(e);
  }

  lemma OperandPrints(t: Token, level: nat)
    requires Operand(t).Some? && level <= PRIMARY
    ensures Print(Operand(t).value, level) == [t]
  {
  }

  lemma BinPrints(k: Kind, place: nat, l: Expr, r: Expr, level: nat)
    requires IsAt(k, place) && level <= LevelOf(place)
    ensures Print(Bin(OperatorOf(k), l, r), level)
         == Print(l, LeftLevel(LevelOf(place))) + [Tok(k)] + Print(r, RightLevel(LevelOf(place)))
  {
    hide KindOf, OpOf, OperatorOf;
    PlaceIsLevel(k, place);
  }

  lemma PrefixPrints(u: Kind, x: Expr, level: nat)
    requires Prefixed(u, x).Some?
    ensures
      var own := if u == KwNot then NOT else if u == Minus then NEGATE else UNARY;
      level <= own ==> Print(Prefixed(u, x).value, level) == [Tok(u)] + Print(x, own)
  {
  }

  /* ----- grouping ----- */

  /** Main result: of two operators around an operand the one that binds tighter
      takes it; if they bind alike the left one does, except that powers group to
      the right. */
  lemma TwoOperators(a: Token, j: Kind, b: Token, k: Kind, c: Token, first: nat, second: nat)
    requires Operand(a).Some? && Operand(b).Some? && Operand(c).Some? && IsAt(j, first) && IsAt(k, second)
    ensures
      var (x, y, z) := (Operand(a).value, Operand(b).value, Operand(c).value);
      Reads([a, Tok(j), b, Tok(k), c],
            if second > first || (j == Caret && k == Caret)
            then Bin(OperatorOf(j), x, Bin(OperatorOf(k), y, z))
            else Bin(OperatorOf(k), Bin(OperatorOf(j), x, y), z))
  {
    hide Reads, OperatorOf, Operand, LOOSEST_FIRST;
    if second > first || (j == Caret && k == Caret) {
      RightFirst(a, j, b, k, c, first, second);
    } else {
      LeftFirst(a, j, b, k, c, first, second);
    }
  }

  lemma RightFirst(a: Token, j: Kind, b: Token, k: Kind, c: Token, first: nat, second: nat)
    requires Operand(a).Some? && Operand(b).Some? && Operand(c).Some? && IsAt(j, first) && IsAt(k, second)
    requires second > first || (j == Caret && k == Caret)
    ensures Reads([a, Tok(j), b, Tok(k), c],
                  Bin(OperatorOf(j), Operand(a).value, Bin(OperatorOf(k), Operand(b).value, Operand(c).value)))
  {
    hide Print, Raw, OpOf, KindOf, OperatorOf, Operand, Reads, LOOSEST_FIRST, IsAt;
    var (x, y, z) := (Operand(a).value, Operand(b).value, Operand(c).value);
    PlaceIsLevel(j, first);
    PlaceIsLevel(k, second);
    LevelsRise(first, second);
    var inner := Bin(OperatorOf(k), y, z);
    BinPrints(k, second, y, z, RightLevel(LevelOf(first)));
    BinPrints(j, first, x, inner, XOR);
    OperandPrints(a, LeftLevel(LevelOf(first)));
    OperandPrints(b, LeftLevel(LevelOf(second)));
    OperandPrints(c, RightLevel(LevelOf(second)));
    PrintReads(Bin(OperatorOf(j), x, inner), [a, Tok(j), b, Tok(k), c]);
  }

  lemma LeftFirst(a: Token, j: Kind, b: Token, k: Kind, c: Token, first: nat, second: nat)
    requires Operand(a).Some? && Operand(b).Some? && Operand(c).Some? && IsAt(j, first) && IsAt(k, second)
    requires second <= first && !(j == Caret && k == Caret)
    ensures Reads([a, Tok(j), b, Tok(k), c],
                  Bin(OperatorOf(k), Bin(OperatorOf(j), Operand(a).value, Operand(b).value), Operand(c).value))
  {
    hide Print, Raw, OpOf, KindOf, OperatorOf, Operand, Reads, LOOSEST_FIRST, IsAt;
    var (x, y, z) := (Operand(a).value, Operand(b).value, Operand(c).value);
    PlaceIsLevel(j, first);
    PlaceIsLevel(k, second);
    LevelsRise(second, first);
    var inner := Bin(OperatorOf(j), x, y);
    BinPrints(j, first, x, y, LeftLevel(LevelOf(second)));
    BinPrints(k, second, inner, z, XOR);
    OperandPrints(a, LeftLevel(LevelOf(first)));
    OperandPrints(b, RightLevel(LevelOf(first)));
    OperandPrints(c, RightLevel(LevelOf(second)));
    PrintReads(Bin(OperatorOf(k), inner, z), [a, Tok(j), b, Tok(k), c]);
  }

  /** Levels rise with places; the right operand of a looser operator, and the left
      one of an operator that is no tighter, may be such an operation. */
  lemma LevelsRise(p: nat, q: nat)
    requires p <= q <= CARET_PLACE
    ensures XOR <= LevelOf(p) <= LevelOf(q) <= POW
    ensures LeftLevel(LevelOf(q)) <= PRIMARY && RightLevel(LevelOf(q)) <= PRIMARY
    ensures p < CARET_PLACE ==> LeftLevel(LevelOf(p)) <= LevelOf(q)
    ensures p < q || p == CARET_PLACE ==> RightLevel(LevelOf(p)) <= LevelOf(q)
  {
  }

  lemma OneOperator(a: Token, k: Kind, b: Token, place: nat)
    requires Operand(a).Some? && Operand(b).Some? && IsAt(k, place)
    ensures Reads([a, Tok(k), b], Bin(OperatorOf(k), Operand(a).value, Operand(b).value))
  {
    hide Print, Raw, OpOf, KindOf, OperatorOf, Operand, Reads;
    var (x, y) := (Operand(a).value, Operand(b).value);
    BinPrints(k, place, x, y, XOR);
    OperandPrints(a, LeftLevel(LevelOf(place)));
    OperandPrints(b, RightLevel(LevelOf(place)));
    PrintReads(Bin(OperatorOf(k), x, y), [a, Tok(k), b]);
  }

  /** Main result: a prefix operator applies before the operator that follows its
      operand, except a minus before a power, and NOT before anything that binds
      tighter than AND. */
  lemma PrefixFirst(u: Kind, a: Token, k: Kind, b: Token, place: nat)
    requires Operand(a).Some? && Operand(b).Some? && IsAt(k, place) && Prefixed(u, Operand(a).value).Some?
    ensures
      var (x, y) := (Operand(a).value, Operand(b).value);
      var takesAll := (u == Minus && k == Caret) || (u == KwNot && place > AND_PLACE);
      Reads([Tok(u), a, Tok(k), b],
            if takesAll then Prefixed(u, Bin(OperatorOf(k), x, y)).value
            else Bin(OperatorOf(k), Prefixed(u, x).value, y))
  {
    hide Print, Raw, OpOf, KindOf, OperatorOf, Operand, Reads;
    var (x, y) := (Operand(a).value, Operand(b).value);
    var e := Bin(OperatorOf(k), x, y);
    PlaceIsLevel(k, place);
    OperandPrints(b, RightLevel(LevelOf(place)));
    if (u == Minus && k == Caret) || (u == KwNot && place > AND_PLACE) {
      OperandPrints(a, LeftLevel(LevelOf(place)));
      BinPrints(k, place, x, y, if u == KwNot then NOT else NEGATE);
      PrefixPrints(u, e, XOR);
      PrintReads(Prefixed(u, e).value, [Tok(u), a, Tok(k), b]);
    } else {
      OperandPrints(a, if u == KwNot then NOT else if u == Minus then NEGATE else UNARY);
      PrefixPrints(u, x, LeftLevel(LevelOf(place)));
      BinPrints(k, place, Prefixed(u, x).value, y, XOR);
      PrintReads(Bin(OperatorOf(k), Prefixed(u, x).value, y), [Tok(u), a, Tok(k), b]);
    }
  }

  /** To the right of an operator a prefix operator takes its operand; NOT may stand
      there only after XOR, OR and AND. */
  lemma PrefixSecond(a: Token, k: Kind, u: Kind, b: Token, place: nat)
    requires Operand(a).Some? && Operand(b).Some? && IsAt(k, place) && Prefixed(u, Operand(b).value).Some?
    requires u == KwNot ==> place <= AND_PLACE
    ensures Reads([a, Tok(k), Tok(u), b], Bin(OperatorOf(k), Operand(a).value, Prefixed(u, Operand(b).value).value))
  {
    hide Print, Raw, OpOf, KindOf, OperatorOf, Operand, Reads;
    var (x, y) := (Operand(a).value, Operand(b).value);
    PlaceIsLevel(k, place);
    OperandPrints(a, LeftLevel(LevelOf(place)));
    OperandPrints(b, if u == KwNot then NOT else if u == Minus then NEGATE else UNARY);
    PrefixPrints(u, y, RightLevel(LevelOf(place)));
    BinPrints(k, place, x, Prefixed(u, y).value, XOR);
    PrintReads(Bin(OperatorOf(k), x, Prefixed(u, y).value), [a, Tok(k), Tok(u), b]);
  }

  /** A dot selects a member of what stands before it, an arrow one of what that
      points to; a call takes its arguments in order. */
  lemma Selections(p: string, f: string, a: Token, b: Token)
    requires Operand(a).Some? && Operand(b).Some?
    ensures Reads([Token(Identifier, p), Tok(Dot), Token(Identifier, f)], Member(Name(p), f))
    ensures Reads([Token(Identifier, p), Tok(Arrow), Token(Identifier, f)], Member(Deref(Name(p)), f))
    ensures Reads([Token(Identifier, f), Tok(LParen), a, Tok(Comma), b, Tok(RParen)],
                  Call(f, Arg(Operand(a).value, Arg(Operand(b).value, NoArgs))))
    ensures Reads([Token(Identifier, p), Tok(Dot), Token(Identifier, f), Tok(LParen), a, Tok(RParen)],
                  MemberCall(Name(p), f, Arg(Operand(a).value, NoArgs)))
  {
    hide Operand, Reads, Print;
    var (x, y) := (Operand(a).value, Operand(b).value);
    OperandPrints(a, XOR);
    OperandPrints(b, XOR);
    SelectionsPrint(p, f, x, y);
    PrintReads(Member(Name(p), f), [Token(Identifier, p), Tok(Dot), Token(Identifier, f)]);
    PrintReads(Member(Deref(Name(p)), f), [Token(Identifier, p), Tok(Arrow), Token(Identifier, f)]);
    PrintReads(Call(f, Arg(x, Arg(y, NoArgs))), [Token(Identifier, f), Tok(LParen), a, Tok(Comma), b, Tok(RParen)]);
    PrintReads(MemberCall(Name(p), f, Arg(x, NoArgs)),
               [Token(Identifier, p), Tok(Dot), Token(Identifier, f), Tok(LParen), a, Tok(RParen)]);
  }

  lemma SelectionsPrint(p: string, f: string, x: Expr, y: Expr)
    ensures Print(Member(Name(p), f), XOR) == [Token(Identifier, p), Tok(Dot), Token(Identifier, f)]
    ensures Print(Member(Deref(Name(p)), f), XOR) == [Token(Identifier, p), Tok(Arrow), Token(Identifier, f)]
    ensures Print(Call(f, Arg(x, Arg(y, NoArgs))), XOR)
         == [Token(Identifier, f), Tok(LParen)] + (Print(x, XOR) + [Tok(Comma)] + Print(y, XOR)) + [Tok(RParen)]
    ensures Print(MemberCall(Name(p), f, Arg(x, NoArgs)), XOR)
         == [Token(Identifier, p), Tok(Dot), Token(Identifier, f), Tok(LParen)] + Print(x, XOR) + [Tok(RParen)]
  {
    hide Print, Raw, PrintArgs;
    ArgsPrint(x, y);
    ArgsPrint(y, x);
    NamePrints(p);
    ChainsPrint(Member(Name(p), f));
    ChainsPrint(Member(Deref(Name(p)), f));
    ChainsPrint(Call(f, Arg(x, Arg(y, NoArgs))));
    ChainsPrint(MemberCall(Name(p), f, Arg(x, NoArgs)));
    CallShape(Call(f, Arg(x, Arg(y, NoArgs))));
    MemberShape(Member(Name(p), f));
    MemberShape(Member(Deref(Name(p)), f));
    MemberShape(MemberCall(Name(p), f, Arg(x, NoArgs)));
  }

  lemma NamePrints(p: string)
    ensures Print(Name(p), CHAIN) == [Token(Identifier, p)]
  {
  }

  lemma ChainsPrint(e: Expr)
    requires Level(e) == CHAIN
    ensures Print(e, XOR) == Raw(e)
  {
  }

  lemma ArgsPrint(x: Expr, y: Expr)
    ensures PrintArgs(Arg(y, NoArgs)) == Print(y, XOR)
    ensures PrintArgs(Arg(x, Arg(y, NoArgs))) == Print(x, XOR) + [Tok(Comma)] + Print(y, XOR)
  {
  }

  /** The words that are operands by themselves. */
  lemma Words()
    ensures Reads([Tok(KwTrue)], Bool(true)) && Reads([Tok(KwFalse)], Bool(false))
    ensures Reads([Tok(KwThis)], This) && Reads([Tok(KwBase)], Base)
  {
    hide Reads;
    PrintReads(Bool(true), [Tok(KwTrue)]);
    PrintReads(Bool(false), [Tok(KwFalse)]);
    PrintReads(This, [Tok(KwThis)]);
    PrintReads(Base, [Tok(KwBase)]);
  }
}
