/** Expressions, tokens, and the printer that writes the fewest parentheses. */
module ExprSyntax {

  /** The tokens that no expression holds; `:` separates statements as a new line does. */
  datatype Word =
    | Newline | DocComment | Unknown
    | KwDim | KwRedim | KwPreserve | KwConst | KwEnum | KwEnd | KwType | KwUnion | KwExtends | KwNamespace
    | KwPrint | KwIf | KwThen | KwElseIf | KwElse | KwSelect | KwCase | KwFor | KwTo | KwStep | KwNext
    | KwDo | KwLoop | KwWhile | KwUntil | KwWend | KwGoto | KwGosub | KwExit | KwCall | KwReturn | KwYield
    | KwSub | KwFunction | KwVirtual | KwOverride | KwAsync | KwConstructor | KwDestructor | KwProperty
    | KwOperator | KwDeclare | KwExtern | KwLib | KwAlias | KwCdecl | KwStdcall | KwOf | KwByRef | KwByVal
    | KwAs | KwPlainType | KwString | KwAny | KwPtr | KwTask | KwGenerator

  datatype Kind =
    | IntLiteral | DoubleLiteral | StringLiteral | KwTrue | KwFalse | Identifier | KwThis | KwBase
    | LParen | RParen | Comma | Dot | Arrow
    | KwAwait | At | Star | Caret | Minus | Slash | Backslash | KwMod | KwShl | KwShr | Plus | Amp
    | Equals | NotEq | Less | LessEq | Greater | GreaterEq | KwNot | KwAnd | KwOr | KwXor
    | Other(w: Word) | End

  datatype Token = Token(kind: Kind, text: string)

  datatype BinOp =
    | Xor | Or | And | Eq | Ne | Lt | Le | Gt | Ge | Concat | Add | Sub | Shl | Shr | Mod | IDiv | Mul | Div | Pow

  datatype Expr =
    | Int(text: string) | Double(text: string) | Str(text: string) | Bool(b: bool)
    | Name(name: string) | This | Base
    | Call(name: string, args: Args)
    | Member(obj: Expr, name: string)
    | MemberCall(obj: Expr, name: string, args: Args)
    | Deref(e: Expr) | AddressOf(e: Expr) | Await(e: Expr)
    | Neg(e: Expr) | Not(e: Expr)
    | Bin(op: BinOp, l: Expr, r: Expr)

  datatype Args = NoArgs | Arg(e: Expr, rest: Args)

  /** The fifteen levels of the grammar, loosest first. */
  const XOR := 1
  const OR := 2
  const AND := 3
  const NOT := 4
  const RELATIONAL := 5
  const CONCAT := 6
  const ADDITIVE := 7
  const SHIFT := 8
  const MOD := 9
  const IDIV := 10
  const MULDIV := 11
  const NEGATE := 12
  const POW := 13
  const UNARY := 14
  const PRIMARY := 15

  /** Expressions that a member access may follow without parentheses. */
  const CHAIN := 16

  /** Levels where operators associate to the left. */
  predicate LeftAssoc(level: nat) {
    XOR <= level <= AND || RELATIONAL <= level <= MULDIV
  }

  function OpOf(k: Kind): (int, BinOp) {
    match k
    case KwXor => (XOR, Xor)
    case KwOr => (OR, Or)
    case KwAnd => (AND, And)
    case Equals => (RELATIONAL, Eq)
    case NotEq => (RELATIONAL, Ne)
    case Less => (RELATIONAL, Lt)
    case LessEq => (RELATIONAL, Le)
    case Greater => (RELATIONAL, Gt)
    case GreaterEq => (RELATIONAL, Ge)
    case Amp => (CONCAT, Concat)
    case Plus => (ADDITIVE, Add)
    case Minus => (ADDITIVE, Sub)
    case KwShl => (SHIFT, Shl)
    case KwShr => (SHIFT, Shr)
    case KwMod => (MOD, Mod)
    case Backslash => (IDIV, IDiv)
    case Star => (MULDIV, Mul)
    case Slash => (MULDIV, Div)
    case Caret => (POW, Pow)
    case _ => (0, Xor)
  }

  /** The level at which this token is a binary operator, or 0. */
  function OpLevel(k: Kind): int { OpOf(k).0 }

  function KindOf(op: BinOp): Kind {
    match op
    case Xor => KwXor
    case Or => KwOr
    case And => KwAnd
    case Eq => Equals
    case Ne => NotEq
    case Lt => Less
    case Le => LessEq
    case Gt => Greater
    case Ge => GreaterEq
    case Concat => Amp
    case Add => Plus
    case Sub => Minus
    case Shl => KwShl
    case Shr => KwShr
    case Mod => KwMod
    case IDiv => Backslash
    case Mul => Star
    case Div => Slash
    case Pow => Caret
  }

  function LevelOfOp(op: BinOp): nat { OpOf(KindOf(op)).0 }

  function Level(e: Expr): nat {
    match e
    case Bin(op, _, _) => LevelOfOp(op)
    case Not(_) => NOT
    case Neg(_) => NEGATE
    case Deref(_) => UNARY
    case AddressOf(_) => UNARY
    case Await(_) => UNARY
    case Int(_) => PRIMARY
    case Double(_) => PRIMARY
    case Str(_) => PRIMARY
    case Bool(_) => PRIMARY
    case _ => CHAIN
  }

  /** The level of the right operand; `^` lets a negation stand there. */
  function RightLevel(level: nat): nat { if level == POW then NEGATE else level + 1 }

  function LeftLevel(level: nat): nat { if level == POW then UNARY else level }

  function Tok(k: Kind): Token { Token(k, "") }

  /** The tokens of an expression where the grammar expects at least `level`. */
  function Print(e: Expr, level: nat): seq<Token>
    decreases e, 1
  {
    if Level(e) < level then [Tok(LParen)] + Raw(e) + [Tok(RParen)] else Raw(e)
  }

  function Raw(e: Expr): seq<Token>
    decreases e, 0
  {
    match e
    case Int(t) => [Token(IntLiteral, t)]
    case Double(t) => [Token(DoubleLiteral, t)]
    case Str(t) => [Token(StringLiteral, t)]
    case Bool(b) => [Tok(if b then KwTrue else KwFalse)]
    case Name(n) => [Token(Identifier, n)]
    case This => [Tok(KwThis)]
    case Base => [Tok(KwBase)]
    case Call(n, args) => [Token(Identifier, n), Tok(LParen)] + PrintArgs(args) + [Tok(RParen)]
    case Member(obj, n) =>
      if obj.Deref? then Print(obj.e, CHAIN) + [Tok(Arrow), Token(Identifier, n)]
      else Print(obj, CHAIN) + [Tok(Dot), Token(Identifier, n)]
    case MemberCall(obj, n, args) =>
      (if obj.Deref? then Print(obj.e, CHAIN) + [Tok(Arrow), Token(Identifier, n)]
       else Print(obj, CHAIN) + [Tok(Dot), Token(Identifier, n)])
      + ([Tok(LParen)] + PrintArgs(args) + [Tok(RParen)])
    case Deref(x) => [Tok(Star)] + Print(x, UNARY)
    case AddressOf(x) => [Tok(At)] + Print(x, UNARY)
    case Await(x) => [Tok(KwAwait)] + Print(x, UNARY)
    case Neg(x) => [Tok(Minus)] + Print(x, NEGATE)
    case Not(x) => [Tok(KwNot)] + Print(x, NOT)
    case Bin(op, l, r) =>
      Print(l, LeftLevel(LevelOfOp(op))) + [Tok(KindOf(op))] + Print(r, RightLevel(LevelOfOp(op)))
  }

  function PrintArgs(args: Args): seq<Token>
    decreases args, 0
  {
    match args
    case NoArgs => []
    case Arg(e, rest) =>
      if rest.NoArgs? then Print(e, XOR) else Print(e, XOR) + [Tok(Comma)] + PrintArgs(rest)
  }
}
