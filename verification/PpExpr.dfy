/** `#if` expressions: what the evaluator, which parses and computes in one pass,
    yields at each grammar level, and the evaluator itself. */
module PpExpr {
  import opened Options
  import opened Decimal
  import opened Chars
  import Calendar

  datatype Tok = IntTok(n: int) | StrTok(text: string) | Ident(text: string) | LParen | RParen | OpTok(text: string) | End

  datatype Value = I(n: int) | S(s: string)

  datatype BinOp = Or | And | Eq | Ne | Lt | Gt | Le | Ge | Add | Sub | Mul | Div | Mod

  datatype Error =
    | UnexpectedToken(tok: Tok) | ExpectedValue(tok: Tok) | ExpectedClose
    | Mismatch | OnlyEquality | NeedsNumbers(op: BinOp) | NegatesString | DivisionByZero

  datatype Result<T> = Fine(v: T) | Bad(e: Error)

  function Truthy(v: Value): bool { if v.S? then v.s != "" else v.n != 0 }

  function Bit(b: bool): Value { I(if b then 1 else 0) }

  /** C++ division and remainder, which truncate toward zero. */
  function Divide(a: int, b: int): int
    requires b != 0
  {
    if b > 0 then Calendar.Quot(a, b) else -Calendar.Quot(a, -b)
  }

  function Remainder(a: int, b: int): int
    requires b != 0
  {
    a - b * Divide(a, b)
  }

  lemma DivisionTruncates(a: int, b: int)
    requires b != 0
    ensures a == b * Divide(a, b) + Remainder(a, b)
    ensures Abs(Remainder(a, b)) < Abs(b)
    ensures (Remainder(a, b) > 0 ==> a > 0) && (Remainder(a, b) < 0 ==> a < 0)
  {
    hide Divide, Abs;
    var p := ProductOfQuotient(a, b);
    RemainderIs(a, b, p, b * Divide(a, b));
  }

  lemma RemainderIs(a: int, b: int, p: int, product: int)
    requires 0 <= p && 0 <= Abs(a) - p < Abs(b) && product == if a < 0 then -p else p
    ensures Abs(a - product) < Abs(b) && (a - product > 0 ==> a > 0) && (a - product < 0 ==> a < 0)
  {
  }

  /** The product of divisor and quotient, up to the sign of the dividend. */
  lemma ProductOfQuotient(a: int, b: int) returns (p: int)
    requires b != 0
    ensures 0 <= p && 0 <= Abs(a) - p < Abs(b) && b * Divide(a, b) == if a < 0 then -p else p
  {
    hide Divide;
    p := Abs(a) - Abs(a) % Abs(b);
    SizesDivide(Abs(a), Abs(b));
    DivideBySize(a, b);
    SignedProduct(b, Divide(a, b), Abs(b), Abs(a) / Abs(b));
  }

  lemma SizesDivide(x: nat, y: nat)
    requires y > 0
    ensures y * (x / y) == x - x % y && 0 <= x % y < y && x % y <= x
  {
    if x < y { assert x % y == x; }
  }

  lemma DivideBySize(a: int, b: int)
    requires b != 0
    ensures Divide(a, b) == if (a < 0) == (b < 0) then Abs(a) / Abs(b) else -(Abs(a) / Abs(b))
  {
  }

  lemma SignedProduct(b: int, d: int, y: int, q: int)
    requires (b == y || b == -y) && (d == q || d == -q)
    ensures b * d == d * b
    ensures b == y && d == q ==> b * d == y * q
    ensures b == y && d == -q ==> b * d == -(y * q)
    ensures b == -y && d == q ==> b * d == -(y * q)
    ensures b == -y && d == -q ==> b * d == y * q
  {
  }

  function Abs(x: int): nat { if x < 0 then -x else x }

  predicate IsComparison(op: BinOp) { op.Eq? || op.Ne? || op.Lt? || op.Gt? || op.Le? || op.Ge? }

  function Compare(op: BinOp, a: int, b: int): bool
    requires IsComparison(op)
  {
    match op
    case Eq => a == b
    case Ne => a != b
    case Lt => a < b
    case Gt => a > b
    case Le => a <= b
    case Ge => a >= b
  }

  function Apply(op: BinOp, a: Value, b: Value): Result<Value> {
    if op.Or? then Fine(Bit(Truthy(a) || Truthy(b)))
    else if op.And? then Fine(Bit(Truthy(a) && Truthy(b)))
    else if IsComparison(op) then
      if a.S? != b.S? then Bad(Mismatch)
      else if a.I? then Fine(Bit(Compare(op, a.n, b.n)))
      else if op.Eq? then Fine(Bit(a.s == b.s))
      else if op.Ne? then Fine(Bit(a.s != b.s))
      else Bad(OnlyEquality)
    else if a.S? || b.S? then Bad(NeedsNumbers(op))
    else if op.Add? then Fine(I(a.n + b.n))
    else if op.Sub? then Fine(I(a.n - b.n))
    else if op.Mul? then Fine(I(a.n * b.n))
    else if b.n == 0 then Bad(DivisionByZero)
    else Fine(I(if op.Div? then Divide(a.n, b.n) else Remainder(a.n, b.n)))
  }

  /* ----- tokens ----- */

  function DigitsLength(t: string): (n: nat)
    ensures n <= |t| && AllDigits(t[..n])
  {
    if t == "" || !IsDigit(t[0]) then 0
    else
      var n := DigitsLength(t[1..]);
      assert forall i :: 0 <= i < n ==> t[1 + i] == t[1..][..n][i];
      1 + n
  }

  function WordLength(t: string): (n: nat)
    ensures n <= |t|
  {
    if t == "" || !IsNameChar(t[0]) then 0 else 1 + WordLength(t[1..])
  }

  /** The contents of a string literal after its opening quote, where a doubled
      quote stands for one, and what follows the closing quote. */
  function ReadQuoted(t: string): (r: (string, string))
    ensures |r.1| <= |t|
  {
    if t == "" then ("", "")
    else if t[0] != '"' then
      var r := ReadQuoted(t[1..]);
      ([t[0]] + r.0, r.1)
    else if |t| > 1 && t[1] == '"' then
      var r := ReadQuoted(t[2..]);
      ("\"" + r.0, r.1)
    else ("", t[1..])
  }

  /** The length of the operator that a text starts with, or 0. */
  function OpLength(t: string): (n: nat)
    ensures n <= |t|
  {
    if t == "" then 0
    else if |t| > 1 && (t[..2] == "<>" || t[..2] == "<=" || t[..2] == ">=") then 2
    else if t[0] in "=<>+-*/" then 1
    else 0
  }

  /** The first token of a text, if it starts with one, and what follows. */
  function Lex(t: string): (r: (Option<Tok>, string))
    requires t != ""
    ensures |r.1| < |t|
  {
    if IsSpace(t[0]) then (None, t[1..])
    else if IsDigit(t[0]) then
      var n := DigitsLength(t);
      (Some(IntTok(FromDec(t[..n]))), t[n..])
    else if t[0] == '"' then
      var r := ReadQuoted(t[1..]);
      (Some(StrTok(r.0)), r.1)
    else if IsNameStart(t[0]) then
      var n := WordLength(t);
      (Some(Ident(t[..n])), t[n..])
    else if t[0] == '(' then (Some(LParen), t[1..])
    else if t[0] == ')' then (Some(RParen), t[1..])
    else if OpLength(t) > 0 then (Some(OpTok(t[..OpLength(t)])), t[OpLength(t)..])
    else (None, t[1..])
  }

  /** All tokens of a text; characters that start none are skipped. */
  function Scan(t: string): (toks: seq<Tok>)
    ensures Tokens(toks)
    decreases |t|
  {
    if t == "" then [End]
    else
      var (tok, rest) := Lex(t);
      if tok.None? then Scan(rest) else [tok.value] + Scan(rest)
  }

  method Tokenize(expr: string) returns (toks: seq<Tok>)
    ensures toks == Scan(expr)
  {
    toks := [];
    var rest := expr;
    while rest != ""
      invariant toks + Scan(rest) == Scan(expr)
      decreases |rest|
    {
      hide Lex;
      var (tok, after) := Lex(rest);
      if tok.Some? { toks := toks + [tok.value]; }
      rest := after;
    }
    toks := toks + [End];
  }

  /* ----- grammar levels ----- */

  const OR := 1
  const AND := 2
  const NOT := 3
  const COMPARISON := 4
  const ADDITIVE := 5
  const TERM := 6
  const UNARY := 7
  const PRIMARY := 8

  function LevelOf(op: BinOp): nat {
    match op
    case Or => OR
    case And => AND
    case Add => ADDITIVE
    case Sub => ADDITIVE
    case Mul => TERM
    case Div => TERM
    case Mod => TERM
    case _ => COMPARISON
  }

  predicate IdentIs(t: Tok, kw: string) { t.Ident? && LowerCase(t.text) == kw }

  /** The binary operator that a token spells, if any. */
  function OpOf(t: Tok): Option<BinOp> {
    if IdentIs(t, "or") then Some(Or)
    else if IdentIs(t, "and") then Some(And)
    else if IdentIs(t, "mod") then Some(Mod)
    else if !t.OpTok? then None
    else if t.text == "=" then Some(Eq)
    else if t.text == "<>" then Some(Ne)
    else if t.text == "<" then Some(Lt)
    else if t.text == ">" then Some(Gt)
    else if t.text == "<=" then Some(Le)
    else if t.text == ">=" then Some(Ge)
    else if t.text == "+" then Some(Add)
    else if t.text == "-" then Some(Sub)
    else if t.text == "*" then Some(Mul)
    else if t.text == "/" then Some(Div)
    else None
  }

  predicate IsOpAt(t: Tok, level: nat) { OpOf(t).Some? && LevelOf(OpOf(t).value) == level }

  predicate HasOperators(level: nat) {
    level == OR || level == AND || level == COMPARISON || level == ADDITIVE || level == TERM
  }

  predicate Tokens(toks: seq<Tok>) {
    |toks| > 0 && forall i :: 0 <= i < |toks| ==> (toks[i].End? <==> i == |toks| - 1)
  }

  /** A value and the position after it, or the one error that is reported. */
  datatype Parsed = Got(v: Value, pos: nat) | Err(e: Error)

  function Negated(r: Parsed): Parsed {
    if r.Err? then r else if r.v.S? then Err(NegatesString) else Got(I(-r.v.n), r.pos)
  }

  function Inverted(r: Parsed): Parsed { if r.Err? then r else Got(Bit(!Truthy(r.v)), r.pos) }

  predicate Moves(toks: seq<Tok>, pos: nat, r: Parsed) { r.Got? ==> pos < r.pos < |toks| }

  function Eval(toks: seq<Tok>, level: nat, pos: nat): (r: Parsed)
    requires Tokens(toks) && pos < |toks| && OR <= level <= PRIMARY
    ensures Moves(toks, pos, r)
    decreases |toks| - pos, 10 - level, 1
  {
    if level == NOT && IdentIs(toks[pos], "not") then Inverted(Eval(toks, NOT, pos + 1))
    else if level == UNARY && toks[pos] == OpTok("-") then Negated(Eval(toks, UNARY, pos + 1))
    else if level == PRIMARY then EvalPrimary(toks, pos)
    else
      var left := Eval(toks, level + 1, pos);
      if left.Err? || !HasOperators(level) then left else EvalRest(toks, level, left.v, left.pos)
  }

  /** Operators of a level, each with a right operand; comparisons do not chain. */
  function EvalRest(toks: seq<Tok>, level: nat, left: Value, pos: nat): (r: Parsed)
    requires Tokens(toks) && pos < |toks| && HasOperators(level)
    ensures r.Got? ==> pos <= r.pos < |toks|
    decreases |toks| - pos, 10 - level, 0
  {
    if !IsOpAt(toks[pos], level) then Got(left, pos)
    else
      var right := Eval(toks, level + 1, pos + 1);
      if right.Err? then right
      else
        match Apply(OpOf(toks[pos]).value, left, right.v)
        case Bad(e) => Err(e)
        case Fine(v) => if level == COMPARISON then Got(v, right.pos) else EvalRest(toks, level, v, right.pos)
  }

  function EvalPrimary(toks: seq<Tok>, pos: nat): (r: Parsed)
    requires Tokens(toks) && pos < |toks|
    ensures Moves(toks, pos, r)
    decreases |toks| - pos, 10 - PRIMARY, 0
  {
    match toks[pos]
    case IntTok(n) => Got(I(n), pos + 1)
    case StrTok(s) => Got(S(s), pos + 1)
    case Ident(_) => Got(I(0), pos + 1)
    case LParen =>
      var inner := Eval(toks, OR, pos + 1);
      if inner.Err? then inner
      else if !toks[inner.pos].RParen? then Err(ExpectedClose)
      else Got(inner.v, inner.pos + 1)
    case _ => Err(ExpectedValue(toks[pos]))
  }

  function Numeric(v: Value): int { if v.S? then (if v.s == "" then 0 else 1) else v.n }

  function EvalAll(toks: seq<Tok>): Result<int>
    requires Tokens(toks)
  {
    match Eval(toks, OR, 0)
    case Err(e) => Bad(e)
    case Got(v, pos) => if toks[pos].End? then Fine(Numeric(v)) else Bad(UnexpectedToken(toks[pos]))
  }

  lemma LevelIsRest(toks: seq<Tok>, level: nat, pos: nat)
    requires Tokens(toks) && pos < |toks| && HasOperators(level)
    ensures
      var left := Eval(toks, level + 1, pos);
      Eval(toks, level, pos) == if left.Err? then left else EvalRest(toks, level, left.v, left.pos)
  {
  }

  lemma RestStops(toks: seq<Tok>, level: nat, left: Value, pos: nat)
    requires Tokens(toks) && pos < |toks| && HasOperators(level) && !IsOpAt(toks[pos], level)
    ensures EvalRest(toks, level, left, pos) == Got(left, pos)
  {
  }

  lemma RestGoesOn(toks: seq<Tok>, level: nat, left: Value, pos: nat, op: BinOp)
    requires Tokens(toks) && pos < |toks| && HasOperators(level)
    requires OpOf(toks[pos]) == Some(op) && LevelOf(op) == level
    ensures pos + 1 < |toks|
    ensures
      var right := Eval(toks, level + 1, pos + 1);
      EvalRest(toks, level, left, pos) ==
        if right.Err? then right
        else
          var v := Apply(op, left, right.v);
          if v.Bad? then Err(v.e)
          else if level == COMPARISON then Got(v.v, right.pos)
          else EvalRest(toks, level, v.v, right.pos)
  {
    hide Eval, EvalPrimary, Apply;
  }

  lemma PrimaryIs(toks: seq<Tok>, pos: nat)
    requires Tokens(toks) && pos < |toks|
    ensures Eval(toks, PRIMARY, pos) == EvalPrimary(toks, pos)
  {
  }

  lemma NotLast(toks: seq<Tok>, pos: nat)
    requires Tokens(toks) && pos < |toks|
    ensures toks[pos] != End <==> pos + 1 < |toks|
  {
  }

  class Parser {
    const toks: seq<Tok>
    var pos: nat
    var failed: bool
    var reports: seq<Error>

    constructor (toks: seq<Tok>)
      requires Tokens(toks)
      ensures this.toks == toks && Valid() && pos == 0 && reports == []
    {
      this.toks, pos, failed, reports := toks, 0, false, [];
    }

    /** Nothing has failed so far. */
    ghost predicate Valid()
      reads this
    {
      Tokens(toks) && pos < |toks| && !failed
    }

    /** The method did what `want` says; a failure is reported once. */
    ghost predicate Did(r: Option<Value>, want: Parsed, before: seq<Error>)
      reads this
    {
      match want
      case Got(v, p) => r == Some(v) && pos == p && Valid() && reports == before
      case Err(e) => r == None && failed && reports == before + [e]
    }

    method Advance()
      requires Valid()
      modifies this`pos
      ensures Valid() && pos == if old(pos) + 1 < |toks| then old(pos) + 1 else old(pos)
    {
      if pos + 1 < |toks| { pos := pos + 1; }
    }

    method Fail(e: Error)
      modifies this`failed, this`reports
      ensures failed && reports == if old(failed) then old(reports) else old(reports) + [e]
    {
      if !failed { reports := reports + [e]; }
      failed := true;
    }

    method Parse() returns (r: Option<int>)
      requires Valid() && pos == 0
      modifies this
      ensures match EvalAll(toks)
              case Fine(n) => r == Some(n) && reports == old(reports)
              case Bad(e) => r == None && reports == old(reports) + [e]
    {
      hide Eval, Tokens;
      var v := ParseOr();
      if v.None? { return None; }
      if !toks[pos].End? {
        Fail(UnexpectedToken(toks[pos]));
        return None;
      }
      return Some(Numeric(v.value));
    }

    method ParseOr() returns (lhs: Option<Value>)
      requires Valid()
      modifies this
      ensures Did(lhs, Eval(toks, OR, old(pos)), old(reports))
      decreases |toks| - pos, 10 - OR
    {
      hide Eval, EvalRest, Tokens, EvalPrimary, OpOf;
      LevelIsRest(toks, OR, pos);
      lhs := ParseAnd();
      if lhs.None? { return None; }
      while IdentIs(toks[pos], "or")
        invariant Valid() && old(pos) < pos && lhs.Some? && reports == old(reports)
        invariant EvalRest(toks, OR, lhs.value, pos) == Eval(toks, OR, old(pos))
        decreases |toks| - pos
      {
        IsWord(toks[pos], Or);
        RestGoesOn(toks, OR, lhs.value, pos, Or);
        Advance();
        var rhs := ParseAnd();
        if rhs.None? { return None; }
        lhs := Some(Bit(Truthy(lhs.value) || Truthy(rhs.value)));
      }
      IsNoWord(toks[pos]);
      RestStops(toks, OR, lhs.value, pos);
    }

    method ParseAnd() returns (lhs: Option<Value>)
      requires Valid()
      modifies this
      ensures Did(lhs, Eval(toks, AND, old(pos)), old(reports))
      decreases |toks| - pos, 10 - AND
    {
      hide Eval, EvalRest, Tokens, EvalPrimary, OpOf;
      LevelIsRest(toks, AND, pos);
      lhs := ParseNot();
      if lhs.None? { return None; }
      while IdentIs(toks[pos], "and")
        invariant Valid() && old(pos) < pos && lhs.Some? && reports == old(reports)
        invariant EvalRest(toks, AND, lhs.value, pos) == Eval(toks, AND, old(pos))
        decreases |toks| - pos
      {
        IsWord(toks[pos], And);
        RestGoesOn(toks, AND, lhs.value, pos, And);
        Advance();
        var rhs := ParseNot();
        if rhs.None? { return None; }
        lhs := Some(Bit(Truthy(lhs.value) && Truthy(rhs.value)));
      }
      IsNoWord(toks[pos]);
      RestStops(toks, AND, lhs.value, pos);
    }

    method ParseNot() returns (v: Option<Value>)
      requires Valid()
      modifies this
      ensures Did(v, Eval(toks, NOT, old(pos)), old(reports))
      decreases |toks| - pos, 10 - NOT
    {
      if IdentIs(toks[pos], "not") {
        NotLast(toks, pos);
        Advance();
        v := ParseNot();
        if v.None? { return None; }
        return Some(Bit(!Truthy(v.value)));
      }
      v := ParseComparison();
    }

    method ParseComparison() returns (lhs: Option<Value>)
      requires Valid()
      modifies this
      ensures Did(lhs, Eval(toks, COMPARISON, old(pos)), old(reports))
      decreases |toks| - pos, 10 - COMPARISON
    {
      hide Eval, EvalRest, Tokens, EvalPrimary, OpOf;
      LevelIsRest(toks, COMPARISON, pos);
      lhs := ParseAdditive();
      if lhs.None? { return None; }
      var op := OpOf(toks[pos]);
      if op.None? || !IsComparison(op.value) {
        RestStops(toks, COMPARISON, lhs.value, pos);
        return;
      }
      RestGoesOn(toks, COMPARISON, lhs.value, pos, op.value);
      Advance();
      var rhs := ParseAdditive();
      if rhs.None? { return None; }
      var (a, b) := (lhs.value, rhs.value);
      if a.S? || b.S? {
        if !a.S? || !b.S? {
          Fail(Mismatch);
          return None;
        }
        if op.value != Eq && op.value != Ne {
          Fail(OnlyEquality);
          return None;
        }
        return Some(Bit(if op.value == Eq then a.s == b.s else a.s != b.s));
      }
      return Some(Bit(Compare(op.value, a.n, b.n)));
    }

    method RequireInt(v: Value, e: Error) returns (ok: bool)
      requires !failed
      modifies this`failed, this`reports
      ensures ok <==> v.I?
      ensures if ok then !failed && reports == old(reports) else failed && reports == old(reports) + [e]
    {
      if v.S? {
        Fail(e);
        return false;
      }
      return true;
    }

    method ParseAdditive() returns (lhs: Option<Value>)
      requires Valid()
      modifies this
      ensures Did(lhs, Eval(toks, ADDITIVE, old(pos)), old(reports))
      decreases |toks| - pos, 10 - ADDITIVE
    {
      hide Eval, EvalRest, Tokens, EvalPrimary, OpOf;
      LevelIsRest(toks, ADDITIVE, pos);
      lhs := ParseTerm();
      if lhs.None? { return None; }
      while OpOf(toks[pos]) == Some(Add) || OpOf(toks[pos]) == Some(Sub)
        invariant Valid() && old(pos) < pos && lhs.Some? && reports == old(reports)
        invariant EvalRest(toks, ADDITIVE, lhs.value, pos) == Eval(toks, ADDITIVE, old(pos))
        decreases |toks| - pos
      {
        var op := OpOf(toks[pos]).value;
        RestGoesOn(toks, ADDITIVE, lhs.value, pos, op);
        Advance();
        var rhs := ParseTerm();
        if rhs.None? { return None; }
        var ok := RequireInt(lhs.value, NeedsNumbers(op));
        if !ok { return None; }
        ok := RequireInt(rhs.value, NeedsNumbers(op));
        if !ok { return None; }
        lhs := Some(I(if op == Add then lhs.value.n + rhs.value.n else lhs.value.n - rhs.value.n));
      }
      RestStops(toks, ADDITIVE, lhs.value, pos);
    }

    method ParseTerm() returns (lhs: Option<Value>)
      requires Valid()
      modifies this
      ensures Did(lhs, Eval(toks, TERM, old(pos)), old(reports))
      decreases |toks| - pos, 10 - TERM
    {
      hide Eval, EvalRest, Tokens, EvalPrimary, OpOf, Divide, Remainder;
      LevelIsRest(toks, TERM, pos);
      lhs := ParseUnary();
      if lhs.None? { return None; }
      while OpOf(toks[pos]) == Some(Mul) || OpOf(toks[pos]) == Some(Div) || OpOf(toks[pos]) == Some(Mod)
        invariant Valid() && old(pos) < pos && lhs.Some? && reports == old(reports)
        invariant EvalRest(toks, TERM, lhs.value, pos) == Eval(toks, TERM, old(pos))
        decreases |toks| - pos
      {
        var op := OpOf(toks[pos]).value;
        RestGoesOn(toks, TERM, lhs.value, pos, op);
        Advance();
        var rhs := ParseUnary();
        if rhs.None? { return None; }
        var ok := RequireInt(lhs.value, NeedsNumbers(op));
        if !ok { return None; }
        ok := RequireInt(rhs.value, NeedsNumbers(op));
        if !ok { return None; }
        var (a, b) := (lhs.value.n, rhs.value.n);
        if op == Mul {
          lhs := Some(I(a * b));
        } else {
          if b == 0 {
            Fail(DivisionByZero);
            return None;
          }
          lhs := Some(I(if op == Div then Divide(a, b) else Remainder(a, b)));
        }
      }
      RestStops(toks, TERM, lhs.value, pos);
    }

    method ParseUnary() returns (v: Option<Value>)
      requires Valid()
      modifies this
      ensures Did(v, Eval(toks, UNARY, old(pos)), old(reports))
      decreases |toks| - pos, 10 - UNARY
    {
      if toks[pos] == OpTok("-") {
        NotLast(toks, pos);
        Advance();
        v := ParseUnary();
        if v.None? { return None; }
        var ok := RequireInt(v.value, NegatesString);
        if !ok { return None; }
        return Some(I(-v.value.n));
      }
      v := ParsePrimary();
    }

    method ParsePrimary() returns (v: Option<Value>)
      requires Valid()
      modifies this
      ensures Did(v, Eval(toks, PRIMARY, old(pos)), old(reports))
      decreases |toks| - pos, 10 - PRIMARY
    {
      PrimaryIs(toks, pos);
      NotLast(toks, pos);
      hide Eval, EvalRest, Tokens;
      match toks[pos]
      case IntTok(n) =>
        Advance();
        return Some(I(n));
      case StrTok(s) =>
        Advance();
        return Some(S(s));
      case LParen =>
        Advance();
        v := ParseOr();
        if v.None? { return None; }
        if !toks[pos].RParen? {
          Fail(ExpectedClose);
          return None;
        }
        NotLast(toks, pos);
        Advance();
      case Ident(_) =>
        Advance();
        return Some(I(0));
      case _ =>
        Fail(ExpectedValue(toks[pos]));
        return None;
    }
  }

  lemma IsWord(t: Tok, op: BinOp)
    requires (op.Or? && IdentIs(t, "or")) || (op.And? && IdentIs(t, "and"))
    ensures OpOf(t) == Some(op)
  {
    assert "or" != "and";
  }

  lemma IsNoWord(t: Tok)
    ensures !IdentIs(t, "or") ==> OpOf(t) != Some(Or)
    ensures !IdentIs(t, "and") ==> OpOf(t) != Some(And)
  {
  }
}
