/** What `#if` expressions compute and how they group, in terms of their text alone. */
module PpGrouping {
  import opened Options
  import opened Decimal
  import opened Chars
  import opened PpExpr
  import opened PpExprMeaning

  /** The binary operators, loosest first; those in one place bind alike. */
  const LOOSEST_FIRST: seq<seq<string>> := [
    ["or"], ["and"], ["=", "<>", "<", ">", "<=", ">="], ["+", "-"], ["*", "/", "mod"]]

  const AND_PLACE := 1

  const COMPARISON_PLACE := 2

  predicate IsAt(sym: string, place: nat) { place < |LOOSEST_FIRST| && sym in LOOSEST_FIRST[place] }

  /** The operator that a text stands for. */
  function OperatorOf(sym: string): BinOp {
    if sym == "or" then Or
    else if sym == "and" then And
    else if sym == "=" then Eq
    else if sym == "<>" then Ne
    else if sym == "<" then Lt
    else if sym == ">" then Gt
    else if sym == "<=" then Le
    else if sym == ">=" then Ge
    else if sym == "+" then Add
    else if sym == "-" then Sub
    else if sym == "*" then Mul
    else if sym == "/" then Div
    else Mod
  }

  function Computed(text: string): Result<int> { EvalAll(Scan(text)) }

  /** The number that a tree means, or its error. */
  function ValueOf(e: Expr): Result<int> {
    if Meaning(e).Bad? then Bad(Meaning(e).e) else Fine(Numeric(Meaning(e).v))
  }

  /** A word and the blank after it. */
  function W(s: string): string { s + " " }

  function N(n: nat): string { W(ToDec(n)) }

  /* ----- printing without parentheses ----- */

  lemma SymbolIs(sym: string, place: nat)
    requires IsAt(sym, place)
    ensures place < 5 && Spelling(TokOf(OperatorOf(sym))) == sym && LevelOf(OperatorOf(sym)) == LevelOfPlace(place)
  {
  }

  function LevelOfPlace(place: nat): nat { if place <= AND_PLACE then place + 1 else place + 2 }

  lemma NumberPrints(n: nat, level: nat)
    requires level <= PRIMARY
    ensures Print(Num(n), level) == [IntTok(n)]
  {
  }

  lemma BinPrints(sym: string, place: nat, l: Expr, r: Expr, level: nat)
    requires IsAt(sym, place) && level <= LevelOfPlace(place)
    ensures
      var own := LevelOfPlace(place);
      Print(Bin(OperatorOf(sym), l, r), level)
      == Print(l, LeftLevel(own)) + [TokOf(OperatorOf(sym))] + Print(r, own + 1)
  {
    hide TokOf, LevelOf, OperatorOf, IsAt;
    SymbolIs(sym, place);
  }

  /** The text of tokens, token by token. */
  lemma TextOfThree(a: Tok, b: Tok, c: Tok)
    ensures Text([a, b, c]) == W(Spelling(a)) + W(Spelling(b)) + W(Spelling(c))
  {
    hide Spelling;
    assert [a, b, c][1..] == [b, c] && [b, c][1..] == [c] && [c][1..] == [];
    assert Text([c]) == W(Spelling(c)) + "" == W(Spelling(c));
    assert Text([b, c]) == W(Spelling(b)) + Text([c]);
  }

  lemma TextOfFive(a: Tok, b: Tok, c: Tok, d: Tok, e: Tok)
    ensures Text([a, b, c, d, e])
         == W(Spelling(a)) + W(Spelling(b)) + W(Spelling(c)) + W(Spelling(d)) + W(Spelling(e))
  {
    hide Spelling, Text;
    TextOfThree(c, d, e);
    TextStep(a, [b, c, d, e]);
    TextStep(b, [c, d, e]);
    assert [a] + [b, c, d, e] == [a, b, c, d, e] && [b] + [c, d, e] == [b, c, d, e];
    Regroup(W(Spelling(a)), W(Spelling(b)), W(Spelling(c)), W(Spelling(d)), W(Spelling(e)));
  }

  lemma Regroup(a: string, b: string, c: string, d: string, e: string)
    ensures a + (b + (c + d + e)) == a + b + c + d + e
  {
  }

  lemma TextStep(a: Tok, rest: seq<Tok>)
    ensures Text([a] + rest) == W(Spelling(a)) + Text(rest)
  {
    assert ([a] + rest)[1..] == rest;
  }

  lemma TreeComputes(e: Expr, text: string)
    requires ProperNames(e) && Text(Print(e, OR)) == text
    ensures Computed(text) == ValueOf(e)
  {
    hide EvalAll, Scan, Text, Print, Meaning, ProperNames;
    EvaluatesToMeaning(e);
  }

  lemma NumbersAreProper(j: BinOp, k: BinOp, a: nat, b: nat, c: nat)
    ensures ProperNames(Bin(j, Num(a), Bin(k, Num(b), Num(c)))) && ProperNames(Bin(k, Bin(j, Num(a), Num(b)), Num(c)))
    ensures ProperNames(Bin(k, Num(a), Num(b))) && ProperNames(Not(Bin(k, Num(a), Num(b))))
    ensures ProperNames(Bin(k, Neg(Num(a)), Num(b))) && ProperNames(Bin(k, Not(Num(a)), Num(b)))
  {
    assert ProperNames(Num(a)) && ProperNames(Num(b)) && ProperNames(Num(c));
    assert ProperNames(Bin(j, Num(a), Num(b))) && ProperNames(Bin(k, Num(b), Num(c)));
    assert ProperNames(Bin(k, Num(a), Num(b))) && ProperNames(Neg(Num(a))) && ProperNames(Not(Num(a)));
  }

  lemma OneOperator(a: nat, sym: string, b: nat, place: nat)
    requires IsAt(sym, place)
    ensures Computed(N(a) + W(sym) + N(b)) == ValueOf(Bin(OperatorOf(sym), Num(a), Num(b)))
  {
    hide Print, Raw, TokOf, OperatorOf, IsAt, Text, ToDec, EvalAll, Scan, ValueOf;
    var e := Bin(OperatorOf(sym), Num(a), Num(b));
    SymbolIs(sym, place);
    BinPrints(sym, place, Num(a), Num(b), OR);
    NumberPrints(a, LeftLevel(LevelOfPlace(place)));
    NumberPrints(b, LevelOfPlace(place) + 1);
    TextOfThree(IntTok(a), TokOf(OperatorOf(sym)), IntTok(b));
    assert Print(e, OR) == [IntTok(a), TokOf(OperatorOf(sym)), IntTok(b)];
    NumbersAreProper(Or, OperatorOf(sym), a, b, 0);
    TreeComputes(e, N(a) + W(sym) + N(b));
  }

  /* ----- what the operators compute ----- */

  function Truth(b: bool): Result<int> { Fine(if b then 1 else 0) }

  /** Main result: what each operator computes of two numbers. */
  lemma OperatorsCompute(a: nat, b: nat)
    ensures Computed(N(a) + W("=") + N(b)) == Truth(a == b)
    ensures Computed(N(a) + W("<>") + N(b)) == Truth(a != b)
    ensures Computed(N(a) + W("<") + N(b)) == Truth(a < b)
    ensures Computed(N(a) + W(">") + N(b)) == Truth(a > b)
    ensures Computed(N(a) + W("<=") + N(b)) == Truth(a <= b)
    ensures Computed(N(a) + W(">=") + N(b)) == Truth(a >= b)
    ensures Computed(N(a) + W("or") + N(b)) == Truth(a != 0 || b != 0)
    ensures Computed(N(a) + W("and") + N(b)) == Truth(a != 0 && b != 0)
    ensures Computed(N(a) + W("+") + N(b)) == Fine(a + b)
    ensures Computed(N(a) + W("-") + N(b)) == Fine(a - b)
    ensures Computed(N(a) + W("*") + N(b)) == Fine(a * b)
    ensures Computed(N(a) + W("/") + N(b)) == if b == 0 then Bad(DivisionByZero) else Fine(a / b)
    ensures Computed(N(a) + W("mod") + N(b)) == if b == 0 then Bad(DivisionByZero) else Fine(a % b)
  {
    hide Computed, N, W;
    ComparisonsCompute(a, b);
    LogicComputes(a, b);
    SumsCompute(a, b);
    QuotientsCompute(a, b);
  }

  lemma Places()
    ensures IsAt("or", 0) && IsAt("and", 1) && IsAt("+", 3) && IsAt("-", 3)
    ensures IsAt("*", 4) && IsAt("/", 4) && IsAt("mod", 4)
    ensures IsAt("=", 2) && IsAt("<>", 2) && IsAt("<", 2) && IsAt(">", 2) && IsAt("<=", 2) && IsAt(">=", 2)
  {
  }

  /** What a tree of two numbers means. */
  lemma ValueOfTwo(op: BinOp, a: nat, b: nat)
    ensures
      var v := Apply(op, I(a), I(b));
      ValueOf(Bin(op, Num(a), Num(b))) == if v.Bad? then Bad(v.e) else Fine(Numeric(v.v))
  {
    hide Apply;
    assert Meaning(Num(a)) == Fine(I(a)) && Meaning(Num(b)) == Fine(I(b));
    MeaningOfBin(Bin(op, Num(a), Num(b)));
  }

  lemma ComparisonsCompute(a: nat, b: nat)
    ensures Computed(N(a) + W("=") + N(b)) == Truth(a == b)
    ensures Computed(N(a) + W("<>") + N(b)) == Truth(a != b)
    ensures Computed(N(a) + W("<") + N(b)) == Truth(a < b)
    ensures Computed(N(a) + W(">") + N(b)) == Truth(a > b)
    ensures Computed(N(a) + W("<=") + N(b)) == Truth(a <= b)
    ensures Computed(N(a) + W(">=") + N(b)) == Truth(a >= b)
  {
    hide Computed, N, W, IsAt, ValueOf;
    Places();
    OneOperator(a, "=", b, 2);
    OneOperator(a, "<>", b, 2);
    OneOperator(a, "<", b, 2);
    OneOperator(a, ">", b, 2);
    OneOperator(a, "<=", b, 2);
    OneOperator(a, ">=", b, 2);
    ValueOfTwo(Eq, a, b);
    ValueOfTwo(Ne, a, b);
    ValueOfTwo(Lt, a, b);
    ValueOfTwo(Gt, a, b);
    ValueOfTwo(Le, a, b);
    ValueOfTwo(Ge, a, b);
  }

  lemma LogicComputes(a: nat, b: nat)
    ensures Computed(N(a) + W("or") + N(b)) == Truth(a != 0 || b != 0)
    ensures Computed(N(a) + W("and") + N(b)) == Truth(a != 0 && b != 0)
  {
    hide Computed, N, W, IsAt, ValueOf;
    Places();
    OneOperator(a, "or", b, 0);
    OneOperator(a, "and", b, 1);
    ValueOfTwo(Or, a, b);
    ValueOfTwo(And, a, b);
  }

  lemma SumsCompute(a: nat, b: nat)
    ensures Computed(N(a) + W("+") + N(b)) == Fine(a + b)
    ensures Computed(N(a) + W("-") + N(b)) == Fine(a - b)
    ensures Computed(N(a) + W("*") + N(b)) == Fine(a * b)
  {
    hide Computed, N, W, IsAt, ValueOf;
    Places();
    OneOperator(a, "+", b, 3);
    OneOperator(a, "-", b, 3);
    OneOperator(a, "*", b, 4);
    ValueOfTwo(Add, a, b);
    ValueOfTwo(Sub, a, b);
    ValueOfTwo(Mul, a, b);
  }

  lemma QuotientsCompute(a: nat, b: nat)
    ensures Computed(N(a) + W("/") + N(b)) == if b == 0 then Bad(DivisionByZero) else Fine(a / b)
    ensures Computed(N(a) + W("mod") + N(b)) == if b == 0 then Bad(DivisionByZero) else Fine(a % b)
  {
    hide Computed, N, W, IsAt, ValueOf, Divide, Remainder;
    Places();
    OneOperator(a, "/", b, 4);
    OneOperator(a, "mod", b, 4);
    ValueOfTwo(Div, a, b);
    ValueOfTwo(Mod, a, b);
    if b > 0 { NatDivision(a, b); }
  }

  lemma NatDivision(a: nat, b: nat)
    requires b > 0
    ensures Divide(a, b) == a / b && Remainder(a, b) == a % b
  {
  }

  /* ----- grouping ----- */

  /** Main result: of two operators around a number the one that binds tighter takes
      it, and the left one if they bind alike; comparisons do not follow one another. */
  lemma TwoOperators(a: nat, j: string, b: nat, k: string, c: nat, first: nat, second: nat)
    requires IsAt(j, first) && IsAt(k, second) && !(first == second == COMPARISON_PLACE)
    ensures Computed(N(a) + W(j) + N(b) + W(k) + N(c))
         == ValueOf(if second > first then Bin(OperatorOf(j), Num(a), Bin(OperatorOf(k), Num(b), Num(c)))
                    else Bin(OperatorOf(k), Bin(OperatorOf(j), Num(a), Num(b)), Num(c)))
  {
    hide Print, Raw, TokOf, OperatorOf, IsAt, Text, ToDec, EvalAll, Scan, ValueOf;
    SymbolIs(j, first);
    SymbolIs(k, second);
    var (one, two) := (LevelOfPlace(first), LevelOfPlace(second));
    var (s, t) := (TokOf(OperatorOf(j)), TokOf(OperatorOf(k)));
    TextOfFive(IntTok(a), s, IntTok(b), t, IntTok(c));
    NumberPrints(a, LeftLevel(one));
    NumberPrints(c, two + 1);
    NumbersAreProper(OperatorOf(j), OperatorOf(k), a, b, c);
    if second > first {
      var inner := Bin(OperatorOf(k), Num(b), Num(c));
      BinPrints(k, second, Num(b), Num(c), one + 1);
      BinPrints(j, first, Num(a), inner, OR);
      NumberPrints(b, LeftLevel(two));
      var e := Bin(OperatorOf(j), Num(a), inner);
      assert Print(e, OR) == [IntTok(a), s, IntTok(b), t, IntTok(c)];
      TreeComputes(e, N(a) + W(j) + N(b) + W(k) + N(c));
    } else {
      var inner := Bin(OperatorOf(j), Num(a), Num(b));
      BinPrints(j, first, Num(a), Num(b), LeftLevel(two));
      BinPrints(k, second, inner, Num(c), OR);
      NumberPrints(b, one + 1);
      var e := Bin(OperatorOf(k), inner, Num(c));
      assert Print(e, OR) == [IntTok(a), s, IntTok(b), t, IntTok(c)];
      TreeComputes(e, N(a) + W(j) + N(b) + W(k) + N(c));
    }
  }

  /** A minus takes the number after it; `not` takes comparisons and all that binds
      tighter, but no `and` or `or`. */
  lemma PrefixFirst(a: nat, k: string, b: nat, place: nat)
    requires IsAt(k, place)
    ensures Computed(W("-") + N(a) + W(k) + N(b)) == ValueOf(Bin(OperatorOf(k), Neg(Num(a)), Num(b)))
    ensures Computed(W("not") + N(a) + W(k) + N(b))
         == ValueOf(if place <= AND_PLACE then Bin(OperatorOf(k), Not(Num(a)), Num(b))
                    else Not(Bin(OperatorOf(k), Num(a), Num(b))))
  {
    hide *;
    MinusFirst(a, k, b, place);
    NotFirst(a, k, b, place);
  }

  lemma MinusFirst(a: nat, k: string, b: nat, place: nat)
    requires IsAt(k, place)
    ensures Computed(W("-") + N(a) + W(k) + N(b)) == ValueOf(Bin(OperatorOf(k), Neg(Num(a)), Num(b)))
  {
    hide Print, Raw, TokOf, OperatorOf, IsAt, Text, ToDec, EvalAll, Scan, ValueOf;
    SymbolIs(k, place);
    var (own, t) := (LevelOfPlace(place), TokOf(OperatorOf(k)));
    NumberPrints(a, UNARY);
    NumberPrints(b, own + 1);
    PrefixesPrint(Num(a), LeftLevel(own));
    TextOfThree(IntTok(a), t, IntTok(b));
    TextStep(OpTok("-"), [IntTok(a), t, IntTok(b)]);
    NumbersAreProper(Or, OperatorOf(k), a, b, 0);
    BinPrints(k, place, Neg(Num(a)), Num(b), OR);
    var e := Bin(OperatorOf(k), Neg(Num(a)), Num(b));
    assert Print(e, OR) == [OpTok("-")] + [IntTok(a), t, IntTok(b)];
    TreeComputes(e, W("-") + N(a) + W(k) + N(b));
  }

  lemma NotFirst(a: nat, k: string, b: nat, place: nat)
    requires IsAt(k, place)
    ensures Computed(W("not") + N(a) + W(k) + N(b))
         == ValueOf(if place <= AND_PLACE then Bin(OperatorOf(k), Not(Num(a)), Num(b))
                    else Not(Bin(OperatorOf(k), Num(a), Num(b))))
  {
    hide Print, Raw, TokOf, OperatorOf, IsAt, Text, ToDec, EvalAll, Scan, ValueOf;
    SymbolIs(k, place);
    var (own, t) := (LevelOfPlace(place), TokOf(OperatorOf(k)));
    NumberPrints(b, own + 1);
    TextOfThree(IntTok(a), t, IntTok(b));
    TextStep(Ident("not"), [IntTok(a), t, IntTok(b)]);
    NumbersAreProper(Or, OperatorOf(k), a, b, 0);
    if place <= AND_PLACE {
      NumberPrints(a, NOT);
      PrefixesPrint(Num(a), LeftLevel(own));
      BinPrints(k, place, Not(Num(a)), Num(b), OR);
      var e := Bin(OperatorOf(k), Not(Num(a)), Num(b));
      assert Print(e, OR) == [Ident("not")] + [IntTok(a), t, IntTok(b)];
      TreeComputes(e, W("not") + N(a) + W(k) + N(b));
    } else {
      var inner := Bin(OperatorOf(k), Num(a), Num(b));
      NumberPrints(a, LeftLevel(own));
      BinPrints(k, place, Num(a), Num(b), NOT);
      PrefixesPrint(inner, OR);
      assert Print(Not(inner), OR) == [Ident("not")] + [IntTok(a), t, IntTok(b)];
      TreeComputes(Not(inner), W("not") + N(a) + W(k) + N(b));
    }
  }

  lemma PrefixesPrint(x: Expr, level: nat)
    ensures level <= NOT ==> Print(Not(x), level) == [Ident("not")] + Print(x, NOT)
    ensures level <= UNARY ==> Print(Neg(x), level) == [OpTok("-")] + Print(x, UNARY)
  {
  }
}
