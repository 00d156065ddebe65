/** The fragment of C++ that control flow is lowered to: scoped declarations of
    compiler temporaries, if/else, loops, `break`, labels and `goto`. */
module Cpp {
  import opened Options
  import opened Basic

  /** Generated names: a fixed prefix and the number drawn from the shared counter. */
  datatype Prefix = ForEnd | ForStep | ForExit | Sel | DoExit | WhileExit

  datatype Gen = Gen(prefix: Prefix, n: nat)

  datatype Cond =
    | NotZero(e: Expr)                       // (e != 0)
    | IsZero(e: Expr)                        // !(e != 0)
    | NotNegative(t: Gen)                    // t >= 0
    | VarLe(name: string, t: Gen)            // x <= t
    | VarGe(name: string, t: Gen)            // x >= t
    | EqualsAny(t: Gen, es: seq<Expr>)       // t == e0 || t == e1 || ...

  datatype Init = FromExpr(e: Expr) | LiteralOne

  datatype CBlock = CNil | CCons(head: CStmt, tail: CBlock)

  datatype CStmt =
    | CAssign(name: string, e: Expr)
    | CSetRet(e: Expr)
    | CEffect(e: Expr)
    | CDecl(t: Gen, init: Init)
    | CIf(c: Cond, thn: CBlock, els: CBlock)
    | CScope(body: CBlock)
    | CForever(body: CBlock)
    | CFor(c: Cond, name: string, inc: Gen, body: CBlock)
    | CWhile(c: Cond, body: CBlock)
    | CBreak
    | CGoto(target: Gen)
    | CLabel(target: Gen)
    | CReturn
    | CReturnRet
    | CReturnValue(e: Expr)

  /** `temps` holds the temporaries in scope; leaving braces drops the ones
      declared inside. */
  datatype CState = CState(st: State, temps: map<Gen, Val>)

  datatype COutcome = CNormal | Breaking | Jumping(target: Gen) | CReturned(v: Option<Val>) | Undeclared

  datatype CResult = CTimeout | CDone(outcome: COutcome, cs: CState)

  function Append(a: CBlock, b: CBlock): CBlock {
    match a
    case CNil => b
    case CCons(s, rest) => CCons(s, Append(rest, b))
  }

  /** Whether the label stands in this statement list itself (not in a nested one). */
  predicate HasLabel(b: CBlock, l: Gen) {
    b.CCons? && (b.head == CLabel(l) || HasLabel(b.tail, l))
  }

  /** The statements that follow a label of the list. */
  function After(b: CBlock, l: Gen): (r: CBlock)
    requires HasLabel(b, l)
    ensures r < b
  {
    if b.head == CLabel(l) then b.tail else After(b.tail, l)
  }

  /** A temporary used outside its scope makes the condition meaningless. */
  predicate InScope(c: Cond, temps: map<Gen, Val>) {
    match c
    case NotZero(_) => true
    case IsZero(_) => true
    case NotNegative(t) => t in temps
    case VarLe(_, t) => t in temps
    case VarGe(_, t) => t in temps
    case EqualsAny(t, _) => t in temps
  }

  /** `t == e0 || t == e1 || ...` stops at the first equal operand. */
  ghost function AnyEqual(m: Meaning, v: Val, es: seq<Expr>, st: State): (bool, State) {
    if es == [] then (false, st)
    else
      var (w, st1) := Eval(m, es[0], st);
      if v == w then (true, st1) else AnyEqual(m, v, es[1..], st1)
  }

  ghost function EvalCond(m: Meaning, c: Cond, cs: CState): (bool, CState)
    requires InScope(c, cs.temps)
  {
    match c
    case NotZero(e) => var (v, st) := Eval(m, e, cs.st); (v != ZERO, cs.(st := st))
    case IsZero(e) => var (v, st) := Eval(m, e, cs.st); (v == ZERO, cs.(st := st))
    case NotNegative(t) => (AtMost(ZERO, cs.temps[t]), cs)
    case VarLe(x, t) => (AtMost(Lookup(cs.st.env, x), cs.temps[t]), cs)
    case VarGe(x, t) => (AtMost(cs.temps[t], Lookup(cs.st.env, x)), cs)
    case EqualsAny(t, es) => var (b, st) := AnyEqual(m, cs.temps[t], es, cs.st); (b, cs.(st := st))
  }

  ghost function ExecC(m: Meaning, s: CStmt, cs: CState, fuel: nat): CResult
    decreases fuel, s, 1
  {
    match s
    case CAssign(x, e) =>
      var (v, st) := Eval(m, e, cs.st);
      CDone(CNormal, cs.(st := st.(env := Store(m, st.env, x, v))))
    case CSetRet(e) =>
      var (v, st) := Eval(m, e, cs.st);
      CDone(CNormal, cs.(st := st.(ret := v)))
    case CEffect(e) =>
      CDone(CNormal, cs.(st := Eval(m, e, cs.st).1))
    case CDecl(t, init) =>
      var (v, st) := if init.FromExpr? then Eval(m, init.e, cs.st) else (ONE, cs.st);
      CDone(CNormal, CState(st, cs.temps[t := v]))
    case CIf(c, thn, els) =>
      if !InScope(c, cs.temps) then CDone(Undeclared, cs)
      else
        var (b, cs1) := EvalCond(m, c, cs);
        if b then ExecScope(m, thn, cs1, fuel) else ExecScope(m, els, cs1, fuel)
    case CScope(body) => ExecScope(m, body, cs, fuel)
    case CForever(body) => ExecForever(m, body, cs, fuel)
    case CFor(c, x, inc, body) => ExecFor(m, c, x, inc, body, cs, fuel)
    case CWhile(c, body) => ExecWhile(m, c, body, cs, fuel)
    case CBreak => CDone(Breaking, cs)
    case CGoto(l) => CDone(Jumping(l), cs)
    case CLabel(_) => CDone(CNormal, cs)
    case CReturn => CDone(CReturned(None), cs)
    case CReturnRet => CDone(CReturned(Some(cs.st.ret)), cs)
    case CReturnValue(e) =>
      var (v, st) := Eval(m, e, cs.st);
      CDone(CReturned(Some(v)), cs.(st := st))
  }

  /** A jump is taken up by the nearest enclosing list that still has its label
      ahead.  A jump with no such list leaves the function body as `Jumping`. */
  ghost function ExecCBlock(m: Meaning, b: CBlock, cs: CState, fuel: nat): CResult
    decreases fuel, b, 0
  {
    match b
    case CNil => CDone(CNormal, cs)
    case CCons(s, rest) =>
      var r := ExecC(m, s, cs, fuel);
      if r.CDone? && r.outcome.CNormal? then ExecCBlock(m, rest, r.cs, fuel)
      else if r.CDone? && r.outcome.Jumping? && HasLabel(rest, r.outcome.target) then
        ExecCBlock(m, After(rest, r.outcome.target), r.cs, fuel)
      else r
  }

  ghost function ExecScope(m: Meaning, b: CBlock, cs: CState, fuel: nat): CResult
    decreases fuel, b, 1
  {
    var r := ExecCBlock(m, b, cs, fuel);
    if r.CDone? then r.(cs := r.cs.(temps := cs.temps)) else r
  }

  ghost function ExecForever(m: Meaning, body: CBlock, cs: CState, fuel: nat): CResult
    decreases fuel, body, 2
  {
    if fuel == 0 then CTimeout
    else
      var r := ExecScope(m, body, cs, fuel - 1);
      if r.CTimeout? then r
      else if r.outcome.CNormal? then ExecForever(m, body, r.cs, fuel - 1)
      else if r.outcome.Breaking? then CDone(CNormal, r.cs)
      else r
  }

  /** `for (; c; x += inc) { body }` */
  ghost function ExecFor(m: Meaning, c: Cond, x: string, inc: Gen, body: CBlock, cs: CState, fuel: nat): CResult
    decreases fuel, body, 2
  {
    if fuel == 0 then CTimeout
    else if !InScope(c, cs.temps) || inc !in cs.temps then CDone(Undeclared, cs)
    else
      var (b, cs1) := EvalCond(m, c, cs);
      if !b then CDone(CNormal, cs1)
      else
        var r := ExecScope(m, body, cs1, fuel - 1);
        if r.CTimeout? then r
        else if r.outcome.CNormal? then
          var next := Store(m, r.cs.st.env, x, Sum(Lookup(r.cs.st.env, x), cs.temps[inc]));
          ExecFor(m, c, x, inc, body, r.cs.(st := r.cs.st.(env := next)), fuel - 1)
        else if r.outcome.Breaking? then CDone(CNormal, r.cs)
        else r
  }

  ghost function ExecWhile(m: Meaning, c: Cond, body: CBlock, cs: CState, fuel: nat): CResult
    decreases fuel, body, 2
  {
    if fuel == 0 then CTimeout
    else if !InScope(c, cs.temps) then CDone(Undeclared, cs)
    else
      var (b, cs1) := EvalCond(m, c, cs);
      if !b then CDone(CNormal, cs1)
      else
        var r := ExecScope(m, body, cs1, fuel - 1);
        if r.CTimeout? then r
        else if r.outcome.CNormal? then ExecWhile(m, c, body, r.cs, fuel - 1)
        else if r.outcome.Breaking? then CDone(CNormal, r.cs)
        else r
  }

  /** Running statements one list after the other is running their concatenation,
      except that the second list also takes up jumps to its labels. */
  lemma {:induction false} ExecAppend(m: Meaning, a: CBlock, b: CBlock, cs: CState, fuel: nat)
    ensures
      var r := ExecCBlock(m, a, cs, fuel);
      ExecCBlock(m, Append(a, b), cs, fuel) ==
        if r.CDone? && r.outcome.CNormal? then ExecCBlock(m, b, r.cs, fuel)
        else if r.CDone? && r.outcome.Jumping? && HasLabel(b, r.outcome.target) then
          ExecCBlock(m, After(b, r.outcome.target), r.cs, fuel)
        else r
    decreases a
  {
    match a
    case CNil =>
    case CCons(s, rest) =>
      var r := ExecC(m, s, cs, fuel);
      if r.CDone? && r.outcome.CNormal? {
        ExecAppend(m, rest, b, r.cs, fuel);
      } else if r.CDone? && r.outcome.Jumping? {
        var l := r.outcome.target;
        LabelAppend(rest, b, l);
        if HasLabel(rest, l) {
          ExecAppend(m, After(rest, l), b, r.cs, fuel);
        }
      }
  }

  lemma {:induction false} LabelAppend(a: CBlock, b: CBlock, l: Gen)
    ensures HasLabel(Append(a, b), l) <==> HasLabel(a, l) || HasLabel(b, l)
    ensures HasLabel(a, l) ==> After(Append(a, b), l) == Append(After(a, l), b)
    ensures !HasLabel(a, l) && HasLabel(b, l) ==> After(Append(a, b), l) == After(b, l)
  {
    if a.CCons? { LabelAppend(a.tail, b, l); }
  }
}
