/** BASIC control flow: the statements that code generation lowers, and their meaning.

    Expressions are kept as source text.  Their meaning is a parameter, so every
    result below holds whatever expressions compute, including function calls
    that change variables or print. */
module Basic {
  import opened Options

  datatype Val = Num(n: real) | Str(s: string)

  const ZERO := Num(0.0)
  const ONE := Num(1.0)

  predicate NonZero(v: Val) { v != ZERO }

  predicate AtMost(a: Val, b: Val) { a.Num? && b.Num? && a.n <= b.n }

  function Sum(a: Val, b: Val): Val {
    if a.Num? && b.Num? then Num(a.n + b.n) else a
  }

  datatype Expr = Expr(text: string)

  /** Variables by canonical name, and what has been printed so far. */
  datatype Env = Env(vars: map<string, Val>, printed: seq<Val>)

  function Lookup(env: Env, name: string): Val {
    if name in env.vars then env.vars[name] else ZERO
  }

  /** The meaning of expressions and of storing into a declared type:
      `eval` may change the environment, `conv(x, v)` is what `x` holds after
      `x = v`. */
  datatype Meaning = Meaning(eval: (Expr, Env) -> (Val, Env), conv: (string, Val) -> Val)

  function Store(m: Meaning, env: Env, name: string, v: Val): Env {
    env.(vars := env.vars[name := m.conv(name, v)])
  }

  datatype LoopKind = ForKind | DoKind | WhileKind | SubKind | FunctionKind

  predicate IsLoop(k: LoopKind) { k.ForKind? || k.DoKind? || k.WhileKind? }

  datatype Test = NoTest | WhileTest(cond: Expr) | UntilTest(cond: Expr)

  datatype Block = Nil | Cons(head: Stmt, tail: Block)

  datatype IfArms = EndIf | Else(body: Block) | ElseIf(cond: Expr, body: Block, rest: IfArms)

  datatype Cases = EndSelect | CaseElse(body: Block) | Case(matches: seq<Expr>, body: Block, rest: Cases)

  datatype Stmt =
    | Assign(name: string, e: Expr)
    | ReturnAssign(e: Expr)
    | Effect(e: Expr)
    | If(cond: Expr, thn: Block, arms: IfArms)
    | Select(e: Expr, cases: Cases)
    | For(name: string, start: Expr, to: Expr, step: Option<Expr>, body: Block)
    | Do(pre: Test, body: Block, post: Test)
    | While(cond: Expr, body: Block)
    | Exit(kind: LoopKind)
    | Return(result: Option<Expr>)

  /** A running procedure: its environment and the value assigned so far to
      the function's own name. */
  datatype State = State(env: Env, ret: Val)

  datatype Outcome = Normal | Exiting(kind: LoopKind) | Returned(v: Option<Val>)

  /** `Timeout` means that `fuel` loop iterations were not enough; a statement
      diverges when it times out for every fuel. */
  datatype Result = Timeout | Done(outcome: Outcome, st: State)

  ghost function Eval(m: Meaning, e: Expr, st: State): (Val, State) {
    var (v, env) := m.eval(e, st.env);
    (v, st.(env := env))
  }

  ghost function Exec(m: Meaning, s: Stmt, st: State, fuel: nat): Result
    decreases fuel, s, 0
  {
    match s
    case Assign(x, e) =>
      var (v, st1) := Eval(m, e, st);
      Done(Normal, st1.(env := Store(m, st1.env, x, v)))
    case ReturnAssign(e) =>
      var (v, st1) := Eval(m, e, st);
      Done(Normal, st1.(ret := v))
    case Effect(e) =>
      Done(Normal, Eval(m, e, st).1)
    case If(c, thn, arms) =>
      var (v, st1) := Eval(m, c, st);
      if NonZero(v) then ExecBlock(m, thn, st1, fuel) else ExecArms(m, arms, st1, fuel)
    case Select(e, cases) =>
      var (v, st1) := Eval(m, e, st);
      ExecCases(m, v, cases, st1, fuel)
    case For(x, start, to, step, body) =>
      var (last, st1) := Eval(m, to, st);
      var (inc, st2) := if step.Some? then Eval(m, step.value, st1) else (ONE, st1);
      var (first, st3) := Eval(m, start, st2);
      ForLoop(m, x, last, inc, body, st3.(env := Store(m, st3.env, x, first)), fuel)
    case Do(pre, body, post) =>
      DoLoop(m, pre, body, post, st, fuel)
    case While(c, body) =>
      WhileLoop(m, c, body, st, fuel)
    case Exit(k) =>
      if k.SubKind? then Done(Returned(None), st)
      else if k.FunctionKind? then Done(Returned(Some(st.ret)), st)
      else Done(Exiting(k), st)
    case Return(result) =>
      if result.None? then Done(Returned(None), st)
      else
        var (v, st1) := Eval(m, result.value, st);
        Done(Returned(Some(v)), st1)
  }

  ghost function ExecBlock(m: Meaning, b: Block, st: State, fuel: nat): Result
    decreases fuel, b, 0
  {
    match b
    case Nil => Done(Normal, st)
    case Cons(s, rest) =>
      var r := Exec(m, s, st, fuel);
      if r.Done? && r.outcome.Normal? then ExecBlock(m, rest, r.st, fuel) else r
  }

  ghost function ExecArms(m: Meaning, arms: IfArms, st: State, fuel: nat): Result
    decreases fuel, arms, 0
  {
    match arms
    case EndIf => Done(Normal, st)
    case Else(body) => ExecBlock(m, body, st, fuel)
    case ElseIf(c, body, rest) =>
      var (v, st1) := Eval(m, c, st);
      if NonZero(v) then ExecBlock(m, body, st1, fuel) else ExecArms(m, rest, st1, fuel)
  }

  /** Whether the selector equals one of the listed values; later values are
      not evaluated once one matches. */
  ghost function MatchesAny(m: Meaning, v: Val, es: seq<Expr>, st: State): (bool, State) {
    if es == [] then (false, st)
    else
      var (w, st1) := Eval(m, es[0], st);
      if v == w then (true, st1) else MatchesAny(m, v, es[1..], st1)
  }

  ghost function ExecCases(m: Meaning, v: Val, cases: Cases, st: State, fuel: nat): Result
    decreases fuel, cases, 0
  {
    match cases
    case EndSelect => Done(Normal, st)
    case CaseElse(body) => ExecBlock(m, body, st, fuel)
    case Case(es, body, rest) =>
      var (hit, st1) := MatchesAny(m, v, es, st);
      if hit then ExecBlock(m, body, st1, fuel) else ExecCases(m, v, rest, st1, fuel)
  }

  /** A FOR loop counts up when the step is at least zero and down otherwise. */
  predicate InRange(i: Val, last: Val, inc: Val) {
    if AtMost(ZERO, inc) then AtMost(i, last) else AtMost(last, i)
  }

  ghost function ForLoop(m: Meaning, x: string, last: Val, inc: Val, body: Block, st: State, fuel: nat): Result
    decreases fuel, body, 1
  {
    if fuel == 0 then Timeout
    else if !InRange(Lookup(st.env, x), last, inc) then Done(Normal, st)
    else
      var r := ExecBlock(m, body, st, fuel - 1);
      if r.Timeout? then r
      else if r.outcome.Normal? then
        var next := Store(m, r.st.env, x, Sum(Lookup(r.st.env, x), inc));
        ForLoop(m, x, last, inc, body, r.st.(env := next), fuel - 1)
      else if r.outcome == Exiting(ForKind) then Done(Normal, r.st)
      else r
  }

  /** Whether a DO test lets the loop go on. */
  ghost function Continues(m: Meaning, t: Test, st: State): (bool, State) {
    match t
    case NoTest => (true, st)
    case WhileTest(c) => var (v, st1) := Eval(m, c, st); (NonZero(v), st1)
    case UntilTest(c) => var (v, st1) := Eval(m, c, st); (!NonZero(v), st1)
  }

  ghost function DoLoop(m: Meaning, pre: Test, body: Block, post: Test, st: State, fuel: nat): Result
    decreases fuel, body, 1
  {
    if fuel == 0 then Timeout
    else
      var (go, st1) := Continues(m, pre, st);
      if !go then Done(Normal, st1)
      else
        var r := ExecBlock(m, body, st1, fuel - 1);
        if r.Timeout? then r
        else if r.outcome.Normal? then
          var (again, st2) := Continues(m, post, r.st);
          if again then DoLoop(m, pre, body, post, st2, fuel - 1) else Done(Normal, st2)
        else if r.outcome == Exiting(DoKind) then Done(Normal, r.st)
        else r
  }

  ghost function WhileLoop(m: Meaning, c: Expr, body: Block, st: State, fuel: nat): Result
    decreases fuel, body, 1
  {
    if fuel == 0 then Timeout
    else
      var (v, st1) := Eval(m, c, st);
      if !NonZero(v) then Done(Normal, st1)
      else
        var r := ExecBlock(m, body, st1, fuel - 1);
        if r.Timeout? then r
        else if r.outcome.Normal? then WhileLoop(m, c, body, r.st, fuel - 1)
        else if r.outcome == Exiting(WhileKind) then Done(Normal, r.st)
        else r
  }

  /** A procedure body and the kind of procedure it belongs to. */
  datatype Proc = MainProgram(body: Block) | Sub(body: Block) | Function(body: Block)

  /** A module's top level: procedures, with the statements of the main program
      before, between and after them. */
  datatype Item = Declaration(p: Proc) | Statement(s: Stmt)

  /** The main program: all statements of the top level, in order. */
  function MainBlock(items: seq<Item>): Block {
    if items == [] then Nil
    else if items[0].Statement? then Cons(items[0].s, MainBlock(items[1..]))
    else MainBlock(items[1..])
  }

  function Procs(items: seq<Item>): seq<Proc> {
    if items == [] then []
    else (if items[0].Declaration? then [items[0].p] else []) + Procs(items[1..])
  }

  /** What a procedure returns: a FUNCTION that runs off its end returns the
      value last assigned to its own name. */
  datatype ProcResult = Diverging | Finished(v: Option<Val>, env: Env) | Escaped

  ghost function RunProc(m: Meaning, p: Proc, env: Env, fuel: nat): ProcResult {
    match ExecBlock(m, p.body, State(env, ZERO), fuel)
    case Timeout => Diverging
    case Done(Normal, st) => Finished(if p.Function? then Some(st.ret) else None, st.env)
    case Done(Returned(v), st) => Finished(v, st.env)
    case Done(Exiting(_), _) => Escaped
  }

  /** Fuel only decides whether a run is cut off: more of it never changes a
      result that was reached. */
  lemma {:induction false} MoreFuel(m: Meaning, s: Stmt, st: State, f: nat, g: nat)
    requires f <= g && Exec(m, s, st, f).Done?
    ensures Exec(m, s, st, g) == Exec(m, s, st, f)
    decreases f, s, 0
  {
    match s
    case If(c, thn, arms) =>
      var (v, st1) := Eval(m, c, st);
      if NonZero(v) { MoreFuelBlock(m, thn, st1, f, g); } else { MoreFuelArms(m, arms, st1, f, g); }
    case Select(e, cases) =>
      var (v, st1) := Eval(m, e, st);
      MoreFuelCases(m, v, cases, st1, f, g);
    case For(x, start, to, step, body) =>
      var (last, st1) := Eval(m, to, st);
      var (inc, st2) := if step.Some? then Eval(m, step.value, st1) else (ONE, st1);
      var (first, st3) := Eval(m, start, st2);
      MoreFuelFor(m, x, last, inc, body, st3.(env := Store(m, st3.env, x, first)), f, g);
    case Do(pre, body, post) => MoreFuelDo(m, pre, body, post, st, f, g);
    case While(c, body) => MoreFuelWhile(m, c, body, st, f, g);
    case _ =>
  }

  lemma {:induction false} MoreFuelBlock(m: Meaning, b: Block, st: State, f: nat, g: nat)
    requires f <= g && ExecBlock(m, b, st, f).Done?
    ensures ExecBlock(m, b, st, g) == ExecBlock(m, b, st, f)
    decreases f, b, 0
  {
    if b.Cons? {
      MoreFuel(m, b.head, st, f, g);
      var r := Exec(m, b.head, st, f);
      if r.outcome.Normal? { MoreFuelBlock(m, b.tail, r.st, f, g); }
    }
  }

  lemma {:induction false} MoreFuelArms(m: Meaning, arms: IfArms, st: State, f: nat, g: nat)
    requires f <= g && ExecArms(m, arms, st, f).Done?
    ensures ExecArms(m, arms, st, g) == ExecArms(m, arms, st, f)
    decreases f, arms, 0
  {
    match arms
    case EndIf =>
    case Else(body) => MoreFuelBlock(m, body, st, f, g);
    case ElseIf(c, body, rest) =>
      var (v, st1) := Eval(m, c, st);
      if NonZero(v) { MoreFuelBlock(m, body, st1, f, g); } else { MoreFuelArms(m, rest, st1, f, g); }
  }

  lemma {:induction false} MoreFuelCases(m: Meaning, v: Val, cases: Cases, st: State, f: nat, g: nat)
    requires f <= g && ExecCases(m, v, cases, st, f).Done?
    ensures ExecCases(m, v, cases, st, g) == ExecCases(m, v, cases, st, f)
    decreases f, cases, 0
  {
    match cases
    case EndSelect =>
    case CaseElse(body) => MoreFuelBlock(m, body, st, f, g);
    case Case(es, body, rest) =>
      var (hit, st1) := MatchesAny(m, v, es, st);
      if hit { MoreFuelBlock(m, body, st1, f, g); } else { MoreFuelCases(m, v, rest, st1, f, g); }
  }

  lemma {:induction false} MoreFuelFor(m: Meaning, x: string, last: Val, inc: Val, body: Block, st: State,
                                       f: nat, g: nat)
    requires f <= g && ForLoop(m, x, last, inc, body, st, f).Done?
    ensures ForLoop(m, x, last, inc, body, st, g) == ForLoop(m, x, last, inc, body, st, f)
    decreases f, body, 1
  {
    if InRange(Lookup(st.env, x), last, inc) {
      MoreFuelBlock(m, body, st, f - 1, g - 1);
      var r := ExecBlock(m, body, st, f - 1);
      if r.outcome.Normal? {
        var next := Store(m, r.st.env, x, Sum(Lookup(r.st.env, x), inc));
        MoreFuelFor(m, x, last, inc, body, r.st.(env := next), f - 1, g - 1);
      }
    }
  }

  lemma {:induction false} MoreFuelDo(m: Meaning, pre: Test, body: Block, post: Test, st: State, f: nat, g: nat)
    requires f <= g && DoLoop(m, pre, body, post, st, f).Done?
    ensures DoLoop(m, pre, body, post, st, g) == DoLoop(m, pre, body, post, st, f)
    decreases f, body, 1
  {
    var (go, st1) := Continues(m, pre, st);
    if go {
      MoreFuelBlock(m, body, st1, f - 1, g - 1);
      var r := ExecBlock(m, body, st1, f - 1);
      if r.outcome.Normal? {
        var (again, st2) := Continues(m, post, r.st);
        if again { MoreFuelDo(m, pre, body, post, st2, f - 1, g - 1); }
      }
    }
  }

  lemma {:induction false} MoreFuelWhile(m: Meaning, c: Expr, body: Block, st: State, f: nat, g: nat)
    requires f <= g && WhileLoop(m, c, body, st, f).Done?
    ensures WhileLoop(m, c, body, st, g) == WhileLoop(m, c, body, st, f)
    decreases f, body, 1
  {
    var (v, st1) := Eval(m, c, st);
    if NonZero(v) {
      MoreFuelBlock(m, body, st1, f - 1, g - 1);
      var r := ExecBlock(m, body, st1, f - 1);
      if r.outcome.Normal? { MoreFuelWhile(m, c, body, r.st, f - 1, g - 1); }
    }
  }
}
