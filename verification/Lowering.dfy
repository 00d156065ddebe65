/** Lowering preserves meaning: the emitted C++ and the BASIC source agree for
    every amount of fuel, so they also diverge together. */
module Lowering {
  import opened Options
  import opened Basic
  import opened Cpp
  import opened Codegen

  /** Every label on the stack was drawn before the counter reached `n`. */
  ghost predicate StackBelow(stack: LoopStack, n: nat) {
    forall i :: 0 <= i < |stack| ==> stack[i].1.n < n
  }

  /** The C++ result that renders a BASIC result: leaving a loop is a jump to the
      label of the nearest loop of that kind, and no temporary leaks. */
  ghost predicate Renders(r: Result, c: CResult, stack: LoopStack, temps: map<Gen, Val>) {
    match r
    case Timeout => c == CTimeout
    case Done(Normal, st) => c == CDone(CNormal, CState(st, temps))
    case Done(Returned(v), st) => c == CDone(CReturned(v), CState(st, temps))
    case Done(Exiting(k), st) =>
      var l := FindLabel(stack, k);
      l.Some? && c == CDone(Jumping(l.value), CState(st, temps))
  }

  /** As `Renders`, for a loop whose own label has not been reached yet. */
  ghost predicate RendersLoop(r: Result, c: CResult, stack: LoopStack, target: Gen, temps: map<Gen, Val>) {
    if r.Done? && r.outcome.Normal? then
      c == CDone(CNormal, CState(r.st, temps)) || c == CDone(Jumping(target), CState(r.st, temps))
    else Renders(r, c, stack, temps)
  }

  lemma {:induction false} FoundBelow(stack: LoopStack, k: LoopKind, n: nat)
    requires StackBelow(stack, n)
    ensures FindLabel(stack, k).Some? ==> FindLabel(stack, k).value.n < n
  {
    if stack != [] && stack[|stack| - 1].0 != k {
      FoundBelow(stack[..|stack| - 1], k, n);
    }
  }

  lemma FindPushed(stack: LoopStack, kind: LoopKind, l: Gen, k: LoopKind)
    ensures FindLabel(stack + [(kind, l)], k) == if k == kind then Some(l) else FindLabel(stack, k)
  {
    assert (stack + [(kind, l)])[..|stack|] == stack;
  }

  /** A one-statement list does what its statement does. */
  lemma ExecOne(m: Meaning, s: CStmt, cs: CState, fuel: nat)
    ensures ExecCBlock(m, One(s), cs, fuel) == ExecC(m, s, cs, fuel)
  {
    var r := ExecC(m, s, cs, fuel);
    if r.CDone? && r.outcome.CNormal? {
      assert ExecCBlock(m, CNil, r.cs, fuel) == CDone(CNormal, r.cs);
    }
  }

  lemma LabelOfOne(s: CStmt, l: Gen)
    ensures HasLabel(One(s), l) <==> s == CLabel(l)
  {
    assert !HasLabel(CNil, l);
  }

  /** Labels that stand in emitted code itself were drawn while emitting it. */
  lemma {:induction false} LabelsOfStmt(s: Stmt, stack: LoopStack, n: nat, l: Gen)
    requires Lower(s, stack, n).Code?
    ensures n <= Lower(s, stack, n).ctr
    ensures HasLabel(Lower(s, stack, n).code, l) ==> n <= l.n < Lower(s, stack, n).ctr
    decreases s, 1
  {
    LabelOfOne(Lower(s, stack, n).code.head, l);
    if Lower(s, stack, n).code.tail.CCons? { LabelOfOne(Lower(s, stack, n).code.tail.head, l); }
    match s
    case If(c, thn, arms) =>
      LabelsOfBlock(thn, stack, n, l);
      LabelsOfArms(arms, stack, LowerBlock(thn, stack, n).ctr, l);
    case Select(e, cases) =>
      LabelsOfCases(cases, Gen(Sel, n), true, stack, n + 1, l);
    case For(x, start, to, step, body) =>
      var inner := stack + [(ForKind, Gen(ForExit, n + 2))];
      LabelsOfBlock(body, inner, n + 3, l);
      LabelsOfBlock(body, inner, LowerBlock(body, inner, n + 3).ctr, l);
    case Do(pre, body, post) =>
      LabelsOfBlock(body, stack + [(DoKind, Gen(DoExit, n))], n + 1, l);
    case While(c, body) =>
      LabelsOfBlock(body, stack + [(WhileKind, Gen(WhileExit, n))], n + 1, l);
    case _ =>
  }

  lemma {:induction false} LabelsOfBlock(b: Block, stack: LoopStack, n: nat, l: Gen)
    requires LowerBlock(b, stack, n).Code?
    ensures n <= LowerBlock(b, stack, n).ctr
    ensures HasLabel(LowerBlock(b, stack, n).code, l) ==> n <= l.n < LowerBlock(b, stack, n).ctr
    decreases b, 1
  {
    if b.Cons? {
      var c := Lower(b.head, stack, n);
      LabelsOfStmt(b.head, stack, n, l);
      LabelsOfBlock(b.tail, stack, c.ctr, l);
      LabelAppend(c.code, LowerBlock(b.tail, stack, c.ctr).code, l);
    }
  }

  lemma {:induction false} LabelsOfArms(arms: IfArms, stack: LoopStack, n: nat, l: Gen)
    requires LowerArms(arms, stack, n).Code?
    ensures n <= LowerArms(arms, stack, n).ctr
    ensures HasLabel(LowerArms(arms, stack, n).code, l) ==> n <= l.n < LowerArms(arms, stack, n).ctr
    decreases arms, 1
  {
    match arms
    case EndIf =>
    case Else(body) => LabelsOfBlock(body, stack, n, l);
    case ElseIf(c, body, rest) =>
      LabelsOfBlock(body, stack, n, l);
      LabelsOfArms(rest, stack, LowerBlock(body, stack, n).ctr, l);
      LabelOfOne(LowerArms(arms, stack, n).code.head, l);
  }

  lemma {:induction false} LabelsOfCases(cases: Cases, sel: Gen, first: bool, stack: LoopStack, n: nat, l: Gen)
    requires LowerCases(cases, sel, first, stack, n).Code?
    ensures n <= LowerCases(cases, sel, first, stack, n).ctr
    ensures HasLabel(LowerCases(cases, sel, first, stack, n).code, l)
            ==> n <= l.n < LowerCases(cases, sel, first, stack, n).ctr
    decreases cases, 1
  {
    match cases
    case EndSelect =>
    case CaseElse(body) =>
      LabelsOfBlock(body, stack, n, l);
      LabelOfOne(CScope(LowerBlock(body, stack, n).code), l);
    case Case(es, body, rest) =>
      LabelsOfBlock(body, stack, n, l);
      LabelsOfCases(rest, sel, false, stack, LowerBlock(body, stack, n).ctr, l);
      LabelOfOne(LowerCases(cases, sel, first, stack, n).code.head, l);
  }

  /** A braced loop followed by its own label: jumps to the label end the loop,
      all other jumps pass by. */
  lemma LabelledLoop(m: Meaning, r: Result, body: CBlock, stack: LoopStack, target: Gen, cs: CState, fuel: nat)
    requires StackBelow(stack, target.n)
    requires RendersLoop(r, ExecScope(m, body, cs, fuel), stack, target, cs.temps)
    ensures Renders(r, ExecCBlock(m, CCons(CScope(body), One(CLabel(target))), cs, fuel), stack, cs.temps)
  {
    var rest := One(CLabel(target));
    assert ExecC(m, CScope(body), cs, fuel) == ExecScope(m, body, cs, fuel);
    assert HasLabel(rest, target) && After(rest, target) == CNil;
    if r.Done? {
      ExecOne(m, CLabel(target), CState(r.st, cs.temps), fuel);
      if r.outcome.Exiting? {
        FoundBelow(stack, r.outcome.kind, target.n);
        LabelOfOne(CLabel(target), FindLabel(stack, r.outcome.kind).value);
      }
    }
  }

  /** Main result, for statement lists: source and emitted code agree at every fuel. */
  lemma {:induction false} LowerBlockPreserves(m: Meaning, b: Block, stack: LoopStack, n: nat, st: State,
                                               temps: map<Gen, Val>, fuel: nat)
    requires StackBelow(stack, n) && LowerBlock(b, stack, n).Code?
    ensures Renders(ExecBlock(m, b, st, fuel),
                    ExecCBlock(m, LowerBlock(b, stack, n).code, CState(st, temps), fuel), stack, temps)
    decreases fuel, b, 5
  {
    if b.Cons? {
      var c := Lower(b.head, stack, n);
      var d := LowerBlock(b.tail, stack, c.ctr);
      LowerPreserves(m, b.head, stack, n, st, temps, fuel);
      ExecAppend(m, c.code, d.code, CState(st, temps), fuel);
      var r := Exec(m, b.head, st, fuel);
      if r.Done? {
        match r.outcome
        case Normal =>
          LabelsOfStmt(b.head, stack, n, Gen(Sel, 0));
          LowerBlockPreserves(m, b.tail, stack, c.ctr, r.st, temps, fuel);
        case Exiting(k) =>
          FoundBelow(stack, k, n);
          LabelsOfStmt(b.head, stack, n, Gen(Sel, 0));
          LabelsOfBlock(b.tail, stack, c.ctr, FindLabel(stack, k).value);
        case Returned(_) =>
      }
    }
  }

  lemma {:induction false} LowerPreserves(m: Meaning, s: Stmt, stack: LoopStack, n: nat, st: State,
                                          temps: map<Gen, Val>, fuel: nat)
    requires StackBelow(stack, n) && Lower(s, stack, n).Code?
    ensures Renders(Exec(m, s, st, fuel),
                    ExecCBlock(m, Lower(s, stack, n).code, CState(st, temps), fuel), stack, temps)
    decreases fuel, s, 4
  {
    ExecOne(m, Lower(s, stack, n).code.head, CState(st, temps), fuel);
    match s
    case If(c, thn, arms) =>
      var (v, st1) := Eval(m, c, st);
      LabelsOfBlock(thn, stack, n, Gen(Sel, 0));
      LowerBlockPreserves(m, thn, stack, n, st1, temps, fuel);
      ArmsPreserve(m, arms, stack, LowerBlock(thn, stack, n).ctr, st1, temps, fuel);
    case Select(e, cases) =>
      SelectPreserves(m, e, cases, stack, n, st, temps, fuel);
    case For(x, start, to, step, body) =>
      ForPreserves(m, x, start, to, step, body, stack, n, st, temps, fuel);
    case Do(pre, body, post) =>
      DoPreserves(m, pre, body, post, stack, n, st, temps, fuel);
    case While(c, body) =>
      WhilePreserves(m, c, body, stack, n, st, temps, fuel);
    case _ =>
  }

  lemma {:induction false} ArmsPreserve(m: Meaning, arms: IfArms, stack: LoopStack, n: nat, st: State,
                                        temps: map<Gen, Val>, fuel: nat)
    requires StackBelow(stack, n) && LowerArms(arms, stack, n).Code?
    ensures Renders(ExecArms(m, arms, st, fuel),
                    ExecCBlock(m, LowerArms(arms, stack, n).code, CState(st, temps), fuel), stack, temps)
    decreases fuel, arms, 3
  {
    match arms
    case EndIf =>
    case Else(body) => LowerBlockPreserves(m, body, stack, n, st, temps, fuel);
    case ElseIf(c, body, rest) =>
      var (v, st1) := Eval(m, c, st);
      LabelsOfBlock(body, stack, n, Gen(Sel, 0));
      LowerBlockPreserves(m, body, stack, n, st1, temps, fuel);
      ArmsPreserve(m, rest, stack, LowerBlock(body, stack, n).ctr, st1, temps, fuel);
      ExecOne(m, LowerArms(arms, stack, n).code.head, CState(st, temps), fuel);
  }

  lemma {:induction false} AnyEqualIsMatchesAny(m: Meaning, v: Val, es: seq<Expr>, st: State)
    ensures AnyEqual(m, v, es, st) == MatchesAny(m, v, es, st)
  {
    if es != [] { AnyEqualIsMatchesAny(m, v, es[1..], Eval(m, es[0], st).1); }
  }

  lemma {:induction false} CasesPreserve(m: Meaning, v: Val, cases: Cases, sel: Gen, first: bool, stack: LoopStack,
                                         n: nat, st: State, temps: map<Gen, Val>, fuel: nat)
    requires StackBelow(stack, n) && LowerCases(cases, sel, first, stack, n).Code?
    requires sel in temps && temps[sel] == v
    ensures Renders(ExecCases(m, v, cases, st, fuel),
                    ExecCBlock(m, LowerCases(cases, sel, first, stack, n).code, CState(st, temps), fuel), stack, temps)
    decreases fuel, cases, 3
  {
    match cases
    case EndSelect =>
    case CaseElse(body) =>
      LowerBlockPreserves(m, body, stack, n, st, temps, fuel);
      ExecOne(m, CScope(LowerBlock(body, stack, n).code), CState(st, temps), fuel);
    case Case(es, body, rest) =>
      AnyEqualIsMatchesAny(m, v, es, st);
      var (hit, st1) := MatchesAny(m, v, es, st);
      LabelsOfBlock(body, stack, n, sel);
      LowerBlockPreserves(m, body, stack, n, st1, temps, fuel);
      CasesPreserve(m, v, rest, sel, false, stack, LowerBlock(body, stack, n).ctr, st1, temps, fuel);
      ExecOne(m, LowerCases(cases, sel, first, stack, n).code.head, CState(st, temps), fuel);
  }

  lemma {:induction false} SelectPreserves(m: Meaning, e: Expr, cases: Cases, stack: LoopStack, n: nat, st: State,
                                           temps: map<Gen, Val>, fuel: nat)
    requires StackBelow(stack, n) && Lower(Select(e, cases), stack, n).Code?
    ensures Renders(Exec(m, Select(e, cases), st, fuel),
                    ExecCBlock(m, Lower(Select(e, cases), stack, n).code, CState(st, temps), fuel), stack, temps)
    decreases fuel, cases, 4
  {
    var (v, st1) := Eval(m, e, st);
    var sel := Gen(Sel, n);
    CasesPreserve(m, v, cases, sel, true, stack, n + 1, st1, temps[sel := v], fuel);
    var scope := Lower(Select(e, cases), stack, n).code.head;
    ExecOne(m, scope, CState(st, temps), fuel);
    assert ExecCBlock(m, scope.body, CState(st, temps), fuel)
        == ExecCBlock(m, scope.body.tail, CState(st1, temps[sel := v]), fuel);
  }

  lemma {:induction false} ForLoopPreserves(m: Meaning, x: string, last: Val, inc: Val, body: Block, stack: LoopStack,
                                            target: Gen, n: nat, end: Gen, stp: Gen, st: State,
                                            temps: map<Gen, Val>, fuel: nat)
    requires StackBelow(stack, target.n) && target.n < n
    requires LowerBlock(body, stack + [(ForKind, target)], n).Code?
    requires end in temps && stp in temps && temps[end] == last && temps[stp] == inc
    ensures
      var c := if AtMost(ZERO, inc) then VarLe(x, end) else VarGe(x, end);
      RendersLoop(ForLoop(m, x, last, inc, body, st, fuel),
                  ExecFor(m, c, x, stp, LowerBlock(body, stack + [(ForKind, target)], n).code, CState(st, temps), fuel),
                  stack, target, temps)
    decreases fuel, body, 6
  {
    if fuel > 0 && InRange(Lookup(st.env, x), last, inc) {
      LowerBlockPreserves(m, body, stack + [(ForKind, target)], n, st, temps, fuel - 1);
      var r := ExecBlock(m, body, st, fuel - 1);
      if r.Done? && r.outcome.Normal? {
        var next := Store(m, r.st.env, x, Sum(Lookup(r.st.env, x), inc));
        ForLoopPreserves(m, x, last, inc, body, stack, target, n, end, stp, r.st.(env := next), temps, fuel - 1);
      } else if r.Done? && r.outcome.Exiting? {
        FindPushed(stack, ForKind, target, r.outcome.kind);
      }
    }
  }

  lemma {:induction false} ForPreserves(m: Meaning, x: string, start: Expr, to: Expr, step: Option<Expr>, body: Block,
                                        stack: LoopStack, n: nat, st: State, temps: map<Gen, Val>, fuel: nat)
    requires StackBelow(stack, n) && Lower(For(x, start, to, step, body), stack, n).Code?
    ensures Renders(Exec(m, For(x, start, to, step, body), st, fuel),
                    ExecCBlock(m, Lower(For(x, start, to, step, body), stack, n).code, CState(st, temps), fuel),
                    stack, temps)
    decreases fuel, body, 7
  {
    var (end, stp, target) := (Gen(ForEnd, n), Gen(ForStep, n + 1), Gen(ForExit, n + 2));
    var inner := stack + [(ForKind, target)];
    var up := LowerBlock(body, inner, n + 3);
    var down := LowerBlock(body, inner, up.ctr);
    LabelsOfBlock(body, inner, n + 3, target);
    var (last, st1) := Eval(m, to, st);
    var (inc, st2) := if step.Some? then Eval(m, step.value, st1) else (ONE, st1);
    var (first, st3) := Eval(m, start, st2);
    var st4 := st3.(env := Store(m, st3.env, x, first));
    var t := temps[end := last][stp := inc];
    var k := if AtMost(ZERO, inc) then n + 3 else up.ctr;
    ForLoopPreserves(m, x, last, inc, body, stack, target, k, end, stp, st4, t, fuel);
    var scope := ForCode(x, start, to, step, n, up.code, down.code).head.body;
    ForSetup(m, x, start, to, step, n, up.code, down.code, st, temps, fuel);
    LabelledLoop(m, ForLoop(m, x, last, inc, body, st4, fuel), scope, stack, target, CState(st, temps), fuel);
  }

  /** The braces of a FOR evaluate TO, STEP and start, in that order, then assign
      the variable, and then run the loop that the sign of the step picks. */
  lemma ForSetup(m: Meaning, x: string, start: Expr, to: Expr, step: Option<Expr>, n: nat, up: CBlock, down: CBlock,
                 st: State, temps: map<Gen, Val>, fuel: nat)
    ensures
      var (end, stp) := (Gen(ForEnd, n), Gen(ForStep, n + 1));
      var (last, st1) := Eval(m, to, st);
      var (inc, st2) := if step.Some? then Eval(m, step.value, st1) else (ONE, st1);
      var (first, st3) := Eval(m, start, st2);
      var cs := CState(st3.(env := Store(m, st3.env, x, first)), temps[end := last][stp := inc]);
      var rising := AtMost(ZERO, inc);
      var r := ExecFor(m, if rising then VarLe(x, end) else VarGe(x, end), x, stp, if rising then up else down, cs, fuel);
      ExecCBlock(m, ForCode(x, start, to, step, n, up, down).head.body, CState(st, temps), fuel)
        == if r.CDone? then r.(cs := r.cs.(temps := cs.temps)) else r
  {
    hide ExecFor;
    var (end, stp) := (Gen(ForEnd, n), Gen(ForStep, n + 1));
    var (last, st1) := Eval(m, to, st);
    var (inc, st2) := if step.Some? then Eval(m, step.value, st1) else (ONE, st1);
    var (first, st3) := Eval(m, start, st2);
    var st4 := st3.(env := Store(m, st3.env, x, first));
    var t := temps[end := last][stp := inc];
    var setup := ForCode(x, start, to, step, n, up, down).head.body;
    var loops := setup.tail.tail.tail;
    assert ExecCBlock(m, setup, CState(st, temps), fuel) == ExecCBlock(m, loops, CState(st4, t), fuel) by {
      assert ExecC(m, setup.head, CState(st, temps), fuel) == CDone(CNormal, CState(st1, temps[end := last]));
      assert ExecC(m, setup.tail.head, CState(st1, temps[end := last]), fuel) == CDone(CNormal, CState(st2, t));
      assert ExecC(m, setup.tail.tail.head, CState(st2, t), fuel) == CDone(CNormal, CState(st4, t));
      assert ExecCBlock(m, setup.tail, CState(st1, temps[end := last]), fuel)
          == ExecCBlock(m, setup.tail.tail, CState(st2, t), fuel);
    }
    ExecOne(m, loops.head, CState(st4, t), fuel);
    var branch := if AtMost(ZERO, inc) then loops.head.thn else loops.head.els;
    ExecOne(m, branch.head, CState(st4, t), fuel);
  }

  /** The code of a loop test falls through when the loop goes on and breaks otherwise. */
  lemma TestPreserves(m: Meaning, t: Test, cs: CState, fuel: nat)
    ensures ExecCBlock(m, TestCode(t), cs, fuel) ==
            CDone(if Continues(m, t, cs.st).0 then CNormal else Breaking, cs.(st := Continues(m, t, cs.st).1))
  {
    if !t.NoTest? {
      var test := TestCode(t).head;
      var cs1 := cs.(st := Continues(m, t, cs.st).1);
      ExecOne(m, test, cs, fuel);
      ExecOne(m, CBreak, cs1, fuel);
      assert ExecScope(m, CNil, cs1, fuel) == CDone(CNormal, cs1);
    }
  }

  lemma TestHasNoLabel(t: Test, l: Gen)
    ensures !HasLabel(TestCode(t), l)
  {
  }

  /** One iteration of a DO loop. */
  lemma {:induction false} DoBodyPreserves(m: Meaning, pre: Test, b: CBlock, post: Test, r: Result, stack: LoopStack,
                                           st: State, temps: map<Gen, Val>, fuel: nat)
    requires Continues(m, pre, st).0
    requires Renders(r, ExecCBlock(m, b, CState(Continues(m, pre, st).1, temps), fuel), stack, temps)
    ensures
      var c := ExecScope(m, Append(TestCode(pre), Append(b, TestCode(post))), CState(st, temps), fuel);
      if r.Done? && r.outcome.Normal? then
        c == CDone(if Continues(m, post, r.st).0 then CNormal else Breaking,
                   CState(Continues(m, post, r.st).1, temps))
      else Renders(r, c, stack, temps)
  {
    var cs := CState(st, temps);
    var cs1 := CState(Continues(m, pre, st).1, temps);
    TestPreserves(m, pre, cs, fuel);
    ExecAppend(m, TestCode(pre), Append(b, TestCode(post)), cs, fuel);
    ExecAppend(m, b, TestCode(post), cs1, fuel);
    if r.Done? {
      TestPreserves(m, post, CState(r.st, temps), fuel);
      if r.outcome.Exiting? { TestHasNoLabel(post, FindLabel(stack, r.outcome.kind).value); }
    }
  }

  lemma {:induction false} DoLoopPreserves(m: Meaning, pre: Test, body: Block, post: Test, stack: LoopStack,
                                           target: Gen, n: nat, st: State, temps: map<Gen, Val>, fuel: nat)
    requires StackBelow(stack, target.n) && target.n < n
    requires LowerBlock(body, stack + [(DoKind, target)], n).Code?
    ensures
      var b := LowerBlock(body, stack + [(DoKind, target)], n).code;
      RendersLoop(DoLoop(m, pre, body, post, st, fuel),
                  ExecForever(m, Append(TestCode(pre), Append(b, TestCode(post))), CState(st, temps), fuel),
                  stack, target, temps)
    decreases fuel, body, 6
  {
    if fuel > 0 {
      var inner := stack + [(DoKind, target)];
      var b := LowerBlock(body, inner, n).code;
      var (go, st1) := Continues(m, pre, st);
      if go {
        LowerBlockPreserves(m, body, inner, n, st1, temps, fuel - 1);
        var r := ExecBlock(m, body, st1, fuel - 1);
        DoBodyPreserves(m, pre, b, post, r, inner, st, temps, fuel - 1);
        if r.Done? && r.outcome.Normal? {
          DoLoopPreserves(m, pre, body, post, stack, target, n, Continues(m, post, r.st).1, temps, fuel - 1);
        } else if r.Done? && r.outcome.Exiting? {
          FindPushed(stack, DoKind, target, r.outcome.kind);
        }
      } else {
        TestPreserves(m, pre, CState(st, temps), fuel - 1);
        ExecAppend(m, TestCode(pre), Append(b, TestCode(post)), CState(st, temps), fuel - 1);
      }
    }
  }

  lemma {:induction false} DoPreserves(m: Meaning, pre: Test, body: Block, post: Test, stack: LoopStack, n: nat,
                                       st: State, temps: map<Gen, Val>, fuel: nat)
    requires StackBelow(stack, n) && Lower(Do(pre, body, post), stack, n).Code?
    ensures Renders(Exec(m, Do(pre, body, post), st, fuel),
                    ExecCBlock(m, Lower(Do(pre, body, post), stack, n).code, CState(st, temps), fuel), stack, temps)
    decreases fuel, body, 7
  {
    var target := Gen(DoExit, n);
    DoLoopPreserves(m, pre, body, post, stack, target, n + 1, st, temps, fuel);
    var loop := Lower(Do(pre, body, post), stack, n).code.head.body;
    ExecOne(m, loop.head, CState(st, temps), fuel);
    LabelledLoop(m, DoLoop(m, pre, body, post, st, fuel), loop, stack, target, CState(st, temps), fuel);
  }

  lemma {:induction false} WhileLoopPreserves(m: Meaning, c: Expr, body: Block, stack: LoopStack, target: Gen, n: nat,
                                              st: State, temps: map<Gen, Val>, fuel: nat)
    requires StackBelow(stack, target.n) && target.n < n
    requires LowerBlock(body, stack + [(WhileKind, target)], n).Code?
    ensures RendersLoop(WhileLoop(m, c, body, st, fuel),
                        ExecWhile(m, NotZero(c), LowerBlock(body, stack + [(WhileKind, target)], n).code,
                                  CState(st, temps), fuel),
                        stack, target, temps)
    decreases fuel, body, 6
  {
    if fuel > 0 {
      var (v, st1) := Eval(m, c, st);
      if NonZero(v) {
        LowerBlockPreserves(m, body, stack + [(WhileKind, target)], n, st1, temps, fuel - 1);
        var r := ExecBlock(m, body, st1, fuel - 1);
        if r.Done? && r.outcome.Normal? {
          WhileLoopPreserves(m, c, body, stack, target, n, r.st, temps, fuel - 1);
        } else if r.Done? && r.outcome.Exiting? {
          FindPushed(stack, WhileKind, target, r.outcome.kind);
        }
      }
    }
  }

  lemma {:induction false} WhilePreserves(m: Meaning, c: Expr, body: Block, stack: LoopStack, n: nat, st: State,
                                          temps: map<Gen, Val>, fuel: nat)
    requires StackBelow(stack, n) && Lower(While(c, body), stack, n).Code?
    ensures Renders(Exec(m, While(c, body), st, fuel),
                    ExecCBlock(m, Lower(While(c, body), stack, n).code, CState(st, temps), fuel), stack, temps)
    decreases fuel, body, 7
  {
    var target := Gen(WhileExit, n);
    WhileLoopPreserves(m, c, body, stack, target, n + 1, st, temps, fuel);
    var loop := Lower(While(c, body), stack, n).code.head.body;
    ExecOne(m, loop.head, CState(st, temps), fuel);
    LabelledLoop(m, WhileLoop(m, c, body, st, fuel), loop, stack, target, CState(st, temps), fuel);
  }
}
