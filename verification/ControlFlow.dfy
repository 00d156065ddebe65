/** Whole procedures and modules: meaning, names and the places of labels. */
module ControlFlow {
  import opened Options
  import opened Basic
  import opened Cpp
  import opened Codegen
  import Exits
  import Lowering

  /** How often code declares a generated name or places it as a label. */
  ghost function Count(b: CBlock, g: Gen): nat {
    if b.CNil? then 0 else CountIn(b.head, g) + Count(b.tail, g)
  }

  ghost function CountIn(s: CStmt, g: Gen): nat {
    match s
    case CDecl(t, _) => if t == g then 1 else 0
    case CLabel(l) => if l == g then 1 else 0
    case CIf(_, a, b) => Count(a, g) + Count(b, g)
    case CScope(b) => Count(b, g)
    case CForever(b) => Count(b, g)
    case CFor(_, _, _, b) => Count(b, g)
    case CWhile(_, b) => Count(b, g)
    case _ => 0
  }

  /** A name is introduced at most once, and only with a number from the range. */
  ghost predicate Fresh(count: nat, g: Gen, lo: nat, hi: nat) {
    lo <= hi && count <= (if lo <= g.n < hi then 1 else 0)
  }

  /** Every label stands right after the braces of a loop, and every `goto` is
      inside the braces that its label follows (or leaves for `outer`). */
  ghost predicate Placed(b: CBlock, outer: set<Gen>) {
    if b.CNil? then true
    else if b.head.CScope? && b.tail.CCons? && b.tail.head.CLabel? then
      Placed(b.head.body, outer + {b.tail.head.target}) && Placed(b.tail.tail, outer)
    else PlacedIn(b.head, outer) && Placed(b.tail, outer)
  }

  ghost predicate PlacedIn(s: CStmt, outer: set<Gen>) {
    match s
    case CLabel(_) => false
    case CGoto(l) => l in outer
    case CIf(_, a, b) => Placed(a, outer) && Placed(b, outer)
    case CScope(b) => Placed(b, outer)
    case CForever(b) => Placed(b, outer)
    case CFor(_, _, _, b) => Placed(b, outer)
    case CWhile(_, b) => Placed(b, outer)
    case _ => true
  }

  ghost function Labels(stack: LoopStack): set<Gen> { set i | 0 <= i < |stack| :: stack[i].1 }

  lemma LabelsPush(stack: LoopStack, k: LoopKind, l: Gen)
    ensures Labels(stack + [(k, l)]) == Labels(stack) + {l}
  {
    var s := stack + [(k, l)];
    assert l == s[|stack|].1;
    forall g | g in Labels(stack) ensures g in Labels(s) {
      var i :| 0 <= i < |stack| && stack[i].1 == g;
      assert s[i].1 == g;
    }
  }

  lemma {:induction false} FoundIsLabel(stack: LoopStack, k: LoopKind)
    ensures FindLabel(stack, k).Some? ==> FindLabel(stack, k).value in Labels(stack)
  {
    if stack != [] && stack[|stack| - 1].0 != k {
      var below := stack[..|stack| - 1];
      FoundIsLabel(below, k);
      LabelsPush(below, stack[|stack| - 1].0, stack[|stack| - 1].1);
      assert stack == below + [stack[|stack| - 1]];
    }
  }

  lemma {:induction false} CountAppend(a: CBlock, b: CBlock, g: Gen)
    ensures Count(Append(a, b), g) == Count(a, g) + Count(b, g)
  {
    if a.CCons? { CountAppend(a.tail, b, g); }
  }

  lemma {:induction false} PlacedAppend(a: CBlock, b: CBlock, outer: set<Gen>)
    requires Placed(a, outer) && Placed(b, outer)
    ensures Placed(Append(a, b), outer)
  {
    if a.CCons? {
      if a.head.CScope? && a.tail.CCons? && a.tail.head.CLabel? {
        PlacedAppend(a.tail.tail, b, outer);
      } else {
        PlacedAppend(a.tail, b, outer);
        if a.tail.CNil? && b.CCons? { assert !b.head.CLabel?; }
      }
    }
  }

  lemma OneIsPlain(s: CStmt, outer: set<Gen>, g: Gen)
    ensures Count(One(s), g) == CountIn(s, g)
    ensures Placed(One(s), outer) <==> PlacedIn(s, outer)
  {
    assert Count(CNil, g) == 0 && Placed(CNil, outer);
  }

  lemma TestIsPlain(t: Test, outer: set<Gen>, g: Gen)
    ensures Count(TestCode(t), g) == 0 && Placed(TestCode(t), outer)
  {
    if !t.NoTest? {
      OneIsPlain(CBreak, outer, g);
      OneIsPlain(TestCode(t).head, outer, g);
    }
  }

  ghost predicate Good(b: CBlock, outer: set<Gen>, g: Gen, lo: nat, hi: nat) {
    Fresh(Count(b, g), g, lo, hi) && Placed(b, outer)
  }

  /** Code of a loop: braces around the body, then the label. */
  lemma LoopIsGood(body: CBlock, target: Gen, outer: set<Gen>, g: Gen, lo: nat, hi: nat)
    requires Good(body, outer + {target}, g, lo, hi) && target.n < lo
    ensures Good(CCons(CScope(body), One(CLabel(target))), outer, g, target.n, hi)
  {
    OneIsPlain(CLabel(target), outer, g);
    assert Placed(CNil, outer);
  }

  lemma {:induction false} StmtIsGood(s: Stmt, stack: LoopStack, n: nat, g: Gen)
    requires Lower(s, stack, n).Code?
    ensures Good(Lower(s, stack, n).code, Labels(stack), g, n, Lower(s, stack, n).ctr)
    decreases s, 0
  {
    hide LowerBlock, LowerArms, LowerCases, ForCode, DoCode, Labels;
    var outer := Labels(stack);
    var low := Lower(s, stack, n);
    match s
    case If(c, thn, arms) =>
      OneIsPlain(low.code.head, outer, g);
      BlockIsGood(thn, stack, n, g);
      ArmsAreGood(arms, stack, LowerBlock(thn, stack, n).ctr, g);
    case Select(e, cases) =>
      OneIsPlain(low.code.head, outer, g);
      CasesAreGood(cases, Gen(Sel, n), true, stack, n + 1, g);
      var arms := LowerCases(cases, Gen(Sel, n), true, stack, n + 1).code;
      assert low.code.head.body == CCons(CDecl(Gen(Sel, n), FromExpr(e)), arms);
      assert PlacedIn(low.code.head.body.head, outer) && Placed(low.code.head.body, outer);
      assert Count(low.code.head.body, g) == (if Gen(Sel, n) == g then 1 else 0) + Count(arms, g);
    case For(x, start, to, step, body) =>
      var target := Gen(ForExit, n + 2);
      var inner := stack + [(ForKind, target)];
      var up := LowerBlock(body, inner, n + 3);
      var down := LowerBlock(body, inner, up.ctr);
      LabelsPush(stack, ForKind, target);
      BlockIsGood(body, inner, n + 3, g);
      BlockIsGood(body, inner, up.ctr, g);
      ForCodeIsGood(x, start, to, step, n, up.code, down.code, outer, g, low.ctr);
    case Do(pre, body, post) =>
      var target := Gen(DoExit, n);
      LabelsPush(stack, DoKind, target);
      BlockIsGood(body, stack + [(DoKind, target)], n + 1, g);
      DoCodeIsGood(pre, LowerBlock(body, stack + [(DoKind, target)], n + 1).code, post, n, outer, g, low.ctr);
    case While(c, body) =>
      var target := Gen(WhileExit, n);
      LabelsPush(stack, WhileKind, target);
      BlockIsGood(body, stack + [(WhileKind, target)], n + 1, g);
      OneIsPlain(low.code.head.body.head, outer + {target}, g);
      LoopIsGood(low.code.head.body, target, outer, g, n + 1, low.ctr);
    case Exit(k) =>
      OneIsPlain(low.code.head, outer, g);
      FoundIsLabel(stack, k);
    case _ =>
      OneIsPlain(low.code.head, outer, g);
      assert CountIn(low.code.head, g) == 0;
      assert PlacedIn(low.code.head, outer);
  }

  lemma DoCodeIsGood(pre: Test, b: CBlock, post: Test, n: nat, outer: set<Gen>, g: Gen, hi: nat)
    requires Good(b, outer + {Gen(DoExit, n)}, g, n + 1, hi)
    ensures Good(DoCode(pre, b, post, n), outer, g, n, hi)
  {
    var here := outer + {Gen(DoExit, n)};
    TestIsPlain(pre, here, g);
    TestIsPlain(post, here, g);
    CountAppend(b, TestCode(post), g);
    CountAppend(TestCode(pre), Append(b, TestCode(post)), g);
    PlacedAppend(b, TestCode(post), here);
    PlacedAppend(TestCode(pre), Append(b, TestCode(post)), here);
    var loop := DoCode(pre, b, post, n).head.body;
    OneIsPlain(loop.head, here, g);
    LoopIsGood(loop, Gen(DoExit, n), outer, g, n + 1, hi);
  }

  lemma ForCodeIsGood(x: string, start: Expr, to: Expr, step: Option<Expr>, n: nat, up: CBlock, down: CBlock,
                      outer: set<Gen>, g: Gen, hi: nat)
    requires Placed(up, outer + {Gen(ForExit, n + 2)}) && Placed(down, outer + {Gen(ForExit, n + 2)})
    requires Fresh(Count(up, g) + Count(down, g), g, n + 3, hi)
    ensures Good(ForCode(x, start, to, step, n, up, down), outer, g, n, hi)
  {
    var (end, inc, target) := (Gen(ForEnd, n), Gen(ForStep, n + 1), Gen(ForExit, n + 2));
    var here := outer + {target};
    var scope := ForCode(x, start, to, step, n, up, down).head.body;
    var choice := scope.tail.tail.tail.head;
    LoopsAreGood(choice, up, down, here, g);
    var assign := CCons(CAssign(x, start), One(choice));
    ConsIsPlain(CAssign(x, start), One(choice), here, g);
    ConsIsPlain(scope.tail.head, assign, here, g);
    ConsIsPlain(scope.head, scope.tail, here, g);
    assert scope == CCons(scope.head, CCons(scope.tail.head, assign));
    LoopIsPlaced(scope, target, outer, g);
  }

  /** The two copies of a FOR body, of which the sign of the step picks one. */
  lemma LoopsAreGood(choice: CStmt, up: CBlock, down: CBlock, here: set<Gen>, g: Gen)
    requires choice.CIf? && choice.thn.CCons? && choice.thn == One(choice.thn.head)
    requires choice.els.CCons? && choice.els == One(choice.els.head)
    requires choice.thn.head.CFor? && choice.thn.head.body == up && choice.els.head.CFor? && choice.els.head.body == down
    requires Placed(up, here) && Placed(down, here)
    ensures Count(One(choice), g) == Count(up, g) + Count(down, g) && Placed(One(choice), here)
  {
    OneIsPlain(choice.thn.head, here, g);
    OneIsPlain(choice.els.head, here, g);
    OneIsPlain(choice, here, g);
  }

  lemma ConsIsPlain(s: CStmt, rest: CBlock, outer: set<Gen>, g: Gen)
    ensures Count(CCons(s, rest), g) == CountIn(s, g) + Count(rest, g)
    ensures !s.CScope? && PlacedIn(s, outer) && Placed(rest, outer) ==> Placed(CCons(s, rest), outer)
  {
  }

  lemma LoopIsPlaced(body: CBlock, target: Gen, outer: set<Gen>, g: Gen)
    requires Placed(body, outer + {target})
    ensures
      var code := CCons(CScope(body), One(CLabel(target)));
      Placed(code, outer) && Count(code, g) == Count(body, g) + if target == g then 1 else 0
  {
    OneIsPlain(CLabel(target), outer, g);
    assert Placed(CNil, outer);
  }

  lemma {:induction false} BlockIsGood(b: Block, stack: LoopStack, n: nat, g: Gen)
    requires LowerBlock(b, stack, n).Code?
    ensures Good(LowerBlock(b, stack, n).code, Labels(stack), g, n, LowerBlock(b, stack, n).ctr)
    decreases b, 0
  {
    if b.Cons? {
      StmtIsGood(b.head, stack, n, g);
      var c := Lower(b.head, stack, n);
      BlockIsGood(b.tail, stack, c.ctr, g);
      CountAppend(c.code, LowerBlock(b.tail, stack, c.ctr).code, g);
      PlacedAppend(c.code, LowerBlock(b.tail, stack, c.ctr).code, Labels(stack));
    }
  }

  lemma {:induction false} ArmsAreGood(arms: IfArms, stack: LoopStack, n: nat, g: Gen)
    requires LowerArms(arms, stack, n).Code?
    ensures Good(LowerArms(arms, stack, n).code, Labels(stack), g, n, LowerArms(arms, stack, n).ctr)
    decreases arms, 0
  {
    match arms
    case EndIf =>
    case Else(body) => BlockIsGood(body, stack, n, g);
    case ElseIf(c, body, rest) =>
      BlockIsGood(body, stack, n, g);
      ArmsAreGood(rest, stack, LowerBlock(body, stack, n).ctr, g);
      OneIsPlain(LowerArms(arms, stack, n).code.head, Labels(stack), g);
  }

  lemma {:induction false} CasesAreGood(cases: Cases, sel: Gen, first: bool, stack: LoopStack, n: nat, g: Gen)
    requires LowerCases(cases, sel, first, stack, n).Code?
    ensures var low := LowerCases(cases, sel, first, stack, n); Good(low.code, Labels(stack), g, n, low.ctr)
    decreases cases, 0
  {
    match cases
    case EndSelect =>
    case CaseElse(body) =>
      BlockIsGood(body, stack, n, g);
      OneIsPlain(CScope(LowerBlock(body, stack, n).code), Labels(stack), g);
    case Case(es, body, rest) =>
      BlockIsGood(body, stack, n, g);
      CasesAreGood(rest, sel, false, stack, LowerBlock(body, stack, n).ctr, g);
      OneIsPlain(LowerCases(cases, sel, first, stack, n).code.head, Labels(stack), g);
  }

  /** Running emitted code as a function body. */
  ghost function RunCode(m: Meaning, code: CBlock, env: Env, fuel: nat): ProcResult {
    match ExecCBlock(m, code, CState(State(env, ZERO), map[]), fuel)
    case CTimeout => Diverging
    case CDone(CNormal, cs) => Finished(None, cs.st.env)
    case CDone(CReturned(v), cs) => Finished(v, cs.st.env)
    case CDone(_, _) => Escaped
  }

  /** The closing `return eb__ret;` of a FUNCTION is reached exactly by running off the end. */
  lemma ClosingReturn(m: Meaning, p: Proc, code: CBlock, env: Env, fuel: nat)
    requires Lowering.Renders(ExecBlock(m, p.body, State(env, ZERO), fuel),
                              ExecCBlock(m, code, CState(State(env, ZERO), map[]), fuel), [], map[])
    ensures RunCode(m, if p.Function? then Append(code, One(CReturnRet)) else code, env, fuel)
         == RunProc(m, p, env, fuel)
    ensures !RunProc(m, p, env, fuel).Escaped?
  {
    var cs := CState(State(env, ZERO), map[]);
    ExecAppend(m, code, One(CReturnRet), cs, fuel);
    var r := ExecCBlock(m, code, cs, fuel);
    if r.CDone? { Lowering.ExecOne(m, CReturnRet, r.cs, fuel); }
  }

  /** An accepted procedure is emitted without throwing; each generated name is
      introduced at most once in it, and every jump has its label after the
      braces it leaves. */
  lemma AcceptedProcIsGood(p: Proc, n: nat, g: Gen)
    requires Exits.Accepted(p)
    ensures LowerProc(p, n).Code? && Good(LowerProc(p, n).code, {}, g, n, LowerProc(p, n).ctr)
  {
    Exits.BlockLowersExactly(p.body, Exits.BaseKinds(p), Exits.BaseKinds(p), [], n);
    var low := LowerBlock(p.body, [], n);
    BlockIsGood(p.body, [], n, g);
    assert Labels([]) == {};
    OneIsPlain(CReturnRet, {}, g);
    CountAppend(low.code, One(CReturnRet), g);
    PlacedAppend(low.code, One(CReturnRet), {});
  }

  /** Main result: for every meaning of expressions, input and fuel, the emitted
      function returns what the BASIC procedure returns. */
  lemma AcceptedProcPreserved(m: Meaning, p: Proc, n: nat, env: Env, fuel: nat)
    requires Exits.Accepted(p)
    ensures LowerProc(p, n).Code?
    ensures RunCode(m, LowerProc(p, n).code, env, fuel) == RunProc(m, p, env, fuel)
    ensures !RunProc(m, p, env, fuel).Escaped?
  {
    Exits.BlockLowersExactly(p.body, Exits.BaseKinds(p), Exits.BaseKinds(p), [], n);
    Lowering.LowerBlockPreserves(m, p.body, [], n, State(env, ZERO), map[], fuel);
    ClosingReturn(m, p, LowerBlock(p.body, [], n).code, env, fuel);
  }

  ghost function ModuleCount(code: seq<CBlock>, g: Gen): nat {
    if code == [] then 0 else Count(code[0], g) + ModuleCount(code[1..], g)
  }

  ghost predicate IsCodeOf(code: CBlock, p: Proc) {
    exists n :: LowerProc(p, n).Code? && code == LowerProc(p, n).code
  }

  /** Every EXIT of the module has something to leave. */
  ghost predicate AllAccepted(items: seq<Item>) {
    forall i :: 0 <= i < |items| ==>
      if items[i].Statement? then Exits.BadExits(items[i].s, []) == [] else Exits.Accepted(items[i].p)
  }

  lemma AcceptedStatement(s: Stmt, n: nat, g: Gen)
    requires Exits.BadExits(s, []) == []
    ensures Lower(s, [], n).Code? && Good(Lower(s, [], n).code, {}, g, n, Lower(s, [], n).ctr)
  {
    Exits.LowersExactly(s, [], [], [], n);
    StmtIsGood(s, [], n, g);
    assert Labels([]) == {};
  }

  /** A module that the analyser accepts is emitted in full, procedures in one
      stream and the statements between them in the other; no generated name
      occurs twice in the two together, and every jump has its label. */
  lemma {:induction false} AcceptedModule(items: seq<Item>, n: nat, g: Gen) returns (hi: nat)
    requires AllAccepted(items)
    ensures LowerModule(items, n).Some? && |LowerModule(items, n).value.procs| == |Procs(items)|
    ensures forall i :: 0 <= i < |Procs(items)| ==> IsCodeOf(LowerModule(items, n).value.procs[i], Procs(items)[i])
    ensures Placed(LowerModule(items, n).value.main, {})
    ensures Fresh(Count(LowerModule(items, n).value.main, g) + ModuleCount(LowerModule(items, n).value.procs, g), g, n, hi)
    decreases |items|
  {
    hide LowerProc, Lower, Exits.Accepted;
    if items == [] {
      hi := n;
    } else {
      assert items[0] in items;
      if items[0].Statement? {
        AcceptedStatement(items[0].s, n, g);
        var c := Lower(items[0].s, [], n);
        hi := AcceptedModule(items[1..], c.ctr, g);
        CountAppend(c.code, LowerModule(items[1..], c.ctr).value.main, g);
        PlacedAppend(c.code, LowerModule(items[1..], c.ctr).value.main, {});
      } else {
        AcceptedProcIsGood(items[0].p, n, g);
        var c := LowerProc(items[0].p, n);
        hi := AcceptedModule(items[1..], c.ctr, g);
        ConsProcs(items, n, c.code, LowerModule(items[1..], c.ctr).value.procs, g);
      }
    }
  }

  lemma ConsProcs(items: seq<Item>, n: nat, c: CBlock, rest: seq<CBlock>, g: Gen)
    requires items != [] && items[0].Declaration?
    requires LowerProc(items[0].p, n).Code? && c == LowerProc(items[0].p, n).code
    requires |rest| == |Procs(items[1..])|
    requires forall i :: 0 <= i < |rest| ==> IsCodeOf(rest[i], Procs(items[1..])[i])
    ensures |Procs(items)| == |rest| + 1
    ensures forall i :: 0 <= i < |rest| + 1 ==> IsCodeOf(([c] + rest)[i], Procs(items)[i])
    ensures ModuleCount([c] + rest, g) == Count(c, g) + ModuleCount(rest, g)
  {
    hide LowerProc;
    CodeOf(items[0].p, n);
    var (all, code) := (Procs(items), [c] + rest);
    assert all == [items[0].p] + Procs(items[1..]);
    assert code[1..] == rest;
    forall i | 0 <= i < |code| ensures IsCodeOf(code[i], all[i]) {
      if i > 0 { assert IsCodeOf(rest[i - 1], Procs(items[1..])[i - 1]); }
    }
  }

  lemma CodeOf(p: Proc, n: nat)
    requires LowerProc(p, n).Code?
    ensures IsCodeOf(LowerProc(p, n).code, p)
  {
  }

  /** Statements that are emitted with other code between them run as the block
      that they make up. */
  lemma {:induction false} MainPreserves(m: Meaning, items: seq<Item>, n: nat, st: State, temps: map<Gen, Val>,
                                         fuel: nat)
    requires LowerModule(items, n).Some?
    ensures Lowering.Renders(ExecBlock(m, MainBlock(items), st, fuel),
                             ExecCBlock(m, LowerModule(items, n).value.main, CState(st, temps), fuel), [], temps)
    decreases |items|
  {
    hide LowerProc, Lower, Exec;
    if items != [] {
      if items[0].Statement? {
        var c := Lower(items[0].s, [], n);
        var rest := LowerModule(items[1..], c.ctr).value.main;
        Lowering.LowerPreserves(m, items[0].s, [], n, st, temps, fuel);
        ExecAppend(m, c.code, rest, CState(st, temps), fuel);
        var r := Exec(m, items[0].s, st, fuel);
        if r.Done? && r.outcome.Normal? { MainPreserves(m, items[1..], c.ctr, r.st, temps, fuel); }
      } else {
        MainPreserves(m, items[1..], LowerProc(items[0].p, n).ctr, st, temps, fuel);
      }
    }
  }

  /** Main result for modules: the main program and every procedure of an accepted
      module keep their meaning, however their statements are interleaved. */
  lemma AcceptedModulePreserved(m: Meaning, items: seq<Item>, n: nat, env: Env, fuel: nat)
    requires AllAccepted(items)
    ensures LowerModule(items, n).Some? && |LowerModule(items, n).value.procs| == |Procs(items)|
    ensures RunCode(m, LowerModule(items, n).value.main, env, fuel)
         == RunProc(m, MainProgram(MainBlock(items)), env, fuel)
    ensures forall i :: 0 <= i < |Procs(items)| ==>
              RunCode(m, LowerModule(items, n).value.procs[i], env, fuel) == RunProc(m, Procs(items)[i], env, fuel)
  {
    var _ := AcceptedModule(items, n, Gen(Sel, 0));
    var code := LowerModule(items, n).value;
    MainPreserves(m, items, n, State(env, ZERO), map[], fuel);
    ClosingReturn(m, MainProgram(MainBlock(items)), code.main, env, fuel);
    ProcsAccepted(items);
    forall i | 0 <= i < |Procs(items)|
      ensures RunCode(m, code.procs[i], env, fuel) == RunProc(m, Procs(items)[i], env, fuel)
    {
      var k :| LowerProc(Procs(items)[i], k).Code? && code.procs[i] == LowerProc(Procs(items)[i], k).code;
      AcceptedProcPreserved(m, Procs(items)[i], k, env, fuel);
    }
  }

  lemma {:induction false} ProcsAccepted(items: seq<Item>)
    requires AllAccepted(items)
    ensures forall i :: 0 <= i < |Procs(items)| ==> Exits.Accepted(Procs(items)[i])
  {
    hide Exits.Accepted;
    if items != [] {
      assert items[0] in items;
      ProcsAccepted(items[1..]);
    }
  }

  /** Both sides diverge together. */
  lemma DivergeTogether(m: Meaning, p: Proc, n: nat, env: Env)
    requires Exits.Accepted(p) && LowerProc(p, n).Code?
    ensures (forall fuel :: RunCode(m, LowerProc(p, n).code, env, fuel).Diverging?)
       <==> (forall fuel :: RunProc(m, p, env, fuel).Diverging?)
  {
    forall fuel ensures RunCode(m, LowerProc(p, n).code, env, fuel) == RunProc(m, p, env, fuel) {
      AcceptedProcPreserved(m, p, n, env, fuel);
    }
  }

  /** A run that finishes has one result, whatever the fuel, and the emitted
      function has it too. */
  lemma OneResult(m: Meaning, p: Proc, n: nat, env: Env, f: nat, g: nat)
    requires Exits.Accepted(p) && LowerProc(p, n).Code? && f <= g && !RunProc(m, p, env, f).Diverging?
    ensures RunProc(m, p, env, g) == RunProc(m, p, env, f)
    ensures RunCode(m, LowerProc(p, n).code, env, g) == RunProc(m, p, env, f)
  {
    MoreFuelBlock(m, p.body, State(env, ZERO), f, g);
    AcceptedProcPreserved(m, p, n, env, g);
  }

  ghost predicate Returns(m: Meaning, p: Proc, env: Env, r: ProcResult) {
    !r.Diverging? && exists fuel :: RunProc(m, p, env, fuel) == r
  }

  ghost predicate CodeReturns(m: Meaning, code: CBlock, env: Env, r: ProcResult) {
    !r.Diverging? && exists fuel :: RunCode(m, code, env, fuel) == r
  }

  /** Main result without fuel: the emitted function and the procedure return the
      same, and at most one, result. */
  lemma SameAndOnlyResult(m: Meaning, p: Proc, n: nat, env: Env, r: ProcResult, other: ProcResult)
    requires Exits.Accepted(p) && LowerProc(p, n).Code?
    ensures CodeReturns(m, LowerProc(p, n).code, env, r) <==> Returns(m, p, env, r)
    ensures Returns(m, p, env, r) && Returns(m, p, env, other) ==> r == other
  {
    forall fuel ensures RunCode(m, LowerProc(p, n).code, env, fuel) == RunProc(m, p, env, fuel) {
      AcceptedProcPreserved(m, p, n, env, fuel);
    }
    if Returns(m, p, env, r) && Returns(m, p, env, other) {
      var f :| RunProc(m, p, env, f) == r;
      var g :| RunProc(m, p, env, g) == other;
      if f <= g { OneResult(m, p, n, env, f, g); } else { OneResult(m, p, n, env, g, f); }
    }
  }
}
