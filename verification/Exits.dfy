/** EXIT statements: what semantic analysis accepts, code generation can lower. */
module Exits {
  import opened Options
  import opened Basic
  import opened Cpp
  import opened Codegen

  /** The position of the nearest enclosing construct of this kind, innermost last. */
  function FindKind(kinds: seq<LoopKind>, k: LoopKind): Option<nat> {
    if kinds == [] then None
    else if kinds[|kinds| - 1] == k then Some(|kinds| - 1)
    else FindKind(kinds[..|kinds| - 1], k)
  }

  /** The EXITs reported as having nothing to leave, in source order. */
  function BadExits(s: Stmt, kinds: seq<LoopKind>): seq<LoopKind>
    decreases s, 0
  {
    match s
    case If(_, thn, arms) => BadInBlock(thn, kinds) + BadInArms(arms, kinds)
    case Select(_, cases) => BadInCases(cases, kinds)
    case For(_, _, _, _, body) => BadInBlock(body, kinds + [ForKind])
    case Do(_, body, _) => BadInBlock(body, kinds + [DoKind])
    case While(_, body) => BadInBlock(body, kinds + [WhileKind])
    case Exit(k) => if FindKind(kinds, k).None? then [k] else []
    case _ => []
  }

  function BadInBlock(b: Block, kinds: seq<LoopKind>): seq<LoopKind>
    decreases b, 0
  {
    if b.Nil? then [] else BadExits(b.head, kinds) + BadInBlock(b.tail, kinds)
  }

  function BadInArms(arms: IfArms, kinds: seq<LoopKind>): seq<LoopKind>
    decreases arms, 0
  {
    match arms
    case EndIf => []
    case Else(body) => BadInBlock(body, kinds)
    case ElseIf(_, body, rest) => BadInBlock(body, kinds) + BadInArms(rest, kinds)
  }

  function BadInCases(cases: Cases, kinds: seq<LoopKind>): seq<LoopKind>
    decreases cases, 0
  {
    match cases
    case EndSelect => []
    case CaseElse(body) => BadInBlock(body, kinds)
    case Case(_, body, rest) => BadInBlock(body, kinds) + BadInCases(rest, kinds)
  }

  /** What is on the analyser's stack when a procedure body starts. */
  function BaseKinds(p: Proc): seq<LoopKind> {
    match p
    case MainProgram(_) => []
    case Sub(_) => [SubKind]
    case Function(_) => [FunctionKind]
  }

  predicate Accepted(p: Proc) { BadInBlock(p.body, BaseKinds(p)) == [] }

  /** The analyser's walk over a procedure body, as far as loops and EXIT go. */
  class Sema {
    var loopStack: seq<LoopKind>
    var reported: seq<LoopKind>

    constructor ()
      ensures loopStack == [] && reported == []
    {
      loopStack, reported := [], [];
    }

    method CheckProc(p: Proc) returns (ok: bool)
      requires loopStack == []
      modifies this
      ensures loopStack == [] && reported == old(reported) + BadInBlock(p.body, BaseKinds(p))
      ensures ok <==> Accepted(p)
    {
      var before := |reported|;
      if !p.MainProgram? { loopStack := loopStack + [if p.Sub? then SubKind else FunctionKind]; }
      assert loopStack == BaseKinds(p);
      CheckBlock(p.body);
      if !p.MainProgram? { loopStack := loopStack[..|loopStack| - 1]; }
      ok := |reported| == before;
    }

    method CheckBlock(b: Block)
      modifies this
      ensures loopStack == old(loopStack) && reported == old(reported) + BadInBlock(b, old(loopStack))
      decreases b, 0
    {
      var rest := b;
      while rest.Cons?
        invariant rest == b || rest < b
        invariant loopStack == old(loopStack)
        invariant reported + BadInBlock(rest, loopStack) == old(reported) + BadInBlock(b, loopStack)
        decreases rest
      {
        CheckStmt(rest.head);
        rest := rest.tail;
      }
    }

    method CheckStmt(s: Stmt)
      modifies this
      ensures loopStack == old(loopStack) && reported == old(reported) + BadExits(s, old(loopStack))
      decreases s, 0
    {
      match s
      case If(_, thn, arms) =>
        CheckBlock(thn);
        CheckArms(arms);
      case Select(_, cases) => CheckCases(cases);
      case For(_, _, _, _, body) => CheckLoop(ForKind, body);
      case Do(_, body, _) => CheckLoop(DoKind, body);
      case While(_, body) => CheckLoop(WhileKind, body);
      case Exit(k) =>
        var found := IsEnclosed(k);
        if !found { reported := reported + [k]; }
      case _ =>
    }

    method IsEnclosed(k: LoopKind) returns (found: bool)
      ensures found <==> FindKind(loopStack, k).Some?
    {
      var i := |loopStack|;
      assert loopStack[..i] == loopStack;
      while i > 0
        invariant 0 <= i <= |loopStack|
        invariant FindKind(loopStack, k) == FindKind(loopStack[..i], k)
      {
        i := i - 1;
        assert loopStack[..i + 1][..i] == loopStack[..i];
        if loopStack[i] == k { return true; }
      }
      return false;
    }

    method CheckArms(arms: IfArms)
      modifies this
      ensures loopStack == old(loopStack) && reported == old(reported) + BadInArms(arms, old(loopStack))
      decreases arms, 0
    {
      var rest := arms;
      while rest.ElseIf?
        invariant rest == arms || rest < arms
        invariant loopStack == old(loopStack)
        invariant reported + BadInArms(rest, loopStack) == old(reported) + BadInArms(arms, loopStack)
        decreases rest
      {
        CheckBlock(rest.body);
        rest := rest.rest;
      }
      if rest.Else? { CheckBlock(rest.body); }
    }

    method CheckCases(cases: Cases)
      modifies this
      ensures loopStack == old(loopStack) && reported == old(reported) + BadInCases(cases, old(loopStack))
      decreases cases, 0
    {
      var rest := cases;
      while rest.Case?
        invariant rest == cases || rest < cases
        invariant loopStack == old(loopStack)
        invariant reported + BadInCases(rest, loopStack) == old(reported) + BadInCases(cases, loopStack)
        decreases rest
      {
        CheckBlock(rest.body);
        rest := rest.rest;
      }
      if rest.CaseElse? { CheckBlock(rest.body); }
    }

    method CheckLoop(kind: LoopKind, body: Block)
      modifies this
      ensures loopStack == old(loopStack) && reported == old(reported) + BadInBlock(body, old(loopStack) + [kind])
      decreases body, 1
    {
      loopStack := loopStack + [kind];
      CheckBlock(body);
      loopStack := loopStack[..|loopStack| - 1];
    }
  }

  /** The analyser's stack holds what the generator's holds, on top of the
      kind of the procedure. */
  ghost predicate Aligned(kinds: seq<LoopKind>, base: seq<LoopKind>, stack: LoopStack) {
    && (forall i :: 0 <= i < |base| ==> !IsLoop(base[i]))
    && |kinds| == |base| + |stack|
    && (forall i :: 0 <= i < |base| ==> kinds[i] == base[i])
    && (forall i :: 0 <= i < |stack| ==> kinds[|base| + i] == stack[i].0)
  }

  lemma AlignedPush(kinds: seq<LoopKind>, base: seq<LoopKind>, stack: LoopStack, k: LoopKind, l: Gen)
    requires Aligned(kinds, base, stack)
    ensures Aligned(kinds + [k], base, stack + [(k, l)])
  {
  }

  /** Both look-ups stop at the same loop, or both find none. */
  lemma {:induction false} SameLoop(kinds: seq<LoopKind>, base: seq<LoopKind>, stack: LoopStack, k: LoopKind)
    requires Aligned(kinds, base, stack) && IsLoop(k)
    ensures
      match FindKind(kinds, k)
      case None => FindLabel(stack, k) == None
      case Some(i) => |base| <= i < |kinds| && FindLabel(stack, k) == Some(stack[i - |base|].1)
    decreases |kinds|
  {
    if stack != [] {
      var top := |stack| - 1;
      if stack[top].0 != k {
        SameLoop(kinds[..|kinds| - 1], base, stack[..top], k);
      }
    } else if kinds != [] {
      SameLoop(kinds[..|kinds| - 1], base[..|base| - 1], stack, k);
    }
  }

  ghost predicate NoLoopIn(bad: seq<LoopKind>) {
    forall i :: 0 <= i < |bad| ==> !IsLoop(bad[i])
  }

  lemma NoLoopInSum(a: seq<LoopKind>, b: seq<LoopKind>)
    ensures NoLoopIn(a + b) <==> NoLoopIn(a) && NoLoopIn(b)
  {
    if NoLoopIn(a + b) {
      assert forall i :: 0 <= i < |a| ==> a[i] == (a + b)[i];
      assert forall i :: 0 <= i < |b| ==> b[i] == (a + b)[|a| + i];
    }
  }

  /** Code generation throws exactly when some EXIT FOR, DO or WHILE is reported. */
  lemma {:induction false} LowersExactly(s: Stmt, kinds: seq<LoopKind>, base: seq<LoopKind>, stack: LoopStack, n: nat)
    requires Aligned(kinds, base, stack)
    ensures Lower(s, stack, n).Code? <==> NoLoopIn(BadExits(s, kinds))
    decreases s, 0
  {
    match s
    case If(_, thn, arms) =>
      BlockLowersExactly(thn, kinds, base, stack, n);
      if LowerBlock(thn, stack, n).Code? {
        ArmsLowerExactly(arms, kinds, base, stack, LowerBlock(thn, stack, n).ctr);
      }
      NoLoopInSum(BadInBlock(thn, kinds), BadInArms(arms, kinds));
    case Select(_, cases) =>
      CasesLowerExactly(cases, Gen(Sel, n), true, kinds, base, stack, n + 1);
    case For(_, _, _, _, body) =>
      var l := Gen(ForExit, n + 2);
      AlignedPush(kinds, base, stack, ForKind, l);
      BlockLowersExactly(body, kinds + [ForKind], base, stack + [(ForKind, l)], n + 3);
      var up := LowerBlock(body, stack + [(ForKind, l)], n + 3);
      if up.Code? { BlockLowersExactly(body, kinds + [ForKind], base, stack + [(ForKind, l)], up.ctr); }
    case Do(_, body, _) =>
      AlignedPush(kinds, base, stack, DoKind, Gen(DoExit, n));
      BlockLowersExactly(body, kinds + [DoKind], base, stack + [(DoKind, Gen(DoExit, n))], n + 1);
    case While(_, body) =>
      AlignedPush(kinds, base, stack, WhileKind, Gen(WhileExit, n));
      BlockLowersExactly(body, kinds + [WhileKind], base, stack + [(WhileKind, Gen(WhileExit, n))], n + 1);
    case Exit(k) =>
      if IsLoop(k) {
        SameLoop(kinds, base, stack, k);
        assert FindKind(kinds, k).None? ==> IsLoop(BadExits(s, kinds)[0]);
      }
    case _ =>
  }

  lemma {:induction false} BlockLowersExactly(b: Block, kinds: seq<LoopKind>, base: seq<LoopKind>, stack: LoopStack,
                                              n: nat)
    requires Aligned(kinds, base, stack)
    ensures LowerBlock(b, stack, n).Code? <==> NoLoopIn(BadInBlock(b, kinds))
    decreases b, 0
  {
    if b.Cons? {
      LowersExactly(b.head, kinds, base, stack, n);
      if Lower(b.head, stack, n).Code? {
        BlockLowersExactly(b.tail, kinds, base, stack, Lower(b.head, stack, n).ctr);
      }
      NoLoopInSum(BadExits(b.head, kinds), BadInBlock(b.tail, kinds));
    }
  }

  lemma {:induction false} ArmsLowerExactly(arms: IfArms, kinds: seq<LoopKind>, base: seq<LoopKind>, stack: LoopStack,
                                            n: nat)
    requires Aligned(kinds, base, stack)
    ensures LowerArms(arms, stack, n).Code? <==> NoLoopIn(BadInArms(arms, kinds))
    decreases arms, 0
  {
    match arms
    case EndIf =>
    case Else(body) => BlockLowersExactly(body, kinds, base, stack, n);
    case ElseIf(_, body, rest) =>
      BlockLowersExactly(body, kinds, base, stack, n);
      if LowerBlock(body, stack, n).Code? {
        ArmsLowerExactly(rest, kinds, base, stack, LowerBlock(body, stack, n).ctr);
      }
      NoLoopInSum(BadInBlock(body, kinds), BadInArms(rest, kinds));
  }

  lemma {:induction false} CasesLowerExactly(cases: Cases, sel: Gen, first: bool, kinds: seq<LoopKind>,
                                             base: seq<LoopKind>, stack: LoopStack, n: nat)
    requires Aligned(kinds, base, stack)
    ensures LowerCases(cases, sel, first, stack, n).Code? <==> NoLoopIn(BadInCases(cases, kinds))
    decreases cases, 0
  {
    match cases
    case EndSelect =>
    case CaseElse(body) => BlockLowersExactly(body, kinds, base, stack, n);
    case Case(_, body, rest) =>
      BlockLowersExactly(body, kinds, base, stack, n);
      if LowerBlock(body, stack, n).Code? {
        CasesLowerExactly(rest, sel, false, kinds, base, stack, LowerBlock(body, stack, n).ctr);
      }
      NoLoopInSum(BadInBlock(body, kinds), BadInCases(rest, kinds));
  }
}
