/** Lowering of BASIC control flow to C++: a function that says what is emitted
    for which statement, and the code generator that keeps a loop stack and a
    name counter while it emits it. */
module Codegen {
  import opened Options
  import opened Basic
  import opened Cpp

  /** Enclosing loops, innermost last, each with the label placed after it. */
  type LoopStack = seq<(LoopKind, Gen)>

  /** `Throws` stands for the exception on an EXIT without a matching loop. */
  datatype Lowered = Code(code: CBlock, ctr: nat) | Throws

  function One(s: CStmt): CBlock { CCons(s, CNil) }

  /** The label of the nearest enclosing loop of this kind. */
  function FindLabel(stack: LoopStack, k: LoopKind): Option<Gen> {
    if stack == [] then None
    else if stack[|stack| - 1].0 == k then Some(stack[|stack| - 1].1)
    else FindLabel(stack[..|stack| - 1], k)
  }

  function BreakIf(c: Cond): CBlock { One(CIf(c, One(CBreak), CNil)) }

  function TestCode(t: Test): CBlock {
    match t
    case NoTest => CNil
    case WhileTest(e) => BreakIf(IsZero(e))
    case UntilTest(e) => BreakIf(NotZero(e))
  }

  function ForCode(x: string, start: Expr, to: Expr, step: Option<Expr>, n: nat, up: CBlock, down: CBlock): CBlock {
    var (end, inc) := (Gen(ForEnd, n), Gen(ForStep, n + 1));
    CCons(
      CScope(
        CCons(CDecl(end, FromExpr(to)),
        CCons(CDecl(inc, if step.Some? then FromExpr(step.value) else LiteralOne),
        CCons(CAssign(x, start),
        One(CIf(NotNegative(inc),
                One(CFor(VarLe(x, end), x, inc, up)),
                One(CFor(VarGe(x, end), x, inc, down)))))))),
      One(CLabel(Gen(ForExit, n + 2))))
  }

  function DoCode(pre: Test, body: CBlock, post: Test, n: nat): CBlock {
    CCons(CScope(One(CForever(Append(TestCode(pre), Append(body, TestCode(post)))))),
          One(CLabel(Gen(DoExit, n))))
  }

  function WhileCode(c: Expr, body: CBlock, n: nat): CBlock {
    CCons(CScope(One(CWhile(NotZero(c), body))), One(CLabel(Gen(WhileExit, n))))
  }

  function SelectCode(e: Expr, arms: CBlock, n: nat): CBlock {
    One(CScope(CCons(CDecl(Gen(Sel, n), FromExpr(e)), arms)))
  }

  function Lower(s: Stmt, stack: LoopStack, n: nat): Lowered
    decreases s, 0
  {
    match s
    case Assign(x, e) => Code(One(CAssign(x, e)), n)
    case ReturnAssign(e) => Code(One(CSetRet(e)), n)
    case Effect(e) => Code(One(CEffect(e)), n)
    case If(c, thn, arms) =>
      (match LowerBlock(thn, stack, n)
       case Throws => Throws
       case Code(a, n1) =>
         match LowerArms(arms, stack, n1)
         case Throws => Throws
         case Code(b, n2) => Code(One(CIf(NotZero(c), a, b)), n2))
    case Select(e, cases) =>
      (match LowerCases(cases, Gen(Sel, n), true, stack, n + 1)
       case Throws => Throws
       case Code(arms, n1) => Code(SelectCode(e, arms, n), n1))
    case For(x, start, to, step, body) =>
      var inner := stack + [(ForKind, Gen(ForExit, n + 2))];
      (match LowerBlock(body, inner, n + 3)
       case Throws => Throws
       case Code(up, n1) =>
         match LowerBlock(body, inner, n1)
         case Throws => Throws
         case Code(down, n2) => Code(ForCode(x, start, to, step, n, up, down), n2))
    case Do(pre, body, post) =>
      (match LowerBlock(body, stack + [(DoKind, Gen(DoExit, n))], n + 1)
       case Throws => Throws
       case Code(b, n1) => Code(DoCode(pre, b, post, n), n1))
    case While(c, body) =>
      (match LowerBlock(body, stack + [(WhileKind, Gen(WhileExit, n))], n + 1)
       case Throws => Throws
       case Code(b, n1) => Code(WhileCode(c, b, n), n1))
    case Exit(k) =>
      if k.SubKind? then Code(One(CReturn), n)
      else if k.FunctionKind? then Code(One(CReturnRet), n)
      else (match FindLabel(stack, k)
            case None => Throws
            case Some(l) => Code(One(CGoto(l)), n))
    case Return(result) =>
      Code(One(if result.Some? then CReturnValue(result.value) else CReturn), n)
  }

  function LowerBlock(b: Block, stack: LoopStack, n: nat): Lowered
    decreases b, 0
  {
    match b
    case Nil => Code(CNil, n)
    case Cons(s, rest) =>
      match Lower(s, stack, n)
      case Throws => Throws
      case Code(c, n1) =>
        match LowerBlock(rest, stack, n1)
        case Throws => Throws
        case Code(d, n2) => Code(Append(c, d), n2)
  }

  /** The `else` part of an if chain. */
  function LowerArms(arms: IfArms, stack: LoopStack, n: nat): Lowered
    decreases arms, 0
  {
    match arms
    case EndIf => Code(CNil, n)
    case Else(body) => LowerBlock(body, stack, n)
    case ElseIf(c, body, rest) =>
      match LowerBlock(body, stack, n)
      case Throws => Throws
      case Code(a, n1) =>
        match LowerArms(rest, stack, n1)
        case Throws => Throws
        case Code(b, n2) => Code(One(CIf(NotZero(c), a, b)), n2)
  }

  /** The arms of a SELECT.  A CASE ELSE that comes first is a plain braced block. */
  function LowerCases(cases: Cases, sel: Gen, first: bool, stack: LoopStack, n: nat): Lowered
    decreases cases, 0
  {
    match cases
    case EndSelect => Code(CNil, n)
    case CaseElse(body) =>
      (match LowerBlock(body, stack, n)
       case Throws => Throws
       case Code(a, n1) => Code(if first then One(CScope(a)) else a, n1))
    case Case(es, body, rest) =>
      match LowerBlock(body, stack, n)
      case Throws => Throws
      case Code(a, n1) =>
        match LowerCases(rest, sel, false, stack, n1)
        case Throws => Throws
        case Code(b, n2) => Code(One(CIf(EqualsAny(sel, es), a, b)), n2)
  }

  /** A whole procedure.  A FUNCTION ends in `return eb__ret;`. */
  function LowerProc(p: Proc, n: nat): Lowered {
    match LowerBlock(p.body, [], n)
    case Throws => Throws
    case Code(c, n1) => Code(if p.Function? then Append(c, One(CReturnRet)) else c, n1)
  }

  /** What a module is emitted as: the main program and the procedures. */
  datatype ModuleCode = ModuleCode(main: CBlock, procs: seq<CBlock>)

  /** Procedures and the statements between them go to different streams, but draw
      their names from one counter. */
  function LowerModule(items: seq<Item>, n: nat): Option<ModuleCode> {
    if items == [] then Some(ModuleCode(CNil, []))
    else
      match if items[0].Statement? then Lower(items[0].s, [], n) else LowerProc(items[0].p, n)
      case Throws => None
      case Code(c, n1) =>
        match LowerModule(items[1..], n1)
        case None => None
        case Some(rest) =>
          Some(if items[0].Statement? then rest.(main := Append(c, rest.main)) else rest.(procs := [c] + rest.procs))
  }

  lemma {:induction false} AppendNil(a: CBlock)
    ensures Append(a, CNil) == a
  {
    if a.CCons? { AppendNil(a.tail); }
  }

  lemma {:induction false} AppendAssoc(a: CBlock, b: CBlock, c: CBlock)
    ensures Append(Append(a, b), c) == Append(a, Append(b, c))
  {
    if a.CCons? { AppendAssoc(a.tail, b, c); }
  }

  /** The code generator.  Every method returns what it emits, or `None` where
      lowering throws. */
  class Generator {
    var loopStack: LoopStack
    var tempCounter: nat

    constructor ()
      ensures loopStack == [] && tempCounter == 0
    {
      loopStack := [];
      tempCounter := 0;
    }

    method NextName(prefix: Prefix) returns (name: Gen)
      modifies this`tempCounter
      ensures name == Gen(prefix, old(tempCounter)) && tempCounter == old(tempCounter) + 1
    {
      name := Gen(prefix, tempCounter);
      tempCounter := tempCounter + 1;
    }

    /** Emitting leaves the loop stack as it was, and emits what `want` says. */
    ghost predicate Emitted(out: Option<CBlock>, want: Lowered, stack: LoopStack)
      reads this
    {
      match want
      case Throws => out.None?
      case Code(c, n) => out == Some(c) && tempCounter == n && loopStack == stack
    }

    method FindExitLabel(k: LoopKind) returns (found: Option<Gen>)
      ensures found == FindLabel(loopStack, k)
    {
      var i := |loopStack|;
      assert loopStack[..i] == loopStack;
      while i > 0
        invariant 0 <= i <= |loopStack|
        invariant FindLabel(loopStack, k) == FindLabel(loopStack[..i], k)
      {
        i := i - 1;
        assert loopStack[..i + 1][..i] == loopStack[..i];
        if loopStack[i].0 == k { return Some(loopStack[i].1); }
      }
      return None;
    }

    method GenBlock(b: Block) returns (out: Option<CBlock>)
      modifies this
      ensures Emitted(out, LowerBlock(b, old(loopStack), old(tempCounter)), old(loopStack))
      decreases b, 0
    {
      var rest, code := b, CNil;
      while rest.Cons?
        invariant loopStack == old(loopStack)
        invariant rest == b || rest < b
        invariant match LowerBlock(rest, loopStack, tempCounter)
                  case Throws => LowerBlock(b, old(loopStack), old(tempCounter)).Throws?
                  case Code(c, n) => LowerBlock(b, old(loopStack), old(tempCounter)) == Code(Append(code, c), n)
        decreases rest
      {
        var c := GenStmt(rest.head);
        if c.None? { return None; }
        ghost var tail := LowerBlock(rest.tail, loopStack, tempCounter);
        if tail.Code? { AppendAssoc(code, c.value, tail.code); }
        code := Append(code, c.value);
        rest := rest.tail;
      }
      AppendNil(code);
      return Some(code);
    }

    method GenStmt(s: Stmt) returns (out: Option<CBlock>)
      modifies this
      ensures Emitted(out, Lower(s, old(loopStack), old(tempCounter)), old(loopStack))
      decreases s, 0
    {
      match s
      case Assign(x, e) => return Some(One(CAssign(x, e)));
      case ReturnAssign(e) => return Some(One(CSetRet(e)));
      case Effect(e) => return Some(One(CEffect(e)));
      case If(c, thn, arms) =>
        var a := GenBlock(thn);
        if a.None? { return None; }
        var b := GenArms(arms);
        if b.None? { return None; }
        return Some(One(CIf(NotZero(c), a.value, b.value)));
      case Select(e, cases) =>
        ghost var n := tempCounter;
        var sel := NextName(Sel);
        var arms := GenCases(cases, sel, true);
        if arms.None? { return None; }
        return Some(SelectCode(e, arms.value, sel.n));
      case For(x, start, to, step, body) =>
        out := GenFor(x, start, to, step, body);
      case Do(pre, body, post) =>
        var target := NextName(DoExit);
        loopStack := loopStack + [(DoKind, target)];
        var b := GenBlock(body);
        if b.None? { return None; }
        loopStack := loopStack[..|loopStack| - 1];
        return Some(DoCode(pre, b.value, post, target.n));
      case While(c, body) =>
        var target := NextName(WhileExit);
        loopStack := loopStack + [(WhileKind, target)];
        var b := GenBlock(body);
        if b.None? { return None; }
        loopStack := loopStack[..|loopStack| - 1];
        return Some(WhileCode(c, b.value, target.n));
      case Exit(k) =>
        if k.SubKind? { return Some(One(CReturn)); }
        if k.FunctionKind? { return Some(One(CReturnRet)); }
        var target := FindExitLabel(k);
        if target.None? { return None; }
        return Some(One(CGoto(target.value)));
      case Return(result) =>
        return Some(One(if result.Some? then CReturnValue(result.value) else CReturn));
    }

    /** The body is emitted twice, once per direction, each time with new names. */
    method GenFor(x: string, start: Expr, to: Expr, step: Option<Expr>, body: Block) returns (out: Option<CBlock>)
      modifies this
      ensures Emitted(out, Lower(For(x, start, to, step, body), old(loopStack), old(tempCounter)), old(loopStack))
      decreases body, 1
    {
      var end := NextName(ForEnd);
      var inc := NextName(ForStep);
      var target := NextName(ForExit);
      loopStack := loopStack + [(ForKind, target)];
      var up := GenBlock(body);
      if up.None? { return None; }
      var down := GenBlock(body);
      if down.None? { return None; }
      loopStack := loopStack[..|loopStack| - 1];
      return Some(ForCode(x, start, to, step, end.n, up.value, down.value));
    }

    method GenArms(arms: IfArms) returns (out: Option<CBlock>)
      modifies this
      ensures Emitted(out, LowerArms(arms, old(loopStack), old(tempCounter)), old(loopStack))
      decreases arms, 0
    {
      match arms
      case EndIf => return Some(CNil);
      case Else(body) => out := GenBlock(body);
      case ElseIf(c, body, rest) =>
        var a := GenBlock(body);
        if a.None? { return None; }
        var b := GenArms(rest);
        if b.None? { return None; }
        return Some(One(CIf(NotZero(c), a.value, b.value)));
    }

    method GenCases(cases: Cases, sel: Gen, first: bool) returns (out: Option<CBlock>)
      modifies this
      ensures Emitted(out, LowerCases(cases, sel, first, old(loopStack), old(tempCounter)), old(loopStack))
      decreases cases, 0
    {
      match cases
      case EndSelect => return Some(CNil);
      case CaseElse(body) =>
        var a := GenBlock(body);
        if a.None? { return None; }
        return Some(if first then One(CScope(a.value)) else a.value);
      case Case(es, body, rest) =>
        var a := GenBlock(body);
        if a.None? { return None; }
        var b := GenCases(rest, sel, false);
        if b.None? { return None; }
        return Some(One(CIf(EqualsAny(sel, es), a.value, b.value)));
    }

    method GenProc(p: Proc) returns (out: Option<CBlock>)
      requires loopStack == []
      modifies this
      ensures Emitted(out, LowerProc(p, old(tempCounter)), [])
    {
      out := GenBlock(p.body);
      if out.Some? && p.Function? { out := Some(Append(out.value, One(CReturnRet))); }
    }

    method GenModule(items: seq<Item>) returns (out: Option<ModuleCode>)
      requires loopStack == []
      modifies this
      ensures out == LowerModule(items, old(tempCounter))
    {
      var i, mainOut, procOut := 0, CNil, [];
      assert items[0..] == items;
      AddsNothing(LowerModule(items, tempCounter));
      while i < |items|
        invariant 0 <= i <= |items| && loopStack == []
        invariant LowerModule(items, old(tempCounter)) == Added(mainOut, procOut, LowerModule(items[i..], tempCounter))
        decreases |items| - i
      {
        assert items[i..][1..] == items[i + 1..];
        if items[i].Statement? {
          var c := GenStmt(items[i].s);
          if c.None? { return None; }
          ghost var rest := LowerModule(items[i + 1..], tempCounter);
          if rest.Some? { AddsMain(mainOut, procOut, c.value, rest); }
          mainOut := Append(mainOut, c.value);
        } else {
          var c := GenProc(items[i].p);
          if c.None? { return None; }
          ghost var rest := LowerModule(items[i + 1..], tempCounter);
          if rest.Some? { AddsProc(mainOut, procOut, c.value, rest); }
          procOut := procOut + [c.value];
        }
        i := i + 1;
      }
      AppendNil(mainOut);
      assert items[i..] == [] && procOut + [] == procOut;
      return Some(ModuleCode(mainOut, procOut));
    }
  }

  /** Both streams of a module, with what is still to come. */
  function Added(main: CBlock, procs: seq<CBlock>, rest: Option<ModuleCode>): Option<ModuleCode> {
    if rest.None? then None else Some(ModuleCode(Append(main, rest.value.main), procs + rest.value.procs))
  }

  lemma AddsNothing(rest: Option<ModuleCode>)
    ensures Added(CNil, [], rest) == rest
  {
    if rest.Some? { assert [] + rest.value.procs == rest.value.procs; }
  }

  lemma AddsMain(main: CBlock, procs: seq<CBlock>, c: CBlock, rest: Option<ModuleCode>)
    requires rest.Some?
    ensures Added(main, procs, Some(rest.value.(main := Append(c, rest.value.main))))
         == Added(Append(main, c), procs, rest)
  {
    AppendAssoc(main, c, rest.value.main);
  }

  lemma AddsProc(main: CBlock, procs: seq<CBlock>, c: CBlock, rest: Option<ModuleCode>)
    requires rest.Some?
    ensures Added(main, procs, Some(rest.value.(procs := [c] + rest.value.procs)))
         == Added(main, procs + [c], rest)
  {
    assert procs + ([c] + rest.value.procs) == procs + [c] + rest.value.procs;
  }
}
