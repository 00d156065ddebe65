/** The stack of conditionals computes what their nesting means: each chain runs
    its first branch whose condition holds where the chain begins. */
module Conditionals {
  import opened Options
  import opened MacroText
  import opened Preprocessor

  /** A well-nested file.  A unit is one ordinary line or directive, or a whole
      block macro definition; an `#endmacro` by itself is none. */
  datatype Tree =
    | Nil
    | Unit(lines: seq<string>, rest: Tree)
    | Chain(head: string, body: Tree, more: Arms, end: string, rest: Tree)

  /** The later branches of a chain. */
  datatype Arms = NoMore | ElseIf(line: string, body: Tree, more: Arms) | Else(line: string, body: Tree)

  function Flatten(t: Tree): seq<string> {
    match t
    case Nil => []
    case Unit(lines, rest) => lines + Flatten(rest)
    case Chain(head, body, more, end, rest) =>
      [head] + (Flatten(body) + (FlattenArms(more) + ([end] + Flatten(rest))))
  }

  function FlattenArms(a: Arms): seq<string> {
    match a
    case NoMore => []
    case ElseIf(line, body, more) => [line] + (Flatten(body) + FlattenArms(more))
    case Else(line, body) => [line] + Flatten(body)
  }

  function Size(t: Tree): nat {
    match t
    case Nil => 0
    case Unit(lines, rest) => |lines| + Size(rest)
    case Chain(_, body, more, _, rest) => 1 + Size(body) + SizeArms(more) + 1 + Size(rest)
  }

  function SizeArms(a: Arms): nat {
    match a
    case NoMore => 0
    case ElseIf(_, body, more) => 1 + Size(body) + SizeArms(more)
    case Else(_, body) => 1 + Size(body)
  }

  lemma {:induction false} SizeIsLength(t: Tree)
    ensures |Flatten(t)| == Size(t)
  {
    match t
    case Nil =>
    case Unit(_, rest) => SizeIsLength(rest);
    case Chain(_, body, more, _, rest) =>
      SizeIsLength(body);
      SizeArmsIsLength(more);
      SizeIsLength(rest);
  }

  lemma {:induction false} SizeArmsIsLength(a: Arms)
    ensures |FlattenArms(a)| == SizeArms(a)
  {
    match a
    case NoMore =>
    case ElseIf(_, body, more) =>
      SizeIsLength(body);
      SizeArmsIsLength(more);
    case Else(_, body) => SizeIsLength(body);
  }

  predicate IsUnit(lines: seq<string>) {
    |lines| > 0 && !IsConditional(Keyword(lines[0])) && Keyword(lines[0]) != "endmacro"
    && (if Keyword(lines[0]) == "macro" then
          |lines| > 1 && EndsMacro(lines[|lines| - 1])
          && forall i :: 0 < i < |lines| - 1 ==> !EndsMacro(lines[i])
        else |lines| == 1)
  }

  predicate Nested(t: Tree) {
    match t
    case Nil => true
    case Unit(lines, rest) => IsUnit(lines) && Nested(rest)
    case Chain(head, body, more, end, rest) =>
      OpensIf(Keyword(head)) && Nested(body) && NestedArms(more) && Keyword(end) == "endif" && Nested(rest)
  }

  predicate NestedArms(a: Arms) {
    match a
    case NoMore => true
    case ElseIf(line, body, more) => ElseIfs(Keyword(line)) && Nested(body) && NestedArms(more)
    case Else(line, body) => Keyword(line) == "else" && Nested(body)
  }

  /* ----- what nesting means ----- */

  /** The number of the first branch whose condition holds, given one macro table
      for all of them; `#else` always does. */
  function Chosen(m: Macros, file: string, a: Arms, k: nat): nat {
    match a
    case NoMore => 0
    case ElseIf(line, body, more) =>
      if Holds(m, line, Loc(k + 1, file)) then 0 else 1 + Chosen(m, file, more, k + 1 + Size(body))
    case Else(_, _) => 0
  }

  /** Running a file's tree from line `k`: branches that are not chosen are blank. */
  function RunTree(w: World, s: State, p: Place, t: Tree, k: nat, depth: nat): Option<State>
    requires Closed(w) && Nested(t) && k + Size(t) <= |p.lines|
    decreases t, 1
  {
    match t
    case Nil => Some(s)
    case Unit(lines, rest) =>
      (match LineEffect(w, s, p, k, true, depth)
       case None => None
       case Some(u) => RunTree(w, u, p, rest, k + |lines|, depth))
    case Chain(_, body, more, _, rest) =>
      match RunChain(w, s, p, t, k, depth)
      case None => None
      case Some(u) => RunTree(w, u, p, rest, k + 1 + Size(body) + SizeArms(more) + 1, depth)
  }

  /** A chain up to its `#endif`; of its branches, at most one runs. */
  function RunChain(w: World, s: State, p: Place, t: Tree, k: nat, depth: nat): Option<State>
    requires Closed(w) && Nested(t) && t.Chain? && k + Size(t) <= |p.lines|
    decreases t, 0
  {
    var first := Holds(s.macros, t.head, Loc(k + 1, p.file));
    var next := k + 1 + Size(t.body);
    var pick: int := if first then -1 else Chosen(s.macros, p.file, t.more, next);
    match RunBranch(w, s, p, t.body, k, first, depth)
    case None => None
    case Some(u) =>
      match RunArms(w, u, p, t.more, next, pick, depth)
      case None => None
      case Some(v) => Some(Blanks(v, p.file, next + SizeArms(t.more), next + SizeArms(t.more) + 1))
  }

  /** A branch and the line that heads it. */
  function RunBranch(w: World, s: State, p: Place, body: Tree, k: nat, chosen: bool, depth: nat): Option<State>
    requires Closed(w) && Nested(body) && k + 1 + Size(body) <= |p.lines|
    decreases body, 2
  {
    if chosen then RunTree(w, Blanks(s, p.file, k, k + 1), p, body, k + 1, depth)
    else Some(Blanks(s, p.file, k, k + 1 + Size(body)))
  }

  /** The later branches, of which number `pick` runs. */
  function RunArms(w: World, s: State, p: Place, a: Arms, k: nat, pick: int, depth: nat): Option<State>
    requires Closed(w) && NestedArms(a) && k + SizeArms(a) <= |p.lines|
    decreases a, 0
  {
    match a
    case NoMore => Some(s)
    case Else(_, body) => RunBranch(w, s, p, body, k, pick == 0, depth)
    case ElseIf(_, body, more) =>
      match RunBranch(w, s, p, body, k, pick == 0, depth)
      case None => None
      case Some(u) => RunArms(w, u, p, more, k + 1 + Size(body), pick - 1, depth)
  }

  /* ----- the stack machine does that ----- */

  ghost predicate Lies(lines: seq<string>, k: nat, part: seq<string>) {
    k + |part| <= |lines| && lines[k..k + |part|] == part
  }

  lemma LiesSplit(lines: seq<string>, k: nat, a: seq<string>, b: seq<string>)
    requires Lies(lines, k, a + b)
    ensures Lies(lines, k, a) && Lies(lines, k + |a|, b)
  {
    var s := lines[k..k + |a| + |b|];
    assert s[..|a|] == a && s[|a|..] == b;
    assert s[..|a|] == lines[k..k + |a|] && s[|a|..] == lines[k + |a|..k + |a| + |b|];
  }

  lemma LiesFirst(lines: seq<string>, k: nat, line: string, b: seq<string>)
    requires Lies(lines, k, [line] + b)
    ensures k < |lines| && lines[k] == line && Lies(lines, k + 1, b)
  {
    LiesSplit(lines, k, [line], b);
    assert lines[k..k + 1][0] == line;
  }

  /** The parts of a tree in its file. */
  lemma TreeParts(p: Place, t: Tree, k: nat)
    requires Lies(p.lines, k, Flatten(t))
    ensures k + Size(t) <= |p.lines|
    ensures t.Unit? ==> Lies(p.lines, k, t.lines) && Lies(p.lines, k + |t.lines|, Flatten(t.rest))
    ensures t.Chain? ==>
              var (body, more) := (k + 1, k + 1 + Size(t.body));
              var end := more + SizeArms(t.more);
              && end < |p.lines| && p.lines[k] == t.head && p.lines[end] == t.end
              && Lies(p.lines, body, Flatten(t.body)) && Lies(p.lines, more, FlattenArms(t.more))
              && Lies(p.lines, end + 1, Flatten(t.rest))
  {
    hide Lies;
    LiesInside(p.lines, k, Flatten(t));
    SizeIsLength(t);
    if t.Unit? { LiesSplit(p.lines, k, t.lines, Flatten(t.rest)); }
    if t.Chain? { ChainParts(p, t, k); }
  }

  lemma LiesInside(lines: seq<string>, k: nat, part: seq<string>)
    requires Lies(lines, k, part)
    ensures k + |part| <= |lines|
  {
  }

  lemma ChainParts(p: Place, t: Tree, k: nat)
    requires Lies(p.lines, k, Flatten(t)) && t.Chain?
    ensures
      var (body, more) := (k + 1, k + 1 + Size(t.body));
      var end := more + SizeArms(t.more);
      && end < |p.lines| && p.lines[k] == t.head && p.lines[end] == t.end
      && Lies(p.lines, body, Flatten(t.body)) && Lies(p.lines, more, FlattenArms(t.more))
      && Lies(p.lines, end + 1, Flatten(t.rest))
  {
    hide Lies, Size, SizeArms, Flatten, FlattenArms;
    ChainLines(t);
    SizeIsLength(t.body);
    SizeArmsIsLength(t.more);
    var (body, more) := (k + 1, k + 1 + Size(t.body));
    LiesFirst(p.lines, k, t.head, Flatten(t.body) + (FlattenArms(t.more) + ([t.end] + Flatten(t.rest))));
    LiesSplit(p.lines, body, Flatten(t.body), FlattenArms(t.more) + ([t.end] + Flatten(t.rest)));
    LiesSplit(p.lines, more, FlattenArms(t.more), [t.end] + Flatten(t.rest));
    LiesFirst(p.lines, more + SizeArms(t.more), t.end, Flatten(t.rest));
  }

  lemma ChainLines(t: Tree)
    requires t.Chain?
    ensures Flatten(t)
              == [t.head] + (Flatten(t.body) + (FlattenArms(t.more) + ([t.end] + Flatten(t.rest))))
  {
  }

  lemma ArmsParts(p: Place, a: Arms, k: nat)
    requires Lies(p.lines, k, FlattenArms(a))
    ensures k + SizeArms(a) <= |p.lines|
    ensures !a.NoMore? ==> k < |p.lines| && p.lines[k] == a.line && Lies(p.lines, k + 1, Flatten(a.body))
    ensures a.ElseIf? ==> Lies(p.lines, k + 1 + Size(a.body), FlattenArms(a.more))
  {
    SizeArmsIsLength(a);
    if a.Else? { LiesFirst(p.lines, k, a.line, Flatten(a.body)); }
    if a.ElseIf? {
      SizeIsLength(a.body);
      LiesFirst(p.lines, k, a.line, Flatten(a.body) + FlattenArms(a.more));
      LiesSplit(p.lines, k + 1, Flatten(a.body), FlattenArms(a.more));
    }
  }

  lemma {:induction false} BlanksJoin(s: State, file: string, a: nat, b: nat, c: nat)
    requires a <= b <= c
    ensures Blanks(Blanks(s, file, a, b), file, b, c) == Blanks(s, file, a, c)
    decreases b - a
  {
    if a < b { BlanksJoin(Emit(s, "", Loc(a + 1, file)), file, a + 1, b, c); }
  }

  lemma BlanksKeepMacros(s: State, file: string, a: nat, b: nat)
    ensures Blanks(s, file, a, b).macros == s.macros
  {
    BlanksKeepState(s, file, a, b);
  }

  lemma {:induction false} MacroEndsAt(lines: seq<string>, i: nat, j: nat)
    requires i <= j < |lines| && EndsMacro(lines[j]) && forall l :: i <= l < j ==> !EndsMacro(lines[l])
    ensures MacroEnd(lines, i) == j
    decreases j - i
  {
    if i < j { MacroEndsAt(lines, i + 1, j); }
  }

  lemma UnitStep(w: World, s: State, p: Place, unit: seq<string>, k: nat, ifs: seq<IfFrame>, depth: nat)
    requires Closed(w) && Lies(p.lines, k, unit) && IsUnit(unit)
    ensures k < |p.lines| && NextLine(p, k) == k + |unit|
    ensures
      var t := LineEffect(w, s, p, k, ActiveNow(ifs), depth);
      Run(w, s, p, k, ifs, depth) == if t.None? then None else Run(w, t.value, p, k + |unit|, ifs, depth)
    ensures !ActiveNow(ifs) ==>
              Run(w, s, p, k, ifs, depth) == Run(w, Blanks(s, p.file, k, k + |unit|), p, k + |unit|, ifs, depth)
  {
    hide Run, Keyword, IncludeEffect, BlockEffect, BlockUseOf, Closed;
    assert p.lines[k..k + |unit|][0] == p.lines[k];
    if Keyword(unit[0]) == "macro" {
      var end := k + |unit| - 1;
      assert forall i :: k < i < end ==> p.lines[i] == unit[i - k];
      assert p.lines[end] == unit[|unit| - 1];
      MacroEndsAt(p.lines, k + 1, end);
    }
    RunStep(w, s, p, k, ifs, depth);
  }

  /** A conditional directive leaves a blank and the next stack. */
  lemma ConditionalStep(w: World, s: State, p: Place, k: nat, ifs: seq<IfFrame>, depth: nat)
    requires Closed(w) && k < |p.lines| && IsConditional(Keyword(p.lines[k]))
    ensures Run(w, s, p, k, ifs, depth)
              == Run(w, Blanks(s, p.file, k, k + 1), p, k + 1, NextIfs(s.macros, ifs, p.lines[k], Loc(k + 1, p.file)),
                     depth)
  {
    hide Run, Keyword, NextIfs, Closed;
    RunStep(w, s, p, k, ifs, depth);
  }

  lemma ActiveTop(ifs: seq<IfFrame>, f: IfFrame)
    ensures ActiveNow(ifs + [f]) <==> ActiveNow(ifs) && f.active
  {
    assert forall i :: 0 <= i < |ifs| ==> (ifs + [f])[i] == ifs[i];
    assert (ifs + [f])[|ifs|] == f;
  }

  /** What each conditional directive does to the stack. */
  function NextFrame(m: Macros, f: IfFrame, raw: string, loc: Loc): IfFrame {
    if !ElseIfs(Keyword(raw)) then IfFrame(!f.anyTaken, true, true)
    else if f.sawElse then f
    else if f.anyTaken then f.(active := false)
    else IfFrame(Holds(m, raw, loc), Holds(m, raw, loc), false)
  }

  lemma StackSteps(m: Macros, ifs: seq<IfFrame>, f: IfFrame, raw: string, loc: Loc)
    ensures OpensIf(Keyword(raw)) ==>
              NextIfs(m, ifs, raw, loc) == ifs + [IfFrame(Holds(m, raw, loc), Holds(m, raw, loc), false)]
    ensures ElseIfs(Keyword(raw)) || Keyword(raw) == "else" ==>
              NextIfs(m, ifs + [f], raw, loc) == ifs + [NextFrame(m, f, raw, loc)]
    ensures Keyword(raw) == "endif" ==> NextIfs(m, ifs + [f], raw, loc) == ifs
  {
    hide Keyword, Holds;
    assert (ifs + [f])[..|ifs|] == ifs;
    assert forall g :: (ifs + [f])[|ifs| := g] == ifs + [g];
  }

  /** Lines in a branch that does not run leave blanks and nothing else. */
  lemma {:induction false} SkipTree(w: World, s: State, p: Place, t: Tree, k: nat, ifs: seq<IfFrame>, depth: nat)
    requires Closed(w) && Nested(t) && Lies(p.lines, k, Flatten(t)) && !ActiveNow(ifs)
    ensures k + Size(t) <= |p.lines|
    ensures Run(w, s, p, k, ifs, depth) == Run(w, Blanks(s, p.file, k, k + Size(t)), p, k + Size(t), ifs, depth)
    decreases t, 1
  {
    hide Run, LineEffect, NextIfs, ActiveNow, Flatten, Blanks, Keyword, Closed, IsUnit, Lies;
    TreeParts(p, t, k);
    match t
    case Nil => BlanksNone(s, p.file, k);
    case Unit(lines, rest) =>
      UnitStep(w, s, p, lines, k, ifs, depth);
      var next := k + |lines|;
      SkipTree(w, Blanks(s, p.file, k, next), p, rest, next, ifs, depth);
      BlanksJoin(s, p.file, k, next, k + Size(t));
    case Chain(head, body, more, end, rest) =>
      SkipChain(w, s, p, t, k, ifs, depth);
      var j := k + 1 + Size(body) + SizeArms(more) + 1;
      SkipTree(w, Blanks(s, p.file, k, j), p, rest, j, ifs, depth);
      BlanksJoin(s, p.file, k, j, k + Size(t));
  }

  /** A whole chain that is skipped, up to its `#endif`. */
  lemma {:induction false} SkipChain(w: World, s: State, p: Place, t: Tree, k: nat, ifs: seq<IfFrame>, depth: nat)
    requires Closed(w) && Nested(t) && t.Chain? && Lies(p.lines, k, Flatten(t)) && !ActiveNow(ifs)
    ensures
      var j := k + 1 + Size(t.body) + SizeArms(t.more) + 1;
      j <= |p.lines| && Run(w, s, p, k, ifs, depth) == Run(w, Blanks(s, p.file, k, j), p, j, ifs, depth)
    decreases t, 0
  {
    hide Run, LineEffect, NextIfs, ActiveNow, Flatten, FlattenArms, Blanks, Keyword, Closed, Lies, Size, SizeArms, Holds;
    TreeParts(p, t, k);
    ChainShape(t);
    ConditionalStep(w, s, p, k, ifs, depth);
    var cond := Holds(s.macros, t.head, Loc(k + 1, p.file));
    var f := IfFrame(cond, cond, false);
    StackSteps(s.macros, ifs, f, t.head, Loc(k + 1, p.file));
    ActiveTop(ifs, f);
    SkipTree(w, Blanks(s, p.file, k, k + 1), p, t.body, k + 1, ifs + [f], depth);
    var i := k + 1 + Size(t.body);
    BlanksJoin(s, p.file, k, k + 1, i);
    var g := SkipArms(w, Blanks(s, p.file, k, i), p, t.more, i, ifs, f, depth);
    var j := i + SizeArms(t.more);
    BlanksJoin(s, p.file, k, i, j);
    SkipEnd(w, Blanks(s, p.file, k, j), p, j, ifs, g, depth);
    BlanksJoin(s, p.file, k, j, j + 1);
  }

  lemma ChainShape(t: Tree)
    requires Nested(t) && t.Chain?
    ensures OpensIf(Keyword(t.head)) && Nested(t.body) && NestedArms(t.more) && Keyword(t.end) == "endif" && Nested(t.rest)
    ensures Size(t) == 1 + Size(t.body) + SizeArms(t.more) + 1 + Size(t.rest)
  {
    hide Keyword;
  }

  lemma BlanksNone(s: State, file: string, k: nat)
    ensures Blanks(s, file, k, k) == s
  {
  }

  lemma SkipEnd(w: World, s: State, p: Place, k: nat, ifs: seq<IfFrame>, f: IfFrame, depth: nat)
    requires Closed(w) && k < |p.lines| && Keyword(p.lines[k]) == "endif"
    ensures Run(w, s, p, k, ifs + [f], depth) == Run(w, Blanks(s, p.file, k, k + 1), p, k + 1, ifs, depth)
  {
    hide Run, NextIfs, Keyword, Closed;
    ConditionalStep(w, s, p, k, ifs + [f], depth);
    StackSteps(s.macros, ifs, f, p.lines[k], Loc(k + 1, p.file));
  }

  lemma {:induction false} SkipArms(w: World, s: State, p: Place, a: Arms, k: nat, ifs: seq<IfFrame>, f: IfFrame,
                                    depth: nat) returns (g: IfFrame)
    requires Closed(w) && NestedArms(a) && Lies(p.lines, k, FlattenArms(a)) && !ActiveNow(ifs)
    ensures k + SizeArms(a) <= |p.lines|
    ensures Run(w, s, p, k, ifs + [f], depth)
              == Run(w, Blanks(s, p.file, k, k + SizeArms(a)), p, k + SizeArms(a), ifs + [g], depth)
    decreases a, 0
  {
    hide Run, LineEffect, NextIfs, NextFrame, ActiveNow, Flatten, FlattenArms, Blanks, Keyword, Closed, Lies;
    ArmsParts(p, a, k);
    g := f;
    BlanksNone(s, p.file, k);
    if !a.NoMore? {
      var i := k + 1 + Size(a.body);
      ConditionalStep(w, s, p, k, ifs + [f], depth);
      StackSteps(s.macros, ifs, f, a.line, Loc(k + 1, p.file));
      g := NextFrame(s.macros, f, a.line, Loc(k + 1, p.file));
      ActiveTop(ifs, g);
      SkipTree(w, Blanks(s, p.file, k, k + 1), p, a.body, k + 1, ifs + [g], depth);
      BlanksJoin(s, p.file, k, k + 1, i);
      if a.ElseIf? {
        g := SkipArms(w, Blanks(s, p.file, k, i), p, a.more, i, ifs, g, depth);
        BlanksJoin(s, p.file, k, i, k + SizeArms(a));
      }
    }
  }

  /** The flat run from where a part of the file ended. */
  ghost function Onward(w: World, r: Option<State>, p: Place, k: nat, ifs: seq<IfFrame>, depth: nat): Option<State>
    requires Closed(w) && k <= |p.lines|
  {
    if r.None? then None else Run(w, r.value, p, k, ifs, depth)
  }

  lemma {:induction false} FlatIsTree(w: World, s: State, p: Place, t: Tree, k: nat, ifs: seq<IfFrame>, depth: nat)
    requires Closed(w) && Nested(t) && Lies(p.lines, k, Flatten(t)) && ActiveNow(ifs)
    ensures k + Size(t) <= |p.lines|
    ensures Run(w, s, p, k, ifs, depth) == Onward(w, RunTree(w, s, p, t, k, depth), p, k + Size(t), ifs, depth)
    decreases t, 1
  {
    hide Run, LineEffect, NextIfs, ActiveNow, Flatten, Blanks, Keyword, Closed, RunChain, IsUnit, Lies;
    TreeParts(p, t, k);
    match t
    case Nil =>
    case Unit(lines, rest) =>
      UnitStep(w, s, p, lines, k, ifs, depth);
      var u := LineEffect(w, s, p, k, true, depth);
      if u.Some? { FlatIsTree(w, u.value, p, rest, k + |lines|, ifs, depth); }
    case Chain(head, body, more, end, rest) =>
      FlatChain(w, s, p, t, k, ifs, depth);
      var v := RunChain(w, s, p, t, k, depth);
      var j := k + 1 + Size(body) + SizeArms(more) + 1;
      if v.Some? { FlatIsTree(w, v.value, p, rest, j, ifs, depth); }
  }

  lemma {:induction false} FlatChain(w: World, s: State, p: Place, t: Tree, k: nat, ifs: seq<IfFrame>, depth: nat)
    requires Closed(w) && Nested(t) && t.Chain? && Lies(p.lines, k, Flatten(t)) && ActiveNow(ifs)
    ensures
      var j := k + 1 + Size(t.body) + SizeArms(t.more) + 1;
      && j + Size(t.rest) <= |p.lines|
      && Run(w, s, p, k, ifs, depth) == Onward(w, RunChain(w, s, p, t, k, depth), p, j, ifs, depth)
    decreases t, 0
  {
    hide Run, NextIfs, ActiveNow, Flatten, FlattenArms, Blanks, Keyword, Closed, RunBranch, RunArms, Chosen, Lies;
    hide Size, SizeArms, Holds, RunTree;
    TreeParts(p, t, k);
    ChainShape(t);
    var first := Holds(s.macros, t.head, Loc(k + 1, p.file));
    var f := IfFrame(first, first, false);
    ConditionalStep(w, s, p, k, ifs, depth);
    StackSteps(s.macros, ifs, f, t.head, Loc(k + 1, p.file));
    BranchIsTree(w, s, p, t.body, k, ifs, f, depth);
    var i := k + 1 + Size(t.body);
    var u := RunBranch(w, s, p, t.body, k, first, depth);
    if u.Some? {
      BranchKeepsMacros(w, s, p, t.body, k, depth);
      var pick: int := if first then -1 else Chosen(s.macros, p.file, t.more, i);
      var g := ArmsAreTree(w, u.value, p, t.more, i, ifs, f, pick, depth);
      var v := RunArms(w, u.value, p, t.more, i, pick, depth);
      if v.Some? { SkipEnd(w, v.value, p, i + SizeArms(t.more), ifs, g, depth); }
    }
  }

  /** A branch that is not chosen leaves the macro table as it is. */
  lemma BranchKeepsMacros(w: World, s: State, p: Place, body: Tree, k: nat, depth: nat)
    requires Closed(w) && Nested(body) && k + 1 + Size(body) <= |p.lines|
    ensures
      var u := RunBranch(w, s, p, body, k, false, depth);
      u.Some? && u.value.macros == s.macros
  {
    hide RunTree, Blanks, Closed, Nested;
    BlanksKeepMacros(s, p.file, k, k + 1 + Size(body));
  }

  /** A branch from the line after its head, whose frame is on the stack. */
  lemma {:induction false} BranchIsTree(w: World, s: State, p: Place, body: Tree, k: nat, ifs: seq<IfFrame>,
                                        f: IfFrame, depth: nat)
    requires Closed(w) && Nested(body) && k < |p.lines| && Lies(p.lines, k + 1, Flatten(body)) && ActiveNow(ifs)
    ensures k + 1 + Size(body) <= |p.lines|
    ensures Run(w, Blanks(s, p.file, k, k + 1), p, k + 1, ifs + [f], depth)
              == Onward(w, RunBranch(w, s, p, body, k, f.active, depth), p, k + 1 + Size(body), ifs + [f], depth)
    decreases body, 2
  {
    hide Run, ActiveNow, Flatten, Blanks, RunTree, Closed, Nested, Lies;
    ActiveTop(ifs, f);
    if f.active {
      FlatIsTree(w, Blanks(s, p.file, k, k + 1), p, body, k + 1, ifs + [f], depth);
    } else {
      SkipTree(w, Blanks(s, p.file, k, k + 1), p, body, k + 1, ifs + [f], depth);
      BlanksJoin(s, p.file, k, k + 1, k + 1 + Size(body));
    }
  }

  /** The branch to run, while a chain with frame `f` on the stack has `a` left. */
  ghost predicate Picks(m: Macros, file: string, a: Arms, k: nat, f: IfFrame, pick: int) {
    !f.sawElse && (if f.anyTaken then pick < 0 else pick == Chosen(m, file, a, k))
  }

  lemma {:induction false} ArmsAreTree(w: World, s: State, p: Place, a: Arms, k: nat, ifs: seq<IfFrame>, f: IfFrame,
                                       pick: int, depth: nat) returns (g: IfFrame)
    requires Closed(w) && NestedArms(a) && Lies(p.lines, k, FlattenArms(a)) && ActiveNow(ifs)
    requires Picks(s.macros, p.file, a, k, f, pick)
    ensures k + SizeArms(a) <= |p.lines|
    ensures Run(w, s, p, k, ifs + [f], depth)
              == Onward(w, RunArms(w, s, p, a, k, pick, depth), p, k + SizeArms(a), ifs + [g], depth)
    decreases a, 0
  {
    hide Run, LineEffect, NextIfs, ActiveNow, Flatten, FlattenArms, Blanks, Keyword, Closed, RunBranch, Holds;
    ArmsParts(p, a, k);
    g := f;
    if !a.NoMore? {
      var i := k + 1 + Size(a.body);
      ConditionalStep(w, s, p, k, ifs + [f], depth);
      StackSteps(s.macros, ifs, f, a.line, Loc(k + 1, p.file));
      g := NextFrame(s.macros, f, a.line, Loc(k + 1, p.file));
      BranchIsTree(w, s, p, a.body, k, ifs, g, depth);
      var u := RunBranch(w, s, p, a.body, k, pick == 0, depth);
      if a.ElseIf? && u.Some? {
        BranchKeepsMacros(w, s, p, a.body, k, depth);
        g := ArmsAreTree(w, u.value, p, a.more, i, ifs, g, pick - 1, depth);
      }
    }
  }

  lemma NoneInactive()
    ensures ActiveNow([])
  {
  }

  /** Main result: expanding a well-nested file line by line, with conditions
      evaluated as they are met, gives what its nesting means, with all of a
      chain's conditions evaluated where the chain begins. */
  lemma ExpansionIsTree(w: World, s: State, p: Place, t: Tree, depth: nat)
    requires Closed(w) && Nested(t) && p.lines == Flatten(t)
    ensures Size(t) == |p.lines|
    ensures Run(w, s, p, 0, [], depth) == RunTree(w, s, p, t, 0, depth)
  {
    hide Run, RunTree, Closed, Nested, Flatten, ActiveNow;
    SizeIsLength(t);
    assert p.lines[0..|p.lines|] == p.lines;
    assert ActiveNow([]) by { NoneInactive(); }
    FlatIsTree(w, s, p, t, 0, [], depth);
    var r := RunTree(w, s, p, t, 0, depth);
    if r.Some? { RunEnds(w, r.value, p, [], depth); }
  }
}
