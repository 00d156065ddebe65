/** The files that the preprocessor accepts without complaint about their
    structure are exactly the well-nested ones. */
module Nesting {
  import opened Options
  import opened MacroText
  import opened Preprocessor
  import opened Conditionals

  /** The number of structure errors from line `k` on; `open` tells of each open
      chain whether its `#else` has been seen. */
  function Faults(lines: seq<string>, k: nat, open: seq<bool>): nat
    requires k <= |lines|
    decreases |lines| - k
  {
    if k == |lines| then if open == [] then 0 else 1
    else
      var kw := Keyword(lines[k]);
      if kw == "macro" then
        (if MacroEnd(lines, k + 1) == |lines| then 1 else 0) + Faults(lines, AfterMacro(lines, k), open)
      else if kw == "endmacro" then 1 + Faults(lines, k + 1, open)
      else if OpensIf(kw) then Faults(lines, k + 1, open + [false])
      else if !IsConditional(kw) then Faults(lines, k + 1, open)
      else if open == [] then 1 + Faults(lines, k + 1, open)
      else
        var last := |open| - 1;
        if kw == "endif" then Faults(lines, k + 1, open[..last])
        else if open[last] then 1 + Faults(lines, k + 1, open)
        else Faults(lines, k + 1, open[last := kw == "else"])
  }

  lemma FaultsStep(lines: seq<string>, k: nat, open: seq<bool>, saw: bool)
    requires k < |lines|
    ensures
      var kw := Keyword(lines[k]);
      && (OpensIf(kw) ==> Faults(lines, k, open) == Faults(lines, k + 1, open + [false]))
      && (ElseIfs(kw) ==> Faults(lines, k, open + [saw]) ==
                          if saw then 1 + Faults(lines, k + 1, open + [saw]) else Faults(lines, k + 1, open + [false]))
      && (kw == "else" ==> Faults(lines, k, open + [saw]) ==
                           if saw then 1 + Faults(lines, k + 1, open + [saw]) else Faults(lines, k + 1, open + [true]))
      && (kw == "endif" ==> Faults(lines, k, open + [saw]) == Faults(lines, k + 1, open))
      && (IsConditional(kw) && !OpensIf(kw) ==> Faults(lines, k, []) == 1 + Faults(lines, k + 1, []))
  {
    hide Keyword;
    var both := open + [saw];
    assert both[..|open|] == open;
    assert both[|open| := false] == open + [false] && both[|open| := true] == open + [true];
  }

  /* ----- a well-nested file has no fault ----- */

  lemma {:induction false} TreeHasNoFault(p: Place, t: Tree, k: nat, open: seq<bool>)
    requires Nested(t) && Lies(p.lines, k, Flatten(t))
    ensures k + Size(t) <= |p.lines| && Faults(p.lines, k, open) == Faults(p.lines, k + Size(t), open)
    decreases t
  {
    hide Faults, Keyword, Flatten, FlattenArms, Lies, IsUnit;
    TreeParts(p, t, k);
    match t
    case Nil =>
    case Unit(lines, rest) =>
      UnitHasNoFault(p, lines, k, open);
      TreeHasNoFault(p, rest, k + |lines|, open);
    case Chain(head, body, more, end, rest) =>
      FaultsStep(p.lines, k, open, false);
      TreeHasNoFault(p, body, k + 1, open + [false]);
      var saw := ArmsHaveNoFault(p, more, k + 1 + Size(body), open);
      var j := k + 1 + Size(body) + SizeArms(more);
      FaultsStep(p.lines, j, open, saw);
      TreeHasNoFault(p, rest, j + 1, open);
  }

  lemma UnitHasNoFault(p: Place, unit: seq<string>, k: nat, open: seq<bool>)
    requires Lies(p.lines, k, unit) && IsUnit(unit)
    ensures k + |unit| <= |p.lines| && Faults(p.lines, k, open) == Faults(p.lines, k + |unit|, open)
  {
    hide Keyword, EndsMacro;
    assert p.lines[k..k + |unit|][0] == p.lines[k];
    if Keyword(unit[0]) == "macro" {
      var end := k + |unit| - 1;
      assert forall i :: k < i < end ==> p.lines[i] == unit[i - k];
      assert p.lines[end] == unit[|unit| - 1];
      MacroEndsAt(p.lines, k + 1, end);
    }
  }

  lemma {:induction false} ArmsHaveNoFault(p: Place, a: Arms, k: nat, open: seq<bool>) returns (saw: bool)
    requires NestedArms(a) && Lies(p.lines, k, FlattenArms(a))
    ensures k + SizeArms(a) <= |p.lines|
    ensures Faults(p.lines, k, open + [false]) == Faults(p.lines, k + SizeArms(a), open + [saw])
    decreases a
  {
    hide Faults, Keyword, Flatten, FlattenArms, Lies;
    ArmsParts(p, a, k);
    saw := false;
    match a
    case NoMore =>
    case Else(_, body) =>
      FaultsStep(p.lines, k, open, false);
      saw := true;
      TreeHasNoFault(p, body, k + 1, open + [true]);
    case ElseIf(_, body, more) =>
      FaultsStep(p.lines, k, open, false);
      TreeHasNoFault(p, body, k + 1, open + [false]);
      saw := ArmsHaveNoFault(p, more, k + 1 + Size(body), open);
  }

  /* ----- a file without faults is well-nested ----- */

  /** Where a part of a file may stop: at its end, or at a line that goes on with
      or closes an enclosing chain. */
  predicate StopsAt(lines: seq<string>, e: nat) {
    e == |lines| || (e < |lines| && IsConditional(Keyword(lines[e])) && !OpensIf(Keyword(lines[e])))
  }

  lemma {:induction false} MacroEndIs(lines: seq<string>, k: nat)
    requires k <= |lines|
    ensures var j := MacroEnd(lines, k);
            (j < |lines| ==> EndsMacro(lines[j])) && forall i :: k <= i < j ==> !EndsMacro(lines[i])
    decreases |lines| - k
  {
    if k < |lines| && !EndsMacro(lines[k]) { MacroEndIs(lines, k + 1); }
  }

  /** The unit at a line that is no conditional. */
  lemma UnitAt(lines: seq<string>, k: nat, open: seq<bool>) returns (next: nat)
    requires k < |lines| && !IsConditional(Keyword(lines[k])) && Faults(lines, k, open) == 0
    ensures k < next <= |lines| && IsUnit(lines[k..next]) && Faults(lines, next, open) == 0
  {
    hide Keyword, EndsMacro;
    next := k + 1;
    if Keyword(lines[k]) == "macro" {
      MacroEndIs(lines, k + 1);
      next := AfterMacro(lines, k);
      var unit := lines[k..next];
      assert forall i :: 0 < i < |unit| - 1 ==> unit[i] == lines[k + i];
    }
  }

  lemma {:induction false} Build(lines: seq<string>, k: nat, open: seq<bool>) returns (t: Tree, e: nat)
    requires k <= |lines| && Faults(lines, k, open) == 0
    ensures k <= e <= |lines| && Nested(t) && Flatten(t) == lines[k..e]
    ensures StopsAt(lines, e) && Faults(lines, e, open) == 0
    decreases |lines| - k
  {
    hide Keyword, Faults, IsUnit, Nested, Flatten, NestedArms, FlattenArms;
    TreeShapes(Nil, NoMore);
    if StopsAt(lines, k) {
      t, e := Nil, k;
    } else if IsConditional(Keyword(lines[k])) {
      FaultsStep(lines, k, open, false);
      var body, i := Build(lines, k + 1, open + [false]);
      var more, j := BuildArms(lines, i, open, false);
      var rest;
      rest, e := Build(lines, j + 1, open);
      t := Chain(lines[k], body, more, lines[j], rest);
      TreeShapes(t, more);
      JoinSlices(lines, k, i, j, e);
    } else {
      var next := UnitAt(lines, k, open);
      var rest;
      rest, e := Build(lines, next, open);
      t := Unit(lines[k..next], rest);
      TreeShapes(t, NoMore);
    }
  }

  lemma JoinSlices(lines: seq<string>, k: nat, i: nat, j: nat, e: nat)
    requires k < i <= j < e <= |lines|
    ensures lines[k..e] == [lines[k]] + (lines[k + 1..i] + (lines[i..j] + ([lines[j]] + lines[j + 1..e])))
  {
  }

  lemma TreeShapes(t: Tree, a: Arms)
    ensures Nested(Nil) && Flatten(Nil) == [] && NestedArms(NoMore) && FlattenArms(NoMore) == []
    ensures t.Unit? ==> Flatten(t) == t.lines + Flatten(t.rest) && (Nested(t) <==> IsUnit(t.lines) && Nested(t.rest))
    ensures t.Chain? ==>
              Flatten(t) == [t.head] + (Flatten(t.body) + (FlattenArms(t.more) + ([t.end] + Flatten(t.rest))))
    ensures t.Chain? ==>
              (Nested(t) <==> OpensIf(Keyword(t.head)) && Nested(t.body) && NestedArms(t.more)
                              && Keyword(t.end) == "endif" && Nested(t.rest))
    ensures a.ElseIf? ==> FlattenArms(a) == [a.line] + (Flatten(a.body) + FlattenArms(a.more))
    ensures a.ElseIf? ==> (NestedArms(a) <==> ElseIfs(Keyword(a.line)) && Nested(a.body) && NestedArms(a.more))
    ensures a.Else? ==> FlattenArms(a) == [a.line] + Flatten(a.body)
    ensures a.Else? ==> (NestedArms(a) <==> Keyword(a.line) == "else" && Nested(a.body))
  {
    hide Keyword, IsUnit;
  }

  lemma OpenIsFault(lines: seq<string>, open: seq<bool>)
    ensures open != [] ==> Faults(lines, |lines|, open) > 0
  {
  }

  /** The later branches of a chain, up to its `#endif`. */
  lemma {:induction false} BuildArms(lines: seq<string>, k: nat, open: seq<bool>, saw: bool) returns (a: Arms, e: nat)
    requires k <= |lines| && StopsAt(lines, k) && Faults(lines, k, open + [saw]) == 0
    ensures k <= e < |lines| && NestedArms(a) && FlattenArms(a) == lines[k..e] && (saw ==> a.NoMore?)
    ensures Keyword(lines[e]) == "endif" && Faults(lines, e + 1, open) == 0
    decreases |lines| - k
  {
    hide Keyword, Faults, Nested, Flatten, NestedArms, FlattenArms;
    OpenIsFault(lines, open + [saw]);
    FaultsStep(lines, k, open, saw);
    TreeShapes(Nil, NoMore);
    if Keyword(lines[k]) == "endif" {
      a, e := NoMore, k;
    } else {
      var isElse := Keyword(lines[k]) == "else";
      var body, i := Build(lines, k + 1, open + [isElse]);
      var more;
      more, e := BuildArms(lines, i, open, isElse);
      a := if isElse then Else(lines[k], body) else ElseIf(lines[k], body, more);
      TreeShapes(Nil, a);
      assert lines[k..e] == [lines[k]] + (lines[k + 1..i] + lines[i..e]);
    }
  }

  ghost predicate WellNested(lines: seq<string>) { exists t :: Nested(t) && Flatten(t) == lines }

  /** Main result: no structure error is reported if and only if the file is well-nested. */
  lemma NoFaultIffNested(lines: seq<string>)
    ensures Faults(lines, 0, []) == 0 <==> WellNested(lines)
  {
    hide Faults, Nested, Flatten, Keyword;
    if Faults(lines, 0, []) == 0 {
      var t, e := Build(lines, 0, []);
      if e < |lines| { FaultsStep(lines, e, [], false); }
      assert lines[0..e] == lines;
    }
    if WellNested(lines) {
      var t :| Nested(t) && Flatten(t) == lines;
      var p := Place(lines, "", "");
      assert lines[0..|lines|] == lines;
      SizeIsLength(t);
      TreeHasNoFault(p, t, 0, []);
      EndHasNoFault(lines);
    }
  }

  lemma EndHasNoFault(lines: seq<string>)
    ensures Faults(lines, |lines|, []) == 0
  {
  }

  /* ----- what the expander reports ----- */

  /** Of each open chain, whether its `#else` has been seen. */
  function Flags(ifs: seq<IfFrame>): seq<bool> {
    seq(|ifs|, i requires 0 <= i < |ifs| => ifs[i].sawElse)
  }

  /** The errors in what the lines from `k` on include and call. */
  ghost function InnerTotal(w: World, s: State, p: Place, k: nat, ifs: seq<IfFrame>, depth: nat): nat
    requires Closed(w) && k <= |p.lines|
    decreases |p.lines| - k
  {
    if k == |p.lines| then 0
    else
      var t := LineEffect(w, s, p, k, ActiveNow(ifs), depth);
      var next := NextIfs(s.macros, ifs, p.lines[k], Loc(k + 1, p.file));
      InnerFaults(w, s, p, k, ActiveNow(ifs), depth)
      + if t.None? then 0 else InnerTotal(w, t.value, p, NextLine(p, k), next, depth)
  }

  /** The stack of conditionals carries the flags along. */
  lemma FlagsFollow(m: Macros, ifs: seq<IfFrame>, lines: seq<string>, k: nat, loc: Loc, next: nat)
    requires k < |lines| && next == if Keyword(lines[k]) == "macro" then AfterMacro(lines, k) else k + 1
    ensures Faults(lines, k, Flags(ifs))
         == LineFaults(lines, k, ifs) + Faults(lines, next, Flags(NextIfs(m, ifs, lines[k], loc)))
  {
    hide Keyword, Holds, MacroEnd, Flags;
    FlagsChange(ifs);
  }

  lemma FlagsChange(ifs: seq<IfFrame>)
    ensures Flags(ifs) == [] <==> ifs == []
    ensures forall f: IfFrame :: Flags(ifs + [f]) == Flags(ifs) + [f.sawElse]
    ensures ifs != [] ==>
              var last := |ifs| - 1;
              && Flags(ifs)[last] == ifs[last].sawElse && |Flags(ifs)| == |ifs|
              && Flags(ifs[..last]) == Flags(ifs)[..last]
              && (forall f: IfFrame :: Flags(ifs[last := f]) == Flags(ifs)[last := f.sawElse])
              && Flags(ifs)[last := ifs[last].sawElse] == Flags(ifs)
  {
  }

  lemma {:induction false} FaultsOfRun(w: World, s: State, p: Place, k: nat, ifs: seq<IfFrame>, depth: nat)
    requires Closed(w) && k <= |p.lines| && Run(w, s, p, k, ifs, depth).Some?
    ensures RunFaults(w, s, p, k, ifs, depth)
         == Faults(p.lines, k, Flags(ifs)) + InnerTotal(w, s, p, k, ifs, depth)
    decreases |p.lines| - k
  {
    hide Run, LineEffect, NextIfs, ActiveNow, LineFaults, InnerFaults, RunFaults, Keyword, AfterMacro, Closed;
    if k == |p.lines| {
      FaultsEnd(w, s, p, ifs, depth);
    } else {
      hide Faults;
      RunStep(w, s, p, k, ifs, depth);
      RunFaultsStep(w, s, p, k, ifs, depth);
      var t := LineEffect(w, s, p, k, ActiveNow(ifs), depth).value;
      var next := NextIfs(s.macros, ifs, p.lines[k], Loc(k + 1, p.file));
      FlagsFollow(s.macros, ifs, p.lines, k, Loc(k + 1, p.file), NextLine(p, k));
      FaultsOfRun(w, t, p, NextLine(p, k), next, depth);
    }
  }

  /** Whatever the lines from `k` on include or call is well-nested, and so is all
      that this includes and calls in turn. */
  ghost predicate NestedInside(w: World, s: State, p: Place, k: nat, ifs: seq<IfFrame>, depth: nat)
    requires Closed(w) && k <= |p.lines|
    decreases depth, |Unopened(w, s.activeStack)|, |p.lines| - k, 1
  {
    k < |p.lines| ==>
      var t := LineEffect(w, s, p, k, ActiveNow(ifs), depth);
      var next := NextIfs(s.macros, ifs, p.lines[k], Loc(k + 1, p.file));
      && NestedBelow(w, s, p, k, ActiveNow(ifs), depth)
      && (t.Some? ==> NestedInside(w, t.value, p, NextLine(p, k), next, depth))
  }

  /** The file that one line opens, or the block that it calls. */
  ghost predicate NestedBelow(w: World, s: State, p: Place, k: nat, active: bool, depth: nat)
    requires Closed(w) && k < |p.lines|
    decreases depth, |Unopened(w, s.activeStack)|, |p.lines| - k, 0
  {
    var inner := Opens(w, s, p, k, active);
    if inner.Some? then
      OpensFile(w, s, p, k, active);
      && WellNested(inner.value.lines)
      && NestedInside(w, Opened(Emit(s, "", Loc(k + 1, p.file)), inner.value.file), inner.value, 0, [], depth)
    else
      var body := Calls(s.macros, p, k, active);
      body.Some? && depth > 0 ==>
        var q := Place(SplitLines(body.value), p.file, p.dir);
        WellNested(q.lines) && NestedInside(w, s.(out := [], lineMap := []), q, 0, [], depth - 1)
  }

  /** What a finished line opens or calls is expanded to its end. */
  lemma InnerRuns(w: World, s: State, p: Place, k: nat, active: bool, depth: nat)
    requires Closed(w) && k < |p.lines| && LineEffect(w, s, p, k, active, depth).Some?
    ensures
      var inner := Opens(w, s, p, k, active);
      && (inner.Some? ==>
            var t := Opened(Emit(s, "", Loc(k + 1, p.file)), inner.value.file);
            Run(w, t, inner.value, 0, [], depth).Some?)
      && (inner.None? && Calls(s.macros, p, k, active).Some? ==>
            var q := Place(SplitLines(Calls(s.macros, p, k, active).value), p.file, p.dir);
            depth > 0 && Run(w, s.(out := [], lineMap := []), q, 0, [], depth - 1).Some?)
  {
    hide Run, Closed, BlockUseOf, ParseInclude, FindInclude, SplitLines, Expanded, Define, DefineBlock;
    DirectivesHaveKeywords(p.lines[k]);
  }

  /** No error inside means that all inside is well-nested. */
  lemma {:induction false} InsideIsNested(w: World, s: State, p: Place, k: nat, ifs: seq<IfFrame>, depth: nat)
    requires Closed(w) && k <= |p.lines| && Run(w, s, p, k, ifs, depth).Some?
    ensures InnerTotal(w, s, p, k, ifs, depth) == 0 <==> NestedInside(w, s, p, k, ifs, depth)
    decreases depth, |Unopened(w, s.activeStack)|, |p.lines| - k, 1
  {
    hide Run, LineEffect, NextIfs, ActiveNow, InnerFaults, NestedBelow, NextLine, Closed;
    if k < |p.lines| {
      RunStep(w, s, p, k, ifs, depth);
      var t := LineEffect(w, s, p, k, ActiveNow(ifs), depth).value;
      var next := NextIfs(s.macros, ifs, p.lines[k], Loc(k + 1, p.file));
      BelowIsNested(w, s, p, k, ActiveNow(ifs), depth);
      InsideIsNested(w, t, p, NextLine(p, k), next, depth);
    }
  }

  lemma {:induction false} BelowIsNested(w: World, s: State, p: Place, k: nat, active: bool, depth: nat)
    requires Closed(w) && k < |p.lines| && LineEffect(w, s, p, k, active, depth).Some?
    ensures InnerFaults(w, s, p, k, active, depth) == 0 <==> NestedBelow(w, s, p, k, active, depth)
    decreases depth, |Unopened(w, s.activeStack)|, |p.lines| - k, 0
  {
    hide Run, LineEffect, RunFaults, NestedInside, Opens, Calls, SplitLines, Closed, WellNested;
    InnerRuns(w, s, p, k, active, depth);
    var inner := Opens(w, s, p, k, active);
    if inner.Some? {
      OpensFile(w, s, p, k, active);
      FileIsNested(w, Opened(Emit(s, "", Loc(k + 1, p.file)), inner.value.file), inner.value, depth);
    } else if Calls(s.macros, p, k, active).Some? {
      var q := Place(SplitLines(Calls(s.macros, p, k, active).value), p.file, p.dir);
      FileIsNested(w, s.(out := [], lineMap := []), q, depth - 1);
    }
  }

  lemma {:induction false} FileIsNested(w: World, s: State, p: Place, depth: nat)
    requires Closed(w) && Run(w, s, p, 0, [], depth).Some?
    ensures RunFaults(w, s, p, 0, [], depth) == 0 <==> WellNested(p.lines) && NestedInside(w, s, p, 0, [], depth)
    decreases depth, |Unopened(w, s.activeStack)|, |p.lines|, 2
  {
    hide Run, RunFaults, InnerTotal, NestedInside, Faults, WellNested, Closed;
    FaultsOfRun(w, s, p, 0, [], depth);
    assert Flags([]) == [];
    NoFaultIffNested(p.lines);
    InsideIsNested(w, s, p, 0, [], depth);
  }

  /** Main result for the expander: a finished expansion of a file has reported no
      structure error if and only if the file is well-nested, and so is each file
      that it includes and each block that it calls, at whatever depth. */
  lemma NoneReportedIffNested(w: World, s: State, p: Place, depth: nat)
    requires Closed(w) && Run(w, s, p, 0, [], depth).Some?
    ensures RunFaults(w, s, p, 0, [], depth) == 0 <==> WellNested(p.lines) && NestedInside(w, s, p, 0, [], depth)
    ensures RunFaults(w, s, p, 0, [], depth) == 0
       <==> WellNested(p.lines) && InnerTotal(w, s, p, 0, [], depth) == 0
  {
    hide Run, RunFaults, InnerTotal, NestedInside, WellNested, Closed;
    FileIsNested(w, s, p, depth);
    InsideIsNested(w, s, p, 0, [], depth);
  }
}
