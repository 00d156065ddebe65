/** How deep block macros may nest: enough is enough, and files that call none
    need no depth at all, so includes alone always come to an end. */
module BlockDepth {
  import opened Options
  import opened Chars
  import opened MacroText
  import opened Preprocessor

  /** More room for nested block macros changes no finished expansion. */
  lemma {:induction false} MoreDepth(w: World, s: State, p: Place, k: nat, ifs: seq<IfFrame>, d: nat, e: nat)
    requires Closed(w) && k <= |p.lines| && d <= e && Run(w, s, p, k, ifs, d).Some?
    ensures Run(w, s, p, k, ifs, e) == Run(w, s, p, k, ifs, d)
    decreases d, |Unopened(w, s.activeStack)|, |p.lines| - k, 1
  {
    hide Run, LineEffect, NextIfs, NextLine, ActiveNow, Closed;
    if k == |p.lines| {
      RunEnds(w, s, p, ifs, d);
      RunEnds(w, s, p, ifs, e);
    } else {
      RunStep(w, s, p, k, ifs, d);
      RunStep(w, s, p, k, ifs, e);
      MoreDepthLine(w, s, p, k, ActiveNow(ifs), d, e);
      var t := LineEffect(w, s, p, k, ActiveNow(ifs), d).value;
      MoreDepth(w, t, p, NextLine(p, k), NextIfs(s.macros, ifs, p.lines[k], Loc(k + 1, p.file)), d, e);
    }
  }

  lemma {:induction false} MoreDepthLine(w: World, s: State, p: Place, k: nat, active: bool, d: nat, e: nat)
    requires Closed(w) && k < |p.lines| && d <= e && LineEffect(w, s, p, k, active, d).Some?
    ensures LineEffect(w, s, p, k, active, e) == LineEffect(w, s, p, k, active, d)
    decreases d, |Unopened(w, s.activeStack)|, |p.lines| - k, 0
  {
    hide Run, Closed, BlockUseOf, Keyword, FindInclude, ParseInclude, SplitLines, BlockLines, Expanded;
    var use := BlockUseOf(s.macros, TrimLeft(p.lines[k]));
    if use.BlockCall? && d > 0 {
      MoreDepthBlock(w, s, p, use.body, d, e);
    }
    MoreDepthInclude(w, s, p, k, d, e);
  }

  lemma {:induction false} MoreDepthBlock(w: World, s: State, p: Place, body: string, d: nat, e: nat)
    requires Closed(w) && 0 < d <= e
    ensures
      var (t, q) := (s.(out := [], lineMap := []), Place(SplitLines(body), p.file, p.dir));
      Run(w, t, q, 0, [], d - 1).Some? ==> Run(w, t, q, 0, [], e - 1) == Run(w, t, q, 0, [], d - 1)
    decreases d, |Unopened(w, s.activeStack)|, 0, 0
  {
    hide Run, Closed, SplitLines;
    var (t, q) := (s.(out := [], lineMap := []), Place(SplitLines(body), p.file, p.dir));
    if Run(w, t, q, 0, [], d - 1).Some? { MoreDepth(w, t, q, 0, [], d - 1, e - 1); }
  }

  lemma {:induction false} MoreDepthInclude(w: World, s: State, p: Place, k: nat, d: nat, e: nat)
    requires Closed(w) && k < |p.lines| && d <= e
    ensures IncludeEffect(w, s, p, k, d).Some? ==> IncludeEffect(w, s, p, k, e) == IncludeEffect(w, s, p, k, d)
    decreases d, |Unopened(w, s.activeStack)|, 0, 0
  {
    hide Run, Closed, FindInclude, ParseInclude, SplitLines, Rest;
    var request := ParseInclude(Rest(p.lines[k]));
    if request.Some? {
      var found := FindInclude(w, p.dir, request.value.1);
      if found.Some? && found.value !in s.activeStack && w.read(found.value).Some? {
        var file := found.value;
        FoundIsFile(w, p.dir, request.value.1);
        FewerUnopened(w, s.activeStack, file);
        var t := Opened(Emit(s, "", Loc(k + 1, p.file)), file);
        var q := Place(SplitLines(w.read(file).value), file, w.parent(file));
        if Run(w, t, q, 0, [], d).Some? { MoreDepth(w, t, q, 0, [], d, e); }
      }
    }
  }

  /** All block macros of a table are among `defs`. */
  ghost predicate Within(m: Macros, defs: iset<(string, MacroDef)>) {
    forall n :: n in m && m[n].isBlock ==> (n, m[n]) in defs
  }

  /** The lines define no other block macros. */
  ghost predicate DefineWithin(lines: seq<string>, defs: iset<(string, MacroDef)>) {
    forall m, k :: 0 <= k < |lines| && Keyword(lines[k]) == "macro" && Within(m, defs) ==>
      Within(DefineBlock(m, lines, k), defs)
  }

  ghost predicate RankedBy(lines: seq<string>, rank: string -> nat, bound: nat) {
    forall l :: l in lines ==> rank(l) <= bound
  }

  /** Block calls do not go in circles: under any of these macros, the lines that
      a call stands for, its arguments put in, rank below the line it stands on. */
  ghost predicate CallsFall(defs: iset<(string, MacroDef)>, rank: string -> nat) {
    forall m, l :: Within(m, defs) && BlockUseOf(m, TrimLeft(l)).BlockCall? ==>
      var lines := SplitLines(BlockUseOf(m, TrimLeft(l)).body);
      rank(l) > 0 && DefineWithin(lines, defs) && RankedBy(lines, rank, rank(l) - 1)
  }

  /** What all files satisfy. */
  ghost predicate RankedWorld(w: World, defs: iset<(string, MacroDef)>, rank: string -> nat, bound: nat) {
    && Closed(w) && CallsFall(defs, rank)
    && forall f :: w.read(f).Some? ==>
         var lines := SplitLines(w.read(f).value);
         DefineWithin(lines, defs) && RankedBy(lines, rank, bound)
  }

  /** The depth for lines of a rank, with so many files that may still be opened. */
  ghost function Enough(w: World, stack: seq<string>, bound: nat, rank: nat): nat {
    |Unopened(w, stack)| * bound + rank
  }

  lemma EnoughInside(w: World, stack: seq<string>, file: string, bound: nat, rank: nat)
    requires file in w.files && file !in stack
    ensures |Unopened(w, stack + [file])| < |Unopened(w, stack)|
    ensures Enough(w, stack + [file], bound, bound) <= Enough(w, stack, bound, rank)
  {
    FewerUnopened(w, stack, file);
    var (a, b) := (|Unopened(w, stack + [file])|, |Unopened(w, stack)|);
    assert (a + 1) * bound <= b * bound;
  }

  ghost predicate Ends(r: Option<State>, defs: iset<(string, MacroDef)>) { r.Some? && Within(r.value.macros, defs) }

  /** Main result: if block calls do not go in circles, every expansion ends, however
      files include one another, within a depth that the ranks and the number of
      files give. */
  lemma {:induction false} EnoughDepth(w: World, defs: iset<(string, MacroDef)>, rank: string -> nat, bound: nat,
                                       s: State, p: Place, k: nat, ifs: seq<IfFrame>, top: nat, depth: nat)
    requires RankedWorld(w, defs, rank, bound) && k <= |p.lines|
    requires Within(s.macros, defs) && DefineWithin(p.lines, defs) && RankedBy(p.lines, rank, top)
    requires depth >= Enough(w, s.activeStack, bound, top)
    ensures Closed(w) && Ends(Run(w, s, p, k, ifs, depth), defs)
    decreases depth, |Unopened(w, s.activeStack)|, |p.lines| - k, 1
  {
    hide Run, LineEffect, NextIfs, NextLine, ActiveNow, Closed, Within, DefineWithin, RankedBy, CallsFall, Enough;
    if k == |p.lines| {
      RunEnds(w, s, p, ifs, depth);
    } else {
      RunStep(w, s, p, k, ifs, depth);
      LineEnds(w, defs, rank, bound, s, p, k, ActiveNow(ifs), top, depth);
      var t := LineEffect(w, s, p, k, ActiveNow(ifs), depth).value;
      var next := NextIfs(s.macros, ifs, p.lines[k], Loc(k + 1, p.file));
      EnoughDepth(w, defs, rank, bound, t, p, NextLine(p, k), next, top, depth);
    }
  }

  lemma {:induction false} LineEnds(w: World, defs: iset<(string, MacroDef)>, rank: string -> nat, bound: nat,
                                    s: State, p: Place, k: nat, active: bool, top: nat, depth: nat)
    requires RankedWorld(w, defs, rank, bound) && k < |p.lines|
    requires Within(s.macros, defs) && DefineWithin(p.lines, defs) && RankedBy(p.lines, rank, top)
    requires depth >= Enough(w, s.activeStack, bound, top)
    ensures Closed(w) && Ends(LineEffect(w, s, p, k, active, depth), defs)
    decreases depth, |Unopened(w, s.activeStack)|, |p.lines| - k, 0
  {
    hide Run, Closed, Keyword, BlockUseOf, Expanded, IncludeEffect, BlockEffect, Define, DefineBlock, Rest, Within,
         DefineWithin, RankedBy, CallsFall, Enough;
    SkipKeepsMacros(s, p, k);
    DefineKeeps(s.macros, defs, Rest(p.lines[k]));
    UndefKeeps(s.macros, defs, FirstToken(Rest(p.lines[k])).0);
    BlockDefinitionKeeps(s.macros, defs, p, k);
    IncludeEnds(w, defs, rank, bound, s, p, k, top, depth);
    if BlockUseOf(s.macros, TrimLeft(p.lines[k])).BlockCall? {
      BlockEnds(w, defs, rank, bound, s, p, k, top, depth);
    }
  }

  lemma SkipKeepsMacros(s: State, p: Place, k: nat)
    requires k < |p.lines|
    ensures SkipLine(s, p, k).macros == s.macros
  {
    BlanksKeepState(s, p.file, k, NextLine(p, k));
  }

  lemma DefineKeeps(m: Macros, defs: iset<(string, MacroDef)>, rest: string)
    requires Within(m, defs)
    ensures Within(Define(m, rest), defs)
  {
  }

  lemma UndefKeeps(m: Macros, defs: iset<(string, MacroDef)>, name: string)
    requires Within(m, defs)
    ensures Within(m - {name}, defs)
  {
  }

  lemma BlockDefinitionKeeps(m: Macros, defs: iset<(string, MacroDef)>, p: Place, k: nat)
    requires k < |p.lines| && Within(m, defs) && DefineWithin(p.lines, defs)
    ensures Keyword(p.lines[k]) == "macro" ==> Within(DefineBlock(m, p.lines, k), defs)
  {
  }

  lemma CallFalls(defs: iset<(string, MacroDef)>, rank: string -> nat, m: Macros, p: Place, k: nat, top: nat)
    requires CallsFall(defs, rank) && k < |p.lines| && RankedBy(p.lines, rank, top) && Within(m, defs)
    requires BlockUseOf(m, TrimLeft(p.lines[k])).BlockCall?
    ensures
      var lines := SplitLines(BlockUseOf(m, TrimLeft(p.lines[k])).body);
      top > 0 && DefineWithin(lines, defs) && RankedBy(lines, rank, top - 1)
  {
    hide BlockUseOf, DefineWithin, SplitLines, Within;
    assert p.lines[k] in p.lines;
  }

  lemma {:induction false} BlockEnds(w: World, defs: iset<(string, MacroDef)>, rank: string -> nat, bound: nat,
                                     s: State, p: Place, k: nat, top: nat, depth: nat)
    requires RankedWorld(w, defs, rank, bound) && k < |p.lines| && BlockUseOf(s.macros, TrimLeft(p.lines[k])).BlockCall?
    requires Within(s.macros, defs) && RankedBy(p.lines, rank, top) && depth >= Enough(w, s.activeStack, bound, top)
    ensures Closed(w)
    ensures Ends(BlockEffect(w, s, p, k, BlockUseOf(s.macros, TrimLeft(p.lines[k])).body, depth), defs)
    decreases depth, |Unopened(w, s.activeStack)|, 0, 0
  {
    hide Run, Closed, BlockUseOf, SplitLines, Within, DefineWithin, RankedBy, CallsFall, BlockLines;
    CallFalls(defs, rank, s.macros, p, k, top);
    var body := BlockUseOf(s.macros, TrimLeft(p.lines[k])).body;
    var (t, q) := (s.(out := [], lineMap := []), Place(SplitLines(body), p.file, p.dir));
    EnoughDepth(w, defs, rank, bound, t, q, 0, [], top - 1, depth - 1);
  }

  lemma FileRanked(w: World, defs: iset<(string, MacroDef)>, rank: string -> nat, bound: nat, f: string)
    requires RankedWorld(w, defs, rank, bound) && w.read(f).Some?
    ensures
      var lines := SplitLines(w.read(f).value);
      Closed(w) && DefineWithin(lines, defs) && RankedBy(lines, rank, bound)
  {
    hide Closed, CallsFall, SplitLines, DefineWithin, RankedBy;
  }

  lemma {:induction false} IncludeEnds(w: World, defs: iset<(string, MacroDef)>, rank: string -> nat, bound: nat,
                                       s: State, p: Place, k: nat, top: nat, depth: nat)
    requires RankedWorld(w, defs, rank, bound) && k < |p.lines|
    requires Within(s.macros, defs) && depth >= Enough(w, s.activeStack, bound, top)
    ensures Closed(w) && Ends(IncludeEffect(w, s, p, k, depth), defs)
    decreases depth, |Unopened(w, s.activeStack)|, 0, 0
  {
    hide Run, FindInclude, ParseInclude, SplitLines, Rest, Within, DefineWithin, RankedBy, CallsFall, Enough;
    var request := ParseInclude(Rest(p.lines[k]));
    if request.Some? {
      var found := FindInclude(w, p.dir, request.value.1);
      if found.Some? && found.value !in s.activeStack && w.read(found.value).Some? {
        var file := found.value;
        FoundIsFile(w, p.dir, request.value.1);
        EnoughInside(w, s.activeStack, file, bound, top);
        FileRanked(w, defs, rank, bound, file);
        var t := Opened(Emit(s, "", Loc(k + 1, p.file)), file);
        var q := Place(SplitLines(w.read(file).value), file, w.parent(file));
        EnoughDepth(w, defs, rank, bound, t, q, 0, [], bound, depth);
      }
    }
  }

  /* ----- ranks from an order of names ----- */

  /** The word that a line starts with. */
  function FirstWord(l: string): string {
    var t := TrimLeft(l);
    if t == "" || !IsNameStart(t[0]) then "" else t[..WordEnd(t, 0)]
  }

  ghost predicate IsBlockName(defs: iset<(string, MacroDef)>, n: string) { exists d :: (n, d) in defs }

  /** Whatever the arguments of a call, its lines start with names of lower order,
      or of no block macro. */
  ghost predicate NamesFall(defs: iset<(string, MacroDef)>, order: string -> nat) {
    forall n, d, args :: (n, d) in defs && Bind(d, args).Some? ==>
      var lines := SplitLines(SubstituteBody(d.body, Bind(d, args).value));
      DefineWithin(lines, defs) && StartBelow(lines, defs, order, order(n))
  }

  ghost predicate StartBelow(lines: seq<string>, defs: iset<(string, MacroDef)>, order: string -> nat, top: nat) {
    forall l :: l in lines && IsBlockName(defs, FirstWord(l)) ==> order(FirstWord(l)) < top
  }

  /** A line that starts with the name of a block macro ranks just above its place. */
  ghost function RankOfLine(defs: iset<(string, MacroDef)>, order: string -> nat, l: string): nat {
    if IsBlockName(defs, FirstWord(l)) then order(FirstWord(l)) + 1 else 0
  }

  ghost function RankOf(defs: iset<(string, MacroDef)>, order: string -> nat): string -> nat {
    (l: string) => RankOfLine(defs, order, l)
  }

  lemma BlockCallShape(m: Macros, l: string) returns (args: seq<string>)
    requires BlockUseOf(m, TrimLeft(l)).BlockCall?
    ensures
      var n := FirstWord(l);
      && n in m && m[n].isBlock && Bind(m[n], args).Some?
      && BlockUseOf(m, TrimLeft(l)).body == SubstituteBody(m[n].body, Bind(m[n], args).value)
  {
    hide Bind, SubstituteBody, Arguments, ClosingParen;
    var t := TrimLeft(l);
    var open := BlanksEnd(t, WordEnd(t, 0));
    OpenIsNotClosing(t, open);
    args := Arguments(t[open + 1..ClosingParen(t, open, 0, false).value]);
  }

  /** Calls that go down in an order of names fall in rank. */
  lemma NamesGiveRanks(defs: iset<(string, MacroDef)>, order: string -> nat)
    requires NamesFall(defs, order)
    ensures CallsFall(defs, RankOf(defs, order))
  {
    hide FirstWord, SplitLines, SubstituteBody, Bind, BlockUseOf, DefineWithin;
    forall m: Macros, l: string | Within(m, defs) && BlockUseOf(m, TrimLeft(l)).BlockCall?
      ensures
        var (lines, rank) := (SplitLines(BlockUseOf(m, TrimLeft(l)).body), RankOf(defs, order));
        rank(l) > 0 && DefineWithin(lines, defs) && RankedBy(lines, rank, rank(l) - 1)
    {
      var args := BlockCallShape(m, l);
      var n := FirstWord(l);
      assert (n, m[n]) in defs && IsBlockName(defs, n);
      var lines := SplitLines(SubstituteBody(m[n].body, Bind(m[n], args).value));
      assert StartBelow(lines, defs, order, order(n));
    }
  }

  /* ----- no block macros at all ----- */

  /** Sources that define no block macro. */
  ghost predicate NoMacroLines(lines: seq<string>) { forall i :: 0 <= i < |lines| ==> Keyword(lines[i]) != "macro" }

  ghost predicate PlainWorld(w: World) {
    forall f :: w.read(f).Some? ==> NoMacroLines(SplitLines(w.read(f).value))
  }

  ghost predicate NoBlocks(m: Macros) { forall n :: n in m ==> !m[n].isBlock }

  /** Main result for includes alone: without block macros every expansion ends,
      however files include one another, and needs no depth. */
  lemma IncludesEnd(w: World, s: State, p: Place, k: nat, ifs: seq<IfFrame>)
    requires Closed(w) && PlainWorld(w) && NoMacroLines(p.lines) && NoBlocks(s.macros) && k <= |p.lines|
    ensures var r := Run(w, s, p, k, ifs, 0); r.Some? && NoBlocks(r.value.macros)
  {
    hide Run, Keyword, SplitLines, DefineBlock, Closed, BlockUseOf;
    var rank: string -> nat := l => 0;
    NoCallsFall(rank);
    EnoughDepth(w, iset{}, rank, 0, s, p, k, ifs, 0, 0);
  }

  lemma NoCallsFall(rank: string -> nat)
    ensures CallsFall(iset{}, rank)
  {
    forall m, l | Within(m, iset{}) ensures !BlockUseOf(m, TrimLeft(l)).BlockCall? {
      NoBlockUse(m, TrimLeft(l));
    }
  }

  lemma NoBlockUse(m: Macros, line: string)
    requires Within(m, iset{})
    ensures BlockUseOf(m, line).NotBlock?
  {
  }
}
