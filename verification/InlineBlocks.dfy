/** Two files that use a block macro inside a larger line: in one, output and line
    map part ways; in the other, the arguments of a call swallow the line end. */
module InlineBlocks {
  import opened Options
  import opened Chars
  import opened MacroText
  import opened MacroExpansion
  import opened Preprocessor
  import opened LineMap
  import Directives
  import MacroBodies

  const DEFINITION := ["#macro M()", "a", "b", "#endmacro"]

  const USE := "x M()"

  const M := MacroDef(true, true, [], None, "a\nb")

  lemma HeaderIsMacro()
    ensures Keyword("#macro M()") == "macro" && Rest("#macro M()") == " M()"
  {
    assert "#macro M()" == "#" + "macro" + " M()";
    Directives.DirectiveParts("#macro M()", "macro", " M()");
  }

  lemma HeaderParses()
    ensures ParseHeader(" M()", true) == Some(("M", MacroDef(true, false, [], None, "")))
  {
    var s := TrimLeft(" M()");
    assert " M()"[1..] == "M()" && s == "M()";
    assert WordEnd(s, 0) == 1 && BlanksEnd(s, 1) == 1;
    assert ClosingParen(s, 1, 0, false) == ClosingParen(s, 2, 1, false) == Some(2);
    assert s[2..2] == "" && Arguments("") == [] && s[..1] == "M" && s[3..] == "";
  }

  /** A definition of `M` by two lines, from line `k` on. */
  lemma Defines(m: Macros, lines: seq<string>, k: nat, a: string, b: string)
    requires k + 4 <= |lines| && lines[k..k + 4] == ["#macro M()", a, b, "#endmacro"]
    requires !EndsMacro(a) && !EndsMacro(b)
    ensures DefineBlock(m, lines, k) == m["M" := MacroDef(true, true, [], None, a + "\n" + b)]
    ensures AfterMacro(lines, k) == k + 4
  {
    hide ParseHeader, Keyword, Rest, JoinLines, EndsMacro;
    FourLines(lines, k, a, b);
    HeaderIsMacro();
    HeaderParses();
    EndIsEnd();
    assert MacroEnd(lines, k + 3) == k + 3 && MacroEnd(lines, k + 2) == k + 3 && MacroEnd(lines, k + 1) == k + 3;
    TwoLinesJoin(a, b);
  }

  lemma FourLines(lines: seq<string>, k: nat, a: string, b: string)
    requires k + 4 <= |lines| && lines[k..k + 4] == ["#macro M()", a, b, "#endmacro"]
    ensures lines[k] == "#macro M()" && lines[k + 1] == a && lines[k + 2] == b && lines[k + 3] == "#endmacro"
    ensures lines[k + 1..k + 3] == [a, b]
  {
    var part := lines[k..k + 4];
    assert lines[k] == part[0] && lines[k + 1] == part[1] && lines[k + 2] == part[2] && lines[k + 3] == part[3];
  }

  lemma EndIsEnd()
    ensures EndsMacro("#endmacro")
  {
  }

  lemma TwoLinesJoin(a: string, b: string)
    ensures JoinLines([a, b]) == a + "\n" + b
  {
    assert [a, b][1..] == [b] && JoinLines([b]) == b;
  }

  /** A line of one name character that is no parameter is not changed. */
  lemma OneCharIsKept(t: string, bound: Binding)
    requires |t| == 1 && IsNameChar(t[0]) && t !in bound
    ensures SubstituteLine(t, bound) == t
  {
    assert t[0..1] == t && WordEnd(t, 0) == 1 && MacroBodies.Quiet(t, 1, bound);
    MacroBodies.QuietIsUnchanged(t, bound);
  }

  lemma BodySplits()
    ensures SplitLines("a\nb") == ["a", "b"]
  {
    var s := "a\nb";
    assert s[1..] == "\nb" && FirstNewline("\nb") == 0 && FirstNewline(s) == 1;
    assert s[..1] == "a" && s[2..] == "b" && FirstNewline("b") == 1 && "b"[..1] == "b";
    assert SplitLines("b") == ["b"];
  }

  lemma BodyIsKept()
    ensures SubstituteBody("a\nb", map[]) == "a\nb"
  {
    hide SplitLines, SubstituteLine, JoinLines;
    BodySplits();
    OneCharIsKept("a", map[]);
    OneCharIsKept("b", map[]);
    assert SubstituteLines(["a", "b"], map[]) == ["a", "b"];
    TwoLinesJoin("a", "b");
  }

  lemma UseIsCall()
    ensures UseOf(M, USE, 3) == Call(map[], 5)
  {
    assert BlanksEnd(USE, 3) == 3 && ClosingParen(USE, 3, 0, false) == ClosingParen(USE, 4, 1, false) == Some(4);
    assert USE[4..4] == "" && Arguments("") == [];
    assert Fixed([], []) == map[];
  }

  lemma UseBreaks(loc: Loc)
    ensures BreaksLine(map["M" := M], [], USE, 0, loc)
  {
    hide UseOf, SubstituteBody, Expand, BreaksEarly, WordEnd, Live;
    var m := map["M" := M];
    BodyIsKept();
    UseIsCall();
    WordsOfUse();
    LiveInUse(m);
    BodyBreaksEarly();
    assert CalledAt(m, [], USE, 2) == Some(Called("M", "a\nb"));
    assert BreaksLine(m, [], USE, 2, loc);
    assert ExpandStep(m, [], USE, 1, loc).next == 2 && BreaksLine(m, [], USE, 1, loc);
    assert ExpandStep(m, [], USE, 0, loc).next == 1;
  }

  lemma WordsOfUse()
    ensures WordEnd(USE, 0) == 1 && USE[0..1] == "x" && WordEnd(USE, 2) == 3 && USE[2..3] == "M"
  {
  }

  lemma LiveInUse(m: Macros)
    requires m == map["M" := M]
    ensures "M" in Live(m, []) && "x" !in Live(m, [])
  {
  }

  lemma BodyBreaksEarly()
    ensures BreaksEarly("a\nb")
  {
    var s := "a\nb";
    assert s[1..] == "\nb" && FirstNewline("\nb") == 0 && FirstNewline(s) == 1 && s[..1] == "a";
    assert s[1] == '\n';
  }

  lemma UseIsOrdinary(m: Macros)
    requires "x" !in m
    ensures !IsDirective(USE) && Keyword(USE) == "" && TrimLeft(USE) == USE
    ensures BlockUseOf(m, USE).NotBlock?
  {
    assert WordEnd(USE, 0) == 1 && USE[..1] == "x";
  }

  /** Main result: in a file that defines a block macro of two lines and uses it
      inside a larger line, the output has more newlines than the map has entries. */
  lemma InlineBlockMisaligns(w: World, file: string, dir: string, depth: nat)
    requires Closed(w) && CleanNames(w) && OneLine(file)
    ensures
      var p := Place(DEFINITION + [USE], file, dir);
      var r := Run(w, State(map[], {}, [], [], []), p, 0, [], depth);
      r.Some? && Newlines(Text(r.value.out)) > |r.value.lineMap|
  {
    var (p, s) := (Place(DEFINITION + [USE], file, dir), State(map[], {}, [], [], []));
    Finishes(w, p, s, depth);
    CleanPlace(p);
    var r := Run(w, s, p, 0, [], depth).value;
    var v := OnlyInlineBlocksMisalign(w, s, p, depth);
    UseIsVisited(w, v, p, s, Bare(r), depth);
  }

  lemma CleanPlace(p: Place)
    requires p.lines == DEFINITION + [USE] && OneLine(p.file)
    ensures Clean(p)
  {
  }

  lemma FirstStep(w: World, p: Place, s: State, depth: nat)
    requires Closed(w) && p.lines == DEFINITION + [USE] && s.macros == map[]
    ensures NextLine(p, 0) == 4 && NextIfs(s.macros, [], p.lines[0], Loc(1, p.file)) == []
    ensures Opens(w, s, p, 0, true).None?
    ensures var t := LineEffect(w, s, p, 0, true, depth); t.Some? && t.value.macros == map["M" := M]
  {
    hide Keyword, Rest, DefineBlock, AfterMacro, LineEffect, NextIfs, NextLine, Opens;
    assert p.lines[0] == "#macro M()" && p.lines[0..4] == DEFINITION;
    HeaderIsMacro();
    LettersEndNothing();
    Defines(map[], p.lines, 0, "a", "b");
    MacroStep(w, p, s, 0, depth);
  }

  lemma LettersEndNothing()
    ensures !EndsMacro("a") && !EndsMacro("b") && "a" + "\n" + "b" == "a\nb"
  {
  }

  lemma MacroStep(w: World, p: Place, s: State, k: nat, depth: nat)
    requires Closed(w) && k < |p.lines| && Keyword(p.lines[k]) == "macro"
    ensures NextLine(p, k) == AfterMacro(p.lines, k) && NextIfs(s.macros, [], p.lines[k], Loc(k + 1, p.file)) == []
    ensures Opens(w, s, p, k, true).None?
    ensures
      var t := LineEffect(w, s, p, k, true, depth);
      t.Some? && t.value.macros == DefineBlock(s.macros, p.lines, k)
  {
    hide Keyword, DefineBlock, AfterMacro, IncludeEffect, BlockEffect, BlockUseOf, Blanks;
  }

  /** A line that is `USE`, where its first word names no macro. */
  lemma UseStep(w: World, p: Place, s: State, k: nat, depth: nat)
    requires Closed(w) && k < |p.lines| && p.lines[k] == USE && "x" !in s.macros
    ensures LineEffect(w, s, p, k, true, depth).Some? && NextLine(p, k) == k + 1
    ensures Opens(w, s, p, k, true).None? && NextIfs(s.macros, [], p.lines[k], Loc(k + 1, p.file)) == []
  {
    hide Run, Expanded, BlockUseOf;
    UseIsOrdinary(s.macros);
  }

  lemma FiveLines(p: Place)
    requires p.lines == DEFINITION + [USE]
    ensures |p.lines| == 5 && p.lines[4] == USE
  {
  }

  lemma NoneOpen()
    ensures ActiveNow([])
  {
  }

  lemma Finishes(w: World, p: Place, s: State, depth: nat)
    requires Closed(w) && p.lines == DEFINITION + [USE] && s.macros == map[]
    ensures Run(w, s, p, 0, [], depth).Some?
  {
    hide Run, LineEffect, NextIfs, NextLine, Closed, DEFINITION, USE;
    FiveLines(p);
    FirstStep(w, p, s, depth);
    UseStep(w, p, LineEffect(w, s, p, 0, true, depth).value, 4, depth);
    TwoSteps(w, p, s, depth);
  }

  lemma TwoSteps(w: World, p: Place, s: State, depth: nat)
    requires Closed(w) && |p.lines| == 5 && NextLine(p, 0) == 4 && NextLine(p, 4) == 5
    requires NextIfs(s.macros, [], p.lines[0], Loc(1, p.file)) == []
    requires
      var t := LineEffect(w, s, p, 0, true, depth);
      && t.Some? && LineEffect(w, t.value, p, 4, true, depth).Some?
      && NextIfs(t.value.macros, [], p.lines[4], Loc(5, p.file)) == []
    ensures Run(w, s, p, 0, [], depth).Some?
  {
    hide Run, LineEffect, NextIfs, NextLine, Closed, ActiveNow;
    NoneOpen();
    var t := LineEffect(w, s, p, 0, true, depth).value;
    RunStep(w, s, p, 0, [], depth);
    RunStep(w, t, p, 4, [], depth);
    RunEnds(w, LineEffect(w, t, p, 4, true, depth).value, p, [], depth);
  }

  lemma UseIsVisited(w: World, v: seq<Visit>, p: Place, s: State, r: State, depth: nat)
    requires Closed(w) && p.lines == DEFINITION + [USE] && s.macros == map[] && s == Bare(s)
    requires AllVisits(v) && Traces(w, v, p, 0, [], s, r, depth)
    ensures exists i :: 0 <= i < |v| && BreaksInline(v[i])
  {
    hide Run, LineEffect, NextIfs, NextLine, Closed, BreaksLine, Traces, Opens, BlockUseOf;
    NoneOpen();
    FirstStep(w, p, s, depth);
    var n, u := TraceGoesOn(w, v, p, 0, [], s, r, depth);
    var m, u2 := TraceGoesOn(w, v[1..], p, 4, [], u, r, depth);
    assert v[1] == v[1..][0] == Visit(p, 4, [], u) && RawOf(v[1]) == USE;
    UseIsOrdinary(map["M" := M]);
    UseBreaks(LocOf(v[1]));
    assert BreaksInline(v[1]);
  }

  /* ----- a swallowed line end ----- */

  const OUTER := MacroDef(true, true, [], None, "f(\nx)")

  const INNER := MacroDef(true, false, ["a"], None, "0")

  const BOTH := map["M" := OUTER, "f" := INNER]

  lemma CallIsKept()
    ensures SubstituteBody("f(\nx)", map[]) == "f(\nx)"
  {
    hide SplitLines, SubstituteLine;
    SplitsInTwo();
    PairIsKept('f', '(');
    PairIsKept('x', ')');
    assert SubstituteLines(["f(", "x)"], map[]) == ["f(", "x)"] && ["f(", "x)"][1..] == ["x)"];
    assert JoinLines(["x)"]) == "x)" && "f(" + "\n" + "x)" == "f(\nx)";
  }

  lemma SplitsInTwo()
    ensures SplitLines("f(\nx)") == ["f(", "x)"]
  {
    var (s, u) := ("f(\nx)", "x)");
    assert s[1..] == "(\nx)" && "(\nx)"[1..] == "\nx)" && FirstNewline("\nx)") == 0;
    assert FirstNewline("(\nx)") == 1 && FirstNewline(s) == 2 && s[..2] == "f(" && s[3..] == u;
    assert u[1..] == ")" && ")"[1..] == "" && FirstNewline(")") == 1 && FirstNewline(u) == 2 && u[..2] == u;
    assert SplitLines(u) == [u];
  }

  lemma PairIsKept(a: char, b: char)
    requires 'a' <= a <= 'z' && (b == '(' || b == ')')
    ensures SubstituteLine([a, b], map[]) == [a, b]
  {
    var t := [a, b];
    assert WordEnd(t, 0) == 1 && t[0..1] == [a];
    assert MacroBodies.Quiet(t, 2, map[]) && MacroBodies.Quiet(t, 1, map[]);
    MacroBodies.QuietIsUnchanged(t, map[]);
  }

  lemma OuterIsCall()
    ensures UseOf(OUTER, USE, 3) == Call(map[], 5)
  {
    assert BlanksEnd(USE, 3) == 3 && ClosingParen(USE, 3, 0, false) == ClosingParen(USE, 4, 1, false) == Some(4);
    assert USE[4..4] == "" && Arguments("") == [] && Fixed([], []) == map[];
  }

  lemma InnerIsCall()
    ensures UseOf(INNER, "f(\nx)", 1) == Call(map["a" := "\nx"], 5)
  {
    var t := "f(\nx)";
    assert ClosingParen(t, 4, 1, false) == Some(4) && ClosingParen(t, 3, 1, false) == Some(4);
    assert ClosingParen(t, 2, 1, false) == Some(4) && ClosingParen(t, 1, 0, false) == Some(4);
    assert BlanksEnd(t, 1) == 1 && t[2..4] == "\nx";
    var a := "\nx";
    assert TrimLeft(a) == a && TrimRight(a) == a && a[0..] == a;
    assert Pieces(a, 0, 2, 0, false) == [a] && Pieces(a, 0, 1, 0, false) == [a] && Pieces(a, 0, 0, 0, false) == [a];
    assert Arguments(a) == [a];
    assert ["a"][..0] == [] && Fixed(["a"], [a]) == map["a" := a];
  }

  lemma ZeroIsKept(bound: Binding)
    requires bound == map["a" := "\nx"]
    ensures SubstituteBody("0", bound) == "0"
  {
    hide SubstituteLine;
    var t := "0";
    assert FirstNewline(t) == 1 && t[..1] == t && SplitLines(t) == [t];
    OneCharIsKept(t, bound);
    assert SubstituteLines([t], bound) == [t];
  }

  lemma ZeroExpands(m: Macros, active: seq<string>, loc: Loc)
    requires "0" !in m
    ensures Expand(m, active, "0", 0, loc) == "0"
  {
    var t := "0";
    assert WordEnd(t, 0) == 1 && t[0..1] == t;
    assert ExpandStep(m, active, t, 0, loc) == Step(t, 1);
    ExpandEnds(m, active, t, loc);
  }

  /** A macro with a body of several lines takes part, and the line stays one line. */
  lemma UseSwallows(loc: Loc)
    ensures CallsBlock(BOTH, [], USE, 0, loc) && Expanded(BOTH, USE, loc) == "x 0"
  {
    hide Expand, UseOf, SubstituteBody, Live, WordEnd, BOTH;
    LiveNames();
    OuterIsCall();
    CallIsKept();
    InnerExpands(loc);
    WordsOfUse();
    assert [] + ["M"] == ["M"];
    assert CalledAt(BOTH, [], USE, 2) == Some(Called("M", "f(\nx)")) && OUTER.body[2] == '\n';
    assert ExpandStep(BOTH, [], USE, 0, loc) == Step("x", 1);
    assert ExpandStep(BOTH, [], USE, 1, loc) == Step(" ", 2);
    assert ExpandStep(BOTH, [], USE, 2, loc) == Step("0", 5);
    assert CallsBlock(BOTH, [], USE, 2, loc) && CallsBlock(BOTH, [], USE, 1, loc);
    ThreeSteps(BOTH, USE, loc);
  }

  lemma ThreeSteps(m: Macros, t: string, loc: Loc)
    requires |t| == 5 && ExpandStep(m, [], t, 0, loc) == Step("x", 1)
    requires ExpandStep(m, [], t, 1, loc) == Step(" ", 2) && ExpandStep(m, [], t, 2, loc) == Step("0", 5)
    ensures Expanded(m, t, loc) == "x 0"
  {
    hide Expand;
    ExpandedStep(m, [], t, 0, loc, Step("x", 1), "");
    ExpandedStep(m, [], t, 1, loc, Step(" ", 2), "x");
    ExpandedStep(m, [], t, 2, loc, Step("0", 5), "x ");
    ExpandEnds(m, [], t, loc);
    assert "" + "x" == "x" && "x" + " " == "x " && "x " + "0" + "" == "x 0";
    assert "" + Expand(m, [], t, 0, loc) == Expand(m, [], t, 0, loc);
  }

  lemma ShortWords()
    ensures WordEnd("f(\nx)", 0) == 1 && "f(\nx)"[0..1] == "f"
  {
  }

  lemma InnerExpands(loc: Loc)
    ensures Expand(BOTH, ["M"], "f(\nx)", 0, loc) == "0"
  {
    hide Expand, UseOf, SubstituteBody, Live, WordEnd, BOTH;
    LiveNames();
    InnerIsCall();
    ZeroIsKept(map["a" := "\nx"]);
    ZeroExpands(BOTH, ["M"] + ["f"], loc);
    ShortWords();
    var u := "f(\nx)";
    assert ExpandStep(BOTH, ["M"], u, 0, loc) == Step("0", 5);
    ExpandedStep(BOTH, ["M"], u, 0, loc, Step("0", 5), "");
    ExpandEnds(BOTH, ["M"], u, loc);
    assert "" + Expand(BOTH, ["M"], u, 0, loc) == "" + "0" + "" == "0";
  }

  lemma LiveNames()
    ensures "M" in Live(BOTH, []) && "f" in Live(BOTH, ["M"]) && "0" !in BOTH && "x" !in BOTH && "x" !in Live(BOTH, [])
    ensures "M" in BOTH && BOTH["M"] == OUTER && "f" in BOTH && BOTH["f"] == INNER
  {
  }

  /* ----- the file that does this ----- */

  const SWALLOWS := ["#define f(a) 0", "#macro M()", "f(", "x)", "#endmacro", USE]

  lemma DefineIsDefine()
    ensures Keyword("#define f(a) 0") == "define" && Rest("#define f(a) 0") == " f(a) 0"
  {
    assert "#define f(a) 0" == "#" + "define" + " f(a) 0";
    Directives.DirectiveParts("#define f(a) 0", "define", " f(a) 0");
  }

  lemma DefineParses()
    ensures ParseHeader(" f(a) 0", false) == Some(("f", INNER))
  {
    var s := TrimLeft(" f(a) 0");
    assert " f(a) 0"[1..] == "f(a) 0" && s == "f(a) 0";
    assert WordEnd(s, 0) == 1;
    assert ClosingParen(s, 1, 0, false) == ClosingParen(s, 2, 1, false) == ClosingParen(s, 3, 1, false) == Some(3);
    assert s[2..3] == "a" && s[..1] == "f" && s[4..] == " 0" && " 0"[1..] == "0" && TrimLeft(" 0") == "0";
    OneArgument();
  }

  lemma OneArgument()
    ensures Arguments("a") == ["a"]
  {
    var a := "a";
    assert TrimLeft(a) == a && TrimRight(a) == a && a[0..] == a;
    assert Pieces(a, 0, 1, 0, false) == [a] && Pieces(a, 0, 0, 0, false) == [a];
  }

  lemma DefineStep(w: World, p: Place, s: State, k: nat, depth: nat)
    requires Closed(w) && k < |p.lines| && Keyword(p.lines[k]) == "define" && IsDirective(p.lines[k])
    ensures NextLine(p, k) == k + 1 && NextIfs(s.macros, [], p.lines[k], Loc(k + 1, p.file)) == []
    ensures Opens(w, s, p, k, true).None?
    ensures
      var t := LineEffect(w, s, p, k, true, depth);
      t.Some? && t.value.macros == Define(s.macros, Rest(p.lines[k]))
  {
    hide Keyword, Define, Rest, IncludeEffect, BlockEffect, BlockUseOf, IsDirective;
  }

  lemma SixLines(p: Place)
    requires p.lines == SWALLOWS
    ensures |p.lines| == 6 && p.lines[0] == "#define f(a) 0" && p.lines[5] == USE
    ensures p.lines[1] == "#macro M()" && p.lines[1..5] == ["#macro M()", "f(", "x)", "#endmacro"]
    ensures IsDirective("#define f(a) 0") && !EndsMacro("f(") && !EndsMacro("x)") && "f(" + "\n" + "x)" == "f(\nx)"
  {
  }

  lemma TableFilled(w: World, p: Place, s: State, depth: nat)
    requires Closed(w) && p.lines == SWALLOWS && s.macros == map[]
    ensures NextLine(p, 0) == 1 && NextIfs(s.macros, [], p.lines[0], Loc(1, p.file)) == []
    ensures Opens(w, s, p, 0, true).None?
    ensures
      var t := LineEffect(w, s, p, 0, true, depth);
      t.Some? && t.value.macros == map["f" := INNER]
  {
    hide Keyword, Rest, ParseHeader, LineEffect, NextIfs, NextLine, Opens, IsDirective, SWALLOWS;
    SixLines(p);
    DefineIsDefine();
    DefineParses();
    DefineStep(w, p, s, 0, depth);
  }

  lemma TableComplete(w: World, p: Place, s: State, depth: nat)
    requires Closed(w) && p.lines == SWALLOWS && s.macros == map["f" := INNER]
    ensures NextLine(p, 1) == 5 && NextIfs(s.macros, [], p.lines[1], Loc(2, p.file)) == []
    ensures Opens(w, s, p, 1, true).None?
    ensures var t := LineEffect(w, s, p, 1, true, depth); t.Some? && t.value.macros == BOTH
  {
    hide Keyword, Rest, DefineBlock, AfterMacro, LineEffect, NextIfs, NextLine, Opens, SWALLOWS;
    SixLines(p);
    HeaderIsMacro();
    Defines(s.macros, p.lines, 1, "f(", "x)");
    MacroStep(w, p, s, 1, depth);
    assert s.macros["M" := OUTER] == BOTH;
  }

  lemma SwallowingFinishes(w: World, p: Place, s: State, depth: nat)
    requires Closed(w) && p.lines == SWALLOWS && s.macros == map[]
    ensures Run(w, s, p, 0, [], depth).Some?
  {
    hide Run, LineEffect, NextIfs, NextLine, Closed, ActiveNow, SWALLOWS, USE, Opens, BOTH;
    NoneOpen();
    SixLines(p);
    LiveNames();
    TableFilled(w, p, s, depth);
    var t := LineEffect(w, s, p, 0, true, depth).value;
    TableComplete(w, p, t, depth);
    var u := LineEffect(w, t, p, 1, true, depth).value;
    UseStep(w, p, u, 5, depth);
    RunStep(w, s, p, 0, [], depth);
    RunStep(w, t, p, 1, [], depth);
    RunStep(w, u, p, 5, [], depth);
    RunEnds(w, LineEffect(w, u, p, 5, true, depth).value, p, [], depth);
  }

  /** The three visits: two definitions, and the line that uses both. */
  lemma SwallowingVisits(w: World, v: seq<Visit>, p: Place, s: State, r: State, depth: nat)
    requires Closed(w) && p.lines == SWALLOWS && s.macros == map[] && s == Bare(s) && OneLine(p.file)
    requires AllVisits(v) && Traces(w, v, p, 0, [], s, r, depth)
    ensures |v| == 3 && CallsBlockInline(v[2]) && forall i :: 0 <= i < |v| ==> !ReadsEndInline(v[i])
  {
    hide Run, LineEffect, NextIfs, NextLine, Closed, Traces, Opens, BlockUseOf, ActiveNow;
    hide SWALLOWS, USE, BOTH, ReadsLineEnd, CallsBlock, Expand;
    NoneOpen();
    SixLines(p);
    LiveNames();
    TableFilled(w, p, s, depth);
    var n, u := TraceGoesOn(w, v, p, 0, [], s, r, depth);
    TableComplete(w, p, u, depth);
    var n2, u2 := TraceGoesOn(w, v[1..], p, 1, [], u, r, depth);
    UseStep(w, p, u2, 5, depth);
    var n3, u3 := TraceGoesOn(w, v[1..][1..], p, 5, [], u2, r, depth);
    TraceStops(w, v[1..][1..][1..], p, u3, r, depth);
    assert v[1..][0] == v[1] && v[1..][1..][0] == v[2];
    UseIsOrdinary(u2.macros);
    UseSwallows(LocOf(v[2]));
    BreaksExactly(BOTH, [], USE, 0, LocOf(v[2]));
    DirectivesAre();
  }

  lemma TraceStops(w: World, v: seq<Visit>, p: Place, s: State, t: State, depth: nat)
    requires Closed(w) && Traces(w, v, p, |p.lines|, [], s, t, depth)
    ensures v == []
  {
  }

  lemma DirectivesAre()
    ensures IsDirective("#define f(a) 0") && IsDirective("#macro M()")
  {
  }

  /** Main result: in a file that calls a macro of two lines inside a larger line,
      newlines and entries can still be equal in number. */
  lemma LineEndSwallowed(w: World, file: string, dir: string, depth: nat) returns (v: seq<Visit>)
    requires Closed(w) && CleanNames(w) && OneLine(file)
    ensures
      var (p, s) := (Place(SWALLOWS, file, dir), State(map[], {}, [], [], []));
      var r := Run(w, s, p, 0, [], depth);
      && r.Some? && Newlines(Text(r.value.out)) == |r.value.lineMap|
      && AllVisits(v) && Traces(w, v, p, 0, [], s, Bare(r.value), depth)
      && |v| == 3 && CallsBlockInline(v[2])
  {
    hide Run, Closed, Traces, CallsBlockInline, ReadsEndInline, SWALLOWS, Newlines;
    var (p, s) := (Place(SWALLOWS, file, dir), State(map[], {}, [], [], []));
    SwallowingFinishes(w, p, s, depth);
    SwallowingIsClean(p);
    v := OnlyInlineBlocksMisalign(w, s, p, depth);
    SwallowingVisits(w, v, p, s, Bare(Run(w, s, p, 0, [], depth).value), depth);
  }

  lemma SwallowingIsClean(p: Place)
    requires p.lines == SWALLOWS && OneLine(p.file)
    ensures Clean(p)
  {
  }
}
