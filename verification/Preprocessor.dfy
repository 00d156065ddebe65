/** The preprocessor: what expanding the lines of a file does to the macro table,
    the output and the line map, and the expander that does it step by step. */
module Preprocessor {
  import opened Options
  import opened Chars
  import opened MacroText
  import PpExpr

  /** The outside: the files that exist, the canonical file for a path seen from
      a directory, contents, the directory of a file, and the search list. */
  datatype World = World(
    files: set<string>,
    canonical: (string, string) -> Option<string>,
    isAbsolute: string -> bool,
    read: string -> Option<string>,
    parent: string -> string,
    includeDirs: seq<string>)

  ghost predicate Closed(w: World) {
    forall d, p :: w.canonical(d, p).Some? ==> w.canonical(d, p).value in w.files
  }

  /** The state shared by nested expansions, and the output so far: each piece of
      text is written with a newline after it, and has one line-map entry. */
  datatype State = State(macros: Macros, everIncluded: set<string>, activeStack: seq<string>, out: seq<string>,
                         lineMap: seq<Loc>)

  /** A line of output with its line-map entry. */
  function Emit(s: State, text: string, loc: Loc): State { s.(out := s.out + [text], lineMap := s.lineMap + [loc]) }

  /** Blank output for the lines from index `from` up to `to`. */
  function Blanks(s: State, file: string, from: nat, to: nat): State
    decreases if from < to then to - from else 0
  {
    if from >= to then s else Blanks(Emit(s, "", Loc(from + 1, file)), file, from + 1, to)
  }

  /* ----- directives ----- */

  function SpaceLength(s: string): (n: nat)
    ensures n <= |s|
  {
    if s != "" && IsSpace(s[0]) then 1 + SpaceLength(s[1..]) else 0
  }

  function TokenLength(s: string): (n: nat)
    ensures n <= |s|
  {
    if s != "" && !IsSpace(s[0]) then 1 + TokenLength(s[1..]) else 0
  }

  /** The first token of a text that spaces delimit, and what follows it. */
  function FirstToken(s: string): (string, string) {
    var t := s[SpaceLength(s)..];
    (t[..TokenLength(t)], t[TokenLength(t)..])
  }

  predicate IsDirective(raw: string) { TrimLeft(raw) != "" && TrimLeft(raw)[0] == '#' }

  /** The keyword of a directive, or nothing for an ordinary line. */
  function Keyword(raw: string): string { if IsDirective(raw) then FirstToken(TrimLeft(raw)[1..]).0 else "" }

  function Rest(raw: string): string { if IsDirective(raw) then FirstToken(TrimLeft(raw)[1..]).1 else "" }

  function ParseHeader(rest: string, spaceAllowed: bool): Option<(string, MacroDef)> {
    var s := TrimLeft(rest);
    if s == "" || !IsNameStart(s[0]) then None
    else
      var i := WordEnd(s, 0);
      var open := if spaceAllowed then BlanksEnd(s, i) else i;
      if open < |s| && s[open] == '(' then
        match ClosingParen(s, open, 0, false)
        case None => None
        case Some(close) =>
          assert close > open by { OpenIsNotClosing(s, open); }
          var params := Arguments(s[open + 1..close]);
          var body := TrimLeft(s[close + 1..]);
          if params != [] && IsVariadic(params[|params| - 1]) then
            var last := params[|params| - 1];
            Some((s[..i], MacroDef(true, false, params[..|params| - 1], Some(Trim(last[..|last| - 3])), body)))
          else Some((s[..i], MacroDef(true, false, params, None, body)))
      else Some((s[..i], MacroDef(false, false, [], None, TrimLeft(s[i..]))))
  }

  predicate IsVariadic(param: string) { |param| > 3 && param[|param| - 3..] == "..." }

  /** `defined(symbol)` becomes 1 or 0 before any macro is expanded. */
  function DefinedStep(t: string, i: nat, m: Macros): (s: Step)
    requires i < |t|
    ensures StepsOn(t, i, s)
  {
    if t[i] == '"' then CopyStep(t, i)
    else if !StartsWord(t, i) then Step([t[i]], i + 1)
    else
      var j := WordEnd(t, i);
      var open := BlanksEnd(t, j);
      if t[i..j] == "defined" && open < |t| && t[open] == '(' then
        match ClosingParen(t, open, 0, false)
        case None => Step(t[i..j], j)
        case Some(close) =>
          assert close > open by { OpenIsNotClosing(t, open); }
          Step(if Trim(t[open + 1..close]) in m then "1" else "0", close + 1)
      else Step(t[i..j], j)
  }

  function Resolved(t: string, i: nat, m: Macros): string
    requires i <= |t|
    decreases |t| - i
  {
    if i == |t| then ""
    else
      var s := DefinedStep(t, i, m);
      s.text + Resolved(t, s.next, m)
  }

  lemma ResolvedStep(t: string, i: nat, m: Macros, s: Step, out: string)
    requires i < |t| && DefinedStep(t, i, m) == s
    ensures out + Resolved(t, i, m) == out + s.text + Resolved(t, s.next, m)
  {
    hide DefinedStep;
  }

  /** An `#if` condition; a malformed one counts as false. */
  function IfCondition(m: Macros, rest: string, loc: Loc): bool {
    var value := PpExpr.EvalAll(PpExpr.Scan(Expanded(m, Resolved(rest, 0, m), loc)));
    value.Fine? && value.v != 0
  }

  predicate OpensIf(kw: string) { kw == "if" || kw == "ifdef" || kw == "ifndef" }

  predicate ElseIfs(kw: string) { kw == "elseif" || kw == "elseifdef" || kw == "elseifndef" }

  predicate IsConditional(kw: string) { OpensIf(kw) || ElseIfs(kw) || kw == "else" || kw == "endif" }

  /** Whether the condition on an `#if` or `#elseif` line of any kind holds. */
  function Holds(m: Macros, raw: string, loc: Loc): bool {
    var (kw, name) := (Keyword(raw), FirstToken(Rest(raw)).0);
    if kw == "ifdef" || kw == "elseifdef" then name in m
    else if kw == "ifndef" || kw == "elseifndef" then name !in m
    else IfCondition(m, Rest(raw), loc)
  }

  datatype IfFrame = IfFrame(active: bool, anyTaken: bool, sawElse: bool)

  predicate ActiveNow(ifs: seq<IfFrame>) { forall i :: 0 <= i < |ifs| ==> ifs[i].active }

  /** The conditional stack after a line. */
  function NextIfs(m: Macros, ifs: seq<IfFrame>, raw: string, loc: Loc): seq<IfFrame> {
    var kw := Keyword(raw);
    if OpensIf(kw) then
      var cond := Holds(m, raw, loc);
      ifs + [IfFrame(cond, cond, false)]
    else if ifs == [] then ifs
    else
      var f := ifs[|ifs| - 1];
      if ElseIfs(kw) then
        if f.sawElse then ifs
        else if f.anyTaken then ifs[|ifs| - 1 := f.(active := false)]
        else
          var cond := Holds(m, raw, loc);
          ifs[|ifs| - 1 := f.(active := cond, anyTaken := cond)]
      else if kw == "else" then ifs[|ifs| - 1 := IfFrame(!f.anyTaken, true, true)]
      else if kw == "endif" then ifs[..|ifs| - 1]
      else ifs
  }

  /** The structure error that a line makes: a conditional directive without its
      chain or after `#else`, an `#endmacro` without `#macro`, or the reverse. */
  function LineFaults(lines: seq<string>, k: nat, ifs: seq<IfFrame>): nat
    requires k < |lines|
  {
    IfFaults(ifs, Keyword(lines[k])) + MacroFaults(lines, k)
  }

  function IfFaults(ifs: seq<IfFrame>, kw: string): nat {
    if OpensIf(kw) || !IsConditional(kw) then 0
    else if ifs == [] then 1
    else if kw != "endif" && ifs[|ifs| - 1].sawElse then 1
    else 0
  }

  function MacroFaults(lines: seq<string>, k: nat): nat
    requires k < |lines|
  {
    var kw := Keyword(lines[k]);
    if kw == "endmacro" || (kw == "macro" && MacroEnd(lines, k + 1) == |lines|) then 1 else 0
  }

  /* ----- macro definitions ----- */

  predicate EndsMacro(raw: string) { TrimLeft(raw) == "#endmacro" }

  function MacroEnd(lines: seq<string>, k: nat): (j: nat)
    requires k <= |lines|
    ensures k <= j <= |lines|
    decreases |lines| - k
  {
    if k == |lines| || EndsMacro(lines[k]) then k else MacroEnd(lines, k + 1)
  }

  /** The index of the line after a `#macro` at `k` and all its lines. */
  function AfterMacro(lines: seq<string>, k: nat): (next: nat)
    requires k < |lines|
    ensures k < next <= |lines|
  {
    var j := MacroEnd(lines, k + 1);
    if j == |lines| then j else j + 1
  }

  function Define(m: Macros, rest: string): Macros {
    match ParseHeader(rest, false)
    case None => m
    case Some(h) => m[h.0 := h.1]
  }

  /** A block macro is defined if it is closed and its header has parameters. */
  function DefineBlock(m: Macros, lines: seq<string>, k: nat): Macros
    requires k < |lines|
  {
    var j := MacroEnd(lines, k + 1);
    match ParseHeader(Rest(lines[k]), true)
    case None => m
    case Some(h) =>
      if j == |lines| || !h.1.isFunction then m
      else m[h.0 := h.1.(isBlock := true, body := JoinLines(lines[k + 1..j]))]
  }

  /* ----- includes and block macros ----- */

  function ParseInclude(rest: string): Option<(bool, string)> {
    var t := TrimLeft(rest);
    var once := |t| > 4 && t[..4] == "once" && !IsNameChar(t[4]);
    var u := if once then TrimLeft(t[4..]) else t;
    if u == "" || u[0] != '"' then None
    else
      var end := QuoteEnd(u, 1);
      if u[end - 1] == '"' && end > 1 then Some((once, u[1..end - 1])) else None
  }

  function SearchDirs(w: World, dirs: seq<string>, path: string): Option<string> {
    if dirs == [] then None
    else if w.canonical(dirs[0], path).Some? then w.canonical(dirs[0], path)
    else SearchDirs(w, dirs[1..], path)
  }

  /** The directory of the including file comes first, then the search list. */
  function FindInclude(w: World, dir: string, path: string): (r: Option<string>)
  {
    if w.canonical(dir, path).Some? || w.isAbsolute(path) then w.canonical(dir, path)
    else SearchDirs(w, w.includeDirs, path)
  }

  lemma FoundIsFile(w: World, dir: string, path: string)
    requires Closed(w)
    ensures var r := FindInclude(w, dir, path); r.Some? ==> r.value in w.files
  {
    SearchFindsFile(w, w.includeDirs, path);
  }

  lemma {:induction false} SearchFindsFile(w: World, dirs: seq<string>, path: string)
    requires Closed(w)
    ensures var r := SearchDirs(w, dirs, path); r.Some? ==> r.value in w.files
  {
    if dirs != [] { SearchFindsFile(w, dirs[1..], path); }
  }

  datatype BlockUse = NotBlock | BadArguments | BlockCall(body: string)

  /** How a line calls a block macro: the call must be the whole line. */
  function BlockUseOf(m: Macros, line: string): BlockUse {
    if line == "" || !IsNameStart(line[0]) then NotBlock
    else
      var i := WordEnd(line, 0);
      var name := line[..i];
      var open := BlanksEnd(line, i);
      if name !in m || !m[name].isBlock || open == |line| || line[open] != '(' then NotBlock
      else
        match ClosingParen(line, open, 0, false)
        case None => NotBlock
        case Some(close) =>
          assert close > open by { OpenIsNotClosing(line, open); }
          var trailing := Trim(line[close + 1..]);
          if trailing != "" && trailing[0] != '\'' then NotBlock
          else
            match Bind(m[name], Arguments(line[open + 1..close]))
            case None => BadArguments
            case Some(bound) => BlockCall(SubstituteBody(m[name].body, bound))
  }

  /** The text of the output. */
  function Text(out: seq<string>): string {
    if out == [] then "" else Text(out[..|out| - 1]) + out[|out| - 1] + "\n"
  }

  function Repeat(loc: Loc, n: nat): seq<Loc> { seq(n, _ => loc) }

  /** A block's lines, at least one. */
  function BlockLines(out: seq<string>): seq<string> {
    var lines := SplitLines(Text(out));
    if lines == [] then [""] else lines
  }

  /** The output of a nested expansion, all attributed to the call. */
  function Attribute(s: State, nested: State, loc: Loc): State {
    var lines := BlockLines(nested.out);
    nested.(out := s.out + lines, lineMap := s.lineMap + Repeat(loc, |lines|))
  }

  /* ----- expanding a file ----- */

  ghost function Unopened(w: World, stack: seq<string>): set<string> { set f | f in w.files && f !in stack }

  lemma FewerUnopened(w: World, stack: seq<string>, f: string)
    requires f in w.files && f !in stack
    ensures |Unopened(w, stack + [f])| < |Unopened(w, stack)|
  {
    assert Unopened(w, stack + [f]) == Unopened(w, stack) - {f};
  }

  datatype Place = Place(lines: seq<string>, file: string, dir: string)

  /** A finished expansion keeps the include stack; None means that block macros
      were nested more than `depth` deep. */
  ghost predicate KeepsStack(s: State, r: Option<State>) { r.Some? ==> r.value.activeStack == s.activeStack }

  function Run(w: World, s: State, p: Place, k: nat, ifs: seq<IfFrame>, depth: nat): (r: Option<State>)
    requires Closed(w) && k <= |p.lines|
    ensures KeepsStack(s, r)
    decreases depth, |Unopened(w, s.activeStack)|, |p.lines| - k, 1
  {
    if k == |p.lines| then Some(s)
    else
      match LineEffect(w, s, p, k, ActiveNow(ifs), depth)
      case None => None
      case Some(t) => Run(w, t, p, NextLine(p, k), NextIfs(s.macros, ifs, p.lines[k], Loc(k + 1, p.file)), depth)
  }

  function NextLine(p: Place, k: nat): (next: nat)
    requires k < |p.lines|
    ensures k < next <= |p.lines|
  {
    if Keyword(p.lines[k]) == "macro" then AfterMacro(p.lines, k) else k + 1
  }

  /** What one line does; `active` says whether it is kept. */
  function LineEffect(w: World, s: State, p: Place, k: nat, active: bool, depth: nat): (r: Option<State>)
    requires Closed(w) && k < |p.lines|
    ensures KeepsStack(s, r)
    decreases depth, |Unopened(w, s.activeStack)|, |p.lines| - k, 0
  {
    var (raw, loc) := (p.lines[k], Loc(k + 1, p.file));
    var kw := Keyword(raw);
    if !active || IsConditional(kw) then Some(SkipLine(s, p, k))
    else if kw == "include" then IncludeEffect(w, s, p, k, depth)
    else if kw == "macro" then
      Some(SkipLine(s, p, k).(macros := DefineBlock(s.macros, p.lines, k)))
    else if IsDirective(raw) then
      var m := if kw == "define" then Define(s.macros, Rest(raw))
               else if kw == "undef" then s.macros - {FirstToken(Rest(raw)).0}
               else s.macros;
      Some(Emit(s, "", loc).(macros := m))
    else
      match BlockUseOf(s.macros, TrimLeft(raw))
      case NotBlock => Some(Emit(s, Expanded(s.macros, raw, loc), loc))
      case BadArguments => Some(Emit(s, "", loc))
      case BlockCall(body) => BlockEffect(w, s, p, k, body, depth)
  }

  /** A line, or a whole block macro definition, that leaves only blanks. */
  function SkipLine(s: State, p: Place, k: nat): (t: State)
    requires k < |p.lines|
    ensures t.activeStack == s.activeStack
  {
    BlanksKeepState(s, p.file, k, NextLine(p, k));
    Blanks(s, p.file, k, NextLine(p, k))
  }

  lemma {:induction false} BlanksKeepState(s: State, file: string, from: nat, to: nat)
    ensures Blanks(s, file, from, to) == s.(out := Blanks(s, file, from, to).out,
                                            lineMap := Blanks(s, file, from, to).lineMap)
    decreases if from < to then to - from else 0
  {
    if from < to { BlanksKeepState(Emit(s, "", Loc(from + 1, file)), file, from + 1, to); }
  }

  function IncludeEffect(w: World, s: State, p: Place, k: nat, depth: nat): (r: Option<State>)
    requires Closed(w) && k < |p.lines|
    ensures KeepsStack(s, r)
    decreases depth, |Unopened(w, s.activeStack)|, 0, 0
  {
    var t := Emit(s, "", Loc(k + 1, p.file));
    match ParseInclude(Rest(p.lines[k]))
    case None => Some(t)
    case Some((once, path)) =>
      match FindInclude(w, p.dir, path)
      case None => Some(t)
      case Some(file) =>
        if (once && file in s.everIncluded) || file in s.activeStack then Some(t)
        else
          match w.read(file)
          case None => Some(t)
          case Some(source) =>
            FoundIsFile(w, p.dir, path);
            FewerUnopened(w, s.activeStack, file);
            match Run(w, Opened(t, file), Place(SplitLines(source), file, w.parent(file)), 0, [], depth)
            case None => None
            case Some(u) => Some(u.(activeStack := s.activeStack))
  }

  function Opened(s: State, file: string): State {
    s.(everIncluded := s.everIncluded + {file}, activeStack := s.activeStack + [file])
  }

  function BlockEffect(w: World, s: State, p: Place, k: nat, body: string, depth: nat): (r: Option<State>)
    requires Closed(w)
    ensures KeepsStack(s, r)
    decreases depth, |Unopened(w, s.activeStack)|, 0, 0
  {
    if depth == 0 then None
    else
      match Run(w, s.(out := [], lineMap := []), Place(SplitLines(body), p.file, p.dir), 0, [], depth - 1)
      case None => None
      case Some(nested) => Some(Attribute(s, nested, Loc(k + 1, p.file)))
  }

  /** The structure errors that a run reports, in all the files and block macros
      that it expands. */
  ghost function RunFaults(w: World, s: State, p: Place, k: nat, ifs: seq<IfFrame>, depth: nat): nat
    requires Closed(w) && k <= |p.lines|
    decreases depth, |Unopened(w, s.activeStack)|, |p.lines| - k, 1
  {
    if k == |p.lines| then if ifs == [] then 0 else 1
    else
      var t := LineEffect(w, s, p, k, ActiveNow(ifs), depth);
      var next := NextIfs(s.macros, ifs, p.lines[k], Loc(k + 1, p.file));
      LineFaults(p.lines, k, ifs) + InnerFaults(w, s, p, k, ActiveNow(ifs), depth)
      + if t.None? then 0 else RunFaults(w, t.value, p, NextLine(p, k), next, depth)
  }

  /** Those in the file that a line includes, or the block macro that it calls. */
  ghost function InnerFaults(w: World, s: State, p: Place, k: nat, active: bool, depth: nat): nat
    requires Closed(w) && k < |p.lines|
    decreases depth, |Unopened(w, s.activeStack)|, |p.lines| - k, 0
  {
    var inner := Opens(w, s, p, k, active);
    if inner.Some? then
      OpensFile(w, s, p, k, active);
      RunFaults(w, Opened(Emit(s, "", Loc(k + 1, p.file)), inner.value.file), inner.value, 0, [], depth)
    else
      var body := Calls(s.macros, p, k, active);
      if body.None? || depth == 0 then 0
      else RunFaults(w, s.(out := [], lineMap := []), Place(SplitLines(body.value), p.file, p.dir), 0, [], depth - 1)
  }

  /** The file that a line opens, if it is a kept `#include` of one that can be
      read, is not open already, and is not included for the second time by `once`. */
  function Opens(w: World, s: State, p: Place, k: nat, active: bool): Option<Place>
    requires k < |p.lines|
  {
    if !active || Keyword(p.lines[k]) != "include" then None
    else
      match ParseInclude(Rest(p.lines[k]))
      case None => None
      case Some((once, path)) =>
        match FindInclude(w, p.dir, path)
        case None => None
        case Some(file) =>
          if (once && file in s.everIncluded) || file in s.activeStack || w.read(file).None? then None
          else Some(Place(SplitLines(w.read(file).value), file, w.parent(file)))
  }

  /** The body of the block macro that a kept line calls. */
  function Calls(m: Macros, p: Place, k: nat, active: bool): Option<string>
    requires k < |p.lines|
  {
    if !active || IsDirective(p.lines[k]) then None
    else
      var use := BlockUseOf(m, TrimLeft(p.lines[k]));
      if use.BlockCall? then Some(use.body) else None
  }

  lemma OpensFile(w: World, s: State, p: Place, k: nat, active: bool)
    requires Closed(w) && k < |p.lines|
    ensures
      var inner := Opens(w, s, p, k, active);
      inner.Some? ==>
        && inner.value.file in w.files && inner.value.file !in s.activeStack
        && |Unopened(w, s.activeStack + [inner.value.file])| < |Unopened(w, s.activeStack)|
  {
    var inner := Opens(w, s, p, k, active);
    if inner.Some? {
      FoundIsFile(w, p.dir, ParseInclude(Rest(p.lines[k])).value.1);
      FewerUnopened(w, s.activeStack, inner.value.file);
    }
  }

  lemma DirectivesHaveKeywords(raw: string)
    ensures Keyword(raw) != "" ==> IsDirective(raw)
  {
  }

  lemma NothingInside(w: World, s: State, p: Place, k: nat, active: bool, depth: nat)
    requires Closed(w) && k < |p.lines|
    requires Opens(w, s, p, k, active).None? && Calls(s.macros, p, k, active).None?
    ensures InnerFaults(w, s, p, k, active, depth) == 0
  {
  }

  lemma BlockInside(w: World, s: State, p: Place, k: nat, body: string, depth: nat)
    requires Closed(w) && k < |p.lines| && Calls(s.macros, p, k, true) == Some(body) && depth > 0
    ensures InnerFaults(w, s, p, k, true, depth)
         == RunFaults(w, s.(out := [], lineMap := []), Place(SplitLines(body), p.file, p.dir), 0, [], depth - 1)
  {
    hide RunFaults, BlockUseOf, SplitLines, TrimLeft;
    assert !IsDirective(p.lines[k]);
    assert Opens(w, s, p, k, true).None?;
  }

  lemma FileInside(w: World, s: State, p: Place, k: nat, inner: Place, depth: nat)
    requires Closed(w) && k < |p.lines| && Opens(w, s, p, k, true) == Some(inner)
    ensures InnerFaults(w, s, p, k, true, depth)
         == RunFaults(w, Opened(Emit(s, "", Loc(k + 1, p.file)), inner.file), inner, 0, [], depth)
  {
    hide RunFaults;
  }

  lemma RunFaultsStep(w: World, s: State, p: Place, k: nat, ifs: seq<IfFrame>, depth: nat)
    requires Closed(w) && k < |p.lines|
    ensures
      var t := LineEffect(w, s, p, k, ActiveNow(ifs), depth);
      var next := NextIfs(s.macros, ifs, p.lines[k], Loc(k + 1, p.file));
      RunFaults(w, s, p, k, ifs, depth) ==
        LineFaults(p.lines, k, ifs) + InnerFaults(w, s, p, k, ActiveNow(ifs), depth)
        + if t.None? then 0 else RunFaults(w, t.value, p, NextLine(p, k), next, depth)
  {
    hide LineEffect, NextIfs, ActiveNow, LineFaults, InnerFaults;
  }

  lemma FaultsEnd(w: World, s: State, p: Place, ifs: seq<IfFrame>, depth: nat)
    requires Closed(w)
    ensures RunFaults(w, s, p, |p.lines|, ifs, depth) == if ifs == [] then 0 else 1
  {
  }

  lemma RunStep(w: World, s: State, p: Place, k: nat, ifs: seq<IfFrame>, depth: nat)
    requires Closed(w) && k < |p.lines|
    ensures
      var t := LineEffect(w, s, p, k, ActiveNow(ifs), depth);
      var next := NextIfs(s.macros, ifs, p.lines[k], Loc(k + 1, p.file));
      Run(w, s, p, k, ifs, depth) == if t.None? then None else Run(w, t.value, p, NextLine(p, k), next, depth)
  {
    hide LineEffect, NextIfs, ActiveNow;
  }

  lemma RunEnds(w: World, s: State, p: Place, ifs: seq<IfFrame>, depth: nat)
    requires Closed(w)
    ensures Run(w, s, p, |p.lines|, ifs, depth) == Some(s)
  {
  }

  /* ----- the expander ----- */

  /** Where expanded lines and their locations go. */
  class Output {
    var text: seq<string>
    var lineMap: seq<Loc>

    constructor ()
      ensures text == [] && lineMap == []
    {
      text, lineMap := [], [];
    }

    method Line(piece: string, loc: Loc)
      modifies this
      ensures text == old(text) + [piece] && lineMap == old(lineMap) + [loc]
    {
      text, lineMap := text + [piece], lineMap + [loc];
    }
  }

  class SourceExpander {
    const w: World
    var macros: Macros
    var everIncluded: set<string>
    var activeStack: seq<string>
    var faults: nat

    constructor (w: World, macros: Macros)
      ensures this.w == w && this.macros == macros && everIncluded == {} && activeStack == [] && faults == 0
    {
      this.w, this.macros, everIncluded, activeStack, faults := w, macros, {}, [], 0;
    }

    ghost function Now(sink: Output): State
      reads this, sink
    {
      State(macros, everIncluded, activeStack, sink.text, sink.lineMap)
    }

    ghost predicate Did(ok: bool, want: Option<State>, sink: Output)
      reads this, sink
    {
      ok == want.Some? && (ok ==> Now(sink) == want.value)
    }

    method ExpandSource(source: string, file: string, dir: string, sink: Output, depth: nat) returns (ok: bool)
      requires Closed(w)
      modifies this, sink
      ensures
        var p := Place(SplitLines(source), file, dir);
        && Did(ok, Run(w, old(Now(sink)), p, 0, [], depth), sink)
        && (ok ==> faults == old(faults) + RunFaults(w, old(Now(sink)), p, 0, [], depth))
      decreases depth, |Unopened(w, activeStack)|, 2
    {
      hide Run, LineEffect, NextIfs, ActiveNow, Closed, SplitLines, RunFaults, InnerFaults, IfFaults, MacroFaults;
      var p := Place(SplitLines(source), file, dir);
      var ifs: seq<IfFrame> := [];
      var k := 0;
      while k < |p.lines|
        invariant k <= |p.lines| && activeStack == old(activeStack)
        invariant Run(w, Now(sink), p, k, ifs, depth) == Run(w, old(Now(sink)), p, 0, [], depth)
        invariant faults + RunFaults(w, Now(sink), p, k, ifs, depth)
               == old(faults) + RunFaults(w, old(Now(sink)), p, 0, [], depth)
      {
        RunStep(w, Now(sink), p, k, ifs, depth);
        RunFaultsStep(w, Now(sink), p, k, ifs, depth);
        var next := UpdateIfStack(ifs, p.lines[k], Loc(k + 1, file));
        var active := AllActive(ifs);
        ok := ExpandLine(p, k, active, sink, depth);
        if !ok { return; }
        var after := SkipMacro(p, k);
        k, ifs := after, next;
      }
      RunEnds(w, Now(sink), p, ifs, depth);
      FaultsEnd(w, Now(sink), p, ifs, depth);
      if ifs != [] { faults := faults + 1; }
      return true;
    }

    method AllActive(ifs: seq<IfFrame>) returns (active: bool)
      ensures active <==> ActiveNow(ifs)
    {
      for i := 0 to |ifs|
        invariant forall j :: 0 <= j < i ==> ifs[j].active
      {
        if !ifs[i].active { return false; }
      }
      return true;
    }

    method UpdateIfStack(ifs: seq<IfFrame>, raw: string, loc: Loc) returns (next: seq<IfFrame>)
      modifies this`faults
      ensures next == NextIfs(macros, ifs, raw, loc)
      ensures faults == old(faults) + IfFaults(ifs, Keyword(raw))
    {
      hide Holds, Keyword;
      var kw := Keyword(raw);
      next := ifs;
      if OpensIf(kw) {
        var cond := EvalCondition(raw, loc);
        next := ifs + [IfFrame(cond, cond, false)];
      } else if ElseIfs(kw) {
        var cond := EvalCondition(raw, loc);
        if ifs == [] {
          faults := faults + 1;
        } else {
          var f := ifs[|ifs| - 1];
          if f.sawElse {
            faults := faults + 1;
            return;
          } else if f.anyTaken {
            f := f.(active := false);
          } else {
            f := f.(active := cond, anyTaken := cond);
          }
          next := ifs[|ifs| - 1 := f];
        }
      } else if kw == "else" {
        if ifs == [] {
          faults := faults + 1;
        } else {
          var f := ifs[|ifs| - 1];
          if f.sawElse { faults := faults + 1; }
          next := ifs[|ifs| - 1 := IfFrame(!f.anyTaken, true, true)];
        }
      } else if kw == "endif" {
        if ifs == [] { faults := faults + 1; } else { next := ifs[..|ifs| - 1]; }
      }
    }

    method EvalCondition(raw: string, loc: Loc) returns (cond: bool)
      ensures cond == Holds(macros, raw, loc)
    {
      hide Expand, PpExpr.Eval, PpExpr.Scan, Resolved, Keyword, Rest;
      var (kw, name) := (Keyword(raw), FirstToken(Rest(raw)).0);
      if kw == "ifdef" || kw == "elseifdef" { return name in macros; }
      if kw == "ifndef" || kw == "elseifndef" { return name !in macros; }
      var text := ResolveDefinedCalls(Rest(raw));
      var e := new Expander(macros);
      text := e.ExpandText(text, loc);
      var toks := PpExpr.Tokenize(text);
      var parser := new PpExpr.Parser(toks);
      var value := parser.Parse();
      return value.Some? && value.value != 0;
    }

    method ResolveDefinedCalls(t: string) returns (out: string)
      ensures out == Resolved(t, 0, macros)
    {
      out := "";
      var i := 0;
      while i < |t|
        invariant i <= |t| && out + Resolved(t, i, macros) == Resolved(t, 0, macros)
      {
        hide Resolved;
        var step := NextDefined(t, i);
        ResolvedStep(t, i, macros, step, out);
        out, i := out + step.text, step.next;
      }
    }

    method NextDefined(t: string, i: nat) returns (step: Step)
      requires i < |t|
      ensures step == DefinedStep(t, i, macros)
    {
      hide QuoteEnd, WordEnd, BlanksEnd, ClosingParen, Trim;
      if t[i] == '"' {
        var end := SkipQuoted(t, i + 1);
        return Step(t[i..end], end);
      }
      if !StartsWord(t, i) { return Step([t[i]], i + 1); }
      var j := SkipWord(t, i);
      var open := SkipBlanks(t, j);
      if t[i..j] == "defined" && open < |t| && t[open] == '(' {
        var close := FindMatchingParen(t, open);
        if close.Some? {
          OpenIsNotClosing(t, open);
          return Step(if Trim(t[open + 1..close.value]) in macros then "1" else "0", close.value + 1);
        }
      }
      return Step(t[i..j], j);
    }

    /** The index after a line, or after the whole definition that it starts. */
    method SkipMacro(p: Place, k: nat) returns (next: nat)
      requires k < |p.lines|
      ensures next == NextLine(p, k)
    {
      next := k + 1;
      if Keyword(p.lines[k]) == "macro" {
        while next < |p.lines| && !EndsMacro(p.lines[next])
          invariant k < next <= |p.lines| && MacroEnd(p.lines, next) == MacroEnd(p.lines, k + 1)
        {
          next := next + 1;
        }
        if next < |p.lines| { next := next + 1; }
      }
    }

    method EmitBlanks(p: Place, k: nat, sink: Output)
      requires k < |p.lines|
      modifies sink
      ensures Now(sink) == SkipLine(old(Now(sink)), p, k)
    {
      var next := SkipMacro(p, k);
      var i := k;
      while i < next
        invariant k <= i <= next && Blanks(Now(sink), p.file, i, next) == Blanks(old(Now(sink)), p.file, k, next)
      {
        sink.Line("", Loc(i + 1, p.file));
        i := i + 1;
      }
    }

    method ExpandLine(p: Place, k: nat, active: bool, sink: Output, depth: nat) returns (ok: bool)
      requires Closed(w) && k < |p.lines|
      modifies this, sink
      ensures Did(ok, LineEffect(w, old(Now(sink)), p, k, active, depth), sink)
      ensures ok ==>
                faults == old(faults) + MacroFaults(p.lines, k) + InnerFaults(w, old(Now(sink)), p, k, active, depth)
      decreases depth, |Unopened(w, activeStack)|, 1
    {
      hide IncludeEffect, BlockEffect, Closed, SkipLine, Expand, BlockUseOf, DefineBlock, Define, Keyword, Rest;
      hide RunFaults, Run, ParseInclude, FindInclude, SplitLines, InnerFaults, IsDirective;
      var (raw, loc) := (p.lines[k], Loc(k + 1, p.file));
      var kw := Keyword(raw);
      ghost var before := Now(sink);
      DirectivesHaveKeywords(raw);
      if Opens(w, before, p, k, active).None? && Calls(before.macros, p, k, active).None? {
        NothingInside(w, before, p, k, active, depth);
      }
      if kw == "endmacro" || (kw == "macro" && MacroEnd(p.lines, k + 1) == |p.lines|) { faults := faults + 1; }
      if !active || IsConditional(kw) {
        EmitBlanks(p, k, sink);
        return true;
      }
      if kw == "include" {
        ok := HandleInclude(p, k, sink, depth);
        return;
      }
      if kw == "macro" {
        EmitBlanks(p, k, sink);
        macros := DefineBlock(macros, p.lines, k);
        return true;
      }
      if IsDirective(raw) {
        if kw == "define" {
          macros := Define(macros, Rest(raw));
        } else if kw == "undef" {
          macros := macros - {FirstToken(Rest(raw)).0};
        }
        sink.Line("", loc);
        return true;
      }
      var use := BlockUseOf(macros, TrimLeft(raw));
      match use
      case NotBlock =>
        var e := new Expander(macros);
        var text := e.ExpandText(raw, loc);
        sink.Line(text, loc);
        return true;
      case BadArguments =>
        sink.Line("", loc);
        return true;
      case BlockCall(body) =>
        ok := ExpandBlock(p, k, body, sink, depth);
    }

    method IsOpen(file: string) returns (open: bool)
      ensures open <==> file in activeStack
    {
      for i := 0 to |activeStack|
        invariant file !in activeStack[..i]
      {
        if activeStack[i] == file { return true; }
      }
      return false;
    }

    method Find(dir: string, path: string) returns (file: Option<string>)
      ensures file == FindInclude(w, dir, path)
    {
      file := w.canonical(dir, path);
      if file.None? && !w.isAbsolute(path) {
        for i := 0 to |w.includeDirs|
          invariant file.None? && SearchDirs(w, w.includeDirs[i..], path) == SearchDirs(w, w.includeDirs, path)
        {
          file := w.canonical(w.includeDirs[i], path);
          if file.Some? { return; }
        }
      }
    }

    method HandleInclude(p: Place, k: nat, sink: Output, depth: nat) returns (ok: bool)
      requires Closed(w) && k < |p.lines| && Keyword(p.lines[k]) == "include"
      modifies this, sink
      ensures Did(ok, IncludeEffect(w, old(Now(sink)), p, k, depth), sink)
      ensures ok ==> faults == old(faults) + InnerFaults(w, old(Now(sink)), p, k, true, depth)
      decreases depth, |Unopened(w, activeStack)|, 0
    {
      hide Run, Closed, ParseInclude, FindInclude, SplitLines, Rest, RunFaults, Keyword, InnerFaults, IsDirective;
      DirectivesHaveKeywords(p.lines[k]);
      ghost var before := Now(sink);
      ghost var inner := Opens(w, before, p, k, true);
      if inner.None? {
        NothingInside(w, before, p, k, true, depth);
      } else {
        FileInside(w, before, p, k, inner.value, depth);
      }
      sink.Line("", Loc(k + 1, p.file));
      var request := ParseInclude(Rest(p.lines[k]));
      if request.None? { return true; }
      var file := Find(p.dir, request.value.1);
      if file.None? { return true; }
      if request.value.0 && file.value in everIncluded { return true; }
      var open := IsOpen(file.value);
      if open { return true; }
      var source := w.read(file.value);
      if source.None? { return true; }
      FoundIsFile(w, p.dir, request.value.1);
      FewerUnopened(w, activeStack, file.value);
      everIncluded := everIncluded + {file.value};
      activeStack := activeStack + [file.value];
      ok := ExpandSource(source.value, file.value, w.parent(file.value), sink, depth);
      if ok { activeStack := activeStack[..|activeStack| - 1]; }
    }

    method ExpandBlock(p: Place, k: nat, body: string, sink: Output, depth: nat) returns (ok: bool)
      requires Closed(w) && k < |p.lines| && Calls(macros, p, k, true) == Some(body)
      modifies this, sink
      ensures Did(ok, BlockEffect(w, old(Now(sink)), p, k, body, depth), sink)
      ensures ok ==> faults == old(faults) + InnerFaults(w, old(Now(sink)), p, k, true, depth)
      decreases depth, |Unopened(w, activeStack)|, 0
    {
      hide Run, Closed, BlockLines, SplitLines, RunFaults, BlockUseOf, InnerFaults;
      if depth == 0 { return false; }
      BlockInside(w, Now(sink), p, k, body, depth);
      var nested := new Output();
      ok := ExpandSource(body, p.file, p.dir, nested, depth - 1);
      if !ok { return; }
      ghost var done, counted := Now(nested), faults;
      var lines := BlockLines(nested.text);
      for i := 0 to |lines|
        invariant Now(nested) == done && faults == counted
        invariant sink.text == old(sink.text) + lines[..i]
        invariant sink.lineMap == old(sink.lineMap) + Repeat(Loc(k + 1, p.file), i)
      {
        sink.Line(lines[i], Loc(k + 1, p.file));
      }
      assert lines[..|lines|] == lines;
    }
  }
}
