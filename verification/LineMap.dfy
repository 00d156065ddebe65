/** Where every line of the output comes from, and when output and line map agree. */
module LineMap {
  import opened Options
  import opened MacroText
  import opened MacroExpansion
  import opened Preprocessor

  /* ----- the lines that an expansion visits ----- */

  /** A visit to a line: the place and the line, the conditionals that are open,
      and the tables in force there.  What has been written so far is left out. */
  datatype Visit = Visit(p: Place, k: nat, ifs: seq<IfFrame>, s: State)

  predicate IsVisit(v: Visit) { v.k < |v.p.lines| && v.s.out == [] && v.s.lineMap == [] }

  function Bare(s: State): State { s.(out := [], lineMap := []) }

  function LocOf(v: Visit): Loc { Loc(v.k + 1, v.p.file) }

  function RawOf(v: Visit): string
    requires IsVisit(v)
  {
    v.p.lines[v.k]
  }

  /** An ordinary line that is kept, and is not the call of a block macro. */
  predicate IsOrdinary(v: Visit)
    requires IsVisit(v)
  {
    ActiveNow(v.ifs) && !IsDirective(RawOf(v)) && BlockUseOf(v.s.macros, TrimLeft(RawOf(v))).NotBlock?
  }

  /** A piece of output, and the line that it is attributed to. */
  datatype Piece = Piece(loc: Loc, text: string)

  function BlankPieces(file: string, from: nat, to: nat): seq<Piece>
    requires from <= to
  {
    seq(to - from, i requires 0 <= i < to - from => Piece(Loc(from + i + 1, file), ""))
  }

  function PiecesAt(loc: Loc, texts: seq<string>): seq<Piece> {
    seq(|texts|, i requires 0 <= i < |texts| => Piece(loc, texts[i]))
  }

  /** The lines that the block macro called by a line expands to. */
  ghost function CalledLines(w: World, v: Visit, body: string, depth: nat): seq<string>
    requires Closed(w)
  {
    if depth == 0 then []
    else
      var r := Run(w, v.s, Place(SplitLines(body), v.p.file, v.p.dir), 0, [], depth - 1);
      if r.None? then [] else BlockLines(r.value.out)
  }

  /** What a visited line itself writes: a blank for each line of a directive, of a
      definition or of a branch that is not kept, and for a call with bad arguments;
      the lines of a block macro; or the expansion of the line in the table in force. */
  ghost function Rendered(w: World, v: Visit, depth: nat): seq<Piece>
    requires Closed(w) && IsVisit(v)
  {
    var (raw, loc) := (RawOf(v), LocOf(v));
    var kw := Keyword(raw);
    if !ActiveNow(v.ifs) || IsConditional(kw) || kw == "macro" then BlankPieces(v.p.file, v.k, NextLine(v.p, v.k))
    else if IsDirective(raw) then [Piece(loc, "")]
    else
      match BlockUseOf(v.s.macros, TrimLeft(raw))
      case NotBlock => [Piece(loc, Expanded(v.s.macros, raw, loc))]
      case BadArguments => [Piece(loc, "")]
      case BlockCall(body) => PiecesAt(loc, CalledLines(w, v, body, depth))
  }

  /** The tables after a line that opens no file. */
  ghost function After(w: World, v: Visit, depth: nat): State
    requires Closed(w) && IsVisit(v)
  {
    var t := LineEffect(w, v.s, v.p, v.k, ActiveNow(v.ifs), depth);
    if t.None? then v.s else Bare(t.value)
  }

  /** The visits of a file from line `k` on, in the order in which they are made:
      each line in turn; after a line that opens a file the visits of that file;
      and each time the tables and the conditionals that the line leaves behind. */
  ghost predicate Traces(w: World, v: seq<Visit>, p: Place, k: nat, ifs: seq<IfFrame>, s: State, t: State, depth: nat)
    requires Closed(w) && k <= |p.lines|
    decreases |v|, 1
  {
    if k == |p.lines| then v == [] && t == s
    else
      && v != [] && v[0] == Visit(p, k, ifs, s) && IsVisit(v[0])
      && exists n: int, u: State :: 1 <= n <= |v| && GoesOn(w, v, n, u, t, depth)
  }

  /** After its first line a trace goes on with `n - 1` visits in the file that the
      line opens, leaving tables `u`, and then with the next line. */
  ghost predicate GoesOn(w: World, v: seq<Visit>, n: int, u: State, t: State, depth: nat)
    requires Closed(w) && v != [] && IsVisit(v[0]) && 1 <= n <= |v|
    decreases |v|, 0
  {
    var (p, k, s) := (v[0].p, v[0].k, v[0].s);
    var inner := Opens(w, s, p, k, ActiveNow(v[0].ifs));
    && (if inner.Some? then
          exists mid: State :: Traces(w, v[1..n], inner.value, 0, [], Opened(s, inner.value.file), mid, depth)
                               && u == mid.(activeStack := s.activeStack)
        else n == 1 && u == After(w, v[0], depth))
    && Traces(w, v[n..], p, NextLine(p, k), NextIfs(s.macros, v[0].ifs, p.lines[k], LocOf(v[0])), u, t, depth)
  }

  predicate AllVisits(v: seq<Visit>) { forall i :: 0 <= i < |v| ==> IsVisit(v[i]) }

  /** All that the visited lines write. */
  ghost function AllPieces(w: World, v: seq<Visit>, depth: nat): seq<Piece>
    requires Closed(w) && AllVisits(v)
  {
    if v == [] then [] else Rendered(w, v[0], depth) + AllPieces(w, v[1..], depth)
  }

  function Texts(ps: seq<Piece>): seq<string> { seq(|ps|, i requires 0 <= i < |ps| => ps[i].text) }

  function Locs(ps: seq<Piece>): seq<Loc> { seq(|ps|, i requires 0 <= i < |ps| => ps[i].loc) }

  ghost predicate Writes(s: State, t: State, ps: seq<Piece>) {
    t.out == s.out + Texts(ps) && t.lineMap == s.lineMap + Locs(ps)
  }

  lemma WritesBoth(s: State, t: State, u: State, a: seq<Piece>, b: seq<Piece>)
    requires Writes(s, t, a) && Writes(t, u, b)
    ensures Writes(s, u, a + b)
  {
    assert Texts(a + b) == Texts(a) + Texts(b) && Locs(a + b) == Locs(a) + Locs(b);
  }

  lemma {:induction false} PiecesOfBoth(w: World, a: seq<Visit>, b: seq<Visit>, depth: nat)
    requires Closed(w) && AllVisits(a) && AllVisits(b)
    ensures AllVisits(a + b) && AllPieces(w, a + b, depth) == AllPieces(w, a, depth) + AllPieces(w, b, depth)
  {
    hide Rendered;
    if a == [] {
      assert a + b == b;
    } else {
      assert (a + b)[1..] == a[1..] + b;
      PiecesOfBoth(w, a[1..], b, depth);
    }
  }

  lemma {:induction false} BlanksWrite(s: State, file: string, from: nat, to: nat)
    requires from <= to
    ensures Writes(s, Blanks(s, file, from, to), BlankPieces(file, from, to))
    ensures Bare(Blanks(s, file, from, to)) == Bare(s)
    decreases if from < to then to - from else 0
  {
    if from < to {
      var t := Emit(s, "", Loc(from + 1, file));
      BlanksWrite(t, file, from + 1, to);
      assert Writes(s, t, [Piece(Loc(from + 1, file), "")]);
      assert BlankPieces(file, from, to) == [Piece(Loc(from + 1, file), "")] + BlankPieces(file, from + 1, to);
      WritesBoth(s, t, Blanks(s, file, from, to), [Piece(Loc(from + 1, file), "")], BlankPieces(file, from + 1, to));
    } else {
      assert Texts(BlankPieces(file, from, to)) == [] && Locs(BlankPieces(file, from, to)) == [];
    }
  }

  lemma EmitWrites(s: State, text: string, loc: Loc)
    ensures Writes(s, Emit(s, text, loc), [Piece(loc, text)]) && Bare(Emit(s, text, loc)) == Bare(s)
  {
    assert Texts([Piece(loc, text)]) == [text] && Locs([Piece(loc, text)]) == [loc];
  }

  /** A line that opens no file writes what is rendered of it. */
  lemma LineWrites(w: World, s: State, p: Place, k: nat, ifs: seq<IfFrame>, depth: nat)
    requires Closed(w) && k < |p.lines| && Opens(w, s, p, k, ActiveNow(ifs)).None?
    requires LineEffect(w, s, p, k, ActiveNow(ifs), depth).Some?
    ensures
      var (t, v) := (LineEffect(w, s, p, k, ActiveNow(ifs), depth).value, Visit(p, k, ifs, Bare(s)));
      Writes(s, t, Rendered(w, v, depth)) && Bare(t) == After(w, v, depth)
  {
    hide BlockUseOf, Keyword, Expanded, Closed, DefineBlock, Define, ActiveNow, NextLine, ParseInclude;
    hide IncludeEffect, BlockEffect, Blanks, FindInclude;
    var (raw, loc) := (p.lines[k], Loc(k + 1, p.file));
    var v := Visit(p, k, ifs, Bare(s));
    DirectivesHaveKeywords(raw);
    PlainKeyword(raw);
    BlanksWrite(s, p.file, k, NextLine(p, k));
    BlanksWrite(Bare(s), p.file, k, NextLine(p, k));
    EmitWrites(s, "", loc);
    EmitWrites(s, Expanded(s.macros, raw, loc), loc);
    ClosedInclude(w, s, p, k, ActiveNow(ifs), depth);
    ClosedInclude(w, Bare(s), p, k, ActiveNow(ifs), depth);
    var use := BlockUseOf(s.macros, TrimLeft(raw));
    if ActiveNow(ifs) && !IsDirective(raw) && use.BlockCall? { BlockWrites(w, s, p, k, ifs, use.body, depth); }
  }

  lemma ClosedInclude(w: World, s: State, p: Place, k: nat, active: bool, depth: nat)
    requires Closed(w) && k < |p.lines| && Opens(w, s, p, k, active).None?
    ensures Opens(w, Bare(s), p, k, active).None?
    ensures active && Keyword(p.lines[k]) == "include" ==>
              IncludeEffect(w, s, p, k, depth) == Some(Emit(s, "", Loc(k + 1, p.file)))
  {
    hide Run, Closed, Keyword, ParseInclude, FindInclude, SplitLines;
  }

  lemma BlockWrites(w: World, s: State, p: Place, k: nat, ifs: seq<IfFrame>, body: string, depth: nat)
    requires Closed(w) && k < |p.lines| && BlockEffect(w, s, p, k, body, depth).Some?
    ensures
      var (t, v) := (BlockEffect(w, s, p, k, body, depth).value, Visit(p, k, ifs, Bare(s)));
      && Writes(s, t, PiecesAt(Loc(k + 1, p.file), CalledLines(w, v, body, depth)))
      && BlockEffect(w, Bare(s), p, k, body, depth).Some?
      && Bare(t) == Bare(BlockEffect(w, Bare(s), p, k, body, depth).value)
  {
    hide Run, Closed, BlockLines, SplitLines;
    var v := Visit(p, k, ifs, Bare(s));
    var texts := CalledLines(w, v, body, depth);
    var ps := PiecesAt(Loc(k + 1, p.file), texts);
    assert Texts(ps) == texts && Locs(ps) == Repeat(Loc(k + 1, p.file), |texts|);
  }

  /** Main lemma: a finished run has a trace, and has written exactly what is
      rendered of the visited lines, in order, each piece attributed to its line. */
  lemma {:induction false} RunTraces(w: World, s: State, p: Place, k: nat, ifs: seq<IfFrame>, depth: nat)
    returns (v: seq<Visit>)
    requires Closed(w) && k <= |p.lines| && Run(w, s, p, k, ifs, depth).Some?
    ensures AllVisits(v) && Traces(w, v, p, k, ifs, Bare(s), Bare(Run(w, s, p, k, ifs, depth).value), depth)
    ensures Writes(s, Run(w, s, p, k, ifs, depth).value, AllPieces(w, v, depth))
    decreases depth, |Unopened(w, s.activeStack)|, |p.lines| - k
  {
    hide Run, LineEffect, Closed, NextIfs, ActiveNow, NextLine, Rendered, Opens;
    if k == |p.lines| {
      RunEnds(w, s, p, ifs, depth);
      v := [];
      assert Texts([]) == [] && Locs([]) == [];
    } else {
      RunStep(w, s, p, k, ifs, depth);
      var t := LineEffect(w, s, p, k, ActiveNow(ifs), depth).value;
      var next := NextIfs(s.macros, ifs, p.lines[k], Loc(k + 1, p.file));
      var first := Visit(p, k, ifs, Bare(s));
      var rest := RunTraces(w, t, p, NextLine(p, k), next, depth);
      var r := Run(w, s, p, k, ifs, depth).value;
      BareOpens(w, s, p, k, ActiveNow(ifs));
      var inner := [];
      if Opens(w, s, p, k, ActiveNow(ifs)).Some? {
        inner := FileTraces(w, s, p, k, ifs, depth);
        WritesBoth(s, t, r, AllPieces(w, [first] + inner, depth), AllPieces(w, rest, depth));
      } else {
        LineWrites(w, s, p, k, ifs, depth);
        OnePiece(w, first, depth);
        WritesBoth(s, t, r, AllPieces(w, [first], depth), AllPieces(w, rest, depth));
        assert [first] + inner == [first];
      }
      PiecesOfBoth(w, [first] + inner, rest, depth);
      v := [first] + inner + rest;
      var n := 1 + |inner|;
      assert v[1..n] == inner && v[n..] == rest;
      assert GoesOn(w, v, n, Bare(t), Bare(r), depth);
    }
  }

  lemma OnePiece(w: World, v: Visit, depth: nat)
    requires Closed(w) && IsVisit(v)
    ensures AllPieces(w, [v], depth) == Rendered(w, v, depth)
  {
    hide Rendered;
    assert [v][1..] == [];
  }

  lemma BareOpens(w: World, s: State, p: Place, k: nat, active: bool)
    requires k < |p.lines|
    ensures Opens(w, Bare(s), p, k, active) == Opens(w, s, p, k, active)
  {
    hide ParseInclude, FindInclude, SplitLines;
  }

  /** A line that opens a file: the visits of that file. */
  lemma {:induction false} FileTraces(w: World, s: State, p: Place, k: nat, ifs: seq<IfFrame>, depth: nat)
    returns (inner: seq<Visit>)
    requires Closed(w) && k < |p.lines| && Opens(w, s, p, k, ActiveNow(ifs)).Some?
    requires LineEffect(w, s, p, k, ActiveNow(ifs), depth).Some?
    ensures
      var (q, first) := (Opens(w, s, p, k, ActiveNow(ifs)).value, Visit(p, k, ifs, Bare(s)));
      var t := LineEffect(w, s, p, k, ActiveNow(ifs), depth).value;
      && AllVisits([first] + inner) && Writes(s, t, AllPieces(w, [first] + inner, depth))
      && exists mid: State :: Traces(w, inner, q, 0, [], Opened(Bare(s), q.file), mid, depth)
                              && Bare(t) == mid.(activeStack := s.activeStack)
    decreases depth, |Unopened(w, s.activeStack)|, 0
  {
    hide Run, Closed, Rendered, ParseInclude, FindInclude, SplitLines, Traces;
    var q := Opens(w, s, p, k, ActiveNow(ifs)).value;
    var first := Visit(p, k, ifs, Bare(s));
    OpensFile(w, s, p, k, ActiveNow(ifs));
    var e := Emit(s, "", Loc(k + 1, p.file));
    var u := Run(w, Opened(e, q.file), q, 0, [], depth).value;
    inner := RunTraces(w, Opened(e, q.file), q, 0, [], depth);
    EmitWrites(s, "", Loc(k + 1, p.file));
    IncludeIsBlank(w, first, depth);
    OnePiece(w, first, depth);
    PiecesOfBoth(w, [first], inner, depth);
    WritesBoth(s, e, u, AllPieces(w, [first], depth), AllPieces(w, inner, depth));
    assert Bare(Opened(e, q.file)) == Opened(Bare(s), q.file);
  }

  lemma IncludeIsBlank(w: World, v: Visit, depth: nat)
    requires Closed(w) && IsVisit(v) && ActiveNow(v.ifs) && Keyword(RawOf(v)) == "include"
    ensures Rendered(w, v, depth) == [Piece(LocOf(v), "")]
  {
    hide Run, Expanded, BlockUseOf;
  }

  /** Main result: the output and the line map of an expansion are exactly what is
      rendered of the visited lines, piece by piece. */
  lemma ExpansionIsMapped(w: World, s: State, p: Place, depth: nat) returns (v: seq<Visit>)
    requires Closed(w) && s.out == [] && s.lineMap == [] && Run(w, s, p, 0, [], depth).Some?
    ensures
      var r := Run(w, s, p, 0, [], depth).value;
      && AllVisits(v) && Traces(w, v, p, 0, [], s, Bare(r), depth)
      && r.out == Texts(AllPieces(w, v, depth)) && r.lineMap == Locs(AllPieces(w, v, depth))
  {
    hide Run, Closed, Traces;
    v := RunTraces(w, s, p, 0, [], depth);
    var ps := AllPieces(w, v, depth);
    assert [] + Texts(ps) == Texts(ps) && [] + Locs(ps) == Locs(ps);
    assert Bare(s) == s;
  }

  /* ----- newlines and entries ----- */

  function Newlines(s: string): nat {
    if s == "" then 0 else Newlines(s[..|s| - 1]) + if s[|s| - 1] == '\n' then 1 else 0
  }

  lemma {:induction false} NewlinesOfBoth(a: string, b: string)
    ensures Newlines(a + b) == Newlines(a) + Newlines(b)
    decreases |b|
  {
    if b == "" {
      assert a + b == a;
    } else {
      assert (a + b)[..|a + b| - 1] == a + b[..|b| - 1];
      NewlinesOfBoth(a, b[..|b| - 1]);
    }
  }

  lemma {:induction false} NoNewlines(s: string)
    ensures Newlines(s) == 0 <==> OneLine(s)
  {
    if s != "" {
      NoNewlines(s[..|s| - 1]);
      assert s == s[..|s| - 1] + [s[|s| - 1]];
    }
  }

  /** The output has at least one newline for each piece, and no more if and only
      if every piece is a single line. */
  lemma {:induction false} NewlinesOfText(out: seq<string>)
    ensures Newlines(Text(out)) >= |out|
    ensures Newlines(Text(out)) == |out| <==> AllOneLine(out)
  {
    if out != [] {
      var (init, last) := (out[..|out| - 1], out[|out| - 1]);
      NewlinesOfText(init);
      NewlinesOfBoth(Text(init) + last, "\n");
      NewlinesOfBoth(Text(init), last);
      NoNewlines(last);
      assert Newlines("\n") == 1 by { assert "\n"[..0] == ""; }
      assert out == init + [last];
    }
  }

  lemma {:induction false} SplitOneLine(s: string)
    ensures AllOneLine(SplitLines(s))
    decreases |s|
  {
    if s != "" {
      var i := FirstNewline(s);
      if i < |s| { SplitOneLine(s[i + 1..]); }
    }
  }

  /** The lines and names of a place are free of line ends. */
  ghost predicate Clean(p: Place) { AllOneLine(p.lines) && OneLine(p.file) }

  ghost predicate CleanNames(w: World) { forall f :: f in w.files ==> OneLine(f) }

  lemma {:induction false} VisitsAreClean(w: World, v: seq<Visit>, p: Place, k: nat, ifs: seq<IfFrame>, s: State,
                                          t: State, depth: nat)
    requires Closed(w) && CleanNames(w) && Clean(p) && k <= |p.lines| && Traces(w, v, p, k, ifs, s, t, depth)
    ensures AllVisits(v) && forall i :: 0 <= i < |v| ==> Clean(v[i].p)
    decreases |v|
  {
    hide NextIfs, ActiveNow, NextLine, After, Opens, Clean;
    if k < |p.lines| {
      var n, u := TraceGoesOn(w, v, p, k, ifs, s, t, depth);
      var inner := Opens(w, s, p, k, ActiveNow(ifs));
      if inner.Some? {
        var mid: State :| Traces(w, v[1..n], inner.value, 0, [], Opened(s, inner.value.file), mid, depth);
        OpenedIsClean(w, s, p, k, ActiveNow(ifs));
        VisitsAreClean(w, v[1..n], inner.value, 0, [], Opened(s, inner.value.file), mid, depth);
      }
      VisitsAreClean(w, v[n..], p, NextLine(p, k), NextIfs(s.macros, ifs, p.lines[k], LocOf(v[0])), u, t, depth);
      forall i | 0 <= i < |v| ensures IsVisit(v[i]) && Clean(v[i].p) {
        if 0 < i < n { assert v[i] == v[1..n][i - 1]; }
        if n <= i { assert v[i] == v[n..][i - n]; }
      }
    }
  }

  lemma TraceGoesOn(w: World, v: seq<Visit>, p: Place, k: nat, ifs: seq<IfFrame>, s: State, t: State, depth: nat)
    returns (n: int, u: State)
    requires Closed(w) && k < |p.lines| && Traces(w, v, p, k, ifs, s, t, depth)
    ensures v != [] && v[0] == Visit(p, k, ifs, s) && IsVisit(v[0]) && 1 <= n <= |v| && GoesOn(w, v, n, u, t, depth)
  {
    hide GoesOn;
    n, u :| 1 <= n <= |v| && GoesOn(w, v, n, u, t, depth);
  }

  lemma OpenedIsClean(w: World, s: State, p: Place, k: nat, active: bool)
    requires Closed(w) && CleanNames(w) && k < |p.lines| && Opens(w, s, p, k, active).Some?
    ensures Clean(Opens(w, s, p, k, active).value)
  {
    hide ParseInclude, FindInclude, SplitLines;
    OpensFile(w, s, p, k, active);
    var q := Opens(w, s, p, k, active).value;
    SplitOneLine(w.read(q.file).value);
  }

  /** An ordinary line in whose expansion, in the table in force, a macro with a
      body of several lines takes part. */
  ghost predicate CallsBlockInline(v: Visit)
    requires IsVisit(v)
  {
    IsOrdinary(v) && CallsBlock(v.s.macros, [], RawOf(v), 0, LocOf(v))
  }

  /** An ordinary line in whose expansion a macro stands for a text of several
      lines, the first of which leaves no bracket open. */
  ghost predicate BreaksInline(v: Visit)
    requires IsVisit(v)
  {
    IsOrdinary(v) && BreaksLine(v.s.macros, [], RawOf(v), 0, LocOf(v))
  }

  /** An ordinary line whose reading, in the table in force, comes to a line end. */
  ghost predicate ReadsEndInline(v: Visit)
    requires IsVisit(v)
  {
    IsOrdinary(v) && ReadsLineEnd(v.s.macros, [], RawOf(v), 0, LocOf(v))
  }

  /** How the guards relate to that. */
  lemma GuardsOfLine(v: Visit)
    requires IsVisit(v) && Clean(v.p)
    ensures ReadsEndInline(v) ==> CallsBlockInline(v)
    ensures BreaksInline(v) ==> ReadsEndInline(v)
  {
    hide Expand, CallsBlock, BreaksLine, ReadsLineEnd, BlockUseOf;
    var (m, raw, loc) := (v.s.macros, RawOf(v), LocOf(v));
    BreaksExactly(m, [], raw, 0, loc);
    if !CallsBlock(m, [], raw, 0, loc) { LineStaysLine(m, [], raw, 0, loc); }
    if BreaksLine(m, [], raw, 0, loc) { LineBreaks(m, [], raw, 0, loc); }
  }

  /** A visited line writes only single lines unless its reading comes to a line end. */
  lemma PiecesAreLines(w: World, v: Visit, depth: nat)
    requires Closed(w) && IsVisit(v) && Clean(v.p)
    ensures AllOneLine(Texts(Rendered(w, v, depth))) <==> !ReadsEndInline(v)
  {
    if IsOrdinary(v) {
      OrdinaryPieces(w, v, depth);
    } else {
      OtherPieces(w, v, depth);
    }
  }

  lemma OrdinaryPieces(w: World, v: Visit, depth: nat)
    requires Closed(w) && IsVisit(v) && Clean(v.p) && IsOrdinary(v)
    ensures AllOneLine(Texts(Rendered(w, v, depth))) <==> !ReadsEndInline(v)
  {
    hide Expand, ReadsLineEnd, BlockUseOf, Rendered, Texts, AllOneLine;
    BreaksExactly(v.s.macros, [], RawOf(v), 0, LocOf(v));
    OrdinaryPiece(w, v, depth);
    PieceIsLine(LocOf(v), Expanded(v.s.macros, RawOf(v), LocOf(v)));
  }

  lemma PieceIsLine(loc: Loc, text: string)
    ensures AllOneLine(Texts([Piece(loc, text)])) <==> OneLine(text)
  {
    assert Texts([Piece(loc, text)])[0] == text;
  }

  lemma OtherPieces(w: World, v: Visit, depth: nat)
    requires Closed(w) && IsVisit(v) && !IsOrdinary(v)
    ensures AllOneLine(Texts(Rendered(w, v, depth)))
  {
    hide Run, Closed, BlockUseOf, Expanded, NextLine, Keyword, SplitLines, CalledLines, ActiveNow, IsDirective;
    hide Texts, BlankPieces, PiecesAt, AllOneLine;
    PlainKeyword(RawOf(v));
    BlanksAreLines(v.p.file, v.k, NextLine(v.p, v.k));
    PieceIsLine(LocOf(v), "");
    var use := BlockUseOf(v.s.macros, TrimLeft(RawOf(v)));
    if use.BlockCall? {
      CalledAreLines(w, v, use.body, depth);
      TextsAt(LocOf(v), CalledLines(w, v, use.body, depth));
    }
  }

  lemma BlanksAreLines(file: string, from: nat, to: nat)
    requires from <= to
    ensures AllOneLine(Texts(BlankPieces(file, from, to)))
  {
  }

  lemma TextsAt(loc: Loc, texts: seq<string>)
    ensures Texts(PiecesAt(loc, texts)) == texts
  {
  }

  lemma CalledAreLines(w: World, v: Visit, body: string, depth: nat)
    requires Closed(w)
    ensures AllOneLine(CalledLines(w, v, body, depth))
  {
    hide Run, Closed, SplitLines;
    if depth > 0 {
      var r := Run(w, v.s, Place(SplitLines(body), v.p.file, v.p.dir), 0, [], depth - 1);
      if r.Some? { SplitOneLine(Text(r.value.out)); }
    }
  }

  lemma {:induction false} AllPiecesAreLines(w: World, v: seq<Visit>, depth: nat)
    requires Closed(w) && AllVisits(v) && forall i :: 0 <= i < |v| ==> Clean(v[i].p)
    ensures AllOneLine(Texts(AllPieces(w, v, depth))) <==> forall i :: 0 <= i < |v| ==> !ReadsEndInline(v[i])
  {
    hide Rendered, Clean, ReadsEndInline, OneLine;
    if v != [] {
      PiecesAreLines(w, v[0], depth);
      AllPiecesAreLines(w, v[1..], depth);
      var (a, b) := (Rendered(w, v[0], depth), AllPieces(w, v[1..], depth));
      assert Texts(a + b) == Texts(a) + Texts(b);
      BothOneLine(Texts(a), Texts(b));
      FirstAndRest(v);
    }
  }

  lemma BothOneLine(a: seq<string>, b: seq<string>)
    ensures AllOneLine(a + b) <==> AllOneLine(a) && AllOneLine(b)
  {
    assert (a + b)[..|a|] == a && (a + b)[|a|..] == b;
  }

  lemma FirstAndRest(v: seq<Visit>)
    requires v != [] && AllVisits(v)
    ensures (forall i :: 0 <= i < |v| ==> !ReadsEndInline(v[i]))
       <==> !ReadsEndInline(v[0]) && forall i :: 0 <= i < |v[1..]| ==> !ReadsEndInline(v[1..][i])
  {
    hide ReadsEndInline;
    if !ReadsEndInline(v[0]) && forall i :: 0 <= i < |v[1..]| ==> !ReadsEndInline(v[1..][i]) {
      forall i | 0 <= i < |v| ensures !ReadsEndInline(v[i]) {
        if i > 0 { assert v[i] == v[1..][i - 1]; }
      }
    }
  }

  lemma OrdinaryPiece(w: World, v: Visit, depth: nat)
    requires Closed(w) && IsVisit(v) && IsOrdinary(v)
    ensures Rendered(w, v, depth) == [Piece(LocOf(v), Expanded(v.s.macros, RawOf(v), LocOf(v)))]
  {
    hide Expanded, BlockUseOf, Run;
    DirectivesHaveKeywords(RawOf(v));
    PlainKeyword(RawOf(v));
  }

  lemma PlainKeyword(raw: string)
    ensures !IsDirective(raw) ==> Keyword(raw) == ""
  {
  }

  /** Main result: newlines and entries are equal in number if and only if no
      visited ordinary line, read in the table in force there, comes to a line end.
      That is so if none calls a macro with a body of several lines; it is not if
      in some such call the first line of the text leaves no bracket open. */
  lemma OnlyInlineBlocksMisalign(w: World, s: State, p: Place, depth: nat) returns (v: seq<Visit>)
    requires Closed(w) && CleanNames(w) && Clean(p) && s.out == [] && s.lineMap == []
    requires Run(w, s, p, 0, [], depth).Some?
    ensures
      var r := Run(w, s, p, 0, [], depth).value;
      && AllVisits(v) && Traces(w, v, p, 0, [], s, Bare(r), depth)
      && Newlines(Text(r.out)) >= |r.lineMap|
      && (Newlines(Text(r.out)) == |r.lineMap| <==> forall i :: 0 <= i < |v| ==> !ReadsEndInline(v[i]))
      && ((forall i :: 0 <= i < |v| ==> !CallsBlockInline(v[i])) ==> Newlines(Text(r.out)) == |r.lineMap|)
      && ((exists i :: 0 <= i < |v| && BreaksInline(v[i])) ==> Newlines(Text(r.out)) > |r.lineMap|)
  {
    hide Run, Closed, Traces, CallsBlockInline, BreaksInline, ReadsEndInline, Clean;
    v := ExpansionIsMapped(w, s, p, depth);
    var r := Run(w, s, p, 0, [], depth).value;
    NewlinesOfText(r.out);
    VisitsAreClean(w, v, p, 0, [], s, Bare(r), depth);
    AllPiecesAreLines(w, v, depth);
    forall i | 0 <= i < |v|
      ensures (ReadsEndInline(v[i]) ==> CallsBlockInline(v[i])) && (BreaksInline(v[i]) ==> ReadsEndInline(v[i]))
    {
      GuardsOfLine(v[i]);
    }
  }
}
