/** What `#include` brings in: which file, how often, and its lines. */
module Includes {
  import opened Options
  import opened Chars
  import opened MacroText
  import opened MacroBodies
  import opened Preprocessor
  import Directives

  /* ----- which file ----- */

  /** The first of the directories that has a file at the path. */
  predicate IsFirst(w: World, path: string, i: nat) {
    i < |w.includeDirs| && w.canonical(w.includeDirs[i], path).Some?
    && forall j :: 0 <= j < i ==> w.canonical(w.includeDirs[j], path).None?
  }

  lemma {:induction false} SearchIsFirst(w: World, from: nat, path: string)
    requires from <= |w.includeDirs|
    requires forall j :: 0 <= j < from ==> w.canonical(w.includeDirs[j], path).None?
    ensures
      var r := SearchDirs(w, w.includeDirs[from..], path);
      && (r.Some? ==> exists i: nat :: IsFirst(w, path, i) && r == w.canonical(w.includeDirs[i], path))
      && (r.None? ==> forall i :: 0 <= i < |w.includeDirs| ==> w.canonical(w.includeDirs[i], path).None?)
    decreases |w.includeDirs| - from
  {
    var dirs := w.includeDirs[from..];
    if dirs != [] {
      assert dirs[0] == w.includeDirs[from] && dirs[1..] == w.includeDirs[from + 1..];
      if w.canonical(dirs[0], path).Some? {
        assert IsFirst(w, path, from);
      } else {
        SearchIsFirst(w, from + 1, path);
      }
    }
  }

  /** Main result: a path names the file that it names in the directory of the
      including file; failing that, if it is relative, in the first directory of the
      search list where it names one; and else none. */
  lemma FoundExactly(w: World, dir: string, path: string, file: string)
    ensures
      FindInclude(w, dir, path) == Some(file)
      <==> (w.canonical(dir, path) == Some(file)
            || (w.canonical(dir, path).None? && !w.isAbsolute(path)
                && exists i: nat :: IsFirst(w, path, i) && w.canonical(w.includeDirs[i], path) == Some(file)))
  {
    assert w.includeDirs[0..] == w.includeDirs;
    SearchIsFirst(w, 0, path);
    forall i: nat, j: nat | IsFirst(w, path, i) && IsFirst(w, path, j)
      ensures i == j
    {
    }
  }

  /* ----- how often ----- */

  /** The paths that a directive can give. */
  predicate IsPath(path: string) { '"' !in path }

  function Request(once: bool, path: string): string {
    "#include " + (if once then "once " else "") + "\"" + path + "\""
  }

  lemma QuotedPath(path: string)
    requires IsPath(path)
    ensures
      var u := "\"" + path + "\"";
      QuoteEnd(u, 1) == |u| && u[1..|u| - 1] == path
  {
    var u := "\"" + path + "\"";
    forall k | 1 <= k < |u| - 1
      ensures u[k] != '"'
    {
      assert u[k] == path[k - 1];
    }
    QuoteEndsAt(u, 1, |u| - 1);
  }

  lemma RequestParses(once: bool, path: string)
    requires IsPath(path)
    ensures
      var rest := " " + (if once then "once " else "") + "\"" + path + "\"";
      Request(once, path) == "#" + "include" + rest && ParseInclude(rest) == Some((once, path))
  {
    hide ParseInclude;
    var u := "\"" + path + "\"";
    if once {
      AskedOnce(path);
      assert " " + ("once " + u) == " " + "once " + "\"" + path + "\"";
      assert Request(true, path) == "#" + "include" + (" " + ("once " + u));
    } else {
      AskedPlainly(path);
      assert " " + u == " " + "" + "\"" + path + "\"";
      assert Request(false, path) == "#" + "include" + (" " + u);
    }
  }

  lemma AskedPlainly(path: string)
    requires IsPath(path)
    ensures ParseInclude(" " + ("\"" + path + "\"")) == Some((false, path))
  {
    hide QuoteEnd;
    var u := "\"" + path + "\"";
    QuotedPath(path);
    assert (" " + u)[1..] == u && TrimLeft(" " + u) == u;
    assert u[0] == '"' && "once"[0] == 'o';
  }

  lemma AskedOnce(path: string)
    requires IsPath(path)
    ensures ParseInclude(" " + ("once " + ("\"" + path + "\""))) == Some((true, path))
  {
    hide QuoteEnd;
    var u := "\"" + path + "\"";
    var t := "once " + u;
    QuotedPath(path);
    assert (" " + t)[1..] == t && TrimLeft(" " + t) == t;
    assert t[..4] == "once" && t[4..] == " " + u && (" " + u)[1..] == u && TrimLeft(" " + u) == u;
  }

  /** A line that asks for a path does nothing but leave a blank if the path names no
      file that can be read, if that file is open already, or if it is asked for once
      and was included before; otherwise the lines of the file follow the blank. */
  lemma RequestMeans(w: World, s: State, p: Place, k: nat, once: bool, path: string, depth: nat)
    requires Closed(w) && k < |p.lines| && IsPath(path) && p.lines[k] == Request(once, path)
    ensures
      var r := LineEffect(w, s, p, k, true, depth);
      var t := Emit(s, "", Loc(k + 1, p.file));
      var found := FindInclude(w, p.dir, path);
      if found.None? || (once && found.value in s.everIncluded) || found.value in s.activeStack
         || w.read(found.value).None?
      then r == Some(t)
      else
        var lines := SplitLines(w.read(found.value).value);
        var u := t.(everIncluded := s.everIncluded + {found.value}, activeStack := s.activeStack + [found.value]);
        var v := Run(w, u, Place(lines, found.value, w.parent(found.value)), 0, [], depth);
        r == if v.None? then None else Some(v.value.(activeStack := s.activeStack))
  {
    hide Run, ParseInclude, FindInclude, SplitLines, Keyword, Rest, IsDirective, Request;
    var rest := " " + (if once then "once " else "") + "\"" + path + "\"";
    RequestParses(once, path);
    Directives.DirectiveParts(p.lines[k], "include", rest);
  }

  /** Files that were included stay known as included. */
  lemma {:induction false} RunKeepsIncluded(w: World, s: State, p: Place, k: nat, ifs: seq<IfFrame>, depth: nat)
    requires Closed(w) && k <= |p.lines|
    ensures
      var r := Run(w, s, p, k, ifs, depth);
      r.Some? ==> s.everIncluded <= r.value.everIncluded
    decreases depth, |Unopened(w, s.activeStack)|, |p.lines| - k, 1
  {
    hide LineEffect, NextIfs, ActiveNow;
    if k < |p.lines| {
      LineKeepsIncluded(w, s, p, k, ActiveNow(ifs), depth);
      var t := LineEffect(w, s, p, k, ActiveNow(ifs), depth);
      if t.Some? {
        RunKeepsIncluded(w, t.value, p, NextLine(p, k), NextIfs(s.macros, ifs, p.lines[k], Loc(k + 1, p.file)), depth);
      }
    }
  }

  lemma {:induction false} LineKeepsIncluded(w: World, s: State, p: Place, k: nat, active: bool, depth: nat)
    requires Closed(w) && k < |p.lines|
    ensures
      var r := LineEffect(w, s, p, k, active, depth);
      r.Some? ==> s.everIncluded <= r.value.everIncluded
    decreases depth, |Unopened(w, s.activeStack)|, |p.lines| - k, 0
  {
    hide Run, Keyword, IsDirective, BlockUseOf, Expanded, ParseInclude, FindInclude, SplitLines, Define, DefineBlock;
    hide Rest, IncludeEffect, BlockEffect, TrimLeft;
    BlanksKeepState(s, p.file, k, NextLine(p, k));
    var kw := Keyword(p.lines[k]);
    if active && !IsConditional(kw) {
      if kw == "include" {
        IncludeKeepsIncluded(w, s, p, k, depth);
      } else if kw != "macro" && !IsDirective(p.lines[k]) {
        var use := BlockUseOf(s.macros, TrimLeft(p.lines[k]));
        if use.BlockCall? { BlockKeepsIncluded(w, s, p, k, use.body, depth); }
      }
    }
  }

  lemma {:induction false} IncludeKeepsIncluded(w: World, s: State, p: Place, k: nat, depth: nat)
    requires Closed(w) && k < |p.lines|
    ensures
      var r := IncludeEffect(w, s, p, k, depth);
      r.Some? ==> s.everIncluded <= r.value.everIncluded
    decreases depth, |Unopened(w, s.activeStack)|, 0, 0
  {
    hide Run, ParseInclude, FindInclude, SplitLines, Rest;
    var t := Emit(s, "", Loc(k + 1, p.file));
    var request := ParseInclude(Rest(p.lines[k]));
    if request.Some? && FindInclude(w, p.dir, request.value.1).Some? {
      var file := FindInclude(w, p.dir, request.value.1).value;
      if file !in s.activeStack && w.read(file).Some? {
        FoundIsFile(w, p.dir, request.value.1);
        FewerUnopened(w, s.activeStack, file);
        var inner := Place(SplitLines(w.read(file).value), file, w.parent(file));
        RunKeepsIncluded(w, Opened(t, file), inner, 0, [], depth);
      }
    }
  }

  lemma {:induction false} BlockKeepsIncluded(w: World, s: State, p: Place, k: nat, body: string, depth: nat)
    requires Closed(w)
    ensures
      var r := BlockEffect(w, s, p, k, body, depth);
      r.Some? ==> s.everIncluded <= r.value.everIncluded
    decreases depth, |Unopened(w, s.activeStack)|, 0, 0
  {
    hide Run, SplitLines;
    if depth > 0 {
      RunKeepsIncluded(w, s.(out := [], lineMap := []), Place(SplitLines(body), p.file, p.dir), 0, [], depth - 1);
    }
  }

  /** Main result: once a file has been included, a line that asks for it once leaves
      a blank and nothing else, whatever has been expanded in between. */
  lemma OnceIsOnce(w: World, s: State, p: Place, k: nat, ifs: seq<IfFrame>, depth: nat, q: Place, j: nat, path: string)
    requires Closed(w) && k <= |p.lines| && j < |q.lines| && IsPath(path) && q.lines[j] == Request(true, path)
    requires FindInclude(w, q.dir, path).Some? && FindInclude(w, q.dir, path).value in s.everIncluded
    ensures
      var r := Run(w, s, p, k, ifs, depth);
      r.Some? ==> LineEffect(w, r.value, q, j, true, depth) == Some(Emit(r.value, "", Loc(j + 1, q.file)))
  {
    hide Run, LineEffect, FindInclude, Request;
    RunKeepsIncluded(w, s, p, k, ifs, depth);
    var r := Run(w, s, p, k, ifs, depth);
    if r.Some? { RequestMeans(w, r.value, q, j, true, path, depth); }
  }

  /* ----- its lines ----- */

  /** The lines from `k` on, expanded where they stand. */
  function AllExpanded(m: Macros, p: Place, k: nat): seq<string>
    requires k <= |p.lines|
    decreases |p.lines| - k
  {
    if k == |p.lines| then [] else [Expanded(m, p.lines[k], Loc(k + 1, p.file))] + AllExpanded(m, p, k + 1)
  }

  lemma OrdinaryStep(w: World, s: State, p: Place, k: nat, depth: nat)
    requires Closed(w) && k < |p.lines| && Directives.IsOrdinary(s.macros, p.lines[k])
    ensures
      var loc := Loc(k + 1, p.file);
      Run(w, s, p, k, [], depth) == Run(w, Emit(s, Expanded(s.macros, p.lines[k], loc), loc), p, k + 1, [], depth)
  {
    hide LineEffect, Expanded, Directives.IsOrdinary, Keyword;
    Directives.OrdinaryLine(w, s, p, k, depth);
    Directives.OrdinaryKeyword(s.macros, p.lines[k]);
  }

  lemma RunEnds(w: World, s: State, p: Place, depth: nat)
    requires Closed(w)
    ensures Run(w, s, p, |p.lines|, [], depth) == Some(s)
  {
  }

  lemma {:induction false} OrdinaryRuns(w: World, s: State, p: Place, k: nat, depth: nat)
    requires Closed(w) && k <= |p.lines|
    requires forall i :: k <= i < |p.lines| ==> Directives.IsOrdinary(s.macros, p.lines[i])
    ensures
      var r := Run(w, s, p, k, [], depth);
      && r.Some? && r.value.out == s.out + AllExpanded(s.macros, p, k)
      && r.value.(out := s.out, lineMap := s.lineMap) == s
    decreases |p.lines| - k
  {
    hide Expanded, Directives.IsOrdinary, Run;
    if k == |p.lines| {
      RunEnds(w, s, p, depth);
    } else {
      OrdinaryStep(w, s, p, k, depth);
      OrdinaryRuns(w, Emit(s, Expanded(s.macros, p.lines[k], Loc(k + 1, p.file)), Loc(k + 1, p.file)), p, k + 1, depth);
    }
  }

  /** Main result: a file of ordinary lines, included for the first time, follows the
      blank with its lines expanded in the table of the including file. */
  lemma IncludedLines(w: World, s: State, p: Place, k: nat, once: bool, path: string, file: string, depth: nat)
    requires Closed(w) && k < |p.lines| && IsPath(path) && p.lines[k] == Request(once, path)
    requires FindInclude(w, p.dir, path) == Some(file) && w.read(file).Some?
    requires file !in s.activeStack && !(once && file in s.everIncluded)
    requires forall line :: line in SplitLines(w.read(file).value) ==> Directives.IsOrdinary(s.macros, line)
    ensures
      var r := LineEffect(w, s, p, k, true, depth);
      var inner := Place(SplitLines(w.read(file).value), file, w.parent(file));
      && r.Some? && r.value.macros == s.macros && r.value.everIncluded == s.everIncluded + {file}
      && r.value.out == s.out + [""] + AllExpanded(s.macros, inner, 0)
  {
    hide Run, LineEffect, FindInclude, Request, SplitLines, Directives.IsOrdinary, AllExpanded;
    RequestMeans(w, s, p, k, once, path, depth);
    var t := Emit(s, "", Loc(k + 1, p.file));
    var u := t.(everIncluded := s.everIncluded + {file}, activeStack := s.activeStack + [file]);
    var inner := Place(SplitLines(w.read(file).value), file, w.parent(file));
    OrdinaryRuns(w, u, inner, 0, depth);
  }
}
