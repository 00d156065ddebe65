/** What directives do, in terms of their lines alone. */
module Directives {
  import opened Options
  import opened Chars
  import opened MacroText
  import opened Preprocessor
  import opened Conditionals
  import Conditions
  import PpExprMeaning

  /* ----- the parts of a directive ----- */

  /** A word that spaces may delimit. */
  predicate IsWord(s: string) { s != "" && forall k :: 0 <= k < |s| ==> !IsSpace(s[k]) }

  lemma {:induction false} TokenEnds(word: string, rest: string)
    requires (forall k :: 0 <= k < |word| ==> !IsSpace(word[k])) && (rest == "" || IsSpace(rest[0]))
    ensures TokenLength(word + rest) == |word|
  {
    if word == "" {
      assert word + rest == rest;
    } else {
      assert (word + rest)[1..] == word[1..] + rest;
      TokenEnds(word[1..], rest);
    }
  }

  /** The keyword of a directive, and what follows it. */
  lemma DirectiveParts(raw: string, word: string, rest: string)
    requires IsWord(word) && (rest == "" || IsSpace(rest[0])) && raw == "#" + word + rest
    ensures IsDirective(raw) && Keyword(raw) == word && Rest(raw) == rest
  {
    TokenEnds(word, rest);
    var t := word + rest;
    assert raw[0] == '#' && TrimLeft(raw) == raw && raw[1..] == t;
    assert t[0] == word[0] && SpaceLength(t) == 0 && t[0..] == t;
    assert t[..|word|] == word && t[|word|..] == rest;
  }

  /** The word that a directive is given. */
  lemma GivenWord(n: string)
    requires IsWord(n)
    ensures FirstToken(" " + n).0 == n
  {
    var t := " " + n;
    assert t[1..] == n && n[0] == t[1] && SpaceLength(n) == 0 && SpaceLength(t) == 1;
    TokenEnds(n, "");
    assert n + "" == n && n[..|n|] == n;
  }

  /* ----- conditions ----- */

  /** The three kinds of condition. */
  datatype Condition = Has(n: string) | Lacks(n: string) | If(e: PpExprMeaning.Expr)

  /** The line that opens a chain with a condition. */
  function Opening(c: Condition): string {
    match c
    case Has(n) => "#ifdef " + n
    case Lacks(n) => "#ifndef " + n
    case If(e) => "#if " + TextOf(e)
  }

  /** The line of a later branch. */
  function Later(c: Condition): string {
    match c
    case Has(n) => "#elseifdef " + n
    case Lacks(n) => "#elseifndef " + n
    case If(e) => "#elseif " + TextOf(e)
  }

  function TextOf(e: PpExprMeaning.Expr): string { PpExprMeaning.Text(PpExprMeaning.Print(e, 1)) }

  /** Whether a table makes a condition true. */
  predicate IsMet(m: Macros, c: Condition) {
    match c
    case Has(n) => n in m
    case Lacks(n) => n !in m
    case If(e) => Conditions.IsTrue(m, e)
  }

  predicate IsProper(m: Macros, c: Condition) {
    match c
    case Has(n) => IsWord(n)
    case Lacks(n) => IsWord(n)
    case If(e) => Conditions.NamesOnly(m) && Conditions.Readable(m, e)
  }

  lemma ConditionLine(m: Macros, c: Condition, raw: string, word: string, loc: Loc)
    requires IsProper(m, c)
    requires match c
             case Has(n) => (word == "ifdef" || word == "elseifdef") && raw == "#" + word + (" " + n)
             case Lacks(n) => (word == "ifndef" || word == "elseifndef") && raw == "#" + word + (" " + n)
             case If(e) => (word == "if" || word == "elseif") && raw == "#" + word + (" " + TextOf(e))
    ensures Keyword(raw) == word && (Holds(m, raw, loc) <==> IsMet(m, c))
  {
    hide Keyword, Rest, IfCondition, Conditions.IsTrue, Conditions.Readable, TextOf;
    match c
    case Has(n) =>
      DirectiveParts(raw, word, " " + n);
      GivenWord(n);
    case Lacks(n) =>
      DirectiveParts(raw, word, " " + n);
      GivenWord(n);
    case If(e) =>
      DirectiveParts(raw, word, " " + TextOf(e));
      TestMeans(m, e, loc);
  }

  lemma TestMeans(m: Macros, e: PpExprMeaning.Expr, loc: Loc)
    requires Conditions.NamesOnly(m) && Conditions.Readable(m, e)
    ensures IfCondition(m, " " + TextOf(e), loc) <==> Conditions.IsTrue(m, e)
  {
    hide Conditions.IsTrue, Conditions.Readable, IfCondition;
    Conditions.ConditionMeans(m, e, loc);
  }

  lemma OpeningLine(m: Macros, c: Condition, loc: Loc)
    requires IsProper(m, c)
    ensures OpensIf(Keyword(Opening(c))) && (Holds(m, Opening(c), loc) <==> IsMet(m, c))
  {
    hide Keyword, Holds, IsMet, IsProper, TextOf;
    var word := if c.Has? then "ifdef" else if c.Lacks? then "ifndef" else "if";
    var rest := " " + if c.If? then TextOf(c.e) else c.n;
    Prefixes(word, rest);
    ConditionLine(m, c, Opening(c), word, loc);
  }

  lemma LaterLine(m: Macros, c: Condition, loc: Loc)
    requires IsProper(m, c)
    ensures ElseIfs(Keyword(Later(c))) && (Holds(m, Later(c), loc) <==> IsMet(m, c))
  {
    hide Keyword, Holds, IsMet, IsProper, TextOf;
    var word := if c.Has? then "elseifdef" else if c.Lacks? then "elseifndef" else "elseif";
    var rest := " " + if c.If? then TextOf(c.e) else c.n;
    Prefixes(word, rest);
    ConditionLine(m, c, Later(c), word, loc);
  }

  /** How the literal openings of these lines come apart. */
  lemma Prefixes(word: string, rest: string)
    requires rest != "" && rest[0] == ' '
    ensures word == "ifdef" ==> "#ifdef " + rest[1..] == "#" + word + rest
    ensures word == "ifndef" ==> "#ifndef " + rest[1..] == "#" + word + rest
    ensures word == "if" ==> "#if " + rest[1..] == "#" + word + rest
    ensures word == "elseifdef" ==> "#elseifdef " + rest[1..] == "#" + word + rest
    ensures word == "elseifndef" ==> "#elseifndef " + rest[1..] == "#" + word + rest
    ensures word == "elseif" ==> "#elseif " + rest[1..] == "#" + word + rest
  {
  }

  /* ----- chains ----- */

  /** Two lines that neither branch nor open a macro run one after the other. */
  lemma TwoLinesRun(w: World, s: State, p: Place, depth: nat)
    requires Closed(w) && |p.lines| == 2
    requires Keyword(p.lines[0]) in {"", "define", "undef"} && Keyword(p.lines[1]) in {"", "define", "undef"}
    ensures
      var u := LineEffect(w, s, p, 0, true, depth);
      Run(w, s, p, 0, [], depth) == if u.None? then None else LineEffect(w, u.value, p, 1, true, depth)
  {
    hide LineEffect, Run, Keyword, RunTree, IsUnit;
    var (one, two) := (p.lines[0], p.lines[1]);
    var t := Unit([one], Unit([two], Nil));
    LineIsUnit(one);
    LineIsUnit(two);
    TwoUnits(one, two);
    assert p.lines == [one, two];
    ExpansionIsTree(w, s, p, t, depth);
    UnitRuns(w, s, p, t, 0, depth);
    var u := LineEffect(w, s, p, 0, true, depth);
    if u.Some? { UnitRuns(w, u.value, p, t.rest, 1, depth); }
  }

  lemma LineIsUnit(line: string)
    requires Keyword(line) in {"", "define", "undef"}
    ensures IsUnit([line])
  {
    hide Keyword;
  }

  /** A line before a tree: its effect, and then the tree. */
  lemma UnitRuns(w: World, s: State, p: Place, t: Tree, k: nat, depth: nat)
    requires Closed(w) && Nested(t) && t.Unit? && |t.lines| == 1 && k + Size(t) <= |p.lines|
    ensures
      var u := LineEffect(w, s, p, k, true, depth);
      && k + 1 + Size(t.rest) <= |p.lines| && Nested(t.rest)
      && RunTree(w, s, p, t, k, depth)
         == (if u.None? then None else RunTree(w, u.value, p, t.rest, k + 1, depth))
      && (t.rest.Nil? ==> RunTree(w, s, p, t, k, depth) == u)
  {
    hide LineEffect, IsUnit;
  }

  lemma TwoUnits(one: string, two: string)
    requires IsUnit([one]) && IsUnit([two])
    ensures
      var t := Unit([one], Unit([two], Nil));
      Nested(t) && Flatten(t) == [one, two] && Size(t) == 2 && Size(t.rest) == 1 && Size(t.rest.rest) == 0
  {
    hide IsUnit;
    assert Nested(Nil) && Flatten(Nil) == [] && Size(Nil) == 0;
    assert Nested(Unit([two], Nil)) && Flatten(Unit([two], Nil)) == [two] && Size(Unit([two], Nil)) == 1;
  }

  /** An ordinary line, as far as this table goes. */
  predicate IsOrdinary(m: Macros, b: string) { !IsDirective(b) && BlockUseOf(m, TrimLeft(b)).NotBlock? }

  lemma OrdinaryKeyword(m: Macros, b: string)
    requires IsOrdinary(m, b)
    ensures Keyword(b) == ""
  {
    hide IsDirective, BlockUseOf;
  }

  function OneLineTree(b: string): Tree { Unit([b], Nil) }

  lemma OneLineTreeShape(b: string)
    requires !IsDirective(b)
    ensures Nested(OneLineTree(b)) && Flatten(OneLineTree(b)) == [b] && Size(OneLineTree(b)) == 1
  {
    assert Keyword(b) == "";
    assert Nested(Nil) && Flatten(Nil) == [] && Size(Nil) == 0;
  }

  lemma OrdinaryLine(w: World, s: State, p: Place, k: nat, depth: nat)
    requires Closed(w) && k < |p.lines| && IsOrdinary(s.macros, p.lines[k])
    ensures
      var loc := Loc(k + 1, p.file);
      LineEffect(w, s, p, k, true, depth) == Some(Emit(s, Expanded(s.macros, p.lines[k], loc), loc))
  {
    hide Run, Expanded, BlockUseOf, IsDirective, TrimLeft;
    assert Keyword(p.lines[k]) == "";
  }

  /** A branch of one ordinary line, and the line that heads it. */
  lemma BranchRuns(w: World, s: State, p: Place, b: string, k: nat, chosen: bool, depth: nat)
    requires Closed(w) && k + 1 < |p.lines| && p.lines[k + 1] == b && IsOrdinary(s.macros, b)
    ensures Nested(OneLineTree(b)) && Size(OneLineTree(b)) == 1
    ensures
      var loc := Loc(k + 2, p.file);
      RunBranch(w, s, p, OneLineTree(b), k, chosen, depth)
      == Some(Emit(Emit(s, "", Loc(k + 1, p.file)), if chosen then Expanded(s.macros, b, loc) else "", loc))
  {
    hide Expanded, LineEffect, Nested, Size, Blanks, RunTree, IsDirective;
    OneLineTreeShape(b);
    var t := Emit(s, "", Loc(k + 1, p.file));
    OneBlank(s, p.file, k);
    OneBlank(t, p.file, k + 1);
    TwoBlanks(s, p.file, k);
    OrdinaryLine(w, t, p, k + 1, depth);
    OneLineRuns(w, t, p, b, k + 1, depth);
  }

  lemma OneLineRuns(w: World, s: State, p: Place, b: string, k: nat, depth: nat)
    requires Closed(w) && Nested(OneLineTree(b)) && Size(OneLineTree(b)) == 1 && k < |p.lines|
    ensures RunTree(w, s, p, OneLineTree(b), k, depth) == LineEffect(w, s, p, k, true, depth)
  {
    hide LineEffect, Nested;
  }

  lemma TwoBlanks(s: State, file: string, k: nat)
    ensures Blanks(s, file, k, k + 2) == Blanks(Emit(s, "", Loc(k + 1, file)), file, k + 1, k + 2)
  {
  }

  /** A later branch of one ordinary line. */
  datatype Branch = Branch(test: Condition, line: string)

  /** The lines of the later branches, and of the `#else` if there is one. */
  function LaterLines(bs: seq<Branch>, last: Option<string>): seq<string> {
    if bs == [] then (match last case None => [] case Some(e) => ["#else", e])
    else [Later(bs[0].test), bs[0].line] + LaterLines(bs[1..], last)
  }

  function ChainLines(first: Branch, bs: seq<Branch>, last: Option<string>): seq<string> {
    [Opening(first.test), first.line] + LaterLines(bs, last) + ["#endif"]
  }

  predicate IsBranch(m: Macros, b: Branch) { IsProper(m, b.test) && IsOrdinary(m, b.line) }

  predicate AreBranches(m: Macros, bs: seq<Branch>, last: Option<string>) {
    (forall i :: 0 <= i < |bs| ==> IsBranch(m, bs[i])) && (last.Some? ==> IsOrdinary(m, last.value))
  }

  /** What the later branches put out from line `k`: the first whose condition is met
      its line expanded, unless a branch was chosen before, and all others blanks. */
  function LaterOut(m: Macros, bs: seq<Branch>, last: Option<string>, k: nat, done: bool, file: string): seq<string> {
    if bs == [] then
      (match last
       case None => []
       case Some(e) => ["", if done then "" else Expanded(m, e, Loc(k + 2, file))])
    else
      var met := IsMet(m, bs[0].test);
      ["", if !done && met then Expanded(m, bs[0].line, Loc(k + 2, file)) else ""]
      + LaterOut(m, bs[1..], last, k + 2, done || met, file)
  }

  function ArmsOf(bs: seq<Branch>, last: Option<string>): Arms {
    if bs == [] then (match last case None => NoMore case Some(e) => Else("#else", OneLineTree(e)))
    else ElseIf(Later(bs[0].test), OneLineTree(bs[0].line), ArmsOf(bs[1..], last))
  }

  lemma BareWords()
    ensures Keyword("#else") == "else" && Keyword("#endif") == "endif"
  {
    assert "#else" == "#" + "else" + "" && "#endif" == "#" + "endif" + "";
    DirectiveParts("#else", "else", "");
    DirectiveParts("#endif", "endif", "");
  }

  lemma OrdinaryTree(m: Macros, b: string)
    requires IsOrdinary(m, b)
    ensures Nested(OneLineTree(b)) && Flatten(OneLineTree(b)) == [b] && Size(OneLineTree(b)) == 1
  {
    OneLineTreeShape(b);
  }

  lemma {:induction false} ArmsShape(m: Macros, bs: seq<Branch>, last: Option<string>)
    requires AreBranches(m, bs, last)
    ensures NestedArms(ArmsOf(bs, last)) && FlattenArms(ArmsOf(bs, last)) == LaterLines(bs, last)
    ensures SizeArms(ArmsOf(bs, last)) == |LaterLines(bs, last)|
  {
    hide Keyword, IsOrdinary, IsProper, Later, OneLineTree, Nested, Flatten, Size, AreBranches, NestedArms, SizeArms;
    hide FlattenArms, Holds, IsMet, ElseIfs;
    BranchesApart(m, bs, last);
    if bs == [] {
      if last.Some? {
        BareWords();
        OrdinaryTree(m, last.value);
        ElseShape("#else", OneLineTree(last.value));
      } else {
        NoArms();
      }
    } else {
      ArmsShape(m, bs[1..], last);
      OrdinaryTree(m, bs[0].line);
      LaterLine(m, bs[0].test, Loc(0, ""));
      ElseIfShape(Later(bs[0].test), OneLineTree(bs[0].line), ArmsOf(bs[1..], last));
    }
  }

  lemma BranchesApart(m: Macros, bs: seq<Branch>, last: Option<string>)
    requires AreBranches(m, bs, last)
    ensures last.Some? ==> IsOrdinary(m, last.value)
    ensures bs != [] ==> IsProper(m, bs[0].test) && IsOrdinary(m, bs[0].line) && AreBranches(m, bs[1..], last)
  {
    hide IsOrdinary, IsProper;
    if bs != [] { assert IsBranch(m, bs[0]); }
  }

  lemma NoArms()
    ensures FlattenArms(NoMore) == [] && SizeArms(NoMore) == 0 && NestedArms(NoMore)
  {
  }

  lemma ElseShape(line: string, body: Tree)
    ensures FlattenArms(Else(line, body)) == [line] + Flatten(body) && SizeArms(Else(line, body)) == 1 + Size(body)
    ensures Keyword(line) == "else" && Nested(body) ==> NestedArms(Else(line, body))
  {
    hide Keyword, Flatten, Size, Nested;
  }

  lemma ElseIfShape(line: string, body: Tree, more: Arms)
    ensures FlattenArms(ElseIf(line, body, more)) == [line] + (Flatten(body) + FlattenArms(more))
    ensures SizeArms(ElseIf(line, body, more)) == 1 + Size(body) + SizeArms(more)
    ensures ElseIfs(Keyword(line)) && Nested(body) && NestedArms(more) ==> NestedArms(ElseIf(line, body, more))
  {
    hide Keyword, Flatten, Size, Nested;
  }

  lemma {:induction false} LaterRuns(w: World, s: State, p: Place, bs: seq<Branch>, last: Option<string>, k: nat,
                                     pick: int, depth: nat)
    requires Closed(w) && AreBranches(s.macros, bs, last) && Lies(p.lines, k, LaterLines(bs, last))
    requires NestedArms(ArmsOf(bs, last)) && SizeArms(ArmsOf(bs, last)) == |LaterLines(bs, last)|
    requires pick < 0 || pick == Chosen(s.macros, p.file, ArmsOf(bs, last), k)
    ensures
      var r := RunArms(w, s, p, ArmsOf(bs, last), k, pick, depth);
      && r.Some? && r.value.macros == s.macros
      && r.value.out == s.out + LaterOut(s.macros, bs, last, k, pick < 0, p.file)
    decreases |bs|
  {
    hide IsMet, Expanded, AreBranches, Closed, RunArms, Lies, NestedArms, SizeArms, LaterLines, ArmsOf, Chosen;
    if bs == [] {
      BranchesApart(s.macros, bs, last);
      LastRuns(w, s, p, last, k, pick, depth);
    } else {
      var u := BranchThen(w, s, p, bs, last, k, pick, depth);
      LaterRuns(w, u, p, bs[1..], last, k + 2, pick - 1, depth);
    }
  }

  /** The first of the later branches, and where the others go on. */
  lemma BranchThen(w: World, s: State, p: Place, bs: seq<Branch>, last: Option<string>, k: nat, pick: int, depth: nat)
    returns (u: State)
    requires Closed(w) && AreBranches(s.macros, bs, last) && Lies(p.lines, k, LaterLines(bs, last)) && bs != []
    requires NestedArms(ArmsOf(bs, last)) && SizeArms(ArmsOf(bs, last)) == |LaterLines(bs, last)|
    requires pick < 0 || pick == Chosen(s.macros, p.file, ArmsOf(bs, last), k)
    ensures AreBranches(s.macros, bs[1..], last) && Lies(p.lines, k + 2, LaterLines(bs[1..], last))
    ensures NestedArms(ArmsOf(bs[1..], last)) && SizeArms(ArmsOf(bs[1..], last)) == |LaterLines(bs[1..], last)|
    ensures pick == 0 <==> pick >= 0 && IsMet(s.macros, bs[0].test)
    ensures pick <= 0 || pick - 1 == Chosen(s.macros, p.file, ArmsOf(bs[1..], last), k + 2)
    ensures k + SizeArms(ArmsOf(bs, last)) <= |p.lines| && k + 2 + SizeArms(ArmsOf(bs[1..], last)) <= |p.lines|
    ensures RunArms(w, s, p, ArmsOf(bs, last), k, pick, depth)
         == RunArms(w, u, p, ArmsOf(bs[1..], last), k + 2, pick - 1, depth)
    ensures u.macros == s.macros
    ensures u.out == s.out + ["", if pick == 0 then Expanded(s.macros, bs[0].line, Loc(k + 2, p.file)) else ""]
  {
    hide Keyword, IsOrdinary, IsProper, IsMet, Holds, Later, OneLineTree, Nested, Size, RunBranch, Expanded;
    hide AreBranches, Closed, IsUnit, ElseIfs, RunArms, NestedArms, SizeArms;
    var b := bs[0];
    BranchesApart(s.macros, bs, last);
    LaterLine(s.macros, b.test, Loc(k + 1, p.file));
    LiesSplit(p.lines, k, [Later(b.test), b.line], LaterLines(bs[1..], last));
    assert p.lines[k..k + 2][1] == b.line;
    BranchRuns(w, s, p, b.line, k, pick == 0, depth);
    u := RunBranch(w, s, p, OneLineTree(b.line), k, pick == 0, depth).value;
    ArmRuns(w, s, p, Later(b.test), OneLineTree(b.line), ArmsOf(bs[1..], last), k, pick, depth);
  }

  lemma ArmRuns(w: World, s: State, p: Place, line: string, body: Tree, more: Arms, k: nat, pick: int, depth: nat)
    requires Closed(w) && NestedArms(ElseIf(line, body, more)) && k + SizeArms(ElseIf(line, body, more)) <= |p.lines|
    ensures Nested(body) && NestedArms(more) && SizeArms(ElseIf(line, body, more)) == 1 + Size(body) + SizeArms(more)
    ensures
      var u := RunBranch(w, s, p, body, k, pick == 0, depth);
      RunArms(w, s, p, ElseIf(line, body, more), k, pick, depth)
      == if u.None? then None else RunArms(w, u.value, p, more, k + 1 + Size(body), pick - 1, depth)
  {
    hide Closed, RunBranch, Nested, Size, ElseIfs, Keyword;
  }

  lemma LastRuns(w: World, s: State, p: Place, last: Option<string>, k: nat, pick: int, depth: nat)
    requires Closed(w) && (last.Some? ==> IsOrdinary(s.macros, last.value))
    requires Lies(p.lines, k, LaterLines([], last)) && NestedArms(ArmsOf([], last))
    requires SizeArms(ArmsOf([], last)) == |LaterLines([], last)|
    requires pick < 0 || pick == Chosen(s.macros, p.file, ArmsOf([], last), k)
    ensures
      var r := RunArms(w, s, p, ArmsOf([], last), k, pick, depth);
      && r.Some? && r.value.macros == s.macros
      && r.value.out == s.out + LaterOut(s.macros, [], last, k, pick < 0, p.file)
  {
    hide IsOrdinary, OneLineTree, Nested, Size, RunBranch, Expanded, IsUnit, Keyword, Closed;
    if last.Some? {
      assert p.lines[k..k + 2][1] == last.value;
      BranchRuns(w, s, p, last.value, k, pick == 0, depth);
    }
  }

  function ChainTree(first: Branch, bs: seq<Branch>, last: Option<string>): Tree {
    Chain(Opening(first.test), OneLineTree(first.line), ArmsOf(bs, last), "#endif", Nil)
  }

  lemma ChainIsTree(m: Macros, first: Branch, bs: seq<Branch>, last: Option<string>)
    requires IsBranch(m, first) && AreBranches(m, bs, last)
    ensures
      var t := ChainTree(first, bs, last);
      && Nested(t) && Flatten(t) == ChainLines(first, bs, last)
      && Size(t) == |ChainLines(first, bs, last)|
  {
    hide Keyword, IsOrdinary, IsProper, Opening, OneLineTree, NestedArms, FlattenArms, LaterLines, ArmsOf;
    hide AreBranches, Nested, Flatten, Size;
    OpeningLine(m, first.test, Loc(0, ""));
    BareWords();
    OrdinaryTree(m, first.line);
    ArmsShape(m, bs, last);
    SizeIsLength(ChainTree(first, bs, last));
    EndedShape(Opening(first.test), OneLineTree(first.line), ArmsOf(bs, last), "#endif");
  }

  lemma EndedShape(head: string, body: Tree, more: Arms, end: string)
    ensures Flatten(Chain(head, body, more, end, Nil)) == [head] + Flatten(body) + FlattenArms(more) + [end]
    ensures OpensIf(Keyword(head)) && Nested(body) && NestedArms(more) && Keyword(end) == "endif" ==>
              Nested(Chain(head, body, more, end, Nil))
  {
    hide Keyword, FlattenArms, NestedArms;
    assert Flatten(Nil) == [] && Nested(Nil);
  }

  /** Main result: of the branches of a chain the first whose condition is met runs, or
      the `#else` if none is, and all other lines are blank.  A name is asked for in
      the table as it is where the chain begins; an expression is worth what its tree
      means there. */
  lemma ChainRuns(w: World, s: State, file: string, dir: string, first: Branch, bs: seq<Branch>, last: Option<string>,
                  depth: nat)
    requires Closed(w) && IsBranch(s.macros, first) && AreBranches(s.macros, bs, last)
    ensures
      var r := Run(w, s, Place(ChainLines(first, bs, last), file, dir), 0, [], depth);
      var met := IsMet(s.macros, first.test);
      && r.Some? && r.value.macros == s.macros
      && r.value.out == s.out + ["", if met then Expanded(s.macros, first.line, Loc(2, file)) else ""]
                        + LaterOut(s.macros, bs, last, 2, met, file) + [""]
  {
    hide Run, Keyword, IsProper, Expanded, IsOrdinary, RunTree, ChainLines, IsMet, Holds;
    hide LaterOut, ChainTree, AreBranches, Nested, Size, Flatten;
    var p := Place(ChainLines(first, bs, last), file, dir);
    ChainIsTree(s.macros, first, bs, last);
    ExpansionIsTree(w, s, p, ChainTree(first, bs, last), depth);
    ChainTreeRuns(w, s, p, first, bs, last, depth);
  }

  lemma ChainTreeRuns(w: World, s: State, p: Place, first: Branch, bs: seq<Branch>, last: Option<string>, depth: nat)
    requires Closed(w) && IsBranch(s.macros, first) && AreBranches(s.macros, bs, last)
    requires p.lines == ChainLines(first, bs, last) && Size(ChainTree(first, bs, last)) == |p.lines|
    requires Nested(ChainTree(first, bs, last))
    ensures
      var r := RunTree(w, s, p, ChainTree(first, bs, last), 0, depth);
      var met := IsMet(s.macros, first.test);
      && r.Some? && r.value.macros == s.macros
      && r.value.out == s.out + ["", if met then Expanded(s.macros, first.line, Loc(2, p.file)) else ""]
                        + LaterOut(s.macros, bs, last, 2, met, p.file) + [""]
  {
    hide Keyword, IsOrdinary, IsProper, IsMet, Holds, Opening, OneLineTree, Flatten, RunBranch, RunArms, Expanded;
    hide LaterOut, LaterLines, ArmsOf, AreBranches, NestedArms, SizeArms, Blanks;
    var met := IsMet(s.macros, first.test);
    OpeningLine(s.macros, first.test, Loc(1, p.file));
    OrdinaryTree(s.macros, first.line);
    ArmsShape(s.macros, bs, last);
    BranchRuns(w, s, p, first.line, 0, met, depth);
    var u := RunBranch(w, s, p, OneLineTree(first.line), 0, met, depth).value;
    var pick := if met then -1 else Chosen(s.macros, p.file, ArmsOf(bs, last), 2);
    assert Lies(p.lines, 2, LaterLines(bs, last));
    LaterRuns(w, u, p, bs, last, 2, pick, depth);
    var v := RunArms(w, u, p, ArmsOf(bs, last), 2, pick, depth).value;
    OneBlank(v, p.file, 2 + |LaterLines(bs, last)|);
    TreeOfChain(w, s, p, ChainTree(first, bs, last), depth);
  }

  lemma TreeOfChain(w: World, s: State, p: Place, t: Tree, depth: nat)
    requires Closed(w) && Nested(t) && t.Chain? && t.rest.Nil? && Size(t) <= |p.lines|
    ensures RunTree(w, s, p, t, 0, depth) == RunChain(w, s, p, t, 0, depth)
  {
    hide RunChain, Nested;
  }

  /** The simplest chains: a line between a condition and `#endif`. */
  lemma GuardRuns(w: World, s: State, file: string, dir: string, c: Condition, line: string, depth: nat)
    requires Closed(w) && IsProper(s.macros, c) && IsOrdinary(s.macros, line)
    ensures
      var r := Run(w, s, Place([Opening(c), line, "#endif"], file, dir), 0, [], depth);
      && r.Some? && r.value.macros == s.macros
      && r.value.out == s.out + ["", if IsMet(s.macros, c) then Expanded(s.macros, line, Loc(2, file)) else "", ""]
  {
    hide Run, IsProper, Expanded, IsOrdinary, IsMet, Opening;
    ChainRuns(w, s, file, dir, Branch(c, line), [], None, depth);
    assert ChainLines(Branch(c, line), [], None) == [Opening(c), line, "#endif"];
  }

  lemma OneBlank(s: State, file: string, k: nat)
    ensures Blanks(s, file, k, k + 1) == Emit(s, "", Loc(k + 1, file))
  {
    assert Blanks(Emit(s, "", Loc(k + 1, file)), file, k + 1, k + 1) == Emit(s, "", Loc(k + 1, file));
  }

  /* ----- definitions ----- */

  /** A name that nothing but its end delimits. */
  predicate IsName(n: string) { n != "" && IsNameStart(n[0]) && forall i :: 0 <= i < |n| ==> IsNameChar(n[i]) }

  lemma NameIsWord(n: string)
    requires IsName(n)
    ensures IsWord(n)
  {
  }

  /** `#define` without parameters gives the name the text after the blanks. */
  lemma ObjectHeader(n: string, body: string)
    requires IsName(n) && (body == "" || !IsBlank(body[0]))
    ensures ParseHeader(" " + n + " " + body, false) == Some((n, MacroDef(false, false, [], None, body)))
  {
    hide ClosingParen, Arguments;
    var t := n + " " + body;
    assert " " + n + " " + body == " " + t && (" " + t)[1..] == t && t[0] == n[0];
    assert TrimLeft(t) == t && TrimLeft(" " + t) == t;
    NameEnds(t, 0, |n|);
    assert t[..|n|] == n && t[|n|..] == " " + body && (" " + body)[1..] == body;
    assert TrimLeft(" " + body) == TrimLeft(body) == body;
  }

  lemma {:induction false} NameEnds(t: string, i: nat, j: nat)
    requires i <= j <= |t| && (forall k :: i <= k < j ==> IsNameChar(t[k])) && (j < |t| ==> !IsNameChar(t[j]))
    ensures WordEnd(t, i) == j
    decreases j - i
  {
    if i < j { NameEnds(t, i + 1, j); }
  }

  lemma DefineLine(w: World, s: State, p: Place, k: nat, rest: string, depth: nat)
    requires Closed(w) && k < |p.lines| && IsDirective(p.lines[k]) && Rest(p.lines[k]) == rest
    ensures
      var t := Emit(s, "", Loc(k + 1, p.file));
      && (Keyword(p.lines[k]) == "define" ==>
            LineEffect(w, s, p, k, true, depth) == Some(t.(macros := Define(s.macros, rest))))
      && (Keyword(p.lines[k]) == "undef" ==>
            LineEffect(w, s, p, k, true, depth) == Some(t.(macros := s.macros - {FirstToken(rest).0})))
  {
    hide Keyword, Define, IncludeEffect, BlockEffect, BlockUseOf, Rest, IsDirective, FirstToken;
  }

  /** Main result: a `#define` line puts its name into the table, with the text after
      it, in place of what the name stood for; an `#undef` line takes it out. */
  lemma DefinitionLines(w: World, s: State, p: Place, k: nat, n: string, body: string, depth: nat)
    requires Closed(w) && k < |p.lines| && IsName(n) && (body == "" || !IsBlank(body[0]))
    ensures p.lines[k] == "#define " + n + " " + body ==>
              LineEffect(w, s, p, k, true, depth)
              == Some(Emit(s, "", Loc(k + 1, p.file)).(macros := s.macros[n := MacroDef(false, false, [], None, body)]))
    ensures p.lines[k] == "#undef " + n ==>
              LineEffect(w, s, p, k, true, depth)
              == Some(Emit(s, "", Loc(k + 1, p.file)).(macros := s.macros - {n}))
  {
    hide Keyword, Rest, LineEffect, ParseHeader, FirstToken, IsDirective;
    NameIsWord(n);
    if p.lines[k] == "#define " + n + " " + body {
      var rest := " " + n + " " + body;
      assert p.lines[k] == "#" + "define" + rest;
      DirectiveParts(p.lines[k], "define", rest);
      ObjectHeader(n, body);
      DefineLine(w, s, p, k, rest, depth);
    }
    if p.lines[k] == "#undef " + n {
      assert p.lines[k] == "#" + "undef" + (" " + n);
      DirectiveParts(p.lines[k], "undef", " " + n);
      GivenWord(n);
      DefineLine(w, s, p, k, " " + n, depth);
    }
  }
}
