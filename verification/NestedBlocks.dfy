/** Two block macros, one calling the other: the depth that their names give is
    enough, and one less is not. */
module NestedBlocks {
  import opened Options
  import opened Chars
  import opened MacroText
  import opened Preprocessor
  import opened BlockDepth
  import MacroBodies

  const OUTER := MacroDef(true, true, [], None, "B()")

  const INNER := MacroDef(true, true, [], None, "x")

  const TABLE := map["A" := OUTER, "B" := INNER]

  ghost const DEFS: iset<(string, MacroDef)> := iset{("A", OUTER), ("B", INNER)}

  function Order(n: string): nat { if n == "A" then 1 else 0 }

  lemma OuterBody()
    ensures SubstituteBody("B()", map[]) == "B()" && SplitLines("B()") == ["B()"]
  {
    hide SubstituteLine;
    var t := "B()";
    assert t[1..] == "()" && "()"[1..] == ")" && ")"[1..] == "";
    assert FirstNewline(")") == 1 && FirstNewline("()") == 2 && FirstNewline(t) == 3 && t[..3] == t;
    assert WordEnd(t, 0) == 1 && t[0..1] == "B";
    assert MacroBodies.Quiet(t, 3, map[]) && MacroBodies.Quiet(t, 2, map[]) && MacroBodies.Quiet(t, 1, map[]);
    MacroBodies.QuietIsUnchanged(t, map[]);
    assert SubstituteLines([t], map[]) == [t];
  }

  lemma InnerBody()
    ensures SubstituteBody("x", map[]) == "x" && SplitLines("x") == ["x"]
  {
    hide SubstituteLine;
    var t := "x";
    assert t[1..] == "" && FirstNewline(t) == 1 && t[..1] == t;
    assert WordEnd(t, 0) == 1 && t[0..1] == t && MacroBodies.Quiet(t, 1, map[]);
    MacroBodies.QuietIsUnchanged(t, map[]);
    assert SubstituteLines([t], map[]) == [t];
  }

  lemma Words()
    ensures FirstWord("A()") == "A" && FirstWord("B()") == "B" && FirstWord("x") == "x"
    ensures Keyword("A()") == "" && Keyword("B()") == "" && Keyword("x") == ""
    ensures TrimLeft("A()") == "A()" && TrimLeft("B()") == "B()"
    ensures !IsDirective("A()") && !IsDirective("B()")
  {
    assert WordEnd("A()", 0) == 1 && "A()"[..1] == "A";
    assert WordEnd("B()", 0) == 1 && "B()"[..1] == "B";
    assert WordEnd("x", 0) == 1 && "x"[..1] == "x";
  }

  lemma BlockNames()
    ensures IsBlockName(DEFS, "A") && IsBlockName(DEFS, "B") && !IsBlockName(DEFS, "x")
    ensures Within(TABLE, DEFS)
  {
    assert ("A", OUTER) in DEFS && ("B", INNER) in DEFS;
  }

  lemma NoArguments(d: MacroDef, args: seq<string>)
    requires d == OUTER || d == INNER
    ensures Bind(d, args).Some? ==> Bind(d, args).value == map[]
    ensures Bind(d, []) == Some(map[])
  {
  }

  lemma OrderFalls()
    ensures NamesFall(DEFS, Order)
  {
    hide FirstWord, SplitLines, SubstituteBody, Bind, IsBlockName, Keyword, DefineBlock, Within;
    Words();
    BlockNames();
    OuterBody();
    InnerBody();
    forall n, d, args | (n, d) in DEFS && Bind(d, args).Some?
      ensures
        var lines := SplitLines(SubstituteBody(d.body, Bind(d, args).value));
        DefineWithin(lines, DEFS) && StartBelow(lines, DEFS, Order, Order(n))
    {
      NoArguments(d, args);
    }
  }

  lemma CallOf(name: string, d: MacroDef)
    requires (name == "A" && d == OUTER) || (name == "B" && d == INNER)
    ensures BlockUseOf(TABLE, name + "()") == BlockCall(SubstituteBody(d.body, map[]))
  {
    hide SubstituteBody, Bind;
    var t := name + "()";
    NoArguments(d, []);
    assert WordEnd(t, 0) == 1 && t[..1] == name && BlanksEnd(t, 1) == 1;
    assert ClosingParen(t, 1, 0, false) == ClosingParen(t, 2, 1, false) == Some(2);
    assert t[2..2] == "" && Arguments("") == [] && t[3..] == "" && Trim("") == "";
  }

  /** Where the line `A()` is expanded with no more room than this, it fails. */
  lemma OneIsTooLittle(w: World, s: State, file: string, dir: string)
    requires Closed(w) && s.macros == TABLE
    ensures Run(w, s, Place(["A()"], file, dir), 0, [], 1).None?
  {
    hide Run, SplitLines, SubstituteBody, BlockUseOf, Keyword, LineEffect, Closed;
    var p := Place(["A()"], file, dir);
    Words();
    OuterBody();
    CallOf("A", OUTER);
    assert "A" + "()" == "A()" && p.lines[0] == "A()" && ActiveNow([]);
    RunStep(w, s, p, 0, [], 1);
    BlockLine(w, s, p, 0, "B()", 1);
    InnerIsTooLittle(w, s.(out := [], lineMap := []), file, dir);
  }

  lemma InnerIsTooLittle(w: World, s: State, file: string, dir: string)
    requires Closed(w) && s.macros == TABLE
    ensures Run(w, s, Place(["B()"], file, dir), 0, [], 0).None?
  {
    hide Run, SplitLines, SubstituteBody, BlockUseOf, Keyword, LineEffect, Closed;
    var p := Place(["B()"], file, dir);
    Words();
    CallOf("B", INNER);
    assert "B" + "()" == "B()" && p.lines[0] == "B()" && ActiveNow([]);
    RunStep(w, s, p, 0, [], 0);
    BlockLine(w, s, p, 0, SubstituteBody("x", map[]), 0);
  }

  lemma BlockLine(w: World, s: State, p: Place, k: nat, body: string, depth: nat)
    requires Closed(w) && k < |p.lines| && Keyword(p.lines[k]) == "" && !IsDirective(p.lines[k])
    requires BlockUseOf(s.macros, TrimLeft(p.lines[k])) == BlockCall(body)
    ensures LineEffect(w, s, p, k, true, depth) == BlockEffect(w, s, p, k, body, depth)
  {
    hide BlockEffect, BlockUseOf, Keyword, IsDirective;
  }

  /** Main result: the order of the two names gives depth 2, with which the line
      `A()` is expanded; depth 1 is too little. */
  lemma TwoIsEnough(w: World, s: State, file: string, dir: string)
    requires Closed(w) && (forall f :: w.read(f).None?) && s.macros == TABLE
    ensures Run(w, s, Place(["A()"], file, dir), 0, [], 2).Some?
    ensures Run(w, s, Place(["A()"], file, dir), 0, [], 1).None?
  {
    hide Run, FirstWord, Keyword, DefineBlock, Closed, NamesFall, CallsFall, Within, IsBlockName;
    var (p, rank) := (Place(["A()"], file, dir), RankOf(DEFS, Order));
    Words();
    BlockNames();
    OrderFalls();
    NamesGiveRanks(DEFS, Order);
    assert rank("A()") == 2;
    EnoughDepth(w, DEFS, rank, 0, s, p, 0, [], 2, 2);
    OneIsTooLittle(w, s, file, dir);
  }
}
