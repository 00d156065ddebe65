/** What macro expansion guarantees. */
module MacroExpansion {
  import opened Options
  import Decimal
  import opened Chars
  import opened MacroText

  /* ----- a name being expanded is not expanded again ----- */

  /** Two tables, each with some names being expanded, that allow the same expansions. */
  ghost predicate SameLive(m: Macros, a: seq<string>, n: Macros, b: seq<string>) {
    Live(m, a) == Live(n, b) && forall w :: w in Live(m, a) ==> m[w] == n[w]
  }

  lemma SameLiveStep(m: Macros, a: seq<string>, n: Macros, b: seq<string>, w: string)
    requires SameLive(m, a, n, b) && w in Live(m, a)
    ensures SameLive(m, a + [w], n, b + [w])
  {
    assert Live(m, a + [w]) == Live(m, a) - {w} && Live(n, b + [w]) == Live(n, b) - {w};
  }

  lemma {:induction false} SameLiveExpand(m: Macros, a: seq<string>, n: Macros, b: seq<string>, t: string, i: nat,
                                          loc: Loc)
    requires SameLive(m, a, n, b) && i <= |t|
    ensures Expand(m, a, t, i, loc) == Expand(n, b, t, i, loc)
    decreases |Live(m, a)|, |t| - i, 1
  {
    hide Live, ExpandStep;
    if i < |t| {
      SameLiveExpandStep(m, a, n, b, t, i, loc);
      SameLiveExpand(m, a, n, b, t, ExpandStep(m, a, t, i, loc).next, loc);
    }
  }

  lemma {:induction false} SameLiveExpandStep(m: Macros, a: seq<string>, n: Macros, b: seq<string>, t: string, i: nat,
                                              loc: Loc)
    requires SameLive(m, a, n, b) && i < |t|
    ensures ExpandStep(m, a, t, i, loc) == ExpandStep(n, b, t, i, loc)
    decreases |Live(m, a)|, |t| - i, 0
  {
    hide Live, Expand, UseOf, WordEnd, SubstituteBody;
    if StartsWord(t, i) {
      var j := WordEnd(t, i);
      var word := t[i..j];
      if word in Live(m, a) {
        LiveIsDefined(m, a, word);
        FewerLive(m, a, word);
        SameLiveStep(m, a, n, b, word);
        var use := UseOf(m[word], t, j);
        if use.Object? { SameLiveExpand(m, a + [word], n, b + [word], m[word].body, 0, loc); }
        if use.Call? {
          SameLiveExpand(m, a + [word], n, b + [word], SubstituteBody(m[word].body, use.bound), 0, loc);
        }
      }
    }
  }

  lemma LiveIsDefined(m: Macros, a: seq<string>, w: string)
    requires w in Live(m, a)
    ensures w in m
  {
  }

  function Without(m: Macros, names: seq<string>): Macros { map n | n in m && n !in names :: m[n] }

  /** Main result on termination's guard: expanding while some names are being
      expanded is expanding with those macros removed from the table. */
  lemma ActiveIsRemoved(m: Macros, active: seq<string>, t: string, loc: Loc)
    ensures Expand(m, active, t, 0, loc) == Expanded(Without(m, active), t, loc)
  {
    assert Live(m, active) == Live(Without(m, active), []);
    SameLiveExpand(m, active, Without(m, active), [], t, 0, loc);
  }

  /** A macro without parameters stands for its body, expanded without it. */
  lemma ObjectMeansBody(m: Macros, name: string, loc: Loc)
    requires name in m && !m[name].isFunction && name != "" && name != "__LINE__" && name != "__FILE__"
    requires forall i :: 0 <= i < |name| ==> IsNameChar(name[i])
    ensures Expanded(m, name, loc) == Expanded(Without(m, [name]), m[name].body, loc)
  {
    WholeWord(name, 0);
    assert name[0..|name|] == name && name in Live(m, []);
    assert ExpandStep(m, [], name, 0, loc) == Step(Expand(m, [] + [name], m[name].body, 0, loc), |name|) by {
      hide Expand, WordEnd, Live;
    }
    ExpandedStep(m, [], name, 0, loc, ExpandStep(m, [], name, 0, loc), "");
    ExpandEnds(m, [], name, loc);
    assert [] + [name] == [name];
    ActiveIsRemoved(m, [name], m[name].body, loc);
  }

  lemma {:induction false} WholeWord(name: string, i: nat)
    requires i <= |name| && forall k :: 0 <= k < |name| ==> IsNameChar(name[k])
    ensures WordEnd(name, i) == |name|
    decreases |name| - i
  {
    if i < |name| { WholeWord(name, i + 1); }
  }

  /* ----- lines stay lines ----- */

  ghost predicate OneLine(s: string) { '\n' !in s }

  lemma {:induction false} TrimOneLine(s: string)
    requires OneLine(s)
    ensures OneLine(TrimLeft(s))
    decreases |s|
  {
    if s != "" && IsBlank(s[0]) { TrimOneLine(s[1..]); }
  }

  lemma {:induction false} TrimRightOneLine(s: string)
    requires OneLine(s)
    ensures OneLine(TrimRight(s))
    decreases |s|
  {
    if s != "" && IsBlank(s[|s| - 1]) { TrimRightOneLine(s[..|s| - 1]); }
  }

  ghost predicate AllOneLine(args: seq<string>) { forall i :: 0 <= i < |args| ==> OneLine(args[i]) }

  lemma {:induction false} PiecesOneLine(s: string, start: nat, i: nat, depth: int, inString: bool)
    requires start <= i <= |s| && OneLine(s)
    ensures AllOneLine(Pieces(s, start, i, depth, inString))
    decreases |s| - i
  {
    hide OneLine;
    SliceOneLine(s, start, i);
    SliceOneLine(s, start, |s|);
    assert s[start..|s|] == s[start..];
    PieceOneLine(s[start..i]);
    PieceOneLine(s[start..]);
    if i < |s| {
      if inString {
        PiecesOneLine(s, start, i + 1, depth, s[i] != '"');
      } else {
        PiecesOneLine(s, start, i + 1, depth, true);
        PiecesOneLine(s, start, i + 1, depth + 1, false);
        PiecesOneLine(s, start, i + 1, depth - 1, false);
        PiecesOneLine(s, start, i + 1, depth, false);
        PiecesOneLine(s, i + 1, i + 1, depth, false);
      }
    }
  }

  lemma SliceOneLine(s: string, i: nat, j: nat)
    requires OneLine(s) && i <= j <= |s|
    ensures OneLine(s[i..j])
  {
  }

  lemma PieceOneLine(s: string)
    ensures OneLine(s) ==> OneLine(Trim(s))
  {
    if OneLine(s) {
      TrimOneLine(s);
      TrimRightOneLine(TrimLeft(s));
    }
  }

  ghost predicate BoundOneLine(bound: Binding) { forall n :: n in bound ==> OneLine(bound[n]) }

  lemma {:induction false} FixedOneLine(params: seq<string>, args: seq<string>)
    requires AllOneLine(args)
    ensures BoundOneLine(Fixed(params, args))
  {
    if params != [] { FixedOneLine(params[..|params| - 1], args); }
  }

  lemma {:induction false} JoinedOneLine(args: seq<string>, i: nat, so: string)
    requires AllOneLine(args) && OneLine(so)
    ensures OneLine(Joined(args, i, so))
    decreases |args| - i
  {
    if i < |args| { JoinedOneLine(args, i + 1, (if so == "" then "" else so + ", ") + args[i]); }
  }

  lemma BindOneLine(def: MacroDef, args: seq<string>)
    requires AllOneLine(args)
    ensures Bind(def, args).Some? ==> BoundOneLine(Bind(def, args).value)
  {
    FixedOneLine(def.params, args);
    JoinedOneLine(args, |def.params|, "");
  }

  lemma {:induction false} DoubledOneLine(s: string)
    requires OneLine(s)
    ensures OneLine(Doubled(s))
  {
    if s != "" { DoubledOneLine(s[1..]); }
  }

  lemma {:induction false} StringizedOneLine(t: string, i: nat, bound: Binding)
    requires i <= |t| && OneLine(t) && BoundOneLine(bound)
    ensures OneLine(Stringized(t, i, bound))
    decreases |t| - i
  {
    if i < |t| {
      var s := StringizeStep(t, i, bound);
      assert OneLine(s.text) by {
        var start := BlanksEnd(t, i + 1);
        var end := WordEnd(t, start);
        if t[start..end] in bound { DoubledOneLine(bound[t[start..end]]); }
      }
      StringizedOneLine(t, s.next, bound);
    }
  }

  lemma {:induction false} ReplacedOneLine(t: string, i: nat, bound: Binding)
    requires i <= |t| && OneLine(t) && BoundOneLine(bound)
    ensures OneLine(Replaced(t, i, bound))
    decreases |t| - i
  {
    if i < |t| { ReplacedOneLine(t, ReplaceStep(t, i, bound).next, bound); }
  }

  lemma {:induction false} SplicedOneLine(t: string, i: nat)
    requires i <= |t| && OneLine(t)
    ensures OneLine(Spliced(t, i))
    decreases |t| - i
  {
    if i < |t| { SplicedOneLine(t, SpliceStep(t, i).next); }
  }

  lemma SubstitutedOneLine(body: string, bound: Binding)
    requires OneLine(body) && BoundOneLine(bound)
    ensures OneLine(SubstituteBody(body, bound))
  {
    hide SubstituteLine;
    if body != "" {
      assert FirstNewline(body) == |body|;
      var line := Chomped(body[..|body|]);
      assert SplitLines(body) == [line];
      LineOneLine(line, bound);
      assert SubstituteLines([line], bound) == [SubstituteLine(line, bound)];
    }
  }

  lemma LineOneLine(line: string, bound: Binding)
    requires OneLine(line) && BoundOneLine(bound)
    ensures OneLine(SubstituteLine(line, bound))
  {
    hide OneLine, BoundOneLine;
    StringizedOneLine(line, 0, bound);
    ReplacedOneLine(Stringized(line, 0, bound), 0, bound);
    SplicedOneLine(Replaced(Stringized(line, 0, bound), 0, bound), 0);
  }

  /** The macro that the word at a position names, if that is expanded there, and
      the text it stands for. */
  datatype Called = Called(name: string, text: string)

  function CalledAt(m: Macros, active: seq<string>, t: string, i: nat): (c: Option<Called>)
    requires i < |t|
    ensures c.Some? ==> c.value.name in Live(m, active) && c.value.name in m
  {
    if StartsCopy(t, i) || !StartsWord(t, i) then None
    else
      var j := WordEnd(t, i);
      var word := t[i..j];
      if word == "__LINE__" || word == "__FILE__" || word !in Live(m, active) then None
      else
        match UseOf(m[word], t, j)
        case NoUse => None
        case BadCall(_) => None
        case Object => Some(Called(word, m[word].body))
        case Call(bound, _) => Some(Called(word, SubstituteBody(m[word].body, bound)))
  }

  lemma CalledStep(m: Macros, active: seq<string>, t: string, i: nat, loc: Loc)
    requires i < |t| && CalledAt(m, active, t, i).Some?
    ensures
      var c := CalledAt(m, active, t, i).value;
      ExpandStep(m, active, t, i, loc).text == Expand(m, active + [c.name], c.text, 0, loc)
  {
    hide Expand, WordEnd, UseOf, SubstituteBody, Live;
    FewerLive(m, active, CalledAt(m, active, t, i).value.name);
  }

  /** Somewhere in the expansion of a text, a macro is expanded whose body has
      several lines. */
  predicate CallsBlock(m: Macros, active: seq<string>, t: string, i: nat, loc: Loc)
    requires i <= |t|
    decreases |Live(m, active)|, |t| - i
  {
    i < |t|
    && (var c := CalledAt(m, active, t, i);
        || (c.Some? && (FewerLive(m, active, c.value.name);
                        '\n' in m[c.value.name].body || CallsBlock(m, active + [c.value.name], c.value.text, 0, loc)))
        || CallsBlock(m, active, t, ExpandStep(m, active, t, i, loc).next, loc))
  }

  lemma UseOneLine(def: MacroDef, t: string, j: nat)
    requires j <= |t| && OneLine(t)
    ensures UseOf(def, t, j).Call? ==> BoundOneLine(UseOf(def, t, j).bound)
  {
    var open := BlanksEnd(t, j);
    if def.isFunction && open < |t| && t[open] == '(' && ClosingParen(t, open, 0, false).Some? {
      var close := ClosingParen(t, open, 0, false).value;
      OpenIsNotClosing(t, open);
      var args := t[open + 1..close];
      PiecesOneLine(args, 0, 0, 0, false);
      BindOneLine(def, Arguments(args));
    }
  }

  /** What a macro call writes, given that its body is one line. */
  lemma CalledOneLine(m: Macros, active: seq<string>, t: string, i: nat)
    requires i < |t| && OneLine(t) && CalledAt(m, active, t, i).Some?
    requires OneLine(m[CalledAt(m, active, t, i).value.name].body)
    ensures OneLine(CalledAt(m, active, t, i).value.text)
  {
    hide UseOf, WordEnd, SubstituteBody, Live;
    var j := WordEnd(t, i);
    var word := t[i..j];
    UseOneLine(m[word], t, j);
    var use := UseOf(m[word], t, j);
    if use.Call? { SubstitutedOneLine(m[word].body, use.bound); }
  }

  /** Steps that expand no macro copy what they pass. */
  lemma PlainStep(m: Macros, active: seq<string>, t: string, i: nat, loc: Loc)
    requires i < |t| && CalledAt(m, active, t, i).None? && OneLine(t) && OneLine(loc.file)
    ensures OneLine(ExpandStep(m, active, t, i, loc).text)
  {
    hide Expand, UseOf, WordEnd, SubstituteBody, QuoteEnd, Live;
    DigitsOneLine(loc.line);
  }

  lemma DigitsOneLine(n: nat)
    ensures OneLine(Decimal.ToDec(n))
  {
  }

  /** Main result on lines: a line stays one line when it is expanded, provided
      that no macro with a body of several lines takes part. */
  lemma {:induction false} LineStaysLine(m: Macros, active: seq<string>, t: string, i: nat, loc: Loc)
    requires i <= |t| && OneLine(t) && OneLine(loc.file) && !CallsBlock(m, active, t, i, loc)
    ensures OneLine(Expand(m, active, t, i, loc))
    decreases |Live(m, active)|, |t| - i
  {
    hide ExpandStep, Live, CalledAt;
    if i < |t| {
      var c := CalledAt(m, active, t, i);
      if c.Some? {
        FewerLive(m, active, c.value.name);
        CalledOneLine(m, active, t, i);
        CalledStep(m, active, t, i, loc);
        LineStaysLine(m, active + [c.value.name], c.value.text, 0, loc);
      } else {
        PlainStep(m, active, t, i, loc);
      }
      LineStaysLine(m, active, t, ExpandStep(m, active, t, i, loc).next, loc);
    }
  }

  /* ----- and exactly when ----- */

  /** A call whose arguments do not fit: it is dropped with all that it holds. */
  predicate IsBadCall(m: Macros, active: seq<string>, t: string, i: nat)
    requires i < |t|
  {
    && !StartsCopy(t, i) && StartsWord(t, i)
    && var j := WordEnd(t, i);
       var word := t[i..j];
       word != "__LINE__" && word != "__FILE__" && word in Live(m, active) && UseOf(m[word], t, j).BadCall?
  }

  /** Reading a text, and in place of each call what it stands for, one comes to
      a line end: one that is not among the arguments of a call. */
  predicate ReadsLineEnd(m: Macros, active: seq<string>, t: string, i: nat, loc: Loc)
    requires i <= |t|
    decreases |Live(m, active)|, |t| - i
  {
    i < |t|
    && (var c := CalledAt(m, active, t, i);
        var next := ExpandStep(m, active, t, i, loc).next;
        || (if c.Some? then
              FewerLive(m, active, c.value.name);
              ReadsLineEnd(m, active + [c.value.name], c.value.text, 0, loc)
            else !IsBadCall(m, active, t, i) && '\n' in t[i..next])
        || ReadsLineEnd(m, active, t, next, loc))
  }

  /** A step that expands no macro writes a line end if it passes one and is no bad call. */
  lemma PlainStepBreaks(m: Macros, active: seq<string>, t: string, i: nat, loc: Loc)
    requires i < |t| && CalledAt(m, active, t, i).None? && OneLine(loc.file)
    ensures
      var s := ExpandStep(m, active, t, i, loc);
      '\n' in s.text <==> !IsBadCall(m, active, t, i) && '\n' in t[i..s.next]
  {
    hide Expand, UseOf, SubstituteBody, QuoteEnd, Live;
    DigitsOneLine(loc.line);
    if !StartsCopy(t, i) && !StartsWord(t, i) { assert t[i..i + 1] == [t[i]]; }
    var j := WordEnd(t, i);
    assert forall k :: 0 <= k < j - i ==> t[i..j][k] == t[i + k];
  }

  /** Main result on line ends: a text becomes several lines if and only if reading
      it comes to a line end. */
  lemma {:induction false} BreaksExactly(m: Macros, active: seq<string>, t: string, i: nat, loc: Loc)
    requires i <= |t| && OneLine(loc.file)
    ensures '\n' in Expand(m, active, t, i, loc) <==> ReadsLineEnd(m, active, t, i, loc)
    decreases |Live(m, active)|, |t| - i
  {
    hide ExpandStep, Live, CalledAt, IsBadCall;
    if i < |t| {
      var c := CalledAt(m, active, t, i);
      if c.Some? {
        FewerLive(m, active, c.value.name);
        CalledStep(m, active, t, i, loc);
        BreaksExactly(m, active + [c.value.name], c.value.text, 0, loc);
      } else {
        PlainStepBreaks(m, active, t, i, loc);
      }
      BreaksExactly(m, active, t, ExpandStep(m, active, t, i, loc).next, loc);
    }
  }

  /* ----- bodies that always break a line ----- */

  /** Every bracket before position `n` closes before it, or never. */
  predicate BracketsClose(t: string, i: nat, n: nat)
    requires n <= |t|
  {
    forall k :: i <= k < n && t[k] == '(' ==>
      var close := ClosingParen(t, k, 0, false);
      close.None? || close.value < n
  }

  /** A text of several lines, of which the first leaves no bracket open for a later
      one to close. */
  predicate BreaksEarly(t: string) { '\n' in t && BracketsClose(t, 0, FirstNewline(t)) }

  /** Somewhere in the expansion, a macro stands for such a text. */
  predicate BreaksLine(m: Macros, active: seq<string>, t: string, i: nat, loc: Loc)
    requires i <= |t|
    decreases |Live(m, active)|, |t| - i
  {
    i < |t|
    && (var c := CalledAt(m, active, t, i);
        || (c.Some? && (FewerLive(m, active, c.value.name);
                        BreaksEarly(c.value.text) || BreaksLine(m, active + [c.value.name], c.value.text, 0, loc)))
        || BreaksLine(m, active, t, ExpandStep(m, active, t, i, loc).next, loc))
  }

  /** A step that starts before the end of the first line either passes it, and
      writes it, or stops before it: only the arguments of a call can swallow it. */
  lemma StepKeepsNewline(m: Macros, active: seq<string>, t: string, i: nat, n: nat, loc: Loc)
    requires i <= n < |t| && t[n] == '\n' && BracketsClose(t, i, n)
    ensures ExpandStep(m, active, t, i, loc).next <= n || '\n' in ExpandStep(m, active, t, i, loc).text
  {
    hide Expand, SubstituteBody, Live;
    if StartsCopy(t, i) || !StartsWord(t, i) {
      if t[i] == '\'' { assert t[i..][n - i] == '\n'; }
      var q := QuoteEnd(t, i + 1);
      if t[i] == '"' && n < q { assert t[i..q][n - i] == '\n'; }
    } else {
      var j := WordEnd(t, i);
      WordStops(t, i, n);
      BlanksStop(t, j, n);
      UseStopsHere(t, j, n);
    }
  }

  lemma {:induction false} WordStops(t: string, i: nat, n: nat)
    requires i <= n < |t| && t[n] == '\n'
    ensures WordEnd(t, i) <= n
    decreases n - i
  {
    if i < n { WordStops(t, i + 1, n); }
  }

  lemma {:induction false} BlanksStop(t: string, i: nat, n: nat)
    requires i <= n < |t| && t[n] == '\n'
    ensures BlanksEnd(t, i) <= n
    decreases n - i
  {
    if i < n { BlanksStop(t, i + 1, n); }
  }

  lemma UseStopsHere(t: string, j: nat, n: nat)
    requires j <= n < |t| && t[n] == '\n' && BlanksEnd(t, j) <= n && BracketsClose(t, j, n)
    ensures forall def :: var u := UseOf(def, t, j); u.NoUse? || u.Object? || u.next <= n
  {
    hide ClosingParen, Arguments, Bind;
    var open := BlanksEnd(t, j);
    assert t[open] == '(' ==> open < n;
  }

  lemma {:induction false} NewlineSurvives(m: Macros, active: seq<string>, t: string, i: nat, n: nat, loc: Loc)
    requires i <= n < |t| && t[n] == '\n' && BracketsClose(t, i, n)
    ensures '\n' in Expand(m, active, t, i, loc)
    decreases n - i
  {
    hide ExpandStep;
    StepKeepsNewline(m, active, t, i, n, loc);
    var next := ExpandStep(m, active, t, i, loc).next;
    if next <= n { NewlineSurvives(m, active, t, next, n, loc); }
  }

  /** Main result on broken lines: a line becomes several when a macro stands for
      a text of several lines, unless there the first line leaves a bracket open
      and so lets the arguments of some call swallow the line end. */
  lemma {:induction false} LineBreaks(m: Macros, active: seq<string>, t: string, i: nat, loc: Loc)
    requires i <= |t| && BreaksLine(m, active, t, i, loc)
    ensures '\n' in Expand(m, active, t, i, loc)
    decreases |Live(m, active)|, |t| - i
  {
    hide ExpandStep, Live, CalledAt, FirstNewline;
    var c := CalledAt(m, active, t, i);
    if c.Some? && (BreaksEarly(c.value.text) || BreaksInside(m, active, c.value, loc)) {
      FewerLive(m, active, c.value.name);
      CalledStep(m, active, t, i, loc);
      if BreaksEarly(c.value.text) {
        EarlyNewline(c.value.text);
        NewlineSurvives(m, active + [c.value.name], c.value.text, 0, FirstNewline(c.value.text), loc);
      } else {
        LineBreaks(m, active + [c.value.name], c.value.text, 0, loc);
      }
    } else {
      LineBreaks(m, active, t, ExpandStep(m, active, t, i, loc).next, loc);
    }
  }

  predicate BreaksInside(m: Macros, active: seq<string>, c: Called, loc: Loc) {
    BreaksLine(m, active + [c.name], c.text, 0, loc)
  }

  lemma EarlyNewline(t: string)
    requires BreaksEarly(t)
    ensures FirstNewline(t) < |t| && t[FirstNewline(t)] == '\n' && BracketsClose(t, 0, FirstNewline(t))
  {
    assert t[..|t|] == t;
  }
}
