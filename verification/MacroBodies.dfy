/** What arguments become in macro bodies: literals that read back, words spliced
    together, and variadic arguments that split again. */
module MacroBodies {
  import opened Options
  import opened Chars
  import opened MacroText
  import PpExpr
  import PpExprMeaning

  predicate IsParam(p: string) { p != "" && IsNameStart(p[0]) && forall i :: 0 <= i < |p| ==> IsNameChar(p[i]) }

  /* ----- `#param` ----- */

  /** A string literal that starts at a position is closed. */
  predicate IsClosed(a: string, i: nat)
    requires i < |a|
  {
    a[i] == '"' && QuoteEnd(a, i + 1) >= i + 2 && a[QuoteEnd(a, i + 1) - 1] == '"'
  }

  /** From `i` on, the text is nothing but closed string literals. */
  predicate AllQuoted(t: string, i: nat)
    requires i <= |t|
    decreases |t| - i
  {
    i == |t| || (IsClosed(t, i) && AllQuoted(t, QuoteEnd(t, i + 1)))
  }

  lemma {:induction false} QuoteEndsAt(t: string, i: nat, j: nat)
    requires i <= j < |t| && t[j] == '"' && forall k :: i <= k < j ==> t[k] != '"'
    ensures QuoteEnd(t, i) == j + 1
    decreases j - i
  {
    if i < j { QuoteEndsAt(t, i + 1, j); }
  }

  /** What a literal's text after the opening quote begins with. */
  lemma DoubledParts(t: string, i: nat, a: string)
    requires i <= |t| && t[i..] == Doubled(a) + "\""
    ensures i < |t|
    ensures a == "" ==> t[i] == '"' && i + 1 == |t|
    ensures a != "" && a[0] == '"' ==>
              t[i] == '"' && i + 1 < |t| && t[i + 1] == '"' && t[i + 2..] == Doubled(a[1..]) + "\""
    ensures a != "" && a[0] != '"' ==> t[i] != '"' && t[i + 1..] == Doubled(a[1..]) + "\""
  {
    var u := t[i..];
    assert u[0] == t[i];
    if a != "" {
      var rest := Doubled(a[1..]) + "\"";
      if a[0] == '"' {
        assert u == "\"\"" + rest;
        assert u[1] == t[i + 1] && u[2..] == t[i + 2..];
      } else {
        assert u == [a[0]] + rest;
        assert u[1..] == t[i + 1..];
      }
    }
  }

  /** A text, of which some characters without quotes have been read, that ends
      as the literal for `a` does. */
  lemma {:induction false} LiteralIsQuoted(t: string, from: nat, i: nat, a: string)
    requires from < i <= |t| && t[from] == '"' && (forall k :: from < k < i ==> t[k] != '"')
    requires t[i..] == Doubled(a) + "\""
    ensures AllQuoted(t, from)
    decreases |a|
  {
    hide QuoteEnd, Doubled;
    DoubledParts(t, i, a);
    if a == "" {
      QuoteEndsAt(t, from + 1, i);
    } else if a[0] == '"' {
      QuoteEndsAt(t, from + 1, i);
      LiteralIsQuoted(t, i + 1, i + 2, a[1..]);
    } else {
      LiteralIsQuoted(t, from, i + 1, a[1..]);
    }
  }

  /* ----- the passes over a part of a line ----- */

  /** Where words, blanks and strings end does not depend on what stands before. */
  lemma {:induction false} EndsShift(x: string, y: string, i: nat)
    requires i <= |y|
    ensures WordEnd(x + y, |x| + i) == |x| + WordEnd(y, i)
    ensures BlanksEnd(x + y, |x| + i) == |x| + BlanksEnd(y, i)
    ensures QuoteEnd(x + y, |x| + i) == |x| + QuoteEnd(y, i)
    decreases |y| - i
  {
    if i < |y| {
      assert (x + y)[|x| + i] == y[i];
      EndsShift(x, y, i + 1);
    }
  }

  lemma SlicesShift(x: string, y: string, i: nat, j: nat)
    requires i <= j <= |y|
    ensures (x + y)[|x| + i..|x| + j] == y[i..j]
  {
  }

  /** `y` starts no word in the middle of one. */
  predicate Apart(x: string, y: string) { x == "" || y == "" || !IsNameChar(x[|x| - 1]) || !IsNameChar(y[0]) }

  function Moved(s: Step, n: nat): Step { s.(next := n + s.next) }

  lemma CopyShifts(x: string, y: string, i: nat)
    requires i < |y|
    ensures CopyStep(x + y, |x| + i) == Moved(CopyStep(y, i), |x|)
  {
    assert (x + y)[|x| + i] == y[i];
    EndsShift(x, y, i + 1);
    SlicesShift(x, y, i, QuoteEnd(y, i + 1));
    SlicesShift(x, y, i, |y|);
    assert (x + y)[|x| + i..] == (x + y)[|x| + i..|x| + |y|] && y[i..] == y[i..|y|];
  }

  lemma StringizeShifts(x: string, y: string, i: nat, bound: Binding)
    requires i < |y|
    ensures StringizeStep(x + y, |x| + i, bound) == Moved(StringizeStep(y, i, bound), |x|)
  {
    hide QuoteEnd, WordEnd, BlanksEnd, CopyStep, Doubled;
    var t := x + y;
    assert t[|x| + i] == y[i] && (i + 1 < |y| ==> t[|x| + i + 1] == y[i + 1]);
    CopyShifts(x, y, i);
    EndsShift(x, y, i + 1);
    var start := BlanksEnd(y, i + 1);
    EndsShift(x, y, start);
    SlicesShift(x, y, start, WordEnd(y, start));
  }

  lemma ReplaceShifts(x: string, y: string, i: nat, bound: Binding)
    requires i < |y| && (i == 0 ==> Apart(x, y))
    ensures ReplaceStep(x + y, |x| + i, bound) == Moved(ReplaceStep(y, i, bound), |x|)
  {
    hide QuoteEnd, WordEnd, CopyStep;
    var t := x + y;
    assert t[|x| + i] == y[i] && (i > 0 ==> t[|x| + i - 1] == y[i - 1]);
    assert i == 0 && x != "" ==> t[|x| - 1] == x[|x| - 1];
    CopyShifts(x, y, i);
    EndsShift(x, y, i);
    SlicesShift(x, y, i, WordEnd(y, i));
  }

  lemma SpliceShifts(x: string, y: string, i: nat)
    requires i < |y|
    ensures SpliceStep(x + y, |x| + i) == Moved(SpliceStep(y, i), |x|)
  {
    hide QuoteEnd, CopyStep;
    var t := x + y;
    assert t[|x| + i] == y[i] && (i + 1 < |y| ==> t[|x| + i + 1] == y[i + 1]);
    CopyShifts(x, y, i);
  }

  /** So a pass does to the rest of a line what it does to that rest alone. */
  lemma {:induction false} StringizedTail(x: string, y: string, i: nat, bound: Binding)
    requires i <= |y|
    ensures Stringized(x + y, |x| + i, bound) == Stringized(y, i, bound)
    decreases |y| - i
  {
    hide StringizeStep;
    if i < |y| {
      StringizeShifts(x, y, i, bound);
      StringizedTail(x, y, StringizeStep(y, i, bound).next, bound);
    }
  }

  lemma {:induction false} ReplacedTail(x: string, y: string, i: nat, bound: Binding)
    requires i <= |y| && (i == 0 ==> Apart(x, y))
    ensures Replaced(x + y, |x| + i, bound) == Replaced(y, i, bound)
    decreases |y| - i
  {
    hide ReplaceStep;
    if i < |y| {
      ReplaceShifts(x, y, i, bound);
      ReplacedTail(x, y, ReplaceStep(y, i, bound).next, bound);
    }
  }

  lemma {:induction false} SplicedTail(x: string, y: string, i: nat)
    requires i <= |y|
    ensures Spliced(x + y, |x| + i) == Spliced(y, i)
    decreases |y| - i
  {
    hide SpliceStep;
    if i < |y| {
      SpliceShifts(x, y, i);
      SplicedTail(x, y, SpliceStep(y, i).next);
    }
  }

  /** From `i` on, text that the passes leave alone: no comment, no `#`, no word
      that names a parameter, except within closed string literals. */
  predicate Quiet(a: string, i: nat, bound: Binding)
    requires i <= |a|
    decreases |a| - i
  {
    if i == |a| then true
    else if a[i] == '"' then IsClosed(a, i) && Quiet(a, QuoteEnd(a, i + 1), bound)
    else if IsNameChar(a[i]) then a[i..WordEnd(a, i)] !in bound && Quiet(a, WordEnd(a, i), bound)
    else a[i] != '\'' && a[i] != '#' && Quiet(a, i + 1, bound)
  }

  /** A closed literal, or a word, ends where it does whatever follows. */
  lemma {:induction false} QuoteEndStays(a: string, y: string, i: nat)
    requires i <= |a| && (QuoteEnd(a, i) > i ==> a[QuoteEnd(a, i) - 1] == '"') && QuoteEnd(a, i) > i
    ensures QuoteEnd(a + y, i) == QuoteEnd(a, i)
    decreases |a| - i
  {
    assert (a + y)[i] == a[i];
    if a[i] != '"' {
      if i + 1 == |a| { assert QuoteEnd(a, i) == |a| && a[|a| - 1] == a[i]; }
      QuoteEndStays(a, y, i + 1);
    }
  }

  lemma {:induction false} WordEndStays(a: string, y: string, i: nat)
    requires i <= |a| && (y == "" || !IsNameChar(y[0]) || WordEnd(a, i) < |a|)
    ensures WordEnd(a + y, i) == WordEnd(a, i)
    decreases |a| - i
  {
    if i < |a| {
      assert (a + y)[i] == a[i];
      if IsNameChar(a[i]) { WordEndStays(a, y, i + 1); }
    } else if y != "" {
      assert (a + y)[i] == y[0];
    }
  }

  /** All three passes copy quiet text at the start of a line. */
  lemma {:induction false} QuietIsKept(a: string, y: string, i: nat, bound: Binding)
    requires i <= |a| && Quiet(a, i, bound) && Apart(a, y)
    requires i > 0 && i < |a| && IsNameChar(a[i]) ==> !IsNameChar(a[i - 1])
    ensures Stringized(a + y, i, bound) == a[i..] + Stringized(a + y, |a|, bound)
    ensures Replaced(a + y, i, bound) == a[i..] + Replaced(a + y, |a|, bound)
    ensures Spliced(a + y, i) == a[i..] + Spliced(a + y, |a|)
    decreases |a| - i
  {
    hide Stringized, Replaced, Spliced;
    if i < |a| {
      var j := QuietEnd(a, i);
      QuietSteps(a, y, i, bound);
      WordsEndApart(a, i);
      QuietIsKept(a, y, j, bound);
      PutTogether(a, i, j, Stringized(a + y, |a|, bound));
      PutTogether(a, i, j, Replaced(a + y, |a|, bound));
      PutTogether(a, i, j, Spliced(a + y, |a|));
    } else {
      assert a[i..] == "";
    }
  }

  lemma PutTogether(a: string, i: nat, j: nat, rest: string)
    requires i <= j <= |a|
    ensures a[i..j] + (a[j..] + rest) == a[i..] + rest
  {
    assert a[i..j] + a[j..] == a[i..];
  }

  /** The end of the literal, word or character at a position. */
  function QuietEnd(a: string, i: nat): (j: nat)
    requires i < |a|
    ensures i < j <= |a|
  {
    if a[i] == '"' then QuoteEnd(a, i + 1) else if IsNameChar(a[i]) then WordEnd(a, i) else i + 1
  }

  lemma {:induction false} WordEndIsEnd(a: string, i: nat)
    requires i <= |a|
    ensures WordEnd(a, i) < |a| ==> !IsNameChar(a[WordEnd(a, i)])
    decreases |a| - i
  {
    if i < |a| && IsNameChar(a[i]) { WordEndIsEnd(a, i + 1); }
  }

  lemma WordsEndApart(a: string, i: nat)
    requires i < |a|
    ensures var j := QuietEnd(a, i); j < |a| && IsNameChar(a[j]) ==> !IsNameChar(a[j - 1])
  {
    if IsNameChar(a[i]) { WordEndIsEnd(a, i); }
    if a[i] == '"' { QuoteEndIsQuote(a, i + 1); }
  }

  lemma {:induction false} QuoteEndIsQuote(a: string, i: nat)
    requires i <= |a|
    ensures QuoteEnd(a, i) < |a| ==> QuoteEnd(a, i) > i && a[QuoteEnd(a, i) - 1] == '"'
    decreases |a| - i
  {
    if i < |a| && a[i] != '"' { QuoteEndIsQuote(a, i + 1); }
  }

  lemma QuietSteps(a: string, y: string, i: nat, bound: Binding)
    requires i < |a| && Quiet(a, i, bound) && Apart(a, y) && (i > 0 && IsNameChar(a[i]) ==> !IsNameChar(a[i - 1]))
    ensures
      var (t, j) := (a + y, QuietEnd(a, i));
      && Quiet(a, j, bound)
      && Stringized(t, i, bound) == a[i..j] + Stringized(t, j, bound)
      && Replaced(t, i, bound) == a[i..j] + Replaced(t, j, bound)
      && Spliced(t, i) == a[i..j] + Spliced(t, j)
  {
    hide Stringized, Replaced, Spliced;
    var (t, j) := (a + y, QuietEnd(a, i));
    assert t[i] == a[i] && (i > 0 ==> t[i - 1] == a[i - 1]) && t[i..j] == a[i..j];
    if IsNameChar(a[i]) {
      WordEndStaysHere(a, y, i);
      WordCopied(t, i, j, bound);
    } else {
      if a[i] == '"' { QuoteEndStays(a, y, i + 1); }
      var s := Step(t[i..j], j);
      assert CopyStep(t, i) == s;
      StringizedStep(t, i, bound, s, "");
      ReplacedStep(t, i, bound, s, "");
      SplicedStep(t, i, s, "");
      EmptyFirst(Stringized(t, i, bound), s.text, Stringized(t, j, bound));
      EmptyFirst(Replaced(t, i, bound), s.text, Replaced(t, j, bound));
      EmptyFirst(Spliced(t, i), s.text, Spliced(t, j));
    }
  }

  lemma EmptyFirst(x: string, y: string, z: string)
    ensures "" + x == "" + y + z ==> x == y + z
  {
    assert "" + x == x && "" + y == y;
  }

  lemma WordEndStaysHere(a: string, y: string, i: nat)
    requires i < |a| && IsNameChar(a[i]) && Apart(a, y)
    ensures WordEnd(a + y, i) == WordEnd(a, i)
  {
    if WordEnd(a, i) == |a| { assert IsNameChar(a[|a| - 1]); }
    WordEndStays(a, y, i);
  }

  /** A word that names no parameter is copied: at once, or letter by letter. */
  lemma WordCopied(t: string, i: nat, j: nat, bound: Binding)
    requires i < j <= |t| && j == WordEnd(t, i) && t[i..j] !in bound && (i == 0 || !IsNameChar(t[i - 1]))
    ensures Stringized(t, i, bound) == t[i..j] + Stringized(t, j, bound)
    ensures Replaced(t, i, bound) == t[i..j] + Replaced(t, j, bound)
    ensures Spliced(t, i) == t[i..j] + Spliced(t, j)
  {
    hide Stringized, Replaced, Spliced, WordEnd;
    LettersKept(t, i, j, bound);
    assert ReplaceStep(t, i, bound) == Step(t[i..j], j);
    ReplacedStep(t, i, bound, Step(t[i..j], j), "");
    EmptyFirst(Replaced(t, i, bound), t[i..j], Replaced(t, j, bound));
  }

  lemma {:induction false} LettersKept(t: string, i: nat, j: nat, bound: Binding)
    requires i <= j <= |t| && forall k :: i <= k < j ==> IsNameChar(t[k])
    ensures Stringized(t, i, bound) == t[i..j] + Stringized(t, j, bound)
    ensures Spliced(t, i) == t[i..j] + Spliced(t, j)
    decreases j - i
  {
    hide Stringized, Spliced;
    if i < j {
      LettersKept(t, i + 1, j, bound);
      var s := Step([t[i]], i + 1);
      assert StringizeStep(t, i, bound) == s && SpliceStep(t, i) == s;
      StringizedStep(t, i, bound, s, "");
      SplicedStep(t, i, s, "");
      EmptyFirst(Stringized(t, i, bound), s.text, Stringized(t, i + 1, bound));
      EmptyFirst(Spliced(t, i), s.text, Spliced(t, i + 1));
      assert [t[i]] + t[i + 1..j] == t[i..j];
    } else {
      assert t[i..j] == "";
    }
  }

  lemma {:induction false} WordRuns(t: string, i: nat, j: nat)
    requires i <= j <= |t| && (forall k :: i <= k < j ==> IsNameChar(t[k])) && (j < |t| ==> !IsNameChar(t[j]))
    ensures WordEnd(t, i) == j
    decreases j - i
  {
    if i < j { WordRuns(t, i + 1, j); }
  }

  /** A line that is quiet throughout is not changed. */
  lemma QuietIsUnchanged(t: string, bound: Binding)
    requires Quiet(t, 0, bound)
    ensures SubstituteLine(t, bound) == t
  {
    hide Stringized, Replaced, Spliced;
    QuietIsKept(t, "", 0, bound);
    assert t + "" == t && t[0..] == t;
    EndsAreEmpty(t, bound);
  }

  lemma EndsAreEmpty(t: string, bound: Binding)
    ensures Stringized(t, |t|, bound) == "" && Replaced(t, |t|, bound) == "" && Spliced(t, |t|) == ""
  {
  }

  /* ----- `#param` in a line ----- */

  function Literal(a: string): string { "\"" + Doubled(a) + "\"" }

  /** The later passes copy literals. */
  lemma {:induction false} QuotedIsKept(l: string, y: string, i: nat, bound: Binding)
    requires i <= |l| && AllQuoted(l, i)
    ensures Replaced(l + y, i, bound) == l[i..] + Replaced(l + y, |l|, bound)
    ensures Spliced(l + y, i) == l[i..] + Spliced(l + y, |l|)
    decreases |l| - i
  {
    hide Replaced, Spliced;
    if i < |l| {
      var (t, j) := (l + y, QuoteEnd(l, i + 1));
      assert t[i] == l[i] && t[i..j] == l[i..j];
      QuoteEndStays(l, y, i + 1);
      var s := Step(t[i..j], j);
      assert CopyStep(t, i) == s;
      ReplacedStep(t, i, bound, s, "");
      SplicedStep(t, i, s, "");
      EmptyFirst(Replaced(t, i, bound), s.text, Replaced(t, j, bound));
      EmptyFirst(Spliced(t, i), s.text, Spliced(t, j));
      QuotedIsKept(l, y, j, bound);
      assert l[i..j] + l[j..] == l[i..];
    } else {
      assert l[i..] == "";
    }
  }

  lemma LiteralQuoted(a: string)
    ensures AllQuoted(Literal(a), 0)
  {
    assert Literal(a)[1..] == Doubled(a) + "\"";
    LiteralIsQuoted(Literal(a), 0, 1, a);
  }

  /** The literal that `#p` became is left alone, and so is what follows it. */
  lemma LiteralPasses(v: string, y: string, bound: Binding)
    ensures Replaced(Literal(v) + y, 0, bound) == Literal(v) + Replaced(y, 0, bound)
    ensures Spliced(Literal(v) + y, 0) == Literal(v) + Spliced(y, 0)
  {
    hide Replaced, Spliced;
    var l := Literal(v);
    LiteralQuoted(v);
    QuotedIsKept(l, y, 0, bound);
    ReplacedTail(l, y, 0, bound);
    SplicedTail(l, y, 0);
    assert l[0..] == l;
  }

  /** Quiet text at the start of a line passes as it is, without changing the rest. */
  lemma QuietPasses(a: string, y: string, bound: Binding)
    requires Quiet(a, 0, bound) && Apart(a, y)
    ensures Stringized(a + y, 0, bound) == a + Stringized(y, 0, bound)
    ensures Replaced(a + y, 0, bound) == a + Replaced(y, 0, bound)
    ensures Spliced(a + y, 0) == a + Spliced(y, 0)
  {
    hide Stringized, Replaced, Spliced;
    QuietIsKept(a, y, 0, bound);
    StringizedTail(a, y, 0, bound);
    ReplacedTail(a, y, 0, bound);
    SplicedTail(a, y, 0);
    assert a[0..] == a;
  }

  lemma ParamStringized(p: string, b: string, bound: Binding)
    requires IsParam(p) && p in bound && (b == "" || !IsNameChar(b[0]))
    ensures Stringized("#" + p + b, 0, bound) == Literal(bound[p]) + Stringized(b, 0, bound)
  {
    hide Stringized, Doubled;
    var t := "#" + p + b;
    assert t[1] == p[0] && (forall k :: 1 <= k < 1 + |p| ==> t[k] == p[k - 1]);
    assert b != "" ==> t[1 + |p|] == b[0];
    WordRuns(t, 1, 1 + |p|);
    assert t[1..1 + |p|] == p && t == ("#" + p) + b;
    StringizedStep(t, 0, bound, Step(Literal(bound[p]), 1 + |p|), "");
    StringizedTail("#" + p, b, 0, bound);
    EmptyFirst(Stringized(t, 0, bound), Literal(bound[p]), Stringized(b, 0, bound));
  }

  /** Main result: `#p` becomes one string literal, which the `#if` evaluator reads
      as the argument's text whatever that holds; the rest of the line is expanded
      as if it stood alone. */
  lemma StringizedReadsBack(a: string, p: string, b: string, bound: Binding)
    requires IsParam(p) && p in bound
    requires Quiet(a, 0, bound) && (b == "" || !IsNameChar(b[0]))
    ensures
      var (v, rest) := (bound[p], SubstituteLine(b, bound));
      && SubstituteLine(a + "#" + p + b, bound) == a + Literal(v) + rest
      && (rest == "" || rest[0] != '"' ==> PpExpr.Lex(Literal(v) + rest) == (Some(PpExpr.StrTok(v)), rest))
  {
    hide Stringized, Replaced, Spliced, PpExpr.Lex;
    var v := bound[p];
    var (strings, l) := (Stringized(b, 0, bound), Literal(v));
    var params := Replaced(strings, 0, bound);
    ParamStringized(p, b, bound);
    assert a + "#" + p + b == a + ("#" + p + b);
    QuietPasses(a, "#" + p + b, bound);
    LiteralPasses(v, strings, bound);
    QuietPasses(a, l + strings, bound);
    LiteralPasses(v, params, bound);
    QuietPasses(a, l + params, bound);
    var rest := Spliced(params, 0);
    assert a + (l + rest) == a + l + rest;
    if rest == "" || rest[0] != '"' { PpExprMeaning.LexesString(v, rest); }
  }

  /* ----- `left##right` in a line ----- */

  /** Read from `i` on, the text leaves no string and no comment open. */
  predicate InCode(t: string, i: nat)
    requires i <= |t|
    decreases |t| - i
  {
    if i == |t| then true
    else if t[i] == '"' then IsClosed(t, i) && InCode(t, QuoteEnd(t, i + 1))
    else t[i] != '\'' && InCode(t, i + 1)
  }

  /** Read from `i` on, the text has no `##` outside strings and comments. */
  predicate Unmarked(t: string, i: nat)
    requires i <= |t|
    decreases |t| - i
  {
    i == |t| || (SpliceStep(t, i).text != "" && Unmarked(t, SpliceStep(t, i).next))
  }

  lemma SpliceTexts(t: string, i: nat)
    requires i < |t|
    ensures var s := SpliceStep(t, i); s.text == t[i..s.next] || (s.text == "" && s.next == i + 2)
  {
  }

  /** Splicing changes exactly the texts with a mark. */
  lemma {:induction false} SplicedKeeps(t: string, i: nat)
    requires i <= |t|
    ensures if Unmarked(t, i) then Spliced(t, i) == t[i..] else |Spliced(t, i)| + 2 <= |t| - i
    decreases |t| - i
  {
    hide SpliceStep;
    if i < |t| {
      var s := SpliceStep(t, i);
      SpliceTexts(t, i);
      SplicedKeeps(t, s.next);
      assert t[i..s.next] + t[s.next..] == t[i..];
    }
  }

  /** Splicing at a place where the first part is still read alike, with or without
      a mark behind it. */
  lemma SameStep(v: string, w: string, i: nat)
    requires i < |v| && v[i] != '\'' && (v[i] == '"' ==> IsClosed(v, i)) && (i + 1 == |v| ==> v[i] != '#')
    ensures SpliceStep(v + "##" + w, i) == SpliceStep(v, i) == SpliceStep(v + w, i)
  {
    hide QuoteEnd;
    if v[i] == '"' {
      QuoteEndStays(v, "##" + w, i + 1);
      QuoteEndStays(v, w, i + 1);
      assert v + ("##" + w) == v + "##" + w;
      var j := QuoteEnd(v, i + 1);
      assert (v + "##" + w)[i..j] == v[i..j] == (v + w)[i..j];
    }
  }

  lemma InCodeStep(v: string, i: nat)
    requires i < |v| && (v[i] == '"' ==> IsClosed(v, i)) && v[i] != '\''
    ensures InCode(v, i) == InCode(v, SpliceStep(v, i).next)
  {
  }

  /** A text cut just before its last `#`. */
  lemma LastHash(v: string, w: string)
    requires v != "" && v[|v| - 1] == '#'
    ensures Spliced(v + "##" + w, |v| - 1) == Spliced("#" + w, 0) == Spliced(v + w, |v| - 1)
  {
    hide Spliced;
    var (x, t, i) := (v[..|v| - 1], v + "##" + w, |v| - 1);
    assert v + w == x + ("#" + w) && t == (v + "#") + ("#" + w);
    SplicedTail(x, "#" + w, 0);
    SplicedTail(v + "#", "#" + w, 0);
    assert SpliceStep(t, i) == Step("", |v| + 1);
    SplicedStep(t, i, Step("", |v| + 1), "");
    EmptyFirst(Spliced(t, i), "", Spliced(t, |v| + 1));
  }

  lemma MarkFirst(v: string, w: string)
    ensures Spliced(v + "##" + w, |v|) == Spliced(w, 0) == Spliced(v + w, |v|)
  {
    hide Spliced;
    var t := v + "##" + w;
    SplicedTail(v, w, 0);
    SplicedTail(v + "##", w, 0);
    assert SpliceStep(t, |v|) == Step("", |v| + 2);
    SplicedStep(t, |v|, Step("", |v| + 2), "");
    EmptyFirst(Spliced(t, |v|), "", Spliced(t, |v| + 2));
  }

  /** A mark after code joins; after an open string or comment it stays. */
  lemma {:induction false} MarkJoins(v: string, w: string, i: nat)
    requires i <= |v|
    ensures
      var (marked, plain) := (Spliced(v + "##" + w, i), Spliced(v + w, i));
      if InCode(v, i) then marked == plain else |marked| == |plain| + 2
    decreases |v| - i
  {
    hide Spliced, SpliceStep;
    if i == |v| {
      MarkFirst(v, w);
    } else if i + 1 == |v| && v[i] == '#' {
      LastHash(v, w);
      assert InCode(v, i + 1);
    } else if v[i] == '\'' || (v[i] == '"' && !IsClosed(v, i)) {
      MarkStays(v, w, i);
    } else {
      var s := SpliceStep(v, i);
      SameStep(v, w, i);
      InCodeStep(v, i);
      MarkJoins(v, w, s.next);
      SplicedStep(v + "##" + w, i, s, "");
      SplicedStep(v + w, i, s, "");
      EmptyFirst(Spliced(v + "##" + w, i), s.text, Spliced(v + "##" + w, s.next));
      EmptyFirst(Spliced(v + w, i), s.text, Spliced(v + w, s.next));
    }
  }

  /** An open string goes on behind the mark as it would without one. */
  lemma {:induction false} OpenGoesOn(v: string, w: string, i: nat)
    requires i <= |v| && QuoteEnd(v, i) == |v| && (i < |v| ==> v[|v| - 1] != '"')
    ensures QuoteEnd(v + "##" + w, i) == QuoteEnd(w, 0) + |v| + 2 && QuoteEnd(v + w, i) == QuoteEnd(w, 0) + |v|
    decreases |v| - i
  {
    hide QuoteEnd;
    var t := v + "##" + w;
    if i < |v| {
      assert t[i] == v[i] == (v + w)[i];
      OpenStep(v, i);
      OpenGoesOn(v, w, i + 1);
      OpenStep(t, i);
      OpenStep(v + w, i);
      assert v[i] != '"' by { assert v[i] == '"' ==> i == |v| - 1; }
    } else {
      assert t[|v|] == '#' && t[|v| + 1] == '#';
      OpenStep(t, |v|);
      OpenStep(t, |v| + 1);
      assert |v + "##"| == |v| + 2;
      EndsShift(v + "##", w, 0);
      EndsShift(v, w, 0);
    }
  }

  lemma OpenStep(t: string, i: nat)
    requires i < |t|
    ensures QuoteEnd(t, i) == if t[i] == '"' then i + 1 else QuoteEnd(t, i + 1)
  {
  }

  lemma NotClosed(v: string, i: nat)
    requires i < |v| && v[i] == '"' && !IsClosed(v, i)
    ensures QuoteEnd(v, i + 1) == |v| && (i + 1 < |v| ==> v[|v| - 1] != '"')
  {
    QuoteEndIsQuote(v, i + 1);
  }

  lemma MarkStays(v: string, w: string, i: nat)
    requires i < |v| && (v[i] == '\'' || (v[i] == '"' && !IsClosed(v, i)))
    ensures |Spliced(v + "##" + w, i)| == |Spliced(v + w, i)| + 2
  {
    hide Spliced, QuoteEnd;
    var t := v + "##" + w;
    if v[i] == '\'' {
      SplicedStep(t, i, Step(t[i..], |t|), "");
      SplicedStep(v + w, i, Step((v + w)[i..], |v + w|), "");
      SplicedEnd(t);
      SplicedEnd(v + w);
    } else {
      NotClosed(v, i);
      OpenGoesOn(v, w, i + 1);
      var j := QuoteEnd(w, 0);
      SplicedStep(t, i, Step(t[i..|v| + 2 + j], |v| + 2 + j), "");
      SplicedStep(v + w, i, Step((v + w)[i..|v| + j], |v| + j), "");
      SplicedTail(v + "##", w, j);
      SplicedTail(v, w, j);
    }
  }

  lemma SplicedEnd(t: string)
    ensures Spliced(t, |t|) == ""
  {
  }

  lemma {:induction false} HashesAreCode(v: string, i: nat)
    requires i <= |v| && forall k :: i <= k < |v| ==> v[k] == '#'
    ensures InCode(v, i)
    decreases |v| - i
  {
    if i < |v| { HashesAreCode(v, i + 1); }
  }

  /** What is equal to itself two places on, and starts with two marks, is all marks. */
  lemma {:induction false} AllHashes(t: string, i: nat, n: nat, k: nat)
    requires i + 1 < |t| && t[i] == t[i + 1] == '#' && n + 2 <= |t|
    requires forall m :: i <= m < n ==> t[m] == t[m + 2]
    requires i <= k < n + 2
    ensures t[k] == '#'
    decreases k
  {
    if k >= i + 2 {
      AllHashes(t, i, n, k - 2);
      assert t[k - 2] == t[k - 2 + 2];
    }
  }

  lemma LastIsCode(v: string, i: nat)
    requires i < |v|
    ensures i + 1 == |v| && v[i] == '#' ==> InCode(v, i)
  {
    if i + 1 == |v| { assert InCode(v, i + 1); }
  }

  /** After an open string or comment, joining fails whatever else splicing removes. */
  lemma {:induction false} OpenFails(v: string, w: string, i: nat)
    requires i <= |v| && !InCode(v, i)
    ensures Spliced(v + "##" + w, i) != v[i..] + w
    decreases |v| - i
  {
    hide Spliced, SpliceStep;
    var t := v + "##" + w;
    if v[i] == '\'' || (v[i] == '"' && !IsClosed(v, i)) {
      OpenFailsHere(v, w, i);
    } else if IsConcat(v, i) {
      MarkedFails(v, w, i);
    } else {
      LastIsCode(v, i);
      var s := SpliceStep(v, i);
      SpliceTexts(v, i);
      SameStep(v, w, i);
      InCodeStep(v, i);
      OpenFails(v, w, s.next);
      NoMarkText(v, i);
      SplicedStep(t, i, s, "");
      EmptyFirst(Spliced(t, i), s.text, Spliced(t, s.next));
      assert v[i..] == s.text + v[s.next..];
      assert v[i..] + w == s.text + (v[s.next..] + w);
      Cancel(s.text, Spliced(t, s.next), v[s.next..] + w);
    }
  }

  lemma Cancel(x: string, y: string, z: string)
    requires y != z
    ensures x + y != x + z
  {
    assert (x + y)[|x|..] == y && (x + z)[|x|..] == z;
  }

  lemma NoMarkText(v: string, i: nat)
    requires i < |v| && !IsConcat(v, i)
    ensures SpliceStep(v, i).text == v[i..SpliceStep(v, i).next]
  {
  }

  /** Within the first part a mark was removed, so the two texts have one length
      only if nothing else is; then they differ unless all between is marks. */
  lemma MarkedFails(v: string, w: string, i: nat)
    requires i < |v| && !InCode(v, i) && IsConcat(v, i)
    ensures Spliced(v + "##" + w, i) != v[i..] + w
  {
    hide Spliced, InCode, Unmarked;
    var t := v + "##" + w;
    assert t[i] == v[i] && t[i + 1] == v[i + 1];
    SplicedStep(t, i, Step("", i + 2), "");
    EmptyFirst(Spliced(t, i), "", Spliced(t, i + 2));
    SplicedKeeps(t, i + 2);
    if Spliced(t, i) == v[i..] + w {
      forall m | i <= m < |v| ensures t[m] == t[m + 2] {
        assert t[m + 2] == t[i + 2..][m - i] == (v[i..] + w)[m - i] == v[m];
      }
      forall k | i <= k < |v| ensures v[k] == '#' {
        AllHashes(t, i, |v|, k);
        assert t[k] == v[k];
      }
      HashesAreCode(v, i);
    }
  }

  lemma OpenFailsHere(v: string, w: string, i: nat)
    requires i < |v| && (v[i] == '\'' || (v[i] == '"' && !IsClosed(v, i)))
    ensures Spliced(v + "##" + w, i) != v[i..] + w
  {
    hide Spliced, QuoteEnd;
    var t := v + "##" + w;
    if v[i] == '\'' {
      SplicedStep(t, i, Step(t[i..], |t|), "");
      SplicedEnd(t);
    } else {
      NotClosed(v, i);
      OpenGoesOn(v, w, i + 1);
      var e := |v| + 2 + QuoteEnd(w, 0);
      SplicedStep(t, i, Step(t[i..e], e), "");
      EmptyFirst(Spliced(t, i), t[i..e], Spliced(t, e));
      QuoteEndIsQuote(w, 0);
      if e == |t| {
        SplicedEnd(t);
      } else if Spliced(t, i) == v[i..] + w {
        LiteralDiffers(v, w, i, e, Spliced(t, e));
      }
    }
  }

  lemma LiteralDiffers(v: string, w: string, i: nat, e: nat, rest: string)
    requires i < |v| && |v| + 2 < e <= |v| + 2 + |w| && (v + "##" + w)[e - 1] == '"'
    ensures (v + "##" + w)[i..e] + rest != v[i..] + w
  {
    var t := v + "##" + w;
    if t[i..e] + rest == v[i..] + w {
      forall m | |v| <= m < e - 2 ensures t[m] == t[m + 2] {
        assert t[m] == (t[i..e] + rest)[m - i] == (v[i..] + w)[m - i] == w[m - |v|] == t[m + 2];
      }
      assert t[|v|] == t[|v| + 1] == '#';
      AllHashes(t, |v|, e - 2, e - 1);
    }
  }

  /** Splicing around a mark yields the two parts, put together, if and only if the
      first leaves no string or comment open and together they hold no mark. */
  lemma JoinsExactly(v: string, w: string)
    ensures Spliced(v + "##" + w, 0) == v + w <==> InCode(v, 0) && Unmarked(v + w, 0)
  {
    hide Spliced, InCode, Unmarked;
    assert v[0..] == v && (v + w)[0..] == v + w;
    MarkJoins(v, w, 0);
    SplicedKeeps(v + w, 0);
    if !InCode(v, 0) { OpenFails(v, w, 0); }
  }

  lemma {:induction false} StringizedStarts(b: string, bound: Binding)
    requires b == "" || !IsNameChar(b[0])
    ensures Stringized(b, 0, bound) == "" || !IsNameChar(Stringized(b, 0, bound)[0])
  {
    if b != "" {
      hide Doubled, QuoteEnd, WordEnd, BlanksEnd, Stringized;
      var s := StringizeStep(b, 0, bound);
      assert s.text != "" && !IsNameChar(s.text[0]);
      StringizedStep(b, 0, bound, s, "");
      EmptyFirst(Stringized(b, 0, bound), s.text, Stringized(b, s.next, bound));
    }
  }

  lemma MarkStringized(y: string, bound: Binding)
    ensures Stringized("##" + y, 0, bound) == "##" + Stringized(y, 0, bound)
    ensures Replaced("##" + y, 0, bound) == "##" + Replaced(y, 0, bound)
  {
    hide Stringized, Replaced;
    var t := "##" + y;
    StringizedStep(t, 0, bound, Step("##", 2), "");
    EmptyFirst(Stringized(t, 0, bound), "##", Stringized(t, 2, bound));
    StringizedTail("##", y, 0, bound);
    ReplacedStep(t, 0, bound, Step("#", 1), "");
    ReplacedStep(t, 1, bound, Step("#", 2), "#");
    ReplacedTail("##", y, 0, bound);
    assert "" + Replaced(t, 0, bound) == Replaced(t, 0, bound) && "" + "#" == "#" && "#" + "#" == "##";
  }

  lemma ParamReplaced(p: string, y: string, bound: Binding)
    requires IsParam(p) && p in bound && (y == "" || !IsNameChar(y[0]))
    ensures Stringized(p + y, 0, bound) == p + Stringized(y, 0, bound)
    ensures Replaced(p + y, 0, bound) == bound[p] + Replaced(y, 0, bound)
  {
    hide Stringized, Replaced;
    var t := p + y;
    assert forall k :: 0 <= k < |p| ==> t[k] == p[k];
    assert t[0..|p|] == p && (y != "" ==> t[|p|] == y[0]);
    LettersKept(t, 0, |p|, bound);
    StringizedTail(p, y, 0, bound);
    WordRuns(t, 0, |p|);
    ReplacedStep(t, 0, bound, Step(bound[p], |p|), "");
    EmptyFirst(Replaced(t, 0, bound), bound[p], Replaced(t, |p|, bound));
    ReplacedTail(p, y, 0, bound);
  }

  /** Main result: `p##q` in a line joins the two arguments as if they were written
      next to each other, if and only if the first leaves no string or comment open;
      and they, with what follows, come out as they are if and only if besides none
      of it holds a mark. */
  lemma ConcatJoins(a: string, p: string, q: string, b: string, bound: Binding)
    requires IsParam(p) && IsParam(q) && p in bound && q in bound
    requires Quiet(a, 0, bound) && (a == "" || !IsNameChar(a[|a| - 1])) && (b == "" || !IsNameChar(b[0]))
    ensures
      var (v, w) := (bound[p], bound[q] + Replaced(Stringized(b, 0, bound), 0, bound));
      var line := SubstituteLine(a + p + "##" + q + b, bound);
      && (line == a + Spliced(v + w, 0) <==> InCode(v, 0))
      && (line == a + v + w <==> InCode(v, 0) && Unmarked(v + w, 0))
  {
    hide *;
    ConcatLine(a, p, q, b, bound);
    var (v, w) := (bound[p], bound[q] + Replaced(Stringized(b, 0, bound), 0, bound));
    MarkJoins(v, w, 0);
    JoinsExactly(v, w);
    assert a + v + w == a + (v + w);
    SameAfter(a, Spliced(v + "##" + w, 0), v + w);
    SameAfter(a, Spliced(v + "##" + w, 0), Spliced(v + w, 0));
  }

  lemma SameAfter(x: string, y: string, z: string)
    ensures x + y == x + z <==> y == z
  {
    if y != z { Cancel(x, y, z); }
  }

  /** What the three passes make of `p##q` in a line. */
  lemma ConcatLine(a: string, p: string, q: string, b: string, bound: Binding)
    requires IsParam(p) && IsParam(q) && p in bound && q in bound
    requires Quiet(a, 0, bound) && (a == "" || !IsNameChar(a[|a| - 1])) && (b == "" || !IsNameChar(b[0]))
    ensures
      var (v, w) := (bound[p], bound[q] + Replaced(Stringized(b, 0, bound), 0, bound));
      SubstituteLine(a + p + "##" + q + b, bound) == a + Spliced(v + "##" + w, 0)
  {
    hide Stringized, Replaced, Spliced, Quiet, SubstituteLine;
    QuietLine(a, p + ("##" + (q + b)), bound);
    BareConcat(p, q, b, bound);
    assert a + p + "##" + q + b == a + (p + ("##" + (q + b)));
  }

  /** Quiet text in front, not ending within a word, changes nothing for a line. */
  lemma QuietLine(a: string, y: string, bound: Binding)
    requires Quiet(a, 0, bound) && (a == "" || !IsNameChar(a[|a| - 1]))
    ensures SubstituteLine(a + y, bound) == a + SubstituteLine(y, bound)
  {
    hide Stringized, Replaced, Spliced, Quiet;
    var strings := Stringized(y, 0, bound);
    QuietPasses(a, y, bound);
    QuietPasses(a, strings, bound);
    QuietPasses(a, Replaced(strings, 0, bound), bound);
  }

  lemma BareConcat(p: string, q: string, b: string, bound: Binding)
    requires IsParam(p) && IsParam(q) && p in bound && q in bound && (b == "" || !IsNameChar(b[0]))
    ensures
      var w := bound[q] + Replaced(Stringized(b, 0, bound), 0, bound);
      SubstituteLine(p + ("##" + (q + b)), bound) == Spliced(bound[p] + "##" + w, 0)
  {
    hide Stringized, Replaced, Spliced;
    StringizedStarts(b, bound);
    ConcatStringized(p, q, b, bound);
    ConcatReplaced(p, q, Stringized(b, 0, bound), bound);
  }

  lemma ConcatStringized(p: string, q: string, b: string, bound: Binding)
    requires IsParam(p) && IsParam(q) && p in bound && q in bound && (b == "" || !IsNameChar(b[0]))
    ensures Stringized(p + ("##" + (q + b)), 0, bound) == p + ("##" + (q + Stringized(b, 0, bound)))
  {
    hide Stringized;
    ParamReplaced(q, b, bound);
    MarkStringized(q + b, bound);
    ParamReplaced(p, "##" + (q + b), bound);
  }

  lemma ConcatReplaced(p: string, q: string, b: string, bound: Binding)
    requires IsParam(p) && IsParam(q) && p in bound && q in bound && (b == "" || !IsNameChar(b[0]))
    ensures
      var w := bound[q] + Replaced(b, 0, bound);
      Replaced(p + ("##" + (q + b)), 0, bound) == bound[p] + "##" + w
  {
    hide Replaced, Stringized;
    var w := bound[q] + Replaced(b, 0, bound);
    ParamReplaced(q, b, bound);
    MarkStringized(q + b, bound);
    ParamReplaced(p, "##" + (q + b), bound);
    assert Replaced("##" + (q + b), 0, bound) == "##" + w;
    assert bound[p] + ("##" + w) == bound[p] + "##" + w;
  }

  /* ----- variadic arguments ----- */

  /** Read from depth 0, the text has no separating comma, and its brackets and
      strings are closed. */
  predicate Passes(s: string, i: nat, depth: int, inString: bool)
    requires i <= |s|
    decreases |s| - i
  {
    if i == |s| then depth == 0 && !inString
    else if inString then Passes(s, i + 1, depth, s[i] != '"')
    else if s[i] == '"' then Passes(s, i + 1, depth, true)
    else if s[i] == '(' then Passes(s, i + 1, depth + 1, false)
    else if s[i] == ')' then Passes(s, i + 1, depth - 1, false)
    else !(s[i] == ',' && depth == 0) && Passes(s, i + 1, depth, false)
  }

  /** An argument as splitting yields it. */
  predicate IsArgument(a: string) { Trim(a) == a && Passes(a, 0, 0, false) }

  lemma {:induction false} PassesOver(t: string, start: nat, at: nat, a: string, i: nat, depth: int, inString: bool)
    requires start <= at && at + |a| <= |t| && t[at..at + |a|] == a && i <= |a| && Passes(a, i, depth, inString)
    ensures Pieces(t, start, at + i, depth, inString) == Pieces(t, start, at + |a|, 0, false)
    decreases |a| - i
  {
    if i < |a| {
      assert t[at + i] == a[i];
      if inString {
        PassesOver(t, start, at, a, i + 1, depth, a[i] != '"');
      } else if a[i] == '"' {
        PassesOver(t, start, at, a, i + 1, depth, true);
      } else if a[i] == '(' {
        PassesOver(t, start, at, a, i + 1, depth + 1, false);
      } else if a[i] == ')' {
        PassesOver(t, start, at, a, i + 1, depth - 1, false);
      } else {
        PassesOver(t, start, at, a, i + 1, depth, false);
      }
    }
  }

  /** What joining appends to a text that is not empty. */
  function Tail(args: seq<string>, k: nat): string
    decreases |args| - k
  {
    if k >= |args| then "" else ", " + args[k] + Tail(args, k + 1)
  }

  lemma {:induction false} JoinedIsTail(args: seq<string>, k: nat, so: string)
    requires so != ""
    ensures Joined(args, k, so) == so + Tail(args, k)
    decreases |args| - k
  {
    if k < |args| {
      JoinedIsTail(args, k + 1, so + ", " + args[k]);
      assert so + ", " + args[k] + Tail(args, k + 1) == so + (", " + args[k] + Tail(args, k + 1));
    }
  }

  predicate AllArguments(args: seq<string>) { forall i :: 0 <= i < |args| ==> IsArgument(args[i]) }

  lemma {:induction false} TailSplits(t: string, start: nat, i: nat, args: seq<string>, k: nat)
    requires start <= i <= |t| && k <= |args| && t[i..] == Tail(args, k) && AllArguments(args)
    ensures Pieces(t, start, i, 0, false) == [Trim(t[start..i])] + args[k..]
    decreases |args| - k
  {
    hide Trim, Passes, Pieces, Tail, IsArgument;
    if k == |args| {
      NothingLeft(t, start, i, args);
    } else {
      var a := args[k];
      var end := i + 2 + |a|;
      TailParts(t, i, args, k);
      SeparatorSplits(t, start, i);
      ArgumentParts(a);
      PassesOver(t, i + 1, i + 2, a, 0, 0, false);
      TailSplits(t, i + 1, end, args, k + 1);
      assert t[i + 1..end] == " " + a;
      BlankTrimmed(a);
      assert args[k..] == [a] + args[k + 1..];
    }
  }

  lemma NothingLeft(t: string, start: nat, i: nat, args: seq<string>)
    requires start <= i <= |t| && t[i..] == Tail(args, |args|)
    ensures Pieces(t, start, i, 0, false) == [Trim(t[start..i])] + args[|args|..]
  {
    assert t[start..] == t[start..i];
  }

  lemma ArgumentParts(a: string)
    requires IsArgument(a)
    ensures Trim(a) == a && Passes(a, 0, 0, false)
  {
  }

  lemma TailParts(t: string, i: nat, args: seq<string>, k: nat)
    requires i <= |t| && k < |args| && t[i..] == Tail(args, k)
    ensures
      var end := i + 2 + |args[k]|;
      && end <= |t| && t[i] == ',' && t[i + 1] == ' ' && t[i + 2..end] == args[k] && t[end..] == Tail(args, k + 1)
  {
    var u := t[i..];
    assert u == "," + (" " + (args[k] + Tail(args, k + 1)));
    assert t[i] == u[0] && t[i + 1] == u[1];
    assert t[i + 2..i + 2 + |args[k]|] == u[2..2 + |args[k]|];
    assert t[i + 2 + |args[k]|..] == u[2 + |args[k]|..];
  }

  lemma SeparatorSplits(t: string, start: nat, i: nat)
    requires start <= i && i + 1 < |t| && t[i] == ',' && t[i + 1] == ' '
    ensures Pieces(t, start, i, 0, false) == [Trim(t[start..i])] + Pieces(t, i + 1, i + 2, 0, false)
  {
    hide Trim;
  }

  lemma BlankTrimmed(a: string)
    ensures Trim(" " + a) == Trim(a)
  {
    assert (" " + a)[1..] == a;
  }

  lemma {:induction false} TrimRightKeeps(s: string)
    requires s != "" && !IsBlank(s[0])
    ensures TrimRight(s) != ""
    decreases |s|
  {
    if IsBlank(s[|s| - 1]) { TrimRightKeeps(s[..|s| - 1]); }
  }

  lemma {:induction false} TrimRightShrinks(s: string)
    ensures |TrimRight(s)| <= |s|
    decreases |s|
  {
    if s != "" && IsBlank(s[|s| - 1]) { TrimRightShrinks(s[..|s| - 1]); }
  }

  lemma TrimmedStarts(a: string)
    requires Trim(a) == a && a != ""
    ensures !IsBlank(a[0])
  {
    TrimRightShrinks(TrimLeft(a));
  }

  /** The index from `i` on of the first argument that is not empty. */
  function FirstGiven(args: seq<string>, i: nat): (n: nat)
    requires i <= |args|
    ensures i <= n <= |args| && (n < |args| ==> args[n] != "")
    decreases |args| - i
  {
    if i < |args| && args[i] == "" then FirstGiven(args, i + 1) else i
  }

  lemma {:induction false} JoinedSkips(args: seq<string>, i: nat)
    requires i <= |args|
    ensures Joined(args, i, "") == Joined(args, FirstGiven(args, i), "")
    decreases |args| - i
  {
    if i < |args| && args[i] == "" { JoinedSkips(args, i + 1); }
  }

  /** Main result: the text that a variadic parameter stands for splits again into
      the arguments it was given, but for empty ones at their beginning. */
  lemma VariadicSplitsAgain(args: seq<string>, i: nat)
    requires i <= |args| && AllArguments(args)
    ensures Arguments(Joined(args, i, "")) == args[FirstGiven(args, i)..]
  {
    var n := FirstGiven(args, i);
    JoinedSkips(args, i);
    if n < |args| {
      hide Trim, Passes, Pieces, Tail, Joined, IsArgument;
      var a := args[n];
      JoinedStarts(args, n);
      var t := a + Tail(args, n + 1);
      ArgumentParts(a);
      NotBlank(a, Tail(args, n + 1));
      assert t[0..|a|] == a && t[|a|..] == Tail(args, n + 1);
      PassesOver(t, 0, 0, a, 0, 0, false);
      TailSplits(t, 0, |a|, args, n + 1);
      assert args[n..] == [a] + args[n + 1..];
    }
  }

  lemma JoinedStarts(args: seq<string>, n: nat)
    requires n < |args| && args[n] != ""
    ensures Joined(args, n, "") == args[n] + Tail(args, n + 1)
  {
    assert "" + args[n] == args[n];
    JoinedIsTail(args, n + 1, args[n]);
  }

  lemma NotBlank(a: string, rest: string)
    requires Trim(a) == a && a != ""
    ensures Trim(a + rest) != ""
  {
    TrimmedStarts(a);
    assert (a + rest)[0] == a[0];
    TrimRightKeeps(a + rest);
  }

  /** So it splits again into all of them if and only if the first is not empty. */
  lemma SplitsAgainExactly(args: seq<string>, i: nat)
    requires i <= |args| && AllArguments(args)
    ensures Arguments(Joined(args, i, "")) == args[i..] <==> i == |args| || args[i] != ""
  {
    VariadicSplitsAgain(args, i);
    if i < |args| && args[i] == "" { assert |args[FirstGiven(args, i)..]| < |args[i..]|; }
  }

  /** The shortest call that shows the loss: of the arguments in `M(,a)`, where `M`
      takes any number of them, what `M` passes on splits into the second alone. */
  lemma EmptyFirstIsLost(def: MacroDef)
    requires def.params == [] && def.rest.Some?
    ensures Arguments(",a") == ["", "a"]
    ensures
      var bound := Bind(def, Arguments(",a"));
      bound.Some? && def.rest.value in bound.value && Arguments(bound.value[def.rest.value]) == ["a"]
  {
    CommaSplits();
    var args := ["", "a"];
    assert AllArguments(args) by { assert IsArgument("") && IsArgument("a"); }
    VariadicSplitsAgain(args, 0);
    assert args[FirstGiven(args, 0)..] == ["a"];
  }

  lemma CommaSplits()
    ensures Arguments(",a") == ["", "a"]
  {
    var s := ",a";
    assert Trim(s) == s && Trim("a") == "a";
    assert s[0..0] == "" && s[1..] == "a";
    assert Pieces(s, 1, 2, 0, false) == ["a"] && Pieces(s, 1, 1, 0, false) == ["a"];
    assert Pieces(s, 0, 0, 0, false) == [""] + ["a"];
  }
}
