/** Macros and their expansion in a line of text. */
module MacroText {
  import opened Options
  import opened Decimal
  import opened Chars

  /** `rest` names the last parameter of a variadic macro, which takes all
      arguments beyond the fixed ones; a block macro may have several lines. */
  datatype MacroDef =
    MacroDef(isFunction: bool, isBlock: bool, params: seq<string>, rest: Option<string>, body: string)

  type Macros = map<string, MacroDef>

  datatype Loc = Loc(line: nat, file: string)

  /* ----- positions in a text ----- */

  function TrimLeft(s: string): (r: string)
    ensures |r| <= |s|
  {
    if s != "" && IsBlank(s[0]) then TrimLeft(s[1..]) else s
  }

  function TrimRight(s: string): string {
    if s != "" && IsBlank(s[|s| - 1]) then TrimRight(s[..|s| - 1]) else s
  }

  function Trim(s: string): string { TrimRight(TrimLeft(s)) }

  /** The end of the word, of the blanks, or of the string literal at a position. */
  function WordEnd(t: string, i: nat): (j: nat)
    requires i <= |t|
    ensures i <= j <= |t| && forall k :: i <= k < j ==> IsNameChar(t[k])
    decreases |t| - i
  {
    if i < |t| && IsNameChar(t[i]) then WordEnd(t, i + 1) else i
  }

  function BlanksEnd(t: string, i: nat): (j: nat)
    requires i <= |t|
    ensures i <= j <= |t|
    decreases |t| - i
  {
    if i < |t| && IsBlank(t[i]) then BlanksEnd(t, i + 1) else i
  }

  /** The position after the closing quote, or the end of the text. */
  function QuoteEnd(t: string, i: nat): (j: nat)
    requires i <= |t|
    ensures i <= j <= |t|
    decreases |t| - i
  {
    if i == |t| then i else if t[i] == '"' then i + 1 else QuoteEnd(t, i + 1)
  }

  /* ----- arguments ----- */

  /** Where the bracket that is open at `i`, at the given depth, closes. */
  function ClosingParen(s: string, i: nat, depth: nat, inString: bool): (r: Option<nat>)
    requires i <= |s|
    ensures r.Some? ==> i <= r.value < |s|
    decreases |s| - i
  {
    if i == |s| then None
    else if inString then ClosingParen(s, i + 1, depth, s[i] != '"')
    else if s[i] == '"' then ClosingParen(s, i + 1, depth, true)
    else if s[i] == '(' then ClosingParen(s, i + 1, depth + 1, false)
    else if s[i] == ')' && depth <= 1 then Some(i)
    else ClosingParen(s, i + 1, if s[i] == ')' then depth - 1 else depth, false)
  }

  method FindMatchingParen(s: string, open: nat) returns (close: Option<nat>)
    requires open < |s| && s[open] == '('
    ensures close == ClosingParen(s, open, 0, false)
  {
    var depth: nat, inString := 0, false;
    for k := open to |s|
      invariant ClosingParen(s, open, 0, false) == ClosingParen(s, k, depth, inString)
      invariant if k > open then depth > 0 else depth == 0 && !inString
    {
      var c := s[k];
      if inString {
        if c == '"' { inString := false; }
        continue;
      }
      if c == '"' {
        inString := true;
        continue;
      }
      if c == '(' {
        depth := depth + 1;
      } else if c == ')' {
        depth := depth - 1;
        if depth == 0 { return Some(k); }
      }
    }
    return None;
  }

  /** The pieces of `s` from `start` on that commas outside brackets and strings
      separate, each trimmed; `i` is how far it has been read. */
  function Pieces(s: string, start: nat, i: nat, depth: int, inString: bool): (r: seq<string>)
    requires start <= i <= |s|
    ensures |r| > 0
    decreases |s| - i
  {
    if i == |s| then [Trim(s[start..])]
    else if inString then Pieces(s, start, i + 1, depth, s[i] != '"')
    else if s[i] == '"' then Pieces(s, start, i + 1, depth, true)
    else if s[i] == '(' then Pieces(s, start, i + 1, depth + 1, false)
    else if s[i] == ')' then Pieces(s, start, i + 1, depth - 1, false)
    else if s[i] == ',' && depth == 0 then [Trim(s[start..i])] + Pieces(s, i + 1, i + 1, depth, false)
    else Pieces(s, start, i + 1, depth, false)
  }

  function Arguments(s: string): seq<string> { if Trim(s) == "" then [] else Pieces(s, 0, 0, 0, false) }

  method SplitTopLevelArgs(s: string) returns (result: seq<string>)
    ensures result == Arguments(s)
  {
    result := [];
    if Trim(s) == "" { return; }
    var depth, inString, start: nat := 0, false, 0;
    for k := 0 to |s|
      invariant start <= k
      invariant result + Pieces(s, start, k, depth, inString) == Pieces(s, 0, 0, 0, false)
    {
      var c := s[k];
      if inString {
        if c == '"' { inString := false; }
        continue;
      }
      if c == '"' {
        inString := true;
      } else if c == '(' {
        depth := depth + 1;
      } else if c == ')' {
        depth := depth - 1;
      } else if c == ',' && depth == 0 {
        result := result + [Trim(s[start..k])];
        start := k + 1;
      }
    }
    result := result + [Trim(s[start..])];
  }

  type Binding = map<string, string>

  function Fixed(params: seq<string>, args: seq<string>): Binding {
    if params == [] then map[]
    else
      var last := |params| - 1;
      Fixed(params[..last], args)[params[last] := if last < |args| then args[last] else ""]
  }

  /** The arguments from the i-th on, joined by commas; a still empty text gets none. */
  function Joined(args: seq<string>, i: nat, so: string): string
    decreases |args| - i
  {
    if i >= |args| then so else Joined(args, i + 1, (if so == "" then "" else so + ", ") + args[i])
  }

  /** The parameters of a macro bound to arguments; missing ones are empty, and
      too many are an error unless the macro is variadic. */
  function Bind(def: MacroDef, args: seq<string>): Option<Binding> {
    if def.rest.None? && |args| > |def.params| then None
    else
      var fixed := Fixed(def.params, args);
      Some(if def.rest.None? then fixed else fixed[def.rest.value := Joined(args, |def.params|, "")])
  }

  method BindMacroArgs(def: MacroDef, args: seq<string>) returns (out: Option<Binding>)
    ensures out == Bind(def, args)
  {
    if def.rest.None? && |args| > |def.params| { return None; }
    var bound: Binding := map[];
    for p := 0 to |def.params|
      invariant bound == Fixed(def.params[..p], args)
    {
      assert def.params[..p + 1][..p] == def.params[..p];
      bound := bound[def.params[p] := if p < |args| then args[p] else ""];
    }
    assert def.params[..|def.params|] == def.params;
    if def.rest.Some? {
      var joined := "";
      var p := |def.params|;
      while p < |args|
        invariant |def.params| <= p
        invariant Joined(args, p, joined) == Joined(args, |def.params|, "")
      {
        if joined != "" { joined := joined + ", "; }
        joined := joined + args[p];
        p := p + 1;
      }
      bound := bound[def.rest.value := joined];
    }
    return Some(bound);
  }

  /* ----- substituting arguments into a body ----- */

  /** What one step of a pass writes, and where it goes on. */
  datatype Step = Step(text: string, next: nat)

  predicate StepsOn(t: string, i: nat, s: Step) { i < s.next <= |t| }

  /** A comment, or a string literal, which every pass copies. */
  predicate StartsCopy(t: string, i: nat)
    requires i < |t|
  {
    t[i] == '\'' || t[i] == '"'
  }

  function CopyStep(t: string, i: nat): (s: Step)
    requires i < |t|
    ensures StepsOn(t, i, s)
  {
    if t[i] == '\'' then Step(t[i..], |t|)
    else if t[i] == '"' then Step(t[i..QuoteEnd(t, i + 1)], QuoteEnd(t, i + 1))
    else Step([t[i]], i + 1)
  }

  predicate IsConcat(t: string, i: nat) { i + 1 < |t| && t[i] == '#' && t[i + 1] == '#' }

  /** `#param` becomes the argument as a string literal; `##` is left alone. */
  function StringizeStep(t: string, i: nat, bound: Binding): (s: Step)
    requires i < |t|
    ensures StepsOn(t, i, s)
  {
    if StartsCopy(t, i) then CopyStep(t, i)
    else if IsConcat(t, i) then Step("##", i + 2)
    else if t[i] == '#' then
      var start := BlanksEnd(t, i + 1);
      var end := WordEnd(t, start);
      if start < end && t[start..end] in bound then Step("\"" + Doubled(bound[t[start..end]]) + "\"", end)
      else CopyStep(t, i)
    else CopyStep(t, i)
  }

  function Stringized(t: string, i: nat, bound: Binding): string
    requires i <= |t|
    decreases |t| - i
  {
    if i == |t| then ""
    else
      var s := StringizeStep(t, i, bound);
      s.text + Stringized(t, s.next, bound)
  }

  /** Whole words that name parameters become their arguments. */
  function ReplaceStep(t: string, i: nat, bound: Binding): (s: Step)
    requires i < |t|
    ensures StepsOn(t, i, s)
  {
    if StartsCopy(t, i) then CopyStep(t, i)
    else if StartsWord(t, i) then
      var word := t[i..WordEnd(t, i)];
      Step(if word in bound then bound[word] else word, WordEnd(t, i))
    else CopyStep(t, i)
  }

  function Replaced(t: string, i: nat, bound: Binding): string
    requires i <= |t|
    decreases |t| - i
  {
    if i == |t| then ""
    else
      var s := ReplaceStep(t, i, bound);
      s.text + Replaced(t, s.next, bound)
  }

  predicate StartsWord(t: string, i: nat)
    requires i < |t|
  {
    IsNameChar(t[i]) && (i == 0 || !IsNameChar(t[i - 1]))
  }

  /** `##` disappears, splicing what stands around it. */
  function SpliceStep(t: string, i: nat): (s: Step)
    requires i < |t|
    ensures StepsOn(t, i, s)
  {
    if StartsCopy(t, i) then CopyStep(t, i)
    else if IsConcat(t, i) then Step("", i + 2)
    else CopyStep(t, i)
  }

  function Spliced(t: string, i: nat): string
    requires i <= |t|
    decreases |t| - i
  {
    if i == |t| then ""
    else
      var s := SpliceStep(t, i);
      s.text + Spliced(t, s.next)
  }

  function SubstituteLine(line: string, bound: Binding): string {
    Spliced(Replaced(Stringized(line, 0, bound), 0, bound), 0)
  }

  lemma StringizedStep(t: string, i: nat, bound: Binding, s: Step, out: string)
    requires i < |t| && StringizeStep(t, i, bound) == s
    ensures out + Stringized(t, i, bound) == out + s.text + Stringized(t, s.next, bound)
  {
    hide StringizeStep;
  }

  lemma ReplacedStep(t: string, i: nat, bound: Binding, s: Step, out: string)
    requires i < |t| && ReplaceStep(t, i, bound) == s
    ensures out + Replaced(t, i, bound) == out + s.text + Replaced(t, s.next, bound)
  {
    hide ReplaceStep;
  }

  lemma SplicedStep(t: string, i: nat, s: Step, out: string)
    requires i < |t| && SpliceStep(t, i) == s
    ensures out + Spliced(t, i) == out + s.text + Spliced(t, s.next)
  {
    hide SpliceStep;
  }

  method SubstituteMacroBodyLine(line: string, bound: Binding) returns (result: string)
    ensures result == SubstituteLine(line, bound)
  {
    var strings := Stringize(line, bound);
    var params := Replace(strings, bound);
    result := Splice(params);
  }

  method Stringize(line: string, bound: Binding) returns (out: string)
    ensures out == Stringized(line, 0, bound)
  {
    out := "";
    var i := 0;
    while i < |line|
      invariant i <= |line|
      invariant out + Stringized(line, i, bound) == Stringized(line, 0, bound)
    {
      hide QuoteEnd, WordEnd, BlanksEnd, Doubled, Stringized;
      var c := line[i];
      var (text, next) := ([c], i + 1);
      if c == '\'' {
        text, next := line[i..], |line|;
      } else if c == '"' {
        next := SkipQuoted(line, i + 1);
        text := line[i..next];
      } else if c == '#' && i + 1 < |line| && line[i + 1] == '#' {
        text, next := "##", i + 2;
      } else if c == '#' {
        var start := SkipBlanks(line, i + 1);
        var end := SkipWord(line, start);
        var name := line[start..end];
        if name != "" && name in bound { text, next := "\"" + Doubled(bound[name]) + "\"", end; }
      }
      StringizedStep(line, i, bound, Step(text, next), out);
      out, i := out + text, next;
    }
  }

  method Replace(line: string, bound: Binding) returns (out: string)
    ensures out == Replaced(line, 0, bound)
  {
    out := "";
    var i := 0;
    while i < |line|
      invariant i <= |line|
      invariant out + Replaced(line, i, bound) == Replaced(line, 0, bound)
    {
      hide QuoteEnd, WordEnd, Replaced;
      var c := line[i];
      var (text, next) := ([c], i + 1);
      if c == '\'' {
        text, next := line[i..], |line|;
      } else if c == '"' {
        next := SkipQuoted(line, i + 1);
        text := line[i..next];
      } else if StartsWord(line, i) {
        next := SkipWord(line, i);
        var word := line[i..next];
        text := if word in bound then bound[word] else word;
      }
      ReplacedStep(line, i, bound, Step(text, next), out);
      out, i := out + text, next;
    }
  }

  method Splice(line: string) returns (out: string)
    ensures out == Spliced(line, 0)
  {
    out := "";
    var i := 0;
    while i < |line|
      invariant i <= |line|
      invariant out + Spliced(line, i) == Spliced(line, 0)
    {
      hide QuoteEnd, Spliced;
      var c := line[i];
      var (text, next) := ([c], i + 1);
      if c == '\'' {
        text, next := line[i..], |line|;
      } else if c == '"' {
        next := SkipQuoted(line, i + 1);
        text := line[i..next];
      } else if c == '#' && i + 1 < |line| && line[i + 1] == '#' {
        text, next := "", i + 2;
      }
      SplicedStep(line, i, Step(text, next), out);
      out, i := out + text, next;
    }
  }

  method SkipWord(t: string, from: nat) returns (i: nat)
    requires from <= |t|
    ensures i == WordEnd(t, from)
  {
    i := from;
    while i < |t| && IsNameChar(t[i])
      invariant from <= i <= |t| && WordEnd(t, i) == WordEnd(t, from)
    {
      i := i + 1;
    }
  }

  method SkipBlanks(t: string, from: nat) returns (i: nat)
    requires from <= |t|
    ensures i == BlanksEnd(t, from)
  {
    i := from;
    while i < |t| && IsBlank(t[i])
      invariant from <= i <= |t| && BlanksEnd(t, i) == BlanksEnd(t, from)
    {
      i := i + 1;
    }
  }

  method SkipQuoted(t: string, from: nat) returns (i: nat)
    requires from <= |t|
    ensures i == QuoteEnd(t, from)
  {
    i := from;
    while i < |t|
      invariant from <= i <= |t| && QuoteEnd(t, i) == QuoteEnd(t, from)
    {
      i := i + 1;
      if t[i - 1] == '"' { return; }
    }
  }

  /* ----- lines ----- */

  function FirstNewline(s: string): (i: nat)
    ensures i <= |s| && '\n' !in s[..i] && (i < |s| ==> s[i] == '\n')
  {
    if s == "" || s[0] == '\n' then 0
    else
      var i := 1 + FirstNewline(s[1..]);
      assert s[..i] == [s[0]] + s[1..][..i - 1];
      i
  }

  function Chomped(s: string): string { if s != "" && s[|s| - 1] == '\r' then s[..|s| - 1] else s }

  /** The lines of a text, without their ends; a final newline starts no line. */
  function SplitLines(s: string): seq<string> {
    if s == "" then []
    else
      var i := FirstNewline(s);
      [Chomped(s[..i])] + if i < |s| then SplitLines(s[i + 1..]) else []
  }

  function JoinLines(lines: seq<string>): string {
    if lines == [] then "" else if |lines| == 1 then lines[0] else lines[0] + "\n" + JoinLines(lines[1..])
  }

  function SubstituteLines(lines: seq<string>, bound: Binding): seq<string> {
    seq(|lines|, i requires 0 <= i < |lines| => SubstituteLine(lines[i], bound))
  }

  function SubstituteBody(body: string, bound: Binding): string {
    JoinLines(SubstituteLines(SplitLines(body), bound))
  }

  /* ----- expansion ----- */

  /** The macros that may still be expanded. */
  function Live(m: Macros, active: seq<string>): set<string> { set n | n in m && n !in active }

  lemma FewerLive(m: Macros, active: seq<string>, word: string)
    requires word in Live(m, active)
    ensures |Live(m, active + [word])| < |Live(m, active)|
  {
    assert Live(m, active + [word]) == Live(m, active) - {word};
  }

  /** What stands at a position where a macro is named: its call, if it is one. */
  datatype Use = NoUse | Object | BadCall(next: nat) | Call(bound: Binding, next: nat)

  /** How the macro `def` is used by the word that ends at `j`. */
  function UseOf(def: MacroDef, t: string, j: nat): (u: Use)
    requires j <= |t|
    ensures u.BadCall? || u.Call? ==> j < u.next <= |t|
  {
    if !def.isFunction then Object
    else
      var open := BlanksEnd(t, j);
      if open == |t| || t[open] != '(' then NoUse
      else
        match ClosingParen(t, open, 0, false)
        case None => NoUse
        case Some(close) =>
          assert close > open by { OpenIsNotClosing(t, open); }
          match Bind(def, Arguments(t[open + 1..close]))
          case None => BadCall(close + 1)
          case Some(bound) => Call(bound, close + 1)
  }

  lemma OpenIsNotClosing(t: string, open: nat)
    requires open < |t| && t[open] == '('
    ensures ClosingParen(t, open, 0, false) == ClosingParen(t, open + 1, 1, false)
  {
  }

  /** One step of expansion: a word is expanded if it names a macro that is not
      being expanded already. */
  function ExpandStep(m: Macros, active: seq<string>, t: string, i: nat, loc: Loc): (s: Step)
    requires i < |t|
    ensures StepsOn(t, i, s)
    decreases |Live(m, active)|, |t| - i, 0
  {
    if StartsCopy(t, i) || !StartsWord(t, i) then CopyStep(t, i)
    else
      var j := WordEnd(t, i);
      var word := t[i..j];
      if word == "__LINE__" then Step(ToDec(loc.line), j)
      else if word == "__FILE__" then Step("\"" + loc.file + "\"", j)
      else if word !in Live(m, active) then Step(word, j)
      else
        FewerLive(m, active, word);
        match UseOf(m[word], t, j)
        case NoUse => Step(word, j)
        case Object => Step(Expand(m, active + [word], m[word].body, 0, loc), j)
        case BadCall(next) => Step("", next)
        case Call(bound, next) =>
          Step(Expand(m, active + [word], SubstituteBody(m[word].body, bound), 0, loc), next)
  }

  /** The text from position `i` on, expanded. */
  function Expand(m: Macros, active: seq<string>, t: string, i: nat, loc: Loc): string
    requires i <= |t|
    decreases |Live(m, active)|, |t| - i, 1
  {
    if i == |t| then ""
    else
      var s := ExpandStep(m, active, t, i, loc);
      s.text + Expand(m, active, t, s.next, loc)
  }

  lemma ExpandedStep(m: Macros, active: seq<string>, t: string, i: nat, loc: Loc, s: Step, out: string)
    requires i < |t| && ExpandStep(m, active, t, i, loc) == s
    ensures out + Expand(m, active, t, i, loc) == out + s.text + Expand(m, active, t, s.next, loc)
  {
    hide ExpandStep;
  }

  lemma ExpandEnds(m: Macros, active: seq<string>, t: string, loc: Loc)
    ensures Expand(m, active, t, |t|, loc) == ""
  {
  }

  /** What an ordinary line becomes. */
  function Expanded(m: Macros, t: string, loc: Loc): string { Expand(m, [], t, 0, loc) }

  /** The expander and the names that it is expanding. */
  class Expander {
    const macros: Macros
    var activeNames: seq<string>

    constructor (macros: Macros)
      ensures this.macros == macros && activeNames == []
    {
      this.macros, activeNames := macros, [];
    }

    method IsActive(word: string) returns (active: bool)
      ensures active <==> word in activeNames
    {
      for n := 0 to |activeNames|
        invariant word !in activeNames[..n]
      {
        if activeNames[n] == word { return true; }
      }
      return false;
    }

    method ExpandText(text: string, loc: Loc) returns (out: string)
      modifies this
      ensures activeNames == old(activeNames)
      ensures out == Expand(macros, activeNames, text, 0, loc)
      decreases |Live(macros, activeNames)|, 1
    {
      hide Expand;
      out := "";
      var i := 0;
      while i < |text|
        invariant i <= |text| && activeNames == old(activeNames)
        invariant out + Expand(macros, activeNames, text, i, loc) == Expand(macros, activeNames, text, 0, loc)
      {
        var step := NextStep(text, i, loc);
        ExpandedStep(macros, activeNames, text, i, loc, step, out);
        out, i := out + step.text, step.next;
      }
      ExpandEnds(macros, activeNames, text, loc);
    }

    /** One round of the loop: what it appends, and where it goes on. */
    method NextStep(text: string, i: nat, loc: Loc) returns (step: Step)
      requires i < |text|
      modifies this
      ensures activeNames == old(activeNames)
      ensures step == ExpandStep(macros, activeNames, text, i, loc)
      decreases |Live(macros, activeNames)|, 0
    {
      hide Expand, QuoteEnd, WordEnd, UseOf, SubstituteBody;
      var c := text[i];
      if c == '"' {
        var end := SkipQuoted(text, i + 1);
        return Step(text[i..end], end);
      }
      if c == '\'' { return Step(text[i..], |text|); }
      if !StartsWord(text, i) { return Step([c], i + 1); }
      var j := SkipWord(text, i);
      var word := text[i..j];
      if word == "__LINE__" { return Step(ToDec(loc.line), j); }
      if word == "__FILE__" { return Step("\"" + loc.file + "\"", j); }
      var isActive := IsActive(word);
      if isActive || word !in macros { return Step(word, j); }
      var def := macros[word];
      FewerLive(macros, activeNames, word);
      var use := FindUse(def, text, j);
      match use
      case NoUse => return Step(word, j);
      case BadCall(next) => return Step("", next);
      case Object =>
        activeNames := activeNames + [word];
        var inner := ExpandText(def.body, loc);
        activeNames := activeNames[..|activeNames| - 1];
        return Step(inner, j);
      case Call(bound, next) =>
        var substituted := SubstituteMacroBody(def.body, bound);
        activeNames := activeNames + [word];
        var inner := ExpandText(substituted, loc);
        activeNames := activeNames[..|activeNames| - 1];
        return Step(inner, next);
    }
  }

  method FindUse(def: MacroDef, t: string, j: nat) returns (u: Use)
    requires j <= |t|
    ensures u == UseOf(def, t, j)
  {
    if !def.isFunction { return Object; }
    var open := SkipBlanks(t, j);
    if open == |t| || t[open] != '(' { return NoUse; }
    var close := FindMatchingParen(t, open);
    if close.None? { return NoUse; }
    OpenIsNotClosing(t, open);
    var args := SplitTopLevelArgs(t[open + 1..close.value]);
    var bound := BindMacroArgs(def, args);
    return if bound.None? then BadCall(close.value + 1) else Call(bound.value, close.value + 1);
  }

  method SubstituteMacroBody(body: string, bound: Binding) returns (result: string)
    ensures result == SubstituteBody(body, bound)
  {
    hide SubstituteLine, SplitLines;
    var lines := SplitLines(body);
    result := "";
    for i := 0 to |lines|
      invariant result == JoinLines(SubstituteLines(lines[..i], bound))
    {
      JoinOneMore(SubstituteLines(lines[..i], bound), SubstituteLine(lines[i], bound));
      assert SubstituteLines(lines[..i + 1], bound)
          == SubstituteLines(lines[..i], bound) + [SubstituteLine(lines[i], bound)];
      if i > 0 { result := result + "\n"; }
      var line := SubstituteMacroBodyLine(lines[i], bound);
      result := result + line;
    }
    assert lines[..|lines|] == lines;
  }

  lemma {:induction false} JoinOneMore(lines: seq<string>, last: string)
    ensures JoinLines(lines + [last]) == if lines == [] then last else JoinLines(lines) + "\n" + last
  {
    if |lines| > 0 {
      assert (lines + [last])[1..] == lines[1..] + [last];
      JoinOneMore(lines[1..], last);
    }
  }
}
