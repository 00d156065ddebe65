/** What calls of macros become, in terms of their arguments and the parts of the body. */
module MacroCalls {
  import opened Options
  import opened Chars
  import opened MacroText
  import opened MacroBodies
  import opened Preprocessor
  import Conditionals
  import Directives
  import MacroExpansion
  import PlainText

  /* ----- what each parameter is bound to ----- */

  function ArgumentFor(args: seq<string>, p: nat): string { if p < |args| then args[p] else "" }

  /** The last of the parameters with its name. */
  predicate IsLast(params: seq<string>, p: nat)
    requires p < |params|
  {
    params[p] !in params[p + 1..]
  }

  lemma {:induction false} FixedNames(params: seq<string>, args: seq<string>)
    ensures Fixed(params, args).Keys == set p | p in params
  {
    if params != [] {
      var last := |params| - 1;
      FixedNames(params[..last], args);
      assert params == params[..last] + [params[last]];
    }
  }

  lemma {:induction false} FixedBinds(params: seq<string>, args: seq<string>, p: nat)
    requires p < |params| && IsLast(params, p)
    ensures params[p] in Fixed(params, args) && Fixed(params, args)[params[p]] == ArgumentFor(args, p)
  {
    if p < |params| - 1 {
      LastOfInit(params, p);
      FixedBinds(params[..|params| - 1], args, p);
    }
  }

  lemma LastOfInit(params: seq<string>, p: nat)
    requires p < |params| - 1 && IsLast(params, p)
    ensures params[p] != params[|params| - 1] && IsLast(params[..|params| - 1], p)
  {
    var last := |params| - 1;
    assert params[last] == params[p + 1..][last - p - 1];
    assert params[..last][p + 1..] == params[p + 1..][..last - p - 1];
  }

  /** Main result: binding fails exactly when a macro that is not variadic gets too
      many arguments; otherwise it binds the parameters and no other names, each to
      its own argument if there is one, and the variadic one to a text that splits
      into the arguments from the first that is left over and not empty. */
  lemma BindsEach(def: MacroDef, args: seq<string>)
    ensures Bind(def, args).None? <==> def.rest.None? && |args| > |def.params|
    ensures Bind(def, args).Some? ==>
              var b := Bind(def, args).value;
              && b.Keys == (set p | p in def.params) + (if def.rest.Some? then {def.rest.value} else {})
              && (forall p :: 0 <= p < |def.params| && IsLast(def.params, p) && def.rest != Some(def.params[p]) ==>
                    b[def.params[p]] == if p < |args| then args[p] else "")
              && (def.rest.Some? && |def.params| <= |args| && AllArguments(args) ==>
                    Arguments(b[def.rest.value]) == args[FirstGiven(args, |def.params|)..])
              && (def.rest.Some? && |def.params| >= |args| ==> b[def.rest.value] == "")
  {
    hide Fixed, Joined, Arguments;
    FixedNames(def.params, args);
    forall p | 0 <= p < |def.params| && IsLast(def.params, p)
      ensures def.params[p] in Fixed(def.params, args)
      ensures Fixed(def.params, args)[def.params[p]] == ArgumentFor(args, p)
    {
      FixedBinds(def.params, args, p);
    }
    if |def.params| <= |args| && AllArguments(args) { VariadicSplitsAgain(args, |def.params|); }
    assert |def.params| >= |args| ==> Joined(args, |def.params|, "") == "" by { NoneJoined(args, |def.params|); }
  }

  lemma NoneJoined(args: seq<string>, i: nat)
    ensures i >= |args| ==> Joined(args, i, "") == ""
  {
  }

  /* ----- bodies in parts ----- */

  /** A part of a body: text without parameters, `p`, `#p`, or `##`. */
  datatype Part = Text(t: string) | Param(p: nat) | Quoted(p: nat) | Mark

  function PartOf(params: seq<string>, part: Part): string {
    match part
    case Text(t) => t
    case Param(p) => if p < |params| then params[p] else ""
    case Quoted(p) => "#" + if p < |params| then params[p] else ""
    case Mark => "##"
  }

  function BodyOf(params: seq<string>, parts: seq<Part>): string {
    if parts == [] then "" else PartOf(params, parts[0]) + BodyOf(params, parts[1..])
  }

  /** What a part becomes in a call, before marks are removed. */
  function FilledPart(args: seq<string>, part: Part): string {
    match part
    case Text(t) => t
    case Param(p) => ArgumentFor(args, p)
    case Quoted(p) => Literal(ArgumentFor(args, p))
    case Mark => "##"
  }

  function Filled(args: seq<string>, parts: seq<Part>): string {
    if parts == [] then "" else FilledPart(args, parts[0]) + Filled(args, parts[1..])
  }

  /** The names of the parameters of a macro. */
  function Names(def: MacroDef): Binding {
    var names := (set p | p in def.params) + if def.rest.Some? then {def.rest.value} else {};
    map n | n in names :: ""
  }

  /** The parts, written one after the other, are read as these parts. */
  predicate IsSpaced(def: MacroDef, parts: seq<Part>) {
    parts == []
    || (var more := BodyOf(def.params, parts[1..]);
        && IsSpaced(def, parts[1..])
        && match parts[0]
           case Text(t) => Quiet(t, 0, Names(def)) && Apart(t, more)
           case Param(p) => p < |def.params| && (more == "" || !IsNameChar(more[0]))
           case Quoted(p) => p < |def.params| && (more == "" || !IsNameChar(more[0]))
           case Mark => true)
  }

  /** Parameters that can be told apart. */
  predicate AreDistinct(def: MacroDef) {
    && (forall p :: 0 <= p < |def.params| ==> IsParam(def.params[p]) && def.rest != Some(def.params[p]))
    && (forall p, q :: 0 <= p < q < |def.params| ==> def.params[p] != def.params[q])
  }

  predicate BindsTo(def: MacroDef, args: seq<string>, b: Binding) {
    && b.Keys == Names(def).Keys
    && forall p :: 0 <= p < |def.params| ==> def.params[p] in b && b[def.params[p]] == ArgumentFor(args, p)
  }

  lemma BoundToEach(def: MacroDef, args: seq<string>)
    requires AreDistinct(def) && Bind(def, args).Some?
    ensures BindsTo(def, args, Bind(def, args).value)
  {
    hide Bind, Arguments;
    BindsEach(def, args);
    forall p | 0 <= p < |def.params|
      ensures IsLast(def.params, p)
    {
      assert forall q :: p < q < |def.params| ==> def.params[q] == def.params[p + 1..][q - p - 1];
    }
  }

  lemma {:induction false} SameNamesQuiet(t: string, i: nat, b: Binding, c: Binding)
    requires i <= |t| && Quiet(t, i, b) && b.Keys == c.Keys
    ensures Quiet(t, i, c)
    decreases |t| - i
  {
    if i < |t| {
      var j := QuietEnd(t, i);
      SameNamesQuiet(t, j, b, c);
    }
  }

  /** The passes before the last fill the parts in. */
  lemma {:induction false} PartsAreFilled(def: MacroDef, args: seq<string>, parts: seq<Part>, b: Binding)
    requires AreDistinct(def) && IsSpaced(def, parts) && BindsTo(def, args, b)
    ensures Replaced(Stringized(BodyOf(def.params, parts), 0, b), 0, b) == Filled(args, parts)
  {
    hide Stringized, Replaced, AreDistinct, Quiet, Names;
    if parts != [] {
      var rest := parts[1..];
      PartsAreFilled(def, args, rest, b);
      PartIsFilled(def, args, parts[0], BodyOf(def.params, rest), b);
    } else {
      EndsAreEmpty("", b);
    }
  }

  lemma PartIsFilled(def: MacroDef, args: seq<string>, part: Part, more: string, b: Binding)
    requires AreDistinct(def) && BindsTo(def, args, b)
    requires part.Text? ==> Quiet(part.t, 0, Names(def)) && Apart(part.t, more)
    requires part.Param? || part.Quoted? ==> part.p < |def.params| && (more == "" || !IsNameChar(more[0]))
    ensures Replaced(Stringized(PartOf(def.params, part) + more, 0, b), 0, b)
         == FilledPart(args, part) + Replaced(Stringized(more, 0, b), 0, b)
  {
    hide Stringized, Replaced, Quiet, Names, Literal;
    var strings := Stringized(more, 0, b);
    match part
    case Text(t) =>
      SameNamesQuiet(t, 0, Names(def), b);
      QuietPasses(t, more, b);
      if more == "" || !IsNameChar(more[0]) { StringizedStarts(more, b); }
      QuietPasses(t, strings, b);
    case Param(p) =>
      ParamReplaced(def.params[p], more, b);
      StringizedStarts(more, b);
      ParamReplaced(def.params[p], strings, b);
    case Quoted(p) =>
      ParamStringized(def.params[p], more, b);
      LiteralPasses(b[def.params[p]], strings, b);
    case Mark =>
      MarkStringized(more, b);
      MarkStringized(strings, b);
  }

  /** A text that is one line without a line end. */
  predicate IsOneLine(s: string) { '\n' !in s && (s != "" ==> s[|s| - 1] != '\r') }

  lemma OneLineBody(body: string, b: Binding)
    requires IsOneLine(body)
    ensures SubstituteBody(body, b) == SubstituteLine(body, b)
  {
    hide SubstituteLine;
    if body == "" {
      EmptyLine(b);
    } else {
      var i := FirstNewline(body);
      assert i == |body| && body[..i] == body;
      assert SplitLines(body) == [body];
      assert SubstituteLines([body], b) == [SubstituteLine(body, b)];
    }
  }

  lemma EmptyLine(b: Binding)
    ensures SubstituteLine("", b) == "" && SubstituteBody("", b) == ""
  {
    EndsAreEmpty("", b);
  }

  /* ----- calls ----- */

  /** Every bracket and string that opens here closes here, and no other does. */
  predicate Balanced(s: string, i: nat, depth: nat, inString: bool)
    requires i <= |s|
    decreases |s| - i
  {
    if i == |s| then depth == 0 && !inString
    else if inString then Balanced(s, i + 1, depth, s[i] != '"')
    else if s[i] == '"' then Balanced(s, i + 1, depth, true)
    else if s[i] == '(' then Balanced(s, i + 1, depth + 1, false)
    else if s[i] == ')' then depth > 0 && Balanced(s, i + 1, depth - 1, false)
    else Balanced(s, i + 1, depth, false)
  }

  lemma {:induction false} BalancedCloses(x: string, s: string, y: string, i: nat, depth: nat, inString: bool)
    requires i <= |s| && Balanced(s, i, depth, inString)
    ensures ClosingParen(x + s + ")" + y, |x| + i, depth + 1, inString) == Some(|x| + |s|)
    decreases |s| - i
  {
    var t := x + s + ")" + y;
    if i == |s| {
      assert t[|x| + i] == ')';
    } else {
      assert t[|x| + i] == s[i];
      if inString {
        BalancedCloses(x, s, y, i + 1, depth, s[i] != '"');
      } else if s[i] == '"' {
        BalancedCloses(x, s, y, i + 1, depth, true);
      } else if s[i] == '(' {
        BalancedCloses(x, s, y, i + 1, depth + 1, false);
      } else if s[i] == ')' {
        BalancedCloses(x, s, y, i + 1, depth - 1, false);
      } else {
        BalancedCloses(x, s, y, i + 1, depth, false);
      }
    }
  }

  lemma {:induction false} BalancedThen(s: string, y: string, i: nat, depth: nat, inString: bool)
    requires i <= |s| && Balanced(s, i, depth, inString) && Balanced(y, 0, 0, false)
    ensures Balanced(s + y, i, depth, inString)
    decreases |s| - i
  {
    var t := s + y;
    if i == |s| {
      BalancedBehind(s, y, 0, 0, false);
    } else {
      assert t[i] == s[i];
      if inString {
        BalancedThen(s, y, i + 1, depth, s[i] != '"');
      } else if s[i] == '"' {
        BalancedThen(s, y, i + 1, depth, true);
      } else if s[i] == '(' {
        BalancedThen(s, y, i + 1, depth + 1, false);
      } else if s[i] == ')' {
        BalancedThen(s, y, i + 1, depth - 1, false);
      } else {
        BalancedThen(s, y, i + 1, depth, false);
      }
    }
  }

  lemma {:induction false} BalancedBehind(x: string, y: string, i: nat, depth: nat, inString: bool)
    requires i <= |y| && Balanced(y, i, depth, inString)
    ensures Balanced(x + y, |x| + i, depth, inString)
    decreases |y| - i
  {
    if i < |y| {
      assert (x + y)[|x| + i] == y[i];
      if inString {
        BalancedBehind(x, y, i + 1, depth, y[i] != '"');
      } else if y[i] == '"' {
        BalancedBehind(x, y, i + 1, depth, true);
      } else if y[i] == '(' {
        BalancedBehind(x, y, i + 1, depth + 1, false);
      } else if y[i] == ')' {
        BalancedBehind(x, y, i + 1, depth - 1, false);
      } else {
        BalancedBehind(x, y, i + 1, depth, false);
      }
    }
  }

  /** The arguments as a call writes them. */
  function CommaList(args: seq<string>): string { if args == [] then "" else args[0] + Tail(args, 1) }

  /** Arguments that a call can be given: their brackets and strings close, and no
      comma in them separates; one empty argument is written like none. */
  predicate AreWritten(args: seq<string>) {
    args != [""] && forall i :: 0 <= i < |args| ==> IsArgument(args[i]) && Balanced(args[i], 0, 0, false)
  }

  lemma ListSplits(args: seq<string>)
    requires AreWritten(args)
    ensures Arguments(CommaList(args)) == args
  {
    hide Trim, Passes, Pieces, Tail, IsArgument, Balanced;
    if args != [] {
      var (a, t) := (args[0], CommaList(args));
      assert t[0..|a|] == a && t[|a|..] == Tail(args, 1);
      ArgumentParts(a);
      PassesOver(t, 0, 0, a, 0, 0, false);
      TailSplits(t, 0, |a|, args, 1);
      assert [a] + args[1..] == args;
      NotNothing(args);
    } else {
      NoText();
    }
  }

  lemma NoText()
    ensures Trim("") == ""
  {
  }

  lemma NotNothing(args: seq<string>)
    requires args != [] && args != [""] && Trim(args[0]) == args[0]
    ensures Trim(CommaList(args)) != ""
  {
    hide Trim;
    if args[0] != "" {
      NotBlank(args[0], Tail(args, 1));
    } else {
      assert |args| > 1;
      var rest := " " + args[1] + Tail(args, 2);
      assert Tail(args, 1) == "," + rest;
      CommaIsText();
      NotBlank(",", rest);
      assert "" + ("," + rest) == "," + rest;
    }
  }

  lemma CommaIsText()
    ensures Trim(",") == ","
  {
  }

  lemma {:induction false} TailBalanced(args: seq<string>, k: nat)
    requires forall i :: 0 <= i < |args| ==> Balanced(args[i], 0, 0, false)
    ensures Balanced(Tail(args, k), 0, 0, false)
    decreases |args| - k
  {
    if k < |args| {
      hide Balanced;
      TailBalanced(args, k + 1);
      BalancedThen(args[k], Tail(args, k + 1), 0, 0, false);
      CommaBalanced();
      BalancedThen(", ", args[k] + Tail(args, k + 1), 0, 0, false);
      assert ", " + args[k] + Tail(args, k + 1) == ", " + (args[k] + Tail(args, k + 1));
    } else {
      assert Tail(args, k) == "";
    }
  }

  lemma CommaBalanced()
    ensures Balanced(", ", 0, 0, false)
  {
    assert Balanced(", ", 2, 0, false) && Balanced(", ", 1, 0, false);
  }

  lemma ListBalanced(args: seq<string>)
    requires AreWritten(args)
    ensures Balanced(CommaList(args), 0, 0, false)
  {
    hide IsArgument, Tail;
    if args != [] {
      TailBalanced(args, 1);
      BalancedThen(args[0], Tail(args, 1), 0, 0, false);
    }
  }

  function CallText(name: string, args: seq<string>): string { name + "(" + CommaList(args) + ")" }

  /** How a macro is used by a call of it. */
  lemma CallIsUse(def: MacroDef, name: string, args: seq<string>, y: string)
    requires def.isFunction && AreWritten(args)
    ensures
      var u := UseOf(def, CallText(name, args) + y, |name|);
      var end := |CallText(name, args)|;
      u == match Bind(def, args) case None => BadCall(end) case Some(b) => Call(b, end)
  {
    hide Bind, Arguments, CommaList, AreWritten, ClosingParen, Balanced;
    var (x, s) := (name + "(", CommaList(args));
    var t := CallText(name, args) + y;
    ListSplits(args);
    ListBalanced(args);
    BalancedCloses(x, s, y, 0, 0, false);
    assert t == x + s + ")" + y && t[|name|] == '(';
    OpenIsNotClosing(t, |name|);
    assert t[|name| + 1..|x| + |s|] == s;
  }

  /** Main result: a call gives way to the body with each parameter that stands in it
      as a word replaced by its own argument, `#p` by that as a literal, and the marks
      removed; all that is expanded without the macro itself.  A call with too many
      arguments disappears. */
  lemma CallMeansFilled(m: Macros, name: string, args: seq<string>, parts: seq<Part>, y: string, loc: Loc)
    requires IsParam(name) && name != "__LINE__" && name != "__FILE__" && name in m && m[name].isFunction
    requires AreWritten(args)
    requires AreDistinct(m[name]) && IsSpaced(m[name], parts)
    requires m[name].body == BodyOf(m[name].params, parts) && IsOneLine(m[name].body)
    ensures
      Expanded(m, CallText(name, args) + y, loc)
      == (if m[name].rest.None? && |args| > |m[name].params| then ""
          else Expanded(MacroExpansion.Without(m, [name]), Spliced(Filled(args, parts), 0), loc))
         + Expanded(m, y, loc)
  {
    hide Expand, UseOf, Bind, BindsTo, AreWritten, AreDistinct, IsSpaced, BodyOf, Filled, Spliced, SubstituteBody;
    hide CommaList, Live;
    var (def, c) := (m[name], CallText(name, args));
    var t := c + y;
    CallIsUse(def, name, args, y);
    BindsExactly(def, args);
    CallSteps(m, name, args, y, loc);
    var s := ExpandStep(m, [], t, 0, loc);
    ExpandedStep(m, [], t, 0, loc, s, "");
    EmptyFirst(Expand(m, [], t, 0, loc), s.text, Expand(m, [], t, |c|, loc));
    PlainText.ExpandTail(m, [], c, y, 0, loc);
    if Bind(def, args).Some? {
      var b := Bind(def, args).value;
      BoundToEach(def, args);
      PartsAreFilled(def, args, parts, b);
      OneLineBody(def.body, b);
      MacroExpansion.ActiveIsRemoved(m, [name], Spliced(Filled(args, parts), 0), loc);
    }
  }

  lemma BindsExactly(def: MacroDef, args: seq<string>)
    ensures Bind(def, args).None? <==> def.rest.None? && |args| > |def.params|
  {
  }

  lemma CallSteps(m: Macros, name: string, args: seq<string>, y: string, loc: Loc)
    requires IsParam(name) && name != "__LINE__" && name != "__FILE__" && name in m && m[name].isFunction
    requires AreWritten(args)
    ensures
      var c := CallText(name, args);
      |c| <= |c + y| && c + y != "" &&
      ExpandStep(m, [], c + y, 0, loc) ==
      match Bind(m[name], args)
      case None => Step("", |c|)
      case Some(b) => Step(Expand(m, [name], SubstituteBody(m[name].body, b), 0, loc), |c|)
  {
    hide Expand, UseOf, Bind, AreWritten, SubstituteBody, CommaList;
    var t := CallText(name, args) + y;
    assert forall k :: 0 <= k < |name| ==> t[k] == name[k];
    assert t[|name|] == '(' && t[0..|name|] == name && t[0] == name[0];
    WordRuns(t, 0, |name|);
    CallIsUse(m[name], name, args, y);
    assert name in Live(m, []);
    assert [] + [name] == [name];
  }

  /** So a call whose filled body names no macro any more becomes that. */
  lemma CallIsFilled(m: Macros, name: string, args: seq<string>, parts: seq<Part>, loc: Loc)
    requires IsParam(name) && name != "__LINE__" && name != "__FILE__" && name in m && m[name].isFunction
    requires AreWritten(args) && (m[name].rest.None? ==> |args| <= |m[name].params|)
    requires AreDistinct(m[name]) && IsSpaced(m[name], parts)
    requires m[name].body == BodyOf(m[name].params, parts) && IsOneLine(m[name].body)
    requires PlainText.IsPlain(MacroExpansion.Without(m, [name]), Filled(args, parts))
    ensures Expanded(m, CallText(name, args), loc) == Filled(args, parts)
  {
    hide AreDistinct, IsSpaced, BodyOf, Filled, Spliced, Quiet, CallText, Expand, AreWritten, IsOneLine;
    var (v, n) := (Filled(args, parts), MacroExpansion.Without(m, [name]));
    CallMeansFilled(m, name, args, parts, "", loc);
    assert CallText(name, args) + "" == CallText(name, args) && v + "" == v;
    ExpandEnds(m, [], "", loc);
    QuietPasses(v, "", PlainText.Special(n));
    EndsAreEmpty("", PlainText.Special(n));
    PlainText.PlainIsItself(n, v, loc);
  }

  /* ----- definitions with parameters ----- */

  /** The parameters as a header writes them; dots follow a variadic one. */
  function Heads(params: seq<string>, rest: Option<string>): seq<string> {
    if rest.None? then params else params + [rest.value + "..."]
  }

  function HeaderText(name: string, params: seq<string>, rest: Option<string>, body: string): string {
    CallText(name, Heads(params, rest)) + " " + body
  }

  predicate IsHeader(name: string, params: seq<string>, rest: Option<string>, body: string) {
    && IsParam(name) && (forall p :: 0 <= p < |params| ==> IsParam(params[p]))
    && (rest.Some? ==> IsParam(rest.value)) && (body == "" || !IsBlank(body[0]))
  }

  predicate IsDotted(a: string) { a != "" && forall i :: 0 <= i < |a| ==> IsNameChar(a[i]) || a[i] == '.' }

  lemma {:induction false} DottedPasses(a: string, i: nat)
    requires i <= |a| && IsDotted(a)
    ensures Passes(a, i, 0, false) && Balanced(a, i, 0, false)
    decreases |a| - i
  {
    if i < |a| { DottedPasses(a, i + 1); }
  }

  lemma DottedTrims(a: string)
    requires IsDotted(a)
    ensures Trim(a) == a
  {
    assert !IsBlank(a[0]) && !IsBlank(a[|a| - 1]);
    assert TrimLeft(a) == a && TrimRight(a) == a;
  }

  lemma HeadsAreWritten(name: string, params: seq<string>, rest: Option<string>, body: string)
    requires IsHeader(name, params, rest, body)
    ensures AreWritten(Heads(params, rest))
  {
    hide Passes, Balanced, Trim;
    var heads := Heads(params, rest);
    forall i | 0 <= i < |heads|
      ensures heads[i] != "" && IsArgument(heads[i]) && Balanced(heads[i], 0, 0, false)
    {
      assert i < |params| ==> heads[i] == params[i] && IsParam(params[i]);
      assert IsDotted(heads[i]);
      DottedPasses(heads[i], 0);
      DottedTrims(heads[i]);
    }
    assert heads != [""] by { assert |heads| == 1 ==> heads[0] != ""; }
  }

  /** The header of a macro with parameters gives them in their order. */
  lemma FunctionHeader(name: string, params: seq<string>, rest: Option<string>, body: string, spaceAllowed: bool)
    requires IsHeader(name, params, rest, body)
    ensures ParseHeader(" " + HeaderText(name, params, rest, body), spaceAllowed)
         == Some((name, MacroDef(true, false, params, rest, body)))
  {
    hide ClosingParen, Arguments, CommaList, WordEnd, IsVariadic, Trim, BlanksEnd, TrimLeft, ParseHeader, Heads;
    hide AreWritten, Balanced, IsNameChar;
    var heads := Heads(params, rest);
    var t := HeaderText(name, params, rest, body);
    HeadsAreWritten(name, params, rest, body);
    ListSplits(heads);
    ListBalanced(heads);
    HeaderParts(name, CommaList(heads), body);
    BlankDropped(t);
    BlankDropped(body);
    LastHead(name, params, rest, body);
    ParsedHeader(" " + t, spaceAllowed);
  }

  /** Where the parts of a header are. */
  predicate HasParts(t: string, name: string, list: string, body: string)
    requires name != ""
  {
    var close := |name| + 1 + |list|;
    && close < |t| && t[0] == name[0] && t[|name|] == '('
    && WordEnd(t, 0) == |name| && BlanksEnd(t, |name|) == |name|
    && ClosingParen(t, |name|, 0, false) == Some(close) && t[..|name|] == name
    && t[|name| + 1..close] == list && t[close + 1..] == " " + body
  }

  lemma HeaderParts(name: string, list: string, body: string)
    requires IsParam(name) && Balanced(list, 0, 0, false)
    ensures HasParts(name + "(" + list + ")" + " " + body, name, list, body)
  {
    hide ClosingParen, Balanced, WordEnd;
    var t := name + "(" + list + ")" + " " + body;
    BalancedCloses(name + "(", list, " " + body, 0, 0, false);
    assert t == (name + "(") + list + ")" + (" " + body) && t[|name|] == '(' && t[0] == name[0];
    assert forall k :: 0 <= k < |name| ==> t[k] == name[k];
    WordRuns(t, 0, |name|);
    OpenIsNotClosing(t, |name|);
  }

  /** What a header with parameters gives. */
  lemma ParsedHeader(line: string, spaceAllowed: bool)
    ensures
      var s := TrimLeft(line);
      s != "" && IsNameStart(s[0]) ==>
        var i := WordEnd(s, 0);
        BlanksEnd(s, i) == i && i < |s| && s[i] == '(' && ClosingParen(s, i, 0, false).Some? ==>
          var close := ClosingParen(s, i, 0, false).value;
          close > i &&
          var heads := Arguments(s[i + 1..close]);
          var body := TrimLeft(s[close + 1..]);
          var variadic := heads != [] && IsVariadic(heads[|heads| - 1]);
          ParseHeader(line, spaceAllowed) ==
          if variadic then
            var last := heads[|heads| - 1];
            Some((s[..i], MacroDef(true, false, heads[..|heads| - 1], Some(Trim(last[..|last| - 3])), body)))
          else Some((s[..i], MacroDef(true, false, heads, None, body)))
  {
    hide ClosingParen, Arguments, WordEnd, Trim, BlanksEnd, TrimLeft;
    var s := TrimLeft(line);
    if s != "" && IsNameStart(s[0]) {
      var i := WordEnd(s, 0);
      if i < |s| && s[i] == '(' { OpenIsNotClosing(s, i); }
    }
  }

  lemma BlankDropped(t: string)
    requires t == "" || !IsBlank(t[0])
    ensures TrimLeft(" " + t) == t
  {
    assert (" " + t)[1..] == t;
  }

  lemma LastHead(name: string, params: seq<string>, rest: Option<string>, body: string)
    requires IsHeader(name, params, rest, body)
    ensures
      var heads := Heads(params, rest);
      && (rest.None? ==> heads == params && (heads != [] ==> !IsVariadic(heads[|heads| - 1])))
      && (rest.Some? ==>
            && heads != [] && IsVariadic(heads[|heads| - 1]) && heads[..|heads| - 1] == params
            && Trim(heads[|heads| - 1][..|heads[|heads| - 1]| - 3]) == rest.value)
  {
    if rest.Some? {
      var last := rest.value + "...";
      assert last[..|last| - 3] == rest.value && last[|last| - 3..] == "...";
    } else if params != [] {
      var last := params[|params| - 1];
      assert IsParam(last) && IsNameChar(last[|last| - 1]);
      if |last| > 3 { assert last[|last| - 3..][2] == last[|last| - 1]; }
    }
  }

  lemma CallIsOrdinary(m: Macros, name: string, args: seq<string>, y: string)
    requires IsParam(name) && name in m && !m[name].isBlock
    ensures Directives.IsOrdinary(m, CallText(name, args) + y)
  {
    hide ClosingParen, Arguments, CommaList, Bind, SubstituteBody;
    var t := CallText(name, args) + y;
    assert t[0] == name[0] && t[|name|] == '(' && forall k :: 0 <= k < |name| ==> t[k] == name[k];
    assert TrimLeft(t) == t && t[..|name|] == name;
    WordRuns(t, 0, |name|);
  }

  /** Main result: after the line that defines a macro with parameters, a call becomes
      the body with each parameter replaced by its own argument. */
  lemma DefinedCallRuns(w: World, s: State, file: string, dir: string, name: string, params: seq<string>,
                        rest: Option<string>, parts: seq<Part>, args: seq<string>, y: string, depth: nat)
    requires
      var def := MacroDef(true, false, params, rest, BodyOf(params, parts));
      && Closed(w) && IsHeader(name, params, rest, def.body) && name != "__LINE__" && name != "__FILE__"
      && AreDistinct(def) && IsSpaced(def, parts) && IsOneLine(def.body) && AreWritten(args)
    ensures
      var body := BodyOf(params, parts);
      var m := s.macros[name := MacroDef(true, false, params, rest, body)];
      var loc := Loc(2, file);
      var lines := ["#define " + HeaderText(name, params, rest, body), CallText(name, args) + y];
      var r := Run(w, s, Place(lines, file, dir), 0, [], depth);
      && r.Some? && r.value.macros == m
      && r.value.out == s.out + [
           "", (if rest.None? && |args| > |params| then ""
                else Expanded(MacroExpansion.Without(s.macros, [name]), Spliced(Filled(args, parts), 0), loc))
               + Expanded(m, y, loc)]
  {
    hide Run, LineEffect, Keyword, Rest, ParseHeader, Expanded, IsDirective, BodyOf, Filled, CommaList, CallText;
    hide AreDistinct, IsSpaced, AreWritten, Spliced, Directives.IsOrdinary;
    var body := BodyOf(params, parts);
    var def := MacroDef(true, false, params, rest, body);
    var m := s.macros[name := def];
    var header := " " + HeaderText(name, params, rest, body);
    var lines := ["#define " + HeaderText(name, params, rest, body), CallText(name, args) + y];
    var p := Place(lines, file, dir);
    assert lines[0] == "#" + "define" + header;
    Directives.DirectiveParts(lines[0], "define", header);
    FunctionHeader(name, params, rest, body, false);
    Directives.DefineLine(w, s, p, 0, header, depth);
    var u := Emit(s, "", Loc(1, file)).(macros := m);
    CallIsOrdinary(m, name, args, y);
    Directives.OrdinaryLine(w, u, p, 1, depth);
    Directives.OrdinaryKeyword(m, lines[1]);
    Directives.TwoLinesRun(w, s, p, depth);
    CallMeansFilled(m, name, args, parts, y, Loc(2, file));
    assert MacroExpansion.Without(m, [name]) == MacroExpansion.Without(s.macros, [name]);
  }

  /** The shortest macro in which the order of the arguments matters. */
  lemma Difference(m: Macros, x: string, y: string, loc: Loc)
    requires "SUB" in m && m["SUB"] == MacroDef(true, false, ["a", "b"], None, "a-b")
    requires AreWritten([x, y]) && PlainText.IsPlain(MacroExpansion.Without(m, ["SUB"]), x + "-" + y)
    ensures Expanded(m, "SUB(" + x + ", " + y + ")", loc) == x + "-" + y
  {
    hide Expand, AreWritten, Quiet, PlainText.IsPlain, CallText, BodyOf, Filled, IsSpaced, AreDistinct;
    var (def, parts) := (m["SUB"], [Param(0), Text("-"), Param(1)]);
    DifferenceParts(def, [x, y]);
    DifferenceCall(x, y);
    CallIsFilled(m, "SUB", [x, y], parts, loc);
  }

  lemma DifferenceCall(x: string, y: string)
    ensures CallText("SUB", [x, y]) == "SUB(" + x + ", " + y + ")"
  {
    assert Tail([x, y], 2) == "" && Tail([x, y], 1) == ", " + y;
    assert CommaList([x, y]) == x + (", " + y);
    assert "SUB" + "(" == "SUB(";
  }

  lemma QuietDash(def: MacroDef)
    ensures Quiet("-", 0, Names(def))
  {
    assert Quiet("-", 1, Names(def));
  }

  lemma DifferenceParts(def: MacroDef, args: seq<string>)
    requires def == MacroDef(true, false, ["a", "b"], None, "a-b") && |args| == 2
    ensures
      var parts := [Param(0), Text("-"), Param(1)];
      && BodyOf(def.params, parts) == def.body && Filled(args, parts) == args[0] + "-" + args[1]
      && IsSpaced(def, parts) && AreDistinct(def)
  {
    hide Quiet, Names;
    var parts := [Param(0), Text("-"), Param(1)];
    var (two, one) := (parts[1..], parts[1..][1..]);
    assert one == [Param(1)] && one[1..] == [] && two == [Text("-"), Param(1)];
    assert BodyOf(def.params, []) == "" && Filled(args, []) == "";
    assert BodyOf(def.params, one) == "b" + "" == "b" && BodyOf(def.params, two) == "-" + "b" == "-b";
    assert Filled(args, one) == args[1] + "" == args[1];
    assert Filled(args, two) == FilledPart(args, two[0]) + Filled(args, one) == "-" + args[1];
    QuietDash(def);
    assert IsSpaced(def, one) && IsSpaced(def, two);
    assert args[0] + ("-" + args[1]) == args[0] + "-" + args[1];
  }
}
