/** Version triples, version requirements, and the choice among published versions. */
module SemVer {
  import opened Options
  import opened Decimal

  datatype SemVer = SemVer(major: nat, minor: nat, patch: nat)

  predicate Less(a: SemVer, b: SemVer) {
    if a.major != b.major then a.major < b.major
    else if a.minor != b.minor then a.minor < b.minor
    else a.patch < b.patch
  }

  function SplitDots(s: string): (parts: seq<string>)
    ensures |parts| > 0
  {
    if '.' !in s then [s]
    else
      var i := FirstDot(s);
      [s[..i]] + SplitDots(s[i + 1..])
  }

  function FirstDot(s: string): (i: nat)
    requires '.' in s
    ensures i < |s| && s[i] == '.' && '.' !in s[..i]
  {
    if s[0] == '.' then 0
    else
      assert s == [s[0]] + s[1..];
      var i := 1 + FirstDot(s[1..]);
      assert s[..i] == [s[0]] + s[1..][..i - 1];
      i
  }

  method SplitOnDots(s: string) returns (parts: seq<string>)
    ensures parts == SplitDots(s)
  {
    hide SplitDots;
    parts := [];
    var start := 0;
    assert s[0..] == s && [] + SplitDots(s) == SplitDots(s);
    while true
      invariant start <= |s| && parts + SplitDots(s[start..]) == SplitDots(s)
      decreases |s| - start
    {
      var pos := start;
      while pos < |s| && s[pos] != '.'
        invariant start <= pos <= |s| && '.' !in s[start..pos]
      {
        pos := pos + 1;
      }
      ghost var rest := s[start..];
      assert rest[..pos - start] == s[start..pos];
      SplitsAt(rest, pos - start);
      parts := parts + [s[start..pos]];
      if pos == |s| {
        assert rest == s[start..pos];
        break;
      }
      assert rest[pos - start + 1..] == s[pos + 1..];
      start := pos + 1;
    }
  }

  lemma SplitsAt(s: string, i: nat)
    requires i <= |s| && '.' !in s[..i] && (i < |s| ==> s[i] == '.')
    ensures SplitDots(s) == if i == |s| then [s] else [s[..i]] + SplitDots(s[i + 1..])
  {
    hide FirstDot;
    if i < |s| {
      assert s == s[..i] + "." + s[i + 1..] by { hide SplitDots; }
      SplitAtDot(s[..i], s[i + 1..]);
    } else {
      assert s[..i] == s;
    }
  }

  /** A component: digits only, and no leading zero unless it is just zero. */
  function ParseComponent(s: string): Option<nat> {
    if s == "" || (|s| > 1 && s[0] == '0') || !AllDigits(s) then None else Some(FromDec(s))
  }

  function ParseSemVer(text: string): Option<SemVer> {
    var parts := SplitDots(text);
    if |parts| != 3 then None
    else
      var (a, b, c) := (ParseComponent(parts[0]), ParseComponent(parts[1]), ParseComponent(parts[2]));
      if a.None? || b.None? || c.None? then None else Some(SemVer(a.value, b.value, c.value))
  }

  function ToString(v: SemVer): (s: string)
    ensures s != ""
  {
    ToDec(v.major) + "." + ToDec(v.minor) + "." + ToDec(v.patch)
  }

  datatype Op = Caret | Tilde | Exact

  /** `precision` is how many components the requirement gave. */
  datatype Req = Req(op: Op, major: nat, minor: nat, patch: nat, precision: nat)

  function ParseReq(text: string): Option<Req> {
    if text == "" then None
    else
      var op := if text[0] == '~' then Tilde else if text[0] == '=' then Exact else Caret;
      var parts := SplitDots(if text[0] == '^' || text[0] == '~' || text[0] == '=' then text[1..] else text);
      if |parts| > 3 || (op == Exact && |parts| != 3) then None
      else
        var a := ParseComponent(parts[0]);
        var b := if |parts| > 1 then ParseComponent(parts[1]) else Some(0);
        var c := if |parts| > 2 then ParseComponent(parts[2]) else Some(0);
        if a.None? || b.None? || c.None? then None else Some(Req(op, a.value, b.value, c.value, |parts|))
  }

  predicate Proper(r: Req) {
    1 <= r.precision <= 3 && (r.precision < 3 ==> r.patch == 0) && (r.precision < 2 ==> r.minor == 0)
  }

  function CaretUpperBound(r: Req): SemVer {
    if r.major != 0 then SemVer(r.major + 1, 0, 0)
    else if r.precision >= 2 && r.minor != 0 then SemVer(0, r.minor + 1, 0)
    else if r.precision >= 3 then SemVer(0, r.minor, r.patch + 1)
    else if r.precision == 2 then SemVer(0, r.minor + 1, 0)
    else SemVer(1, 0, 0)
  }

  function TildeUpperBound(r: Req): SemVer {
    if r.precision >= 2 then SemVer(r.major, r.minor + 1, 0) else SemVer(r.major + 1, 0, 0)
  }

  predicate Matches(r: Req, v: SemVer) {
    var low := SemVer(r.major, r.minor, r.patch);
    match r.op
    case Exact => v == low
    case Caret => !Less(v, low) && Less(v, CaretUpperBound(r))
    case Tilde => !Less(v, low) && Less(v, TildeUpperBound(r))
  }

  /** Caret: at least the given version, and the first nonzero given component
      (or the last given one, if all are zero) stays as it is. */
  lemma CaretMeaning(r: Req, v: SemVer)
    requires r.op == Caret && Proper(r)
    ensures Matches(r, v) <==>
              !Less(v, SemVer(r.major, r.minor, r.patch)) && v.major == r.major &&
              (r.major == 0 && r.precision >= 2 ==> v.minor == r.minor) &&
              (r.major == 0 && r.minor == 0 && r.precision == 3 ==> v.patch == r.patch)
  {
  }

  /** Tilde: only components after the last given one, or the last, may grow. */
  lemma TildeMeaning(r: Req, v: SemVer)
    requires r.op == Tilde && Proper(r)
    ensures Matches(r, v) <==>
              !Less(v, SemVer(r.major, r.minor, r.patch)) && v.major == r.major &&
              (r.precision >= 2 ==> v.minor == r.minor)
  {
  }

  /** The best version: it matches, and no matching version is greater. */
  ghost predicate IsBest(available: seq<SemVer>, r: Req, best: Option<SemVer>) {
    match best
    case None => forall i :: 0 <= i < |available| ==> !Matches(r, available[i])
    case Some(v) =>
      && v in available && Matches(r, v)
      && forall i :: 0 <= i < |available| && Matches(r, available[i]) ==> !Less(v, available[i])
  }

  function Best(available: seq<SemVer>, r: Req): Option<SemVer> {
    if available == [] then None
    else
      var last := |available| - 1;
      var before := Best(available[..last], r);
      if Matches(r, available[last]) && (before.None? || Less(before.value, available[last]))
      then Some(available[last]) else before
  }

  method PickBestSatisfying(available: seq<SemVer>, r: Req) returns (best: Option<SemVer>)
    ensures best == Best(available, r) && IsBest(available, r, best)
  {
    best := None;
    for i := 0 to |available|
      invariant best == Best(available[..i], r)
    {
      assert available[..i + 1][..i] == available[..i];
      if Matches(r, available[i]) && (best.None? || Less(best.value, available[i])) {
        best := Some(available[i]);
      }
    }
    assert available[..|available|] == available;
    BestIsBest(available, r);
  }

  lemma {:induction false} BestIsBest(available: seq<SemVer>, r: Req)
    ensures IsBest(available, r, Best(available, r))
  {
    if available != [] {
      var last := |available| - 1;
      var init := available[..last];
      BestIsBest(init, r);
      assert available == init + [available[last]];
      forall i | 0 <= i < |available| && Matches(r, available[i])
        ensures Best(available, r).Some? && !Less(Best(available, r).value, available[i])
      {
        if i < last { assert init[i] == available[i]; }
      }
    }
  }

  lemma ComponentRoundTrip(n: nat)
    ensures ParseComponent(ToDec(n)) == Some(n) && '.' !in ToDec(n)
  {
    DecRoundTrip(n);
  }

  lemma DotBefore(s: string, i: nat, j: nat)
    ensures i < j <= |s| && s[i] == '.' ==> '.' in s[..j]
  {
    if i < j <= |s| && s[i] == '.' { assert s[..j][i] == '.'; }
  }

  lemma SplitAtDot(a: string, b: string)
    requires '.' !in a
    ensures SplitDots(a + "." + b) == [a] + SplitDots(b)
  {
    var s := a + "." + b;
    assert s[|a|] == '.';
    var i := FirstDot(s);
    DotBefore(s, i, |a|);
    DotBefore(s, |a|, i);
    assert s[..|a|] == a;
    assert s[..i] == a && s[i + 1..] == b;
  }

  /** A published version survives being written to the lockfile and read back. */
  lemma VersionRoundTrip(v: SemVer)
    ensures ParseSemVer(ToString(v)) == Some(v)
  {
    hide ToDec, ParseComponent;
    ComponentRoundTrip(v.major);
    ComponentRoundTrip(v.minor);
    ComponentRoundTrip(v.patch);
    var rest := ToDec(v.minor) + "." + ToDec(v.patch);
    assert ToString(v) == ToDec(v.major) + "." + rest;
    SplitAtDot(ToDec(v.major), rest);
    SplitAtDot(ToDec(v.minor), ToDec(v.patch));
    assert SplitDots(ToDec(v.patch)) == [ToDec(v.patch)];
  }

  /** Parsed requirements leave out only trailing components. */
  lemma ParsedIsProper(text: string)
    ensures ParseReq(text).Some? ==> Proper(ParseReq(text).value)
  {
  }

  /** The order on versions: patches within a minor version, those within a major
      one.  Being irreflexive and total, it has no other pairs. */
  lemma VersionOrder(v: SemVer, w: SemVer)
    ensures Less(v, v.(patch := w.patch)) <==> v.patch < w.patch
    ensures v.minor < w.minor ==> Less(v, w.(major := v.major))
    ensures v.major < w.major ==> Less(v, w)
    ensures !(Less(v, w) && Less(w, v)) && (Less(v, w) || Less(w, v) || v == w)
  {
  }

  /** An exact requirement is met by that version only. */
  lemma ExactMeaning(r: Req, v: SemVer)
    requires r.op == Exact && r.precision == 3
    ensures Matches(r, v) <==> v.major == r.major && v.minor == r.minor && v.patch == r.patch
  {
  }

  /* ----- requirements as text ----- */

  function SignOf(op: Op): string {
    match op
    case Caret => "^"
    case Tilde => "~"
    case Exact => "="
  }

  function GivenPart(r: Req): string {
    if r.precision == 1 then ToDec(r.major)
    else if r.precision == 2 then ToDec(r.major) + "." + ToDec(r.minor)
    else ToDec(r.major) + "." + ToDec(r.minor) + "." + ToDec(r.patch)
  }

  lemma GivenSplits(r: Req)
    requires Proper(r)
    ensures SplitDots(GivenPart(r)) == [ToDec(r.major), ToDec(r.minor), ToDec(r.patch)][..r.precision]
  {
    hide ToDec, ParseComponent;
    var parts := [ToDec(r.major), ToDec(r.minor), ToDec(r.patch)];
    ComponentRoundTrip(r.major);
    ComponentRoundTrip(r.minor);
    ComponentRoundTrip(r.patch);
    if r.precision == 2 { SplitAtDot(ToDec(r.major), ToDec(r.minor)); }
    if r.precision == 3 {
      var rest := ToDec(r.minor) + "." + ToDec(r.patch);
      assert GivenPart(r) == ToDec(r.major) + "." + rest;
      SplitAtDot(ToDec(r.major), rest);
      SplitAtDot(ToDec(r.minor), ToDec(r.patch));
    }
  }

  /** A requirement written with its sign, `^`, `~` or `=`, is read as that one;
      without a sign it is a caret requirement. */
  lemma ReqRoundTrip(r: Req)
    requires Proper(r) && (r.op == Exact ==> r.precision == 3)
    ensures ParseReq(SignOf(r.op) + GivenPart(r)) == Some(r)
    ensures ParseReq(GivenPart(r)) == Some(r.(op := Caret))
  {
    hide ToDec, ParseComponent, SplitDots, GivenPart;
    ComponentRoundTrip(r.major);
    ComponentRoundTrip(r.minor);
    ComponentRoundTrip(r.patch);
    GivenSplits(r);
    GivenStarts(r);
    var t := SignOf(r.op) + GivenPart(r);
    assert t[1..] == GivenPart(r);
  }

  lemma GivenStarts(r: Req)
    ensures GivenPart(r) != "" && GivenPart(r)[0] != '^' && GivenPart(r)[0] != '~' && GivenPart(r)[0] != '='
  {
    hide SplitDots;
    DecRoundTrip(r.major);
    assert GivenPart(r)[0] == ToDec(r.major)[0];
  }

  function JoinDots(parts: seq<string>): string {
    if |parts| == 0 then "" else if |parts| == 1 then parts[0] else parts[0] + "." + JoinDots(parts[1..])
  }

  lemma {:induction false} SplitJoins(s: string)
    ensures JoinDots(SplitDots(s)) == s
    decreases |s|
  {
    if '.' in s {
      var i := FirstDot(s);
      SplitJoins(s[i + 1..]);
      assert SplitDots(s)[1..] == SplitDots(s[i + 1..]);
      assert s == s[..i] + "." + s[i + 1..];
    }
  }

  /** Nothing else is read as a requirement: whatever parses was written so. */
  lemma ParsedIsWritten(text: string)
    requires ParseReq(text).Some?
    ensures
      var r := ParseReq(text).value;
      && Proper(r) && (r.op == Exact ==> r.precision == 3)
      && (text == SignOf(r.op) + GivenPart(r) || (r.op == Caret && text == GivenPart(r)))
  {
    hide ToDec, SplitDots, JoinDots, FromDec, AllDigits;
    var r := ParseReq(text).value;
    var signed := text[0] == '^' || text[0] == '~' || text[0] == '=';
    var body := if signed then text[1..] else text;
    var parts := SplitDots(body);
    SplitJoins(body);
    PartIsWritten(parts[0]);
    if |parts| > 1 { PartIsWritten(parts[1]); }
    if |parts| > 2 { PartIsWritten(parts[2]); }
    JoinsUpToThree(parts);
    assert body == GivenPart(r);
    if signed { assert text == [text[0]] + body; }
  }

  lemma PartIsWritten(s: string)
    ensures ParseComponent(s).Some? ==> s == ToDec(ParseComponent(s).value)
  {
    if ParseComponent(s).Some? { DecIsWritten(s); }
  }

  lemma JoinsUpToThree(parts: seq<string>)
    ensures |parts| == 1 ==> JoinDots(parts) == parts[0]
    ensures |parts| == 2 ==> JoinDots(parts) == parts[0] + "." + parts[1]
    ensures |parts| == 3 ==> JoinDots(parts) == parts[0] + "." + parts[1] + "." + parts[2]
  {
    if |parts| == 2 { assert JoinDots(parts[1..]) == parts[1]; }
    if |parts| == 3 {
      assert JoinDots(parts[1..][1..]) == parts[2];
      assert JoinDots(parts[1..]) == parts[1] + "." + parts[2];
    }
  }
}
