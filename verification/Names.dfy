/** Generated names as text: they never meet each other, and they meet a user's
    name in exactly one way. */
module Names {
  import opened Cpp
  import opened Decimal
  import opened Chars

  function PrefixText(p: Prefix): string {
    match p
    case ForEnd => "eb__forend"
    case ForStep => "eb__forstep"
    case ForExit => "eb__forexit"
    case Sel => "eb__sel"
    case DoExit => "eb__doexit"
    case WhileExit => "eb__whileexit"
  }

  function Render(g: Gen): string { PrefixText(g.prefix) + ToDec(g.n) }

  const RET := "eb__ret"

  /** The C++ name of a user's variable or label. */
  function MangleName(name: string): string { "eb_" + LowerCase(name) }

  lemma PrefixesDiffer(p: Prefix, q: Prefix)
    requires PrefixText(p) == PrefixText(q)
    ensures p == q
  {
    assert "eb__forstep"[7] == 's' && "eb__forexit"[7] == 'e';
    assert "eb__forend"[4] == 'f' && "eb__doexit"[4] == 'd';
  }

  lemma PrefixEndsInLetter(p: Prefix)
    ensures var t := PrefixText(p); |t| > 0 && !IsDigit(t[|t| - 1])
  {
  }

  lemma OverlapIsDigit(p: string, a: string, q: string, b: string)
    requires p + a == q + b && AllDigits(a)
    ensures |p| < |q| ==> IsDigit(q[|q| - 1])
  {
    if |p| < |q| {
      assert (p + a)[|q| - 1] == a[|q| - 1 - |p|];
      assert (q + b)[|q| - 1] == q[|q| - 1];
    }
  }

  /** Distinct generated names have distinct text. */
  lemma RenderInjective(a: Gen, b: Gen)
    ensures Render(a) == Render(b) <==> a == b
  {
    if Render(a) == Render(b) {
      var (p, q) := (PrefixText(a.prefix), PrefixText(b.prefix));
      PrefixEndsInLetter(a.prefix);
      PrefixEndsInLetter(b.prefix);
      OverlapIsDigit(p, ToDec(a.n), q, ToDec(b.n));
      OverlapIsDigit(q, ToDec(b.n), p, ToDec(a.n));
      assert p == Render(a)[..|p|] && q == Render(b)[..|q|];
      PrefixesDiffer(a.prefix, b.prefix);
      assert ToDec(a.n) == Render(a)[|p|..] && ToDec(b.n) == Render(b)[|q|..];
      DecRoundTrip(a.n);
      DecRoundTrip(b.n);
    }
  }

  lemma StartsWithUnderscore(g: Gen)
    ensures |Render(g)| > 3 && Render(g)[..3] == "eb_" && Render(g)[3] == '_'
  {
    var t := PrefixText(g.prefix);
    assert |t| > 3 && t[..3] == "eb_" && t[3] == '_';
    assert Render(g)[..3] == t[..3];
  }

  /** A user name collides with a generated one exactly when its lower-case form
      is the generated name without `eb_`, so it has to start with an underscore. */
  lemma CollisionExactly(name: string, g: Gen)
    ensures MangleName(name) == Render(g) <==> LowerCase(name) == Render(g)[3..]
    ensures MangleName(name) == RET <==> LowerCase(name) == "_ret"
    ensures name == "" || name[0] != '_' ==> MangleName(name) != Render(g) && MangleName(name) != RET
  {
    StartsWithUnderscore(g);
    assert Render(g) == Render(g)[..3] + Render(g)[3..];
    assert MangleName(name)[3..] == LowerCase(name);
    assert RET == "eb_" + "_ret";
    if name != "" && (LowerCase(name) == Render(g)[3..] || LowerCase(name) == "_ret") {
      assert LowerCase(name)[0] == '_';
      assert ToLower(name[0]) == '_';
    }
  }

  /** The collision does occur: a user label `_ForExit0` is the exit label of the
      first FOR. */
  lemma CollisionOccurs()
    ensures MangleName("_ForExit0") == Render(Gen(ForExit, 0))
  {
    assert LowerCase("_ForExit0") == "_forexit0";
    assert ToDec(0) == "0";
  }
}
