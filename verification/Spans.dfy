/** Parts of a sequence, by position. */
module Spans {

  /** The elements `s` stand at a position, with more to come after them. */
  ghost predicate Stands<T>(toks: seq<T>, pos: nat, s: seq<T>) {
    pos + |s| < |toks| && toks[pos..pos + |s|] == s
  }

  lemma Split<T>(toks: seq<T>, pos: nat, a: seq<T>, b: seq<T>)
    requires Stands(toks, pos, a + b)
    ensures Stands(toks, pos, a) && Stands(toks, pos + |a|, b)
    ensures pos + |a| + |b| < |toks|
  {
    var s := toks[pos..pos + |a| + |b|];
    assert s[..|a|] == a && s[|a|..] == b;
    assert s[..|a|] == toks[pos..pos + |a|] && s[|a|..] == toks[pos + |a|..pos + |a| + |b|];
  }

  lemma First<T>(toks: seq<T>, pos: nat, s: seq<T>)
    requires Stands(toks, pos, s) && s != []
    ensures pos + |s| < |toks| && toks[pos] == s[0]
  {
    assert toks[pos..pos + |s|][0] == toks[pos];
  }

  lemma Separated<T>(toks: seq<T>, pos: nat, a: seq<T>, t: T, b: seq<T>)
    requires Stands(toks, pos, a + [t] + b)
    ensures Stands(toks, pos, a) && Stands(toks, pos + |a| + 1, b)
    ensures pos + |a| + 1 + |b| < |toks| && toks[pos + |a|] == t
  {
    Split(toks, pos, a + [t], b);
    Split(toks, pos, a, [t]);
    First(toks, pos + |a|, [t]);
  }

  lemma Bracketed<T>(toks: seq<T>, pos: nat, l: T, s: seq<T>, r: T)
    requires Stands(toks, pos, [l] + s + [r])
    ensures pos + |s| + 2 < |toks| && toks[pos] == l && toks[pos + 1 + |s|] == r && Stands(toks, pos + 1, s)
  {
    assert [l] + s + [r] == [] + [l] + (s + [r]);
    Separated(toks, pos, [], l, s + [r]);
    assert s + [r] == s + [r] + [];
    Separated(toks, pos + 1, s, r, []);
  }
}
