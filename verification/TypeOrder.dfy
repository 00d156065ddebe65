/** The order in which TYPE and UNION definitions are emitted: a depth-first walk
    that puts what a type embeds or extends before it, and survives cycles. */
module TypeOrder {

  datatype FieldType = Plain(text: string) | Pointer(to: string) | Embedded(typeName: string)

  datatype Field = Field(name: string, fieldType: FieldType)

  /** A declaration; names are canonical, and an empty base means none. */
  datatype TypeDecl = TypeDecl(name: string, isUnion: bool, fields: seq<Field>, methods: seq<string>, base: string,
                               interfaces: seq<string>)

  type Decls = map<string, TypeDecl>

  datatype Piece = Forward(name: string) | Definition(decl: TypeDecl)

  function NameOf(p: Piece): string { if p.Forward? then p.name else p.decl.name }

  predicate IsOpaque(d: TypeDecl) {
    !d.isUnion && d.fields == [] && d.methods == [] && d.base == "" && d.interfaces == []
  }

  function PieceOf(d: TypeDecl): Piece { if IsOpaque(d) then Forward(d.name) else Definition(d) }

  /** The definition of `a` needs that of `b`: as a field, a base or an interface. */
  predicate Needs(a: TypeDecl, b: string) {
    || (exists i :: 0 <= i < |a.fields| && a.fields[i].fieldType == Embedded(b))
    || (a.base != "" && a.base == b)
    || b in a.interfaces
  }

  ghost predicate Declared(decls: Decls) { forall n :: n in decls ==> decls[n].name == n }

  ghost predicate Step(decls: Decls, a: string, b: string) { a in decls && b in decls && Needs(decls[a], b) }

  ghost predicate IsChain(decls: Decls, p: seq<string>) {
    forall i :: 0 <= i < |p| - 1 ==> Step(decls, p[i], p[i + 1])
  }

  ghost predicate Reaches(decls: Decls, a: string, b: string) {
    exists p :: |p| > 0 && p[0] == a && p[|p| - 1] == b && IsChain(decls, p)
  }

  /** Some type needs itself, however indirectly. */
  ghost predicate Cyclic(decls: Decls) {
    exists p :: |p| > 1 && p[0] == p[|p| - 1] && IsChain(decls, p)
  }

  datatype Tables = Tables(emitted: set<string>, being: set<string>, out: seq<Piece>)

  ghost predicate Before(out: seq<Piece>, i: int, n: string) {
    exists j :: 0 <= j < i && j < |out| && NameOf(out[j]) == n
  }

  /** What the i-th type needs comes before it, unless it needs that type in turn. */
  ghost predicate OrderedAt(decls: Decls, out: seq<Piece>, i: nat)
    requires i < |out|
  {
    forall n :: Step(decls, NameOf(out[i]), n) ==> Before(out, i, n) || Reaches(decls, n, NameOf(out[i]))
  }

  ghost predicate EachOnce(out: seq<Piece>) {
    forall i, j :: 0 <= i < j < |out| ==> NameOf(out[i]) != NameOf(out[j])
  }

  /** The emitted names are those in the output. */
  ghost predicate Records(decls: Decls, t: Tables) {
    && EachOnce(t.out)
    && (forall i :: 0 <= i < |t.out| ==> FromDecls(decls, t, t.out[i]))
    && (forall n :: n in t.emitted ==> Before(t.out, |t.out|, n))
  }

  ghost predicate FromDecls(decls: Decls, t: Tables, p: Piece) {
    NameOf(p) in t.emitted && NameOf(p) in decls && p == PieceOf(decls[NameOf(p)])
  }

  /** The types being emitted form a chain of needs; none has been emitted. */
  ghost predicate Stacked(decls: Decls, t: Tables, stack: seq<string>) {
    && IsChain(decls, stack) && (forall i :: 0 <= i < |stack| ==> stack[i] in t.being)
    && (forall n :: n in t.being ==> n in stack && n in decls && n !in t.emitted)
  }

  ghost predicate Inv(decls: Decls, t: Tables, stack: seq<string>) {
    && Records(decls, t) && Stacked(decls, t, stack)
    && (forall i :: 0 <= i < |t.out| ==> OrderedAt(decls, t.out, i))
  }

  lemma BeforeGrows(out: seq<Piece>, p: Piece, i: int, j: int, n: string)
    requires Before(out, i, n) && i <= j
    ensures Before(out + [p], j, n)
  {
    var k :| 0 <= k < i && k < |out| && NameOf(out[k]) == n;
    assert (out + [p])[k] == out[k];
  }

  lemma BeforeShrinks(out: seq<Piece>, p: Piece, i: int, n: string)
    requires i <= |out| && Before(out, i, n)
    ensures Before(out + [p], i, n)
  {
    BeforeGrows(out, p, i, i, n);
  }

  lemma StackReaches(decls: Decls, stack: seq<string>, n: string, key: string)
    requires IsChain(decls, stack + [key]) && n in stack + [key]
    ensures Reaches(decls, n, key)
  {
    var all := stack + [key];
    var i :| 0 <= i < |all| && all[i] == n;
    var p := all[i..];
    forall k | 0 <= k < |p| - 1 ensures Step(decls, p[k], p[k + 1]) {
      assert Step(decls, all[i + k], all[i + k + 1]);
    }
    assert p[0] == n && p[|p| - 1] == key && IsChain(decls, p);
  }

  /** Starting on a type that is not on the stack. */
  lemma PushKeepsInv(decls: Decls, t: Tables, stack: seq<string>, key: string)
    requires Inv(decls, t, stack) && key in decls && key !in t.emitted
    requires stack != [] ==> Step(decls, stack[|stack| - 1], key)
    ensures Inv(decls, t.(being := t.being + {key}), stack + [key])
  {
    var (b, all) := (t.(being := t.being + {key}), stack + [key]);
    forall i | 0 <= i < |all| - 1 ensures Step(decls, all[i], all[i + 1]) {
      if i < |stack| - 1 { assert Step(decls, stack[i], stack[i + 1]); }
    }
    forall i | 0 <= i < |b.out| ensures FromDecls(decls, b, b.out[i]) {
      assert FromDecls(decls, t, t.out[i]);
    }
  }

  ghost function Finished(t: Tables, d: TypeDecl): Tables {
    Tables(t.emitted + {d.name}, t.being - {d.name}, t.out + [PieceOf(d)])
  }

  lemma FinishRecords(decls: Decls, t: Tables, stack: seq<string>, d: TypeDecl)
    requires Inv(decls, t, stack + [d.name]) && d.name in decls && decls[d.name] == d
    ensures Records(decls, Finished(t, d))
  {
    var f := Finished(t, d);
    assert (stack + [d.name])[|stack|] in t.being;
    forall i | 0 <= i < |f.out| ensures FromDecls(decls, f, f.out[i]) {
      if i < |t.out| { assert FromDecls(decls, t, t.out[i]); }
    }
    forall n | n in f.emitted ensures Before(f.out, |f.out|, n) {
      if n == d.name {
        assert NameOf(f.out[|t.out|]) == n;
      } else {
        BeforeGrows(t.out, PieceOf(d), |t.out|, |f.out|, n);
      }
    }
    forall i, j | 0 <= i < j < |f.out| ensures NameOf(f.out[i]) != NameOf(f.out[j]) {
      assert FromDecls(decls, t, t.out[i]);
    }
  }

  lemma FinishOrders(decls: Decls, t: Tables, stack: seq<string>, d: TypeDecl, i: nat)
    requires Inv(decls, t, stack + [d.name]) && d.name in decls && decls[d.name] == d && i <= |t.out|
    requires forall n :: Step(decls, d.name, n) ==> n in t.emitted || n in t.being
    ensures OrderedAt(decls, Finished(t, d).out, i)
  {
    var out := Finished(t, d).out;
    var name := NameOf(out[i]);
    forall n | Step(decls, name, n) ensures Before(out, i, n) || Reaches(decls, n, name) {
      if i < |t.out| {
        assert OrderedAt(decls, t.out, i);
        if Before(t.out, i, n) { BeforeShrinks(t.out, PieceOf(d), i, n); }
      } else if n in t.emitted {
        BeforeShrinks(t.out, PieceOf(d), i, n);
      } else {
        StackReaches(decls, stack, n, d.name);
      }
    }
  }

  /** Emitting a type once everything it needs has been emitted or is on the stack. */
  lemma FinishKeepsInv(decls: Decls, t: Tables, stack: seq<string>, d: TypeDecl)
    requires Inv(decls, t, stack + [d.name]) && d.name in decls && decls[d.name] == d && d.name !in stack
    requires forall n :: Step(decls, d.name, n) ==> n in t.emitted || n in t.being
    ensures Inv(decls, Finished(t, d), stack)
  {
    var f := Finished(t, d);
    FinishRecords(decls, t, stack, d);
    forall i | 0 <= i < |f.out| ensures OrderedAt(decls, f.out, i) {
      FinishOrders(decls, t, stack, d, i);
    }
    var all := stack + [d.name];
    forall i | 0 <= i < |stack| - 1 ensures Step(decls, stack[i], stack[i + 1]) {
      assert Step(decls, all[i], all[i + 1]);
    }
    forall i | 0 <= i < |stack| ensures stack[i] in f.being {
      assert all[i] == stack[i];
    }
  }

  ghost predicate Handled(t: Tables, n: string) { n in t.emitted || n in t.being }

  /** Tables after a call: more has been emitted, and the same is being emitted. */
  ghost predicate Grew(a: Tables, b: Tables) {
    a.out <= b.out && a.emitted <= b.emitted && a.being == b.being
  }

  class TypeGenerator {
    const decls: Decls
    var typesEmitted: set<string>
    var typesBeingEmitted: set<string>
    var typesOut: seq<Piece>

    constructor (decls: Decls)
      ensures this.decls == decls && Now() == Tables({}, {}, [])
    {
      this.decls, typesEmitted, typesBeingEmitted, typesOut := decls, {}, {}, [];
    }

    ghost function Now(): Tables
      reads this
    {
      Tables(typesEmitted, typesBeingEmitted, typesOut)
    }

    method GenTypeDecl(stmt: TypeDecl, ghost stack: seq<string>)
      requires Declared(decls) && Inv(decls, Now(), stack)
      requires stmt.name in decls && decls[stmt.name] == stmt
      requires stack != [] ==> Step(decls, stack[|stack| - 1], stmt.name)
      modifies this
      ensures Inv(decls, Now(), stack) && Grew(old(Now()), Now()) && Handled(Now(), stmt.name)
      decreases |decls.Keys - typesBeingEmitted|, 0
    {
      hide Inv, Step, Declared, IsChain, Reaches, Needs;
      var key := stmt.name;
      if key in typesEmitted || key in typesBeingEmitted { return; }
      PushKeepsInv(decls, Now(), stack, key);
      OffStack(decls, Now(), stack, key);
      Fewer(decls.Keys - typesBeingEmitted, key);
      assert decls.Keys - (typesBeingEmitted + {key}) == decls.Keys - typesBeingEmitted - {key};
      typesBeingEmitted := typesBeingEmitted + {key};
      if IsOpaque(stmt) {
        NothingNeeded(decls, Now(), stmt);
        FinishKeepsInv(decls, Now(), stack, stmt);
        typesOut := typesOut + [Forward(stmt.name)];
        typesBeingEmitted := typesBeingEmitted - {key};
        typesEmitted := typesEmitted + {key};
        return;
      }
      GenNeeded(stmt, stack + [key]);
      FinishKeepsInv(decls, Now(), stack, stmt);
      typesOut := typesOut + [Definition(stmt)];
      typesBeingEmitted := typesBeingEmitted - {key};
      typesEmitted := typesEmitted + {key};
    }

    /** The three loops over what a type embeds, extends and implements. */
    method GenNeeded(stmt: TypeDecl, ghost stack: seq<string>)
      requires Declared(decls) && Inv(decls, Now(), stack)
      requires stmt.name in decls && decls[stmt.name] == stmt
      requires stack != [] && stack[|stack| - 1] == stmt.name
      modifies this
      ensures Inv(decls, Now(), stack) && Grew(old(Now()), Now())
      ensures forall n :: Step(decls, stmt.name, n) ==> Handled(Now(), n)
      decreases |decls.Keys - typesBeingEmitted|, 1
    {
      hide Inv, Declared;
      for i := 0 to |stmt.fields|
        invariant Inv(decls, Now(), stack) && Grew(old(Now()), Now())
        invariant forall j :: 0 <= j < i && stmt.fields[j].fieldType.Embedded? ==>
                    var n := stmt.fields[j].fieldType.typeName; n in decls ==> Handled(Now(), n)
      {
        var field := stmt.fields[i];
        if field.fieldType.Embedded? && field.fieldType.typeName in decls {
          NeededIsDeclared(decls, field.fieldType.typeName);
          GenTypeDecl(decls[field.fieldType.typeName], stack);
        }
      }
      if stmt.base != "" && stmt.base in decls {
        NeededIsDeclared(decls, stmt.base);
        GenTypeDecl(decls[stmt.base], stack);
      }
      for i := 0 to |stmt.interfaces|
        invariant Inv(decls, Now(), stack) && Grew(old(Now()), Now())
        invariant forall j :: 0 <= j < |stmt.fields| && stmt.fields[j].fieldType.Embedded? ==>
                    var n := stmt.fields[j].fieldType.typeName; n in decls ==> Handled(Now(), n)
        invariant stmt.base != "" && stmt.base in decls ==> Handled(Now(), stmt.base)
        invariant forall j :: 0 <= j < i ==> stmt.interfaces[j] in decls ==> Handled(Now(), stmt.interfaces[j])
      {
        if stmt.interfaces[i] in decls {
          NeededIsDeclared(decls, stmt.interfaces[i]);
          GenTypeDecl(decls[stmt.interfaces[i]], stack);
        }
      }
    }

    /** The types of a module, each in turn. */
    method GenTypes(stmts: seq<TypeDecl>)
      requires Declared(decls) && Now() == Tables({}, {}, []) && Lists(decls, stmts)
      modifies this
      ensures Emits(decls, typesOut)
    {
      for i := 0 to |stmts|
        invariant Inv(decls, Now(), []) && typesBeingEmitted == {}
        invariant forall j :: 0 <= j < i ==> stmts[j].name in typesEmitted
      {
        GenTypeDecl(stmts[i], []);
      }
      EmitsAll(decls, Now(), stmts);
    }
  }

  lemma OffStack(decls: Decls, t: Tables, stack: seq<string>, key: string)
    requires Inv(decls, t, stack) && key !in t.being
    ensures key !in stack
  {
  }

  lemma Fewer(s: set<string>, x: string)
    requires x in s
    ensures |s - {x}| < |s|
  {
  }

  lemma NothingNeeded(decls: Decls, t: Tables, d: TypeDecl)
    requires IsOpaque(d) && d.name in decls && decls[d.name] == d
    ensures forall n :: !Step(decls, d.name, n)
  {
  }

  lemma NeededIsDeclared(decls: Decls, n: string)
    requires Declared(decls) && n in decls
    ensures decls[n].name == n
  {
  }

  /** The table holds the declarations of the module, whose names differ. */
  ghost predicate Lists(decls: Decls, all: seq<TypeDecl>) {
    && (forall i :: 0 <= i < |all| ==> all[i].name in decls && decls[all[i].name] == all[i])
    && (forall n :: n in decls ==> exists i :: 0 <= i < |all| && all[i].name == n)
  }

  /** Every declared type once, as its own piece, in order up to cycles. */
  ghost predicate Emits(decls: Decls, out: seq<Piece>) {
    && EachOnce(out)
    && (forall n :: n in decls <==> Before(out, |out|, n))
    && (forall i :: 0 <= i < |out| ==> NameOf(out[i]) in decls && out[i] == PieceOf(decls[NameOf(out[i])]))
    && (forall i :: 0 <= i < |out| ==> OrderedAt(decls, out, i))
  }

  lemma EmitsAll(decls: Decls, t: Tables, all: seq<TypeDecl>)
    requires Lists(decls, all) && Inv(decls, t, [])
    requires forall j :: 0 <= j < |all| ==> all[j].name in t.emitted
    ensures Emits(decls, t.out)
  {
    forall i | 0 <= i < |t.out|
      ensures NameOf(t.out[i]) in decls && t.out[i] == PieceOf(decls[NameOf(t.out[i])])
    {
      assert FromDecls(decls, t, t.out[i]);
    }
    forall n ensures n in decls <==> Before(t.out, |t.out|, n) {
      if n in decls {
        var i :| 0 <= i < |all| && all[i].name == n;
      }
    }
  }

  /* ----- what the order means for the C++ compiler ----- */

  /** Everything a type needs stands before it. */
  ghost predicate Sorted(decls: Decls, out: seq<Piece>) {
    forall i, n :: 0 <= i < |out| && Step(decls, NameOf(out[i]), n) ==> Before(out, i, n)
  }

  lemma {:induction false} ChainGoesBack(decls: Decls, out: seq<Piece>, p: seq<string>, i: nat) returns (j: nat)
    requires Emits(decls, out) && Sorted(decls, out) && |p| > 0 && IsChain(decls, p)
    requires i < |out| && NameOf(out[i]) == p[0]
    ensures j < |out| && NameOf(out[j]) == p[|p| - 1] && j <= i && (|p| > 1 ==> j < i)
    decreases |p|
  {
    if |p| == 1 {
      j := i;
    } else {
      assert Step(decls, p[0], p[1]);
      assert Before(out, i, p[1]);
      var k :| 0 <= k < i && k < |out| && NameOf(out[k]) == p[1];
      forall l | 0 <= l < |p[1..]| - 1 ensures Step(decls, p[1..][l], p[1..][l + 1]) {
        assert Step(decls, p[l + 1], p[l + 2]);
      }
      j := ChainGoesBack(decls, out, p[1..], k);
    }
  }

  lemma ChainIsOpen(decls: Decls, out: seq<Piece>, p: seq<string>)
    requires Emits(decls, out) && Sorted(decls, out) && |p| > 1 && IsChain(decls, p)
    ensures p[0] != p[|p| - 1]
  {
    assert Step(decls, p[0], p[1]);
    assert Before(out, |out|, p[0]);
    var i :| 0 <= i < |out| && NameOf(out[i]) == p[0];
    var j := ChainGoesBack(decls, out, p, i);
    assert NameOf(out[j]) != NameOf(out[i]);
  }

  /** Main result: of the emitted order, every type stands after all it needs if
      and only if no type needs itself, however indirectly. */
  lemma SortedIffAcyclic(decls: Decls, out: seq<Piece>)
    requires Emits(decls, out)
    ensures Sorted(decls, out) <==> !Cyclic(decls)
  {
    if Sorted(decls, out) && Cyclic(decls) {
      var p :| |p| > 1 && p[0] == p[|p| - 1] && IsChain(decls, p);
      ChainIsOpen(decls, out, p);
    }
    if !Cyclic(decls) {
      forall i, n | 0 <= i < |out| && Step(decls, NameOf(out[i]), n) ensures Before(out, i, n) {
        assert OrderedAt(decls, out, i);
        if Reaches(decls, n, NameOf(out[i])) { ClosesCycle(decls, NameOf(out[i]), n); }
      }
    }
  }

  lemma ClosesCycle(decls: Decls, a: string, b: string)
    requires Step(decls, a, b) && Reaches(decls, b, a)
    ensures Cyclic(decls)
  {
    var p :| |p| > 0 && p[0] == b && p[|p| - 1] == a && IsChain(decls, p);
    var q := [a] + p;
    forall i | 0 <= i < |q| - 1 ensures Step(decls, q[i], q[i + 1]) {
      if i > 0 { assert Step(decls, p[i - 1], p[i]); }
    }
    assert q[0] == q[|q| - 1] && IsChain(decls, q);
  }
}
