/** The packages a package must be linked with: everything it depends on,
    directly or not. */
module TransitiveDeps {
  import opened Options
  import opened Resolve
  import opened Resolution
  import opened DependencyGraph
  import opened Lockfile
  import opened LockedRebuild

  type ByName = map<string, Package>

  /** Packages found under any name are told apart by their directories. */
  ghost predicate DirsDiffer(byName: ByName) {
    forall n, m :: n in byName && m in byName && byName[n].dir == byName[m].dir ==> byName[n] == byName[m]
  }

  ghost predicate StepTo(byName: ByName, a: Package, b: Package) {
    exists k :: 0 <= k < |a.manifest.deps| && Edge(byName, a, k, b)
  }

  ghost predicate Edge(byName: ByName, a: Package, k: nat, b: Package)
    requires k < |a.manifest.deps|
  {
    a.manifest.deps[k].name in byName && byName[a.manifest.deps[k].name] == b
  }

  ghost predicate IsChain(byName: ByName, p: seq<Package>) {
    forall i :: 0 <= i < |p| - 1 ==> StepTo(byName, p[i], p[i + 1])
  }

  /** There is a chain of at least one dependency from `a` to `b`. */
  ghost predicate Reaches(byName: ByName, a: Package, b: Package) {
    exists p :: |p| > 1 && p[0] == a && p[|p| - 1] == b && IsChain(byName, p)
  }

  ghost predicate DistinctPackages(out: seq<Package>) {
    forall i, j :: 0 <= i < j < |out| ==> out[i].dir != out[j].dir
  }

  /** Exactly the packages that `pkg` reaches, each once. */
  ghost predicate Collected(byName: ByName, pkg: Package, out: seq<Package>) {
    DistinctPackages(out) && forall q :: q in out <==> Reaches(byName, pkg, q)
  }

  ghost predicate SeenIs(seen: set<string>, out: seq<Package>) {
    (forall i :: 0 <= i < |out| ==> out[i].dir in seen) && (forall d :: d in seen ==> InOrder(out, d))
  }

  /** Everything that `a` depends on directly has been seen. */
  ghost predicate ChildrenSeen(byName: ByName, a: Package, n: nat, seen: set<string>)
    requires n <= |a.manifest.deps|
  {
    forall k :: 0 <= k < n ==> ChildSeen(byName, a, k, seen)
  }

  ghost predicate ChildSeen(byName: ByName, a: Package, k: nat, seen: set<string>)
    requires k < |a.manifest.deps|
  {
    a.manifest.deps[k].name in byName ==> byName[a.manifest.deps[k].name].dir in seen
  }

  ghost predicate AllChildrenSeen(byName: ByName, ps: seq<Package>, seen: set<string>) {
    forall i :: 0 <= i < |ps| ==> ChildrenSeen(byName, ps[i], |ps[i].manifest.deps|, seen)
  }

  ghost function Unseen(byName: ByName, seen: set<string>): set<string> {
    (set n | n in byName :: byName[n].dir) - seen
  }

  lemma FewerUnseen(byName: ByName, first: set<string>, seen: set<string>, n: string)
    requires n in byName && byName[n].dir !in seen && first <= seen
    ensures |Unseen(byName, seen + {byName[n].dir})| < |Unseen(byName, first)|
  {
    var d := byName[n].dir;
    assert d in Unseen(byName, first);
    SmallerSet(Unseen(byName, seen + {d}), Unseen(byName, first) - {d});
  }

  lemma OneStepReaches(byName: ByName, a: Package, b: Package)
    requires StepTo(byName, a, b)
    ensures Reaches(byName, a, b)
  {
    var p := [a, b];
    assert p[0] == a && p[|p| - 1] == b && IsChain(byName, p);
  }

  lemma StepThenReaches(byName: ByName, a: Package, b: Package, c: Package)
    requires StepTo(byName, a, b) && Reaches(byName, b, c)
    ensures Reaches(byName, a, c)
  {
    hide StepTo;
    var p :| |p| > 1 && p[0] == b && p[|p| - 1] == c && IsChain(byName, p);
    var q := [a] + p;
    forall i | 0 <= i < |q| - 1 ensures StepTo(byName, q[i], q[i + 1]) {
      if i > 0 { assert StepTo(byName, p[i - 1], p[i]); }
    }
    assert q[0] == a && q[|q| - 1] == c && IsChain(byName, q);
  }

  /** A set of packages closed under dependencies holds whatever its members reach. */
  lemma {:induction false} ClosedHoldsReached(byName: ByName, p: seq<Package>, out: seq<Package>, seen: set<string>)
    requires |p| > 1 && IsChain(byName, p) && SeenIs(seen, out) && AllChildrenSeen(byName, out, seen)
    requires DirsDiffer(byName) && (forall q :: q in out ==> q in byName.Values)
    requires ChildrenSeen(byName, p[0], |p[0].manifest.deps|, seen)
    ensures p[|p| - 1] in out
    decreases |p|
  {
    hide SeenIs, AllChildrenSeen, IsChain, DirsDiffer;
    assert StepTo(byName, p[0], p[1]) by { ChainStep(byName, p); }
    SeenChild(byName, p[0], p[1], out, seen);
    if |p| > 2 {
      var j :| 0 <= j < |out| && out[j] == p[1];
      NewChildren(byName, out, seen, j);
      ChainTail(byName, p);
      ClosedHoldsReached(byName, p[1..], out, seen);
    }
  }

  lemma ChainStep(byName: ByName, p: seq<Package>)
    requires |p| > 1 && IsChain(byName, p)
    ensures StepTo(byName, p[0], p[1])
  {
  }

  lemma ChainTail(byName: ByName, p: seq<Package>)
    requires |p| > 1 && IsChain(byName, p)
    ensures IsChain(byName, p[1..])
  {
    var q := p[1..];
    forall i | 0 <= i < |q| - 1 ensures StepTo(byName, q[i], q[i + 1]) {
      assert StepTo(byName, p[i + 1], p[i + 2]);
    }
  }

  lemma NewChildren(byName: ByName, out: seq<Package>, seen: set<string>, j: nat)
    requires AllChildrenSeen(byName, out, seen) && j < |out|
    ensures ChildrenSeen(byName, out[j], |out[j].manifest.deps|, seen)
  {
  }

  lemma SeenChild(byName: ByName, a: Package, b: Package, out: seq<Package>, seen: set<string>)
    requires StepTo(byName, a, b) && SeenIs(seen, out) && ChildrenSeen(byName, a, |a.manifest.deps|, seen)
    requires DirsDiffer(byName) && (forall q :: q in out ==> q in byName.Values)
    ensures b in out
  {
    var k :| 0 <= k < |a.manifest.deps| && Edge(byName, a, k, b);
    assert ChildSeen(byName, a, k, seen);
    assert InOrder(out, b.dir);
    var i :| 0 <= i < |out| && out[i].dir == b.dir;
    assert out[i] in out;
  }

  /* ----- collecting ----- */

  datatype Tables = Tables(seen: set<string>, out: seq<Package>)

  /** What a call adds to the tables it shares with its callers. */
  ghost function Added(a: Tables, b: Tables): seq<Package>
    requires a.out <= b.out
  {
    b.out[|a.out|..]
  }

  /** New packages, each once, all reached from `pkg`. */
  ghost predicate Adds(byName: ByName, pkg: Package, a: Tables, b: Tables) {
    && a.out <= b.out && a.seen <= b.seen
    && (forall d :: d in b.seen ==> d in a.seen || InOrder(Added(a, b), d))
    && (forall q :: q in Added(a, b) ==> q.dir in b.seen && q.dir !in a.seen && Reaches(byName, pkg, q)
                                         && q in byName.Values)
    && DistinctPackages(Added(a, b))
  }

  /** All dependencies of the new packages have been seen. */
  ghost predicate Saturated(byName: ByName, a: Tables, b: Tables) {
    a.out <= b.out && AllChildrenSeen(byName, Added(a, b), b.seen)
  }

  ghost predicate Collects(byName: ByName, pkg: Package, a: Tables, b: Tables) {
    Adds(byName, pkg, a, b) && Saturated(byName, a, b)
  }

  function With(t: Tables, p: Package): Tables { Tables(t.seen + {p.dir}, t.out + [p]) }

  /** Collecting a new dependency of `pkg`, and what it depends on in turn. */
  lemma CollectsMore(byName: ByName, pkg: Package, p: Package, a: Tables, b: Tables, c: Tables)
    requires Collects(byName, pkg, a, b) && StepTo(byName, pkg, p) && p.dir !in b.seen && p in byName.Values
    requires Collects(byName, p, With(b, p), c) && ChildrenSeen(byName, p, |p.manifest.deps|, c.seen)
    ensures Collects(byName, pkg, a, c) && b.seen <= c.seen
  {
    AddedMore(a, b, p, c);
    AddsMore(byName, pkg, p, a, b, c);
    var (x, y) := (Added(a, b), Added(With(b, p), c));
    var z := Added(a, c);
    forall i | 0 <= i < |z| ensures ChildrenSeen(byName, z[i], |z[i].manifest.deps|, c.seen) {
      if i < |x| {
        assert z[i] == x[i];
        ChildrenStaySeen(byName, x[i], |x[i].manifest.deps|, b.seen, c.seen);
      } else if i > |x| {
        assert z[i] == y[i - |x| - 1];
      }
    }
  }

  lemma AddedMore(a: Tables, b: Tables, p: Package, c: Tables)
    requires a.out <= b.out && With(b, p).out <= c.out
    ensures a.out <= c.out && Added(a, c) == Added(a, b) + [p] + Added(With(b, p), c)
  {
  }

  lemma ChildrenStaySeen(byName: ByName, a: Package, n: nat, s: set<string>, t: set<string>)
    requires n <= |a.manifest.deps| && ChildrenSeen(byName, a, n, s) && s <= t
    ensures ChildrenSeen(byName, a, n, t)
  {
    forall k | 0 <= k < n ensures ChildSeen(byName, a, k, t) {
      assert ChildSeen(byName, a, k, s);
    }
  }

  lemma AddsMore(byName: ByName, pkg: Package, p: Package, a: Tables, b: Tables, c: Tables)
    requires Adds(byName, pkg, a, b) && StepTo(byName, pkg, p) && p.dir !in b.seen && p in byName.Values
    requires Adds(byName, p, With(b, p), c)
    ensures Adds(byName, pkg, a, c)
  {
    hide StepTo, Reaches, InOrder, DistinctPackages;
    AddedMore(a, b, p, c);
    var (x, y) := (Added(a, b), Added(With(b, p), c));
    forall q | q in x + [p] + y
      ensures q.dir in c.seen && q.dir !in a.seen && Reaches(byName, pkg, q) && q in byName.Values
    {
      if q == p {
        OneStepReaches(byName, pkg, p);
      } else if q !in x {
        StepThenReaches(byName, pkg, p, q);
      }
    }
    forall d | d in c.seen ensures d in a.seen || InOrder(x + [p] + y, d) {
      InOrderOfParts(x, p, y, d);
    }
    DistinctParts(x, p, y, b.seen);
  }

  lemma InOrderOfParts(x: seq<Package>, p: Package, y: seq<Package>, d: string)
    ensures InOrder(x, d) || p.dir == d || InOrder(y, d) ==> InOrder(x + [p] + y, d)
  {
    var z := x + [p] + y;
    if InOrder(x, d) {
      InOrderGrows(x, z, d);
    } else if p.dir == d {
      assert z[|x|].dir == d;
    } else if InOrder(y, d) {
      var i :| 0 <= i < |y| && y[i].dir == d;
      assert z[|x| + 1 + i].dir == d;
    }
  }

  lemma DistinctParts(x: seq<Package>, p: Package, y: seq<Package>, seen: set<string>)
    requires DistinctPackages(x) && DistinctPackages(y) && p.dir !in seen
    requires (forall q :: q in x ==> q.dir in seen) && (forall q :: q in y ==> q.dir !in seen + {p.dir})
    ensures DistinctPackages(x + [p] + y)
  {
    var z := x + [p] + y;
    forall i, j | 0 <= i < j < |z| ensures z[i].dir != z[j].dir {
      assert i < |x| ==> z[i] == x[i] && x[i] in x;
      assert j < |x| ==> z[j] == x[j];
      assert i > |x| ==> z[i] == y[i - |x| - 1];
      assert j > |x| ==> z[j] == y[j - |x| - 1] && y[j - |x| - 1] in y;
    }
  }

  lemma CollectsNothing(byName: ByName, pkg: Package, a: Tables)
    ensures Collects(byName, pkg, a, a)
  {
  }

  lemma CollectedFromNothing(byName: ByName, pkg: Package, b: Tables)
    requires DirsDiffer(byName) && Collects(byName, pkg, Tables({}, []), b)
    requires ChildrenSeen(byName, pkg, |pkg.manifest.deps|, b.seen)
    ensures Collected(byName, pkg, b.out)
  {
    hide AllChildrenSeen, StepTo, IsChain, ChildrenSeen, DirsDiffer;
    assert Added(Tables({}, []), b) == b.out;
    forall q ensures q in b.out <==> Reaches(byName, pkg, q) {
      if Reaches(byName, pkg, q) {
        var p :| |p| > 1 && p[0] == pkg && p[|p| - 1] == q && IsChain(byName, p);
        ClosedHoldsReached(byName, p, b.out, b.seen);
      }
    }
  }

  class Collector {
    const byName: ByName
    var seen: set<string>
    var out: seq<Package>

    constructor (byName: ByName)
      ensures this.byName == byName && Now() == Tables({}, [])
    {
      this.byName, seen, out := byName, {}, [];
    }

    ghost function Now(): Tables
      reads this
    {
      Tables(seen, out)
    }

    method Collect(pkg: Package)
      modifies this
      ensures Collects(byName, pkg, old(Now()), Now())
      ensures ChildrenSeen(byName, pkg, |pkg.manifest.deps|, seen)
      decreases |Unseen(byName, seen)|
    {
      hide Unseen, Reaches, Collects, StepTo;
      CollectsNothing(byName, pkg, Now());
      var i := 0;
      while i < |pkg.manifest.deps|
        invariant 0 <= i <= |pkg.manifest.deps|
        invariant old(seen) <= seen && Collects(byName, pkg, old(Now()), Now())
        invariant ChildrenSeen(byName, pkg, i, seen)
      {
        var dep := pkg.manifest.deps[i];
        i := i + 1;
        if dep.name !in byName { continue; }
        var target := byName[dep.name];
        if target.dir in seen { continue; }
        ghost var before := Now();
        NameLeads(byName, pkg, i - 1);
        FewerUnseen(byName, old(seen), seen, dep.name);
        seen := seen + {target.dir};
        out := out + [target];
        Collect(target);
        CollectsMore(byName, pkg, target, old(Now()), before, Now());
        ChildrenStaySeen(byName, pkg, i - 1, before.seen, seen);
        CollectsKeeps(byName, target, With(before, target), Now());
      }
    }
  }

  lemma CollectsKeeps(byName: ByName, pkg: Package, a: Tables, b: Tables)
    requires Collects(byName, pkg, a, b)
    ensures a.seen <= b.seen
  {
  }

  lemma NameLeads(byName: ByName, a: Package, k: nat)
    requires k < |a.manifest.deps| && a.manifest.deps[k].name in byName
    ensures StepTo(byName, a, byName[a.manifest.deps[k].name])
  {
    assert Edge(byName, a, k, byName[a.manifest.deps[k].name]);
  }

  method CollectTransitiveDeps(pkg: Package, byName: ByName) returns (out: seq<Package>)
    requires DirsDiffer(byName)
    ensures Collected(byName, pkg, out)
  {
    var c := new Collector(byName);
    c.Collect(pkg);
    CollectedFromNothing(byName, pkg, c.Now());
    return c.out;
  }

  /* ----- over a resolved order ----- */

  /** Every name in use, with the last package of that name. */
  ghost predicate LastOfName(byName: ByName, order: seq<Package>) {
    && (forall i :: 0 <= i < |order| ==> order[i].name in byName)
    && (forall n :: n in byName ==>
          exists i :: 0 <= i < |order| && order[i] == byName[n] && order[i].name == n
                      && forall j :: i < j < |order| ==> order[j].name != n)
  }

  method IndexByName(order: seq<Package>) returns (byName: ByName)
    ensures LastOfName(byName, order)
  {
    byName := map[];
    for i := 0 to |order|
      invariant LastOfName(byName, order[..i])
    {
      ghost var before := byName;
      byName := byName[order[i].name := order[i]];
      AddsName(before, order[..i], order[i]);
      assert order[..i + 1] == order[..i] + [order[i]];
    }
    assert order[..|order|] == order;
  }

  lemma AddsName(byName: ByName, order: seq<Package>, p: Package)
    requires LastOfName(byName, order)
    ensures LastOfName(byName[p.name := p], order + [p])
  {
    var (next, all) := (byName[p.name := p], order + [p]);
    forall n | n in next
      ensures exists i :: 0 <= i < |all| && all[i] == next[n] && all[i].name == n
                          && forall j :: i < j < |all| ==> all[j].name != n
    {
      if n == p.name {
        assert all[|order|] == next[n];
      } else {
        var i :| 0 <= i < |order| && order[i] == byName[n] && order[i].name == n
                 && forall j :: i < j < |order| ==> order[j].name != n;
        assert all[i] == next[n];
      }
    }
  }

  lemma UniqueNamesIndex(byName: ByName, order: seq<Package>)
    requires UniqueNames(order) && LastOfName(byName, order)
    ensures Indexes(byName, order)
  {
  }

  /** The table holds each package under its name, and nothing else. */
  ghost predicate Indexes(byName: ByName, order: seq<Package>) {
    && (forall i :: 0 <= i < |order| ==> order[i].name in byName && byName[order[i].name] == order[i])
    && (forall n :: n in byName ==> byName[n] in order && byName[n].name == n)
  }

  /** The dependencies by name are those by directory that resolution followed. */
  lemma StepIsDependency(w: World, pins: Pins, fin: State, root: string, byName: ByName, a: Package, b: Package)
    requires Finished(w, pins, fin, root) && UniqueNames(fin.order) && NamesMatch(w, pins, fin)
    requires Indexes(byName, fin.order) && a in fin.order && b in fin.order
    ensures StepTo(byName, a, b) <==> DependsOn(w, pins, fin, a.dir, b.dir)
  {
    hide Lookup, Inv, Finished, Leads, NamesMatch, DependsOn;
    var i :| 0 <= i < |fin.order| && fin.order[i] == a;
    ListedManifest(w, pins, fin, root, i);
    if StepTo(byName, a, b) {
      var k :| 0 <= k < |a.manifest.deps| && Edge(byName, a, k, b);
      StepByName(w, pins, fin, root, byName, i, k, b);
    }
    if DependsOn(w, pins, fin, a.dir, b.dir) {
      var k := StepByDir(w, pins, fin, root, byName, i, b);
      assert Edge(byName, a, k, b);
    }
  }

  lemma StepByName(w: World, pins: Pins, fin: State, root: string, byName: ByName, i: nat, k: nat, b: Package)
    requires Finished(w, pins, fin, root) && NamesMatch(w, pins, fin) && Indexes(byName, fin.order)
    requires i < |fin.order| && k < |fin.order[i].manifest.deps| && Edge(byName, fin.order[i], k, b)
    ensures DependsOn(w, pins, fin, fin.order[i].dir, b.dir)
  {
    hide Lookup, Inv, Finished;
    var a := fin.order[i];
    ListedManifest(w, pins, fin, root, i);
    var j := DependencyIndex(w, pins, fin, root, i, k);
    assert fin.order[j] == b;
    var f := Lookup(w, pins, fin.picks, a.dir, a.manifest.deps[k]).value;
    assert Leads(w, pins, fin.picks, a.dir, a.manifest, f);
  }

  lemma StepByDir(w: World, pins: Pins, fin: State, root: string, byName: ByName, i: nat, b: Package) returns (k: nat)
    requires Finished(w, pins, fin, root) && NamesMatch(w, pins, fin) && Indexes(byName, fin.order)
    requires i < |fin.order| && b in fin.order && DependsOn(w, pins, fin, fin.order[i].dir, b.dir)
    ensures k < |fin.order[i].manifest.deps| && Edge(byName, fin.order[i], k, b)
  {
    hide Lookup, Inv, Finished;
    var a := fin.order[i];
    ListedManifest(w, pins, fin, root, i);
    var f: Found :| f.dir == b.dir && Leads(w, pins, fin.picks, a.dir, a.manifest, f);
    k :| 0 <= k < |a.manifest.deps| && Lookup(w, pins, fin.picks, a.dir, a.manifest.deps[k]) == Some(f);
    var j :| 0 <= j < |fin.order| && fin.order[j] == b;
    assert LeadsTo(w, pins, fin, fin.order[i], k, fin.order[j]);
  }

  lemma ListedManifest(w: World, pins: Pins, fin: State, root: string, i: nat)
    requires Finished(w, pins, fin, root) && i < |fin.order|
    ensures fin.order[i].dir in fin.resolved && fin.resolved[fin.order[i].dir] == fin.order[i].manifest
  {
    assert Listed(w, fin, fin.order[i]);
  }

  lemma ReachesIsReached(w: World, pins: Pins, fin: State, root: string, byName: ByName, a: Package, q: Package)
    requires Finished(w, pins, fin, root) && UniqueNames(fin.order) && NamesMatch(w, pins, fin)
    requires Indexes(byName, fin.order) && a in fin.order
    ensures Reaches(byName, a, q) <==> q in fin.order && ReachedFrom(w, pins, fin, a.dir, q.dir)
  {
    hide Finished, NamesMatch, Indexes, UniqueNames, IsPath, IsChain;
    if Reaches(byName, a, q) {
      var p :| |p| > 1 && p[0] == a && p[|p| - 1] == q && IsChain(byName, p);
      ChainIsPath(w, pins, fin, root, byName, p);
      var d := DirsOf(p);
      assert |d| > 1 && d[0] == a.dir && d[|d| - 1] == q.dir;
    }
    if q in fin.order && ReachedFrom(w, pins, fin, a.dir, q.dir) {
      var d :| |d| > 1 && IsPath(w, pins, fin, d) && d[0] == a.dir && d[|d| - 1] == q.dir;
      var p := PathIsChain(w, pins, fin, root, byName, a, d);
      SameDirSamePackage(w, pins, fin, root, p[|p| - 1], q);
    }
  }

  function DirsOf(p: seq<Package>): seq<string> { seq(|p|, i requires 0 <= i < |p| => p[i].dir) }

  lemma SameDirSamePackage(w: World, pins: Pins, fin: State, root: string, a: Package, b: Package)
    requires Finished(w, pins, fin, root) && a in fin.order && b in fin.order && a.dir == b.dir
    ensures a == b
  {
    DistinctDirs(w, pins, fin);
  }

  lemma {:induction false} ChainIsPath(w: World, pins: Pins, fin: State, root: string, byName: ByName, p: seq<Package>)
    requires Finished(w, pins, fin, root) && UniqueNames(fin.order) && NamesMatch(w, pins, fin)
    requires Indexes(byName, fin.order) && |p| > 0 && IsChain(byName, p) && p[0] in fin.order
    ensures p[|p| - 1] in fin.order && IsPath(w, pins, fin, DirsOf(p))
    decreases |p|
  {
    hide Finished, NamesMatch, UniqueNames, StepTo, DependsOn;
    if |p| > 1 {
      ChainStep(byName, p);
      StepIsIndexed(byName, fin.order, p[0], p[1]);
      ChainTail(byName, p);
      ChainIsPath(w, pins, fin, root, byName, p[1..]);
      StepIsDependency(w, pins, fin, root, byName, p[0], p[1]);
      var (d, e) := (DirsOf(p), DirsOf(p[1..]));
      forall i | 0 <= i < |d| - 1 ensures DependsOn(w, pins, fin, d[i], d[i + 1]) {
        if i > 0 { assert DependsOn(w, pins, fin, e[i - 1], e[i]); }
      }
    }
  }

  lemma StepIsIndexed(byName: ByName, order: seq<Package>, a: Package, b: Package)
    requires Indexes(byName, order) && StepTo(byName, a, b)
    ensures b in order
  {
  }

  lemma {:induction false} PathIsChain(w: World, pins: Pins, fin: State, root: string, byName: ByName, a: Package,
                                       d: seq<string>) returns (p: seq<Package>)
    requires Finished(w, pins, fin, root) && UniqueNames(fin.order) && NamesMatch(w, pins, fin)
    requires Indexes(byName, fin.order) && a in fin.order
    requires IsPath(w, pins, fin, d) && d[0] == a.dir
    ensures |p| == |d| && p[0] == a && p[|p| - 1] in fin.order && p[|p| - 1].dir == d[|d| - 1]
    ensures IsChain(byName, p)
    decreases |d|
  {
    hide Finished, NamesMatch, UniqueNames, StepTo, DependsOn, Indexes;
    p := [a];
    if |d| > 1 {
      assert DependsOn(w, pins, fin, d[0], d[1]);
      var i :| 0 <= i < |fin.order| && fin.order[i] == a;
      var j := DependencyComesFirst(w, pins, fin, root, i, d[1]);
      var b := fin.order[j];
      StepIsDependency(w, pins, fin, root, byName, a, b);
      forall k | 0 <= k < |d[1..]| - 1 ensures DependsOn(w, pins, fin, d[1..][k], d[1..][k + 1]) {
        assert DependsOn(w, pins, fin, d[k + 1], d[k + 2]);
      }
      var rest := PathIsChain(w, pins, fin, root, byName, b, d[1..]);
      p := [a] + rest;
      forall k | 0 <= k < |p| - 1 ensures StepTo(byName, p[k], p[k + 1]) {
        if k > 0 { assert StepTo(byName, rest[k - 1], rest[k]); }
      }
    }
  }

  /** Main result: after a resolution with matching names, the packages collected
      for one package are those that it depends on, however indirectly, each
      once, and never the package itself. */
  lemma CollectedIsReachable(w: World, pins: Pins, fin: State, root: string, byName: ByName, a: Package,
                             out: seq<Package>)
    requires Finished(w, pins, fin, root) && UniqueNames(fin.order) && NamesMatch(w, pins, fin)
    requires LastOfName(byName, fin.order) && a in fin.order && Collected(byName, a, out)
    ensures DistinctPackages(out) && a !in out
    ensures forall q :: q in out <==> q in fin.order && ReachedFrom(w, pins, fin, a.dir, q.dir)
  {
    hide Reaches, ReachedFrom, Finished, NamesMatch, Indexes, UniqueNames, LastOfName;
    UniqueNamesIndex(byName, fin.order);
    forall q ensures q in out <==> q in fin.order && ReachedFrom(w, pins, fin, a.dir, q.dir) {
      ReachesIsReached(w, pins, fin, root, byName, a, q);
    }
    NotFromItself(w, pins, fin, root, a);
  }

  ghost predicate ReachedFrom(w: World, pins: Pins, fin: State, from: string, to: string) {
    exists p :: |p| > 1 && IsPath(w, pins, fin, p) && p[0] == from && p[|p| - 1] == to
  }

  lemma NotFromItself(w: World, pins: Pins, fin: State, root: string, a: Package)
    requires Finished(w, pins, fin, root) && a in fin.order
    ensures !ReachedFrom(w, pins, fin, a.dir, a.dir)
  {
    hide Inv, IsPath;
    var i :| 0 <= i < |fin.order| && fin.order[i] == a;
    ListedManifest(w, pins, fin, root, i);
    if ReachedFrom(w, pins, fin, a.dir, a.dir) {
      var p :| |p| > 1 && IsPath(w, pins, fin, p) && p[0] == a.dir && p[|p| - 1] == a.dir;
      NoCycle(w, pins, fin, root, p);
    }
  }
}
