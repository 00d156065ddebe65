/** Resolution in terms of the dependency graph: it returns the reachable
    packages in dependency order, and succeeds exactly on acyclic graphs. */
module DependencyGraph {
  import opened Options
  import opened SemVer
  import opened Resolve
  import opened Resolution
  import opened Requests

  /** Package `a`, as resolved, depends on package `b`. */
  ghost predicate DependsOn(w: World, pins: Pins, st: State, a: string, b: string) {
    a in st.resolved && FrameLeads(w, pins, st.picks, Frame(a, st.resolved[a]), b)
  }

  ghost predicate IsPath(w: World, pins: Pins, st: State, p: seq<string>) {
    |p| > 0 && forall i :: 0 <= i < |p| - 1 ==> DependsOn(w, pins, st, p[i], p[i + 1])
  }

  ghost predicate Reachable(w: World, pins: Pins, st: State, from: string, to: string) {
    exists p :: IsPath(w, pins, st, p) && p[0] == from && p[|p| - 1] == to
  }

  /** The root is found by nobody, and has no commit. */
  predicate IsRoot(p: Package, root: string) { p.dir == root && p.commit == "" && p.edge == ROOT_EDGE }

  /** The tables of a finished resolution. */
  ghost predicate Finished(w: World, pins: Pins, st: State, root: string) {
    && Inv(w, pins, st) && st.frames == []
    && st.order != [] && IsRoot(st.order[|st.order| - 1], root)
  }

  lemma ResolveFinishes(w: World, pins: Pins, rootDir: string)
    requires Closed(w)
    ensures
      var r := ResolveGraph(w, pins, rootDir);
      && (r.Done? ==> w.canonical(rootDir).Some? && Finished(w, pins, r.st, w.canonical(rootDir).value))
      && (r.Failed? && r.error.Circular? ==>
            w.canonical(rootDir).Some? && ClosedPath(w, pins, r.st, r.error.dir)
            && r.st.frames[0].dir == w.canonical(rootDir).value)
  {
    EmptyInv(w, pins);
    var canonical := w.canonical(rootDir);
    if canonical.Some? {
      VisitKeepsInv(w, pins, EMPTY, canonical.value, "", ROOT_EDGE);
      RootIsLast(w, pins, canonical.value);
    }
  }

  lemma EmptyInv(w: World, pins: Pins)
    ensures Inv(w, pins, EMPTY) && EMPTY.frames == [] && EMPTY.order == []
  {
  }

  lemma RootIsLast(w: World, pins: Pins, root: string)
    requires Closed(w) && w.canonical(root) == Some(root)
    ensures
      var r := Visit(w, pins, EMPTY, root, "", ROOT_EDGE);
      && (r.Done? ==> r.st.order != [] && IsRoot(r.st.order[|r.st.order| - 1], root))
      && (r.Failed? && r.st.frames != [] ==> r.st.frames[0].dir == root)
  {
    EmptyInv(w, pins);
    if w.manifest(root, "").Some? {
      var m := w.manifest(root, "").value;
      var f := Frame(root, m);
      var st1 := EMPTY.(frames := EMPTY.frames + [f]);
      FewerUnvisited(w, EMPTY.frames, f);
      PushKeepsInv(w, pins, EMPTY, f);
      NoneToSettle(w, pins, st1, root, m);
      DepsKeepInv(w, pins, st1, 0);
    }
  }

  /** A dependency stays among the resolved packages and comes earlier in the order. */
  lemma DependencyComesFirst(w: World, pins: Pins, st: State, root: string, i: nat, b: string) returns (j: nat)
    requires Finished(w, pins, st, root) && i < |st.order| && DependsOn(w, pins, st, st.order[i].dir, b)
    ensures j < i && st.order[j].dir == b && b in st.resolved
  {
    hide Inv, AllSettled, Lookup, Settled;
    var p := st.order[i];
    ListedAndSettled(w, pins, st, i);
    var f: Found :| f.dir == b && Leads(w, pins, st.picks, p.dir, p.manifest, f);
    var k :| 0 <= k < |p.manifest.deps| && Lookup(w, pins, st.picks, p.dir, p.manifest.deps[k]) == Some(f);
    assert Settled(w, pins, st.picks, st.order[..i], st.resolved, p.dir, p.manifest.deps[k]);
    SettledInOrder(w, pins, st, st.order[..i], p.dir, p.manifest.deps[k]);
    j :| 0 <= j < |st.order[..i]| && st.order[..i][j].dir == b;
  }

  lemma ListedAndSettled(w: World, pins: Pins, st: State, i: nat)
    requires Inv(w, pins, st) && i < |st.order|
    ensures
      var p := st.order[i];
      && Listed(w, st, p)
      && forall k :: 0 <= k < |p.manifest.deps| ==>
           Settled(w, pins, st.picks, st.order[..i], st.resolved, p.dir, p.manifest.deps[k])
  {
    hide Settled;
    var p := st.order[i];
    assert AllSettled(w, pins, st, st.order[..i], p.dir, p.manifest.deps);
  }

  lemma SettledInOrder(w: World, pins: Pins, st: State, order: seq<Package>, dir: string, dep: Dep)
    requires Settled(w, pins, st.picks, order, st.resolved, dir, dep)
    ensures
      var f := Lookup(w, pins, st.picks, dir, dep);
      f.Some? && InOrder(order, f.value.dir) && f.value.dir in st.resolved && Satisfied(st.picks, dep)
  {
    hide Lookup;
  }

  lemma {:induction false} PathDescends(w: World, pins: Pins, st: State, root: string, p: seq<string>, i: nat)
    returns (j: nat)
    requires Finished(w, pins, st, root) && IsPath(w, pins, st, p) && i < |st.order| && st.order[i].dir == p[0]
    ensures j < |st.order| && st.order[j].dir == p[|p| - 1] && (if |p| == 1 then j == i else j < i)
    decreases |p|
  {
    hide Inv, FrameLeads;
    if |p| == 1 {
      j := i;
    } else {
      assert DependsOn(w, pins, st, p[0], p[1]);
      j := DependencyComesFirst(w, pins, st, root, i, p[1]);
      var q := p[1..];
      forall k | 0 <= k < |q| - 1 ensures DependsOn(w, pins, st, q[k], q[k + 1]) {
        assert DependsOn(w, pins, st, p[k + 1], p[k + 2]);
      }
      j := PathDescends(w, pins, st, root, q, j);
    }
  }

  lemma ExtendPath(w: World, pins: Pins, st: State, a: string, b: string, c: string)
    requires Reachable(w, pins, st, a, b) && DependsOn(w, pins, st, b, c)
    ensures Reachable(w, pins, st, a, c)
  {
    hide DependsOn;
    var p :| IsPath(w, pins, st, p) && p[0] == a && p[|p| - 1] == b;
    var q := p + [c];
    forall k | 0 <= k < |q| - 1 ensures DependsOn(w, pins, st, q[k], q[k + 1]) {
      if k < |p| - 1 { assert DependsOn(w, pins, st, p[k], p[k + 1]); }
    }
    assert IsPath(w, pins, st, q);
  }

  lemma {:induction false} OrderIsReachable(w: World, pins: Pins, st: State, root: string, i: nat)
    requires Finished(w, pins, st, root) && i < |st.order|
    ensures Reachable(w, pins, st, root, st.order[i].dir)
    decreases |st.order| - i
  {
    if i == |st.order| - 1 {
      assert IsPath(w, pins, st, [root]);
      assert [root][0] == root && [root][|[root]| - 1] == st.order[i].dir;
    } else {
      assert HasParent(w, pins, st, i);
      assert ParentInOrder(w, pins, st, i);
      var j :| i < j < |st.order|
            && Leads(w, pins, st.picks, st.order[j].dir, st.order[j].manifest, FoundAs(st.order[i]));
      assert Listed(w, st, st.order[j]);
      assert DependsOn(w, pins, st, st.order[j].dir, st.order[i].dir);
      OrderIsReachable(w, pins, st, root, j);
      ExtendPath(w, pins, st, root, st.order[j].dir, st.order[i].dir);
    }
  }

  /** Every package stands after those that it depends on. */
  ghost predicate DependenciesFirst(w: World, pins: Pins, st: State) {
    forall i, j | 0 <= i < |st.order| && 0 <= j < |st.order| ::
      DependsOn(w, pins, st, st.order[i].dir, st.order[j].dir) ==> j < i
  }

  /** Each package is listed with the manifest that its directory has at its
      commit, is not there by accident but found, exactly so, by a dependency of a
      later one, and finds each of its own dependencies earlier, with a library. */
  ghost predicate Grounded(w: World, pins: Pins, st: State, root: string) {
    && (forall i :: 0 <= i < |st.order| ==> IsLoaded(w, st, st.order[i]))
    && (forall i :: 0 <= i < |st.order| - 1 ==> IsFound(w, pins, st, i))
    && (forall i, k :: 0 <= i < |st.order| && 0 <= k < |st.order[i].manifest.deps| ==>
          FindsLibrary(w, pins, st, i, k))
  }

  ghost predicate IsLoaded(w: World, st: State, p: Package) {
    && w.manifest(p.dir, p.commit) == Some(p.manifest) && p.name == p.manifest.name
    && p.dir in st.resolved && st.resolved[p.dir] == p.manifest
  }

  ghost predicate IsFound(w: World, pins: Pins, st: State, i: nat)
    requires i < |st.order|
  {
    exists j :: i < j < |st.order|
      && Leads(w, pins, st.picks, st.order[j].dir, st.order[j].manifest, FoundAs(st.order[i]))
  }

  ghost predicate FindsLibrary(w: World, pins: Pins, st: State, i: nat, k: nat)
    requires i < |st.order| && k < |st.order[i].manifest.deps|
  {
    var f := Lookup(w, pins, st.picks, st.order[i].dir, st.order[i].manifest.deps[k]);
    f.Some? && exists j :: 0 <= j < i && st.order[j].dir == f.value.dir && st.order[j].manifest.hasLib
  }

  lemma FinishedIsGrounded(w: World, pins: Pins, st: State, root: string)
    requires Finished(w, pins, st, root)
    ensures Grounded(w, pins, st, root)
  {
    hide Lookup, Leads, Settled;
    forall i | 0 <= i < |st.order| ensures IsLoaded(w, st, st.order[i]) {
      assert Listed(w, st, st.order[i]);
    }
    forall i | 0 <= i < |st.order| - 1 ensures IsFound(w, pins, st, i) {
      assert HasParent(w, pins, st, i);
      assert ParentInOrder(w, pins, st, i);
    }
    forall i, k | 0 <= i < |st.order| && 0 <= k < |st.order[i].manifest.deps|
      ensures FindsLibrary(w, pins, st, i, k)
    {
      DependencyHasLibrary(w, pins, st, i, k);
    }
  }

  lemma DependencyHasLibrary(w: World, pins: Pins, st: State, i: nat, k: nat)
    requires Inv(w, pins, st) && i < |st.order| && k < |st.order[i].manifest.deps|
    ensures FindsLibrary(w, pins, st, i, k)
  {
    hide Lookup;
    ListedAndSettled(w, pins, st, i);
    var f := Lookup(w, pins, st.picks, st.order[i].dir, st.order[i].manifest.deps[k]);
    assert Settled(w, pins, st.picks, st.order[..i], st.resolved, st.order[i].dir, st.order[i].manifest.deps[k]);
    var j :| 0 <= j < |st.order[..i]| && st.order[..i][j].dir == f.value.dir;
    assert Listed(w, st, st.order[j]);
  }

  /** Main result: on success the order lists exactly the packages reachable from
      the root, each once, the root last and every package after all packages
      that it depends on, with the manifests that the world has for them. */
  lemma OrderIsExactlyReachable(w: World, pins: Pins, rootDir: string)
    requires Closed(w) && ResolveGraph(w, pins, rootDir).Done?
    ensures
      var st := ResolveGraph(w, pins, rootDir).st;
      && w.canonical(rootDir).Some?
      && var root := w.canonical(rootDir).value;
      && st.order != [] && IsRoot(st.order[|st.order| - 1], root) && Grounded(w, pins, st, root)
      && (forall i, j :: 0 <= i < j < |st.order| ==> st.order[i].dir != st.order[j].dir)
      && (forall d :: InOrder(st.order, d) <==> Reachable(w, pins, st, root, d))
      && DependenciesFirst(w, pins, st)
  {
    ResolveFinishes(w, pins, rootDir);
    var st := ResolveGraph(w, pins, rootDir).st;
    var root := w.canonical(rootDir).value;
    hide Finished, Grounded, Reachable, DependenciesFirst, Visit;
    FinishedShape(w, pins, st, root);
    FinishedIsGrounded(w, pins, st, root);
    FinishedIsReachable(w, pins, st, root);
  }

  lemma FinishedIsReachable(w: World, pins: Pins, st: State, root: string)
    requires Finished(w, pins, st, root)
    ensures forall i, j :: 0 <= i < j < |st.order| ==> st.order[i].dir != st.order[j].dir
    ensures forall d :: InOrder(st.order, d) <==> Reachable(w, pins, st, root, d)
    ensures DependenciesFirst(w, pins, st)
  {
    hide Inv, DependsOn, Finished, Reachable, InOrder;
    assert Inv(w, pins, st) by { FinishedShape(w, pins, st, root); }
    DistinctDirs(w, pins, st);
    forall d ensures InOrder(st.order, d) <==> Reachable(w, pins, st, root, d) {
      ListedIffReachable(w, pins, st, root, d);
    }
    forall i, j | 0 <= i < |st.order| && 0 <= j < |st.order|
      && DependsOn(w, pins, st, st.order[i].dir, st.order[j].dir)
      ensures j < i
    {
      var k := DependencyComesFirst(w, pins, st, root, i, st.order[j].dir);
      assert k == j;
    }
  }

  lemma FinishedShape(w: World, pins: Pins, st: State, root: string)
    requires Finished(w, pins, st, root)
    ensures Inv(w, pins, st) && st.order != [] && IsRoot(st.order[|st.order| - 1], root)
  {
  }

  lemma ListedIffReachable(w: World, pins: Pins, st: State, root: string, d: string)
    requires Finished(w, pins, st, root)
    ensures InOrder(st.order, d) <==> Reachable(w, pins, st, root, d)
  {
    hide Inv, DependsOn, Finished;
    FinishedShape(w, pins, st, root);
    if InOrder(st.order, d) {
      var i :| 0 <= i < |st.order| && st.order[i].dir == d;
      OrderIsReachable(w, pins, st, root, i);
    }
    if Reachable(w, pins, st, root, d) {
      var p :| IsPath(w, pins, st, p) && p[0] == root && p[|p| - 1] == d;
      var j := PathDescends(w, pins, st, root, p, |st.order| - 1);
    }
  }

  lemma DistinctDirs(w: World, pins: Pins, st: State)
    requires Inv(w, pins, st)
    ensures forall i, j :: 0 <= i < j < |st.order| ==> st.order[i].dir != st.order[j].dir
  {
  }

  /** No package of a finished resolution depends on itself, however indirectly. */
  lemma NoCycle(w: World, pins: Pins, st: State, root: string, p: seq<string>)
    requires Finished(w, pins, st, root) && IsPath(w, pins, st, p) && |p| > 1 && p[0] in st.resolved
    ensures p[0] != p[|p| - 1]
  {
    hide Inv, IsPath;
    KeyIsInOrder(w, pins, st, p[0]);
    DistinctDirs(w, pins, st);
    var i :| 0 <= i < |st.order| && st.order[i].dir == p[0];
    var j := PathDescends(w, pins, st, root, p, i);
  }

  lemma KeyIsInOrder(w: World, pins: Pins, st: State, d: string)
    requires Inv(w, pins, st) && d in st.resolved
    ensures InOrder(st.order, d)
  {
  }

  /** Main result: one version per registry name.  Every requirement on a name,
      anywhere in the order, is met by the single pick for it.  The pick was made
      for the first dependency on that name that the walk met, and for its
      requirement is pinned or the best published version. */
  lemma OneVersionPerName(w: World, pins: Pins, rootDir: string)
    requires Closed(w) && ResolveGraph(w, pins, rootDir).Done?
    ensures
      var st := ResolveGraph(w, pins, rootDir).st;
      && PicksOK(w, pins, st.picks)
      && (forall n :: n in st.picks ==> PickedFor(AllRequests(w, pins, rootDir), n, st.picks[n]))
      && forall i, k :: 0 <= i < |st.order| && 0 <= k < |st.order[i].manifest.deps| ==>
           var dep := st.order[i].manifest.deps[k];
           dep.kind.Registry? ==> dep.name in st.picks && Matches(dep.kind.req, st.picks[dep.name].version)
  {
    ResolveFinishes(w, pins, rootDir);
    PicksAreForFirstRequests(w, pins, rootDir);
    var st := ResolveGraph(w, pins, rootDir).st;
    hide AllRequests, PickedFor, Settled, Lookup;
    forall i, k | 0 <= i < |st.order| && 0 <= k < |st.order[i].manifest.deps|
      ensures Satisfied(st.picks, st.order[i].manifest.deps[k])
    {
      ListedAndSettled(w, pins, st, i);
      SettledInOrder(w, pins, st, st.order[..i], st.order[i].dir, st.order[i].manifest.deps[k]);
    }
  }
}
