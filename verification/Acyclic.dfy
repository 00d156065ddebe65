/** Resolution succeeds exactly on acyclic graphs. */
module Acyclic {
  import opened Options
  import opened SemVer
  import opened Resolve
  import opened Resolution
  import opened DependencyGraph

  /* ----- the graph that the world defines, whatever the walk ----- */

  /** A package as files: a directory at a commit. */
  datatype Node = Node(dir: string, commit: string)

  ghost function NodeAt(w: World, dir: string, commit: string): Option<Node> {
    var key := w.canonical(dir);
    if key.None? then None else Some(Node(key.value, commit))
  }

  /** What a registry requirement leads to: the version that it chooses by itself. */
  ghost function FetchChoice(w: World, c: Choice): Option<(string, string)> {
    if c.NoChoice? then None else w.git(Source(c.git, "", c.ref, ""), c.commit)
  }

  /** Where a dependency of the package in `dir` leads. */
  ghost function Target(w: World, pins: Pins, dir: string, dep: Dep): Option<Node> {
    match dep.kind
    case Path(path) => NodeAt(w, w.join(dir, path), "")
    case Git(src) =>
      var got := w.git(src, PinnedCommit(pins, dep.name));
      if got.None? then None else NodeAt(w, got.value.0, got.value.1)
    case Registry(req) =>
      var got := FetchChoice(w, Choose(w, pins, dep.name, req));
      if got.None? then None else NodeAt(w, got.value.0, got.value.1)
  }

  ghost function ManifestOf(w: World, a: Node): Option<Manifest> { w.manifest(a.dir, a.commit) }

  ghost predicate Steps(w: World, pins: Pins, a: Node, b: Node) {
    ManifestOf(w, a).Some? && exists k :: HasTarget(w, pins, a, k, b)
  }

  ghost predicate HasTarget(w: World, pins: Pins, a: Node, k: int, b: Node) {
    && ManifestOf(w, a).Some? && 0 <= k < |ManifestOf(w, a).value.deps|
    && Target(w, pins, a.dir, ManifestOf(w, a).value.deps[k]) == Some(b)
  }

  ghost predicate IsWalk(w: World, pins: Pins, root: string, p: seq<Node>) {
    && |p| > 0 && p[0] == Node(root, "")
    && forall i :: 0 <= i < |p| - 1 ==> Steps(w, pins, p[i], p[i + 1])
  }

  ghost predicate FromRoot(w: World, pins: Pins, root: string, a: Node) {
    exists p :: IsWalk(w, pins, root, p) && p[|p| - 1] == a
  }

  /** A walk from the root comes to some directory twice. */
  ghost predicate CycleFrom(w: World, pins: Pins, root: string) {
    exists p: seq<Node>, i: int, j: int :: IsWalk(w, pins, root, p) && 0 <= i < j < |p| && p[i].dir == p[j].dir
  }

  /** Among the packages reachable from the root, everything can be had: each has a
      manifest, each dependency leads to a package with a manifest and a library,
      packages in one directory have one manifest, and requirements on one
      registry name choose alike.  Nothing is asked of other directories, and the
      root needs no library. */
  ghost predicate Available(w: World, pins: Pins, root: string) {
    && Present(w, pins, root)
    && (forall a, k, b, l :: FromRoot(w, pins, root, a) && FromRoot(w, pins, root, b) ==>
          ChooseAlike(w, pins, a, k, b, l))
  }

  ghost predicate Present(w: World, pins: Pins, root: string) {
    && (forall a :: FromRoot(w, pins, root, a) ==> ManifestOf(w, a).Some?)
    && (forall a, k :: FromRoot(w, pins, root, a) ==> DependencyAvailable(w, pins, a, k))
    && (forall a, b :: FromRoot(w, pins, root, a) && FromRoot(w, pins, root, b) && a.dir == b.dir ==>
          ManifestOf(w, a) == ManifestOf(w, b))
  }

  ghost predicate DependencyAvailable(w: World, pins: Pins, a: Node, k: int) {
    ManifestOf(w, a).Some? && 0 <= k < |ManifestOf(w, a).value.deps| ==>
      var b := Target(w, pins, a.dir, ManifestOf(w, a).value.deps[k]);
      b.Some? && ManifestOf(w, b.value).Some? && ManifestOf(w, b.value).value.hasLib
  }

  /** If both ask the registry for one name, they get one version. */
  ghost predicate ChooseAlike(w: World, pins: Pins, a: Node, k: int, b: Node, l: int) {
    && ManifestOf(w, a).Some? && 0 <= k < |ManifestOf(w, a).value.deps|
    && ManifestOf(w, b).Some? && 0 <= l < |ManifestOf(w, b).value.deps| ==>
      var (d, e) := (ManifestOf(w, a).value.deps[k], ManifestOf(w, b).value.deps[l]);
      d.kind.Registry? && e.kind.Registry? && d.name == e.name ==>
        Choose(w, pins, d.name, d.kind.req) == Choose(w, pins, e.name, e.kind.req)
  }

  /** Each registry requirement reachable from the root is met by a pin. */
  ghost predicate AllPinned(w: World, pins: Pins, root: string) {
    forall a, k :: FromRoot(w, pins, root, a) ==> MetByPin(w, pins, a, k)
  }

  ghost predicate MetByPin(w: World, pins: Pins, a: Node, k: int) {
    ManifestOf(w, a).Some? && 0 <= k < |ManifestOf(w, a).value.deps| ==>
      var d := ManifestOf(w, a).value.deps[k];
      d.kind.Registry? ==> FromPin(pins, d.name, d.kind.req).Some?
  }

  /** Requirements that pins meet choose alike. */
  lemma PinsChooseAlike(w: World, pins: Pins, root: string)
    requires AllPinned(w, pins, root)
    ensures forall a, k, b, l :: FromRoot(w, pins, root, a) && FromRoot(w, pins, root, b) ==>
              ChooseAlike(w, pins, a, k, b, l)
  {
    hide FromRoot;
    forall a, k, b, l | FromRoot(w, pins, root, a) && FromRoot(w, pins, root, b)
      ensures ChooseAlike(w, pins, a, k, b, l)
    {
      assert MetByPin(w, pins, a, k) && MetByPin(w, pins, b, l);
    }
  }

  lemma {:induction false} WalkPrefix(w: World, pins: Pins, root: string, p: seq<Node>, i: nat)
    requires IsWalk(w, pins, root, p) && i < |p|
    ensures FromRoot(w, pins, root, p[i])
  {
    hide Steps;
    var q := p[..i + 1];
    assert IsWalk(w, pins, root, q) && q[|q| - 1] == p[i];
  }

  lemma WalkOn(w: World, pins: Pins, root: string, p: seq<Node>, b: Node)
    requires IsWalk(w, pins, root, p) && Steps(w, pins, p[|p| - 1], b)
    ensures IsWalk(w, pins, root, p + [b])
  {
    hide Steps;
    var q := p + [b];
    forall i | 0 <= i < |q| - 1 ensures Steps(w, pins, q[i], q[i + 1]) {
      if i < |p| - 1 { assert Steps(w, pins, p[i], p[i + 1]); }
    }
  }

  lemma StepFromRoot(w: World, pins: Pins, root: string, a: Node, b: Node)
    requires FromRoot(w, pins, root, a) && Steps(w, pins, a, b)
    ensures FromRoot(w, pins, root, b)
  {
    hide Steps;
    var p :| IsWalk(w, pins, root, p) && p[|p| - 1] == a;
    WalkOn(w, pins, root, p, b);
    assert (p + [b])[|p + [b]| - 1] == b;
  }

  /* ----- the walk of the resolver stays on that graph ----- */

  /** A manifest in use belongs to a package reachable from the root. */
  ghost predicate Genuine(w: World, pins: Pins, root: string, dir: string, m: Manifest) {
    exists c :: FromRoot(w, pins, root, Node(dir, c)) && w.manifest(dir, c) == Some(m)
  }

  /** A pick is what some reachable dependency chooses. */
  ghost predicate GenuinePick(w: World, pins: Pins, root: string, name: string, p: Pick) {
    exists a, k :: FromRoot(w, pins, root, a) && PicksFor(w, pins, a, k, name, p)
  }

  ghost predicate PicksFor(w: World, pins: Pins, a: Node, k: int, name: string, p: Pick) {
    && ManifestOf(w, a).Some? && 0 <= k < |ManifestOf(w, a).value.deps|
    && var dep := ManifestOf(w, a).value.deps[k];
    && dep.kind.Registry? && dep.name == name
    && var c := Choose(w, pins, name, dep.kind.req);
    && c.Choice? && c.version == p.version && FetchChoice(w, c) == Some((p.dir, p.commit))
  }

  ghost predicate OnGraph(w: World, pins: Pins, root: string, st: State) {
    && (forall k :: k in st.resolved ==> Genuine(w, pins, root, k, st.resolved[k]))
    && (forall n :: n in st.picks ==> GenuinePick(w, pins, root, n, st.picks[n]))
  }

  /** The stack, as a walk on the graph. */
  ghost predicate StackWalks(w: World, pins: Pins, root: string, st: State, nodes: seq<Node>) {
    && |nodes| == |st.frames| && (nodes == [] || IsWalk(w, pins, root, nodes))
    && forall i :: 0 <= i < |nodes| ==> FrameIs(w, st.frames[i], nodes[i])
  }

  ghost predicate FrameIs(w: World, f: Frame, a: Node) { f.dir == a.dir && ManifestOf(w, a) == Some(f.manifest) }

  /** Locating a dependency of a reachable package never fails, and goes where the
      graph says. */
  lemma LocateFollows(w: World, pins: Pins, root: string, st: State, a: Node, k: nat, requirer: string)
    requires Available(w, pins, root) && OnGraph(w, pins, root, st) && FromRoot(w, pins, root, a)
    requires ManifestOf(w, a).Some? && k < |ManifestOf(w, a).value.deps|
    ensures
      var dep := ManifestOf(w, a).value.deps[k];
      var (t, b) := (Locate(w, pins, st.picks, a.dir, requirer, dep), Target(w, pins, a.dir, dep));
      && b.Some? && t.At? && NodeAt(w, t.dir, t.commit) == b && HasTarget(w, pins, a, k, b.value)
      && OnGraph(w, pins, root, st.(picks := t.picks))
  {
    hide IsWalk, Choose, FromRoot;
    var dep := ManifestOf(w, a).value.deps[k];
    assert DependencyAvailable(w, pins, a, k);
    if dep.kind.Registry? {
      if dep.name in st.picks {
        OldPickFollows(w, pins, root, a, k, dep.name, st.picks[dep.name]);
      } else {
        NewPickFollows(w, pins, root, st, a, k, requirer);
      }
    }
  }

  lemma OldPickFollows(w: World, pins: Pins, root: string, a: Node, k: nat, name: string, p: Pick)
    requires Available(w, pins, root) && FromRoot(w, pins, root, a) && GenuinePick(w, pins, root, name, p)
    requires ManifestOf(w, a).Some? && k < |ManifestOf(w, a).value.deps|
    requires var dep := ManifestOf(w, a).value.deps[k]; dep.kind.Registry? && dep.name == name
    ensures
      var req := ManifestOf(w, a).value.deps[k].kind.req;
      Matches(req, p.version) && FetchChoice(w, Choose(w, pins, name, req)) == Some((p.dir, p.commit))
  {
    hide IsWalk, Choose, FromRoot;
    var b, l :| FromRoot(w, pins, root, b) && PicksFor(w, pins, b, l, name, p);
    assert ChooseAlike(w, pins, a, k, b, l);
    ChosenMatches(w, pins, name, ManifestOf(w, a).value.deps[k].kind.req);
  }

  lemma NewPickFollows(w: World, pins: Pins, root: string, st: State, a: Node, k: nat, requirer: string)
    requires FromRoot(w, pins, root, a) && OnGraph(w, pins, root, st)
    requires ManifestOf(w, a).Some? && k < |ManifestOf(w, a).value.deps|
    requires
      var dep := ManifestOf(w, a).value.deps[k];
      dep.kind.Registry? && dep.name !in st.picks && Target(w, pins, a.dir, dep).Some?
    ensures
      var dep := ManifestOf(w, a).value.deps[k];
      var t := Locate(w, pins, st.picks, a.dir, requirer, dep);
      && t.At? && NodeAt(w, t.dir, t.commit) == Target(w, pins, a.dir, dep)
      && OnGraph(w, pins, root, st.(picks := t.picks))
  {
    hide IsWalk, Choose, FromRoot, Genuine;
    var dep := ManifestOf(w, a).value.deps[k];
    var t := Locate(w, pins, st.picks, a.dir, requirer, dep);
    var p := t.picks[dep.name];
    assert PicksFor(w, pins, a, k, dep.name, p);
    forall n | n in t.picks ensures GenuinePick(w, pins, root, n, t.picks[n]) {
      if n != dep.name { assert t.picks[n] == st.picks[n]; }
    }
  }

  /** Pushing the next package of the walk. */
  lemma PushWalks(w: World, pins: Pins, root: string, st: State, nodes: seq<Node>, b: Node, m: Manifest)
    requires StackWalks(w, pins, root, st, nodes) && IsWalk(w, pins, root, nodes + [b]) && ManifestOf(w, b) == Some(m)
    ensures StackWalks(w, pins, root, st.(frames := st.frames + [Frame(b.dir, m)]), nodes + [b])
  {
    hide IsWalk;
    var (frames, walk) := (st.frames + [Frame(b.dir, m)], nodes + [b]);
    forall i | 0 <= i < |walk| ensures FrameIs(w, frames[i], walk[i]) {
      if i < |nodes| { assert FrameIs(w, st.frames[i], nodes[i]); }
    }
  }

  lemma OnStackIsCycle(w: World, pins: Pins, root: string, st: State, nodes: seq<Node>, b: Node)
    requires StackWalks(w, pins, root, st, nodes) && IsWalk(w, pins, root, nodes + [b]) && OnStack(st.frames, b.dir)
    ensures CycleFrom(w, pins, root)
  {
    hide IsWalk;
    var i :| 0 <= i < |st.frames| && st.frames[i].dir == b.dir;
    assert FrameIs(w, st.frames[i], nodes[i]);
    var p := nodes + [b];
    assert p[i].dir == p[|nodes|].dir;
  }

  /** A visit of a reachable package fails only on a cycle. */
  lemma {:induction false} VisitFollows(w: World, pins: Pins, root: string, st: State, nodes: seq<Node>, b: Node,
                                        dir: string, edge: Edge)
    requires Closed(w) && Available(w, pins, root) && OnGraph(w, pins, root, st)
    requires StackWalks(w, pins, root, st, nodes) && IsWalk(w, pins, root, nodes + [b])
    requires NodeAt(w, dir, b.commit) == Some(b)
    ensures
      var r := Visit(w, pins, st, dir, b.commit, edge);
      && (r.Failed? ==> r.error.Circular? && CycleFrom(w, pins, root))
      && (r.Done? ==> OnGraph(w, pins, root, r.st))
    decreases |Unvisited(w, st.frames)|, 0, 0
  {
    hide Visit, VisitDeps, IsWalk, Closed, OnGraph, StackWalks, OnStack, CycleFrom;
    var key := b.dir;
    VisitSkips(w, pins, st, dir, b.commit, edge);
    if key !in st.resolved {
      VisitStep(w, pins, st, dir, key, b.commit, edge);
      CanonicalIsKnown(w, dir);
      LastFromRoot(w, pins, root, nodes, b);
      if OnStack(st.frames, key) {
        OnStackIsCycle(w, pins, root, st, nodes, b);
      } else {
        var m := ManifestOf(w, b).value;
        var f := Frame(key, m);
        FewerUnvisited(w, st.frames, f);
        PushWalks(w, pins, root, st, nodes, b, m);
        var st1 := st.(frames := st.frames + [f]);
        SameGraph(w, pins, root, st, st1);
        DepsFollow(w, pins, root, st1, nodes + [b], 0);
        var d := VisitDeps(w, pins, st1, 0);
        if d.Done? {
          ResolvedGenuine(w, pins, root, d.st, b, m);
          SameGraph(w, pins, root, d.st.(resolved := d.st.resolved[key := m]),
                    Visit(w, pins, st, dir, b.commit, edge).st);
        }
      }
    }
  }

  lemma LastFromRoot(w: World, pins: Pins, root: string, nodes: seq<Node>, b: Node)
    requires IsWalk(w, pins, root, nodes + [b]) && Available(w, pins, root)
    ensures FromRoot(w, pins, root, b) && ManifestOf(w, b).Some?
  {
    hide IsWalk;
    var p := nodes + [b];
    assert p[|p| - 1] == b;
  }

  lemma SameGraph(w: World, pins: Pins, root: string, s: State, t: State)
    requires OnGraph(w, pins, root, s) && s.resolved == t.resolved && s.picks == t.picks
    ensures OnGraph(w, pins, root, t)
  {
  }

  lemma ResolvedGenuine(w: World, pins: Pins, root: string, st: State, b: Node, m: Manifest)
    requires OnGraph(w, pins, root, st) && FromRoot(w, pins, root, b) && ManifestOf(w, b) == Some(m)
    ensures OnGraph(w, pins, root, st.(resolved := st.resolved[b.dir := m]))
  {
    hide FromRoot, GenuinePick;
    var t := st.(resolved := st.resolved[b.dir := m]);
    assert b == Node(b.dir, b.commit);
    assert Genuine(w, pins, root, b.dir, m);
    forall k | k in t.resolved ensures Genuine(w, pins, root, k, t.resolved[k]) {
      if k != b.dir { assert t.resolved[k] == st.resolved[k]; }
    }
  }

  /** A resolved dependency has the library that the graph promises. */
  lemma ResolvedHasLibrary(w: World, pins: Pins, root: string, st: State, a: Node, k: nat, b: Node)
    requires Available(w, pins, root) && OnGraph(w, pins, root, st) && FromRoot(w, pins, root, a)
    requires HasTarget(w, pins, a, k, b) && b.dir in st.resolved
    ensures st.resolved[b.dir].hasLib && Some(st.resolved[b.dir]) == ManifestOf(w, b)
  {
    hide Target, FromRoot;
    assert DependencyAvailable(w, pins, a, k);
    assert Steps(w, pins, a, b);
    StepFromRoot(w, pins, root, a, b);
    assert Genuine(w, pins, root, b.dir, st.resolved[b.dir]);
    var c :| FromRoot(w, pins, root, Node(b.dir, c)) && w.manifest(b.dir, c) == Some(st.resolved[b.dir]);
    assert ManifestOf(w, Node(b.dir, c)) == ManifestOf(w, b);
  }

  lemma {:induction false} DepsFollow(w: World, pins: Pins, root: string, st: State, nodes: seq<Node>, i: nat)
    requires Closed(w) && Available(w, pins, root) && OnGraph(w, pins, root, st)
    requires StackWalks(w, pins, root, st, nodes) && nodes != []
    requires i <= |st.frames[|st.frames| - 1].manifest.deps|
    ensures
      var r := VisitDeps(w, pins, st, i);
      && (r.Failed? ==> r.error.Circular? && CycleFrom(w, pins, root))
      && (r.Done? ==> OnGraph(w, pins, root, r.st))
    decreases |Unvisited(w, st.frames)|, 1, |st.frames[|st.frames| - 1].manifest.deps| - i
  {
    hide Visit, VisitDeps, IsWalk, Closed, OnGraph, Available, Locate, Target, CycleFrom, NodeAt;
    var top := st.frames[|st.frames| - 1];
    var a := nodes[|nodes| - 1];
    assert FrameIs(w, top, a);
    if i == |top.manifest.deps| {
      NoMoreDeps(w, pins, st);
    } else {
      DepsStep(w, pins, st, i);
      var dep := top.manifest.deps[i];
      var t := Locate(w, pins, st.picks, top.dir, top.manifest.name, dep);
      assert FromRoot(w, pins, root, a);
      LocateFollows(w, pins, root, st, a, i, top.manifest.name);
      var b := Target(w, pins, a.dir, dep).value;
      assert Steps(w, pins, a, b);
      WalkOn(w, pins, root, nodes, b);
      var st1 := st.(picks := t.picks);
      NodeParts(w, t.dir, t.commit, b);
      VisitFollows(w, pins, root, st1, nodes, b, t.dir, t.edge);
      var r := Visit(w, pins, st1, t.dir, t.commit, t.edge);
      if r.Done? {
        ResolvedHasLibrary(w, pins, root, r.st, a, i, b);
        DepsFollow(w, pins, root, r.st, nodes, i + 1);
      }
    }
  }

  lemma NodeParts(w: World, dir: string, commit: string, b: Node)
    requires NodeAt(w, dir, commit) == Some(b)
    ensures b.commit == commit && w.canonical(dir) == Some(b.dir)
  {
  }

  /* ----- what a finished resolution says about the graph ----- */

  /** A step on the graph from a resolved package is one of its dependencies. */
  lemma StepIsDependency(w: World, pins: Pins, st: State, root: string, a: Node, b: Node)
    requires Available(w, pins, root) && OnGraph(w, pins, root, st) && Finished(w, pins, st, root)
    requires FromRoot(w, pins, root, a) && Steps(w, pins, a, b) && a.dir in st.resolved
    requires ManifestOf(w, a) == Some(st.resolved[a.dir])
    ensures DependsOn(w, pins, st, a.dir, b.dir) && b.dir in st.resolved && ManifestOf(w, b) == Some(st.resolved[b.dir])
  {
    hide IsWalk, Inv, Target, Available, OnGraph, FromRoot;
    var k :| HasTarget(w, pins, a, k, b);
    var m := st.resolved[a.dir];
    KeyIsInOrder(w, pins, st, a.dir);
    var i :| 0 <= i < |st.order| && st.order[i].dir == a.dir;
    ListedAndSettled(w, pins, st, i);
    assert st.order[i].manifest == m;
    LookupFollows(w, pins, root, st, a, k, i);
    var f := Lookup(w, pins, st.picks, a.dir, m.deps[k]).value;
    assert Leads(w, pins, st.picks, a.dir, m, f);
    assert FrameLeads(w, pins, st.picks, Frame(a.dir, m), b.dir);
    var j := DependencyComesFirst(w, pins, st, root, i, b.dir);
    ResolvedHasLibrary(w, pins, root, st, a, k, b);
  }

  lemma LookupFollows(w: World, pins: Pins, root: string, st: State, a: Node, k: nat, i: nat)
    requires Available(w, pins, root) && OnGraph(w, pins, root, st) && FromRoot(w, pins, root, a)
    requires ManifestOf(w, a).Some? && k < |ManifestOf(w, a).value.deps| && Inv(w, pins, st)
    requires i < |st.order| && st.order[i].dir == a.dir && st.order[i].manifest == ManifestOf(w, a).value
    ensures
      var dep := ManifestOf(w, a).value.deps[k];
      var (f, b) := (Lookup(w, pins, st.picks, a.dir, dep), Target(w, pins, a.dir, dep));
      f.Some? && b.Some? && f.value.dir == b.value.dir
  {
    hide IsWalk, Choose, FromRoot, Inv, Available, Genuine;
    ListedAndSettled(w, pins, st, i);
    var dep := ManifestOf(w, a).value.deps[k];
    SettledInOrder(w, pins, st, st.order[..i], a.dir, dep);
    if dep.kind.Registry? { OldPickFollows(w, pins, root, a, k, dep.name, st.picks[dep.name]); }
  }

  lemma {:induction false} WalkIsResolved(w: World, pins: Pins, st: State, root: string, p: seq<Node>, i: nat)
    requires Available(w, pins, root) && OnGraph(w, pins, root, st) && Finished(w, pins, st, root)
    requires IsWalk(w, pins, root, p) && i < |p|
    ensures p[i].dir in st.resolved && ManifestOf(w, p[i]) == Some(st.resolved[p[i].dir])
    ensures i > 0 ==> DependsOn(w, pins, st, p[i - 1].dir, p[i].dir)
    decreases i
  {
    hide Steps, Available, OnGraph, DependsOn, HasParent, Settled;
    if i == 0 {
      ListedAndSettled(w, pins, st, |st.order| - 1);
    } else {
      WalkIsResolved(w, pins, st, root, p, i - 1);
      WalkPrefix(w, pins, root, p, i - 1);
      assert Steps(w, pins, p[i - 1], p[i]);
      StepIsDependency(w, pins, st, root, p[i - 1], p[i]);
    }
  }

  lemma NoWalkReturns(w: World, pins: Pins, st: State, root: string, p: seq<Node>, i: nat, j: nat)
    requires Available(w, pins, root) && OnGraph(w, pins, root, st) && Finished(w, pins, st, root)
    requires IsWalk(w, pins, root, p) && i < j < |p|
    ensures p[i].dir != p[j].dir
  {
    hide Available, OnGraph, Finished, DependsOn, IsWalk;
    var q := seq(j - i + 1, k requires 0 <= k <= j - i => p[i + k].dir);
    forall k | 0 <= k < |q| - 1 ensures DependsOn(w, pins, st, q[k], q[k + 1]) {
      WalkIsResolved(w, pins, st, root, p, i + k + 1);
    }
    WalkIsResolved(w, pins, st, root, p, i);
    assert IsPath(w, pins, st, q);
    NoCycle(w, pins, st, root, q);
  }

  /** Main result: where all that is reachable from the root can be had, resolution
      succeeds if and only if no cycle is reachable from the root. */
  lemma ResolvesIffAcyclic(w: World, pins: Pins, rootDir: string)
    requires Closed(w) && w.canonical(rootDir).Some? && Available(w, pins, w.canonical(rootDir).value)
    ensures ResolveGraph(w, pins, rootDir).Done? <==> !CycleFrom(w, pins, w.canonical(rootDir).value)
  {
    hide Visit, Available, Finished;
    var root := w.canonical(rootDir).value;
    var b := Node(root, "");
    assert IsWalk(w, pins, root, [] + [b]);
    assert NodeAt(w, root, "") == Some(b) by { RootIsCanonical(w, rootDir); }
    VisitFollows(w, pins, root, EMPTY, [], b, root, ROOT_EDGE);
    var r := ResolveGraph(w, pins, rootDir);
    if r.Done? && CycleFrom(w, pins, root) {
      ResolveFinishes(w, pins, rootDir);
      var p: seq<Node>, i: int, j: int :| IsWalk(w, pins, root, p) && 0 <= i < j < |p| && p[i].dir == p[j].dir;
      NoWalkReturns(w, pins, r.st, root, p, i, j);
    }
  }

  /** In particular where pins meet all registry requirements, as after a first
      resolution: then it does not matter how the requirements differ. */
  lemma PinnedResolvesIffAcyclic(w: World, pins: Pins, rootDir: string)
    requires Closed(w) && w.canonical(rootDir).Some?
    requires Present(w, pins, w.canonical(rootDir).value) && AllPinned(w, pins, w.canonical(rootDir).value)
    ensures ResolveGraph(w, pins, rootDir).Done? <==> !CycleFrom(w, pins, w.canonical(rootDir).value)
  {
    hide ResolveGraph, Present, AllPinned, CycleFrom, ChooseAlike, FromRoot;
    PinsChooseAlike(w, pins, w.canonical(rootDir).value);
    ResolvesIffAcyclic(w, pins, rootDir);
  }

  lemma RootIsCanonical(w: World, rootDir: string)
    requires Closed(w) && w.canonical(rootDir).Some?
    ensures w.canonical(w.canonical(rootDir).value) == w.canonical(rootDir)
  {
  }

  /** Main result on the error, in any world at all: a circular dependency is
      reported only when the stack, from the root on, is a path of dependencies
      whose last one leads back to a package on it. */
  lemma CircularMeansClosedPath(w: World, pins: Pins, rootDir: string)
    requires Closed(w)
    ensures
      var r := ResolveGraph(w, pins, rootDir);
      r.Failed? && r.error.Circular? ==>
        && w.canonical(rootDir).Some? && r.st.frames != [] && r.st.frames[0].dir == w.canonical(rootDir).value
        && ClosedPath(w, pins, r.st, r.error.dir)
  {
    hide Visit, Inv, StackIsPath, FrameLeads;
    ResolveFinishes(w, pins, rootDir);
  }
}
