/** Rebuilding from a lockfile repeats the resolution that wrote it. */
module LockedRebuild {
  import opened Options
  import opened SemVer
  import opened Resolve
  import opened Resolution
  import opened DependencyGraph
  import opened Lockfile

  /** The same files seen later: branches and the index may have moved, but a
      directory at a commit, and a fetch of a commit, are what they were. */
  ghost predicate SameTrees(w1: World, w2: World) {
    && w2.dirs == w1.dirs
    && (forall d :: w2.canonical(d) == w1.canonical(d))
    && (forall d, p :: w2.join(d, p) == w1.join(d, p))
    && (forall d, c :: w2.manifest(d, c) == w1.manifest(d, c))
    && (forall s, p :: w1.git(s, p).Some? ==>
          w1.git(s, p).value.1 != "" && w2.git(s, w1.git(s, p).value.1) == w1.git(s, p))
  }

  /** The index refuses an entry without a git source. */
  ghost predicate IndexHasGit(w: World) {
    forall n, i :: w.index(n).Some? && 0 <= i < |w.index(n).value| ==> w.index(n).value[i].git != ""
  }

  /** Every dependency is called what the package it leads to calls itself. */
  ghost predicate NamesMatch(w: World, pins: Pins, st: State) {
    forall i, k, j | 0 <= i < |st.order| && 0 <= k < |st.order[i].manifest.deps| && 0 <= j < |st.order| ::
      LeadsTo(w, pins, st, st.order[i], k, st.order[j]) ==> st.order[j].name == st.order[i].manifest.deps[k].name
  }

  ghost predicate LeadsTo(w: World, pins: Pins, st: State, p: Package, k: nat, q: Package)
    requires k < |p.manifest.deps|
  {
    var f := Lookup(w, pins, st.picks, p.dir, p.manifest.deps[k]);
    f.Some? && f.value.dir == q.dir
  }

  /** Every git or registry dependency finds its package just as it is listed: by
      the same kind of edge, at the same commit. */
  ghost predicate FoundAlike(w: World, pins: Pins, st: State) {
    forall i, k, j | 0 <= i < |st.order| && 0 <= k < |st.order[i].manifest.deps| && 0 <= j < |st.order| ::
      !st.order[i].manifest.deps[k].kind.Path? && LeadsTo(w, pins, st, st.order[i], k, st.order[j]) ==>
        FindsAs(w, pins, st, st.order[i], k, st.order[j])
  }

  ghost predicate FindsAs(w: World, pins: Pins, st: State, p: Package, k: nat, q: Package)
    requires k < |p.manifest.deps|
  {
    Lookup(w, pins, st.picks, p.dir, p.manifest.deps[k]) == Some(FoundAs(q))
  }

  /** A finished first resolution whose names can serve as keys. */
  ghost predicate Keyed(w: World, pins: Pins, fin: State, root: string) {
    && Finished(w, pins, fin, root) && UniqueNames(fin.order) && NamesMatch(w, pins, fin) && FoundAlike(w, pins, fin)
  }

  /** The package that a git or registry dependency leads to is listed exactly as
      that dependency finds it, under that dependency's name. */
  lemma EntryOf(w: World, pins: Pins, fin: State, root: string, i: nat, k: nat) returns (j: nat)
    requires Keyed(w, pins, fin, root)
    requires i < |fin.order| && k < |fin.order[i].manifest.deps| && !fin.order[i].manifest.deps[k].kind.Path?
    ensures j < |fin.order| - 1 && fin.order[j].name == fin.order[i].manifest.deps[k].name
    ensures Lookup(w, pins, fin.picks, fin.order[i].dir, fin.order[i].manifest.deps[k])
              == Some(FoundAs(fin.order[j]))
  {
    hide Lookup, FoundAs;
    j := DependencyIndex(w, pins, fin, root, i, k);
    assert LeadsTo(w, pins, fin, fin.order[i], k, fin.order[j]);
    assert FindsAs(w, pins, fin, fin.order[i], k, fin.order[j]);
  }

  lemma DependencyIndex(w: World, pins: Pins, fin: State, root: string, i: nat, k: nat) returns (j: nat)
    requires Finished(w, pins, fin, root) && i < |fin.order| && k < |fin.order[i].manifest.deps|
    ensures j < i && LeadsTo(w, pins, fin, fin.order[i], k, fin.order[j])
  {
    var p := fin.order[i];
    assert AllSettled(w, pins, fin, fin.order[..i], p.dir, p.manifest.deps);
    assert Settled(w, pins, fin.picks, fin.order[..i], fin.resolved, p.dir, p.manifest.deps[k]);
    var f := Lookup(w, pins, fin.picks, p.dir, p.manifest.deps[k]);
    j :| 0 <= j < |fin.order[..i]| && fin.order[..i][j].dir == f.value.dir;
  }

  /** The pins hold what the lockfile keeps of every package but the root. */
  ghost predicate Recorded(fin: State, pins: Pins) {
    forall j | 0 <= j < |fin.order| - 1 ::
      Pinned(fin.order[j]) ==> fin.order[j].name in pins && pins[fin.order[j].name] == Kept(fin.order[j])
  }

  /** The pins keep what a dependency of a listed package found: the commit of a
      git dependency, and all of a registry pick. */
  ghost predicate KeepsDep(w: World, pins: Pins, fin: State, later: Pins, dep: Dep) {
    match dep.kind
    case Path(_) => true
    case Git(src) =>
      var got := w.git(src, PinnedCommit(pins, dep.name));
      got.Some? && PinnedCommit(later, dep.name) == got.value.1
    case Registry(_) =>
      && dep.name in fin.picks && dep.name in later
      && var p := fin.picks[dep.name];
      later[dep.name] == Pin(p.commit, ToString(p.version), p.git, p.ref)
  }

  ghost predicate PinsKeep(w: World, pins: Pins, fin: State, later: Pins) {
    forall i, k | 0 <= i < |fin.order| && 0 <= k < |fin.order[i].manifest.deps| ::
      KeepsDep(w, pins, fin, later, fin.order[i].manifest.deps[k])
  }

  /** Enough for that: a git dependency is pinned to the commit that it found, and
      the pin for a registry name chooses, for the requirement its pick was made
      for, that pick again. */
  ghost predicate HoldsDep(w: World, pins: Pins, fin: State, later: Pins, dep: Dep) {
    match dep.kind
    case Path(_) => true
    case Git(src) =>
      var got := w.git(src, PinnedCommit(pins, dep.name));
      got.Some? && PinnedCommit(later, dep.name) == got.value.1
    case Registry(_) => dep.name in fin.picks && HoldsPick(later, dep.name, fin.picks[dep.name])
  }

  predicate HoldsPick(later: Pins, name: string, p: Pick) {
    FromPin(later, name, p.req) == Some(Choice(p.version, p.git, p.ref, p.commit))
  }

  ghost predicate PinsHold(w: World, pins: Pins, fin: State, later: Pins) {
    forall i, k | 0 <= i < |fin.order| && 0 <= k < |fin.order[i].manifest.deps| ::
      HoldsDep(w, pins, fin, later, fin.order[i].manifest.deps[k])
  }

  lemma KeptPinsHold(w: World, pins: Pins, fin: State, later: Pins)
    requires IndexHasGit(w) && PicksOK(w, pins, fin.picks) && PinsKeep(w, pins, fin, later)
    ensures PinsHold(w, pins, fin, later)
  {
    hide IndexHasGit, PicksOK;
    forall i, k | 0 <= i < |fin.order| && 0 <= k < |fin.order[i].manifest.deps|
      ensures HoldsDep(w, pins, fin, later, fin.order[i].manifest.deps[k])
    {
      var dep := fin.order[i].manifest.deps[k];
      assert KeepsDep(w, pins, fin, later, dep);
      if dep.kind.Registry? { KeptPickHolds(w, pins, fin.picks, later, dep.name); }
    }
  }

  lemma KeptPickHolds(w: World, pins: Pins, picks: Picks, later: Pins, name: string)
    requires IndexHasGit(w) && PicksOK(w, pins, picks) && name in picks && name in later
    requires later[name] == Pin(picks[name].commit, ToString(picks[name].version), picks[name].git, picks[name].ref)
    ensures HoldsPick(later, name, picks[name])
  {
    hide IndexHasGit, FromPin, Choose;
    var p := picks[name];
    assert PickOK(w, pins, name, p);
    ChosenHasGit(w, pins, name, p.req);
    PinIsChosen(w, later, name, p.req, Choice(p.version, p.git, p.ref, p.commit));
  }

  ghost predicate Rebuild(w1: World, p1: Pins, w2: World, p2: Pins, fin: State) {
    Closed(w1) && Closed(w2) && SameTrees(w1, w2) && PinsHold(w1, p1, fin, p2)
  }

  /** A git dependency that is pinned to its commit is fetched again at that commit. */
  lemma GitRepeats(w1: World, p1: Pins, w2: World, p2: Pins, fin: State, q: Picks, dir: string, requirer: string,
                   dep: Dep)
    requires SameTrees(w1, w2) && HoldsDep(w1, p1, fin, p2, dep) && dep.kind.Git?
    ensures Locate(w2, p2, q, dir, requirer, dep) == Locate(w1, p1, q, dir, requirer, dep)
  {
  }

  /** A first registry pick is found again from the pin alone. */
  lemma RegistryRepeats(w1: World, p1: Pins, w2: World, p2: Pins, fin: State, q: Picks, dir: string, requirer: string,
                        dep: Dep)
    requires SameTrees(w1, w2) && HoldsDep(w1, p1, fin, p2, dep) && dep.kind.Registry?
    requires var t := Locate(w1, p1, q, dir, requirer, dep); t.At? && Extends(t.picks, fin.picks)
    ensures Locate(w2, p2, q, dir, requirer, dep) == Locate(w1, p1, q, dir, requirer, dep)
  {
    hide FromPin, SameTrees, Locate;
    if dep.name in q {
      LocateOldPick(w1, p1, w2, p2, q, dir, requirer, dep);
    } else {
      var req := dep.kind.req;
      LocateNewPick(w1, p1, q, dir, requirer, dep);
      var c := Choose(w1, p1, dep.name, req);
      SameFetch(w1, w2, Source(c.git, "", c.ref, ""), c.commit);
      LocateNewPick(w2, p2, q, dir, requirer, dep);
    }
  }

  lemma LocateOldPick(w1: World, p1: Pins, w2: World, p2: Pins, q: Picks, dir: string, requirer: string, dep: Dep)
    requires dep.kind.Registry? && dep.name in q
    ensures Locate(w2, p2, q, dir, requirer, dep) == Locate(w1, p1, q, dir, requirer, dep)
  {
  }

  lemma LocateNewPick(w: World, pins: Pins, q: Picks, dir: string, requirer: string, dep: Dep)
    requires dep.kind.Registry? && dep.name !in q
    ensures
      var t := Locate(w, pins, q, dir, requirer, dep);
      var c := Choose(w, pins, dep.name, dep.kind.req);
      && (t.At? <==> c.Choice? && w.git(Source(c.git, "", c.ref, ""), c.commit).Some?)
      && (t.At? ==>
            var got := w.git(Source(c.git, "", c.ref, ""), c.commit).value;
            var p := Pick(c.version, got.0, got.1, c.git, c.ref, dep.kind.req, requirer);
            t == At(got.0, got.1, PickEdge(p), q[dep.name := p]))
  {
    hide Choose;
  }

  lemma SameFetch(w1: World, w2: World, s: Source, p: string)
    requires SameTrees(w1, w2) && w1.git(s, p).Some?
    ensures w1.git(s, p).value.1 != "" && w2.git(s, w1.git(s, p).value.1) == w1.git(s, p)
  {
  }

  lemma PinIsChosen(w: World, pins: Pins, name: string, req: Req, c: Choice)
    requires c.Choice? && c.git != "" && Matches(req, c.version)
    requires name in pins && pins[name] == Pin(c.commit, ToString(c.version), c.git, c.ref)
    ensures FromPin(pins, name, req) == Some(c) && Choose(w, pins, name, req) == c
  {
    VersionRoundTrip(c.version);
  }

  lemma ChosenHasGit(w: World, pins: Pins, name: string, req: Req)
    requires IndexHasGit(w) && Choose(w, pins, name, req).Choice?
    ensures Choose(w, pins, name, req).git != ""
  {
  }

  lemma LocateRepeats(w1: World, p1: Pins, w2: World, p2: Pins, fin: State, q: Picks, dir: string, requirer: string,
                      dep: Dep)
    requires SameTrees(w1, w2) && HoldsDep(w1, p1, fin, p2, dep)
    requires var t := Locate(w1, p1, q, dir, requirer, dep); t.At? && Extends(t.picks, fin.picks)
    ensures Locate(w2, p2, q, dir, requirer, dep) == Locate(w1, p1, q, dir, requirer, dep)
  {
    match dep.kind
    case Path(_) =>
    case Git(_) => GitRepeats(w1, p1, w2, p2, fin, q, dir, requirer, dep);
    case Registry(_) => RegistryRepeats(w1, p1, w2, p2, fin, q, dir, requirer, dep);
  }

  /* ----- the walk ----- */

  ghost predicate Later(a: State, b: State) { Extends(a.picks, b.picks) && a.order <= b.order }

  lemma {:induction false} VisitLater(w: World, pins: Pins, st: State, dir: string, commit: string, edge: Edge)
    requires Closed(w)
    ensures var r := Visit(w, pins, st, dir, commit, edge); r.Done? ==> Later(st, r.st)
    decreases |Unvisited(w, st.frames)|, 0, 0
  {
    hide VisitDeps;
    if w.canonical(dir).Some? && w.canonical(dir).value !in st.resolved && !OnStack(st.frames, w.canonical(dir).value) {
      var key := w.canonical(dir).value;
      var m := w.manifest(key, commit);
      if m.Some? {
        FewerUnvisited(w, st.frames, Frame(key, m.value));
        DepsLater(w, pins, st.(frames := st.frames + [Frame(key, m.value)]), 0);
      }
    }
  }

  lemma {:induction false} DepsLater(w: World, pins: Pins, st: State, i: nat)
    requires Closed(w) && st.frames != [] && i <= |st.frames[|st.frames| - 1].manifest.deps|
    ensures var r := VisitDeps(w, pins, st, i); r.Done? ==> Later(st, r.st)
    decreases |Unvisited(w, st.frames)|, 1, |st.frames[|st.frames| - 1].manifest.deps| - i
  {
    hide Visit, VisitDeps, Closed, Lookup, Satisfied, PicksOK;
    var top := st.frames[|st.frames| - 1];
    if i == |top.manifest.deps| {
      NoMoreDeps(w, pins, st);
    } else {
      DepsStep(w, pins, st, i);
      var t := Locate(w, pins, st.picks, top.dir, top.manifest.name, top.manifest.deps[i]);
      if t.At? {
        LocateLooksUp(w, pins, st.picks, top.dir, top.manifest.name, top.manifest.deps[i]);
        VisitLater(w, pins, st.(picks := t.picks), t.dir, t.commit, t.edge);
        var r := Visit(w, pins, st.(picks := t.picks), t.dir, t.commit, t.edge);
        if r.Done? { DepsLater(w, pins, r.st, i + 1); }
      }
    }
  }

  lemma {:induction false} VisitRepeats(w1: World, p1: Pins, w2: World, p2: Pins, fin: State, st: State,
                                        dir: string, commit: string, edge: Edge)
    requires Rebuild(w1, p1, w2, p2, fin)
    requires Visit(w1, p1, st, dir, commit, edge).Done? && Later(Visit(w1, p1, st, dir, commit, edge).st, fin)
    ensures Visit(w2, p2, st, dir, commit, edge) == Visit(w1, p1, st, dir, commit, edge)
    decreases |Unvisited(w1, st.frames)|, 0, 0
  {
    hide Visit, VisitDeps, PinsHold, Closed, OnStack;
    VisitSkips(w1, p1, st, dir, commit, edge);
    VisitSkips(w2, p2, st, dir, commit, edge);
    var key := w1.canonical(dir).value;
    if key !in st.resolved {
      VisitStep(w1, p1, st, dir, key, commit, edge);
      VisitStep(w2, p2, st, dir, key, commit, edge);
      var m := w1.manifest(key, commit).value;
      var f := Frame(key, m);
      CanonicalIsKnown(w1, dir);
      FewerUnvisited(w1, st.frames, f);
      var st1 := st.(frames := st.frames + [f]);
      var d := VisitDeps(w1, p1, st1, 0);
      var r := Visit(w1, p1, st, dir, commit, edge);
      assert r.st.order == d.st.order + [Package(m.name, key, m, commit, edge)];
      assert fin.order[|d.st.order|] == r.st.order[|d.st.order|];
      DepsRepeat(w1, p1, w2, p2, fin, st1, 0, |d.st.order|);
    }
  }

  lemma {:induction false} DepsRepeat(w1: World, p1: Pins, w2: World, p2: Pins, fin: State, st: State,
                                      k: nat, i: nat)
    requires Rebuild(w1, p1, w2, p2, fin)
    requires st.frames != [] && k <= |st.frames[|st.frames| - 1].manifest.deps|
    requires i < |fin.order| && st.frames[|st.frames| - 1] == Frame(fin.order[i].dir, fin.order[i].manifest)
    requires VisitDeps(w1, p1, st, k).Done? && Later(VisitDeps(w1, p1, st, k).st, fin)
    ensures VisitDeps(w2, p2, st, k) == VisitDeps(w1, p1, st, k)
    decreases |Unvisited(w1, st.frames)|, 1, |st.frames[|st.frames| - 1].manifest.deps| - k
  {
    hide Visit, VisitDeps, Locate, Closed, HoldsDep;
    var top := st.frames[|st.frames| - 1];
    if k == |top.manifest.deps| {
      NoMoreDeps(w1, p1, st);
      NoMoreDeps(w2, p2, st);
    } else {
      DepsStep(w1, p1, st, k);
      DepsStep(w2, p2, st, k);
      var t := Locate(w1, p1, st.picks, top.dir, top.manifest.name, top.manifest.deps[k]);
      VisitLater(w1, p1, st.(picks := t.picks), t.dir, t.commit, t.edge);
      var r := Visit(w1, p1, st.(picks := t.picks), t.dir, t.commit, t.edge);
      DepsLater(w1, p1, r.st, k + 1);
      LocateRepeats(w1, p1, w2, p2, fin, st.picks, top.dir, top.manifest.name, top.manifest.deps[k]);
      VisitRepeats(w1, p1, w2, p2, fin, st.(picks := t.picks), t.dir, t.commit, t.edge);
      DepsRepeat(w1, p1, w2, p2, fin, r.st, k + 1, i);
    }
  }

  /** Main result: resolve, write the lockfile, and resolve again later with
      unchanged manifests; if the pins keep what was found, then whatever the index
      and the remote branches hold by then, the order, directories, commits and
      registry picks are the same. */
  lemma RebuildRepeats(w1: World, pins: Pins, w2: World, rootDir: string, later: Pins)
    requires Closed(w1) && Closed(w2) && SameTrees(w1, w2) && IndexHasGit(w1)
    requires ResolveGraph(w1, pins, rootDir).Done? && PinsKeep(w1, pins, ResolveGraph(w1, pins, rootDir).st, later)
    ensures ResolveGraph(w2, later, rootDir) == ResolveGraph(w1, pins, rootDir)
  {
    hide ResolveGraph, IndexHasGit, Closed, SameTrees, PinsKeep, PinsHold, PicksOK;
    ResolveFinishes(w1, pins, rootDir);
    KeptPinsHold(w1, pins, ResolveGraph(w1, pins, rootDir).st, later);
    RebuildHolds(w1, pins, w2, rootDir, later);
  }

  lemma RebuildHolds(w1: World, pins: Pins, w2: World, rootDir: string, later: Pins)
    requires Closed(w1) && Closed(w2) && SameTrees(w1, w2)
    requires ResolveGraph(w1, pins, rootDir).Done? && PinsHold(w1, pins, ResolveGraph(w1, pins, rootDir).st, later)
    ensures ResolveGraph(w2, later, rootDir) == ResolveGraph(w1, pins, rootDir)
  {
    hide Visit, Closed, SameTrees, PinsHold;
    var root := w1.canonical(rootDir).value;
    SameRoot(w1, w2, rootDir);
    VisitRepeats(w1, pins, w2, later, ResolveGraph(w1, pins, rootDir).st, EMPTY, root, "", ROOT_EDGE);
  }

  /** The pins of the lockfile keep everything if names can serve as keys. */
  lemma NamesKeepPins(w: World, pins: Pins, fin: State, root: string, later: Pins)
    requires Keyed(w, pins, fin, root) && Recorded(fin, later)
    requires forall s, p :: w.git(s, p).Some? ==> w.git(s, p).value.1 != ""
    ensures PinsKeep(w, pins, fin, later)
  {
    forall i, k | 0 <= i < |fin.order| && 0 <= k < |fin.order[i].manifest.deps|
      ensures KeepsDep(w, pins, fin, later, fin.order[i].manifest.deps[k])
    {
      NameKeepsPin(w, pins, fin, root, later, i, k);
    }
  }

  lemma NameKeepsPin(w: World, pins: Pins, fin: State, root: string, later: Pins, i: nat, k: nat)
    requires Keyed(w, pins, fin, root) && Recorded(fin, later)
    requires i < |fin.order| && k < |fin.order[i].manifest.deps|
    requires forall s, p :: w.git(s, p).Some? ==> w.git(s, p).value.1 != ""
    ensures KeepsDep(w, pins, fin, later, fin.order[i].manifest.deps[k])
  {
    hide Keyed;
    var dep := fin.order[i].manifest.deps[k];
    if !dep.kind.Path? {
      var j := EntryOf(w, pins, fin, root, i, k);
      if dep.kind.Registry? { PickHasCommit(w, pins, fin, root, dep.name); }
      assert Pinned(fin.order[j]);
    }
  }

  lemma PickHasCommit(w: World, pins: Pins, fin: State, root: string, name: string)
    requires Keyed(w, pins, fin, root) && name in fin.picks
    requires forall s, p :: w.git(s, p).Some? ==> w.git(s, p).value.1 != ""
    ensures fin.picks[name].commit != ""
  {
    assert PickOK(w, pins, name, fin.picks[name]);
  }

  /** Main result for the lockfile as it is: with unique names, equal to those of
      the dependencies, a rebuild repeats. */
  lemma RebuildFromLockfile(w1: World, pins: Pins, w2: World, rootDir: string)
    requires Closed(w1) && Closed(w2) && SameTrees(w1, w2) && IndexHasGit(w1)
    requires ResolveGraph(w1, pins, rootDir).Done?
    requires
      var st := ResolveGraph(w1, pins, rootDir).st;
      && UniqueNames(st.order) && NamesMatch(w1, pins, st) && FoundAlike(w1, pins, st)
      && AllPlainPackages(AllButLast(st.order))
    ensures
      var st := ResolveGraph(w1, pins, rootDir).st;
      ResolveGraph(w2, PinsIn(LockText(st.order)), rootDir) == Done(st)
  {
    hide Visit, Inv, NamesMatch, FoundAlike, IndexHasGit, Closed, UniqueNames, ReadTables, LockText;
    hide AllPlainPackages, TablesOf, PinsOf, PinsKeep;
    var st := ResolveGraph(w1, pins, rootDir).st;
    ResolveFinishes(w1, pins, rootDir);
    var later := PinsIn(LockText(st.order));
    LockfileRoundTrip(st.order);
    AllRecorded(st, later);
    NamesKeepPins(w1, pins, st, w1.canonical(rootDir).value, later);
    RebuildRepeats(w1, pins, w2, rootDir, later);
  }

  lemma SameRoot(w1: World, w2: World, rootDir: string)
    requires SameTrees(w1, w2)
    ensures w2.canonical(rootDir) == w1.canonical(rootDir)
  {
  }

  lemma AllRecorded(fin: State, pins: Pins)
    requires fin.order != [] && UniqueNames(fin.order) && pins == PinsOf(TablesOf(AllButLast(fin.order)))
    ensures Recorded(fin, pins)
  {
    hide TablesOf, PinsOf, Pinned, Kept;
    var init := AllButLast(fin.order);
    forall j | 0 <= j < |fin.order| - 1 && Pinned(fin.order[j])
      ensures fin.order[j].name in pins && pins[fin.order[j].name] == Kept(fin.order[j])
    {
      assert init[j] == fin.order[j];
      PinOfPackage(init, init[j].name);
    }
  }

  /* ----- exactly which git dependencies stay where they are ----- */

  /** A fetch that gave this commit, from this source, fixes what it gives later. */
  ghost predicate Fixed(w: World, src: Source, commit: string) {
    exists p :: w.git(src, p).Some? && w.git(src, p).value.1 == commit
  }

  /** A later world in which a pin that no fetch has given leads elsewhere. */
  function MovedWorld(w: World, src: Source, pin: string, dir: string, commit: string): World {
    w.(git := (s, p) => if s == src && p == pin then Some((dir, commit)) else w.git(s, p))
  }

  lemma MovedIsLater(w: World, src: Source, pin: string, dir: string, commit: string)
    requires SameTrees(w, w) && !Fixed(w, src, pin)
    ensures SameTrees(w, MovedWorld(w, src, pin, dir, commit))
  {
    var w2 := MovedWorld(w, src, pin, dir, commit);
    forall s, p | w.git(s, p).Some?
      ensures w.git(s, p).value.1 != "" && w2.git(s, w.git(s, p).value.1) == w.git(s, p)
    {
      GivesFixed(w, s, p);
    }
  }

  lemma GivesFixed(w: World, s: Source, p: string)
    requires w.git(s, p).Some?
    ensures Fixed(w, s, w.git(s, p).value.1)
  {
  }

  /** For a pin other than the commit that was found, there is a later world with
      the same trees in which the dependency is fetched at another commit. */
  lemma OtherPinMoves(w: World, src: Source, got: (string, string), pin: string) returns (w2: World)
    requires SameTrees(w, w) && pin != got.1
    ensures SameTrees(w, w2) && w2.git(src, pin).Some? && w2.git(src, pin).value.1 != got.1
  {
    if Fixed(w, src, pin) {
      var p :| w.git(src, p).Some? && w.git(src, p).value.1 == pin;
      w2 := w;
    } else {
      w2 := MovedWorld(w, src, pin, got.0, got.1 + "x");
      MovedIsLater(w, src, pin, got.0, got.1 + "x");
    }
  }

  /** The commit stored under a name: that of the last package of this name, among
      those that are pinned at all. */
  function StoredCommit(order: seq<Package>, name: string): string {
    if order == [] then ""
    else
      var last := |order| - 1;
      if order[last].name == name && Pinned(order[last]) then order[last].commit
      else StoredCommit(order[..last], name)
  }

  lemma {:induction false} PinIsStored(order: seq<Package>, name: string)
    ensures PinnedCommit(PinsOf(TablesOf(order)), name) == StoredCommit(order, name)
  {
    hide TableOf, PinOf, IsPin;
    if order != [] {
      var (init, p) := (order[..|order| - 1], order[|order| - 1]);
      PinIsStored(init, name);
      TableKeeps(p);
      assert TablesOf(order)[..|order| - 1] == TablesOf(init);
      assert TablesOf(order)[|order| - 1] == TableOf(p);
    }
  }

  /** Main result on pins: a git dependency of any finished resolution is fetched at
      its commit in every later world if and only if that is the commit which the
      lockfile stores under the dependency's name. */
  lemma KeepsCommitExactly(w: World, pins: Pins, rootDir: string, i: nat, k: nat)
    requires Closed(w) && SameTrees(w, w) && ResolveGraph(w, pins, rootDir).Done?
    requires AllPlainPackages(AllButLast(ResolveGraph(w, pins, rootDir).st.order))
    requires
      var order := ResolveGraph(w, pins, rootDir).st.order;
      i < |order| && k < |order[i].manifest.deps| && order[i].manifest.deps[k].kind.Git?
    ensures
      var order := ResolveGraph(w, pins, rootDir).st.order;
      var dep := order[i].manifest.deps[k];
      var got := w.git(dep.kind.src, PinnedCommit(pins, dep.name));
      var later := PinsIn(LockText(order));
      && got.Some?
      && ((forall w2 :: SameTrees(w, w2) ==> w2.git(dep.kind.src, PinnedCommit(later, dep.name)) == got)
          <==> StoredCommit(AllButLast(order), dep.name) == got.value.1)
  {
    hide Visit, SameTrees, Inv, ReadTables, LockText, AllPlainPackages, Closed;
    ResolveFinishes(w, pins, rootDir);
    var order := ResolveGraph(w, pins, rootDir).st.order;
    LockfileRoundTrip(order);
    var dep := order[i].manifest.deps[k];
    PinIsStored(AllButLast(order), dep.name);
    GitWasFetched(w, pins, ResolveGraph(w, pins, rootDir).st, i, k);
    PinExactly(w, dep.kind.src, PinnedCommit(pins, dep.name), StoredCommit(AllButLast(order), dep.name));
  }

  lemma GitWasFetched(w: World, pins: Pins, st: State, i: nat, k: nat)
    requires Inv(w, pins, st) && i < |st.order| && k < |st.order[i].manifest.deps|
    requires st.order[i].manifest.deps[k].kind.Git?
    ensures
      var dep := st.order[i].manifest.deps[k];
      w.git(dep.kind.src, PinnedCommit(pins, dep.name)).Some?
  {
    hide Inv;
    ListedAndSettled(w, pins, st, i);
    SettledInOrder(w, pins, st, st.order[..i], st.order[i].dir, st.order[i].manifest.deps[k]);
  }

  lemma PinExactly(w: World, src: Source, p: string, pin: string)
    requires SameTrees(w, w) && w.git(src, p).Some?
    ensures (forall w2 :: SameTrees(w, w2) ==> w2.git(src, pin) == w.git(src, p)) <==> pin == w.git(src, p).value.1
  {
    if pin != w.git(src, p).value.1 { var w2 := OtherPinMoves(w, src, w.git(src, p).value, pin); }
  }

  /* ----- exactly when a rebuild repeats ----- */

  /** A later world in which a fetch that has never been made fails. */
  function LostWorld(w: World, src: Source, pin: string): World {
    w.(git := (s, p) => if s == src && p == pin then None else w.git(s, p))
  }

  /** A later world with nothing in its index. */
  function EmptyIndex(w: World): World { w.(index := n => None) }

  lemma LostIsLater(w: World, src: Source, pin: string)
    requires Closed(w) && SameTrees(w, w) && !Fixed(w, src, pin)
    ensures Closed(LostWorld(w, src, pin)) && SameTrees(w, LostWorld(w, src, pin))
  {
    forall s, p | w.git(s, p).Some?
      ensures w.git(s, p).value.1 != ""
      ensures LostWorld(w, src, pin).git(s, w.git(s, p).value.1) == w.git(s, p)
    {
      GivesFixed(w, s, p);
    }
  }

  lemma EmptyIndexIsLater(w: World)
    requires Closed(w) && SameTrees(w, w)
    ensures Closed(EmptyIndex(w)) && SameTrees(w, EmptyIndex(w))
  {
  }

  lemma FixedGivesItself(w: World, src: Source, commit: string)
    requires SameTrees(w, w) && Fixed(w, src, commit)
    ensures w.git(src, commit).Some? && w.git(src, commit).value.1 == commit
  {
    var p :| w.git(src, p).Some? && w.git(src, p).value.1 == commit;
  }

  /** A rebuild repeats in every later world with the same trees. */
  ghost predicate AlwaysRepeats(w: World, pins: Pins, rootDir: string, later: Pins)
    requires Closed(w)
  {
    forall w2 :: Closed(w2) && SameTrees(w, w2) ==> ResolveGraph(w2, later, rootDir) == ResolveGraph(w, pins, rootDir)
  }

  /** Main result: a rebuild repeats in every later world if and only if it repeats
      now, each git dependency is pinned to a commit that has been fetched, and the
      pin of each registry name chooses its pick. */
  lemma RebuildRepeatsExactly(w: World, pins: Pins, rootDir: string, later: Pins)
    requires Closed(w) && SameTrees(w, w) && ResolveGraph(w, pins, rootDir).Done?
    ensures
      var r := ResolveGraph(w, pins, rootDir);
      AlwaysRepeats(w, pins, rootDir, later)
      <==> ResolveGraph(w, later, rootDir) == r && PinsHold(w, later, r.st, later)
  {
    hide ResolveGraph, Closed, SameTrees, HoldsDep;
    var r := ResolveGraph(w, pins, rootDir);
    if ResolveGraph(w, later, rootDir) == r && PinsHold(w, later, r.st, later) {
      forall w2 | Closed(w2) && SameTrees(w, w2) ensures ResolveGraph(w2, later, rootDir) == r {
        RebuildHolds(w, later, w2, rootDir, later);
      }
    }
    if AlwaysRepeats(w, pins, rootDir, later) {
      forall i, k | 0 <= i < |r.st.order| && 0 <= k < |r.st.order[i].manifest.deps|
        ensures HoldsDep(w, later, r.st, later, r.st.order[i].manifest.deps[k])
      {
        match r.st.order[i].manifest.deps[k].kind
        case Path(_) => PathsHold(w, later, r.st, i, k);
        case Git(_) => GitMustHold(w, pins, rootDir, later, i, k);
        case Registry(_) => PickMustHold(w, pins, rootDir, later, i, k);
      }
    }
  }

  lemma PathsHold(w: World, pins: Pins, st: State, i: nat, k: nat)
    requires i < |st.order| && k < |st.order[i].manifest.deps| && st.order[i].manifest.deps[k].kind.Path?
    ensures HoldsDep(w, pins, st, pins, st.order[i].manifest.deps[k])
  {
  }

  /** What is finished in a world was fetched there. */
  lemma GitMustHold(w: World, pins: Pins, rootDir: string, later: Pins, i: nat, k: nat)
    requires Closed(w) && SameTrees(w, w) && ResolveGraph(w, pins, rootDir).Done?
    requires AlwaysRepeats(w, pins, rootDir, later)
    requires
      var order := ResolveGraph(w, pins, rootDir).st.order;
      i < |order| && k < |order[i].manifest.deps| && order[i].manifest.deps[k].kind.Git?
    ensures
      var st := ResolveGraph(w, pins, rootDir).st;
      HoldsDep(w, later, st, later, st.order[i].manifest.deps[k])
  {
    hide ResolveGraph, Closed, SameTrees, Inv;
    var st := ResolveGraph(w, pins, rootDir).st;
    var dep := st.order[i].manifest.deps[k];
    var c := PinnedCommit(later, dep.name);
    if Fixed(w, dep.kind.src, c) {
      FixedGivesItself(w, dep.kind.src, c);
    } else {
      var w2 := LostWorld(w, dep.kind.src, c);
      LostIsLater(w, dep.kind.src, c);
      ResolveFinishes(w2, later, rootDir);
      GitWasFetched(w2, later, st, i, k);
    }
  }

  lemma PickMustHold(w: World, pins: Pins, rootDir: string, later: Pins, i: nat, k: nat)
    requires Closed(w) && SameTrees(w, w) && ResolveGraph(w, pins, rootDir).Done?
    requires AlwaysRepeats(w, pins, rootDir, later)
    requires
      var order := ResolveGraph(w, pins, rootDir).st.order;
      i < |order| && k < |order[i].manifest.deps| && order[i].manifest.deps[k].kind.Registry?
    ensures
      var st := ResolveGraph(w, pins, rootDir).st;
      HoldsDep(w, later, st, later, st.order[i].manifest.deps[k])
  {
    hide ResolveGraph, Closed, SameTrees, Inv, FromPin, HoldsPick, Settled, PicksOK;
    var st := ResolveGraph(w, pins, rootDir).st;
    var dep := st.order[i].manifest.deps[k];
    ResolveFinishes(w, pins, rootDir);
    ListedAndSettled(w, pins, st, i);
    SettledInOrder(w, pins, st, st.order[..i], st.order[i].dir, dep);
    NameMustHold(w, pins, rootDir, later, dep.name);
  }

  /** Without an index only a pin can choose, and only a fetched commit is sure. */
  lemma NameMustHold(w: World, pins: Pins, rootDir: string, later: Pins, name: string)
    requires Closed(w) && SameTrees(w, w) && ResolveGraph(w, pins, rootDir).Done?
    requires AlwaysRepeats(w, pins, rootDir, later) && name in ResolveGraph(w, pins, rootDir).st.picks
    ensures HoldsPick(later, name, ResolveGraph(w, pins, rootDir).st.picks[name])
  {
    hide ResolveGraph, Closed, SameTrees, FromPin, Fixed;
    var p := ResolveGraph(w, pins, rootDir).st.picks[name];
    var bare := EmptyIndex(w);
    EmptyIndexIsLater(w);
    PickIsOK(bare, pins, later, rootDir, w, name);
    var c := FromPin(later, name, p.req).value;
    FromPinChooses(later, name, p.req);
    var src := Source(c.git, "", c.ref, "");
    if Fixed(w, src, c.commit) {
      FixedGivesItself(w, src, c.commit);
    } else {
      LostIsLater(w, src, c.commit);
      PickIsOK(LostWorld(w, src, c.commit), pins, later, rootDir, w, name);
    }
  }

  lemma PickIsOK(w2: World, pins: Pins, later: Pins, rootDir: string, w: World, name: string)
    requires Closed(w) && Closed(w2) && ResolveGraph(w, pins, rootDir).Done?
    requires ResolveGraph(w2, later, rootDir) == ResolveGraph(w, pins, rootDir)
    requires name in ResolveGraph(w, pins, rootDir).st.picks
    ensures PickOK(w2, later, name, ResolveGraph(w, pins, rootDir).st.picks[name])
  {
    hide ResolveGraph, Closed, PickOK;
    ResolveFinishes(w2, later, rootDir);
  }

  lemma FromPinChooses(pins: Pins, name: string, req: Req)
    requires FromPin(pins, name, req).Some?
    ensures FromPin(pins, name, req).value.Choice?
    ensures forall w :: Choose(w, pins, name, req) == FromPin(pins, name, req).value
  {
  }

  /** The same for one registry name by itself: its first request finds its pick in
      every later world if and only if the pin under that name chooses it. */
  lemma KeepsPickExactly(w: World, pins: Pins, rootDir: string, later: Pins, name: string)
    requires Closed(w) && SameTrees(w, w) && ResolveGraph(w, pins, rootDir).Done?
    requires name in ResolveGraph(w, pins, rootDir).st.picks
    ensures
      var p := ResolveGraph(w, pins, rootDir).st.picks[name];
      (forall w2 :: SameTrees(w, w2) ==> FindsPick(w2, later, name, p)) <==> HoldsPick(later, name, p)
  {
    hide ResolveGraph, Closed, SameTrees, FromPin, Fixed, FindsPick, HoldsPick;
    var p := ResolveGraph(w, pins, rootDir).st.picks[name];
    PickIsOK(w, pins, pins, rootDir, w, name);
    var c := Choose(w, pins, name, p.req);
    if HoldsPick(later, name, p) {
      forall w2 | SameTrees(w, w2) ensures FindsPick(w2, later, name, p) {
        SameFetch(w, w2, Source(c.git, "", c.ref, ""), c.commit);
        HeldIsFound(w2, later, name, p);
      }
    } else {
      EmptyIndexIsLater(w);
      NotHeldIsLost(w, later, name, p);
    }
  }

  /** Asked for the first time, the name leads to the pick. */
  predicate FindsPick(w: World, pins: Pins, name: string, p: Pick) {
    Locate(w, pins, map[], "", p.requirer, Dep(name, Registry(p.req)))
      == At(p.dir, p.commit, PickEdge(p), map[name := p])
  }

  lemma HeldIsFound(w: World, pins: Pins, name: string, p: Pick)
    requires HoldsPick(pins, name, p) && w.git(Source(p.git, "", p.ref, ""), p.commit) == Some((p.dir, p.commit))
    ensures FindsPick(w, pins, name, p)
  {
    hide FromPin;
  }

  lemma NotHeldIsLost(w: World, later: Pins, name: string, p: Pick)
    requires Closed(w) && SameTrees(w, w) && !HoldsPick(later, name, p)
    ensures exists w2 :: SameTrees(w, w2) && !FindsPick(w2, later, name, p)
  {
    hide Closed, SameTrees, FromPin, Fixed, Locate;
    var bare := EmptyIndex(w);
    EmptyIndexIsLater(w);
    LocateNewPick(bare, later, map[], "", p.requirer, Dep(name, Registry(p.req)));
    if FromPin(later, name, p.req).None? {
      assert !FindsPick(bare, later, name, p);
    } else {
      FromPinChooses(later, name, p.req);
      var c := FromPin(later, name, p.req).value;
      var src := Source(c.git, "", c.ref, "");
      var w2 := LostWorld(w, src, c.commit);
      if Fixed(w, src, c.commit) {
        FixedGivesItself(w, src, c.commit);
        LocateNewPick(w, later, map[], "", p.requirer, Dep(name, Registry(p.req)));
        assert !FindsPick(w, later, name, p);
      } else {
        LostIsLater(w, src, c.commit);
        LocateNewPick(w2, later, map[], "", p.requirer, Dep(name, Registry(p.req)));
        assert !FindsPick(w2, later, name, p);
      }
    }
  }

  /* ----- why the names must match ----- */

  /** A root whose only dependency is one library from git, which has none itself. */
  ghost predicate OneGitDep(w: World, root: string, alias: string, src: Source, m: Manifest, lib: Manifest, dir: string)
  {
    && Closed(w) && w.canonical(root) == Some(root) && w.canonical(dir) == Some(dir) && dir != root
    && m.deps == [Dep(alias, Git(src))] && lib.hasLib && lib.deps == []
    && w.manifest(root, "") == Some(m) && (forall c :: w.manifest(dir, c) == Some(lib))
    && (forall p :: w.git(src, p).Some? ==> w.git(src, p).value.0 == dir)
  }

  lemma OneGitDepResolves(w: World, pins: Pins, root: string, alias: string, src: Source, m: Manifest, lib: Manifest,
                          dir: string)
    requires OneGitDep(w, root, alias, src, m, lib, dir) && w.git(src, PinnedCommit(pins, alias)).Some?
    ensures
      ResolveGraph(w, pins, root) ==
        Done(State(map[root := m, dir := lib], [],
                   [Package(lib.name, dir, lib, w.git(src, PinnedCommit(pins, alias)).value.1, Edge(GitEdge, "", "", "")),
                    Package(m.name, root, m, "", ROOT_EDGE)],
                   map[]))
  {
    hide Visit, VisitDeps, Closed;
    var e := Edge(GitEdge, "", "", "");
    var c := w.git(src, PinnedCommit(pins, alias)).value.1;
    var s1 := EMPTY.(frames := [Frame(root, m)]);
    var s2 := s1.(frames := [Frame(root, m), Frame(dir, lib)]);
    NoMoreDeps(w, pins, s2);
    VisitStep(w, pins, s1, dir, dir, c, e);
    assert s1.frames + [Frame(dir, lib)] == s2.frames;
    var s3 := Visit(w, pins, s1, dir, c, e).st;
    assert s3 == s1.(order := [Package(lib.name, dir, lib, c, e)], resolved := map[dir := lib]);
    DepsStep(w, pins, s1, 0);
    NoMoreDeps(w, pins, s3);
    assert s1.(picks := s1.picks) == s1;
    assert VisitDeps(w, pins, s1, 0) == Done(s3);
    VisitStep(w, pins, EMPTY, root, root, "", ROOT_EDGE);
    assert EMPTY.frames + [Frame(root, m)] == s1.frames;
  }

  /** The smallest resolution that shows it: pins are stored under the package's own
      name but looked up under the dependency's, so if these differ a rebuild takes
      whatever the branch holds by then. */
  lemma RebuildOfAlias(w1: World, w2: World, root: string, alias: string, src: Source, m: Manifest, lib: Manifest,
                       dir: string)
    requires OneGitDep(w1, root, alias, src, m, lib, dir) && OneGitDep(w2, root, alias, src, m, lib, dir)
    requires SameTrees(w1, w2) && w1.git(src, "").Some? && w2.git(src, "").Some?
    requires AllPlain(lib.name) && AllPlain(dir) && AllPlain(w1.git(src, "").value.1)
    ensures
      var first := ResolveGraph(w1, map[], root);
      && first.Done? && first.st.order[0].commit == w1.git(src, "").value.1
      && var second := ResolveGraph(w2, PinsIn(LockText(first.st.order)), root);
      && second.Done?
      && second.st.order[0].commit
           == (if lib.name == alias then w1.git(src, "").value.1 else w2.git(src, "").value.1)
  {
    hide Closed, Visit, Escape, Entries, ReadTables;
    OneGitDepResolves(w1, map[], root, alias, src, m, lib, dir);
    var order := ResolveGraph(w1, map[], root).st.order;
    var c := w1.git(src, "").value.1;
    var init := AllButLast(order);
    assert init == [Package(lib.name, dir, lib, c, Edge(GitEdge, "", "", ""))];
    LockfileRoundTrip(order);
    PinOfPackage(init, alias);
    PinOfPackage(init, lib.name);
    var pins := PinsIn(LockText(order));
    assert pins == PinsOf(TablesOf(init));
    assert Kept(init[0]) == Pin(c, "", "", "");
    assert PinnedCommit(pins, alias) == if lib.name == alias then c else "";
    OneGitDepResolves(w2, pins, root, alias, src, m, lib, dir);
  }
}
