/** Dependency resolution: what the depth-first walk over packages computes, and
    the resolver that updates its tables while it walks. */
module Resolve {
  import opened Options
  import opened SemVer

  /** Where a git dependency comes from. */
  datatype Source = Source(git: string, branch: string, tag: string, rev: string)

  datatype Kind = Path(path: string) | Git(src: Source) | Registry(req: Req)

  datatype Dep = Dep(name: string, kind: Kind)

  /** A manifest, with the dependencies that apply on this platform. */
  datatype Manifest = Manifest(name: string, hasLib: bool, deps: seq<Dep>)

  datatype Pin = Pin(commit: string, version: string, git: string, ref: string)

  datatype IndexEntry = IndexEntry(version: SemVer, git: string, branch: string, tag: string, rev: string)

  datatype EdgeKind = RootEdge | PathEdge | GitEdge | RegistryEdge

  /** How a package was reached, beyond its directory and commit. */
  datatype Edge = Edge(kind: EdgeKind, version: string, git: string, ref: string)

  datatype Package = Package(name: string, dir: string, manifest: Manifest, commit: string, edge: Edge)

  /** The one version chosen for a registry name, and who asked for it first. */
  datatype Pick =
    Pick(version: SemVer, dir: string, commit: string, git: string, ref: string, req: Req, requirer: string)

  datatype Error =
    | NoDirectory(dir: string) | BadManifest(dir: string) | GitFailed(name: string) | NotInIndex(name: string)
    | NoneSatisfies(name: string) | Conflict(name: string) | Circular(dir: string) | NoLib(name: string)

  /** The outside: canonical directories (finitely many), the manifest of a
      directory at a commit, git checkouts for a source and a pinned commit (the
      empty string means none), and the package index. */
  datatype World = World(
    dirs: set<string>,
    canonical: string -> Option<string>,
    join: (string, string) -> string,
    manifest: (string, string) -> Option<Manifest>,
    git: (Source, string) -> Option<(string, string)>,
    index: string -> Option<seq<IndexEntry>>)

  /** A canonical directory is one of finitely many, and its own canonical form. */
  ghost predicate Closed(w: World) {
    forall d :: w.canonical(d).Some? ==>
      w.canonical(d).value in w.dirs && w.canonical(w.canonical(d).value) == w.canonical(d)
  }

  type Pins = map<string, Pin>

  type Picks = map<string, Pick>

  /** A package on the walk's stack. */
  datatype Frame = Frame(dir: string, manifest: Manifest)

  datatype State = State(resolved: map<string, Manifest>, frames: seq<Frame>, order: seq<Package>, picks: Picks)

  datatype Outcome = Done(st: State) | Failed(error: Error, st: State)

  datatype Target = At(dir: string, commit: string, edge: Edge, picks: Picks) | Bad(error: Error)

  const ROOT_EDGE := Edge(RootEdge, "", "", "")

  function PinnedCommit(pins: Pins, name: string): string { if name in pins then pins[name].commit else "" }

  function Versions(entries: seq<IndexEntry>): seq<SemVer> {
    seq(|entries|, i requires 0 <= i < |entries| => entries[i].version)
  }

  function FirstOf(entries: seq<IndexEntry>, v: SemVer): (e: IndexEntry)
    requires exists i :: 0 <= i < |entries| && entries[i].version == v
    ensures e in entries && e.version == v
  {
    if entries[0].version == v then entries[0] else FirstOf(entries[1..], v)
  }

  function RefOf(e: IndexEntry): string { if e.branch != "" then e.branch else if e.tag != "" then e.tag else e.rev }

  /** What to fetch for a registry package: version, git source, ref, commit. */
  datatype Choice = Choice(version: SemVer, git: string, ref: string, commit: string) | NoChoice(error: Error)

  /** A pin counts if it names a source and its version still satisfies the requirement. */
  function FromPin(pins: Pins, name: string, req: Req): Option<Choice> {
    if name in pins && pins[name].git != "" && pins[name].version != "" then
      var v := ParseSemVer(pins[name].version);
      if v.Some? && Matches(req, v.value)
      then Some(Choice(v.value, pins[name].git, pins[name].ref, pins[name].commit)) else None
    else None
  }

  lemma BestIsListed(entries: seq<IndexEntry>, req: Req)
    ensures var b := Best(Versions(entries), req);
            b.Some? ==> exists i :: 0 <= i < |entries| && entries[i].version == b.value
  {
    BestIsBest(Versions(entries), req);
    var b := Best(Versions(entries), req);
    if b.Some? {
      var i :| 0 <= i < |entries| && Versions(entries)[i] == b.value;
      assert entries[i].version == b.value;
    }
  }

  function Choose(w: World, pins: Pins, name: string, req: Req): Choice {
    var pinned := FromPin(pins, name, req);
    if pinned.Some? then pinned.value
    else
      match w.index(name)
      case None => NoChoice(NotInIndex(name))
      case Some(entries) =>
        var best := Best(Versions(entries), req);
        BestIsListed(entries, req);
        if best.None? then NoChoice(NoneSatisfies(name))
        else
          var e := FirstOf(entries, best.value);
          Choice(best.value, e.git, RefOf(e), "")
  }

  function PickEdge(p: Pick): Edge { Edge(RegistryEdge, ToString(p.version), p.git, p.ref) }

  /** Where a dependency of the package in `dir` leads. */
  function Locate(w: World, pins: Pins, picks: Picks, dir: string, requirer: string, dep: Dep): Target {
    match dep.kind
    case Path(path) => At(w.join(dir, path), "", Edge(PathEdge, "", "", ""), picks)
    case Git(src) =>
      (match w.git(src, PinnedCommit(pins, dep.name))
       case None => Bad(GitFailed(dep.name))
       case Some(got) => At(got.0, got.1, Edge(GitEdge, "", "", ""), picks))
    case Registry(req) =>
      if dep.name in picks then
        var p := picks[dep.name];
        if Matches(req, p.version) then At(p.dir, p.commit, PickEdge(p), picks) else Bad(Conflict(dep.name))
      else
        match Choose(w, pins, dep.name, req)
        case NoChoice(e) => Bad(e)
        case Choice(v, git, ref, commit) =>
          match w.git(Source(git, "", ref, ""), commit)
          case None => Bad(GitFailed(dep.name))
          case Some(got) =>
            var p := Pick(v, got.0, got.1, git, ref, req, requirer);
            At(got.0, got.1, PickEdge(p), picks[dep.name := p])
  }

  predicate OnStack(frames: seq<Frame>, dir: string) { exists i :: 0 <= i < |frames| && frames[i].dir == dir }

  ghost function Unvisited(w: World, frames: seq<Frame>): set<string> {
    set d | d in w.dirs && !OnStack(frames, d)
  }

  lemma StillOnStack(frames: seq<Frame>, f: Frame, d: string)
    ensures OnStack(frames, d) ==> OnStack(frames + [f], d)
  {
    if OnStack(frames, d) {
      var i :| 0 <= i < |frames| && frames[i].dir == d;
      assert (frames + [f])[i].dir == d;
    }
  }

  /** Entering one more directory leaves fewer to enter. */
  lemma FewerUnvisited(w: World, frames: seq<Frame>, f: Frame)
    requires f.dir in w.dirs && !OnStack(frames, f.dir)
    ensures |Unvisited(w, frames + [f])| < |Unvisited(w, frames)|
  {
    var (a, b) := (Unvisited(w, frames + [f]), Unvisited(w, frames));
    assert OnStack(frames + [f], f.dir) by { assert (frames + [f])[|frames|] == f; }
    forall d ensures OnStack(frames, d) ==> OnStack(frames + [f], d) {
      StillOnStack(frames, f, d);
    }
    assert a <= b && f.dir in b && f.dir !in a;
    SmallerSet(a, b - {f.dir});
  }

  lemma {:induction false} SmallerSet(a: set<string>, b: set<string>)
    requires a <= b
    ensures |a| <= |b|
  {
    if a != {} {
      var x :| x in a;
      SmallerSet(a - {x}, b - {x});
    }
  }

  function Visit(w: World, pins: Pins, st: State, dir: string, commit: string, edge: Edge): (r: Outcome)
    requires Closed(w)
    ensures r.Done? ==> r.st.frames == st.frames && w.canonical(dir).Some? && w.canonical(dir).value in r.st.resolved
    decreases |Unvisited(w, st.frames)|, 0, 0
  {
    match w.canonical(dir)
    case None => Failed(NoDirectory(dir), st)
    case Some(key) =>
      if key in st.resolved then Done(st)
      else if OnStack(st.frames, key) then Failed(Circular(key), st)
      else
        match w.manifest(key, commit)
        case None => Failed(BadManifest(key), st)
        case Some(m) =>
          FewerUnvisited(w, st.frames, Frame(key, m));
          match VisitDeps(w, pins, st.(frames := st.frames + [Frame(key, m)]), 0)
          case Failed(e, st1) => Failed(e, st1)
          case Done(st1) =>
            Done(st1.(frames := st.frames,
                      order := st1.order + [Package(m.name, key, m, commit, edge)],
                      resolved := st1.resolved[key := m]))
  }

  /** The dependencies from the i-th on of the package on top of the stack. */
  function VisitDeps(w: World, pins: Pins, st: State, i: nat): (r: Outcome)
    requires Closed(w) && st.frames != [] && i <= |st.frames[|st.frames| - 1].manifest.deps|
    ensures r.Done? ==> r.st.frames == st.frames
    decreases |Unvisited(w, st.frames)|, 1, |st.frames[|st.frames| - 1].manifest.deps| - i
  {
    var top := st.frames[|st.frames| - 1];
    if i == |top.manifest.deps| then Done(st)
    else
      var dep := top.manifest.deps[i];
      match Locate(w, pins, st.picks, top.dir, top.manifest.name, dep)
      case Bad(e) => Failed(e, st)
      case At(dir, commit, edge, picks) =>
        match Visit(w, pins, st.(picks := picks), dir, commit, edge)
        case Failed(e, st1) => Failed(e, st1)
        case Done(st1) =>
          if !st1.resolved[w.canonical(dir).value].hasLib then Failed(NoLib(dep.name), st1)
          else VisitDeps(w, pins, st1, i + 1)
  }

  lemma VisitStep(w: World, pins: Pins, st: State, dir: string, key: string, commit: string, edge: Edge)
    requires Closed(w) && w.canonical(dir) == Some(key) && key !in st.resolved
    ensures
      var m := w.manifest(key, commit);
      Visit(w, pins, st, dir, commit, edge) ==
        if OnStack(st.frames, key) then Failed(Circular(key), st)
        else if m.None? then Failed(BadManifest(key), st)
        else
          var d := VisitDeps(w, pins, st.(frames := st.frames + [Frame(key, m.value)]), 0);
          if d.Failed? then d
          else Done(d.st.(frames := st.frames, order := d.st.order + [Package(m.value.name, key, m.value, commit, edge)],
                          resolved := d.st.resolved[key := m.value]))
  {
    hide VisitDeps, Closed;
  }

  lemma VisitSkips(w: World, pins: Pins, st: State, dir: string, commit: string, edge: Edge)
    requires Closed(w)
    ensures w.canonical(dir).None? ==> Visit(w, pins, st, dir, commit, edge) == Failed(NoDirectory(dir), st)
    ensures w.canonical(dir).Some? && w.canonical(dir).value in st.resolved ==>
              Visit(w, pins, st, dir, commit, edge) == Done(st)
  {
  }

  lemma DepsStep(w: World, pins: Pins, st: State, i: nat)
    requires Closed(w) && st.frames != [] && i < |st.frames[|st.frames| - 1].manifest.deps|
    ensures
      var top := st.frames[|st.frames| - 1];
      var dep := top.manifest.deps[i];
      var t := Locate(w, pins, st.picks, top.dir, top.manifest.name, dep);
      VisitDeps(w, pins, st, i) ==
        if t.Bad? then Failed(t.error, st)
        else
          var r := Visit(w, pins, st.(picks := t.picks), t.dir, t.commit, t.edge);
          if r.Failed? then r
          else if !r.st.resolved[w.canonical(t.dir).value].hasLib then Failed(NoLib(dep.name), r.st)
          else VisitDeps(w, pins, r.st, i + 1)
  {
    hide Visit, Locate, Closed;
  }

  lemma NoMoreDeps(w: World, pins: Pins, st: State)
    requires Closed(w) && st.frames != []
    ensures VisitDeps(w, pins, st, |st.frames[|st.frames| - 1].manifest.deps|) == Done(st)
  {
  }

  const EMPTY := State(map[], [], [], map[])

  function ResolveGraph(w: World, pins: Pins, rootDir: string): Outcome
    requires Closed(w)
  {
    match w.canonical(rootDir)
    case None => Failed(NoDirectory(rootDir), EMPTY)
    case Some(root) => Visit(w, pins, EMPTY, root, "", ROOT_EDGE)
  }

  function Dirs(frames: seq<Frame>): seq<string> {
    seq(|frames|, i requires 0 <= i < |frames| => frames[i].dir)
  }

  /** The resolver.  `visiting` holds the directories on the stack; their
      manifests are local to the calls that are still open. */
  class Resolver {
    const w: World
    const pins: Pins
    var resolvedByDir: map<string, Manifest>
    var visiting: seq<string>
    var order: seq<Package>
    var picks: Picks
    var err: Option<Error>
    ghost var frames: seq<Frame>

    constructor (w: World, pins: Pins)
      ensures this.w == w && this.pins == pins && Holds(EMPTY) && err == None
    {
      this.w, this.pins := w, pins;
      resolvedByDir, visiting, order, picks, err, frames := map[], [], [], map[], None, [];
    }

    ghost predicate Holds(st: State)
      reads this
    {
      resolvedByDir == st.resolved && frames == st.frames && order == st.order && picks == st.picks
      && visiting == Dirs(frames)
    }

    ghost predicate Reports(ok: bool, want: Outcome)
      reads this
    {
      match want
      case Done(st) => ok && Holds(st)
      case Failed(e, _) => !ok && err == Some(e)
    }

    ghost function Now(): State
      reads this
    {
      State(resolvedByDir, frames, order, picks)
    }

    method Resolve(rootDir: string) returns (ok: bool)
      requires Closed(w) && Holds(EMPTY)
      modifies this
      ensures Reports(ok, ResolveGraph(w, pins, rootDir))
    {
      var root := w.canonical(rootDir);
      if root.None? {
        err := Some(NoDirectory(rootDir));
        return false;
      }
      assert Now() == EMPTY;
      ok := VisitPackage(root.value, "", ROOT_EDGE);
    }

    method IsVisiting(key: string) returns (found: bool)
      requires visiting == Dirs(frames)
      ensures found <==> OnStack(frames, key)
    {
      for i := 0 to |visiting|
        invariant forall j :: 0 <= j < i ==> visiting[j] != key
      {
        if visiting[i] == key {
          assert frames[i].dir == key;
          return true;
        }
      }
      assert forall i :: 0 <= i < |frames| ==> visiting[i] == frames[i].dir;
      return false;
    }

    method VisitPackage(dir: string, commit: string, edge: Edge) returns (ok: bool)
      requires Closed(w) && visiting == Dirs(frames)
      modifies this
      ensures Reports(ok, Visit(w, pins, old(Now()), dir, commit, edge))
      decreases |Unvisited(w, frames)|, 0
    {
      var canonicalDir := w.canonical(dir);
      if canonicalDir.None? {
        err := Some(NoDirectory(dir));
        return false;
      }
      var key := canonicalDir.value;
      if key in resolvedByDir { return true; }
      var onStack := IsVisiting(key);
      if onStack {
        err := Some(Circular(key));
        return false;
      }
      var manifest := w.manifest(key, commit);
      if manifest.None? {
        err := Some(BadManifest(key));
        return false;
      }
      var m := manifest.value;
      ghost var frame := Frame(key, m);
      FewerUnvisited(w, frames, frame);
      assert Dirs(frames + [frame]) == visiting + [key];
      visiting, frames := visiting + [key], frames + [frame];
      ok := VisitAllDeps(key, m);
      if !ok { return; }
      visiting, frames := visiting[..|visiting| - 1], frames[..|frames| - 1];
      assert frames == old(frames);
      order := order + [Package(m.name, key, m, commit, edge)];
      resolvedByDir := resolvedByDir[key := m];
    }

    /** The loop over the dependencies of the package on top of the stack. */
    method VisitAllDeps(key: string, m: Manifest) returns (ok: bool)
      requires Closed(w) && visiting == Dirs(frames)
      requires frames != [] && frames[|frames| - 1] == Frame(key, m)
      modifies this
      ensures Reports(ok, VisitDeps(w, pins, old(Now()), 0))
      decreases |Unvisited(w, frames)|, 1
    {
      hide Visit, VisitDeps, Locate, Closed;
      var i := 0;
      while i < |m.deps|
        invariant 0 <= i <= |m.deps|
        invariant frames == old(frames) && visiting == Dirs(frames)
        invariant VisitDeps(w, pins, Now(), i) == VisitDeps(w, pins, old(Now()), 0)
      {
        DepsStep(w, pins, Now(), i);
        var dep := m.deps[i];
        var located := LocateDep(key, m.name, dep);
        if located.Bad? {
          err := Some(located.error);
          return false;
        }
        ok := VisitPackage(located.dir, located.commit, located.edge);
        if !ok { return; }
        if !resolvedByDir[w.canonical(located.dir).value].hasLib {
          err := Some(NoLib(dep.name));
          return false;
        }
        i := i + 1;
      }
      NoMoreDeps(w, pins, Now());
      return true;
    }

    /** Finds the directory of a dependency, and records a new registry pick. */
    method LocateDep(dir: string, requirer: string, dep: Dep) returns (t: Target)
      modifies this`picks
      ensures t == Locate(w, pins, old(picks), dir, requirer, dep)
      ensures picks == if t.At? then t.picks else old(picks)
    {
      match dep.kind
      case Path(path) => return At(w.join(dir, path), "", Edge(PathEdge, "", "", ""), picks);
      case Git(src) =>
        var got := w.git(src, PinnedCommit(pins, dep.name));
        if got.None? { return Bad(GitFailed(dep.name)); }
        return At(got.value.0, got.value.1, Edge(GitEdge, "", "", ""), picks);
      case Registry(req) =>
        if dep.name in picks {
          var p := picks[dep.name];
          if !Matches(req, p.version) { return Bad(Conflict(dep.name)); }
          return At(p.dir, p.commit, PickEdge(p), picks);
        }
        var c := ChooseVersion(dep.name, req);
        if c.NoChoice? { return Bad(c.error); }
        var got := w.git(Source(c.git, "", c.ref, ""), c.commit);
        if got.None? { return Bad(GitFailed(dep.name)); }
        var p := Pick(c.version, got.value.0, got.value.1, c.git, c.ref, req, requirer);
        picks := picks[dep.name := p];
        return At(p.dir, p.commit, PickEdge(p), picks);
    }

    method ChooseVersion(name: string, req: Req) returns (c: Choice)
      ensures c == Choose(w, pins, name, req)
    {
      var pinned := FromPin(pins, name, req);
      if pinned.Some? { return pinned.value; }
      var entries := w.index(name);
      if entries.None? { return NoChoice(NotInIndex(name)); }
      var best := PickBestSatisfying(Versions(entries.value), req);
      if best.None? { return NoChoice(NoneSatisfies(name)); }
      BestIsListed(entries.value, req);
      var e := FirstOf(entries.value, best.value);
      return Choice(best.value, e.git, RefOf(e), "");
    }
  }
}
