/** What a resolution guarantees: every package after its dependencies, exactly
    the reachable ones, one version per registry name, and no cycles. */
module Resolution {
  import opened Options
  import opened SemVer
  import opened Resolve

  /** Where a dependency leads once its pick is made. */
  datatype Found = Found(dir: string, commit: string, edge: Edge)

  ghost function AtDir(w: World, dir: string, commit: string, edge: Edge): Option<Found> {
    var key := w.canonical(dir);
    if key.None? then None else Some(Found(key.value, commit, edge))
  }

  ghost function Lookup(w: World, pins: Pins, picks: Picks, dir: string, dep: Dep): Option<Found> {
    match dep.kind
    case Path(path) => AtDir(w, w.join(dir, path), "", Edge(PathEdge, "", "", ""))
    case Git(src) =>
      var got := w.git(src, PinnedCommit(pins, dep.name));
      if got.None? then None else AtDir(w, got.value.0, got.value.1, Edge(GitEdge, "", "", ""))
    case Registry(_) =>
      if dep.name !in picks then None
      else AtDir(w, picks[dep.name].dir, picks[dep.name].commit, PickEdge(picks[dep.name]))
  }

  /** Some dependency of the manifest leads there. */
  ghost predicate Leads(w: World, pins: Pins, picks: Picks, dir: string, m: Manifest, f: Found) {
    exists i :: 0 <= i < |m.deps| && Lookup(w, pins, picks, dir, m.deps[i]) == Some(f)
  }

  ghost predicate Extends(p: Picks, q: Picks) { forall n :: n in p ==> n in q && q[n] == p[n] }

  lemma LookupStable(w: World, pins: Pins, p: Picks, q: Picks, dir: string, dep: Dep)
    requires Extends(p, q) && Lookup(w, pins, p, dir, dep).Some?
    ensures Lookup(w, pins, q, dir, dep) == Lookup(w, pins, p, dir, dep)
  {
  }

  lemma LeadsStable(w: World, pins: Pins, p: Picks, q: Picks, dir: string, m: Manifest, f: Found)
    requires Extends(p, q) && Leads(w, pins, p, dir, m, f)
    ensures Leads(w, pins, q, dir, m, f)
  {
    var i :| 0 <= i < |m.deps| && Lookup(w, pins, p, dir, m.deps[i]) == Some(f);
    LookupStable(w, pins, p, q, dir, m.deps[i]);
  }

  ghost predicate Satisfied(picks: Picks, dep: Dep) {
    dep.kind.Registry? ==> dep.name in picks && Matches(dep.kind.req, picks[dep.name].version)
  }

  /** Locating a dependency makes its pick and changes no other. */
  lemma LocateLooksUp(w: World, pins: Pins, picks: Picks, dir: string, requirer: string, dep: Dep)
    requires Locate(w, pins, picks, dir, requirer, dep).At?
    ensures
      var t := Locate(w, pins, picks, dir, requirer, dep);
      && Extends(picks, t.picks) && Satisfied(t.picks, dep)
      && Lookup(w, pins, t.picks, dir, dep) == AtDir(w, t.dir, t.commit, t.edge)
      && (PicksOK(w, pins, picks) ==> PicksOK(w, pins, t.picks))
  {
    var t := Locate(w, pins, picks, dir, requirer, dep);
    if dep.kind.Registry? && dep.name !in picks { ChosenMatches(w, pins, dep.name, dep.kind.req); }
  }

  /** A pick satisfies the requirement it was made for, is the version that this
      one chooses, and unless that came from a pin it is the highest published
      version that satisfies it.  It was fetched from the source recorded with it. */
  ghost predicate PickOK(w: World, pins: Pins, name: string, p: Pick) {
    && Matches(p.req, p.version)
    && (FromPin(pins, name, p.req).Some?
        || (w.index(name).Some? && IsBest(Versions(w.index(name).value), p.req, Some(p.version))))
    && IsFetched(w, Choose(w, pins, name, p.req), p)
    && IsSourced(w, pins, name, p)
  }

  /** A pin counts if it names a source and a version that meets the requirement. */
  predicate PinCounts(pins: Pins, name: string, req: Req) {
    && name in pins && pins[name].git != "" && pins[name].version != ""
    && ParseSemVer(pins[name].version).Some? && Matches(req, ParseSemVer(pins[name].version).value)
  }

  /** The entry that an index gives for a version: the first that has it. */
  ghost predicate IsEntryOf(entries: seq<IndexEntry>, i: nat, v: SemVer) {
    i < |entries| && entries[i].version == v && forall j :: 0 <= j < i ==> entries[j].version != v
  }

  /** The source that goes with a version: the repository of its entry, at the
      branch if one is named, or else at the tag if one is, or else at the revision. */
  ghost predicate IsIndexed(entries: seq<IndexEntry>, v: SemVer, git: string, ref: string) {
    exists i: nat :: IsEntryOf(entries, i, v) && IsSourceOf(entries[i], git, ref)
  }

  predicate IsSourceOf(e: IndexEntry, git: string, ref: string) {
    && git == e.git
    && (e.branch != "" ==> ref == e.branch)
    && (e.branch == "" && e.tag != "" ==> ref == e.tag)
    && (e.branch == "" && e.tag == "" ==> ref == e.rev)
  }

  /** What was fetched is what the pin, if it counts, or else the index says: the
      version, its source, and the commit pinned or none. */
  ghost predicate IsSourced(w: World, pins: Pins, name: string, p: Pick) {
    var tree := Some((p.dir, p.commit));
    if PinCounts(pins, name, p.req) then
      var pin := pins[name];
      && ParseSemVer(pin.version) == Some(p.version) && p.git == pin.git && p.ref == pin.ref
      && w.git(Source(pin.git, "", pin.ref, ""), pin.commit) == tree
    else
      && w.index(name).Some? && IsIndexed(w.index(name).value, p.version, p.git, p.ref)
      && w.git(Source(p.git, "", p.ref, ""), "") == tree
  }

  ghost predicate IsFetched(w: World, c: Choice, p: Pick) {
    && c.Choice? && c.version == p.version && c.git == p.git && c.ref == p.ref
    && w.git(Source(c.git, "", c.ref, ""), c.commit) == Some((p.dir, p.commit))
  }

  ghost predicate PicksOK(w: World, pins: Pins, picks: Picks) {
    forall n :: n in picks ==> PickOK(w, pins, n, picks[n])
  }

  lemma {:induction false} FirstIsEntry(entries: seq<IndexEntry>, v: SemVer) returns (i: nat)
    requires exists k :: 0 <= k < |entries| && entries[k].version == v
    ensures IsEntryOf(entries, i, v) && FirstOf(entries, v) == entries[i]
  {
    if entries[0].version == v {
      i := 0;
    } else {
      var k :| 0 <= k < |entries| && entries[k].version == v;
      assert entries[1..][k - 1].version == v;
      var rest := FirstIsEntry(entries[1..], v);
      i := rest + 1;
    }
  }

  /** A choice satisfies the requirement.  It is the pin's if the pin counts; if
      not, it is the best published version, with the source of the first index
      entry for it and no commit. */
  lemma ChosenMatches(w: World, pins: Pins, name: string, req: Req)
    requires Choose(w, pins, name, req).Choice?
    ensures
      var c := Choose(w, pins, name, req);
      && Matches(req, c.version)
      && (FromPin(pins, name, req) == Some(c)
          || (FromPin(pins, name, req).None? && w.index(name).Some?
              && IsBest(Versions(w.index(name).value), req, Some(c.version))))
    ensures
      var c := Choose(w, pins, name, req);
      if PinCounts(pins, name, req) then
        && ParseSemVer(pins[name].version) == Some(c.version)
        && c.git == pins[name].git && c.ref == pins[name].ref && c.commit == pins[name].commit
      else
        && w.index(name).Some? && IsBest(Versions(w.index(name).value), req, Some(c.version))
        && IsIndexed(w.index(name).value, c.version, c.git, c.ref) && c.commit == ""
  {
    hide Best, FirstOf;
    if FromPin(pins, name, req).None? {
      var entries := w.index(name).value;
      BestIsBest(Versions(entries), req);
      BestIsListed(entries, req);
      var i := FirstIsEntry(entries, Choose(w, pins, name, req).version);
    }
  }

  /** Nothing is chosen exactly if no pin counts and no published version matches. */
  lemma NoneChosenExactly(w: World, pins: Pins, name: string, req: Req)
    ensures Choose(w, pins, name, req).NoChoice? <==>
              !PinCounts(pins, name, req)
              && (w.index(name).None? || IsBest(Versions(w.index(name).value), req, None))
  {
    hide Best, FirstOf;
    if w.index(name).Some? { BestIsBest(Versions(w.index(name).value), req); }
  }

  /* ----- the invariant ----- */

  ghost predicate InOrder(order: seq<Package>, dir: string) {
    exists i :: 0 <= i < |order| && order[i].dir == dir
  }

  /** A dependency is settled: its package is in the order and is a library, and
      its version requirement is met. */
  ghost predicate Settled(w: World, pins: Pins, picks: Picks, order: seq<Package>, resolved: map<string, Manifest>,
                          dir: string, dep: Dep) {
    var f := Lookup(w, pins, picks, dir, dep);
    && f.Some? && InOrder(order, f.value.dir) && f.value.dir in resolved && resolved[f.value.dir].hasLib
    && Satisfied(picks, dep)
  }

  ghost predicate AllSettled(w: World, pins: Pins, st: State, order: seq<Package>, dir: string, deps: seq<Dep>) {
    forall i :: 0 <= i < |deps| ==> Settled(w, pins, st.picks, order, st.resolved, dir, deps[i])
  }

  /** The resolved table and the order hold the same packages, each once. */
  ghost predicate TablesAgree(w: World, st: State) {
    && (forall i, j :: 0 <= i < j < |st.order| ==> st.order[i].dir != st.order[j].dir)
    && (forall i :: 0 <= i < |st.order| ==> Listed(w, st, st.order[i]))
    && (forall k :: k in st.resolved ==> InOrder(st.order, k))
  }

  ghost predicate Listed(w: World, st: State, p: Package) {
    && p.dir in st.resolved && st.resolved[p.dir] == p.manifest && p.name == p.manifest.name
    && w.manifest(p.dir, p.commit) == Some(p.manifest)
  }

  /** Every package comes after all its dependencies. */
  ghost predicate Topological(w: World, pins: Pins, st: State) {
    forall i :: 0 <= i < |st.order| ==>
      AllSettled(w, pins, st, st.order[..i], st.order[i].dir, st.order[i].manifest.deps)
  }

  ghost predicate StackOK(w: World, pins: Pins, st: State) {
    && (forall i, j :: 0 <= i < j < |st.frames| ==> st.frames[i].dir != st.frames[j].dir)
    && (forall i :: 0 <= i < |st.frames| ==> st.frames[i].dir !in st.resolved)
    && StackIsPath(w, pins, st)
  }

  /** Each package on the stack is a dependency of the one below it. */
  ghost predicate StackIsPath(w: World, pins: Pins, st: State) {
    && (forall i :: 0 <= i < |st.frames| ==> HasManifest(w, st.frames[i]))
    && (forall i :: 0 <= i < |st.frames| - 1 ==> FrameLeads(w, pins, st.picks, st.frames[i], st.frames[i + 1].dir))
  }

  ghost predicate HasManifest(w: World, f: Frame) { exists c :: w.manifest(f.dir, c) == Some(f.manifest) }

  ghost predicate FrameLeads(w: World, pins: Pins, picks: Picks, f: Frame, dir: string) {
    exists t: Found :: t.dir == dir && Leads(w, pins, picks, f.dir, f.manifest, t)
  }

  ghost function FoundAs(p: Package): Found { Found(p.dir, p.commit, p.edge) }

  /** What a package was found as comes from a dependency of a package on the
      stack or later in the order; only the root has no such parent. */
  ghost predicate HasParent(w: World, pins: Pins, st: State, i: nat)
    requires i < |st.order|
  {
    || (st.frames == [] && i == |st.order| - 1)
    || (exists j :: 0 <= j < |st.frames|
          && Leads(w, pins, st.picks, st.frames[j].dir, st.frames[j].manifest, FoundAs(st.order[i])))
    || ParentInOrder(w, pins, st, i)
  }

  ghost predicate ParentInOrder(w: World, pins: Pins, st: State, i: nat)
    requires i < |st.order|
  {
    exists j :: i < j < |st.order|
      && Leads(w, pins, st.picks, st.order[j].dir, st.order[j].manifest, FoundAs(st.order[i]))
  }

  ghost predicate Inv(w: World, pins: Pins, st: State) {
    && TablesAgree(w, st) && Topological(w, pins, st) && StackOK(w, pins, st) && PicksOK(w, pins, st.picks)
    && (forall i :: 0 <= i < |st.order| ==> HasParent(w, pins, st, i))
  }

  /** Tables only grow. */
  ghost predicate Grows(a: State, b: State) {
    && Extends(a.picks, b.picks) && a.order <= b.order
    && (forall k :: k in a.resolved ==> k in b.resolved && b.resolved[k] == a.resolved[k])
  }

  lemma InOrderGrows(a: seq<Package>, b: seq<Package>, dir: string)
    requires InOrder(a, dir) && a <= b
    ensures InOrder(b, dir)
  {
    var i :| 0 <= i < |a| && a[i].dir == dir;
    assert b[i].dir == dir;
  }

  lemma SettledGrows(w: World, pins: Pins, a: State, b: State, x: seq<Package>, y: seq<Package>, dir: string,
                     deps: seq<Dep>)
    requires Grows(a, b) && x <= y && AllSettled(w, pins, a, x, dir, deps)
    ensures AllSettled(w, pins, b, y, dir, deps)
  {
    forall i | 0 <= i < |deps| ensures Settled(w, pins, b.picks, y, b.resolved, dir, deps[i]) {
      assert Settled(w, pins, a.picks, x, a.resolved, dir, deps[i]);
      LookupStable(w, pins, a.picks, b.picks, dir, deps[i]);
      InOrderGrows(x, y, Lookup(w, pins, a.picks, dir, deps[i]).value.dir);
    }
  }

  lemma FrameLeadsStable(w: World, pins: Pins, p: Picks, q: Picks, f: Frame, dir: string)
    requires Extends(p, q) && FrameLeads(w, pins, p, f, dir)
    ensures FrameLeads(w, pins, q, f, dir)
  {
    var t: Found :| t.dir == dir && Leads(w, pins, p, f.dir, f.manifest, t);
    LeadsStable(w, pins, p, q, f.dir, f.manifest, t);
  }

  /** A new pick disturbs nothing. */
  lemma PickKeepsInv(w: World, pins: Pins, st: State, q: Picks)
    requires Inv(w, pins, st) && Extends(st.picks, q) && PicksOK(w, pins, q)
    ensures Inv(w, pins, st.(picks := q)) && Grows(st, st.(picks := q))
  {
    var b := st.(picks := q);
    forall i | 0 <= i < |b.order|
      ensures AllSettled(w, pins, b, b.order[..i], b.order[i].dir, b.order[i].manifest.deps)
    {
      SettledGrows(w, pins, st, b, st.order[..i], b.order[..i], b.order[i].dir, b.order[i].manifest.deps);
    }
    forall i | 0 <= i < |b.frames| - 1 ensures FrameLeads(w, pins, q, b.frames[i], b.frames[i + 1].dir) {
      FrameLeadsStable(w, pins, st.picks, q, st.frames[i], st.frames[i + 1].dir);
    }
    forall i | 0 <= i < |b.order| ensures HasParent(w, pins, b, i) {
      ParentStable(w, pins, st, q, i);
    }
    forall i | 0 <= i < |b.order| ensures Listed(w, b, b.order[i]) {
      assert Listed(w, st, st.order[i]);
    }
  }

  lemma ParentStable(w: World, pins: Pins, st: State, q: Picks, i: nat)
    requires i < |st.order| && HasParent(w, pins, st, i) && Extends(st.picks, q)
    ensures HasParent(w, pins, st.(picks := q), i)
  {
    var b := st.(picks := q);
    if !(st.frames == [] && i == |st.order| - 1) {
      if ParentInOrder(w, pins, st, i) {
        var j :| i < j < |st.order|
              && Leads(w, pins, st.picks, st.order[j].dir, st.order[j].manifest, FoundAs(st.order[i]));
        LeadsStable(w, pins, st.picks, q, st.order[j].dir, st.order[j].manifest, FoundAs(st.order[i]));
        assert ParentInOrder(w, pins, b, i);
      } else {
        var j :| 0 <= j < |st.frames|
              && Leads(w, pins, st.picks, st.frames[j].dir, st.frames[j].manifest, FoundAs(st.order[i]));
        LeadsStable(w, pins, st.picks, q, st.frames[j].dir, st.frames[j].manifest, FoundAs(st.order[i]));
      }
    }
  }

  /** Putting a dependency of the top package on the stack. */
  lemma PushKeepsInv(w: World, pins: Pins, st: State, f: Frame)
    requires Inv(w, pins, st) && f.dir !in st.resolved && !OnStack(st.frames, f.dir) && HasManifest(w, f)
    requires st.frames == [] ==> st.order == []
    requires st.frames != [] ==> FrameLeads(w, pins, st.picks, st.frames[|st.frames| - 1], f.dir)
    ensures Inv(w, pins, st.(frames := st.frames + [f]))
  {
    hide FrameLeads, HasManifest, Leads, AllSettled, PickOK;
    var b := st.(frames := st.frames + [f]);
    forall i | 0 <= i < |b.frames| - 1 ensures FrameLeads(w, pins, b.picks, b.frames[i], b.frames[i + 1].dir) {
      if i + 1 < |st.frames| { assert b.frames[i + 1] == st.frames[i + 1]; }
    }
    forall i | 0 <= i < |b.order| ensures HasParent(w, pins, b, i) {
      PushKeepsParent(w, pins, st, f, i);
    }
    forall i | 0 <= i < |b.order| ensures Listed(w, b, b.order[i]) {
      assert Listed(w, st, st.order[i]);
    }
    PushKeepsOrder(w, pins, st, f);
  }

  lemma PushKeepsParent(w: World, pins: Pins, st: State, f: Frame, i: nat)
    requires i < |st.order| && HasParent(w, pins, st, i) && (st.frames == [] ==> st.order == [])
    ensures HasParent(w, pins, st.(frames := st.frames + [f]), i)
  {
    hide Leads, FoundAs;
    var b := st.(frames := st.frames + [f]);
    if ParentInOrder(w, pins, st, i) {
      assert ParentInOrder(w, pins, b, i);
    } else {
      var j :| 0 <= j < |st.frames|
            && Leads(w, pins, st.picks, st.frames[j].dir, st.frames[j].manifest, FoundAs(st.order[i]));
      assert b.frames[j] == st.frames[j];
    }
  }

  lemma PushKeepsOrder(w: World, pins: Pins, st: State, f: Frame)
    requires Topological(w, pins, st)
    ensures Topological(w, pins, st.(frames := st.frames + [f]))
  {
    var b := st.(frames := st.frames + [f]);
    forall i | 0 <= i < |b.order|
      ensures AllSettled(w, pins, b, b.order[..i], b.order[i].dir, b.order[i].manifest.deps)
    {
      SettledGrows(w, pins, st, b, st.order[..i], b.order[..i], b.order[i].dir, b.order[i].manifest.deps);
    }
  }

  /** The state once the package on top of the stack has been finished. */
  ghost function Popped(st: State, p: Package): State
    requires st.frames != []
  {
    st.(frames := st.frames[..|st.frames| - 1], order := st.order + [p], resolved := st.resolved[p.dir := p.manifest])
  }

  lemma PopGrows(w: World, pins: Pins, st: State, p: Package)
    requires Inv(w, pins, st) && st.frames != [] && st.frames[|st.frames| - 1] == Frame(p.dir, p.manifest)
    ensures Grows(st, Popped(st, p)) && p.dir !in st.resolved
  {
  }

  lemma PopKeepsTables(w: World, pins: Pins, st: State, p: Package)
    requires Inv(w, pins, st) && st.frames != [] && st.frames[|st.frames| - 1] == Frame(p.dir, p.manifest)
    requires p.name == p.manifest.name && w.manifest(p.dir, p.commit) == Some(p.manifest)
    ensures TablesAgree(w, Popped(st, p)) && StackOK(w, pins, Popped(st, p))
  {
    var b := Popped(st, p);
    forall i, j | 0 <= i < j < |b.order| ensures b.order[i].dir != b.order[j].dir {
      if j == |st.order| { assert Listed(w, st, st.order[i]); }
    }
    forall i | 0 <= i < |b.order| ensures Listed(w, b, b.order[i]) {
      if i < |st.order| { assert Listed(w, st, st.order[i]); }
    }
    forall k | k in b.resolved ensures InOrder(b.order, k) {
      if k == p.dir {
        assert b.order[|st.order|].dir == k;
      } else {
        InOrderGrows(st.order, b.order, k);
      }
    }
  }

  lemma PopKeepsOrder(w: World, pins: Pins, st: State, p: Package)
    requires Inv(w, pins, st) && st.frames != [] && st.frames[|st.frames| - 1] == Frame(p.dir, p.manifest)
    requires AllSettled(w, pins, st, st.order, p.dir, p.manifest.deps)
    ensures Topological(w, pins, Popped(st, p))
  {
    var b := Popped(st, p);
    PopGrows(w, pins, st, p);
    forall i | 0 <= i < |b.order|
      ensures AllSettled(w, pins, b, b.order[..i], b.order[i].dir, b.order[i].manifest.deps)
    {
      if i < |st.order| {
        assert b.order[..i] == st.order[..i];
        SettledGrows(w, pins, st, b, st.order[..i], b.order[..i], b.order[i].dir, b.order[i].manifest.deps);
      } else {
        assert b.order[..i] == st.order;
        SettledGrows(w, pins, st, b, st.order, b.order[..i], p.dir, p.manifest.deps);
      }
    }
  }

  lemma PopKeepsParent(w: World, pins: Pins, st: State, p: Package, i: nat)
    requires st.frames != [] && st.frames[|st.frames| - 1] == Frame(p.dir, p.manifest)
    requires i < |st.order| && HasParent(w, pins, st, i)
    ensures HasParent(w, pins, Popped(st, p), i)
  {
    var b := Popped(st, p);
    assert b.order[i] == st.order[i];
    if ParentInOrder(w, pins, st, i) {
      var j :| i < j < |st.order|
            && Leads(w, pins, st.picks, st.order[j].dir, st.order[j].manifest, FoundAs(st.order[i]));
      assert b.order[j] == st.order[j];
      assert ParentInOrder(w, pins, b, i);
    } else {
      var j :| 0 <= j < |st.frames|
            && Leads(w, pins, st.picks, st.frames[j].dir, st.frames[j].manifest, FoundAs(st.order[i]));
      if j == |st.frames| - 1 {
        assert b.order[|st.order|] == p;
        assert ParentInOrder(w, pins, b, i);
      } else {
        assert b.frames[j] == st.frames[j];
      }
    }
  }

  lemma PopKeepsInv(w: World, pins: Pins, st: State, p: Package)
    requires Inv(w, pins, st) && st.frames != [] && st.frames[|st.frames| - 1] == Frame(p.dir, p.manifest)
    requires p.name == p.manifest.name && w.manifest(p.dir, p.commit) == Some(p.manifest)
    requires AllSettled(w, pins, st, st.order, p.dir, p.manifest.deps)
    requires |st.frames| > 1 ==>
               var f := st.frames[|st.frames| - 2]; Leads(w, pins, st.picks, f.dir, f.manifest, FoundAs(p))
    ensures Inv(w, pins, Popped(st, p)) && Grows(st, Popped(st, p))
  {
    hide Listed, AllSettled, Leads, StackOK, TablesAgree, Topological, PicksOK;
    PopGrows(w, pins, st, p);
    PopKeepsTables(w, pins, st, p);
    PopKeepsOrder(w, pins, st, p);
    var b := Popped(st, p);
    forall i | 0 <= i < |b.order| ensures HasParent(w, pins, b, i) {
      if i < |st.order| {
        PopKeepsParent(w, pins, st, p, i);
      } else if |st.frames| > 1 {
        assert b.frames[|st.frames| - 2] == st.frames[|st.frames| - 2];
      }
    }
  }

  /* ----- the walk keeps it ----- */

  /** A dependency path that closes on itself: the stack, and an edge from its top
      back to a package on it. */
  ghost predicate ClosedPath(w: World, pins: Pins, st: State, dir: string) {
    && st.frames != [] && StackIsPath(w, pins, st) && OnStack(st.frames, dir)
    && FrameLeads(w, pins, st.picks, st.frames[|st.frames| - 1], dir)
  }

  /** What a failed walk leaves behind: its stack still starts where it started,
      and a circular-dependency error is backed by a closed path. */
  ghost predicate FailsWell(w: World, pins: Pins, from: State, r: Outcome) {
    r.Failed? ==>
      && from.frames <= r.st.frames
      && (r.error.Circular? ==> ClosedPath(w, pins, r.st, r.error.dir))
  }

  /** The edge by which a directory is visited; the root has none. */
  ghost predicate Entered(w: World, pins: Pins, st: State, dir: string, commit: string, edge: Edge) {
    && (st.frames == [] ==> st.order == [])
    && (st.frames != [] ==>
          var top := st.frames[|st.frames| - 1];
          var f := AtDir(w, dir, commit, edge);
          f.Some? ==> Leads(w, pins, st.picks, top.dir, top.manifest, f.value))
  }

  /** How the package to be visited next is reached from the top of the stack. */
  ghost predicate Reached(w: World, pins: Pins, st: State, f: Found) {
    && (st.frames == [] ==> st.order == [])
    && (st.frames != [] ==>
          var top := st.frames[|st.frames| - 1];
          Leads(w, pins, st.picks, top.dir, top.manifest, f) && FrameLeads(w, pins, st.picks, top, f.dir))
  }

  lemma {:induction false} VisitKeepsInv(w: World, pins: Pins, st: State, dir: string, commit: string, edge: Edge)
    requires Closed(w) && Inv(w, pins, st) && Entered(w, pins, st, dir, commit, edge)
    ensures var r := Visit(w, pins, st, dir, commit, edge);
            FailsWell(w, pins, st, r) && (r.Done? ==> Inv(w, pins, r.st) && Grows(st, r.st))
    decreases |Unvisited(w, st.frames)|, 0, 1
  {
    hide Visit, VisitDeps, Inv, Closed, Entered, Grows, Reached, OnStack, ClosedPath;
    VisitSkips(w, pins, st, dir, commit, edge);
    GrowsItself(st);
    var canonical := w.canonical(dir);
    if canonical.Some? && canonical.value !in st.resolved {
      var key := canonical.value;
      VisitStep(w, pins, st, dir, key, commit, edge);
      EnteredLeads(w, pins, st, dir, commit, edge, key);
      CircularCloses(w, pins, st, Found(key, commit, edge));
      CanonicalIsKnown(w, dir);
      var m := w.manifest(key, commit);
      if !OnStack(st.frames, key) && m.Some? { OpenedKeepsInv(w, pins, st, key, m.value, commit, edge); }
    }
  }

  lemma GrowsItself(st: State)
    ensures Grows(st, st)
  {
  }

  /** A package that is neither resolved nor on the stack, from its first
      dependency to its place in the order. */
  lemma {:induction false} OpenedKeepsInv(w: World, pins: Pins, st: State, key: string, m: Manifest, commit: string,
                                          edge: Edge)
    requires Closed(w) && Inv(w, pins, st) && Reached(w, pins, st, Found(key, commit, edge))
    requires key in w.dirs && key !in st.resolved && !OnStack(st.frames, key) && w.manifest(key, commit) == Some(m)
    ensures
      var d := VisitDeps(w, pins, st.(frames := st.frames + [Frame(key, m)]), 0);
      && FailsWell(w, pins, st, d)
      && (d.Done? ==>
            var done := Popped(d.st, Package(m.name, key, m, commit, edge));
            done.frames == st.frames && Inv(w, pins, done) && Grows(st, done))
    decreases |Unvisited(w, st.frames)|, 0, 0
  {
    hide VisitDeps, Inv, Leads, AllSettled, Closed, FrameLeads, ClosedPath, OnStack;
    var f := Frame(key, m);
    var st1 := st.(frames := st.frames + [f]);
    FewerUnvisited(w, st.frames, f);
    PushKeepsInv(w, pins, st, f);
    NoneToSettle(w, pins, st1, key, m);
    DepsKeepInv(w, pins, st1, 0);
    var d := VisitDeps(w, pins, st1, 0);
    if d.Done? {
      var p := Package(m.name, key, m, commit, edge);
      EnteredStable(w, pins, st, d.st, key, commit, edge);
      PopKeepsInv(w, pins, d.st, p);
      GrowsTransitive(st, d.st, Popped(d.st, p));
    }
  }

  lemma CanonicalIsKnown(w: World, dir: string)
    requires Closed(w) && w.canonical(dir).Some?
    ensures w.canonical(dir).value in w.dirs
  {
  }

  lemma NoneToSettle(w: World, pins: Pins, st: State, dir: string, m: Manifest)
    ensures AllSettled(w, pins, st, st.order, dir, m.deps[..0])
  {
  }

  lemma GrowsTransitive(a: State, b: State, c: State)
    requires Extends(a.picks, b.picks) && a.order <= b.order && Grows(b, c)
    requires forall k :: k in a.resolved ==> k in b.resolved && b.resolved[k] == a.resolved[k]
    ensures Grows(a, c)
  {
  }

  lemma EnteredLeads(w: World, pins: Pins, st: State, dir: string, commit: string, edge: Edge, key: string)
    requires Entered(w, pins, st, dir, commit, edge) && w.canonical(dir) == Some(key)
    ensures Reached(w, pins, st, Found(key, commit, edge))
  {
    hide Leads;
    if st.frames != [] {
      assert AtDir(w, dir, commit, edge) == Some(Found(key, commit, edge));
    }
  }

  lemma EnteredStable(w: World, pins: Pins, st: State, later: State, key: string, commit: string, edge: Edge)
    requires st.frames != [] ==>
               Leads(w, pins, st.picks, st.frames[|st.frames| - 1].dir, st.frames[|st.frames| - 1].manifest,
                     Found(key, commit, edge))
    requires Extends(st.picks, later.picks) && |later.frames| == |st.frames| + 1 && st.frames <= later.frames
    ensures |later.frames| > 1 ==>
              var f := later.frames[|later.frames| - 2];
              Leads(w, pins, later.picks, f.dir, f.manifest, Found(key, commit, edge))
  {
    if st.frames != [] {
      var top := st.frames[|st.frames| - 1];
      LeadsStable(w, pins, st.picks, later.picks, top.dir, top.manifest, Found(key, commit, edge));
      assert later.frames[|st.frames| - 1] == top;
    }
  }

  lemma CircularCloses(w: World, pins: Pins, st: State, f: Found)
    requires Inv(w, pins, st) && Reached(w, pins, st, f)
    ensures OnStack(st.frames, f.dir) ==> ClosedPath(w, pins, st, f.dir)
  {
    hide Inv, Leads, FrameLeads, StackIsPath;
    InvHasPath(w, pins, st);
  }

  lemma InvHasPath(w: World, pins: Pins, st: State)
    requires Inv(w, pins, st)
    ensures StackIsPath(w, pins, st)
  {
  }

  lemma {:induction false} DepsKeepInv(w: World, pins: Pins, st: State, i: nat)
    requires Closed(w) && Inv(w, pins, st) && st.frames != []
    requires i <= |st.frames[|st.frames| - 1].manifest.deps|
    requires var top := st.frames[|st.frames| - 1];
             AllSettled(w, pins, st, st.order, top.dir, top.manifest.deps[..i])
    ensures
      var r := VisitDeps(w, pins, st, i);
      var top := st.frames[|st.frames| - 1];
      && FailsWell(w, pins, st, r)
      && (r.Done? ==> Inv(w, pins, r.st) && Grows(st, r.st)
                      && AllSettled(w, pins, r.st, r.st.order, top.dir, top.manifest.deps))
    decreases |Unvisited(w, st.frames)|, 1, |st.frames[|st.frames| - 1].manifest.deps| - i
  {
    hide Visit, VisitDeps, Inv, Leads, AllSettled, Locate, Grows;
    var top := st.frames[|st.frames| - 1];
    if i == |top.manifest.deps| {
      NoMoreDeps(w, pins, st);
      assert top.manifest.deps[..i] == top.manifest.deps;
      GrowsReflexive(st);
    } else {
      DepsStep(w, pins, st, i);
      var dep := top.manifest.deps[i];
      var t := Locate(w, pins, st.picks, top.dir, top.manifest.name, dep);
      LocateIsNotCircular(w, pins, st.picks, top.dir, top.manifest.name, dep);
      if t.At? {
        var st1 := st.(picks := t.picks);
        LocatedIsEntered(w, pins, st, i);
        VisitKeepsInv(w, pins, st1, t.dir, t.commit, t.edge);
        var r := Visit(w, pins, st1, t.dir, t.commit, t.edge);
        if r.Done? && r.st.resolved[w.canonical(t.dir).value].hasLib {
          NextSettled(w, pins, st, i, r.st);
          DepsKeepInv(w, pins, r.st, i + 1);
          GrowsThrice(st, st1, r.st, VisitDeps(w, pins, r.st, i + 1));
        }
      }
    }
  }

  lemma GrowsReflexive(a: State)
    ensures Grows(a, a)
  {
  }

  lemma GrowsThrice(a: State, b: State, c: State, r: Outcome)
    requires Grows(a, b) && Grows(b, c) && (r.Done? ==> Grows(c, r.st))
    ensures r.Done? ==> Grows(a, r.st)
  {
  }

  /** Locating the i-th dependency of the top package prepares the visit to it. */
  lemma LocatedIsEntered(w: World, pins: Pins, st: State, i: nat)
    requires Inv(w, pins, st) && st.frames != [] && i < |st.frames[|st.frames| - 1].manifest.deps|
    requires var top := st.frames[|st.frames| - 1];
             Locate(w, pins, st.picks, top.dir, top.manifest.name, top.manifest.deps[i]).At?
    ensures
      var top := st.frames[|st.frames| - 1];
      var t := Locate(w, pins, st.picks, top.dir, top.manifest.name, top.manifest.deps[i]);
      var st1 := st.(picks := t.picks);
      Inv(w, pins, st1) && Grows(st, st1) && Entered(w, pins, st1, t.dir, t.commit, t.edge)
  {
    var top := st.frames[|st.frames| - 1];
    InvHasPicks(w, pins, st);
    hide Inv, Locate;
    var t := Locate(w, pins, st.picks, top.dir, top.manifest.name, top.manifest.deps[i]);
    LocateLooksUp(w, pins, st.picks, top.dir, top.manifest.name, top.manifest.deps[i]);
    PickKeepsInv(w, pins, st, t.picks);
  }

  lemma InvHasPicks(w: World, pins: Pins, st: State)
    requires Inv(w, pins, st)
    ensures PicksOK(w, pins, st.picks)
  {
  }

  /** After the visit the dependency is settled, and so are the ones before it. */
  lemma NextSettled(w: World, pins: Pins, st: State, i: nat, later: State)
    requires st.frames != [] && i < |st.frames[|st.frames| - 1].manifest.deps| && Inv(w, pins, later)
    requires var top := st.frames[|st.frames| - 1];
             AllSettled(w, pins, st, st.order, top.dir, top.manifest.deps[..i])
    requires
      var top := st.frames[|st.frames| - 1];
      var t := Locate(w, pins, st.picks, top.dir, top.manifest.name, top.manifest.deps[i]);
      && t.At? && Grows(st, st.(picks := t.picks)) && Grows(st.(picks := t.picks), later)
      && w.canonical(t.dir).Some? && w.canonical(t.dir).value in later.resolved
      && later.resolved[w.canonical(t.dir).value].hasLib
    ensures var top := st.frames[|st.frames| - 1];
            AllSettled(w, pins, later, later.order, top.dir, top.manifest.deps[..i + 1])
  {
    hide Locate;
    var top := st.frames[|st.frames| - 1];
    var deps := top.manifest.deps;
    var t := Locate(w, pins, st.picks, top.dir, top.manifest.name, deps[i]);
    SettledGrows(w, pins, st, later, st.order, later.order, top.dir, deps[..i]);
    LocateLooksUp(w, pins, st.picks, top.dir, top.manifest.name, deps[i]);
    LookupStable(w, pins, t.picks, later.picks, top.dir, deps[i]);
    var next := deps[..i + 1];
    forall j | 0 <= j < |next| ensures Settled(w, pins, later.picks, later.order, later.resolved, top.dir, next[j]) {
      if j < i {
        assert deps[..i][j] == next[j];
        assert Settled(w, pins, later.picks, later.order, later.resolved, top.dir, deps[..i][j]);
      } else {
        assert next[j] == deps[i];
      }
    }
  }

  lemma LocateIsNotCircular(w: World, pins: Pins, picks: Picks, dir: string, requirer: string, dep: Dep)
    ensures var t := Locate(w, pins, picks, dir, requirer, dep); t.Bad? ==> !t.error.Circular?
  {
  }
}
