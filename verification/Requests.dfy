/** The dependencies that a resolution meets, in the order in which it meets them,
    and what they make it pick. */
module Requests {
  import opened Options
  import opened SemVer
  import opened Resolve
  import opened Resolution

  /** A dependency, and the package whose manifest has it. */
  datatype Request = Request(dir: string, requirer: string, dep: Dep)

  /** The dependencies met by a visit. */
  ghost function Asked(w: World, pins: Pins, st: State, dir: string, commit: string, edge: Edge): seq<Request>
    requires Closed(w)
    decreases |Unvisited(w, st.frames)|, 0, 0
  {
    match w.canonical(dir)
    case None => []
    case Some(key) =>
      if key in st.resolved || OnStack(st.frames, key) || w.manifest(key, commit).None? then []
      else
        var f := Frame(key, w.manifest(key, commit).value);
        FewerUnvisited(w, st.frames, f);
        AskedByDeps(w, pins, st.(frames := st.frames + [f]), 0)
  }

  /** Those met from the i-th dependency on of the package on top of the stack. */
  ghost function AskedByDeps(w: World, pins: Pins, st: State, i: nat): seq<Request>
    requires Closed(w) && st.frames != [] && i <= |st.frames[|st.frames| - 1].manifest.deps|
    decreases |Unvisited(w, st.frames)|, 1, |st.frames[|st.frames| - 1].manifest.deps| - i
  {
    var top := st.frames[|st.frames| - 1];
    if i == |top.manifest.deps| then []
    else
      var dep := top.manifest.deps[i];
      var t := Locate(w, pins, st.picks, top.dir, top.manifest.name, dep);
      if t.Bad? then [RequestOf(top, dep)]
      else
        var r := Visit(w, pins, st.(picks := t.picks), t.dir, t.commit, t.edge);
        [RequestOf(top, dep)] + Asked(w, pins, st.(picks := t.picks), t.dir, t.commit, t.edge)
        + if r.Done? then AskedByDeps(w, pins, r.st, i + 1) else []
  }

  function RequestOf(f: Frame, dep: Dep): Request { Request(f.dir, f.manifest.name, dep) }

  predicate Wants(a: Request, name: string) { a.dep.name == name && a.dep.kind.Registry? }

  /** The first request for a name in the registry is the j-th. */
  predicate FirstFor(a: seq<Request>, name: string, j: int) {
    0 <= j < |a| && Wants(a[j], name) && forall i :: 0 <= i < j ==> !Wants(a[i], name)
  }

  ghost predicate PickedFor(a: seq<Request>, name: string, p: Pick) {
    exists j :: FirstFor(a, name, j) && a[j].dep.kind.req == p.req && a[j].requirer == p.requirer
  }

  /** The requests account for the picks: old ones stay, every name asked for has
      one, and a new one is made for the first request. */
  ghost predicate Accounts(a: seq<Request>, before: Picks, after: Picks) {
    && Extends(before, after)
    && (forall n :: n in after && n !in before ==> PickedFor(a, n, after[n]))
    && (forall j :: 0 <= j < |a| && a[j].dep.kind.Registry? ==> a[j].dep.name in after)
  }

  lemma AccountsForNone(p: Picks)
    ensures Accounts([], p, p)
  {
  }

  lemma AccountsForBoth(a: seq<Request>, b: seq<Request>, p: Picks, q: Picks, r: Picks)
    requires Accounts(a, p, q) && Accounts(b, q, r)
    ensures Accounts(a + b, p, r)
  {
    forall n | n in r && n !in p ensures PickedFor(a + b, n, r[n]) {
      if n in q {
        var j :| FirstFor(a, n, j) && a[j].dep.kind.req == q[n].req && a[j].requirer == q[n].requirer;
        assert FirstFor(a + b, n, j);
      } else {
        var j :| FirstFor(b, n, j) && b[j].dep.kind.req == r[n].req && b[j].requirer == r[n].requirer;
        forall i | 0 <= i < |a| + j ensures !Wants((a + b)[i], n) {
          if i < |a| { assert (a + b)[i] == a[i]; } else { assert (a + b)[i] == b[i - |a|]; }
        }
        assert FirstFor(a + b, n, |a| + j);
      }
    }
  }

  lemma LocateAccounts(w: World, pins: Pins, picks: Picks, f: Frame, dep: Dep)
    requires Locate(w, pins, picks, f.dir, f.manifest.name, dep).At?
    ensures Accounts([RequestOf(f, dep)], picks, Locate(w, pins, picks, f.dir, f.manifest.name, dep).picks)
  {
    hide Choose;
    var t := Locate(w, pins, picks, f.dir, f.manifest.name, dep);
    var a := [RequestOf(f, dep)];
    if dep.kind.Registry? && dep.name !in picks { assert FirstFor(a, dep.name, 0); }
  }

  /** Requests come from dependencies of packages that the call lists, or of one more. */
  ghost predicate FromListed(a: seq<Request>, order: seq<Package>, top: seq<Frame>) {
    forall j :: 0 <= j < |a| ==> IsListed(a[j], order, top)
  }

  ghost predicate IsListed(a: Request, order: seq<Package>, top: seq<Frame>) {
    || (exists i :: 0 <= i < |order| && order[i].dir == a.dir && order[i].manifest.name == a.requirer
                    && a.dep in order[i].manifest.deps)
    || (exists i :: 0 <= i < |top| && top[i].dir == a.dir && top[i].manifest.name == a.requirer
                    && a.dep in top[i].manifest.deps)
  }

  /** Every dependency of the packages from the n-th on has been asked for. */
  ghost predicate AllAsked(a: seq<Request>, order: seq<Package>, n: nat) {
    forall i, k :: n <= i < |order| && 0 <= k < |order[i].manifest.deps| ==>
      Request(order[i].dir, order[i].manifest.name, order[i].manifest.deps[k]) in a
  }

  /** What a finished call has asked for. */
  ghost predicate Explains(a: seq<Request>, before: State, after: State, top: seq<Frame>) {
    && Accounts(a, before.picks, after.picks) && before.order <= after.order
    && FromListed(a, after.order, top) && AllAsked(a, after.order, |before.order|)
  }

  lemma ListedLater(a: seq<Request>, x: seq<Package>, y: seq<Package>, top: seq<Frame>)
    requires FromListed(a, x, top) && x <= y
    ensures FromListed(a, y, top)
  {
    forall j | 0 <= j < |a| ensures IsListed(a[j], y, top) {
      assert IsListed(a[j], x, top);
      if i :| 0 <= i < |x| && x[i].dir == a[j].dir && x[i].manifest.name == a[j].requirer
              && a[j].dep in x[i].manifest.deps {
        assert y[i] == x[i];
      }
    }
  }

  lemma ExplainsBoth(a: seq<Request>, b: seq<Request>, s: State, t: State, u: State, top: seq<Frame>)
    requires Explains(a, s, t, top) && Explains(b, t, u, top)
    ensures Explains(a + b, s, u, top)
  {
    hide Accounts, IsListed;
    AccountsForBoth(a, b, s.picks, t.picks, u.picks);
    ListedLater(a, t.order, u.order, top);
    forall i, k | |s.order| <= i < |u.order| && 0 <= k < |u.order[i].manifest.deps|
      ensures Request(u.order[i].dir, u.order[i].manifest.name, u.order[i].manifest.deps[k]) in a + b
    {
      if i < |t.order| { assert u.order[i] == t.order[i]; }
    }
  }

  /** A finished package takes the place of its frame. */
  lemma ExplainsFinished(a: seq<Request>, s: State, t: State, f: Frame, p: Package)
    requires Explains(a, s, t, [f]) && p.dir == f.dir && p.manifest == f.manifest
    requires forall k :: 0 <= k < |f.manifest.deps| ==> RequestOf(f, f.manifest.deps[k]) in a
    ensures Explains(a, s, t.(order := t.order + [p]), [])
  {
    hide Accounts;
    var order := t.order + [p];
    forall j | 0 <= j < |a| ensures IsListed(a[j], order, []) {
      assert IsListed(a[j], t.order, [f]);
      if i :| 0 <= i < |t.order| && t.order[i].dir == a[j].dir && t.order[i].manifest.name == a[j].requirer
              && a[j].dep in t.order[i].manifest.deps {
        assert order[i] == t.order[i];
      } else {
        assert order[|t.order|] == p;
      }
    }
    forall i, k | |s.order| <= i < |order| && 0 <= k < |order[i].manifest.deps|
      ensures Request(order[i].dir, order[i].manifest.name, order[i].manifest.deps[k]) in a
    {
      if i < |t.order| { assert order[i] == t.order[i]; } else { assert RequestOf(f, f.manifest.deps[k]) in a; }
    }
  }

  lemma WeakenTop(a: seq<Request>, s: State, t: State, top: seq<Frame>)
    requires Explains(a, s, t, [])
    ensures Explains(a, s, t, top)
  {
    hide Accounts;
    forall j | 0 <= j < |a| ensures IsListed(a[j], t.order, top) {
      assert IsListed(a[j], t.order, []);
    }
  }

  lemma ExplainsNothing(s: State)
    ensures Explains([], s, s, [])
  {
    AccountsForNone(s.picks);
  }

  lemma AskedStep(w: World, pins: Pins, st: State, dir: string, key: string, commit: string, edge: Edge)
    requires Closed(w) && w.canonical(dir) == Some(key)
    ensures key in st.resolved ==> Asked(w, pins, st, dir, commit, edge) == []
    ensures key !in st.resolved && !OnStack(st.frames, key) && w.manifest(key, commit).Some? ==>
              var f := Frame(key, w.manifest(key, commit).value);
              Asked(w, pins, st, dir, commit, edge) == AskedByDeps(w, pins, st.(frames := st.frames + [f]), 0)
  {
    hide AskedByDeps, Visit, Closed;
  }

  lemma AskedByDepsStep(w: World, pins: Pins, st: State, i: nat)
    requires Closed(w) && st.frames != [] && i < |st.frames[|st.frames| - 1].manifest.deps|
    ensures
      var top := st.frames[|st.frames| - 1];
      var dep := top.manifest.deps[i];
      var t := Locate(w, pins, st.picks, top.dir, top.manifest.name, dep);
      t.At? ==>
        var r := Visit(w, pins, st.(picks := t.picks), t.dir, t.commit, t.edge);
        r.Done? ==>
          AskedByDeps(w, pins, st, i)
            == [RequestOf(top, dep)] + Asked(w, pins, st.(picks := t.picks), t.dir, t.commit, t.edge)
               + AskedByDeps(w, pins, r.st, i + 1)
  {
    hide Asked, Visit, Closed, Locate;
  }

  lemma {:induction false} VisitExplained(w: World, pins: Pins, st: State, dir: string, commit: string, edge: Edge)
    requires Closed(w) && Visit(w, pins, st, dir, commit, edge).Done?
    ensures Explains(Asked(w, pins, st, dir, commit, edge), st, Visit(w, pins, st, dir, commit, edge).st, [])
    decreases |Unvisited(w, st.frames)|, 0, 0
  {
    hide Visit, VisitDeps, Asked, AskedByDeps, Closed, Explains, OnStack;
    VisitSkips(w, pins, st, dir, commit, edge);
    var key := w.canonical(dir).value;
    AskedStep(w, pins, st, dir, key, commit, edge);
    if key in st.resolved {
      ExplainsNothing(st);
    } else {
      VisitStep(w, pins, st, dir, key, commit, edge);
      CanonicalIsKnown(w, dir);
      var m := w.manifest(key, commit).value;
      var f := Frame(key, m);
      FewerUnvisited(w, st.frames, f);
      var st1 := st.(frames := st.frames + [f]);
      DepsExplained(w, pins, st1, 0);
      var d := VisitDeps(w, pins, st1, 0).st;
      var a := AskedByDeps(w, pins, st1, 0);
      SameTables(a, st1, st, d, [f]);
      ExplainsFinished(a, st, d, f, Package(m.name, key, m, commit, edge));
      SameResult(a, st, d.(order := d.order + [Package(m.name, key, m, commit, edge)]),
                 Visit(w, pins, st, dir, commit, edge).st, []);
    }
  }

  lemma SameTables(a: seq<Request>, s: State, t: State, u: State, top: seq<Frame>)
    requires Explains(a, s, u, top) && s.picks == t.picks && s.order == t.order
    ensures Explains(a, t, u, top)
  {
  }

  lemma SameResult(a: seq<Request>, s: State, t: State, u: State, top: seq<Frame>)
    requires Explains(a, s, t, top) && t.picks == u.picks && t.order == u.order
    ensures Explains(a, s, u, top)
  {
  }

  lemma {:induction false} DepsExplained(w: World, pins: Pins, st: State, i: nat)
    requires Closed(w) && st.frames != [] && i <= |st.frames[|st.frames| - 1].manifest.deps|
    requires VisitDeps(w, pins, st, i).Done?
    ensures Explains(AskedByDeps(w, pins, st, i), st, VisitDeps(w, pins, st, i).st, [st.frames[|st.frames| - 1]])
    ensures
      var top := st.frames[|st.frames| - 1];
      forall k :: i <= k < |top.manifest.deps| ==> RequestOf(top, top.manifest.deps[k]) in AskedByDeps(w, pins, st, i)
    decreases |Unvisited(w, st.frames)|, 1, |st.frames[|st.frames| - 1].manifest.deps| - i
  {
    hide Visit, VisitDeps, Asked, AskedByDeps, Closed, Explains, Locate;
    var top := st.frames[|st.frames| - 1];
    if i == |top.manifest.deps| {
      NoMoreDeps(w, pins, st);
      NoMoreAsked(w, pins, st);
      ExplainsNothing(st);
      WeakenTop([], st, st, [top]);
    } else {
      DepsStep(w, pins, st, i);
      AskedByDepsStep(w, pins, st, i);
      var dep := top.manifest.deps[i];
      var t := Locate(w, pins, st.picks, top.dir, top.manifest.name, dep);
      var st1 := st.(picks := t.picks);
      var r := Visit(w, pins, st1, t.dir, t.commit, t.edge);
      var (a, b) := (Asked(w, pins, st1, t.dir, t.commit, t.edge), AskedByDeps(w, pins, r.st, i + 1));
      LocateExplains(w, pins, st, top, dep);
      VisitExplained(w, pins, st1, t.dir, t.commit, t.edge);
      WeakenTop(a, st1, r.st, [top]);
      DepsExplained(w, pins, r.st, i + 1);
      ExplainsBoth([RequestOf(top, dep)], a, st, st1, r.st, [top]);
      ExplainsBoth([RequestOf(top, dep)] + a, b, st, r.st, VisitDeps(w, pins, r.st, i + 1).st, [top]);
    }
  }

  lemma NoMoreAsked(w: World, pins: Pins, st: State)
    requires Closed(w) && st.frames != []
    ensures AskedByDeps(w, pins, st, |st.frames[|st.frames| - 1].manifest.deps|) == []
  {
  }

  lemma LocateExplains(w: World, pins: Pins, st: State, top: Frame, dep: Dep)
    requires Locate(w, pins, st.picks, top.dir, top.manifest.name, dep).At? && dep in top.manifest.deps
    ensures Explains([RequestOf(top, dep)], st,
                     st.(picks := Locate(w, pins, st.picks, top.dir, top.manifest.name, dep).picks), [top])
  {
    hide Accounts, Locate;
    LocateAccounts(w, pins, st.picks, top, dep);
    assert [top][0] == top;
  }

  /** All requests of a resolution. */
  ghost function AllRequests(w: World, pins: Pins, rootDir: string): seq<Request>
    requires Closed(w)
  {
    if w.canonical(rootDir).None? then [] else Asked(w, pins, EMPTY, w.canonical(rootDir).value, "", ROOT_EDGE)
  }

  /** Main result: the requests of a resolution are the dependencies of the listed
      packages, no others and none left out; and each pick was made for the first
      of them that wants its name, with that one's requirement and requirer. */
  lemma PicksAreForFirstRequests(w: World, pins: Pins, rootDir: string)
    requires Closed(w) && ResolveGraph(w, pins, rootDir).Done?
    ensures
      var (a, st) := (AllRequests(w, pins, rootDir), ResolveGraph(w, pins, rootDir).st);
      && FromListed(a, st.order, []) && AllAsked(a, st.order, 0)
      && (forall n :: n in st.picks ==> PickedFor(a, n, st.picks[n]))
      && (forall j :: 0 <= j < |a| && a[j].dep.kind.Registry? ==> a[j].dep.name in st.picks)
  {
    hide Visit, Asked;
    VisitExplained(w, pins, EMPTY, w.canonical(rootDir).value, "", ROOT_EDGE);
  }
}
