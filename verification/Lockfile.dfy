/** The lockfile: its text, written package by package, and the pins read back
    from it.  The reader follows the TOML grammar for what such a file holds:
    comments, `[[package]]` headers, and bare keys with basic strings. */
module Lockfile {
  import opened Options
  import opened SemVer
  import opened Resolve

  /* ----- basic strings ----- */

  /** Characters that a basic string may hold: all but control characters. */
  predicate Plain(c: char) { c == '\t' || (' ' <= c && c != '\U{7F}') }

  predicate AllPlain(s: string) { forall i :: 0 <= i < |s| ==> Plain(s[i]) }

  function Escaped(c: char): string { if c == '"' || c == '\\' then ['\\', c] else [c] }

  function Escape(s: string): string { if s == "" then "" else Escape(s[..|s| - 1]) + Escaped(s[|s| - 1]) }

  method EscapeTomlString(s: string) returns (r: string)
    ensures r == Escape(s)
  {
    r := "";
    for i := 0 to |s|
      invariant r == Escape(s[..i])
    {
      if s[i] == '"' || s[i] == '\\' { r := r + ['\\']; }
      r := r + [s[i]];
      assert s[..i + 1][..i] == s[..i];
    }
    assert s[..|s|] == s;
  }

  /** The character that a backslash and `c` stand for. */
  function Unescaped(c: char): Option<char> {
    match c
    case '"' => Some('"')
    case '\\' => Some('\\')
    case 'b' => Some('\U{08}')
    case 't' => Some('\t')
    case 'n' => Some('\n')
    case 'f' => Some('\U{0C}')
    case 'r' => Some('\r')
    case _ => None
  }

  /** Reads a basic string up to its closing quote: the value and what follows. */
  function ReadString(t: string): (r: Option<(string, string)>)
    ensures r.Some? ==> |r.value.1| < |t|
  {
    if t == "" then None
    else if t[0] == '"' then Some(("", t[1..]))
    else if t[0] == '\\' then
      if |t| == 1 then None
      else
        var (c, tail) := (Unescaped(t[1]), ReadString(t[2..]));
        if c.None? || tail.None? then None else Some(([c.value] + tail.value.0, tail.value.1))
    else if !Plain(t[0]) then None
    else
      var tail := ReadString(t[1..]);
      if tail.None? then None else Some(([t[0]] + tail.value.0, tail.value.1))
  }

  lemma {:induction false} EscapeFromFront(s: string)
    requires s != ""
    ensures Escape(s) == Escaped(s[0]) + Escape(s[1..])
  {
    if |s| > 1 {
      var init := s[..|s| - 1];
      EscapeFromFront(init);
      assert init[1..] == s[1..][..|s| - 2];
    } else {
      assert s[..0] == "" && s[1..] == "";
    }
  }

  lemma EscapedReads(c: char, tail: string)
    ensures
      ReadString(Escaped(c) + tail) ==
        if !Plain(c) || ReadString(tail).None? then None
        else Some(([c] + ReadString(tail).value.0, ReadString(tail).value.1))
  {
    var t := Escaped(c) + tail;
    assert t[|Escaped(c)|..] == tail;
    assert t[0] == Escaped(c)[0];
  }

  /** Main result on strings: an escaped value reads back as itself if and only if
      it has no control characters; otherwise nothing can be read. */
  lemma {:induction false} EscapeRoundTrip(s: string, rest: string)
    ensures ReadString(Escape(s) + "\"" + rest) == if AllPlain(s) then Some((s, rest)) else None
  {
    if s == "" {
      assert Escape(s) + "\"" + rest == "\"" + rest;
    } else {
      hide ReadString, Escaped, Plain;
      EscapeFromFront(s);
      EscapeRoundTrip(s[1..], rest);
      var tail := Escape(s[1..]) + "\"" + rest;
      EscapedReads(s[0], tail);
      assert Escape(s) + "\"" + rest == Escaped(s[0]) + tail;
      assert s == [s[0]] + s[1..];
      assert AllPlain(s) <==> Plain(s[0]) && AllPlain(s[1..]);
    }
  }

  /* ----- documents ----- */

  type Table = map<string, string>

  predicate IsKeyChar(c: char) { 'a' <= c <= 'z' || 'A' <= c <= 'Z' || '0' <= c <= '9' || c == '_' || c == '-' }

  predicate IsKey(k: string) { k != "" && forall i :: 0 <= i < |k| ==> IsKeyChar(k[i]) }

  function KeyLength(t: string): (n: nat)
    ensures n <= |t| && forall i :: 0 <= i < n ==> IsKeyChar(t[i])
  {
    if t == "" || !IsKeyChar(t[0]) then 0 else 1 + KeyLength(t[1..])
  }

  function AfterLine(t: string): (r: string)
    ensures |r| <= |t|
  {
    if t == "" then "" else if t[0] == '\n' then t else AfterLine(t[1..])
  }

  const HEADER := "[[package]]"

  const IS := " = \""

  /** One `key = "value"` pair: the key, the value and what follows. */
  function ReadPair(t: string): (r: Option<(string, string, string)>)
    ensures r.Some? ==> |r.value.2| < |t|
  {
    var n := KeyLength(t);
    if n == 0 || !(IS <= t[n..]) then None
    else
      var value := ReadString(t[n + |IS|..]);
      if value.None? then None else Some((t[..n], value.value.0, value.value.1))
  }

  function Put(tables: seq<Table>, key: string, value: string): seq<Table>
    requires tables != []
  {
    tables[|tables| - 1 := tables[|tables| - 1][key := value]]
  }

  /** The `[[package]]` tables of a document, or None if it is malformed. */
  function ReadTables(t: string, tables: seq<Table>): Option<seq<Table>>
    decreases |t|
  {
    if t == "" then Some(tables)
    else if t[0] == '\n' then ReadTables(t[1..], tables)
    else if t[0] == '#' then ReadTables(AfterLine(t[1..]), tables)
    else if HEADER <= t then
      if AtLineEnd(t[|HEADER|..]) then ReadTables(t[|HEADER|..], tables + [map[]]) else None
    else
      var pair := ReadPair(t);
      if pair.None? || tables == [] || pair.value.0 in tables[|tables| - 1] || !AtLineEnd(pair.value.2) then None
      else ReadTables(pair.value.2, Put(tables, pair.value.0, pair.value.1))
  }

  predicate AtLineEnd(t: string) { t == "" || t[0] == '\n' }

  /* ----- writing ----- */

  const NOTE := " Auto-generated by ebpm - do not edit by hand."

  const COMMENT := "#" + NOTE + "\n"

  function Line(key: string, value: string): string { key + IS + Escape(value) + "\"\n" }

  function IfAny(key: string, value: string): string { if value == "" then "" else Line(key, value) }

  /** The part of an entry that every package has. */
  function EntryStart(p: Package): string {
    "\n" + HEADER + "\n" + Line("name", p.name) + Line("path", p.dir) + IfAny("commit", p.commit)
  }

  /** The part of an entry that only a registry package has. */
  function RegistryLines(e: Edge): string {
    if e.kind == RegistryEdge then Line("version", e.version) + Line("git", e.git) + IfAny("ref", e.ref) else ""
  }

  function Entry(p: Package): string { EntryStart(p) + RegistryLines(p.edge) }

  function Entries(order: seq<Package>): string {
    if order == [] then "" else Entries(order[..|order| - 1]) + Entry(order[|order| - 1])
  }

  function AllButLast(order: seq<Package>): seq<Package> {
    if order == [] then [] else order[..|order| - 1]
  }

  /** The whole file: every package but the root, which comes last. */
  function LockText(order: seq<Package>): string { COMMENT + Entries(AllButLast(order)) }

  method WriteLine(out: string, key: string, value: string) returns (r: string)
    ensures r == out + Line(key, value)
  {
    var escaped := EscapeTomlString(value);
    r := out + key + IS + escaped + "\"\n";
    assert r == out + Line(key, value);
  }

  method WriteEntry(before: string, pkg: Package) returns (out: string)
    ensures out == before + Entry(pkg)
  {
    hide Line;
    out := before + "\n" + HEADER + "\n";
    out := WriteLine(out, "name", pkg.name);
    out := WriteLine(out, "path", pkg.dir);
    if pkg.commit != "" { out := WriteLine(out, "commit", pkg.commit); }
    assert out == before + EntryStart(pkg);
    if pkg.edge.kind == RegistryEdge {
      out := WriteLine(out, "version", pkg.edge.version);
      out := WriteLine(out, "git", pkg.edge.git);
      if pkg.edge.ref != "" { out := WriteLine(out, "ref", pkg.edge.ref); }
    }
    assert out == before + (EntryStart(pkg) + RegistryLines(pkg.edge));
  }

  method WriteLockfile(order: seq<Package>) returns (out: string)
    ensures out == LockText(order)
  {
    hide Entry;
    out := COMMENT;
    var i := 0;
    while i + 1 < |order|
      invariant 0 <= i && (i < |order| || i == 0)
      invariant out == COMMENT + Entries(order[..i])
    {
      out := WriteEntry(out, order[i]);
      i := i + 1;
      assert order[..i][..i - 1] == order[..i - 1];
      assert out == COMMENT + (Entries(order[..i - 1]) + Entry(order[i - 1]));
    }
    assert order[..i] == AllButLast(order);
  }

  /* ----- reading pins ----- */

  function Get(t: Table, key: string): string { if key in t then t[key] else "" }

  function PinOf(t: Table): Pin { Pin(Get(t, "commit"), Get(t, "version"), Get(t, "git"), Get(t, "ref")) }

  predicate IsPin(t: Table) { "name" in t && (Get(t, "commit") != "" || Get(t, "git") != "") }

  /** Later tables win. */
  function PinsOf(tables: seq<Table>): Pins {
    if tables == [] then map[]
    else
      var (before, t) := (PinsOf(tables[..|tables| - 1]), tables[|tables| - 1]);
      if IsPin(t) then before[t["name"] := PinOf(t)] else before
  }

  /** A malformed file pins nothing. */
  function PinsIn(text: string): Pins {
    match ReadTables(text, [])
    case None => map[]
    case Some(tables) => PinsOf(tables)
  }

  method ReadLockfilePins(text: string) returns (pins: Pins)
    ensures pins == PinsIn(text)
  {
    pins := map[];
    var parsed := ReadTables(text, []);
    if parsed.None? { return; }
    var tables := parsed.value;
    for i := 0 to |tables|
      invariant pins == PinsOf(tables[..i])
    {
      var t := tables[i];
      assert tables[..i + 1][..i] == tables[..i];
      if "name" !in t { continue; }
      var pin := PinOf(t);
      if pin.commit != "" || pin.git != "" { pins := pins[t["name"] := pin]; }
    }
    assert tables[..|tables|] == tables;
  }

  /* ----- reading back what was written ----- */

  function PutIfAny(t: Table, key: string, value: string): Table { if value == "" then t else t[key := value] }

  /** The table that a package is written as. */
  function TableOf(p: Package): Table {
    var t := PutIfAny(map["name" := p.name, "path" := p.dir], "commit", p.commit);
    if p.edge.kind == RegistryEdge
    then PutIfAny(t["version" := p.edge.version]["git" := p.edge.git], "ref", p.edge.ref) else t
  }

  function TablesOf(order: seq<Package>): seq<Table> {
    seq(|order|, i requires 0 <= i < |order| => TableOf(order[i]))
  }

  predicate PlainPackage(p: Package) {
    && AllPlain(p.name) && AllPlain(p.dir) && AllPlain(p.commit)
    && (p.edge.kind == RegistryEdge ==> AllPlain(p.edge.version) && AllPlain(p.edge.git) && AllPlain(p.edge.ref))
  }

  predicate AllPlainPackages(order: seq<Package>) { forall i :: 0 <= i < |order| ==> PlainPackage(order[i]) }

  lemma {:induction false} KeyEnds(k: string, rest: string)
    requires forall i :: 0 <= i < |k| ==> IsKeyChar(k[i])
    requires rest != "" && !IsKeyChar(rest[0])
    ensures KeyLength(k + rest) == |k|
  {
    if k == "" {
      assert k + rest == rest;
    } else {
      assert (k + rest)[1..] == k[1..] + rest;
      KeyEnds(k[1..], rest);
    }
  }

  lemma PairReads(key: string, value: string, rest: string)
    requires IsKey(key)
    ensures ReadPair(Line(key, value) + rest) == if AllPlain(value) then Some((key, value, "\n" + rest)) else None
  {
    hide ReadString, Escape;
    var t := Line(key, value) + rest;
    var tail := Escape(value) + "\"" + ("\n" + rest);
    assert t == key + (IS + tail);
    KeyEnds(key, IS + tail);
    EscapeRoundTrip(value, "\n" + rest);
    assert t[|key|..] == IS + tail;
    assert t[|key| + |IS|..] == tail;
    assert t[..|key|] == key;
  }

  /** A written line adds its pair to the last table, or spoils the file. */
  lemma LineReads(key: string, value: string, rest: string, tables: seq<Table>)
    requires IsKey(key) && tables != [] && key !in tables[|tables| - 1]
    ensures ReadTables(Line(key, value) + rest, tables) ==
              if AllPlain(value) then ReadTables(rest, Put(tables, key, value)) else None
  {
    hide ReadPair, Escape;
    PairReads(key, value, rest);
    var t := Line(key, value) + rest;
    assert t[0] == key[0] && IsKeyChar(t[0]);
    assert HEADER[0] == '[';
    assert ("\n" + rest)[1..] == rest;
  }

  lemma OptionalReads(key: string, value: string, rest: string, tables: seq<Table>)
    requires IsKey(key) && tables != [] && key !in tables[|tables| - 1]
    ensures ReadTables(IfAny(key, value) + rest, tables) ==
              if AllPlain(value) then
                ReadTables(rest, tables[|tables| - 1 := PutIfAny(tables[|tables| - 1], key, value)])
              else None
  {
    hide ReadTables, Line;
    if value == "" {
      assert IfAny(key, value) + rest == rest;
      assert tables[|tables| - 1 := tables[|tables| - 1]] == tables;
    } else {
      LineReads(key, value, rest, tables);
    }
  }

  lemma NewlineReads(rest: string, tables: seq<Table>)
    ensures ReadTables("\n" + rest, tables) == ReadTables(rest, tables)
  {
    assert ("\n" + rest)[1..] == rest;
  }

  lemma HeaderReads(rest: string, tables: seq<Table>)
    ensures ReadTables("\n" + HEADER + "\n" + rest, tables) == ReadTables(rest, tables + [map[]])
  {
    var u := HEADER + ("\n" + rest);
    assert "\n" + HEADER + "\n" + rest == "\n" + u;
    NewlineReads(u, tables);
    assert u[0] == HEADER[0] && HEADER <= u && u[|HEADER|..] == "\n" + rest;
    assert ReadTables(u, tables) == ReadTables("\n" + rest, tables + [map[]]);
    NewlineReads(rest, tables + [map[]]);
  }

  lemma RegistryReads(e: Edge, rest: string, before: seq<Table>, t: Table)
    requires "version" !in t && "git" !in t && "ref" !in t
    ensures ReadTables(RegistryLines(e) + rest, before + [t]) ==
              if e.kind != RegistryEdge then ReadTables(rest, before + [t])
              else if AllPlain(e.version) && AllPlain(e.git) && AllPlain(e.ref) then
                ReadTables(rest, before + [PutIfAny(t["version" := e.version]["git" := e.git], "ref", e.ref)])
              else None
  {
    hide ReadTables, Line, IfAny, AllPlain;
    if e.kind == RegistryEdge {
      var afterGit := IfAny("ref", e.ref) + rest;
      var afterVersion := Line("git", e.git) + afterGit;
      assert RegistryLines(e) + rest == Line("version", e.version) + afterVersion;
      LineReads("version", e.version, afterVersion, before + [t]);
      var t1 := t["version" := e.version];
      assert Put(before + [t], "version", e.version) == before + [t1];
      LineReads("git", e.git, afterGit, before + [t1]);
      var t2 := t1["git" := e.git];
      assert Put(before + [t1], "git", e.git) == before + [t2];
      OptionalReads("ref", e.ref, rest, before + [t2]);
      var t3 := PutIfAny(t2, "ref", e.ref);
      assert (before + [t2])[|before| := t3] == before + [t3];
    } else {
      assert RegistryLines(e) + rest == rest;
    }
  }

  lemma EntryReads(p: Package, rest: string, before: seq<Table>)
    ensures ReadTables(Entry(p) + rest, before) ==
              if PlainPackage(p) then ReadTables(rest, before + [TableOf(p)]) else None
  {
    hide ReadTables, Line, IfAny, AllPlain, RegistryLines;
    var afterCommit := RegistryLines(p.edge) + rest;
    var afterPath := IfAny("commit", p.commit) + afterCommit;
    var afterName := Line("path", p.dir) + afterPath;
    var afterHeader := Line("name", p.name) + afterName;
    EntryShape(p, rest);
    HeaderReads(afterHeader, before);
    LineReads("name", p.name, afterName, before + [map[]]);
    var t1: Table := map["name" := p.name];
    assert Put(before + [map[]], "name", p.name) == before + [t1];
    LineReads("path", p.dir, afterPath, before + [t1]);
    var t2 := t1["path" := p.dir];
    assert Put(before + [t1], "path", p.dir) == before + [t2];
    OptionalReads("commit", p.commit, afterCommit, before + [t2]);
    var t3 := PutIfAny(t2, "commit", p.commit);
    assert (before + [t2])[|before| := t3] == before + [t3];
    RegistryReads(p.edge, rest, before, t3);
    assert t2 == map["name" := p.name, "path" := p.dir];
  }

  lemma EntryShape(p: Package, rest: string)
    ensures Entry(p) + rest ==
              "\n" + HEADER + "\n" + (Line("name", p.name) + (Line("path", p.dir)
                + (IfAny("commit", p.commit) + (RegistryLines(p.edge) + rest))))
  {
    hide Line, IfAny;
  }

  lemma {:induction false} EntriesRead(order: seq<Package>, rest: string, before: seq<Table>)
    ensures ReadTables(Entries(order) + rest, before) ==
              if AllPlainPackages(order) then ReadTables(rest, before + TablesOf(order)) else None
  {
    hide ReadTables, Entry, PlainPackage, TableOf;
    if order == [] {
      assert Entries(order) + rest == rest && before + TablesOf(order) == before;
    } else {
      var (init, p) := (order[..|order| - 1], order[|order| - 1]);
      assert order == init + [p];
      assert Entries(order) + rest == Entries(init) + (Entry(p) + rest);
      EntriesRead(init, Entry(p) + rest, before);
      EntryReads(p, rest, before + TablesOf(init));
      assert before + TablesOf(init) + [TableOf(p)] == before + TablesOf(order);
      assert AllPlainPackages(order) <==> AllPlainPackages(init) && PlainPackage(p);
    }
  }

  lemma {:induction false} SkipsComment(t: string, rest: string)
    requires '\n' !in t
    ensures AfterLine(t + "\n" + rest) == "\n" + rest
  {
    if t == "" {
      assert t + "\n" + rest == "\n" + rest;
    } else {
      assert (t + "\n" + rest)[1..] == t[1..] + "\n" + rest;
      SkipsComment(t[1..], rest);
    }
  }

  lemma EndReads(tables: seq<Table>)
    ensures ReadTables("", tables) == Some(tables)
  {
  }

  lemma CommentReads(rest: string, tables: seq<Table>)
    ensures ReadTables("#" + rest, tables) == ReadTables(AfterLine(rest), tables)
  {
    assert ("#" + rest)[1..] == rest;
  }

  /** Main result on the file: it reads back as one table per package but the
      root, if and only if no written value has a control character; otherwise
      the file is malformed and pins nothing at all. */
  lemma LockfileRoundTrip(order: seq<Package>)
    ensures
      ReadTables(LockText(order), []) ==
        if AllPlainPackages(AllButLast(order)) then Some(TablesOf(AllButLast(order))) else None
  {
    hide ReadTables, Entries, AllButLast, AllPlainPackages, TablesOf;
    var body := Entries(AllButLast(order));
    assert '\n' !in " Auto-generated by ebpm" && '\n' !in " - do not edit by hand.";
    SkipsComment(NOTE, body);
    CommentReads(NOTE + "\n" + body, []);
    assert LockText(order) == "#" + (NOTE + "\n" + body);
    NewlineReads(body, []);
    EntriesRead(AllButLast(order), "", []);
    EndReads(TablesOf(AllButLast(order)));
    assert body + "" == body && [] + TablesOf(AllButLast(order)) == TablesOf(AllButLast(order));
  }

  /* ----- the pin of a package ----- */

  ghost predicate UniqueNames(order: seq<Package>) {
    forall i, j :: 0 <= i < j < |order| ==> order[i].name != order[j].name
  }

  /** What the lockfile keeps about a package. */
  function Kept(p: Package): Pin {
    if p.edge.kind == RegistryEdge then Pin(p.commit, p.edge.version, p.edge.git, p.edge.ref)
    else Pin(p.commit, "", "", "")
  }

  predicate Pinned(p: Package) { Kept(p).commit != "" || Kept(p).git != "" }

  lemma TableKeeps(p: Package)
    ensures TableOf(p)["name"] == p.name && PinOf(TableOf(p)) == Kept(p)
    ensures IsPin(TableOf(p)) <==> Pinned(p)
  {
  }

  lemma {:induction false} PinOfPackage(order: seq<Package>, name: string)
    requires UniqueNames(order)
    ensures forall i | 0 <= i < |order| && order[i].name == name && Pinned(order[i]) ::
              name in PinsOf(TablesOf(order)) && PinsOf(TablesOf(order))[name] == Kept(order[i])
    ensures name in PinsOf(TablesOf(order)) ==>
              exists i :: 0 <= i < |order| && order[i].name == name && PinsOf(TablesOf(order))[name] == Kept(order[i])
  {
    hide TableOf, PinOf, IsPin, Kept, Pinned;
    if order != [] {
      var (init, p) := (order[..|order| - 1], order[|order| - 1]);
      PinOfPackage(init, name);
      TableKeeps(p);
      assert TablesOf(order)[..|order| - 1] == TablesOf(init);
      assert TablesOf(order)[|order| - 1] == TableOf(p);
      assert forall i :: 0 <= i < |init| ==> init[i] == order[i];
      if name in PinsOf(TablesOf(order)) && name != p.name {
        assert name in PinsOf(TablesOf(init));
      }
    }
  }
}
