/**
 The evidence vault (src/application/evidence.rs, src/domain/evidence.rs): a
 snapshot copies every item of a plan into a new vault and records the hashes; a
 verification hashes the vault again. The vault is what the file adapter keeps: a
 map from path to content, the directories of its DIR items, and `MANIFEST.json`.

 Hashing and JSON are parameters with the facts the callers rely on (`Sound`).
*/
module EvidenceVault {
  import opened Prelude
  import opened StableSort

  type Bytes = seq<nat>

  datatype Kind = File | Dir

  /** One file of the manifest. */
  datatype Entry = Entry(path: string, sha: string, bytes: nat)

  datatype Item = Item(
    path: string, source: string, kind: Kind, sha: Option<string>, files: Option<nat>, bytes: Option<nat>)

  datatype Record = Record(items: seq<Item>, capturedAt: Option<string>, manifestSha: Option<string>)

  datatype Codec = Codec(
    sha256: Bytes -> string,
    treeHash: (string, seq<Entry>) -> string,
    toJson: seq<Entry> -> Bytes,
    fromJson: Bytes -> Option<seq<Entry>>)

  ghost predicate DistinctPaths(es: seq<Entry>) {
    forall i, j :: 0 <= i < j < |es| ==> es[i].path != es[j].path
  }

  /** No two contents share a hash, a tree hash sorts its entries, JSON reads back what it wrote. */
  ghost predicate Sound(c: Codec) {
    (forall a, b :: c.sha256(a) == c.sha256(b) ==> a == b) &&
    (forall dir, a, b :: multiset(a) == multiset(b) && DistinctPaths(a) ==> c.treeHash(dir, a) == c.treeHash(dir, b)) &&
    (forall m :: c.fromJson(c.toJson(m)) == Some(m))
  }

  function EntryOf(c: Codec, path: string, content: Bytes): (r: Entry) {
    Entry(path, c.sha256(content), |content|)
  }

  ghost function EntrySet(c: Codec, files: map<string, Bytes>): (r: set<Entry>) {
    set p | p in files :: EntryOf(c, p, files[p])
  }

  /** `es` lists every file once, with its hash and its size, in some order. */
  ghost predicate Listing(c: Codec, es: seq<Entry>, files: map<string, Bytes>) {
    multiset(es) == multiset(EntrySet(c, files))
  }

  lemma InEntrySet(c: Codec, files: map<string, Bytes>, e: Entry)
    ensures e in EntrySet(c, files) <==> e.path in files && e == EntryOf(c, e.path, files[e.path])
  {
  }

  lemma ListingMembers(c: Codec, es: seq<Entry>, files: map<string, Bytes>)
    requires Listing(c, es, files)
    ensures forall e :: e in es <==> e.path in files && e == EntryOf(c, e.path, files[e.path])
    ensures forall p :: p in files ==> EntryOf(c, p, files[p]) in es
  {
    forall e ensures e in es <==> e.path in files && e == EntryOf(c, e.path, files[e.path]) {
      assert e in es <==> e in multiset(es);
    }
  }

  lemma ListingAppend(c: Codec, a: seq<Entry>, f: map<string, Bytes>, b: seq<Entry>, g: map<string, Bytes>)
    requires Listing(c, a, f) && Listing(c, b, g) && f.Keys !! g.Keys
    ensures Listing(c, a + b, f + g)
  {
    var x, y, all := EntrySet(c, f), EntrySet(c, g), EntrySet(c, f + g);
    forall e ensures e in all <==> e in x || e in y {
      if e in x { assert e.path in f && e == EntryOf(c, e.path, (f + g)[e.path]); }
      if e in y { assert e.path in g && e == EntryOf(c, e.path, (f + g)[e.path]); }
    }
    assert x !! y;
    assert multiset(all) == multiset(x) + multiset(y);
  }

  // ---- the manifest ----

  function TextLeq(a: string, b: string): (r: bool) {
    a == "" || (b != "" && (a[0] < b[0] || (a[0] == b[0] && TextLeq(a[1..], b[1..]))))
  }

  function ByPath(): (r: (Entry, Entry) -> bool) { (a: Entry, b: Entry) => TextLeq(a.path, b.path) }

  lemma {:induction false} TextTotal(a: string, b: string)
    ensures TextLeq(a, b) || TextLeq(b, a)
  {
    if a != "" && b != "" { TextTotal(a[1..], b[1..]); }
  }

  lemma {:induction false} TextTransitive(a: string, b: string, d: string)
    requires TextLeq(a, b) && TextLeq(b, d)
    ensures TextLeq(a, d)
  {
    if a != "" && a[0] == b[0] && b[0] == d[0] { TextTransitive(a[1..], b[1..], d[1..]); }
  }

  lemma PathOrder()
    ensures TotalPreorder(ByPath())
  {
    forall a, b ensures ByPath()(a, b) || ByPath()(b, a) { TextTotal(a.path, b.path); }
    forall a, b, d | ByPath()(a, b) && ByPath()(b, d) ensures ByPath()(a, d) {
      TextTransitive(a.path, b.path, d.path);
    }
  }

  /** `MANIFEST.json`: the entries sorted by path. */
  function ManifestBytes(c: Codec, es: seq<Entry>): (r: Bytes) { c.toJson(Sort(es, ByPath())) }

  /** The manifest reads back as the same entries, in path order. */
  lemma ManifestReadsBack(c: Codec, es: seq<Entry>)
    requires Sound(c)
    ensures var m := c.fromJson(ManifestBytes(c, es));
            m.Some? && multiset(m.value) == multiset(es) && Sorted(m.value, ByPath())
  {
    PathOrder();
    SortSorts(es, ByPath());
  }

  // ---- the vault ----

  datatype VaultState = VaultState(
    exists_: bool, files: map<string, Bytes>, dirs: set<string>, manifest: Option<Bytes>, locked: bool)

  predicate HasDir(v: VaultState, path: string) {
    path in v.dirs || exists p :: p in v.files && path + "/" <= p
  }

  /** A source as it is read during the copy. */
  datatype Source = FileAt(content: Bytes) | DirAt(files: map<string, Bytes>)

  function PathsUnder(path: string, rels: set<string>): (r: set<string>) { set r | r in rels :: path + "/" + r }

  function PlacedDir(path: string, files: map<string, Bytes>, done: set<string>): (r: map<string, Bytes>)
    requires done <= files.Keys
  {
    map p | p in PathsUnder(path, done) :: files[p[|path| + 1..]]
  }

  /** The vault files of an item. */
  function Placed(path: string, s: Source): (r: map<string, Bytes>) {
    match s
    case FileAt(content) => map[path := content]
    case DirAt(files) => PlacedDir(path, files, files.Keys)
  }

  predicate Fits(kind: Kind, s: Source) { kind.Dir? <==> s.DirAt? }

  /** Any call on the vault can fail; a failed copy may leave some files behind. */
  class Vault {
    var state: VaultState

    constructor (state: VaultState)
      ensures this.state == state
    {
      this.state := state;
    }

    method Create() returns (ok: bool)
      modifies this
      ensures ok ==> !old(state.exists_) && state == VaultState(true, map[], {}, None, false)
      ensures !ok ==> state == old(state)
    {
      ok := false;
      var fails := *;
      if !state.exists_ && !fails {
        state := VaultState(true, map[], {}, None, false);
        ok := true;
      }
    }

    /** One file, never over an existing one; the copy is hashed like its source. */
    method CopyFile(c: Codec, content: Bytes, path: string) returns (e: Option<Entry>)
      modifies this
      ensures e.Some? ==> path !in old(state.files) && e.value == EntryOf(c, path, content) &&
                          state == old(state).(files := old(state.files)[path := content])
      ensures e.None? ==> state == old(state)
    {
      e := None;
      var fails := *;
      if path !in state.files && !fails {
        state := state.(files := state.files[path := content]);
        e := Some(EntryOf(c, path, content));
      }
    }

    /** A directory file by file, each under `path`. */
    method CopyTree(c: Codec, files: map<string, Bytes>, path: string) returns (es: Option<seq<Entry>>)
      modifies this
      ensures es.Some? ==> CopiedFiles(c, old(state), state, es.value, PlacedDir(path, files, files.Keys))
    {
      var out: seq<Entry>, done: set<string> := [], {};
      CopiedNone(c, state, path, files);
      while done != files.Keys
        invariant done <= files.Keys && CopiedFiles(c, old(state), state, out, PlacedDir(path, files, done))
        decreases files.Keys - done
      {
        assert files.Keys - done != {};
        var rel :| rel in files.Keys - done;
        var e := CopyFile(c, files[rel], path + "/" + rel);
        if e.None? { return None; }
        ghost var more := state;
        CopiedMore(c, old(state), more, out, PlacedDir(path, files, done), path + "/" + rel, files[rel]);
        PlaceOne(path, files, done, rel);
        out := out + [e.value];
        done := done + {rel};
      }
      return Some(out);
    }

    method CopyIn(c: Codec, source: Source, kind: Kind, path: string) returns (es: Option<seq<Entry>>)
      modifies this
      ensures es.Some? ==>
                Fits(kind, source) &&
                CopiedFiles(c, old(WithDir(state, kind, path)), state, es.value, Placed(path, source))
    {
      if !Fits(kind, source) { return None; }
      match source {
        case FileAt(content) =>
          CopiedNone(c, state, path, map[]);
          ghost var before := state;
          var e := CopyFile(c, content, path);
          if e.None? { return None; }
          CopiedMore(c, before, state, [], map[], path, content);
          assert [] + [e.value] == [e.value];
          return Some([e.value]);
        case DirAt(files) =>
          state := WithDir(state, kind, path);
          es := CopyTree(c, files, path);
      }
    }

    method List() returns (paths: Option<set<string>>)
      ensures paths.Some? ==> paths.value == state.files.Keys
    {
      paths := None;
      var fails := *;
      if !fails { paths := Some(state.files.Keys); }
    }

    method Hash(c: Codec, path: string) returns (e: Option<Entry>)
      ensures e.Some? ==> path in state.files && e.value == EntryOf(c, path, state.files[path])
    {
      e := None;
      var fails := *;
      if path in state.files && !fails { e := Some(EntryOf(c, path, state.files[path])); }
    }

    method ReadManifest() returns (r: Option<Option<Bytes>>)
      ensures r.Some? ==> r.value == state.manifest
    {
      r := None;
      var fails := *;
      if !fails { r := Some(state.manifest); }
    }

    method WriteManifest(bytes: Bytes) returns (ok: bool)
      modifies this
      ensures ok ==> old(state.manifest).None? && state == old(state).(manifest := Some(bytes))
      ensures !ok ==> state == old(state)
    {
      ok := false;
      var fails := *;
      if state.manifest.None? && !fails {
        state := state.(manifest := Some(bytes));
        ok := true;
      }
    }

    method Seal() returns (ok: bool)
      modifies this
      ensures ok ==> state == old(state).(locked := true)
    {
      ok := *;
      if ok { state := state.(locked := true); }
    }
  }

  function WithDir(v: VaultState, kind: Kind, path: string): (r: VaultState) {
    if kind.Dir? then v.(dirs := v.dirs + {path}) else v
  }

  /** The step from `before` to `after` copied `files`, all new, and nothing else. */
  ghost predicate CopiedFiles(
    c: Codec, before: VaultState, after: VaultState, es: seq<Entry>, files: map<string, Bytes>)
  {
    before.files.Keys !! files.Keys && Listing(c, es, files) &&
    after == before.(files := before.files + files)
  }

  lemma CopiedNone(c: Codec, v: VaultState, path: string, files: map<string, Bytes>)
    ensures PlacedDir(path, files, {}) == map[] && CopiedFiles(c, v, v, [], map[])
  {
    assert PathsUnder(path, {}) == {};
    assert EntrySet(c, map[]) == {};
    assert v.files + map[] == v.files;
  }

  lemma CopiedMore(
    c: Codec, before: VaultState, after: VaultState, es: seq<Entry>, files: map<string, Bytes>, path: string,
    content: Bytes)
    requires path !in before.files + files
    requires CopiedFiles(c, before, before.(files := before.files + files), es, files)
    requires after == before.(files := (before.files + files)[path := content])
    ensures CopiedFiles(c, before, after, es + [EntryOf(c, path, content)], files[path := content])
  {
    ListOne(c, path, content);
    ListingAppend(c, es, files, [EntryOf(c, path, content)], map[path := content]);
    assert files + map[path := content] == files[path := content];
    assert (before.files + files)[path := content] == before.files + files[path := content];
  }

  lemma ListOne(c: Codec, path: string, content: Bytes)
    ensures Listing(c, [EntryOf(c, path, content)], map[path := content])
  {
    var e, one := EntryOf(c, path, content), map[path := content];
    forall x ensures x in EntrySet(c, one) <==> x == e {
      if x == e { assert path in one; }
    }
    assert EntrySet(c, one) == {e};
  }

  lemma PlaceOne(path: string, files: map<string, Bytes>, done: set<string>, rel: string)
    requires done <= files.Keys && rel in files && rel !in done
    ensures PlacedDir(path, files, done + {rel}) == PlacedDir(path, files, done)[path + "/" + rel := files[rel]]
  {
    assert forall r: string :: (path + "/" + r)[|path| + 1..] == r;
    assert PathsUnder(path, done + {rel}) == PathsUnder(path, done) + {path + "/" + rel};
  }

  // ---- plans and records ----

  predicate InsideDir(path: string, dir: string) { dir + "/" <= path }

  function Lower(s: string): (t: string)
    ensures |t| == |s|
  {
    seq(|s|, i requires 0 <= i < |s| => if 'A' <= s[i] <= 'Z' then s[i] - 'A' + 'a' else s[i])
  }

  /** Relative, and no two items are one path, differ in case only, or lie inside each other. */
  ghost predicate ValidItems(items: seq<Item>) {
    items != [] &&
    (forall i :: 0 <= i < |items| ==> items[i].path != "" && items[i].source != "") &&
    (forall i, j :: 0 <= i < |items| && 0 <= j < |items| && i != j ==>
      Lower(items[i].path) != Lower(items[j].path) && !InsideDir(Lower(items[i].path), Lower(items[j].path)))
  }

  predicate HasHashes(i: Item) { i.sha.Some? || i.files.Some? || i.bytes.Some? }

  predicate Complete(i: Item) { i.sha.Some? && i.files.Some? && i.bytes.Some? }

  /** `validation_errors` finds nothing: a plan carries no hash, a captured record all of them. */
  ghost predicate ValidRecord(r: Record) {
    ValidItems(r.items) &&
    if r.capturedAt.Some? then r.manifestSha.Some? && forall i :: 0 <= i < |r.items| ==> Complete(r.items[i])
    else r.manifestSha.None? && forall i :: 0 <= i < |r.items| ==> !HasHashes(r.items[i])
  }

  /** The path is in the vault because of the item. */
  predicate Belongs(kind: Kind, path: string, p: string) {
    if kind.File? then p == path else InsideDir(p, path)
  }

  function Part(files: map<string, Bytes>, item: Item): (r: map<string, Bytes>) {
    map p | p in files && Belongs(item.kind, item.path, p) :: files[p]
  }

  /** Items of a valid record have no file in common. */
  lemma OneOwner(items: seq<Item>, i: nat, j: nat, p: string)
    requires ValidItems(items) && i < |items| && j < |items| && i != j
    requires Belongs(items[i].kind, items[i].path, p)
    ensures !Belongs(items[j].kind, items[j].path, p)
  {
    if Belongs(items[j].kind, items[j].path, p) {
      Overlap(items[i], items[j], p);
      if InsideDir(items[i].path, items[j].path) { InsideLower(items[i].path, items[j].path); }
      if InsideDir(items[j].path, items[i].path) { InsideLower(items[j].path, items[i].path); }
    }
  }

  lemma Overlap(x: Item, y: Item, p: string)
    requires Belongs(x.kind, x.path, p) && Belongs(y.kind, y.path, p)
    ensures x.path == y.path || InsideDir(x.path, y.path) || InsideDir(y.path, x.path)
  {
    var a, b := x.path, y.path;
    assert a == p[..|a|] && b == p[..|b|];
    assert |a| < |p| ==> p[..|a| + 1] == a + "/";
    assert |b| < |p| ==> p[..|b| + 1] == b + "/";
    assert |a| < |b| ==> b[..|a| + 1] == p[..|a| + 1];
    assert |b| < |a| ==> a[..|b| + 1] == p[..|b| + 1];
  }

  lemma InsideLower(path: string, dir: string)
    requires InsideDir(path, dir)
    ensures InsideDir(Lower(path), Lower(dir))
  {
    assert forall i :: 0 <= i < |dir| ==> Lower(path)[i] == Lower(dir)[i];
    assert path[|dir|] == '/';
  }

  // ---- snapshot ----

  datatype Info = Info(kind: Kind, path: string, wals: seq<string>)

  datatype SourceProblem =
    | Unreadable(item: string)
    | OtherKind(item: string)
    | LiveWal(item: string, wal: string)

  /** The source is there and of the recorded kind. */
  predicate Inspected(item: Item, inspect: map<string, Info>) {
    item.source in inspect && inspect[item.source].kind == item.kind
  }

  /** Some item of the first `n` is copied from `path`. */
  ghost predicate IsSource(items: seq<Item>, inspect: map<string, Info>, path: string, n: nat)
    requires n <= |items|
  {
    exists i :: 0 <= i < n && Inspected(items[i], inspect) && inspect[items[i].source].path == path
  }

  /** What a source check finds at one item. */
  ghost predicate ProblemAt(items: seq<Item>, inspect: map<string, Info>, i: nat, e: SourceProblem)
    requires i < |items|
  {
    var item := items[i];
    if item.source !in inspect then e == Unreadable(item.path)
    else if inspect[item.source].kind != item.kind then e == OtherKind(item.path)
    else e.LiveWal? && e.item == item.path && e.wal in inspect[item.source].wals &&
         (item.kind.Dir? || !IsSource(items, inspect, e.wal, |items|))
  }

  ghost predicate SourcesFine(items: seq<Item>, inspect: map<string, Info>) {
    forall i, e :: 0 <= i < |items| ==> !ProblemAt(items, inspect, i, e)
  }

  /** The two loops over the sources. */
  method CheckSources(items: seq<Item>, inspect: map<string, Info>) returns (problems: set<SourceProblem>)
    ensures forall e :: e in problems <==> exists i :: 0 <= i < |items| && ProblemAt(items, inspect, i, e)
    ensures problems == {} ==> SourcesFine(items, inspect)
  {
    var sources: set<string> := {};
    for n := 0 to |items|
      invariant forall p :: p in sources <==> IsSource(items, inspect, p, n)
    {
      if Inspected(items[n], inspect) { sources := sources + {inspect[items[n].source].path}; }
    }
    problems := {};
    for n := 0 to |items|
      invariant forall e :: e in problems <==> exists i :: 0 <= i < n && ProblemAt(items, inspect, i, e)
    {
      var item, more := items[n], {};
      if item.source !in inspect {
        more := {Unreadable(item.path)};
      } else if inspect[item.source].kind != item.kind {
        more := {OtherKind(item.path)};
      } else {
        more := set w | w in inspect[item.source].wals && (item.kind.Dir? || w !in sources) :: LiveWal(item.path, w);
      }
      assert forall e :: e in more <==> ProblemAt(items, inspect, n, e);
      problems := problems + more;
    }
    forall i, e | 0 <= i < |items| && ProblemAt(items, inspect, i, e) ensures problems != {} {
      assert e in problems;
    }
  }

  datatype SnapshotError =
    | InvalidPlan | AlreadyCaptured | VaultExists | NothingCopied(problems: set<SourceProblem>)
    | StoreFailed | CopiedNothing | OtherFiles | InvalidRecord

  /** The checks made before anything is created. */
  ghost predicate MayCopy(plan: Record, v: VaultState, inspect: map<string, Info>) {
    ValidRecord(plan) && plan.capturedAt.None? && !v.exists_ && SourcesFine(plan.items, inspect)
  }

  function TotalBytes(es: seq<Entry>): (r: nat) { if es == [] then 0 else es[0].bytes + TotalBytes(es[1..]) }

  /** The contents of the files, one after the other. */
  function Joined(ps: seq<string>, files: map<string, Bytes>): (all: Bytes)
    requires forall p :: p in ps ==> p in files
  {
    if ps == [] then [] else files[ps[0]] + Joined(ps[1..], files)
  }

  /** The files, each with its path, its hash and its size. */
  function Entries(c: Codec, dir: string, ps: seq<string>, files: map<string, Bytes>): (es: seq<Entry>)
    requires forall p :: p in ps ==> p in files
  {
    seq(|ps|, i requires 0 <= i < |ps| => Entry(dir + ps[i], c.sha256(files[ps[i]]), |files[ps[i]]|))
  }

  /** The size of some files is the length of their contents together. */
  lemma {:induction false} TotalIsJoined(c: Codec, dir: string, ps: seq<string>, files: map<string, Bytes>)
    requires forall p :: p in ps ==> p in files
    ensures TotalBytes(Entries(c, dir, ps, files)) == |Joined(ps, files)|
  {
    if ps != [] {
      TotalIsJoined(c, dir, ps[1..], files);
      assert Entries(c, dir, ps, files)[1..] == Entries(c, dir, ps[1..], files);
    }
  }

  lemma {:induction false} TotalSplit(a: seq<Entry>, b: seq<Entry>)
    ensures TotalBytes(a + b) == TotalBytes(a) + TotalBytes(b)
  {
    if a == [] {
      assert a + b == b;
    } else {
      TotalSplit(a[1..], b);
      assert (a + b)[1..] == a[1..] + b;
    }
  }

  lemma Without(pre: seq<Entry>, e: Entry, post: seq<Entry>)
    ensures multiset(pre + post) == multiset(pre + ([e] + post)) - multiset{e}
  {
    assert multiset(pre + ([e] + post)) == multiset(pre) + multiset([e]) + multiset(post);
  }

  lemma TakeOut(a: seq<Entry>, b: seq<Entry>) returns (pre: seq<Entry>, post: seq<Entry>)
    requires a != [] && multiset(a) == multiset(b)
    ensures b == pre + ([a[0]] + post) && multiset(a[1..]) == multiset(pre + post)
  {
    assert a[0] in multiset(a);
    pre, post := Around(b, a[0]);
    Without(pre, a[0], post);
    WithoutFirst(a);
  }

  lemma Around(b: seq<Entry>, e: Entry) returns (pre: seq<Entry>, post: seq<Entry>)
    requires e in multiset(b)
    ensures b == pre + ([e] + post)
  {
    var k :| 0 <= k < |b| && b[k] == e;
    pre, post := b[..k], b[k + 1..];
  }

  lemma WithoutFirst(a: seq<Entry>)
    requires a != []
    ensures multiset(a[1..]) == multiset(a) - multiset{a[0]}
  {
    assert a == [a[0]] + a[1..];
    assert multiset([a[0]] + a[1..]) == multiset([a[0]]) + multiset(a[1..]);
  }

  lemma {:induction false} TotalSame(a: seq<Entry>, b: seq<Entry>)
    requires multiset(a) == multiset(b)
    ensures TotalBytes(a) == TotalBytes(b)
  {
    if a == [] {
      assert |multiset(b)| == 0;
    } else {
      var pre, post := TakeOut(a, b);
      TotalSame(a[1..], pre + post);
      TotalSplit(pre, [a[0]] + post);
      TotalSplit(pre, post);
      assert ([a[0]] + post)[1..] == post;
    }
  }

  /** The hash of an item with the files `es`. */
  function ItemHash(c: Codec, kind: Kind, path: string, es: seq<Entry>): (r: string)
    requires kind.File? ==> es != []
  {
    if kind.File? then es[0].sha else c.treeHash(path, es)
  }

  /** The item as recorded when its copy holds `files`. */
  ghost predicate Recorded(c: Codec, item: Item, files: map<string, Bytes>) {
    exists es :: Listing(c, es, files) && RecordedAs(c, item, es)
  }

  ghost predicate RecordedAs(c: Codec, item: Item, es: seq<Entry>) {
    (item.kind.File? ==> es != []) && item.files == Some(|es|) && item.bytes == Some(TotalBytes(es)) &&
    item.sha == Some(ItemHash(c, item.kind, item.path, es))
  }

  /** Every file of the first `n` items. */
  ghost function CopyOf(items: seq<Item>, disk: map<string, Source>, n: nat): (r: map<string, Bytes>)
    requires n <= |items| && forall i :: 0 <= i < n ==> items[i].source in disk
  {
    if n == 0 then map[] else CopyOf(items, disk, n - 1) + Placed(items[n - 1].path, disk[items[n - 1].source])
  }

  /** `item` is `planned` with its hashes. */
  predicate SameItem(planned: Item, item: Item) {
    item == planned.(sha := item.sha, files := item.files, bytes := item.bytes)
  }

  /** The first `n` items of the record are copied and recorded. */
  ghost predicate CopiedItems(c: Codec, plan: seq<Item>, items: seq<Item>, disk: map<string, Source>, n: nat) {
    n <= |plan| == |items| && (forall i :: 0 <= i < n ==> plan[i].source in disk) &&
    Done(c, plan, items, disk, n) && (forall i :: n <= i < |plan| ==> items[i] == plan[i])
  }

  ghost predicate Done(c: Codec, plan: seq<Item>, items: seq<Item>, disk: map<string, Source>, n: nat)
    requires n <= |plan| == |items|
  {
    n == 0 || (Done(c, plan, items, disk, n - 1) && CopiedItem(c, plan[n - 1], items[n - 1], disk))
  }

  lemma {:induction false} DoneAt(
    c: Codec, plan: seq<Item>, items: seq<Item>, disk: map<string, Source>, n: nat, i: nat)
    requires i < n <= |plan| == |items| && Done(c, plan, items, disk, n)
    ensures CopiedItem(c, plan[i], items[i], disk)
  {
    if i < n - 1 { DoneAt(c, plan, items, disk, n - 1, i); }
  }

  lemma {:induction false} DoneFrame(
    c: Codec, plan: seq<Item>, items: seq<Item>, disk: map<string, Source>, n: nat, more: seq<Item>)
    requires n <= |plan| == |items| == |more| && Done(c, plan, items, disk, n) && more[..n] == items[..n]
    ensures Done(c, plan, more, disk, n)
  {
    if n > 0 {
      assert more[..n][n - 1] == items[..n][n - 1];
      assert more[..n - 1] == more[..n][..n - 1] && items[..n - 1] == items[..n][..n - 1];
      DoneFrame(c, plan, items, disk, n - 1, more);
    }
  }

  /** `item` is `planned` with the hashes of its source. */
  ghost predicate CopiedItem(c: Codec, planned: Item, item: Item, disk: map<string, Source>) {
    SameItem(planned, item) && planned.source in disk && Fits(planned.kind, disk[planned.source]) &&
    Recorded(c, item, Placed(planned.path, disk[planned.source]))
  }

  /** The dirs made for the DIR items. */
  ghost function DirsOf(items: seq<Item>, n: nat): (r: set<string>)
    requires n <= |items|
  {
    set i | 0 <= i < n && items[i].kind.Dir? :: items[i].path
  }

  /** The checks before the vault is created. */
  method Refusal(plan: Record, vault: Vault, inspect: map<string, Info>) returns (e: Option<SnapshotError>)
    ensures e.None? <==> MayCopy(plan, vault.state, inspect)
  {
    if !IsValidRecord(plan) { return Some(InvalidPlan); }
    if plan.capturedAt.Some? || plan.manifestSha.Some? ||
       exists i :: 0 <= i < |plan.items| && HasHashes(plan.items[i])
    {
      return Some(AlreadyCaptured);
    }
    if vault.state.exists_ { return Some(VaultExists); }
    var problems := CheckSources(plan.items, inspect);
    if problems != {} {
      assert exists p :: p in problems;
      return Some(NothingCopied(problems));
    }
    return None;
  }

  /** What the copy loop has done after the first `n` items. */
  ghost predicate CopiedUpTo(
    c: Codec, plan: seq<Item>, disk: map<string, Source>, n: nat, items: seq<Item>, manifest: seq<Entry>, v: VaultState)
  {
    CopiedItems(c, plan, items, disk, n) &&
    v == VaultState(true, CopyOf(plan, disk, n), DirsOf(plan, n), None, false) &&
    Listing(c, manifest, CopyOf(plan, disk, n))
  }

  lemma RecordStep(
    c: Codec, plan: seq<Item>, disk: map<string, Source>, n: nat, items: seq<Item>, es: seq<Entry>)
    requires n < |plan| && CopiedItems(c, plan, items, disk, n)
    requires plan[n].source in disk && Fits(plan[n].kind, disk[plan[n].source])
    requires plan[n].kind.File? ==> es != []
    requires Listing(c, es, Placed(plan[n].path, disk[plan[n].source]))
    ensures CopiedItems(c, plan, items[n := Hashed(c, items[n], es)], disk, n + 1)
  {
    var more := items[n := Hashed(c, items[n], es)];
    assert items[n] == plan[n];
    DoneFrame(c, plan, items, disk, n, more);
    HashedIsCopied(c, plan[n], disk, es);
  }

  lemma HashedIsCopied(c: Codec, planned: Item, disk: map<string, Source>, es: seq<Entry>)
    requires planned.source in disk && Fits(planned.kind, disk[planned.source])
    requires planned.kind.File? ==> es != []
    requires Listing(c, es, Placed(planned.path, disk[planned.source]))
    ensures CopiedItem(c, planned, Hashed(c, planned, es), disk)
  {
    assert RecordedAs(c, Hashed(c, planned, es), es);
  }

  /** Item `n` is in the vault too. */
  lemma VaultStep(
    c: Codec, plan: seq<Item>, disk: map<string, Source>, n: nat, manifest: seq<Entry>,
    before: VaultState, after: VaultState, es: seq<Entry>)
    requires n < |plan| && forall i :: 0 <= i <= n ==> plan[i].source in disk
    requires before == VaultState(true, CopyOf(plan, disk, n), DirsOf(plan, n), None, false)
    requires Listing(c, manifest, before.files)
    requires CopiedFiles(
               c, WithDir(before, plan[n].kind, plan[n].path), after, es, Placed(plan[n].path, disk[plan[n].source]))
    ensures after == VaultState(true, CopyOf(plan, disk, n + 1), DirsOf(plan, n + 1), None, false)
    ensures Listing(c, manifest + es, after.files)
  {
    ListingAppend(c, manifest, before.files, es, Placed(plan[n].path, disk[plan[n].source]));
    DirsStep(plan, n);
  }

  lemma DirsStep(plan: seq<Item>, n: nat)
    requires n < |plan|
    ensures DirsOf(plan, n + 1) == if plan[n].kind.Dir? then DirsOf(plan, n) + {plan[n].path} else DirsOf(plan, n)
  {
  }

  /** The item with the hash, the count and the size of its copies. */
  function Hashed(c: Codec, item: Item, es: seq<Entry>): (r: Item)
    requires item.kind.File? ==> es != []
  {
    item.(files := Some(|es|), bytes := Some(TotalBytes(es)), sha := Some(ItemHash(c, item.kind, item.path, es)))
  }

  lemma CopyBegins(c: Codec, plan: seq<Item>, disk: map<string, Source>)
    ensures CopiedUpTo(c, plan, disk, 0, plan, [], VaultState(true, map[], {}, None, false))
  {
    assert EntrySet(c, map[]) == {};
  }

  /** The body of the loop over the items. */
  method CopyItem(
    c: Codec, plan: seq<Item>, n: nat, items: seq<Item>, ghost manifest: seq<Entry>, vault: Vault,
    disk: map<string, Source>)
    returns (r: Result<(Item, seq<Entry>), SnapshotError>)
    requires n < |plan| && |items| == |plan| && CopiedUpTo(c, plan, disk, n, items, manifest, vault.state)
    modifies vault
    ensures r.Ok? ==>
              CopiedUpTo(c, plan, disk, n + 1, items[n := r.value.0], manifest + r.value.1, vault.state)
  {
    var item := items[n];
    assert item == plan[n];
    if item.source !in disk { return Err(StoreFailed); }
    ghost var before := vault.state;
    var es := vault.CopyIn(c, disk[item.source], item.kind, item.path);
    if es.None? { return Err(StoreFailed); }
    if item.kind.File? && es.value == [] { return Err(CopiedNothing); }
    RecordStep(c, plan, disk, n, items, es.value);
    VaultStep(c, plan, disk, n, manifest, before, vault.state, es.value);
    r := Ok((Hashed(c, item, es.value), es.value));
  }

  method CopyItems(c: Codec, plan: seq<Item>, vault: Vault, disk: map<string, Source>)
    returns (r: Result<(seq<Item>, seq<Entry>), SnapshotError>)
    requires vault.state == VaultState(true, map[], {}, None, false)
    modifies vault
    ensures r.Ok? ==> CopiedUpTo(c, plan, disk, |plan|, r.value.0, r.value.1, vault.state)
  {
    var items, manifest: seq<Entry> := plan, [];
    CopyBegins(c, plan, disk);
    for n := 0 to |plan|
      invariant |items| == |plan|
      invariant CopiedUpTo(c, plan, disk, n, items, manifest, vault.state)
    {
      var copied := CopyItem(c, plan, n, items, manifest, vault, disk);
      if copied.Err? { return Err(copied.error); }
      items := items[n := copied.value.0];
      manifest := manifest + copied.value.1;
    }
    r := Ok((items, manifest));
  }

  /** What a snapshot leaves: the record, the vault and the manifest. */
  ghost predicate Captured(
    c: Codec, plan: Record, disk: map<string, Source>, at: string, record: Record, manifest: seq<Entry>, v: VaultState)
  {
    ValidItems(plan.items) && CopiedItems(c, plan.items, record.items, disk, |plan.items|) &&
    v == VaultState(true, CopyOf(plan.items, disk, |plan.items|), DirsOf(plan.items, |plan.items|),
                    Some(c.toJson(manifest)), true) &&
    Listing(c, manifest, v.files) && Sorted(manifest, ByPath()) &&
    record == Record(record.items, Some(at), Some(c.sha256(c.toJson(manifest)))) &&
    ValidRecord(record)
  }

  /** The names are those of the files, each once. */
  ghost predicate Names(ps: seq<string>, files: map<string, Bytes>) {
    (forall p :: p in ps <==> p in files) && forall i, j :: 0 <= i < j < |ps| ==> ps[i] != ps[j]
  }

  /** The item of a FILE has the hash and the size of its content, that of a DIR the tree hash of its files. */
  ghost predicate RecordsSource(c: Codec, planned: Item, item: Item, s: Source) {
    match s
    case FileAt(content) =>
      planned.kind.File? &&
      item == planned.(sha := Some(c.sha256(content)), files := Some(1), bytes := Some(|content|))
    case DirAt(files) =>
      planned.kind.Dir? &&
      exists ps :: Names(ps, files) &&
        item == planned.(sha := Some(c.treeHash(planned.path, Entries(c, planned.path + "/", ps, files))),
                         files := Some(|ps|), bytes := Some(|Joined(ps, files)|))
  }

  lemma Twice(es: seq<Entry>, i: nat, j: nat)
    requires i < j < |es| && es[i] == es[j]
    ensures multiset(es)[es[j]] >= 2
  {
    assert es == es[..j] + [es[j]] + es[j + 1..];
    assert multiset(es) == multiset(es[..j]) + multiset{es[j]} + multiset(es[j + 1..]);
    assert es[i] == es[..j][i];
    assert multiset(es[..j])[es[j]] >= 1;
  }

  lemma ListedApart(c: Codec, es: seq<Entry>, files: map<string, Bytes>)
    requires Listing(c, es, files)
    ensures DistinctPaths(es)
  {
    ListingMembers(c, es, files);
    forall i, j | 0 <= i < j < |es| ensures es[i].path != es[j].path {
      assert multiset(es)[es[j]] <= 1;
      assert es[i] in es && es[j] in es;
      if es[i] == es[j] { Twice(es, i, j); }
    }
  }

  lemma ListedFile(c: Codec, es: seq<Entry>, path: string, content: Bytes)
    requires Listing(c, es, map[path := content])
    ensures es == [EntryOf(c, path, content)]
  {
    var e := EntryOf(c, path, content);
    ListOne(c, path, content);
    assert multiset(es) == multiset([e]);
    assert |es| == |multiset(es)| == |multiset([e])| == 1;
    assert es[0] in multiset(es);
  }

  /** A listing of a placed dir is that of its files, in some order. */
  lemma ListedDir(c: Codec, es: seq<Entry>, path: string, files: map<string, Bytes>) returns (ps: seq<string>)
    requires Listing(c, es, PlacedDir(path, files, files.Keys))
    ensures Names(ps, files) && es == Entries(c, path + "/", ps, files)
  {
    var placed := PlacedDir(path, files, files.Keys);
    ListingMembers(c, es, placed);
    ListedApart(c, es, placed);
    forall i | 0 <= i < |es| ensures PlacedAs(c, es[i], path, files) {
      assert es[i] in es;
      assert es[i].path in PathsUnder(path, files.Keys);
    }
    ps := seq(|es|, i requires 0 <= i < |es| => es[i].path[|path| + 1..]);
    forall i | 0 <= i < |es| ensures es[i].path == path + "/" + ps[i] && ps[i] in files {
      assert PlacedAs(c, es[i], path, files);
    }
    forall p | p in files ensures p in ps {
      assert (path + "/" + p)[|path| + 1..] == p;
      assert path + "/" + p in placed;
      var i :| 0 <= i < |es| && es[i] == EntryOf(c, path + "/" + p, placed[path + "/" + p]);
      assert ps[i] == p;
    }
    assert es == Entries(c, path + "/", ps, files);
  }

  predicate PlacedAs(c: Codec, e: Entry, path: string, files: map<string, Bytes>) {
    |e.path| > |path| && e.path == path + "/" + e.path[|path| + 1..] && e.path[|path| + 1..] in files &&
    e == EntryOf(c, e.path, files[e.path[|path| + 1..]])
  }

  lemma CopiedRecords(c: Codec, planned: Item, item: Item, disk: map<string, Source>)
    requires CopiedItem(c, planned, item, disk)
    ensures RecordsSource(c, planned, item, disk[planned.source])
  {
    var es :| Listing(c, es, Placed(planned.path, disk[planned.source])) && RecordedAs(c, item, es);
    match disk[planned.source]
    case FileAt(content) =>
      ListedFile(c, es, planned.path, content);
      assert TotalBytes(es) == es[0].bytes + TotalBytes(es[1..]);
    case DirAt(files) =>
      var ps := ListedDir(c, es, planned.path, files);
      TotalIsJoined(c, planned.path + "/", ps, files);
  }

  /** What a snapshot records of an item is the hash, the number and the size of what its source held. */
  lemma RecordedFromSource(
    c: Codec, plan: Record, disk: map<string, Source>, at: string, record: Record, manifest: seq<Entry>, v: VaultState,
    k: nat)
    requires Captured(c, plan, disk, at, record, manifest, v) && k < |plan.items|
    ensures |record.items| == |plan.items| && plan.items[k].source in disk
    ensures RecordsSource(c, plan.items[k], record.items[k], disk[plan.items[k].source])
  {
    DoneAt(c, plan.items, record.items, disk, |plan.items|, k);
    CopiedRecords(c, plan.items[k], record.items[k], disk);
  }

  method Snapshot(
    c: Codec, plan: Record, vault: Vault, capturedAt: string, inspect: map<string, Info>, disk: map<string, Source>)
    returns (r: Result<(Record, seq<Entry>), SnapshotError>)
    modifies vault
    ensures !MayCopy(plan, old(vault.state), inspect) ==> r.Err? && vault.state == old(vault.state)
    ensures r.Ok? ==> Captured(c, plan, disk, capturedAt, r.value.0, r.value.1, vault.state)
  {
    var refused := Refusal(plan, vault, inspect);
    if refused.Some? { return Err(refused.value); }
    var ok := vault.Create();
    if !ok { return Err(StoreFailed); }
    var copies := CopyItems(c, plan.items, vault, disk);
    if copies.Err? { return Err(copies.error); }
    var (items, manifest) := copies.value;
    var listed := vault.List();
    if listed.None? { return Err(StoreFailed); }
    if listed.value != set e | e in manifest :: e.path { return Err(OtherFiles); }
    var sorted := Sort(manifest, ByPath());
    PathOrder();
    SortSorts(manifest, ByPath());
    ok := vault.WriteManifest(c.toJson(sorted));
    if !ok { return Err(StoreFailed); }
    ok := vault.Seal();
    if !ok { return Err(StoreFailed); }
    var record := Record(items, Some(capturedAt), Some(c.sha256(c.toJson(sorted))));
    if !IsValidRecord(record) { return Err(InvalidRecord); }
    r := Ok((record, sorted));
  }

  predicate IsValidRecord(r: Record)
    ensures IsValidRecord(r) <==> ValidRecord(r)
  {
    r.items != [] &&
    (forall i :: 0 <= i < |r.items| ==> r.items[i].path != "" && r.items[i].source != "") &&
    (forall i, j :: 0 <= i < |r.items| && 0 <= j < |r.items| && i != j ==>
      Lower(r.items[i].path) != Lower(r.items[j].path) && !InsideDir(Lower(r.items[i].path), Lower(r.items[j].path))) &&
    if r.capturedAt.Some? then r.manifestSha.Some? && forall i :: 0 <= i < |r.items| ==> Complete(r.items[i])
    else r.manifestSha.None? && forall i :: 0 <= i < |r.items| ==> !HasHashes(r.items[i])
  }
}
