/**
 Hashing a vault again (src/application/evidence.rs:158-307) and what a full match
 means: nothing but the captured files, all of them, unchanged.
*/
module EvidenceVerify {
  import opened Prelude
  import opened StableSort
  import opened EvidenceVault

  datatype Verdict = Match | Mismatch | Absent | Extra

  /** What a report line compares. */
  datatype Shown =
    | ShaOnly(sha: string)
    | FileShown(sha: string, bytes: nat)
    | ItemShown(itemSha: Option<string>, files: Option<nat>, itemBytes: Option<nat>)

  datatype Verified = Verified(path: string, status: Verdict, expected: Option<Shown>, actual: Option<Shown>)

  datatype Report = Report(
    manifest: Verified, items: seq<Verified>, files: nat, filesMatch: nat, problems: seq<Verified>)

  predicate AllMatch(r: Report) {
    r.manifest.status.Match? && (forall i :: 0 <= i < |r.items| ==> r.items[i].status.Match?) && r.problems == []
  }

  function Judge(path: string, expected: Option<Shown>, actual: Option<Shown>): (v: Verified)
    ensures v.status.Match? <==> expected.Some? && expected == actual
    ensures v.status.Absent? <==> expected.Some? && actual.None?
    ensures v.status.Extra? <==> expected.None?
  {
    var status := if expected.None? then Extra
                  else if actual.None? then Absent
                  else if expected == actual then Match else Mismatch;
    Verified(path, status, expected, actual)
  }

  // ---- the lines of a report ----

  function ManifestLine(c: Codec, record: Record, v: VaultState): (r: Verified) {
    Judge("MANIFEST.json",
          if record.manifestSha.Some? then Some(ShaOnly(record.manifestSha.value)) else None,
          if v.manifest.Some? then Some(ShaOnly(c.sha256(v.manifest.value))) else None)
  }

  function FileLine(c: Codec, e: Entry, files: map<string, Bytes>): (r: Verified) {
    Judge(e.path, Some(FileShown(e.sha, e.bytes)),
          if e.path in files then Some(FileShown(c.sha256(files[e.path]), |files[e.path]|)) else None)
  }

  function ExtraLine(c: Codec, path: string, content: Bytes): (r: Verified) {
    Judge(path, None, Some(ShaOnly(c.sha256(content))))
  }

  /** The listed files that are there, hashed again. */
  function Fresh(c: Codec, listed: seq<Entry>, files: map<string, Bytes>): (r: seq<Entry>) {
    if listed == [] then []
    else Fresh(c, listed[..|listed| - 1], files) +
         var p := listed[|listed| - 1].path;
         if p in files then [EntryOf(c, p, files[p])] else []
  }

  function Failing(c: Codec, listed: seq<Entry>, files: map<string, Bytes>): (r: seq<Verified>) {
    if listed == [] then []
    else Failing(c, listed[..|listed| - 1], files) +
         var line := FileLine(c, listed[|listed| - 1], files);
         if line.status.Match? then [] else [line]
  }

  /** The entries of one item. */
  function Mine(es: seq<Entry>, item: Item): (r: seq<Entry>) {
    if es == [] then []
    else (if Belongs(item.kind, item.path, es[0].path) then [es[0]] else []) + Mine(es[1..], item)
  }

  predicate Present(mine: seq<Entry>, item: Item, v: VaultState) {
    mine != [] || (item.kind.Dir? && HasDir(v, item.path))
  }

  function ItemLine(c: Codec, item: Item, rehashed: seq<Entry>, v: VaultState): (r: Verified) {
    var mine := Mine(rehashed, item);
    Judge(item.path, Some(ItemShown(item.sha, item.files, item.bytes)),
          if Present(mine, item, v)
          then Some(ItemShown(Some(ItemHash(c, item.kind, item.path, mine)), Some(|mine|), Some(TotalBytes(mine))))
          else None)
  }

  function Listed(c: Codec, v: VaultState): (r: Option<seq<Entry>>) {
    if v.manifest.Some? then c.fromJson(v.manifest.value) else Some([])
  }

  ghost predicate ListedPath(listed: seq<Entry>, p: string) { exists i :: 0 <= i < |listed| && listed[i].path == p }

  function Paths(lines: seq<Verified>): (r: set<string>) { set i | 0 <= i < |lines| :: lines[i].path }

  lemma PathsSnoc(lines: seq<Verified>, line: Verified)
    ensures Paths(lines + [line]) == Paths(lines) + {line.path}
  {
    forall p ensures p in Paths(lines + [line]) <==> p in Paths(lines) || p == line.path {
      if p in Paths(lines) {
        var i :| 0 <= i < |lines| && lines[i].path == p;
        assert (lines + [line])[i].path == p;
      }
      assert (lines + [line])[|lines|] == line;
    }
  }

  /** One line for each file the manifest does not list. */
  ghost predicate ExtraLines(c: Codec, lines: seq<Verified>, listed: seq<Entry>, files: map<string, Bytes>) {
    (forall i :: 0 <= i < |lines| ==>
      lines[i].path in files && !ListedPath(listed, lines[i].path) &&
      lines[i] == ExtraLine(c, lines[i].path, files[lines[i].path])) &&
    (forall p :: p in files && !ListedPath(listed, p) ==> p in Paths(lines)) &&
    (forall i, j :: 0 <= i < j < |lines| ==> lines[i].path != lines[j].path)
  }

  ghost predicate Reports(c: Codec, record: Record, v: VaultState, r: Report) {
    record.capturedAt.Some? && v.exists_ && Listed(c, v).Some? &&
    var listed := Listed(c, v).value;
    r.manifest == ManifestLine(c, record, v) &&
    r.files == |listed| && r.filesMatch + |Failing(c, listed, v.files)| == |listed| &&
    |Failing(c, listed, v.files)| <= |r.problems| &&
    r.problems[..|Failing(c, listed, v.files)|] == Failing(c, listed, v.files) &&
    ExtraLines(c, r.problems[|Failing(c, listed, v.files)|..], listed, v.files) &&
    |r.items| == |record.items| &&
    forall i :: 0 <= i < |r.items| ==> r.items[i] == ItemLine(c, record.items[i], Fresh(c, listed, v.files), v)
  }

  // ---- what a report says, on the vault itself ----

  function PathsOf(es: seq<Entry>): (ps: seq<string>) { seq(|es|, i requires 0 <= i < |es| => es[i].path) }

  /** How often the manifest lists the path. */
  ghost function Times(listed: seq<Entry>, p: string): (n: nat) { multiset(PathsOf(listed))[p] }

  lemma TimesSnoc(es: seq<Entry>, e: Entry, p: string)
    ensures Times(es + [e], p) == Times(es, p) + if e.path == p then 1 else 0
  {
    assert PathsOf(es + [e]) == PathsOf(es) + [e.path];
  }

  lemma TimesCons(e: Entry, es: seq<Entry>, p: string)
    ensures Times([e] + es, p) == Times(es, p) + if e.path == p then 1 else 0
  {
    assert PathsOf([e] + es) == [e.path] + PathsOf(es);
  }

  /** The entries are the files as they are now, each as often as listed. */
  ghost predicate HashedNow(c: Codec, listed: seq<Entry>, files: map<string, Bytes>, es: seq<Entry>) {
    (forall p :: Times(es, p) == if p in files then Times(listed, p) else 0) &&
    forall i :: 0 <= i < |es| ==> NowIn(c, es[i], files)
  }

  predicate NowIn(c: Codec, e: Entry, files: map<string, Bytes>) {
    e.path in files && e == Entry(e.path, c.sha256(files[e.path]), |files[e.path]|)
  }

  lemma {:induction false} FreshTimes(c: Codec, listed: seq<Entry>, files: map<string, Bytes>, p: string)
    ensures Times(Fresh(c, listed, files), p) == if p in files then Times(listed, p) else 0
  {
    if listed != [] {
      var front, e := listed[..|listed| - 1], listed[|listed| - 1];
      FreshTimes(c, front, files, p);
      assert listed == front + [e];
      TimesSnoc(front, e, p);
      var now := Fresh(c, front, files);
      if e.path in files { TimesSnoc(now, EntryOf(c, e.path, files[e.path]), p); } else { assert now + [] == now; }
    }
  }

  lemma {:induction false} FreshNow(c: Codec, listed: seq<Entry>, files: map<string, Bytes>)
    ensures HashedNow(c, listed, files, Fresh(c, listed, files))
  {
    if listed != [] { FreshNow(c, listed[..|listed| - 1], files); }
    forall p ensures Times(Fresh(c, listed, files), p) == if p in files then Times(listed, p) else 0 {
      FreshTimes(c, listed, files, p);
    }
  }

  lemma {:induction false} MineTimes(es: seq<Entry>, item: Item, p: string)
    ensures Times(Mine(es, item), p) == if Belongs(item.kind, item.path, p) then Times(es, p) else 0
  {
    if es != [] {
      MineTimes(es[1..], item, p);
      TimesCons(es[0], es[1..], p);
      TimesCons(es[0], Mine(es[1..], item), p);
      assert [es[0]] + es[1..] == es;
      assert [] + Mine(es[1..], item) == Mine(es[1..], item);
    }
  }

  lemma {:induction false} MineOf(es: seq<Entry>, item: Item)
    ensures forall e :: e in Mine(es, item) ==> e in es
  {
    if es != [] { MineOf(es[1..], item); }
  }

  /** `ps` are the listed files of the item that are in the vault now, each as often as listed. */
  ghost predicate ThereNow(listed: seq<Entry>, v: VaultState, item: Item, ps: seq<string>) {
    forall p :: multiset(ps)[p] ==
      if p in v.files && (if item.kind.File? then p == item.path else item.path + "/" <= p) then Times(listed, p) else 0
  }

  /**
   The line of an item: absent when no listed file of it is there, nor the dir of a DIR;
   else the hash of the file, or the tree hash of the files, with their number and size.
  */
  ghost predicate ItemSays(c: Codec, listed: seq<Entry>, v: VaultState, item: Item, line: Verified) {
    line.path == item.path && line.expected == Some(ItemShown(item.sha, item.files, item.bytes)) &&
    (line.status == if line.actual.None? then Absent else if line.actual == line.expected then Match else Mismatch) &&
    exists ps: seq<string> ::
      ThereNow(listed, v, item, ps) && (forall p :: p in ps ==> p in v.files) &&
      line.actual ==
        if ps == [] && !(item.kind.Dir? && HasDir(v, item.path)) then None
        else Some(ItemShown(
          Some(if item.kind.File? then c.sha256(v.files[ps[0]])
               else c.treeHash(item.path, Entries(c, "", ps, v.files))),
          Some(|ps|), Some(|Joined(ps, v.files)|)))
  }

  lemma AllNow(c: Codec, es: seq<Entry>, files: map<string, Bytes>)
    requires forall e :: e in es ==> NowIn(c, e, files)
    ensures forall p :: p in PathsOf(es) ==> p in files
    ensures es == Entries(c, "", PathsOf(es), files)
  {
    forall i | 0 <= i < |es|
      ensures PathsOf(es)[i] in files && es[i] == EntryOf(c, "" + PathsOf(es)[i], files[PathsOf(es)[i]])
    {
      assert es[i] in es && NowIn(c, es[i], files);
      assert "" + es[i].path == es[i].path;
    }
  }

  lemma LineSays(c: Codec, listed: seq<Entry>, v: VaultState, item: Item)
    ensures ItemSays(c, listed, v, item, ItemLine(c, item, Fresh(c, listed, v.files), v))
  {
    var again := Fresh(c, listed, v.files);
    var mine := Mine(again, item);
    var ps := PathsOf(mine);
    FreshNow(c, listed, v.files);
    forall p ensures multiset(ps)[p] ==
      if p in v.files && (if item.kind.File? then p == item.path else item.path + "/" <= p) then Times(listed, p) else 0
    {
      MineTimes(again, item, p);
    }
    MineOf(again, item);
    forall e | e in mine ensures NowIn(c, e, v.files) {
      var i :| 0 <= i < |again| && again[i] == e;
    }
    AllNow(c, mine, v.files);
    TotalIsJoined(c, "", ps, v.files);
    assert ThereNow(listed, v, item, ps);
  }

  /** A FILE item: absent exactly when it is not both listed and there, else what is there now. */
  lemma FileItemSays(c: Codec, listed: seq<Entry>, v: VaultState, item: Item, line: Verified)
    requires item.kind.File? && ItemSays(c, listed, v, item, line)
    ensures line.status.Absent? <==> !(Times(listed, item.path) > 0 && item.path in v.files)
    ensures Times(listed, item.path) == 1 && item.path in v.files ==>
              var content := v.files[item.path];
              line.actual == Some(ItemShown(Some(c.sha256(content)), Some(1), Some(|content|))) &&
              (line.status.Match? <==>
               item.sha == Some(c.sha256(content)) && item.files == Some(1) && item.bytes == Some(|content|))
  {
    var ps: seq<string> :|
      ThereNow(listed, v, item, ps) && (forall p :: p in ps ==> p in v.files) &&
      line.actual ==
        if ps == [] then None
        else Some(ItemShown(Some(c.sha256(v.files[ps[0]])), Some(|ps|), Some(|Joined(ps, v.files)|)));
    forall p | p in ps ensures p == item.path { assert multiset(ps)[p] > 0; }
    OnlyOne(ps, item.path);
    if ps != [] {
      assert ps[0] in ps;
      if |ps| == 1 { assert Joined(ps, v.files) == v.files[ps[0]] + Joined(ps[1..], v.files); }
    }
  }

  lemma {:induction false} OnlyOne(ps: seq<string>, p: string)
    requires forall q :: q in ps ==> q == p
    ensures multiset(ps)[p] == |ps|
  {
    if ps != [] {
      assert ps == [ps[0]] + ps[1..] && ps[0] in ps;
      forall q | q in ps[1..] ensures q == p { assert q in ps; }
      OnlyOne(ps[1..], p);
    }
  }

  /** What a line says of a listed file that is not as listed. */
  predicate FileSays(c: Codec, e: Entry, files: map<string, Bytes>, line: Verified) {
    line.path == e.path && line.expected == Some(FileShown(e.sha, e.bytes)) &&
    if e.path in files
    then line.status.Mismatch? && line.actual == Some(FileShown(c.sha256(files[e.path]), |files[e.path]|))
    else line.status.Absent? && line.actual.None?
  }

  /** `at` are the places of the listed files that are not there as listed, in order. */
  ghost predicate NotAsListed(c: Codec, listed: seq<Entry>, files: map<string, Bytes>, at: seq<nat>) {
    (forall i, j :: 0 <= i < j < |at| ==> at[i] < at[j]) &&
    (forall i :: 0 <= i < |at| ==> at[i] < |listed|) &&
    forall k :: 0 <= k < |listed| ==> (k in at <==> !NowIn(c, listed[k], files))
  }

  lemma NotAsListedSnoc(c: Codec, listed: seq<Entry>, files: map<string, Bytes>, at: seq<nat>)
    requires listed != [] && NotAsListed(c, listed[..|listed| - 1], files, at)
    ensures var n := |listed| - 1;
            NotAsListed(c, listed, files, if NowIn(c, listed[n], files) then at else at + [n])
  {
    var n := |listed| - 1;
    var more := if NowIn(c, listed[n], files) then at else at + [n];
    assert n !in at;
    forall k | 0 <= k < |listed| ensures k in more <==> !NowIn(c, listed[k], files) {
      assert k < n ==> listed[..n][k] == listed[k] && (k in at <==> !NowIn(c, listed[k], files));
    }
  }

  lemma FailingLine(c: Codec, e: Entry, files: map<string, Bytes>)
    ensures FileLine(c, e, files).status.Match? <==> NowIn(c, e, files)
    ensures !NowIn(c, e, files) ==> FileSays(c, e, files, FileLine(c, e, files))
  {
  }

  /** The lines say it of the files at those places. */
  ghost predicate AllSay(c: Codec, listed: seq<Entry>, files: map<string, Bytes>, at: seq<nat>, lines: seq<Verified>) {
    |lines| >= |at| && forall i :: 0 <= i < |at| ==> at[i] < |listed| && FileSays(c, listed[at[i]], files, lines[i])
  }

  lemma AllSaySnoc(
    c: Codec, listed: seq<Entry>, files: map<string, Bytes>, at: seq<nat>, lines: seq<Verified>, line: Verified)
    requires listed != [] && |lines| == |at| && AllSay(c, listed[..|listed| - 1], files, at, lines)
    requires FileSays(c, listed[|listed| - 1], files, line)
    ensures AllSay(c, listed, files, at + [|listed| - 1], lines + [line])
  {
  }

  lemma FailingSnoc(c: Codec, listed: seq<Entry>, files: map<string, Bytes>)
    requires listed != []
    ensures var was, e := Failing(c, listed[..|listed| - 1], files), listed[|listed| - 1];
            Failing(c, listed, files) == if NowIn(c, e, files) then was else was + [FileLine(c, e, files)]
  {
    var was, e := Failing(c, listed[..|listed| - 1], files), listed[|listed| - 1];
    FailingLine(c, e, files);
    assert was + [] == was;
  }

  ghost predicate FailingAt(
    c: Codec, listed: seq<Entry>, files: map<string, Bytes>, at: seq<nat>, lines: seq<Verified>)
  {
    NotAsListed(c, listed, files, at) && |lines| == |at| && AllSay(c, listed, files, at, lines)
  }

  lemma FailingAtSnoc(
    c: Codec, listed: seq<Entry>, files: map<string, Bytes>, at: seq<nat>, lines: seq<Verified>)
    returns (more: seq<nat>)
    requires listed != [] && FailingAt(c, listed[..|listed| - 1], files, at, lines)
    ensures var e := listed[|listed| - 1];
            FailingAt(c, listed, files, more, if NowIn(c, e, files) then lines else lines + [FileLine(c, e, files)])
  {
    var e := listed[|listed| - 1];
    NotAsListedSnoc(c, listed, files, at);
    FailingLine(c, e, files);
    if NowIn(c, e, files) {
      more := at;
    } else {
      AllSaySnoc(c, listed, files, at, lines, FileLine(c, e, files));
      more := at + [|listed| - 1];
    }
  }

  lemma {:induction false} FailingSays(c: Codec, listed: seq<Entry>, files: map<string, Bytes>) returns (at: seq<nat>)
    ensures FailingAt(c, listed, files, at, Failing(c, listed, files))
  {
    if listed == [] {
      at := [];
    } else {
      var was := Failing(c, listed[..|listed| - 1], files);
      at := FailingSays(c, listed[..|listed| - 1], files);
      at := FailingAtSnoc(c, listed, files, at, was);
      FailingSnoc(c, listed, files);
    }
  }

  predicate ExtraSays(c: Codec, files: map<string, Bytes>, line: Verified) {
    line.path in files && line == Verified(line.path, Extra, None, Some(ShaOnly(c.sha256(files[line.path]))))
  }

  /** One line for each file that is not listed, and no other. */
  ghost predicate ExtrasSay(c: Codec, listed: seq<Entry>, files: map<string, Bytes>, lines: seq<Verified>) {
    (forall i :: 0 <= i < |lines| ==> ExtraSays(c, files, lines[i]) && Times(listed, lines[i].path) == 0) &&
    (forall i, j :: 0 <= i < j < |lines| ==> lines[i].path != lines[j].path) &&
    forall p :: p in files && Times(listed, p) == 0 ==> exists i :: 0 <= i < |lines| && lines[i].path == p
  }

  predicate ManifestSays(c: Codec, record: Record, v: VaultState, line: Verified) {
    line.actual == (if v.manifest.Some? then Some(ShaOnly(c.sha256(v.manifest.value))) else None) &&
    (line.status.Match? <==>
     record.manifestSha.Some? && v.manifest.Some? && record.manifestSha.value == c.sha256(v.manifest.value))
  }

  /**
   Every line of a report: the manifest's, one for each listed file that is not there as
   listed, one for each file that is not listed, and one for each item.
  */
  ghost predicate Says(c: Codec, record: Record, v: VaultState, listed: seq<Entry>, r: Report, at: seq<nat>) {
    ManifestSays(c, record, v, r.manifest) && r.files == |listed| && r.filesMatch + |at| == |listed| &&
    |at| <= |r.problems| && FailingAt(c, listed, v.files, at, r.problems[..|at|]) &&
    ExtrasSay(c, listed, v.files, r.problems[|at|..]) &&
    |r.items| == |record.items| &&
    forall i :: 0 <= i < |r.items| ==> ItemSays(c, listed, v, record.items[i], r.items[i])
  }

  lemma ListedTimes(listed: seq<Entry>, p: string)
    ensures ListedPath(listed, p) <==> Times(listed, p) > 0
  {
    if i :| 0 <= i < |listed| && listed[i].path == p { assert PathsOf(listed)[i] == p; }
    if Times(listed, p) > 0 {
      assert p in PathsOf(listed);
      var i :| 0 <= i < |listed| && PathsOf(listed)[i] == p;
    }
  }

  lemma ExtraLinesSay(c: Codec, lines: seq<Verified>, listed: seq<Entry>, files: map<string, Bytes>)
    requires ExtraLines(c, lines, listed, files)
    ensures ExtrasSay(c, listed, files, lines)
  {
    forall i | 0 <= i < |lines| ensures ExtraSays(c, files, lines[i]) && Times(listed, lines[i].path) == 0 {
      ListedTimes(listed, lines[i].path);
    }
    forall p | p in files && Times(listed, p) == 0 ensures exists i :: 0 <= i < |lines| && lines[i].path == p {
      ListedTimes(listed, p);
      assert p in Paths(lines);
    }
  }

  lemma ReportSays(c: Codec, record: Record, v: VaultState, r: Report) returns (at: seq<nat>)
    requires Reports(c, record, v, r)
    ensures Says(c, record, v, Listed(c, v).value, r, at)
  {
    var listed := Listed(c, v).value;
    at := FailingSays(c, listed, v.files);
    ExtraLinesSay(c, r.problems[|at|..], listed, v.files);
    forall i | 0 <= i < |r.items| ensures ItemSays(c, listed, v, record.items[i], r.items[i]) {
      LineSays(c, listed, v, record.items[i]);
    }
  }

  // ---- the verification ----

  datatype VerifyError = NotCaptured | VaultAbsent | Unparsable | VaultFailed

  /** Hash every listed file that is there. */
  method CheckListed(c: Codec, vault: Vault, listed: seq<Entry>)
    returns (r: Option<(seq<Entry>, nat, seq<Verified>)>)
    ensures r.Some? ==>
              r.value.0 == Fresh(c, listed, vault.state.files) && r.value.2 == Failing(c, listed, vault.state.files) &&
              r.value.1 + |r.value.2| == |listed| && HashedNow(c, listed, vault.state.files, r.value.0)
  {
    FreshNow(c, listed, vault.state.files);
    var rehashed: seq<Entry>, matching, problems: seq<Verified> := [], 0, [];
    for n := 0 to |listed|
      invariant rehashed == Fresh(c, listed[..n], vault.state.files)
      invariant problems == Failing(c, listed[..n], vault.state.files) && matching + |problems| == n
    {
      assert listed[..n + 1][..n] == listed[..n];
      var e := listed[n];
      var line := Judge(e.path, Some(FileShown(e.sha, e.bytes)), None);
      if e.path in vault.state.files {
        var actual := vault.Hash(c, e.path);
        if actual.None? { return None; }
        line := Judge(e.path, Some(FileShown(e.sha, e.bytes)), Some(FileShown(actual.value.sha, actual.value.bytes)));
        rehashed := rehashed + [actual.value];
      }
      if line.status.Match? { matching := matching + 1; } else { problems := problems + [line]; }
    }
    assert listed[..|listed|] == listed;
    return Some((rehashed, matching, problems));
  }

  method CheckExtra(c: Codec, vault: Vault, onDisk: set<string>, listed: seq<Entry>) returns (r: Option<seq<Verified>>)
    requires onDisk == vault.state.files.Keys
    ensures r.Some? ==> ExtraLines(c, r.value, listed, vault.state.files)
  {
    var inManifest := set i | 0 <= i < |listed| :: listed[i].path;
    assert forall p :: p in inManifest <==> ListedPath(listed, p);
    var lines: seq<Verified>, todo := [], onDisk - inManifest;
    while todo != {}
      decreases todo
      invariant todo <= onDisk - inManifest
      invariant Paths(lines) == onDisk - inManifest - todo
      invariant forall i :: 0 <= i < |lines| ==>
                  lines[i].path in Paths(lines) &&
                  lines[i] == ExtraLine(c, lines[i].path, vault.state.files[lines[i].path])
      invariant forall i, j :: 0 <= i < j < |lines| ==> lines[i].path != lines[j].path
    {
      var p :| p in todo;
      var actual := vault.Hash(c, p);
      if actual.None? { return None; }
      var line := Judge(p, None, Some(ShaOnly(actual.value.sha)));
      PathsSnoc(lines, line);
      lines := lines + [line];
      todo := todo - {p};
    }
    return Some(lines);
  }

  /** A line for each item, from the files hashed again. */
  method CheckItems(c: Codec, record: Record, rehashed: seq<Entry>, v: VaultState) returns (items: seq<Verified>)
    ensures |items| == |record.items|
    ensures forall i :: 0 <= i < |items| ==> items[i] == ItemLine(c, record.items[i], rehashed, v)
  {
    items := [];
    for n := 0 to |record.items|
      invariant |items| == n
      invariant forall i :: 0 <= i < n ==> items[i] == ItemLine(c, record.items[i], rehashed, v)
    {
      items := items + [ItemLine(c, record.items[n], rehashed, v)];
    }
  }

  /** The checks and the lines of the report. */
  method Inspect(c: Codec, record: Record, vault: Vault) returns (r: Result<Report, VerifyError>)
    ensures record.capturedAt.None? <==> r == Err(NotCaptured)
    ensures record.capturedAt.Some? && !vault.state.exists_ <==> r == Err(VaultAbsent)
    ensures r == Err(Unparsable) ==> Listed(c, vault.state).None?
    ensures r.Ok? ==> Reports(c, record, vault.state, r.value)
  {
    if record.capturedAt.None? { return Err(NotCaptured); }
    if !vault.state.exists_ { return Err(VaultAbsent); }
    var bytes := vault.ReadManifest();
    if bytes.None? { return Err(VaultFailed); }
    var listed := Listed(c, vault.state);
    if listed.None? { return Err(Unparsable); }
    var onDisk := vault.List();
    if onDisk.None? { return Err(VaultFailed); }
    var files := CheckListed(c, vault, listed.value);
    if files.None? { return Err(VaultFailed); }
    var (rehashed, matching, problems) := files.value;
    var extra := CheckExtra(c, vault, onDisk.value, listed.value);
    if extra.None? { return Err(VaultFailed); }
    var items := CheckItems(c, record, rehashed, vault.state);
    assert (problems + extra.value)[..|problems|] == problems;
    assert (problems + extra.value)[|problems|..] == extra.value;
    r := Ok(Report(ManifestLine(c, record, vault.state), items, |listed.value|, matching, problems + extra.value));
  }

  /** The report, or why there is none. */
  method Verify(c: Codec, record: Record, vault: Vault) returns (r: Result<Report, VerifyError>)
    ensures record.capturedAt.None? <==> r == Err(NotCaptured)
    ensures record.capturedAt.Some? && !vault.state.exists_ <==> r == Err(VaultAbsent)
    ensures r == Err(Unparsable) ==> Listed(c, vault.state).None?
    ensures r.Ok? ==> Reports(c, record, vault.state, r.value)
    ensures r.Ok? ==> exists at :: Says(c, record, vault.state, Listed(c, vault.state).value, r.value, at)
  {
    r := Inspect(c, record, vault);
    if r.Ok? { ghost var at := ReportSays(c, record, vault.state, r.value); }
  }

  // ---- a full match ----

  /** The manifest lists what the vault holds, nothing more and nothing less. */
  ghost predicate ListsAll(c: Codec, listed: seq<Entry>, files: map<string, Bytes>) {
    AllAsListed(c, listed, files) && forall p :: p in files ==> ListedPath(listed, p)
  }

  /** The listed file is there, unchanged. */
  predicate AsListed(c: Codec, e: Entry, files: map<string, Bytes>) {
    e.path in files && e == EntryOf(c, e.path, files[e.path])
  }

  ghost predicate AllAsListed(c: Codec, listed: seq<Entry>, files: map<string, Bytes>) {
    forall i :: 0 <= i < |listed| ==> AsListed(c, listed[i], files)
  }

  lemma LastAsListed(c: Codec, front: seq<Entry>, e: Entry, files: map<string, Bytes>)
    ensures AllAsListed(c, front + [e], files) <==> AllAsListed(c, front, files) && AsListed(c, e, files)
  {
    var all := front + [e];
    assert all[|front|] == e && forall i :: 0 <= i < |front| ==> all[i] == front[i];
  }

  lemma FileLineMatches(c: Codec, e: Entry, files: map<string, Bytes>)
    ensures FileLine(c, e, files).status.Match? <==> AsListed(c, e, files)
  {
  }

  lemma {:induction false} FailingNone(c: Codec, listed: seq<Entry>, files: map<string, Bytes>)
    ensures Failing(c, listed, files) == [] <==> AllAsListed(c, listed, files)
    ensures Failing(c, listed, files) == [] ==> Fresh(c, listed, files) == listed
  {
    if listed != [] {
      var front, e := listed[..|listed| - 1], listed[|listed| - 1];
      assert listed == front + [e];
      FailingNone(c, front, files);
      LastAsListed(c, front, e, files);
      FileLineMatches(c, e, files);
    }
  }

  lemma ExtraNone(c: Codec, lines: seq<Verified>, listed: seq<Entry>, files: map<string, Bytes>)
    requires ExtraLines(c, lines, listed, files)
    ensures lines == [] <==> forall p :: p in files ==> ListedPath(listed, p)
  {
    assert lines != [] ==> lines[0].path in files && !ListedPath(listed, lines[0].path);
  }

  lemma ProblemParts(c: Codec, record: Record, v: VaultState, r: Report)
    returns (failing: seq<Verified>, lines: seq<Verified>)
    requires Reports(c, record, v, r)
    ensures r.problems == failing + lines
    ensures failing == Failing(c, Listed(c, v).value, v.files) && ExtraLines(c, lines, Listed(c, v).value, v.files)
    ensures r.filesMatch + |failing| == r.files
  {
    failing := Failing(c, Listed(c, v).value, v.files);
    lines := r.problems[|failing|..];
  }

  lemma ProblemsNone(c: Codec, record: Record, v: VaultState, r: Report)
    requires Reports(c, record, v, r)
    ensures r.problems == [] <==> ListsAll(c, Listed(c, v).value, v.files)
    ensures r.problems == [] ==> Fresh(c, Listed(c, v).value, v.files) == Listed(c, v).value && r.filesMatch == r.files
  {
    var listed := Listed(c, v).value;
    var failing, lines := ProblemParts(c, record, v, r);
    FailingNone(c, listed, v.files);
    ExtraNone(c, lines, listed, v.files);
  }

  /** The item is there and its hash, its count and its size are the recorded ones. */
  ghost predicate ItemAgrees(c: Codec, item: Item, es: seq<Entry>, v: VaultState) {
    Present(Mine(es, item), item, v) && RecordedAs(c, item, Mine(es, item))
  }

  /**
   A report is all MATCH exactly when the manifest has the recorded hash, lists what
   the vault holds, and every item of the record follows from its entries.
  */
  lemma VerifyExact(c: Codec, record: Record, v: VaultState, r: Report)
    requires Reports(c, record, v, r)
    ensures AllMatch(r) <==>
            record.manifestSha.Some? && v.manifest.Some? && c.sha256(v.manifest.value) == record.manifestSha.value &&
            ListsAll(c, Listed(c, v).value, v.files) &&
            forall i :: 0 <= i < |record.items| ==> ItemAgrees(c, record.items[i], Listed(c, v).value, v)
  {
    ProblemsNone(c, record, v, r);
    var listed := Listed(c, v).value;
    if r.problems == [] {
      forall i | 0 <= i < |record.items|
        ensures r.items[i].status.Match? <==> ItemAgrees(c, record.items[i], listed, v)
      {
        assert r.items[i] == ItemLine(c, record.items[i], listed, v);
      }
    }
  }

  // ---- the files of one item ----

  lemma {:induction false} MineCounts(es: seq<Entry>, item: Item, e: Entry)
    ensures multiset(Mine(es, item))[e] == if Belongs(item.kind, item.path, e.path) then multiset(es)[e] else 0
  {
    if es != [] {
      assert es == [es[0]] + es[1..];
      MineCounts(es[1..], item, e);
    }
  }

  /** The entries of an item list the files of the item. */
  lemma MineLists(c: Codec, es: seq<Entry>, files: map<string, Bytes>, item: Item)
    requires Listing(c, es, files)
    ensures Listing(c, Mine(es, item), Part(files, item))
  {
    var want := EntrySet(c, Part(files, item));
    forall e ensures multiset(Mine(es, item))[e] == multiset(want)[e] {
      MineCounts(es, item, e);
      assert multiset(es)[e] == multiset(EntrySet(c, files))[e];
      assert e in want <==> e.path in Part(files, item) && e == EntryOf(c, e.path, files[e.path]);
      assert e in EntrySet(c, files) <==> e.path in files && e == EntryOf(c, e.path, files[e.path]);
    }
  }

  lemma PlacedBelongs(kind: Kind, path: string, s: Source, p: string)
    requires Fits(kind, s) && p in Placed(path, s)
    ensures Belongs(kind, path, p)
  {
  }

  lemma PartOfNone(item: Item)
    ensures Part(map[], item) == map[]
  {
  }

  lemma AddNone(m: map<string, Bytes>)
    ensures m + map[] == m && map[] + m == m
  {
  }

  lemma PartSum(a: map<string, Bytes>, b: map<string, Bytes>, item: Item)
    ensures Part(a + b, item) == Part(a, item) + Part(b, item)
  {
  }

  /** Where one side has nothing of the item, the other has all. */
  lemma PartOfMore(a: map<string, Bytes>, b: map<string, Bytes>, item: Item)
    ensures Part(b, item) == map[] ==> Part(a + b, item) == Part(a, item)
    ensures Part(a, item) == map[] ==> Part(a + b, item) == Part(b, item)
  {
    PartSum(a, b, item);
    AddNone(Part(a, item));
    AddNone(Part(b, item));
  }

  /** Of what one item copied, the other items have nothing. */
  lemma PartOfPlaced(items: seq<Item>, s: Source, i: nat, k: nat)
    requires ValidItems(items) && i < |items| && k < |items| && Fits(items[i].kind, s)
    ensures Part(Placed(items[i].path, s), items[k]) == if i == k then Placed(items[i].path, s) else map[]
  {
    forall p | p in Placed(items[i].path, s) ensures Belongs(items[k].kind, items[k].path, p) <==> i == k {
      PlacedBelongs(items[i].kind, items[i].path, s, p);
      if i != k { OneOwner(items, i, k, p); }
    }
  }

  /** The files of an item in the copy are the ones that were placed for it. */
  lemma {:induction false} PartOfCopy(items: seq<Item>, disk: map<string, Source>, n: nat, k: nat)
    requires ValidItems(items) && n <= |items| && k < |items|
    requires forall i :: 0 <= i < |items| ==> items[i].source in disk && Fits(items[i].kind, disk[items[i].source])
    ensures Part(CopyOf(items, disk, n), items[k]) ==
            if k < n then Placed(items[k].path, disk[items[k].source]) else map[]
  {
    if n == 0 {
      PartOfNone(items[k]);
    } else {
      PartOfCopy(items, disk, n - 1, k);
      var s := disk[items[n - 1].source];
      PartOfPlaced(items, s, n - 1, k);
      PartOfMore(CopyOf(items, disk, n - 1), Placed(items[n - 1].path, s), items[k]);
    }
  }

  /** What is recorded of some files holds of every listing of them. */
  lemma AnyListing(c: Codec, item: Item, files: map<string, Bytes>, es: seq<Entry>)
    requires Sound(c) && Recorded(c, item, files) && Listing(c, es, files)
    requires item.kind.File? ==> |files| == 1
    ensures RecordedAs(c, item, es)
  {
    var was :| Listing(c, was, files) && RecordedAs(c, item, was);
    assert multiset(was) == multiset(es);
    SameMembers(was, es);
    TotalSame(was, es);
    ListedOnce(c, was, files);
    if item.kind.File? {
      ListedOnce(c, es, files);
      assert |was| == |es| == 1;
      assert was[0] in es;
    }
  }

  lemma ListedOnce(c: Codec, es: seq<Entry>, files: map<string, Bytes>)
    requires Listing(c, es, files)
    ensures DistinctPaths(es) && |es| == |files|
  {
    ListedApart(c, es, files);
    EntryCount(c, files);
    assert |es| == |multiset(es)|;
  }

  lemma EntrySetOf(c: Codec, files: map<string, Bytes>, p: string, rest: map<string, Bytes>)
    requires p in files && rest == map q | q in files && q != p :: files[q]
    ensures EntrySet(c, files) == EntrySet(c, rest) + {EntryOf(c, p, files[p])}
    ensures EntryOf(c, p, files[p]) !in EntrySet(c, rest)
  {
    forall e ensures e in EntrySet(c, files) <==> e in EntrySet(c, rest) || e == EntryOf(c, p, files[p]) {
      InEntrySet(c, files, e);
      InEntrySet(c, rest, e);
    }
    InEntrySet(c, rest, EntryOf(c, p, files[p]));
  }

  lemma {:induction false} EntryCount(c: Codec, files: map<string, Bytes>)
    ensures |EntrySet(c, files)| == |files|
  {
    if files != map[] {
      var p :| p in files;
      var rest := map q | q in files && q != p :: files[q];
      EntryCount(c, rest);
      assert files.Keys == rest.Keys + {p};
      EntrySetOf(c, files, p, rest);
    }
  }

  // ---- snapshot, then verify ----

  /** The files of an item of a captured record. */
  lemma CapturedPart(
    c: Codec, plan: Record, disk: map<string, Source>, at: string, record: Record, manifest: seq<Entry>, v: VaultState,
    k: nat)
    requires Captured(c, plan, disk, at, record, manifest, v) && k < |record.items|
    ensures CopiedItem(c, plan.items[k], record.items[k], disk)
    ensures Part(v.files, record.items[k]) == Placed(plan.items[k].path, disk[plan.items[k].source])
  {
    var items := plan.items;
    DoneAt(c, items, record.items, disk, |items|, k);
    SourcesFit(c, items, record.items, disk);
    PartOfCopy(items, disk, |items|, k);
    SamePart(v.files, items[k], record.items[k]);
  }

  /** The item brings `content` to `p`: a FILE to its path, a file of a DIR under it. */
  ghost predicate Brings(item: Item, s: Source, p: string, content: Bytes) {
    match s
    case FileAt(x) => p == item.path && content == x
    case DirAt(files) => exists r :: r in files && p == item.path + "/" + r && content == files[r]
  }

  lemma PlacedBrings(item: Item, s: Source, p: string, content: Bytes)
    ensures p in Placed(item.path, s) && Placed(item.path, s)[p] == content <==> Brings(item, s, p, content)
  {
    if s.DirAt? {
      assert forall r: string :: (item.path + "/" + r)[|item.path| + 1..] == r;
      if p in Placed(item.path, s) {
        var r :| r in s.files && p == item.path + "/" + r;
        assert p[|item.path| + 1..] == r;
      }
      if r :| r in s.files && p == item.path + "/" + r && content == s.files[r] {
        assert p in PathsUnder(item.path, s.files.Keys) && p[|item.path| + 1..] == r;
      }
    }
  }

  lemma {:induction false} CopyBrings(items: seq<Item>, disk: map<string, Source>, n: nat, p: string) returns (k: nat)
    requires n <= |items| && (forall i :: 0 <= i < n ==> items[i].source in disk) && p in CopyOf(items, disk, n)
    ensures k < n && Brings(items[k], disk[items[k].source], p, CopyOf(items, disk, n)[p])
  {
    var s := disk[items[n - 1].source];
    if p in Placed(items[n - 1].path, s) {
      k := n - 1;
      PlacedBrings(items[k], s, p, CopyOf(items, disk, n)[p]);
    } else {
      k := CopyBrings(items, disk, n - 1, p);
    }
  }

  /** A vault holds what the sources of its items held, each file at its place, and nothing else. */
  lemma VaultHoldsSources(
    c: Codec, plan: Record, disk: map<string, Source>, at: string, record: Record, manifest: seq<Entry>, v: VaultState,
    p: string, content: Bytes)
    requires Captured(c, plan, disk, at, record, manifest, v)
    ensures forall i :: 0 <= i < |plan.items| ==> plan.items[i].source in disk
    ensures p in v.files && v.files[p] == content <==>
            exists k: nat :: k < |plan.items| && Brings(plan.items[k], disk[plan.items[k].source], p, content)
  {
    if p in v.files && v.files[p] == content {
      var k := CopyBrings(plan.items, disk, |plan.items|, p);
    }
    if k: nat :| k < |plan.items| && Brings(plan.items[k], disk[plan.items[k].source], p, content) {
      CapturedPart(c, plan, disk, at, record, manifest, v, k);
      PlacedBrings(plan.items[k], disk[plan.items[k].source], p, content);
      assert p in Part(v.files, record.items[k]);
    }
  }

  lemma SourcesFit(c: Codec, plan: seq<Item>, items: seq<Item>, disk: map<string, Source>)
    requires CopiedItems(c, plan, items, disk, |plan|)
    ensures forall i :: 0 <= i < |plan| ==> plan[i].source in disk && Fits(plan[i].kind, disk[plan[i].source])
  {
    forall i | 0 <= i < |plan| ensures plan[i].source in disk && Fits(plan[i].kind, disk[plan[i].source]) {
      DoneAt(c, plan, items, disk, |plan|, i);
    }
  }

  lemma SamePart(files: map<string, Bytes>, a: Item, b: Item)
    requires SameItem(a, b)
    ensures Part(files, a) == Part(files, b)
  {
  }

  /** Each item of a captured record follows from the manifest, and is there. */
  lemma CapturedItem(
    c: Codec, plan: Record, disk: map<string, Source>, at: string, record: Record, manifest: seq<Entry>, v: VaultState,
    k: nat)
    requires Sound(c) && Captured(c, plan, disk, at, record, manifest, v) && k < |record.items|
    ensures RecordedAs(c, record.items[k], Mine(manifest, record.items[k]))
    ensures record.items[k].kind.Dir? ==> record.items[k].path in v.dirs
    ensures record.items[k].kind.Dir? && Mine(manifest, record.items[k]) != [] ==>
              exists p :: p in v.files && InsideDir(p, record.items[k].path)
  {
    var item := record.items[k];
    CapturedPart(c, plan, disk, at, record, manifest, v, k);
    var mine := Mine(manifest, item);
    MineLists(c, manifest, v.files, item);
    AnyListing(c, item, Part(v.files, item), mine);
    assert plan.items[k].kind.Dir? ==> plan.items[k].path in DirsOf(plan.items, |plan.items|);
    if item.kind.Dir? && mine != [] {
      ListingMembers(c, mine, Part(v.files, item));
      assert mine[0] in mine;
    }
  }

  lemma CapturedLists(c: Codec, manifest: seq<Entry>, files: map<string, Bytes>)
    requires Listing(c, manifest, files)
    ensures ListsAll(c, manifest, files)
  {
    ListingMembers(c, manifest, files);
    forall i | 0 <= i < |manifest| ensures AsListed(c, manifest[i], files) { assert manifest[i] in manifest; }
    forall p | p in files ensures ListedPath(manifest, p) {
      var i :| 0 <= i < |manifest| && manifest[i] == EntryOf(c, p, files[p]);
    }
  }

  /** Two file maps with one manifest are one map. */
  lemma SameFiles(c: Codec, manifest: seq<Entry>, a: map<string, Bytes>, b: map<string, Bytes>)
    requires Sound(c) && ListsAll(c, manifest, a) && ListsAll(c, manifest, b)
    ensures a == b
  {
    forall p ensures p in a <==> p in b {
      if p in a || p in b {
        assert ListedPath(manifest, p);
        var i :| 0 <= i < |manifest| && manifest[i].path == p;
      }
    }
    forall p | p in a ensures a[p] == b[p] {
      var i :| 0 <= i < |manifest| && manifest[i].path == p;
      assert c.sha256(a[p]) == c.sha256(b[p]);
    }
  }

  /** Over the captured files, an item agrees unless it is a directory that is gone. */
  lemma ItemsAgree(
    c: Codec, plan: Record, disk: map<string, Source>, at: string, record: Record, manifest: seq<Entry>,
    captured: VaultState, later: VaultState)
    requires Sound(c) && Captured(c, plan, disk, at, record, manifest, captured)
    requires later.files == captured.files
    ensures forall i :: 0 <= i < |record.items| ==>
              (ItemAgrees(c, record.items[i], manifest, later) <==>
               (record.items[i].kind.Dir? ==> HasDir(later, record.items[i].path)))
  {
    forall i | 0 <= i < |record.items|
      ensures ItemAgrees(c, record.items[i], manifest, later) <==>
              (record.items[i].kind.Dir? ==> HasDir(later, record.items[i].path))
    {
      CapturedItem(c, plan, disk, at, record, manifest, captured, i);
    }
  }

  /**
   A record of a snapshot, verified at any later time: all MATCH exactly when the
   manifest and the files are as captured and every directory item is still there.
  */
  lemma TamperExact(
    c: Codec, plan: Record, disk: map<string, Source>, at: string, record: Record, manifest: seq<Entry>,
    captured: VaultState, later: VaultState, r: Report)
    requires Sound(c) && Captured(c, plan, disk, at, record, manifest, captured)
    requires Reports(c, record, later, r)
    ensures AllMatch(r) <==>
            later.manifest == captured.manifest && later.files == captured.files &&
            forall i :: 0 <= i < |record.items| && record.items[i].kind.Dir? ==> HasDir(later, record.items[i].path)
    ensures AllMatch(r) ==> r.files == r.filesMatch == |captured.files|
  {
    VerifyExact(c, record, later, r);
    ProblemsNone(c, record, later, r);
    CapturedLists(c, manifest, captured.files);
    ListedOnce(c, manifest, captured.files);
    if AllMatch(r) {
      assert later.manifest == captured.manifest;
      SameFiles(c, manifest, later.files, captured.files);
    }
    if later.manifest == captured.manifest && later.files == captured.files {
      ItemsAgree(c, plan, disk, at, record, manifest, captured, later);
    }
  }

  /** A fresh snapshot verifies. */
  lemma SnapshotVerifies(
    c: Codec, plan: Record, disk: map<string, Source>, at: string, record: Record, manifest: seq<Entry>, v: VaultState,
    r: Report)
    requires Sound(c) && Captured(c, plan, disk, at, record, manifest, v)
    requires Reports(c, record, v, r)
    ensures AllMatch(r) && r.files == r.filesMatch == |v.files|
  {
    forall i | 0 <= i < |record.items| && record.items[i].kind.Dir? ensures HasDir(v, record.items[i].path) {
      CapturedItem(c, plan, disk, at, record, manifest, v, i);
    }
    TamperExact(c, plan, disk, at, record, manifest, v, v, r);
  }

  /** The same through the methods: whatever fails on the way, a snapshot that is verified at once is all MATCH. */
  method CaptureAndVerify(
    c: Codec, plan: Record, vault: Vault, capturedAt: string, inspect: map<string, Info>, disk: map<string, Source>)
    returns (report: Option<Report>)
    requires Sound(c)
    modifies vault
    ensures report.Some? ==>
              AllMatch(report.value) && report.value.files == report.value.filesMatch == |vault.state.files| &&
              (forall i :: 0 <= i < |plan.items| ==> plan.items[i].source in disk) &&
              vault.state.files == CopyOf(plan.items, disk, |plan.items|)
  {
    var r := Snapshot(c, plan, vault, capturedAt, inspect, disk);
    if r.Err? { return None; }
    var verified := Verify(c, r.value.0, vault);
    if verified.Err? { return None; }
    SnapshotVerifies(c, plan, disk, capturedAt, r.value.0, r.value.1, vault.state, verified.value);
    report := Some(verified.value);
  }
}
