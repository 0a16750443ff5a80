/**
 The builder of one sandbox (src/application/builder.rs) over its files
 (src/adapters/outbound/builder_store.rs), where any read or write can fail, and runs
 of it among an operator's edits. A call is one step of a run here, which nothing
 interrupts; `BuilderOps` splits it.

 The compiler, the loader and the other rules of the configuration are parameters.
*/
module Builder {
  import opened Prelude

  type Text = string

  datatype Blueprint = Blueprint(sandbox: string, canvas: string)

  datatype Compiled = Compiled(toml: Text, ok: bool)

  datatype Rules = Rules(
    nameOk: string -> bool,
    compile: (Blueprint, Option<Text>) -> Compiled,
    loads: (string, Text) -> bool,
    editable: Text -> bool,
    toJson: Blueprint -> Option<Text>,
    sha256: Text -> Text,
    template: (string, string) -> Option<Blueprint>)

  /** `builder.json`, `config.toml` and `config.toml.prev`. */
  datatype Dir = Dir(blueprint: Option<Text>, config: Option<Text>, prev: Option<Text>)

  datatype Files = Files(dirs: map<string, Dir>, running: set<string>)

  datatype Error = BadRequest | Forbidden | Busy | Changed | Taken | Invalid | Internal

  function ConfigOf(f: Files, n: string): (r: Option<Text>) { if n in f.dirs then f.dirs[n].config else None }

  function BlueprintOf(f: Files, n: string): (r: Option<Text>) { if n in f.dirs then f.dirs[n].blueprint else None }

  /** Not hand written, and nothing in it that only a hand may change. */
  predicate Editable(rules: Rules, f: Files, n: string) {
    ConfigOf(f, n).None? || (BlueprintOf(f, n).Some? && rules.editable(ConfigOf(f, n).value))
  }

  predicate Own(rules: Rules, n: string, bp: Blueprint) { rules.nameOk(bp.sandbox) && bp.sandbox == n }

  function Compile(rules: Rules, f: Files, n: string, bp: Blueprint): (r: Compiled) {
    rules.compile(bp, ConfigOf(f, n))
  }

  predicate MaySave(rules: Rules, f: Files, n: string, bp: Blueprint) {
    Own(rules, n, bp) && Editable(rules, f, n) && rules.toJson(bp).Some? && n in f.dirs
  }

  predicate MayFinalise(rules: Rules, f: Files, n: string, bp: Blueprint, sha: Text) {
    MaySave(rules, f, n, bp) && n !in f.running &&
    var c := Compile(rules, f, n, bp);
    rules.sha256(c.toml) == sha && c.ok && rules.loads(n, c.toml)
  }

  predicate MayCreate(rules: Rules, f: Files, n: string, tpl: string) {
    rules.nameOk(n) && rules.template(tpl, n).Some? && n !in f.dirs &&
    var bp := rules.template(tpl, n).value;
    rules.toJson(bp).Some? && rules.loads(n, rules.compile(bp, None).toml)
  }

  /** How far the writes of a call got. */
  datatype Reach = Nothing | MadeDir | WroteBlueprint | WroteBackup | WroteAll

  function WithBackup(d: Dir): (r: Dir) { if d.config.Some? then d.(prev := d.config) else d }

  // ---- a call, an edit, a start ----

  datatype Step =
    | SaveStep(n: string, bp: Blueprint, reach: Reach)
    | FinaliseStep(n: string, bp: Blueprint, sha: Text, reach: Reach)
    | CreateStep(n: string, tpl: string, reach: Reach)
    | Operator(n: string, dir: Option<Dir>)
    | Runtime(n: string, on: bool)

  function After(rules: Rules, f: Files, step: Step): (r: Files) {
    match step
    case SaveStep(n, bp, reach) =>
      if MaySave(rules, f, n, bp) && !reach.Nothing?
      then f.(dirs := f.dirs[n := f.dirs[n].(blueprint := rules.toJson(bp))]) else f
    case FinaliseStep(n, bp, sha, reach) =>
      if !MayFinalise(rules, f, n, bp, sha) || reach.Nothing? then f
      else
        var d := f.dirs[n].(blueprint := rules.toJson(bp));
        f.(dirs := f.dirs[n :=
          if reach.WroteAll? then WithBackup(d).(config := Some(Compile(rules, f, n, bp).toml))
          else if reach.WroteBackup? then WithBackup(d) else d])
    case CreateStep(n, tpl, reach) =>
      if !MayCreate(rules, f, n, tpl) || reach.Nothing? then f
      else
        var bp := rules.template(tpl, n).value;
        f.(dirs := f.dirs[n :=
          if reach.MadeDir? then Dir(None, None, None)
          else Dir(rules.toJson(bp), if reach.WroteAll? then Some(rules.compile(bp, None).toml) else None, None)])
    case Operator(n, dir) =>
      f.(dirs := if dir.Some? then f.dirs[n := dir.value] else map m | m in f.dirs && m != n :: f.dirs[m])
    case Runtime(n, on) => f.(running := if on then f.running + {n} else f.running - {n})
  }

  function Run(rules: Rules, f: Files, steps: seq<Step>): (r: Files) {
    if steps == [] then f
    else After(rules, Run(rules, f, steps[..|steps| - 1]), steps[|steps| - 1])
  }

  // ---- the store ----

  class Store {
    var files: Files

    constructor (files: Files)
      ensures this.files == files
    {
      this.files := files;
    }

    method ReadBlueprint(n: string) returns (r: Result<Option<Text>, Error>)
      ensures if r.Ok? then r.value == BlueprintOf(files, n) else r.error.Internal?
    {
      var fails := *;
      r := if fails then Err(Internal) else Ok(BlueprintOf(files, n));
    }

    method ReadConfig(n: string) returns (r: Result<Option<Text>, Error>)
      ensures if r.Ok? then r.value == ConfigOf(files, n) else r.error.Internal?
    {
      var fails := *;
      r := if fails then Err(Internal) else Ok(ConfigOf(files, n));
    }

    /** Only into a sandbox dir that is there. */
    method WriteBlueprint(n: string, json: Text) returns (ok: bool)
      modifies this
      ensures ok ==> n in old(files.dirs) &&
                     files == old(files).(dirs := old(files.dirs)[n := old(files.dirs)[n].(blueprint := Some(json))])
      ensures !ok ==> files == old(files)
    {
      var fails := *;
      ok := !fails && n in files.dirs;
      if ok { files := files.(dirs := files.dirs[n := files.dirs[n].(blueprint := Some(json))]); }
    }

    /** The loader on a temporary copy, which may also fail to be made. */
    method CheckConfig(rules: Rules, n: string, toml: Text) returns (ok: bool)
      ensures ok ==> rules.loads(n, toml)
    {
      var fails := *;
      ok := !fails && rules.loads(n, toml);
    }

    /** The old file to `.prev`, then the new one over it; each write is whole or not at all. */
    method WriteConfig(n: string, toml: Text) returns (ok: bool, ghost reach: Reach)
      requires n in files.dirs
      modifies this
      ensures reach.WroteBlueprint? || reach.WroteBackup? || reach.WroteAll?
      ensures ok <==> reach.WroteAll?
      ensures var d := old(files.dirs)[n];
              files == old(files).(dirs := old(files.dirs)[n :=
                if reach.WroteAll? then WithBackup(d).(config := Some(toml))
                else if reach.WroteBackup? then WithBackup(d) else d])
    {
      var d := files.dirs[n];
      assert files.dirs[n := d] == files.dirs;
      var first, second := *, *;
      if first { return false, WroteBlueprint; }
      d := WithBackup(d);
      files := files.(dirs := files.dirs[n := d]);
      if second { return false, WroteBackup; }
      files := files.(dirs := files.dirs[n := d.(config := Some(toml))]);
      return true, WroteAll;
    }

    /** A new dir with both files; never an existing one. */
    method Create(n: string, json: Text, toml: Text) returns (ok: bool, ghost reach: Reach)
      modifies this
      ensures ok <==> reach.WroteAll?
      ensures if reach.Nothing? then files == old(files)
              else n !in old(files.dirs) && !reach.WroteBackup? &&
                   files == old(files).(dirs := old(files.dirs)[n :=
                     if reach.MadeDir? then Dir(None, None, None)
                     else Dir(Some(json), if reach.WroteAll? then Some(toml) else None, None)])
    {
      var first, second, third := *, *, *;
      if n in files.dirs || first { return false, Nothing; }
      files := files.(dirs := files.dirs[n := Dir(None, None, None)]);
      if second { return false, MadeDir; }
      files := files.(dirs := files.dirs[n := Dir(Some(json), None, None)]);
      if third { return false, WroteBlueprint; }
      files := files.(dirs := files.dirs[n := Dir(Some(json), Some(toml), None)]);
      return true, WroteAll;
    }

    /** A running runtime is busy; so is a dir that does not resolve. */
    method IsBusy(n: string) returns (busy: bool)
      ensures !busy ==> n !in files.running
    {
      var unsure := *;
      busy := unsure || n in files.running;
    }
  }

  // ---- the builder ----

  datatype Preview = Preview(toml: Text, sha: Text, loads: bool, ok: bool, current: Option<Text>, editable: bool)

  method WhyNot(rules: Rules, store: Store, n: string) returns (r: Result<bool, Error>)
    ensures if r.Ok? then r.value == !Editable(rules, store.files, n) else r.error.Internal?
    ensures r.Ok? ==>
              (r.value <==>
               ConfigOf(store.files, n).Some? &&
               (BlueprintOf(store.files, n).None? || !rules.editable(ConfigOf(store.files, n).value)))
  {
    var bp := store.ReadBlueprint(n);
    if bp.Err? { return Err(bp.error); }
    var current := store.ReadConfig(n);
    if current.Err? { return Err(current.error); }
    r := Ok(if current.value.None? then false
            else if bp.value.None? then true else !rules.editable(current.value.value));
  }

  /** The sandbox is the builder's to write, by what its files say. */
  predicate Writable(rules: Rules, f: Files, n: string, bp: Blueprint) {
    rules.nameOk(n) && bp.sandbox == n && n in f.dirs && rules.toJson(bp).Some? &&
    (f.dirs[n].config.Some? ==> f.dirs[n].blueprint.Some? && rules.editable(f.dirs[n].config.value))
  }

  method Save(rules: Rules, store: Store, n: string, bp: Blueprint) returns (r: Result<bool, Error>, ghost reach: Reach)
    modifies store
    ensures store.files == After(rules, old(store.files), SaveStep(n, bp, reach))
    ensures r.Ok? ==> MaySave(rules, old(store.files), n, bp) && !reach.Nothing? &&
                      r.value == Compile(rules, old(store.files), n, bp).ok
    ensures r == Err(BadRequest) <==> !Own(rules, n, bp)
    ensures r == Err(Forbidden) ==> !Editable(rules, old(store.files), n)
    ensures r.Err? ==> r.error.BadRequest? || r.error.Forbidden? || r.error.Internal?
    ensures Own(rules, n, bp) && !Editable(rules, old(store.files), n) ==> r == Err(Forbidden) || r == Err(Internal)
    ensures store.files != old(store.files) || r.Ok? ==>
              Writable(rules, old(store.files), n, bp) &&
              store.files == old(store.files).(dirs :=
                old(store.files).dirs[n := old(store.files).dirs[n].(blueprint := rules.toJson(bp))])
    ensures r.Ok? ==> r.value == rules.compile(bp, old(store.files).dirs[n].config).ok
  {
    reach := Nothing;
    if !rules.nameOk(bp.sandbox) || bp.sandbox != n { return Err(BadRequest), Nothing; }
    var why := WhyNot(rules, store, n);
    if why.Err? { return Err(why.error), Nothing; }
    if why.value { return Err(Forbidden), Nothing; }
    var json := rules.toJson(bp);
    if json.None? { return Err(Internal), Nothing; }
    var ok := store.WriteBlueprint(n, json.value);
    if !ok { return Err(Internal), Nothing; }
    reach := WroteBlueprint;
    var current := store.ReadConfig(n);
    if current.Err? { return Err(current.error), reach; }
    r := Ok(rules.compile(bp, current.value).ok);
  }

  /** Changes nothing: the store is not in its frame. */
  method MakePreview(rules: Rules, store: Store, n: string, bp: Blueprint) returns (r: Result<Preview, Error>)
    ensures r == Err(BadRequest) <==> !Own(rules, n, bp)
    ensures r.Err? ==> r.error.BadRequest? || r.error.Internal?
    ensures r.Ok? ==>
              Own(rules, n, bp) && Previewed(rules, store.files, n, bp, r.value) &&
              r.value.current == ConfigOf(store.files, n) && r.value.editable == Editable(rules, store.files, n)
  {
    if !rules.nameOk(bp.sandbox) || bp.sandbox != n { return Err(BadRequest); }
    var why := WhyNot(rules, store, n);
    if why.Err? { return Err(why.error); }
    var current := store.ReadConfig(n);
    if current.Err? { return Err(current.error); }
    var c := rules.compile(bp, current.value);
    var loads := store.CheckConfig(rules, n, c.toml);
    r := Ok(Preview(c.toml, rules.sha256(c.toml), loads, c.ok && loads, current.value, !why.value));
  }

  /** The text a preview of `bp` shows, and its hash. */
  predicate Previewed(rules: Rules, f: Files, n: string, bp: Blueprint, p: Preview) {
    p.toml == Compile(rules, f, n, bp).toml && p.sha == rules.sha256(p.toml) &&
    (p.loads ==> rules.loads(n, p.toml)) && (p.ok ==> p.loads && Compile(rules, f, n, bp).ok)
  }

  method Finalise(rules: Rules, store: Store, n: string, bp: Blueprint, sha: Text)
    returns (r: Result<Text, Error>, ghost reach: Reach)
    modifies store
    ensures store.files == After(rules, old(store.files), FinaliseStep(n, bp, sha, reach))
    ensures r.Ok? <==> reach.WroteAll?
    ensures !reach.Nothing? ==> MayFinalise(rules, old(store.files), n, bp, sha)
    ensures r == Err(BadRequest) <==> !Own(rules, n, bp)
    ensures r == Err(Forbidden) ==> !Editable(rules, old(store.files), n)
    ensures r == Err(Changed) ==> rules.sha256(Compile(rules, old(store.files), n, bp).toml) != sha
    ensures r.Ok? ==> r.value == sha
    ensures r.Err? ==> !r.error.Taken?
    ensures r.Ok? ==>
              Writable(rules, old(store.files), n, bp) && n !in old(store.files).running &&
              var d := old(store.files).dirs[n];
              var c := rules.compile(bp, d.config);
              c.ok && rules.sha256(c.toml) == sha && rules.loads(n, c.toml) &&
              store.files == old(store.files).(dirs := old(store.files).dirs[n :=
                Dir(rules.toJson(bp), Some(c.toml), if d.config.Some? then d.config else d.prev)])
  {
    reach := Nothing;
    if !rules.nameOk(bp.sandbox) || bp.sandbox != n { return Err(BadRequest), Nothing; }
    var why := WhyNot(rules, store, n);
    if why.Err? { return Err(why.error), Nothing; }
    if why.value { return Err(Forbidden), Nothing; }
    var busy := store.IsBusy(n);
    if busy { return Err(Busy), Nothing; }
    var current := store.ReadConfig(n);
    if current.Err? { return Err(current.error), Nothing; }
    var c := rules.compile(bp, current.value);
    if rules.sha256(c.toml) != sha { return Err(Changed), Nothing; }
    if !c.ok { return Err(Invalid), Nothing; }
    var loads := store.CheckConfig(rules, n, c.toml);
    if !loads { return Err(Invalid), Nothing; }
    var pathFails := *;
    if pathFails { return Err(Internal), Nothing; }
    var json := rules.toJson(bp);
    if json.None? { return Err(Internal), Nothing; }
    var ok := store.WriteBlueprint(n, json.value);
    if !ok { return Err(Internal), Nothing; }
    ok, reach := store.WriteConfig(n, c.toml);
    if !ok { return Err(Internal), reach; }
    r := Ok(rules.sha256(c.toml));
  }

  method CreateSandbox(rules: Rules, store: Store, n: string, tpl: string)
    returns (r: Result<(), Error>, ghost reach: Reach)
    modifies store
    ensures store.files == After(rules, old(store.files), CreateStep(n, tpl, reach))
    ensures r.Ok? <==> reach.WroteAll?
    ensures !reach.Nothing? ==> MayCreate(rules, old(store.files), n, tpl)
    ensures n in old(store.files.dirs) ==> r.Err? && store.files == old(store.files)
    ensures r == Err(BadRequest) <==> !rules.nameOk(n) || rules.template(tpl, n).None?
    ensures r.Ok? ==>
              rules.nameOk(n) && rules.template(tpl, n).Some? && n !in old(store.files).dirs &&
              var bp := rules.template(tpl, n).value;
              var toml := rules.compile(bp, None).toml;
              rules.loads(n, toml) && rules.toJson(bp).Some? &&
              store.files == old(store.files).(dirs :=
                old(store.files).dirs[n := Dir(rules.toJson(bp), Some(toml), None)])
  {
    reach := Nothing;
    if !rules.nameOk(n) { return Err(BadRequest), Nothing; }
    var bp := rules.template(tpl, n);
    if bp.None? { return Err(BadRequest), Nothing; }
    var c := rules.compile(bp.value, None);
    var loads := store.CheckConfig(rules, n, c.toml);
    if !loads { return Err(Invalid), Nothing; }
    var json := rules.toJson(bp.value);
    if json.None? { return Err(Internal), Nothing; }
    var ok;
    ok, reach := store.Create(n, json.value, c.toml);
    if !ok { return Err(Taken), reach; }
    r := Ok(());
  }

  // ---- what runs keep ----

  /** The operator wrote this text as the sandbox's configuration. */
  predicate OperatorWrote(step: Step, n: string, t: Text) {
    step.Operator? && step.n == n && step.dir.Some? && step.dir.value.config == Some(t)
  }

  /** A configuration is one the loader accepts, unless it was there at first or the operator wrote it. */
  lemma {:induction false} ConfigComesFrom(rules: Rules, f: Files, steps: seq<Step>, n: string, t: Text)
    requires ConfigOf(Run(rules, f, steps), n) == Some(t)
    ensures rules.loads(n, t) || ConfigOf(f, n) == Some(t) ||
            exists i :: 0 <= i < |steps| && OperatorWrote(steps[i], n, t)
  {
    if steps != [] {
      var k := |steps| - 1;
      var was := Run(rules, f, steps[..k]);
      if ConfigOf(was, n) == Some(t) {
        ConfigComesFrom(rules, f, steps[..k], n, t);
        if i :| 0 <= i < k && OperatorWrote(steps[..k][i], n, t) { assert OperatorWrote(steps[i], n, t); }
      } else {
        assert rules.loads(n, t) || OperatorWrote(steps[k], n, t);
      }
    }
  }

  /**
   The one way a configuration is replaced: by a finalise, while editable and not
   running, with a text that loads and has the given hash, and the old text kept.
  */
  lemma OnlyFinaliseReplaces(rules: Rules, f: Files, step: Step, n: string)
    requires !(step.Operator? && step.n == n)
    requires ConfigOf(f, n).Some? && ConfigOf(After(rules, f, step), n) != ConfigOf(f, n)
    ensures step.FinaliseStep? && step.n == n && Editable(rules, f, n) && n !in f.running
    ensures var d := After(rules, f, step).dirs;
            n in d && d[n].config.Some? && rules.loads(n, d[n].config.value) &&
            rules.sha256(d[n].config.value) == step.sha && d[n].prev == ConfigOf(f, n)
  {
  }

  /** A configuration appears only as one the loader accepts. */
  lemma AppearsLoadable(rules: Rules, f: Files, step: Step, n: string)
    requires !(step.Operator? && step.n == n)
    requires ConfigOf(f, n).None? && ConfigOf(After(rules, f, step), n).Some?
    ensures rules.loads(n, ConfigOf(After(rules, f, step), n).value)
    ensures step.n == n && ((step.CreateStep? && n !in f.dirs) || (step.FinaliseStep? && n !in f.running))
  {
  }

  predicate LeavesAlone(steps: seq<Step>, n: string) {
    forall i :: 0 <= i < |steps| && steps[i].Operator? ==> steps[i].n != n
  }

  /** What the builder may not edit no uninterrupted call touches, whatever is called and fails. */
  lemma {:induction false} ViewOnlyUntouched(rules: Rules, f: Files, steps: seq<Step>, n: string)
    requires n in f.dirs && !Editable(rules, f, n) && LeavesAlone(steps, n)
    ensures n in Run(rules, f, steps).dirs && Run(rules, f, steps).dirs[n] == f.dirs[n]
  {
    if steps != [] { ViewOnlyUntouched(rules, f, steps[..|steps| - 1], n); }
  }

  /** In particular a sandbox written by hand: a configuration without a blueprint. */
  lemma HandWrittenUntouched(rules: Rules, f: Files, steps: seq<Step>, n: string)
    requires n in f.dirs && f.dirs[n].config.Some? && f.dirs[n].blueprint.None? && LeavesAlone(steps, n)
    ensures n in Run(rules, f, steps).dirs && Run(rules, f, steps).dirs[n] == f.dirs[n]
  {
    ViewOnlyUntouched(rules, f, steps, n);
  }

  lemma RunSteps(rules: Rules, f: Files, steps: seq<Step>, k: nat)
    requires k < |steps|
    ensures Run(rules, f, steps[..k + 1]) == After(rules, Run(rules, f, steps[..k]), steps[k])
  {
    assert steps[..k + 1][..k] == steps[..k];
  }

  /**
   Over a whole run: a configuration that is no longer what it was comes from a finalise
   that was allowed where it ran, and the text it replaced was backed up there.
  */
  lemma {:induction false} LastReplacement(rules: Rules, f: Files, steps: seq<Step>, n: string) returns (k: nat)
    requires LeavesAlone(steps, n) && ConfigOf(f, n).Some? && ConfigOf(Run(rules, f, steps), n) != ConfigOf(f, n)
    ensures k < |steps| && steps[k].FinaliseStep? && steps[k].n == n
    ensures Replaces(rules, Run(rules, f, steps[..k]), steps[k], Run(rules, f, steps[..k + 1]))
    ensures ConfigOf(Run(rules, f, steps[..k + 1]), n) == ConfigOf(Run(rules, f, steps), n)
  {
    var m := |steps| - 1;
    var was := Run(rules, f, steps[..m]);
    assert steps[..m + 1] == steps;
    RunSteps(rules, f, steps, m);
    StaysConfigured(rules, f, steps[..m], n);
    if ConfigOf(was, n) == ConfigOf(Run(rules, f, steps), n) {
      k := LastReplacement(rules, f, steps[..m], n);
      assert steps[..m][..k] == steps[..k] && steps[..m][..k + 1] == steps[..k + 1];
    } else {
      OnlyFinaliseReplaces(rules, was, steps[m], n);
      k := m;
    }
  }

  /** The finalise was allowed, wrote its text, and the text before it is the backup. */
  predicate Replaces(rules: Rules, before: Files, step: Step, after: Files) {
    step.FinaliseStep? && MayFinalise(rules, before, step.n, step.bp, step.sha) &&
    ConfigOf(after, step.n) == Some(Compile(rules, before, step.n, step.bp).toml) &&
    step.n in after.dirs && ConfigOf(before, step.n).Some? && after.dirs[step.n].prev == ConfigOf(before, step.n)
  }

  lemma {:induction false} StaysConfigured(rules: Rules, f: Files, steps: seq<Step>, n: string)
    requires LeavesAlone(steps, n) && ConfigOf(f, n).Some?
    ensures ConfigOf(Run(rules, f, steps), n).Some?
  {
    if steps != [] { StaysConfigured(rules, f, steps[..|steps| - 1], n); }
  }

  /** Over a whole run: the backup is the first one, or was the configuration at some moment of the run. */
  lemma {:induction false} BackupIsAnOldText(rules: Rules, f: Files, steps: seq<Step>, n: string)
    requires LeavesAlone(steps, n) && n in f.dirs
    ensures n in Run(rules, f, steps).dirs
    ensures var prev := Run(rules, f, steps).dirs[n].prev;
            prev == f.dirs[n].prev || exists k :: 0 <= k < |steps| && ConfigOf(Run(rules, f, steps[..k]), n) == prev
  {
    if steps != [] {
      var m := |steps| - 1;
      BackupIsAnOldText(rules, f, steps[..m], n);
      var prev, was := Run(rules, f, steps).dirs[n].prev, Run(rules, f, steps[..m]);
      if prev == was.dirs[n].prev && prev != f.dirs[n].prev {
        var k :| 0 <= k < m && ConfigOf(Run(rules, f, steps[..m][..k]), n) == prev;
        assert steps[..m][..k] == steps[..k];
      }
      assert prev == was.dirs[n].prev || ConfigOf(was, n) == prev;
    }
  }

  predicate KeepsRunning(steps: seq<Step>, n: string) {
    forall i :: 0 <= i < |steps| && steps[i].Runtime? && steps[i].n == n ==> steps[i].on
  }

  /** While its runtime runs, a sandbox keeps its configuration and its backup through uninterrupted calls. */
  lemma {:induction false} RunningKeepsConfig(rules: Rules, f: Files, steps: seq<Step>, n: string)
    requires n in f.dirs && n in f.running && LeavesAlone(steps, n) && KeepsRunning(steps, n)
    ensures var g := Run(rules, f, steps);
            n in g.running && n in g.dirs && g.dirs[n].config == f.dirs[n].config && g.dirs[n].prev == f.dirs[n].prev
  {
    if steps != [] { RunningKeepsConfig(rules, f, steps[..|steps| - 1], n); }
  }

  /** Without a finalise no configuration is replaced: saves keep it, and creations make new ones only. */
  lemma {:induction false} SavesKeepConfig(rules: Rules, f: Files, steps: seq<Step>, n: string)
    requires n in f.dirs && LeavesAlone(steps, n)
    requires forall i :: 0 <= i < |steps| && steps[i].FinaliseStep? ==> steps[i].n != n
    ensures var g := Run(rules, f, steps);
            n in g.dirs && g.dirs[n].config == f.dirs[n].config && g.dirs[n].prev == f.dirs[n].prev
  {
    if steps != [] { SavesKeepConfig(rules, f, steps[..|steps| - 1], n); }
  }

  /** A finalise with the hash of a preview writes the text of that preview, whatever happened in between. */
  lemma PreviewedTextIsWritten(
    rules: Rules, seen: Files, shown: Blueprint, p: Preview, steps: seq<Step>, n: string, bp: Blueprint)
    requires forall a, b :: rules.sha256(a) == rules.sha256(b) ==> a == b
    requires Previewed(rules, seen, n, shown, p)
    ensures var f := Run(rules, seen, steps);
            MayFinalise(rules, f, n, bp, p.sha) ==>
              ConfigOf(After(rules, f, FinaliseStep(n, bp, p.sha, WroteAll)), n) == Some(p.toml)
  {
  }

  /**
   On unchanged configuration a finalise after the preview is only refused for another
   reason than a change: it may finalise exactly when the sandbox is editable and not
   running and the previewed text passes.
  */
  lemma PreviewThenFinalise(rules: Rules, seen: Files, p: Preview, steps: seq<Step>, n: string, bp: Blueprint)
    requires Previewed(rules, seen, n, bp, p) && ConfigOf(Run(rules, seen, steps), n) == ConfigOf(seen, n)
    ensures var f := Run(rules, seen, steps);
            rules.sha256(Compile(rules, f, n, bp).toml) == p.sha &&
            (MayFinalise(rules, f, n, bp, p.sha) <==>
             MaySave(rules, f, n, bp) && n !in f.running && Compile(rules, seen, n, bp).ok && rules.loads(n, p.toml))
  {
  }
}
