/**
 The builder's calls split at their store operations (src/application/builder.rs:162-366,
 src/adapters/outbound/builder_store.rs:112-183): any number of saves, finalises and
 creations interleaved, with an operator's edits and runtime starts between any two
 operations, each of which can fail.
*/
module BuilderOps {
  import opened Prelude
  import opened Builder

  datatype Kind = Saving | Finalising(sha: Text) | Creating(tpl: string)

  /** How far a call has come, with what it has read. */
  datatype At =
    | Called
    | SawBlueprint(has: bool)
    | MayEdit
    | WasIdle
    | Fits(text: Text)                                // compiled without errors, with the given hash
    | Loads(text: Text)
    | Stored(text: Text)                              // the blueprint is written
    | OldRead(text: Text, was: Option<Text>)
    | BackedUp(text: Text, prev: Option<Text>, kept: bool)  // kept: `.prev` is still `prev`, as the call left it
    | Made(text: Text)                                // the new dir is there
    | Described(text: Text)                           // and its blueprint
    | Returned(ok: bool)

  datatype Call = Call(n: string, bp: Blueprint, kind: Kind, at: At)

  datatype System = System(files: Files, calls: map<nat, Call>)

  datatype Op =
    | Begin(i: nat, n: string, bp: Blueprint, kind: Kind)
    | Go(i: nat, fails: bool)
    | Edit(n: string, dir: Option<Dir>)
    | Switch(n: string, on: bool)

  function PrevOf(f: Files, n: string): (prev: Option<Text>) { if n in f.dirs then f.dirs[n].prev else None }

  function SetDir(f: Files, n: string, d: Dir): (g: Files) { f.(dirs := f.dirs[n := d]) }

  /** The next operation of a call: the files after it, and how far the call is then. */
  function Operation(rules: Rules, f: Files, c: Call): (r: (Files, At)) {
    var n := c.n;
    match c.at
    case Called =>
      if c.kind.Creating? then
        if MayCreate(rules, f, n, c.kind.tpl)
        then (SetDir(f, n, Dir(None, None, None)), Made(rules.compile(rules.template(c.kind.tpl, n).value, None).toml))
        else (f, Returned(false))
      else if Own(rules, n, c.bp) then (f, SawBlueprint(BlueprintOf(f, n).Some?)) else (f, Returned(false))
    case SawBlueprint(has) =>
      var current := ConfigOf(f, n);
      (f, if current.None? || (has && rules.editable(current.value)) then MayEdit else Returned(false))
    case MayEdit =>
      if c.kind.Saving? then
        if n in f.dirs && rules.toJson(c.bp).Some?
        then (SetDir(f, n, f.dirs[n].(blueprint := rules.toJson(c.bp))), Returned(true)) else (f, Returned(false))
      else (f, if n in f.running then Returned(false) else WasIdle)
    case WasIdle =>
      var compiled := Compile(rules, f, n, c.bp);
      (f, if c.kind.Finalising? && rules.sha256(compiled.toml) == c.kind.sha && compiled.ok
          then Fits(compiled.toml) else Returned(false))
    case Fits(text) => (f, if rules.loads(n, text) then Loads(text) else Returned(false))
    case Loads(text) =>
      if n in f.dirs && rules.toJson(c.bp).Some?
      then (SetDir(f, n, f.dirs[n].(blueprint := rules.toJson(c.bp))), Stored(text)) else (f, Returned(false))
    case Stored(text) => (f, OldRead(text, ConfigOf(f, n)))
    case OldRead(text, was) =>
      if was.None? then (f, BackedUp(text, PrevOf(f, n), true))
      else if n in f.dirs then (SetDir(f, n, f.dirs[n].(prev := was)), BackedUp(text, was, true))
      else (f, Returned(false))
    case BackedUp(text, _, _) =>
      if n in f.dirs then (SetDir(f, n, f.dirs[n].(config := Some(text))), Returned(true)) else (f, Returned(false))
    case Made(text) =>
      var bp := rules.template(if c.kind.Creating? then c.kind.tpl else "", n);
      if n in f.dirs && bp.Some? && rules.toJson(bp.value).Some?
      then (SetDir(f, n, f.dirs[n].(blueprint := rules.toJson(bp.value))), Described(text)) else (f, Returned(false))
    case Described(text) =>
      if n in f.dirs then (SetDir(f, n, f.dirs[n].(config := Some(text))), Returned(true)) else (f, Returned(false))
    case Returned(_) => (f, c.at)
  }

  predicate Enabled(s: System, op: Op) {
    match op
    case Begin(i, _, _, _) => i !in s.calls
    case Go(i, _) => i in s.calls && !s.calls[i].at.Returned?
    case _ => true
  }

  function Next(rules: Rules, s: System, op: Op): (t: System)
    requires Enabled(s, op)
  {
    match op
    case Begin(i, n, bp, kind) => s.(calls := s.calls[i := Call(n, bp, kind, Called)])
    case Go(i, fails) =>
      var (g, at) := if fails then (s.files, Returned(false)) else Operation(rules, s.files, s.calls[i]);
      System(g, Noticed(s.calls, s.files, g)[i := s.calls[i].(at := at)])
    case Edit(n, dir) =>
      var g := After(rules, s.files, Operator(n, dir));
      System(g, Noticed(s.calls, s.files, g))
    case Switch(n, on) => s.(files := After(rules, s.files, Runtime(n, on)))
  }

  /** A backup is no longer a call's own once `.prev` has changed. */
  function Noticed(calls: map<nat, Call>, f: Files, g: Files): (noticed: map<nat, Call>) {
    map i | i in calls :: Told(calls[i], PrevOf(f, calls[i].n) == PrevOf(g, calls[i].n))
  }

  function Told(c: Call, same: bool): (told: Call) {
    if c.at.BackedUp? && !same then c.(at := c.at.(kept := false)) else c
  }

  function Run(rules: Rules, s: System, ops: seq<Op>): (t: Option<System>)
    decreases |ops|
  {
    if ops == [] then Some(s)
    else if Enabled(s, ops[0]) then Run(rules, Next(rules, s, ops[0]), ops[1..]) else None
  }

  // ---- what a call knows ----

  /** The text of a finalise has the given hash and, once checked, loads; its backup is what it read. */
  ghost predicate CallKept(rules: Rules, f: Files, c: Call) {
    match c.at
    case Fits(text) => HasHash(rules, c, text)
    case Loads(text) => HasHash(rules, c, text) && rules.loads(c.n, text)
    case Stored(text) => HasHash(rules, c, text) && rules.loads(c.n, text)
    case OldRead(text, _) => HasHash(rules, c, text) && rules.loads(c.n, text)
    case BackedUp(text, prev, kept) =>
      HasHash(rules, c, text) && rules.loads(c.n, text) && (kept ==> PrevOf(f, c.n) == prev)
    case Made(text) => rules.loads(c.n, text)
    case Described(text) => rules.loads(c.n, text)
    case _ => true
  }

  predicate HasHash(rules: Rules, c: Call, text: Text) {
    c.kind.Finalising? && rules.sha256(text) == c.kind.sha
  }

  ghost predicate Kept(rules: Rules, s: System) { forall i :: i in s.calls ==> CallKept(rules, s.files, s.calls[i]) }

  lemma OwnKept(rules: Rules, f: Files, c: Call)
    requires CallKept(rules, f, c)
    ensures var (g, at) := Operation(rules, f, c); CallKept(rules, g, c.(at := at))
  {
  }

  lemma OtherKept(rules: Rules, f: Files, g: Files, c: Call)
    requires CallKept(rules, f, c)
    ensures CallKept(rules, g, Told(c, PrevOf(f, c.n) == PrevOf(g, c.n)))
  {
  }

  lemma StepKept(rules: Rules, s: System, op: Op)
    requires Kept(rules, s) && Enabled(s, op)
    ensures Kept(rules, Next(rules, s, op))
  {
    var t := Next(rules, s, op);
    forall i | i in t.calls ensures CallKept(rules, t.files, t.calls[i]) {
      if op.Go? && op.i == i {
        OwnKept(rules, s.files, s.calls[i]);
      } else if i in s.calls {
        OtherKept(rules, s.files, t.files, s.calls[i]);
      }
    }
  }

  lemma {:induction false} RunKept(rules: Rules, s: System, ops: seq<Op>)
    requires Kept(rules, s) && Run(rules, s, ops).Some?
    ensures Kept(rules, Run(rules, s, ops).value)
    decreases |ops|
  {
    if ops != [] {
      StepKept(rules, s, ops[0]);
      RunKept(rules, Next(rules, s, ops[0]), ops[1..]);
    }
  }

  // ---- what every interleaving keeps ----

  predicate OperatorEdits(op: Op, n: string, t: Text) {
    op.Edit? && op.n == n && op.dir.Some? && op.dir.value.config == Some(t)
  }

  /** The one operation that replaces a configuration, with a text that has the given hash and loads. */
  lemma OnlyTheLastReplaces(rules: Rules, s: System, op: Op, n: string)
    requires Kept(rules, s) && Enabled(s, op) && !(op.Edit? && op.n == n)
    requires ConfigOf(Next(rules, s, op).files, n) != ConfigOf(s.files, n)
    ensures op.Go? && s.calls[op.i].n == n && (s.calls[op.i].at.BackedUp? || s.calls[op.i].at.Described?)
    ensures ConfigOf(Next(rules, s, op).files, n) == Some(s.calls[op.i].at.text)
    ensures rules.loads(n, s.calls[op.i].at.text)
    ensures s.calls[op.i].at.BackedUp? ==> HasHash(rules, s.calls[op.i], s.calls[op.i].at.text)
  {
    assert op.Go? ==> CallKept(rules, s.files, s.calls[op.i]);
  }

  /** A configuration is one the loader accepts, unless it was there at first or the operator wrote it. */
  lemma {:induction false} ConfigComesFrom(rules: Rules, s: System, ops: seq<Op>, n: string, t: Text)
    requires Kept(rules, s) && Run(rules, s, ops).Some? && ConfigOf(Run(rules, s, ops).value.files, n) == Some(t)
    ensures rules.loads(n, t) || ConfigOf(s.files, n) == Some(t) ||
            exists k :: 0 <= k < |ops| && OperatorEdits(ops[k], n, t)
    decreases |ops|
  {
    if ops != [] {
      var next := Next(rules, s, ops[0]);
      StepKept(rules, s, ops[0]);
      ConfigComesFrom(rules, next, ops[1..], n, t);
      if k :| 0 <= k < |ops| - 1 && OperatorEdits(ops[1..][k], n, t) { assert OperatorEdits(ops[k + 1], n, t); }
      if ConfigOf(next.files, n) == Some(t) && ConfigOf(s.files, n) != Some(t) {
        if ops[0].Edit? && ops[0].n == n {
          assert OperatorEdits(ops[0], n, t);
        } else {
          OnlyTheLastReplaces(rules, s, ops[0], n);
        }
      }
    }
  }

  /**
   When a finalise replaces a configuration, whatever has happened since it began: unless
   someone wrote `.prev` after it did, `.prev` holds the replaced text if and only if that
   is the text the call left there: what it read, or the older backup where it found no
   configuration.
  */
  lemma ReplacedIsBackedUp(rules: Rules, s: System, ops: seq<Op>, i: nat)
    requires Kept(rules, s) && Run(rules, s, ops).Some? && i in Run(rules, s, ops).value.calls
    requires var c := Run(rules, s, ops).value.calls[i]; c.at.BackedUp? && c.at.kept
    requires Run(rules, s, ops).value.calls[i].n in Run(rules, s, ops).value.files.dirs
    ensures var t := Run(rules, s, ops).value;
            var c, done := t.calls[i], Next(rules, t, Go(i, false)).files;
            ConfigOf(done, c.n) == Some(c.at.text) &&
            (PrevOf(done, c.n) == ConfigOf(t.files, c.n) <==> ConfigOf(t.files, c.n) == c.at.prev)
  {
    RunKept(rules, s, ops);
    var t := Run(rules, s, ops).value;
    assert CallKept(rules, t.files, t.calls[i]);
  }

  // ---- moments of a run ----

  lemma {:induction false} RunAppend(rules: Rules, s: System, ops: seq<Op>, rest: seq<Op>)
    ensures var t := Run(rules, s, ops);
            Run(rules, s, ops + rest) == if t.Some? then Run(rules, t.value, rest) else None
    decreases |ops|
  {
    if ops == [] {
      assert ops + rest == rest;
    } else {
      assert (ops + rest)[1..] == ops[1..] + rest && (ops + rest)[0] == ops[0];
      if Enabled(s, ops[0]) { RunAppend(rules, Next(rules, s, ops[0]), ops[1..], rest); }
    }
  }

  lemma RunSplit(rules: Rules, s: System, ops: seq<Op>, k: nat)
    requires Run(rules, s, ops).Some? && k <= |ops|
    ensures Run(rules, s, ops[..k]).Some?
    ensures Run(rules, Run(rules, s, ops[..k]).value, ops[k..]) == Run(rules, s, ops)
  {
    RunAppend(rules, s, ops[..k], ops[k..]);
    assert ops[..k] + ops[k..] == ops;
  }

  /** The system after the first `k` operations. */
  function Moment(rules: Rules, s: System, ops: seq<Op>, k: nat): (t: System)
    requires Run(rules, s, ops).Some? && k <= |ops|
  {
    RunSplit(rules, s, ops, k);
    Run(rules, s, ops[..k]).value
  }

  lemma MomentNext(rules: Rules, s: System, ops: seq<Op>, k: nat)
    requires Run(rules, s, ops).Some? && k < |ops|
    ensures Enabled(Moment(rules, s, ops, k), ops[k])
    ensures Moment(rules, s, ops, k + 1) == Next(rules, Moment(rules, s, ops, k), ops[k])
  {
    var t := Moment(rules, s, ops, k);
    RunSplit(rules, s, ops, k + 1);
    RunSplit(rules, s, ops[..k + 1], k);
    assert ops[..k + 1][..k] == ops[..k] && ops[..k + 1][k..] == [ops[k]];
    assert Run(rules, t, [ops[k]]) == Run(rules, s, ops[..k + 1]);
    assert [ops[k]][1..] == [];
  }

  /** The moments of a beginning are those of the run. */
  lemma MomentOfPrefix(rules: Rules, s: System, ops: seq<Op>, m: nat, k: nat)
    requires Run(rules, s, ops).Some? && k <= m <= |ops|
    ensures Run(rules, s, ops[..m]).Some? && Moment(rules, s, ops[..m], k) == Moment(rules, s, ops, k)
  {
    RunSplit(rules, s, ops, m);
    assert ops[..m][..k] == ops[..k];
  }

  lemma LastMoment(rules: Rules, s: System, ops: seq<Op>)
    requires Run(rules, s, ops).Some?
    ensures Moment(rules, s, ops, |ops|) == Run(rules, s, ops).value && Moment(rules, s, ops, 0) == s
  {
    assert ops[..|ops|] == ops && ops[..0] == [];
  }

  // ---- a finalise over a running sandbox ----

  /** What the operation after the backup does; by `OnlyTheLastReplaces` no other one of a finalise replaces. */
  lemma LastWrites(rules: Rules, t: System, i: nat)
    requires i in t.calls && t.calls[i].at.BackedUp? && t.calls[i].n in t.files.dirs
    ensures ConfigOf(Next(rules, t, Go(i, false)).files, t.calls[i].n) == Some(t.calls[i].at.text)
  {
  }

  /** Operation `k` started the runtime of `n`, and it has run ever since. */
  ghost predicate StartedAt(rules: Rules, s: System, ops: seq<Op>, n: string, k: nat)
    requires Run(rules, s, ops).Some?
  {
    k < |ops| && ops[k] == Switch(n, true) &&
    forall j: nat :: k < j <= |ops| ==> n in Moment(rules, s, ops, j).files.running
  }

  ghost predicate Started(rules: Rules, s: System, ops: seq<Op>, n: string)
    requires Run(rules, s, ops).Some?
  {
    exists k: nat :: StartedAt(rules, s, ops, n, k)
  }

  lemma {:induction false} RunningSince(rules: Rules, s: System, ops: seq<Op>, n: string)
    requires Run(rules, s, ops).Some? && n !in s.files.running
    ensures n in Run(rules, s, ops).value.files.running <==> Started(rules, s, ops, n)
    decreases |ops|
  {
    LastMoment(rules, s, ops);
    if ops != [] && n in Run(rules, s, ops).value.files.running {
      var m := |ops| - 1;
      MomentNext(rules, s, ops, m);
      if ops[m] == Switch(n, true) {
        assert StartedAt(rules, s, ops, n, m);
      } else {
        RunSplit(rules, s, ops, m);
        RunningSince(rules, s, ops[..m], n);
        var k: nat :| StartedAt(rules, s, ops[..m], n, k);
        forall j: nat | k < j <= m ensures n in Moment(rules, s, ops, j).files.running {
          MomentOfPrefix(rules, s, ops, m, j);
        }
        assert StartedAt(rules, s, ops, n, k);
      }
    }
  }

  predicate PastIdle(at: At) {
    at.WasIdle? || at.Fits? || at.Loads? || at.Stored? || at.OldRead? || at.BackedUp?
  }

  /** Operation `k` is the idle check of call `i`, which passes. */
  ghost predicate IdleChecked(rules: Rules, s: System, ops: seq<Op>, i: nat, k: nat)
    requires Run(rules, s, ops).Some?
  {
    k < |ops| && ops[k] == Go(i, false) &&
    var t := Moment(rules, s, ops, k);
    i in t.calls && t.calls[i].at.MayEdit? && !t.calls[i].kind.Saving? && t.calls[i].n !in t.files.running
  }

  lemma GoDoes(rules: Rules, s: System, i: nat)
    requires Enabled(s, Go(i, false))
    ensures var t := Next(rules, s, Go(i, false)); var (g, at) := Operation(rules, s.files, s.calls[i]);
            t.files == g && t.calls.Keys == s.calls.Keys && t.calls[i] == s.calls[i].(at := at)
  {
  }

  /** A call changes its phase by its own operations alone. */
  lemma OwnPhase(rules: Rules, u: System, op: Op, i: nat)
    requires Enabled(u, op) && i in u.calls && op != Go(i, false)
    ensures var c, d := u.calls[i], Next(rules, u, op).calls[i];
            d.n == c.n && d.kind == c.kind && d.bp == c.bp &&
            (d.at == c.at || d.at.Returned? || (c.at.BackedUp? && d.at.BackedUp?))
  {
  }

  lemma IdleStep(rules: Rules, u: System, op: Op, i: nat)
    requires Enabled(u, op)
    requires var t := Next(rules, u, op); i in t.calls && PastIdle(t.calls[i].at)
    ensures i in u.calls && u.calls[i].n == Next(rules, u, op).calls[i].n
    ensures !PastIdle(u.calls[i].at) ==>
              op == Go(i, false) && u.calls[i].at.MayEdit? && !u.calls[i].kind.Saving? &&
              u.calls[i].n !in u.files.running
  {
    if i in u.calls && op != Go(i, false) { OwnPhase(rules, u, op, i); }
  }

  lemma {:induction false} FindIdleCheck(rules: Rules, s: System, ops: seq<Op>, i: nat) returns (k: nat)
    requires Run(rules, s, ops).Some? && i !in s.calls
    requires i in Run(rules, s, ops).value.calls && PastIdle(Run(rules, s, ops).value.calls[i].at)
    ensures IdleChecked(rules, s, ops, i, k)
    ensures Moment(rules, s, ops, k).calls[i].n == Run(rules, s, ops).value.calls[i].n
    decreases |ops|
  {
    LastMoment(rules, s, ops);
    var m := |ops| - 1;
    MomentNext(rules, s, ops, m);
    var t := Moment(rules, s, ops, m);
    IdleStep(rules, t, ops[m], i);
    if PastIdle(t.calls[i].at) {
      RunSplit(rules, s, ops, m);
      k := FindIdleCheck(rules, s, ops[..m], i);
      MomentOfPrefix(rules, s, ops, m, k);
    } else {
      k := m;
    }
  }

  /**
   About to replace a configuration, a finalise finds the sandbox running if and only if
   the runtime was started after that call's idle check and has run since.
  */
  lemma ReplacesRunningExactly(rules: Rules, s: System, ops: seq<Op>, i: nat) returns (k: nat)
    requires Run(rules, s, ops).Some? && i !in s.calls && i in Run(rules, s, ops).value.calls
    requires Run(rules, s, ops).value.calls[i].at.BackedUp?
    ensures IdleChecked(rules, s, ops, i, k)
    ensures Run(rules, Moment(rules, s, ops, k), ops[k..]) == Run(rules, s, ops)
    ensures var t := Run(rules, s, ops).value;
            t.calls[i].n in t.files.running <==> Started(rules, Moment(rules, s, ops, k), ops[k..], t.calls[i].n)
  {
    k := FindIdleCheck(rules, s, ops, i);
    RunSplit(rules, s, ops, k);
    RunningSince(rules, Moment(rules, s, ops, k), ops[k..], Run(rules, s, ops).value.calls[i].n);
  }

  // ---- a finalise over a sandbox it may not edit ----

  predicate Foreign(op: Op, i: nat) { op.Edit? || (op.Go? && op.i != i) }

  /** What the text allows, whoever wrote it. */
  predicate Fine(rules: Rules, config: Option<Text>) { config.None? || rules.editable(config.value) }

  /** Between `f` and `g` the sandbox has become view-only, or its configuration one that makes it so. */
  predicate TakesAway(rules: Rules, f: Files, g: Files, n: string) {
    (Editable(rules, f, n) && !Editable(rules, g, n)) ||
    (Fine(rules, ConfigOf(f, n)) && !Fine(rules, ConfigOf(g, n)))
  }

  ghost predicate ViewOnlySince(rules: Rules, s: System, ops: seq<Op>, n: string, k: nat)
    requires Run(rules, s, ops).Some?
  {
    forall j: nat :: k < j <= |ops| ==> !Editable(rules, Moment(rules, s, ops, j).files, n)
  }

  /** Operation `k`, an edit or another call's, made `n` view-only, and it has been so ever since. */
  ghost predicate TakenAwayAt(rules: Rules, s: System, ops: seq<Op>, i: nat, n: string, k: nat)
    requires Run(rules, s, ops).Some?
  {
    k < |ops| && Foreign(ops[k], i) &&
    TakesAway(rules, Moment(rules, s, ops, k).files, Moment(rules, s, ops, k + 1).files, n) &&
    ViewOnlySince(rules, s, ops, n, k)
  }

  ghost predicate TakenAway(rules: Rules, s: System, ops: seq<Op>, i: nat, n: string)
    requires Run(rules, s, ops).Some?
  {
    exists k: nat :: TakenAwayAt(rules, s, ops, i, n, k)
  }

  predicate BeforeWrite(at: At) { at.MayEdit? || at.WasIdle? || at.Fits? || at.Loads? }

  predicate PastEdit(at: At) { at.MayEdit? || PastIdle(at) }

  /**
   From the check on, a sandbox is view-only only by what others did; until the call
   writes its blueprint, also for want of one.
  */
  ghost predicate Blamed(rules: Rules, s: System, ops: seq<Op>, i: nat, n: string)
    requires Run(rules, s, ops).Some?
  {
    var t := Run(rules, s, ops).value;
    !Editable(rules, t.files, n) ==>
      TakenAway(rules, s, ops, i, n) ||
      (i in t.calls && BeforeWrite(t.calls[i].at) && Fine(rules, ConfigOf(t.files, n)))
  }

  ghost predicate CallGoesOn(t: System, i: nat, n: string) {
    i in t.calls && t.calls[i].n == n && t.calls[i].kind.Finalising? &&
    (PastEdit(t.calls[i].at) || t.calls[i].at.Returned?)
  }

  /** What the call itself, a start or a beginning does leaves a sandbox no less editable. */
  lemma OwnOperation(rules: Rules, u: System, op: Op, i: nat, n: string)
    requires Enabled(u, op) && !Foreign(op, i) && CallGoesOn(u, i, n) && PastEdit(Next(rules, u, op).calls[i].at)
    ensures var t := Next(rules, u, op);
            ConfigOf(t.files, n) == ConfigOf(u.files, n) &&
            (Editable(rules, u.files, n) ==> Editable(rules, t.files, n))
    ensures BeforeWrite(u.calls[i].at) && Fine(rules, ConfigOf(u.files, n)) ==>
              Editable(rules, Next(rules, u, op).files, n) || BeforeWrite(Next(rules, u, op).calls[i].at)
  {
  }

  lemma OthersOperation(rules: Rules, u: System, op: Op, i: nat, n: string)
    requires Enabled(u, op) && Foreign(op, i) && CallGoesOn(u, i, n) && BeforeWrite(u.calls[i].at)
    ensures Next(rules, u, op).calls[i].at == u.calls[i].at
  {
  }

  lemma GoesOnStep(rules: Rules, u: System, op: Op, i: nat, n: string)
    requires Enabled(u, op) && CallGoesOn(u, i, n)
    ensures CallGoesOn(Next(rules, u, op), i, n)
    ensures PastEdit(Next(rules, u, op).calls[i].at) ==> PastEdit(u.calls[i].at)
  {
    if op == Go(i, false) { GoDoes(rules, u, i); } else { OwnPhase(rules, u, op, i); }
  }

  lemma {:induction false} GoesOnRun(rules: Rules, s: System, ops: seq<Op>, i: nat, n: string)
    requires Run(rules, s, ops).Some? && CallGoesOn(s, i, n)
    ensures CallGoesOn(Run(rules, s, ops).value, i, n)
    decreases |ops|
  {
    if ops != [] {
      GoesOnStep(rules, s, ops[0], i, n);
      GoesOnRun(rules, Next(rules, s, ops[0]), ops[1..], i, n);
    }
  }

  lemma {:induction false} BlamedSince(rules: Rules, s: System, ops: seq<Op>, i: nat, n: string)
    requires Run(rules, s, ops).Some? && CallGoesOn(s, i, n) && s.calls[i].at.MayEdit?
    requires Fine(rules, ConfigOf(s.files, n))
    requires i in Run(rules, s, ops).value.calls && PastEdit(Run(rules, s, ops).value.calls[i].at)
    ensures Blamed(rules, s, ops, i, n)
    decreases |ops|
  {
    LastMoment(rules, s, ops);
    if ops != [] {
      var m, t := |ops| - 1, Run(rules, s, ops).value;
      var u := Moment(rules, s, ops, m);
      MomentNext(rules, s, ops, m);
      RunSplit(rules, s, ops, m);
      GoesOnRun(rules, s, ops[..m], i, n);
      GoesOnStep(rules, u, ops[m], i, n);
      if !Editable(rules, t.files, n) {
        BlamedSince(rules, s, ops[..m], i, n);
        if TakesAway(rules, u.files, t.files, n) && Foreign(ops[m], i) {
          assert TakenAwayAt(rules, s, ops, i, n, m);
        } else if TakenAway(rules, s, ops[..m], i, n) {
          StillTakenAway(rules, s, ops, i, n);
        } else if Foreign(ops[m], i) {
          OthersOperation(rules, u, ops[m], i, n);
        } else {
          OwnOperation(rules, u, ops[m], i, n);
        }
      }
    }
  }

  lemma StillViewOnly(rules: Rules, s: System, ops: seq<Op>, n: string, k: nat)
    requires ops != [] && Run(rules, s, ops).Some? && Run(rules, s, ops[..|ops| - 1]).Some?
    requires ViewOnlySince(rules, s, ops[..|ops| - 1], n, k) && !Editable(rules, Run(rules, s, ops).value.files, n)
    ensures ViewOnlySince(rules, s, ops, n, k)
  {
    LastMoment(rules, s, ops);
    forall j: nat | k < j <= |ops| ensures !Editable(rules, Moment(rules, s, ops, j).files, n) {
      if j < |ops| { MomentOfPrefix(rules, s, ops, |ops| - 1, j); }
    }
  }

  lemma StillTakenAway(rules: Rules, s: System, ops: seq<Op>, i: nat, n: string)
    requires ops != [] && Run(rules, s, ops).Some? && Run(rules, s, ops[..|ops| - 1]).Some?
    requires TakenAway(rules, s, ops[..|ops| - 1], i, n) && !Editable(rules, Run(rules, s, ops).value.files, n)
    ensures TakenAway(rules, s, ops, i, n)
  {
    var k: nat :| TakenAwayAt(rules, s, ops[..|ops| - 1], i, n, k);
    StillTakenAwayAt(rules, s, ops, i, n, k);
  }

  lemma StillTakenAwayAt(rules: Rules, s: System, ops: seq<Op>, i: nat, n: string, k: nat)
    requires ops != [] && Run(rules, s, ops).Some? && Run(rules, s, ops[..|ops| - 1]).Some?
    requires TakenAwayAt(rules, s, ops[..|ops| - 1], i, n, k) && !Editable(rules, Run(rules, s, ops).value.files, n)
    ensures TakenAwayAt(rules, s, ops, i, n, k)
  {
    assert Foreign(ops[k], i);
    MomentOfPrefix(rules, s, ops, |ops| - 1, k);
    MomentOfPrefix(rules, s, ops, |ops| - 1, k + 1);
    StillViewOnly(rules, s, ops, n, k);
  }

  /** Operation `k` is the edit check of call `i`, which passes. */
  ghost predicate EditChecked(rules: Rules, s: System, ops: seq<Op>, i: nat, k: nat)
    requires Run(rules, s, ops).Some?
  {
    k < |ops| && ops[k] == Go(i, false) &&
    var t, next := Moment(rules, s, ops, k), Moment(rules, s, ops, k + 1);
    i in t.calls && t.calls[i].at.SawBlueprint? && i in next.calls && next.calls[i].at.MayEdit? &&
    next.calls[i].n == t.calls[i].n && Fine(rules, ConfigOf(next.files, t.calls[i].n))
  }

  lemma EditStep(rules: Rules, u: System, op: Op, i: nat)
    requires Enabled(u, op)
    requires var t := Next(rules, u, op); i in t.calls && PastEdit(t.calls[i].at)
    ensures var t := Next(rules, u, op);
            i in u.calls && u.calls[i].n == t.calls[i].n && u.calls[i].kind == t.calls[i].kind &&
            (!PastEdit(u.calls[i].at) ==>
               op == Go(i, false) && u.calls[i].at.SawBlueprint? && t.calls[i].at.MayEdit? &&
               Fine(rules, ConfigOf(t.files, u.calls[i].n)))
  {
    if i in u.calls && op != Go(i, false) { OwnPhase(rules, u, op, i); }
  }

  lemma {:induction false} FindEditCheck(rules: Rules, s: System, ops: seq<Op>, i: nat) returns (k: nat)
    requires Run(rules, s, ops).Some? && i !in s.calls
    requires i in Run(rules, s, ops).value.calls && PastEdit(Run(rules, s, ops).value.calls[i].at)
    ensures EditChecked(rules, s, ops, i, k)
    ensures Moment(rules, s, ops, k).calls[i].n == Run(rules, s, ops).value.calls[i].n
    ensures Moment(rules, s, ops, k).calls[i].kind == Run(rules, s, ops).value.calls[i].kind
    decreases |ops|
  {
    LastMoment(rules, s, ops);
    var m := |ops| - 1;
    MomentNext(rules, s, ops, m);
    var t := Moment(rules, s, ops, m);
    EditStep(rules, t, ops[m], i);
    if PastEdit(t.calls[i].at) {
      RunSplit(rules, s, ops, m);
      k := FindEditCheck(rules, s, ops[..m], i);
      MomentOfPrefix(rules, s, ops, m, k);
      MomentOfPrefix(rules, s, ops, m, k + 1);
    } else {
      k := m;
    }
  }

  /**
   About to replace a configuration, a finalise finds the sandbox view-only if and only if
   an edit or another call after that call's check made it so, and it has been so since.
  */
  lemma ReplacesViewOnlyExactly(rules: Rules, s: System, ops: seq<Op>, i: nat) returns (k: nat)
    requires Run(rules, s, ops).Some? && i !in s.calls && i in Run(rules, s, ops).value.calls
    requires Run(rules, s, ops).value.calls[i].at.BackedUp? && Run(rules, s, ops).value.calls[i].kind.Finalising?
    ensures EditChecked(rules, s, ops, i, k)
    ensures Run(rules, Moment(rules, s, ops, k + 1), ops[k + 1..]) == Run(rules, s, ops)
    ensures var t := Run(rules, s, ops).value;
            !Editable(rules, t.files, t.calls[i].n) <==>
            TakenAway(rules, Moment(rules, s, ops, k + 1), ops[k + 1..], i, t.calls[i].n)
  {
    k := FindEditCheck(rules, s, ops, i);
    var t, u := Run(rules, s, ops).value, Moment(rules, s, ops, k + 1);
    MomentNext(rules, s, ops, k);
    RunSplit(rules, s, ops, k + 1);
    BlamedSince(rules, u, ops[k + 1..], i, t.calls[i].n);
    LastMoment(rules, u, ops[k + 1..]);
  }

  // ---- uninterrupted ----

  /** `k` operations of one call, nothing in between. */
  function Alone(rules: Rules, f: Files, c: Call, k: nat): (r: (Files, Call))
    decreases k
  {
    if k == 0 then (f, c)
    else var (g, at) := Operation(rules, f, c); Alone(rules, g, c.(at := at), k - 1)
  }

  lemma AloneAt(rules: Rules, f: Files, c: Call, k: nat, g: Files, at: At)
    requires k > 0 && Operation(rules, f, c) == (g, at)
    ensures Alone(rules, f, c, k) == Alone(rules, g, c.(at := at), k - 1)
  {
  }

  function Repeated(op: Op, k: nat): (ops: seq<Op>) { seq(k, _ => op) }

  ghost predicate GoesOn(rules: Rules, f: Files, c: Call, k: nat) {
    forall m: nat :: m < k ==> !Alone(rules, f, c, m).1.at.Returned?
  }

  lemma GoesOnTail(rules: Rules, f: Files, c: Call, k: nat)
    requires k > 0 && GoesOn(rules, f, c, k)
    ensures !c.at.Returned?
    ensures var (g, at) := Operation(rules, f, c); GoesOn(rules, g, c.(at := at), k - 1)
  {
    assert !Alone(rules, f, c, 0).1.at.Returned?;
    var (g, at) := Operation(rules, f, c);
    forall m: nat | m < k - 1 ensures !Alone(rules, g, c.(at := at), m).1.at.Returned? {
      AloneAt(rules, f, c, m + 1, g, at);
    }
  }

  /** Operations of one call in a row are a run. */
  lemma {:induction false} AloneIsRun(rules: Rules, s: System, i: nat, k: nat)
    requires i in s.calls && GoesOn(rules, s.files, s.calls[i], k)
    ensures var r := Run(rules, s, Repeated(Go(i, false), k));
            r.Some? && r.value.files == Alone(rules, s.files, s.calls[i], k).0 && i in r.value.calls &&
            r.value.calls[i] == Alone(rules, s.files, s.calls[i], k).1
    decreases k
  {
    if k > 0 {
      GoesOnTail(rules, s.files, s.calls[i], k);
      GoDoes(rules, s, i);
      AloneIsRun(rules, Next(rules, s, Go(i, false)), i, k - 1);
      assert Repeated(Go(i, false), k)[1..] == Repeated(Go(i, false), k - 1);
    }
  }

  /** The checks of a finalise that may go on, which write nothing. */
  lemma ChecksPass(rules: Rules, f: Files, c: Call, k: nat)
    requires c.kind.Finalising? && c.at.Called? && MayFinalise(rules, f, c.n, c.bp, c.kind.sha) && k >= 5
    ensures Alone(rules, f, c, k) ==
            Alone(rules, f, c.(at := Loads(Compile(rules, f, c.n, c.bp).toml)), k - 5)
  {
    var text := Compile(rules, f, c.n, c.bp).toml;
    var has := BlueprintOf(f, c.n).Some?;
    AloneAt(rules, f, c, k, f, SawBlueprint(has));
    AloneAt(rules, f, c.(at := SawBlueprint(has)), k - 1, f, MayEdit);
    AloneAt(rules, f, c.(at := MayEdit), k - 2, f, WasIdle);
    AloneAt(rules, f, c.(at := WasIdle), k - 3, f, Fits(text));
    AloneAt(rules, f, c.(at := Fits(text)), k - 4, f, Loads(text));
  }

  /** The backup and the replacement. */
  lemma WritesPass(rules: Rules, f: Files, c: Call, text: Text)
    requires c.n in f.dirs && c.at == Stored(text)
    ensures var d := WithBackup(f.dirs[c.n]).(config := Some(text));
            Alone(rules, f, c, 3) == (SetDir(f, c.n, d), c.(at := Returned(true)))
  {
    var was, d := ConfigOf(f, c.n), WithBackup(f.dirs[c.n]);
    var g := if was.Some? then SetDir(f, c.n, d) else f;
    AloneAt(rules, f, c, 3, f, OldRead(text, was));
    var backed := BackedUp(text, if was.Some? then was else PrevOf(f, c.n), true);
    AloneAt(rules, f, c.(at := OldRead(text, was)), 2, g, backed);
    AloneAt(rules, g, c.(at := backed), 1, SetDir(g, c.n, d.(config := Some(text))), Returned(true));
    assert SetDir(g, c.n, d.(config := Some(text))) == SetDir(f, c.n, d.(config := Some(text)));
  }

  /** A finalise that nothing interrupts and nothing fails does what the one step of it does. */
  lemma FinaliseIsItsOps(rules: Rules, f: Files, n: string, bp: Blueprint, sha: Text)
    requires MayFinalise(rules, f, n, bp, sha)
    ensures Alone(rules, f, Call(n, bp, Finalising(sha), Called), 9) ==
            (After(rules, f, FinaliseStep(n, bp, sha, WroteAll)), Call(n, bp, Finalising(sha), Returned(true)))
  {
    var text, c := Compile(rules, f, n, bp).toml, Call(n, bp, Finalising(sha), Called);
    var g := SetDir(f, n, f.dirs[n].(blueprint := rules.toJson(bp)));
    ChecksPass(rules, f, c, 9);
    AloneAt(rules, f, c.(at := Loads(text)), 4, g, Stored(text));
    WritesPass(rules, g, c.(at := Stored(text)), text);
    var d := WithBackup(g.dirs[n]).(config := Some(text));
    assert SetDir(g, n, d) == SetDir(f, n, d);
  }

  /** The same for a save. */
  lemma SaveIsItsOps(rules: Rules, f: Files, n: string, bp: Blueprint)
    requires MaySave(rules, f, n, bp)
    ensures var c := Call(n, bp, Saving, Called);
            Alone(rules, f, c, 3) == (After(rules, f, SaveStep(n, bp, WroteAll)), c.(at := Returned(true)))
  {
    var c, has := Call(n, bp, Saving, Called), BlueprintOf(f, n).Some?;
    var g := SetDir(f, n, f.dirs[n].(blueprint := rules.toJson(bp)));
    AloneAt(rules, f, c, 3, f, SawBlueprint(has));
    AloneAt(rules, f, c.(at := SawBlueprint(has)), 2, f, MayEdit);
    AloneAt(rules, f, c.(at := MayEdit), 1, g, Returned(true));
  }

  /** And for a creation. */
  lemma CreateIsItsOps(rules: Rules, f: Files, n: string, tpl: string, bp: Blueprint)
    requires MayCreate(rules, f, n, tpl)
    ensures var c := Call(n, bp, Creating(tpl), Called);
            Alone(rules, f, c, 3) == (After(rules, f, CreateStep(n, tpl, WroteAll)), c.(at := Returned(true)))
  {
    var c, made := Call(n, bp, Creating(tpl), Called), rules.template(tpl, n).value;
    var text := rules.compile(made, None).toml;
    var f1 := SetDir(f, n, Dir(None, None, None));
    var f2 := SetDir(f1, n, Dir(rules.toJson(made), None, None));
    var f3 := SetDir(f2, n, Dir(rules.toJson(made), Some(text), None));
    AloneAt(rules, f, c, 3, f1, Made(text));
    AloneAt(rules, f1, c.(at := Made(text)), 2, f2, Described(text));
    AloneAt(rules, f2, c.(at := Described(text)), 1, f3, Returned(true));
    assert f3 == SetDir(f, n, Dir(rules.toJson(made), Some(text), None));
  }

  // ---- what comes between ----

  const RULES: Rules := Rules(
    _ => true, (_, _) => Compiled("new", true), (_, _) => true, _ => true, _ => Some("{}"), text => text,
    (_, _) => None)

  const OLD: Files := Files(map["s" := Dir(Some("{}"), Some("old"), None)], {})

  const FINALISE: Call := Call("s", Blueprint("s", ""), Finalising("new"), Called)

  const PHASES: seq<At> :=
    [Called, SawBlueprint(true), MayEdit, WasIdle, Fits("new"), Loads("new"), Stored("new"),
     OldRead("new", Some("old"))]

  /** The call alone, on the old files, at phase `k`. */
  function At0(k: nat): (s: System)
    requires k < |PHASES|
  {
    System(OLD, map[0 := FINALISE.(at := PHASES[k])])
  }

  lemma RunSnoc(rules: Rules, s: System, ops: seq<Op>, op: Op)
    requires Run(rules, s, ops).Some? && Enabled(Run(rules, s, ops).value, op)
    ensures Run(rules, s, ops + [op]) == Some(Next(rules, Run(rules, s, ops).value, op))
  {
    var t := Run(rules, s, ops).value;
    RunAppend(rules, s, ops, [op]);
    assert [op][1..] == [];
    assert Run(rules, t, [op]) == Run(rules, Next(rules, t, op), []);
  }

  lemma PhaseNext(k: nat)
    requires k < |PHASES| - 1
    ensures Operation(RULES, OLD, FINALISE.(at := PHASES[k])) == (OLD, PHASES[k + 1])
  {
    assert SetDir(OLD, "s", OLD.dirs["s"]) == OLD;
  }

  /** The call begins and does its first `k` operations. */
  function Began(k: nat): (ops: seq<Op>) {
    if k == 0 then [Begin(0, FINALISE.n, FINALISE.bp, FINALISE.kind)] else Began(k - 1) + [Go(0, false)]
  }

  lemma Begins()
    ensures Run(RULES, System(OLD, map[]), Began(0)) == Some(At0(0))
  {
    var s := System(OLD, map[]);
    assert [] + Began(0) == Began(0);
    RunSnoc(RULES, s, [], Began(0)[0]);
    assert Next(RULES, s, Began(0)[0]).calls == map[0 := FINALISE];
  }

  lemma Proceeds(k: nat)
    requires k < |PHASES| - 1
    ensures Enabled(At0(k), Go(0, false)) && Next(RULES, At0(k), Go(0, false)) == At0(k + 1)
  {
    PhaseNext(k);
    GoDoes(RULES, At0(k), 0);
    assert Next(RULES, At0(k), Go(0, false)).calls == At0(k + 1).calls;
  }

  lemma ReachesNext(k: nat)
    requires k < |PHASES| - 1 && Run(RULES, System(OLD, map[]), Began(k)) == Some(At0(k))
    ensures Run(RULES, System(OLD, map[]), Began(k + 1)) == Some(At0(k + 1))
  {
    Proceeds(k);
    RunSnoc(RULES, System(OLD, map[]), Began(k), Go(0, false));
    assert Began(k + 1) == Began(k) + [Go(0, false)];
  }

  lemma {:induction false} Reaches(k: nat)
    requires k < |PHASES|
    ensures Run(RULES, System(OLD, map[]), Began(k)) == Some(At0(k))
  {
    if k == 0 {
      Begins();
    } else {
      Reaches(k - 1);
      ReachesNext(k - 1);
    }
  }

  /** One run: the call up to where it has read the old text, one other operation, and the rest of the call. */
  function Interrupted(op: Op): (ops: seq<Op>) { Began(7) + [op] + [Go(0, false)] + [Go(0, false)] }

  /** The call backs up what it read. */
  lemma BacksUp(t: System, d: Dir, running: set<string>)
    requires t == System(Files(map["s" := d], running), At0(7).calls)
    ensures Enabled(t, Go(0, false))
    ensures Next(RULES, t, Go(0, false)) ==
            System(Files(map["s" := d.(prev := Some("old"))], running),
                   map[0 := FINALISE.(at := BackedUp("new", Some("old"), true))])
  {
    var backed := d.(prev := Some("old"));
    assert map["s" := d]["s" := backed] == map["s" := backed];
    GoDoes(RULES, t, 0);
    assert t.calls[0].at == OldRead("new", Some("old"));
  }

  /** And replaces what is there by then. */
  lemma Replaces(u: System, d: Dir, running: set<string>)
    requires u.files == Files(map["s" := d], running) && 0 in u.calls
    requires u.calls[0] == FINALISE.(at := BackedUp("new", Some("old"), true))
    ensures Enabled(u, Go(0, false))
    ensures Next(RULES, u, Go(0, false)).files == Files(map["s" := d.(config := Some("new"))], running)
  {
    var done := d.(config := Some("new"));
    assert map["s" := d]["s" := done] == map["s" := done];
    GoDoes(RULES, u, 0);
  }

  lemma Finishes(op: Op, d: Dir, running: set<string>) returns (u: System)
    requires Enabled(At0(7), op) && Next(RULES, At0(7), op) == System(Files(map["s" := d], running), At0(7).calls)
    ensures Run(RULES, System(OLD, map[]), Began(7) + [op] + [Go(0, false)]) == Some(u)
    ensures u.files == Files(map["s" := d.(prev := Some("old"))], running)
    ensures Enabled(u, Go(0, false)) &&
            Run(RULES, System(OLD, map[]), Interrupted(op)) == Some(Next(RULES, u, Go(0, false)))
    ensures Next(RULES, u, Go(0, false)).files ==
            Files(map["s" := Dir(d.blueprint, Some("new"), Some("old"))], running)
  {
    Reaches(7);
    var s, t := System(OLD, map[]), Next(RULES, At0(7), op);
    RunSnoc(RULES, s, Began(7), op);
    BacksUp(t, d, running);
    RunSnoc(RULES, s, Began(7) + [op], Go(0, false));
    u := Next(RULES, t, Go(0, false));
    Replaces(u, d.(prev := Some("old")), running);
    RunSnoc(RULES, s, Began(7) + [op] + [Go(0, false)], Go(0, false));
  }

  /** An edit after the old text is read and before it is replaced is in no file afterwards. */
  lemma EditIsLost() returns (op: Op, t: System)
    ensures Run(RULES, System(OLD, map[]), Interrupted(op)) == Some(t) && OperatorEdits(op, "s", "edited")
    ensures t.files.dirs == map["s" := Dir(Some("{}"), Some("new"), Some("old"))]
  {
    var d := Dir(Some("{}"), Some("edited"), None);
    op := Edit("s", Some(d));
    assert OLD.dirs["s" := d] == map["s" := d];
    Noticing(op);
    var u := Finishes(op, d, {});
    t := Next(RULES, u, Go(0, false));
  }

  lemma Noticing(op: Op)
    requires op.Edit? || op.Switch?
    ensures Next(RULES, At0(7), op).calls == At0(7).calls
  {
  }

  /** A runtime that starts after the check for it: its configuration is replaced while it runs. */
  lemma RunningIsReplaced() returns (u: System, t: System)
    ensures Run(RULES, System(OLD, map[]), Interrupted(Switch("s", true))) == Some(t)
    ensures Run(RULES, System(OLD, map[]), Began(7) + [Switch("s", true)] + [Go(0, false)]) == Some(u)
    ensures "s" in u.files.running && ConfigOf(u.files, "s") == Some("old")
    ensures "s" in t.files.running && ConfigOf(t.files, "s") == Some("new")
  {
    var op := Switch("s", true);
    assert OLD.running + {"s"} == {"s"};
    Noticing(op);
    u := Finishes(op, OLD.dirs["s"], {"s"});
    t := Next(RULES, u, Go(0, false));
  }

  /** A blueprint that goes after the check for it: the configuration of a hand-written sandbox is replaced. */
  lemma ViewOnlyIsReplaced() returns (op: Op, u: System, t: System)
    ensures op == Edit("s", Some(Dir(None, Some("old"), None)))
    ensures Run(RULES, System(OLD, map[]), Interrupted(op)) == Some(t)
    ensures Run(RULES, System(OLD, map[]), Began(7) + [op] + [Go(0, false)]) == Some(u)
    ensures !Editable(RULES, u.files, "s") && ConfigOf(u.files, "s") == Some("old")
    ensures t.files.dirs == map["s" := Dir(None, Some("new"), Some("old"))]
  {
    var d := Dir(None, Some("old"), None);
    op := Edit("s", Some(d));
    assert OLD.dirs["s" := d] == map["s" := d];
    Noticing(op);
    u := Finishes(op, d, {});
    t := Next(RULES, u, Go(0, false));
  }
}
