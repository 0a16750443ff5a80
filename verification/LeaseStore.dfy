/**
 The lease table of `<state dir>/runtime.db` as the runtime sees it: one atomic
 statement per call (src/ports/runtime.rs, src/adapters/outbound/runtime_store.rs),
 and the leases a process plans to take (src/bootstrap/runtime.rs).
*/
module LeaseStore {
  import opened Prelude

  datatype Row = Row(holder: string, acquired: int, expires: int)

  type Table = map<string, Row>

  /** The store's answer: who has the lease now, since when and until when. */
  datatype Reply = Reply(granted: bool, holder: string, acquired: int, expires: int)

  /** Take `resource` when free, expired or ours; a renewal keeps `acquired`. */
  function Acquire(table: Table, resource: string, holder: string, ttl: int, now: int): (r: (Table, Reply)) {
    if resource in table && table[resource].holder != holder && table[resource].expires > now then
      (table, Reply(false, table[resource].holder, table[resource].acquired, table[resource].expires))
    else
      var acquired :=
        if resource in table && table[resource].holder == holder then table[resource].acquired else now;
      (table[resource := Row(holder, acquired, now + ttl)], Reply(true, holder, acquired, now + ttl))
  }

  /** Drop the holder's lease; someone else's stays. */
  function Release(table: Table, resource: string, holder: string): (r: Table) {
    if resource in table && table[resource].holder == holder then table - {resource} else table
  }

  // ---- the plan ----

  /** A directory: its whole path as text, and its last component when it has one. */
  datatype Dir = Dir(display: string, name: Option<string>)

  datatype LeaseKind = Runner | State | SoeState

  datatype Plan = Plan(sandbox: string, stateDir: Dir, ledger: bool, soeState: Option<Dir>)

  /** What the plan reads of the configuration. */
  datatype Config = Config(
    sandbox: Option<string>,
    xmState: Option<Dir>,       // the [xmarket] state dir
    sourcesState: Option<Dir>,  // the [sources] state dir
    soe: bool,                  // an [soe] section
    homeState: Dir              // <TENGU_HOME>/state
  )

  function PlanOf(c: Config): (r: Plan) {
    Plan(
      if c.sandbox.Some? then c.sandbox.value else "default",
      if c.xmState.Some? then c.xmState.value
      else if c.sourcesState.Some? then c.sourcesState.value
      else c.homeState,
      c.xmState.Some?,
      if c.soe then c.sourcesState else None)
  }

  function RunnerLease(sandbox: string): (r: string) { "runtime:" + sandbox }

  function DirLease(dir: Dir): (r: string) {
    "state:" + (if dir.name.Some? then dir.name.value else dir.display)
  }

  datatype Wanted = Wanted(resource: string, kind: LeaseKind)

  ghost predicate DistinctResources(rs: seq<Wanted>) {
    forall i, j :: 0 <= i < j < |rs| ==> rs[i].resource != rs[j].resource
  }

  /** The plan needs `resource`. */
  predicate Needs(plan: Plan, resource: string) {
    resource == RunnerLease(plan.sandbox) ||
    (plan.ledger && resource == DirLease(plan.stateDir)) ||
    (plan.soeState.Some? && resource == DirLease(plan.soeState.value))
  }

  predicate KindFits(plan: Plan, w: Wanted) {
    match w.kind
    case Runner => w.resource == RunnerLease(plan.sandbox)
    case State => plan.ledger && w.resource == DirLease(plan.stateDir)
    case SoeState => plan.soeState.Some? && w.resource == DirLease(plan.soeState.value)
  }

  /** The leases in the order they are taken: the runner's first, a dir leased once. */
  method Resources(plan: Plan) returns (out: seq<Wanted>)
    ensures DistinctResources(out) && out != [] && out[0] == Wanted(RunnerLease(plan.sandbox), Runner)
    ensures forall r :: Needs(plan, r) <==> exists i :: 0 <= i < |out| && out[i].resource == r
    ensures forall i :: 0 <= i < |out| ==> KindFits(plan, out[i])
  {
    out := [Wanted(RunnerLease(plan.sandbox), Runner)];
    RunnerIsNoDir(plan.sandbox, plan.stateDir);
    if plan.ledger {
      out := out + [Wanted(DirLease(plan.stateDir), State)];
    }
    if plan.soeState.Some? {
      var r := DirLease(plan.soeState.value);
      RunnerIsNoDir(plan.sandbox, plan.soeState.value);
      if forall i :: 0 <= i < |out| ==> out[i].resource != r {
        out := out + [Wanted(r, SoeState)];
        assert out[|out| - 1].resource == r;
      }
      assert exists i :: 0 <= i < |out| && out[i].resource == r;
    }
    assert out[0].resource == RunnerLease(plan.sandbox);
    assert plan.ledger ==> out[1].resource == DirLease(plan.stateDir);
  }

  lemma RunnerIsNoDir(sandbox: string, dir: Dir)
    ensures RunnerLease(sandbox) != DirLease(dir)
  {
    assert RunnerLease(sandbox)[0] == 'r' && DirLease(dir)[0] == 's';
  }

  /** Two sandboxes that write into one directory share its lease, whatever they use it for. */
  lemma SharedDirSharesLease(a: Config, b: Config, dir: Dir)
    requires a.xmState == Some(dir) || (a.soe && a.sourcesState == Some(dir))
    requires b.xmState == Some(dir) || (b.soe && b.sourcesState == Some(dir))
    ensures Needs(PlanOf(a), DirLease(dir)) && Needs(PlanOf(b), DirLease(dir))
  {
  }

  /** What a configuration's sandbox writes into under a lease. */
  function Leased(c: Config): (dirs: set<Dir>) {
    (if c.xmState.Some? then {c.xmState.value} else {}) +
    (if c.soe && c.sourcesState.Some? then {c.sourcesState.value} else {})
  }

  /** A dir is known by its last component, or by its whole path when it has none. */
  function LastName(dir: Dir): (name: string) { if dir.name.Some? then dir.name.value else dir.display }

  function SandboxName(c: Config): (name: string) { if c.sandbox.Some? then c.sandbox.value else "default" }

  /** The leases of a configuration, and the dir whose `runtime.db` has them. */
  lemma LeasesOf(c: Config)
    ensures forall r :: Needs(PlanOf(c), r) <==>
              r == "runtime:" + SandboxName(c) || exists dir :: dir in Leased(c) && r == "state:" + LastName(dir)
    ensures PlanOf(c).sandbox == SandboxName(c)
    ensures PlanOf(c).stateDir ==
            if c.xmState.Some? then c.xmState.value
            else if c.sourcesState.Some? then c.sourcesState.value else c.homeState
  {
    forall r ensures Needs(PlanOf(c), r) <==>
      r == "runtime:" + SandboxName(c) || exists dir :: dir in Leased(c) && r == "state:" + LastName(dir)
    {
      if c.xmState.Some? { assert c.xmState.value in Leased(c); }
      if c.soe && c.sourcesState.Some? { assert c.sourcesState.value in Leased(c); }
    }
  }

  lemma SameTail(pre: string, a: string, b: string)
    ensures pre + a == pre + b <==> a == b
  {
    assert (pre + a)[|pre|..] == a && (pre + b)[|pre|..] == b;
  }

  /** Two configurations can run beside each other exactly when neither name nor dir is the other's. */
  lemma NoSharedLease(a: Config, b: Config)
    ensures (forall r :: !(Needs(PlanOf(a), r) && Needs(PlanOf(b), r))) <==>
            SandboxName(a) != SandboxName(b) &&
            forall x, y :: x in Leased(a) && y in Leased(b) ==> LastName(x) != LastName(y)
  {
    LeasesOf(a);
    LeasesOf(b);
    SameTail("runtime:", SandboxName(a), SandboxName(b));
    forall x, y | x in Leased(a) && y in Leased(b)
      ensures "state:" + LastName(x) == "state:" + LastName(y) <==> LastName(x) == LastName(y)
    {
      SameTail("state:", LastName(x), LastName(y));
    }
    if forall r :: !(Needs(PlanOf(a), r) && Needs(PlanOf(b), r)) {
      assert !(Needs(PlanOf(a), "runtime:" + SandboxName(a)) && Needs(PlanOf(b), "runtime:" + SandboxName(a)));
      forall x, y | x in Leased(a) && y in Leased(b) ensures LastName(x) != LastName(y) {
        var r := "state:" + LastName(x);
        assert !(Needs(PlanOf(a), r) && Needs(PlanOf(b), r));
      }
    } else {
      var r :| Needs(PlanOf(a), r) && Needs(PlanOf(b), r);
      forall x ensures "runtime:" + SandboxName(a) != "state:" + x && "runtime:" + SandboxName(b) != "state:" + x {
        assert ("runtime:" + SandboxName(a))[0] != ("state:" + x)[0];
        assert ("runtime:" + SandboxName(b))[0] != ("state:" + x)[0];
      }
    }
  }
}
