/**
 Any number of processes on one `runtime.db`: takes, renewals (`HeldLeases`,
 src/application/runtime/mod.rs), releases, crashes and expiry, interleaved one
 store statement at a time.

 A renewal is in flight from its check of the loss, where it reads the clock and the
 known expiry, over its statement to its answer. Several can be in flight, of one
 lease too (the renewal task's and a writer's), and a statement may run after the
 process has lost a lease, is stopping or has freed it.

 A process goes by the expiry it was last granted, not by the table; the question
 is whether two processes can both go by an unexpired lease on one resource.
*/
module LeaseRuns {
  import opened Prelude
  import opened LeaseStore

  const TTL: int := 30_000

  /** What a renewal that met a store error needs left before the known expiry. */
  const EXPIRY_GUARD: int := 1_000

  /** A lease as its process knows it: `known` is the newest granted expiry. */
  datatype Lease = Lease(resource: string, acquired: int, known: int)

  datatype Answer = Waiting | Replied(reply: Reply) | Failed

  /** A renewal of lease `i`: the clock and the known expiry as read when it began. */
  datatype Flight = Flight(i: nat, now: int, known: int, answer: Answer)

  datatype Phase = Taking | Owning | Stopping | Gone

  /** `freed` leases were released, the last taken first; an error may have left a row of `stray`. */
  datatype Process = Process(
    plan: seq<string>, held: seq<Lease>, freed: nat, phase: Phase, lost: bool, flights: map<nat, Flight>,
    stray: set<string>)

  /** `procs` by holder id, which no two processes share. */
  datatype World = World(clock: int, table: Table, procs: map<string, Process>)

  /** How a store call ended; an error may be reported before or after the row changed. */
  datatype Outcome = Done | FailedBefore | FailedAfter

  datatype Step =
    | Tick(now: int)                                   // the wall clock reads `now`: it can be set back
    | Start(p: string, plan: seq<string>)
    | Take(p: string, now: int, outcome: Outcome)      // `now` was read some time before the statement
    | Begin(p: string, i: nat, id: nat)
    | Statement(p: string, id: nat, outcome: Outcome)
    | End(p: string, id: nat)
    | Stop(p: string)
    | Free(p: string, outcome: Outcome)
    | Crash(p: string)

  predicate Distinct(plan: seq<string>) {
    forall i, j :: 0 <= i < j < |plan| ==> plan[i] != plan[j]
  }

  // ---- one process ----

  /** The next resource of the plan was answered. */
  function Taken(pr: Process, reply: Reply): (next: Process)
    requires |pr.held| < |pr.plan|
  {
    if !reply.granted then pr.(phase := Stopping)
    else
      var held := pr.held + [Lease(pr.plan[|pr.held|], reply.acquired, reply.expires)];
      pr.(held := held, phase := if |held| == |pr.plan| then Owning else Taking)
  }

  /** The statement of flight `id` ran. */
  function Ran(pr: Process, id: nat, reply: Reply, outcome: Outcome): (next: Process)
    requires id in pr.flights && pr.flights[id].i < |pr.held|
  {
    var f := pr.flights[id];
    pr.(flights := pr.flights[id := f.(answer := if outcome == Done then Replied(reply) else Failed)],
        stray := if f.i < Unfreed(pr) then pr.stray else pr.stray + {pr.held[f.i].resource})
  }

  /** A granted answer that the lease goes on with. */
  predicate GoesOn(l: Lease, a: Answer) {
    a.Replied? && a.reply.granted && a.reply.acquired == l.acquired
  }

  /** The answer of a renewal, as the process takes it. */
  function Answered(pr: Process, f: Flight): (next: Process)
    requires f.i < |pr.held|
  {
    var l := pr.held[f.i];
    if GoesOn(l, f.answer) then pr.(held := pr.held[f.i := l.(known := Later(l.known, f.answer.reply.expires))])
    else if f.answer.Failed? && f.now + EXPIRY_GUARD < f.known then pr
    else pr.(lost := true)
  }

  function Later(a: int, b: int): (c: int)
    ensures c >= a && c >= b && (c == a || c == b)
  {
    if a > b then a else b
  }

  /** The leases that no release was tried for. */
  function Unfreed(pr: Process): (n: nat) { if pr.freed < |pr.held| then |pr.held| - pr.freed else 0 }

  // ---- a step ----

  predicate Alive(w: World, p: string) { p in w.procs && !w.procs[p].phase.Gone? }

  /** A flight of `p` that has not been answered. */
  predicate CanRun(w: World, p: string, id: nat) {
    Alive(w, p) && id in w.procs[p].flights && w.procs[p].flights[id].answer.Waiting? &&
    w.procs[p].flights[id].i < |w.procs[p].held|
  }

  function Put(w: World, p: string, table: Table, pr: Process): (v: World) {
    w.(table := table, procs := w.procs[p := pr])
  }

  predicate Enabled(w: World, step: Step) {
    match step
    case Tick(_) => true
    case Start(p, plan) => p !in w.procs && plan != [] && Distinct(plan)
    case Take(p, _, _) =>
      Alive(w, p) && w.procs[p].phase.Taking? && |w.procs[p].held| < |w.procs[p].plan|
    case Begin(p, i, id) =>
      Alive(w, p) && !w.procs[p].lost && |w.procs[p].held| == |w.procs[p].plan| &&
      i < |w.procs[p].held| && id !in w.procs[p].flights
    case Statement(p, id, _) => CanRun(w, p, id)
    case End(p, id) =>
      Alive(w, p) && id in w.procs[p].flights && !w.procs[p].flights[id].answer.Waiting? &&
      w.procs[p].flights[id].i < |w.procs[p].held|
    case Stop(p) => Alive(w, p) && w.procs[p].phase.Owning?
    case Free(p, _) => Alive(w, p) && w.procs[p].phase.Stopping? && Unfreed(w.procs[p]) > 0
    case Crash(p) => Alive(w, p)
  }

  function After(w: World, step: Step): (v: World)
    requires Enabled(w, step)
  {
    match step
    case Tick(now) => w.(clock := now)
    case Start(p, plan) => Put(w, p, w.table, Process(plan, [], 0, Taking, false, map[], {}))
    case Take(p, now, outcome) =>
      var pr := w.procs[p];
      var resource := pr.plan[|pr.held|];
      var (table, reply) := Acquire(w.table, resource, p, TTL, now);
      if outcome == Done then Put(w, p, table, Taken(pr, reply))
      else Put(w, p, if outcome == FailedAfter then table else w.table,
               pr.(phase := Stopping, stray := pr.stray + {resource}))
    case Begin(p, i, id) =>
      var pr := w.procs[p];
      Put(w, p, w.table, pr.(flights := pr.flights[id := Flight(i, w.clock, pr.held[i].known, Waiting)]))
    case Statement(p, id, outcome) =>
      var pr := w.procs[p];
      var (table, reply) := Renewal(w, p, id);
      Put(w, p, if outcome == FailedBefore then w.table else table, Ran(pr, id, reply, outcome))
    case End(p, id) =>
      var pr := w.procs[p];
      Put(w, p, w.table, Answered(pr, pr.flights[id]).(flights := pr.flights - {id}))
    case Stop(p) => Put(w, p, w.table, w.procs[p].(phase := Stopping))
    case Free(p, outcome) =>
      var pr := w.procs[p];
      var resource := pr.held[Unfreed(pr) - 1].resource;
      Put(w, p, if outcome == FailedBefore then w.table else Release(w.table, resource, p),
          pr.(freed := pr.freed + 1, stray := if outcome == Done then pr.stray else pr.stray + {resource}))
    case Crash(p) => Put(w, p, w.table, w.procs[p].(phase := Gone, flights := map[]))
  }

  /** What the statement of a flight does to the table, and its reply. */
  function Renewal(w: World, p: string, id: nat): (r: (Table, Reply))
    requires CanRun(w, p, id)
  {
    var f := w.procs[p].flights[id];
    Acquire(w.table, w.procs[p].held[f.i].resource, p, TTL, f.now)
  }

  // ---- what the table backs ----

  /** The table has the resource for `p` at least until `e`. */
  predicate Backed(table: Table, resource: string, p: string, e: int) {
    resource in table && table[resource].holder == p && table[resource].expires >= e
  }

  /** The process has its whole plan, or is still taking it. */
  predicate MayOwn(pr: Process) {
    !pr.lost && !pr.phase.Gone? && (pr.phase.Taking? || |pr.held| == |pr.plan|)
  }

  /** The process goes by lease `i` until `e`, or will when a reply that is under way has come in. */
  ghost predicate Claims(pr: Process, i: nat, e: int) {
    MayOwn(pr) && i < Unfreed(pr) &&
    (e == pr.held[i].known ||
     exists id :: id in pr.flights && pr.flights[id].i == i && GoesOn(pr.held[i], pr.flights[id].answer) &&
                  pr.flights[id].answer.reply.expires == e)
  }

  ghost predicate BackedAll(table: Table, clock: int, pr: Process, p: string) {
    forall i: nat, e: int :: Claims(pr, i, e) && e > clock ==> Backed(table, pr.held[i].resource, p, e)
  }

  /** What is held is the plan's beginning; who owns or renews holds all of it. */
  ghost predicate OnPlan(pr: Process) {
    Distinct(pr.plan) && |pr.held| <= |pr.plan| && pr.freed <= |pr.held| &&
    (forall i :: 0 <= i < |pr.held| ==> pr.held[i].resource == pr.plan[i]) &&
    (forall id :: id in pr.flights ==> pr.flights[id].i < |pr.held|) &&
    (pr.phase.Taking? || pr.phase.Owning? ==> pr.freed == 0) &&
    (pr.phase.Owning? || pr.flights != map[] ==> |pr.held| == |pr.plan|)
  }

  ghost predicate ProcessCovered(table: Table, clock: int, pr: Process, p: string) {
    OnPlan(pr) && BackedAll(table, clock, pr, p)
  }

  ghost predicate Covered(w: World) {
    forall p :: p in w.procs ==> ProcessCovered(w.table, w.clock, w.procs[p], p)
  }

  /** `q` goes by a lease on `resource`, unexpired. */
  ghost predicate CountsOn(w: World, q: string, resource: string) {
    q in w.procs &&
    exists i: nat, e: int :: Claims(w.procs[q], i, e) && e > w.clock && w.procs[q].held[i].resource == resource
  }

  /** The reading `now` takes over no unexpired row that its holder goes by. */
  ghost predicate TakesOverNone(w: World, p: string, resource: string, now: int) {
    resource in w.table && w.table[resource].holder != p && w.clock < w.table[resource].expires <= now ==>
      !CountsOn(w, w.table[resource].holder, resource)
  }

  /** The new expiry is not below an unexpired one that the process of flight `f` goes by or is about to. */
  ghost predicate NotShort(w: World, pr: Process, f: Flight) {
    forall e :: Claims(pr, f.i, e) && e > w.clock ==> f.now + TTL >= e
  }

  /**
   What keeps exclusion, step by step. The clock is not set back below an expiry when the
   row has gone to another by then or runs out earlier; nobody takes over an unexpired row
   by a reading from before the clock was set back; and a renewal brings the expiry below
   none that its process goes by. The last is kept when the statements of a lease's renewals
   run in the order in which they read the clock, the others while the clock only goes on.
  */
  ghost predicate InOrder(w: World, step: Step) {
    match step
    case Tick(now) => forall q :: q in w.procs ==> StaysBacked(w, now, w.procs[q], q)
    case Take(p, now, outcome) =>
      Enabled(w, step) && outcome != FailedBefore ==>
        TakesOverNone(w, p, w.procs[p].plan[|w.procs[p].held|], now)
    case Statement(p, id, outcome) =>
      CanRun(w, p, id) && outcome != FailedBefore ==>
        var f := w.procs[p].flights[id];
        NotShort(w, w.procs[p], f) && TakesOverNone(w, p, w.procs[p].held[f.i].resource, f.now)
    case _ => true
  }

  /** What runs out between `now` and the clock still has its row. */
  ghost predicate StaysBacked(w: World, now: int, pr: Process, q: string) {
    forall i: nat, e: int :: Claims(pr, i, e) && now < e <= w.clock ==> Backed(w.table, pr.held[i].resource, q, e)
  }

  /** A row of another holder stays, unless it is taken over. */
  lemma OthersStayBacked(w: World, resource: string, p: string, now: int, q: string)
    requires p != q && q in w.procs && ProcessCovered(w.table, w.clock, w.procs[q], q)
    ensures TakesOverNone(w, p, resource, now) ==>
              BackedAll(Acquire(w.table, resource, p, TTL, now).0, w.clock, w.procs[q], q)
    ensures BackedAll(Release(w.table, resource, p), w.clock, w.procs[q], q)
  {
  }

  lemma OtherCovered(w: World, step: Step, q: string)
    requires Covered(w) && Enabled(w, step) && InOrder(w, step) && q in w.procs && (step.Tick? || step.p != q)
    ensures var v := After(w, step); q in v.procs && ProcessCovered(v.table, v.clock, v.procs[q], q)
  {
    assert ProcessCovered(w.table, w.clock, w.procs[q], q);
    match step
    case Tick(now) => assert StaysBacked(w, now, w.procs[q], q);
    case Take(p, now, _) =>
      OthersStayBacked(w, w.procs[p].plan[|w.procs[p].held|], p, now, q);
    case Statement(p, id, _) =>
      var f := w.procs[p].flights[id];
      OthersStayBacked(w, w.procs[p].held[f.i].resource, p, f.now, q);
    case Free(p, _) =>
      OthersStayBacked(w, w.procs[p].held[Unfreed(w.procs[p]) - 1].resource, p, w.clock, q);
    case _ =>
  }

  lemma TakeCovered(w: World, p: string, now: int, outcome: Outcome)
    requires Covered(w) && Enabled(w, Take(p, now, outcome))
    ensures var v := After(w, Take(p, now, outcome)); ProcessCovered(v.table, v.clock, v.procs[p], p)
  {
    var v, pr, n := After(w, Take(p, now, outcome)), w.procs[p], |w.procs[p].held|;
    assert ProcessCovered(w.table, w.clock, pr, p);
    var next := v.procs[p];
    forall i: nat, e: int | Claims(next, i, e) && e > v.clock ensures Backed(v.table, next.held[i].resource, p, e) {
      if i < n {
        assert next.held[i] == pr.held[i] && pr.plan[i] != pr.plan[n];
        assert Claims(pr, i, e);
      }
    }
  }

  lemma StatementCovered(w: World, p: string, id: nat, outcome: Outcome)
    requires Covered(w) && Enabled(w, Statement(p, id, outcome)) && InOrder(w, Statement(p, id, outcome))
    ensures var v := After(w, Statement(p, id, outcome)); ProcessCovered(v.table, v.clock, v.procs[p], p)
  {
    var v, pr, f := After(w, Statement(p, id, outcome)), w.procs[p], w.procs[p].flights[id];
    assert ProcessCovered(w.table, w.clock, pr, p);
    var next := v.procs[p];
    forall i: nat, e: int | Claims(next, i, e) && e > v.clock ensures Backed(v.table, next.held[i].resource, p, e) {
      if Claims(pr, i, e) {
        if i != f.i { assert pr.plan[i] != pr.plan[f.i]; }
      } else {
        NewClaim(w, p, id, outcome, i, e);
      }
    }
  }

  /** What a statement newly lets its process count on is what the table has just granted. */
  lemma NewClaim(w: World, p: string, id: nat, outcome: Outcome, i: nat, e: int)
    requires Enabled(w, Statement(p, id, outcome))
    requires Claims(After(w, Statement(p, id, outcome)).procs[p], i, e) && !Claims(w.procs[p], i, e)
    ensures i == w.procs[p].flights[id].i && outcome == Done
    ensures Renewal(w, p, id).1.granted && e == w.procs[p].flights[id].now + TTL
  {
    var pr, next := w.procs[p], After(w, Statement(p, id, outcome)).procs[p];
    assert forall k :: k in pr.flights && k != id ==> next.flights[k] == pr.flights[k];
    var k :| k in next.flights && next.flights[k].i == i && GoesOn(next.held[i], next.flights[k].answer) &&
             next.flights[k].answer.reply.expires == e;
  }

  lemma EndCovered(w: World, p: string, id: nat)
    requires Covered(w) && Enabled(w, End(p, id))
    ensures var v := After(w, End(p, id)); ProcessCovered(v.table, v.clock, v.procs[p], p)
  {
    var v, pr, f := After(w, End(p, id)), w.procs[p], w.procs[p].flights[id];
    assert ProcessCovered(w.table, w.clock, pr, p);
    var next := v.procs[p];
    forall i: nat, e: int | Claims(next, i, e) && e > v.clock ensures Backed(v.table, next.held[i].resource, p, e) {
      assert Claims(pr, i, e);
    }
  }

  lemma FreeCovered(w: World, p: string, outcome: Outcome)
    requires Covered(w) && Enabled(w, Free(p, outcome))
    ensures var v := After(w, Free(p, outcome)); ProcessCovered(v.table, v.clock, v.procs[p], p)
  {
    var v, pr, last := After(w, Free(p, outcome)), w.procs[p], Unfreed(w.procs[p]) - 1;
    assert ProcessCovered(w.table, w.clock, pr, p);
    forall i: nat, e: int | Claims(v.procs[p], i, e) && e > v.clock
      ensures Backed(v.table, pr.held[i].resource, p, e)
    {
      assert Claims(pr, i, e) && pr.plan[i] != pr.plan[last];
    }
  }

  /** Steps of a process that leave the table alone and add no claim. */
  lemma QuietCovered(w: World, step: Step)
    requires Covered(w) && Enabled(w, step) && (step.Begin? || step.Stop? || step.Crash? || step.Start?)
    ensures var v := After(w, step); ProcessCovered(v.table, v.clock, v.procs[step.p], step.p)
  {
    var v, p := After(w, step), step.p;
    if !step.Start? {
      assert ProcessCovered(w.table, w.clock, w.procs[p], p);
      forall i: nat, e: int | Claims(v.procs[p], i, e) && e > v.clock
        ensures Backed(v.table, v.procs[p].held[i].resource, p, e)
      {
        assert Claims(w.procs[p], i, e);
      }
    }
  }

  lemma StepCovered(w: World, step: Step)
    requires Covered(w) && Enabled(w, step) && InOrder(w, step)
    ensures Covered(After(w, step))
  {
    var v := After(w, step);
    forall q | q in v.procs ensures ProcessCovered(v.table, v.clock, v.procs[q], q) {
      if step.Tick? || step.p != q {
        OtherCovered(w, step, q);
      } else {
        match step
        case Take(p, now, outcome) => TakeCovered(w, p, now, outcome);
        case Statement(p, id, outcome) => StatementCovered(w, p, id, outcome);
        case End(p, id) => EndCovered(w, p, id);
        case Free(p, outcome) => FreeCovered(w, p, outcome);
        case _ => QuietCovered(w, step);
      }
    }
  }

  lemma OnPlanStep(w: World, step: Step, q: string)
    requires Enabled(w, step) && (q in w.procs ==> OnPlan(w.procs[q])) && q in After(w, step).procs
    ensures OnPlan(After(w, step).procs[q])
  {
    if !step.Tick? && step.p == q {
      match step
      case Take(p, now, outcome) => PlanTaken(w, p, now, outcome);
      case Statement(p, id, outcome) => PlanRan(w, p, id, outcome);
      case _ =>
    }
  }

  lemma PlanRan(w: World, p: string, id: nat, outcome: Outcome)
    requires Enabled(w, Statement(p, id, outcome)) && OnPlan(w.procs[p])
    ensures OnPlan(After(w, Statement(p, id, outcome)).procs[p])
  {
  }

  lemma PlanTaken(w: World, p: string, now: int, outcome: Outcome)
    requires Enabled(w, Take(p, now, outcome)) && OnPlan(w.procs[p])
    ensures OnPlan(After(w, Take(p, now, outcome)).procs[p])
  {
  }

  // ---- runs ----

  function Run(w: World, steps: seq<Step>): (v: Option<World>)
    decreases |steps|
  {
    if steps == [] then Some(w)
    else if Enabled(w, steps[0]) then Run(After(w, steps[0]), steps[1..]) else None
  }

  ghost predicate AllInOrder(w: World, steps: seq<Step>)
    decreases |steps|
  {
    steps == [] ||
    (InOrder(w, steps[0]) && (Enabled(w, steps[0]) ==> AllInOrder(After(w, steps[0]), steps[1..])))
  }

  lemma {:induction false} RunCovered(w: World, steps: seq<Step>)
    requires Covered(w) && AllInOrder(w, steps) && Run(w, steps).Some?
    ensures Covered(Run(w, steps).value)
    decreases |steps|
  {
    if steps != [] {
      StepCovered(w, steps[0]);
      RunCovered(After(w, steps[0]), steps[1..]);
    }
  }

  lemma RunCons(w: World, s: Step, rest: seq<Step>)
    requires Enabled(w, s)
    ensures Run(w, [s] + rest) == Run(After(w, s), rest)
    ensures AllInOrder(w, [s] + rest) <==> InOrder(w, s) && AllInOrder(After(w, s), rest)
  {
    assert ([s] + rest)[1..] == rest;
  }

  // ---- exclusion ----

  /** The process holds its whole plan and goes by its lease `i`, unexpired and not yet released. */
  predicate GoesBy(w: World, p: string, i: nat) {
    Alive(w, p) &&
    var pr := w.procs[p];
    !pr.lost && |pr.held| == |pr.plan| && i < Unfreed(pr) && pr.held[i].known > w.clock
  }

  ghost predicate Owns(w: World, p: string, resource: string) {
    exists i: nat :: GoesBy(w, p, i) && w.procs[p].held[i].resource == resource
  }

  ghost predicate Exclusive(w: World) {
    forall p, q, resource :: Owns(w, p, resource) && Owns(w, q, resource) ==> p == q
  }

  lemma CoveredExclusive(w: World)
    requires Covered(w)
    ensures Exclusive(w)
  {
    forall p, q, resource | Owns(w, p, resource) && Owns(w, q, resource) ensures p == q {
      OwnerIsBacked(w, p, resource);
      OwnerIsBacked(w, q, resource);
    }
  }

  lemma OwnerIsBacked(w: World, p: string, resource: string)
    requires Covered(w) && Owns(w, p, resource)
    ensures resource in w.table && w.table[resource].holder == p && w.table[resource].expires > w.clock
  {
    var i: nat :| GoesBy(w, p, i) && w.procs[p].held[i].resource == resource;
    assert ProcessCovered(w.table, w.clock, w.procs[p], p);
    assert Claims(w.procs[p], i, w.procs[p].held[i].known);
  }

  /**
   Mutual exclusion: from any table, in any run whose steps are in order, no two processes
   own one resource, and an owner was granted its whole plan.
  */
  lemma OneOwner(clock: int, table: Table, steps: seq<Step>)
    requires var w := World(clock, table, map[]); AllInOrder(w, steps) && Run(w, steps).Some?
    ensures var w := Run(World(clock, table, map[]), steps).value;
            Exclusive(w) &&
            forall p, resource :: Owns(w, p, resource) ==> HoldsPlan(w.procs[p])
  {
    RunCovered(World(clock, table, map[]), steps);
    var w := Run(World(clock, table, map[]), steps).value;
    CoveredExclusive(w);
    forall p, resource | Owns(w, p, resource) ensures HoldsPlan(w.procs[p]) {
      assert ProcessCovered(w.table, w.clock, w.procs[p], p);
    }
  }

  ghost predicate HoldsPlan(pr: Process) {
    |pr.held| == |pr.plan| && forall i :: 0 <= i < |pr.plan| ==> pr.held[i].resource == pr.plan[i]
  }
}
