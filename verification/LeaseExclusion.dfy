/**
 Exactly when exclusion holds: a run is safe throughout if and only if its steps are in
 order, and they are where no two renewals of one lease (`HeldLeases::renew`,
 src/application/runtime/mod.rs:235-272) overlap and the wall clock is never set back.
*/
module LeaseExclusion {
  import opened Prelude
  import opened LeaseStore
  import opened LeaseRuns

  /** No continuation whose steps are in order ever has two owners. */
  ghost predicate Safe(w: World) {
    forall steps :: Run(w, steps).Some? && AllInOrder(w, steps) ==> Exclusive(Run(w, steps).value)
  }

  lemma CoveredSafe(w: World)
    requires Covered(w)
    ensures Safe(w)
  {
    forall steps | Run(w, steps).Some? && AllInOrder(w, steps) ensures Exclusive(Run(w, steps).value) {
      RunCovered(w, steps);
      CoveredExclusive(Run(w, steps).value);
    }
  }

  // ---- a step keeps the backing exactly when it is in order ----

  /** A claim past the clock that the table does not back. */
  ghost predicate Unbacked(w: World, p: string, i: nat, e: int) {
    p in w.procs && Claims(w.procs[p], i, e) && e > w.clock && !Backed(w.table, w.procs[p].held[i].resource, p, e)
  }

  lemma ClockUnbacks(w: World, now: int, q: string) returns (i: nat, e: int)
    requires q in w.procs && !StaysBacked(w, now, w.procs[q], q)
    ensures Unbacked(After(w, Tick(now)), q, i, e)
  {
    i, e :| Claims(w.procs[q], i, e) && now < e <= w.clock && !Backed(w.table, w.procs[q].held[i].resource, q, e);
  }

  /** Taking over a row unbacks the claim of its holder. */
  lemma TakeoverUnbacks(w: World, v: World, p: string, resource: string, now: int) returns (q: string, i: nat, e: int)
    requires !TakesOverNone(w, p, resource, now) && v.table == Acquire(w.table, resource, p, TTL, now).0
    requires v.clock == w.clock && forall q :: q in w.procs && q != p ==> q in v.procs && v.procs[q] == w.procs[q]
    ensures Unbacked(v, q, i, e)
  {
    q := w.table[resource].holder;
    i, e :| Claims(w.procs[q], i, e) && e > w.clock && w.procs[q].held[i].resource == resource;
  }

  /** A statement that falls short leaves its process with a claim that the row no longer backs. */
  lemma ShortUnbacks(w: World, p: string, id: nat, outcome: Outcome) returns (e: int)
    requires Covered(w) && Enabled(w, Statement(p, id, outcome)) && outcome != FailedBefore
    requires !NotShort(w, w.procs[p], w.procs[p].flights[id])
    ensures Unbacked(After(w, Statement(p, id, outcome)), p, w.procs[p].flights[id].i, e)
  {
    var pr, f := w.procs[p], w.procs[p].flights[id];
    e :| Claims(pr, f.i, e) && e > w.clock && !(f.now + TTL >= e);
    assert ProcessCovered(w.table, w.clock, pr, p);
    assert Backed(w.table, pr.held[f.i].resource, p, e);
    if e != pr.held[f.i].known {
      var k :| k in pr.flights && pr.flights[k].i == f.i && GoesOn(pr.held[f.i], pr.flights[k].answer) &&
               pr.flights[k].answer.reply.expires == e;
      assert After(w, Statement(p, id, outcome)).procs[p].flights[k] == pr.flights[k];
    }
  }

  lemma OutOfOrderUnbacks(w: World, step: Step) returns (q: string, i: nat, e: int)
    requires Covered(w) && Enabled(w, step) && !InOrder(w, step)
    ensures Unbacked(After(w, step), q, i, e)
  {
    var v := After(w, step);
    match step
    case Tick(now) =>
      q :| q in w.procs && !StaysBacked(w, now, w.procs[q], q);
      i, e := ClockUnbacks(w, now, q);
    case Take(p, now, _) => q, i, e := TakeoverUnbacks(w, v, p, w.procs[p].plan[|w.procs[p].held|], now);
    case Statement(p, id, outcome) =>
      var f := w.procs[p].flights[id];
      if NotShort(w, w.procs[p], f) {
        q, i, e := TakeoverUnbacks(w, v, p, w.procs[p].held[f.i].resource, f.now);
      } else {
        e := ShortUnbacks(w, p, id, outcome);
        q, i := p, f.i;
      }
  }

  /** A step leaves every unexpired claim of every process backed if and only if it is in order. */
  lemma StepKeepsBacking(w: World, step: Step)
    requires Covered(w) && Enabled(w, step)
    ensures Covered(After(w, step)) <==> InOrder(w, step)
  {
    if InOrder(w, step) {
      StepCovered(w, step);
    } else {
      var q, i, e := OutOfOrderUnbacks(w, step);
      var v := After(w, step);
      assert !BackedAll(v.table, v.clock, v.procs[q], q);
    }
  }

  // ---- from an unbacked claim to two owners ----

  /** The steps are a run to `v`, all in order. */
  ghost predicate Leads(w: World, steps: seq<Step>, v: World) { Run(w, steps) == Some(v) && AllInOrder(w, steps) }

  lemma LeadsOn(w: World, step: Step, rest: seq<Step>, v: World)
    requires Enabled(w, step) && InOrder(w, step) && Leads(After(w, step), rest, v)
    ensures Leads(w, [step] + rest, v)
  {
    RunCons(w, step, rest);
  }

  lemma {:induction false} RunAppend(w: World, a: seq<Step>, v: World, b: seq<Step>)
    requires Run(w, a) == Some(v) && AllInOrder(w, a) && AllInOrder(v, b)
    ensures Run(w, a + b) == Run(v, b) && AllInOrder(w, a + b)
    decreases |a|
  {
    if a == [] {
      assert a + b == b;
    } else {
      RunAppend(After(w, a[0]), a[1..], v, b);
      assert (a + b)[0] == a[0] && (a + b)[1..] == a[1..] + b;
    }
  }

  /** Every process other than `p` has crashed. */
  predicate Alone(w: World, p: string) { forall q :: q in w.procs && q != p ==> w.procs[q].phase.Gone? }

  lemma {:induction false} OthersCrash(w: World, p: string, alive: set<string>) returns (steps: seq<Step>, v: World)
    requires p in w.procs && alive <= w.procs.Keys - {p}
    requires forall q :: q in w.procs && q != p && q !in alive ==> w.procs[q].phase.Gone?
    ensures Leads(w, steps, v) && Alone(v, p)
    ensures v.clock == w.clock && v.table == w.table && v.procs.Keys == w.procs.Keys && v.procs[p] == w.procs[p]
    decreases |alive|
  {
    if alive == {} {
      steps, v := [], w;
    } else {
      var q :| q in alive;
      if w.procs[q].phase.Gone? {
        steps, v := OthersCrash(w, p, alive - {q});
      } else {
        steps, v := OthersCrash(After(w, Crash(q)), p, alive - {q});
        LeadsOn(w, Crash(q), steps, v);
        steps := [Crash(q)] + steps;
      }
    }
  }

  /** When it takes a row that is not its own: not before the row runs out. */
  function Reading(w: World, resource: string): (now: int) {
    if resource in w.table then Later(w.table[resource].expires, w.clock) else w.clock
  }

  /** A process that is alone takes the next resource of its plan, and its claim stays unbacked. */
  lemma TakesNext(w: World, p: string, i: nat, e: int) returns (step: Step)
    requires Unbacked(w, p, i, e) && Alone(w, p) && OnPlan(w.procs[p]) && |w.procs[p].held| < |w.procs[p].plan|
    ensures Enabled(w, step) && InOrder(w, step)
    ensures var v := After(w, step);
            Unbacked(v, p, i, e) && Alone(v, p) && OnPlan(v.procs[p]) && v.procs.Keys == w.procs.Keys &&
            v.procs[p].plan == w.procs[p].plan && |v.procs[p].held| == |w.procs[p].held| + 1
  {
    var pr := w.procs[p];
    var now := Reading(w, pr.plan[|pr.held|]);
    step := Take(p, now, Done);
    PlanTaken(w, p, now, Done);
    assert pr.held[i].resource != pr.plan[|pr.held|];
    assert After(w, step).procs[p].held[i] == pr.held[i];
  }

  lemma {:induction false} TakesRest(w: World, p: string, i: nat, e: int) returns (steps: seq<Step>, v: World)
    requires Unbacked(w, p, i, e) && Alone(w, p) && OnPlan(w.procs[p])
    ensures Leads(w, steps, v) && Unbacked(v, p, i, e) && Alone(v, p) && OnPlan(v.procs[p])
    ensures |v.procs[p].held| == |v.procs[p].plan| && v.procs.Keys == w.procs.Keys
    decreases |w.procs[p].plan| - |w.procs[p].held|
  {
    if |w.procs[p].held| == |w.procs[p].plan| {
      steps, v := [], w;
    } else {
      var step := TakesNext(w, p, i, e);
      steps, v := TakesRest(After(w, step), p, i, e);
      LeadsOn(w, step, steps, v);
      steps := [step] + steps;
    }
  }

  /** Once the reply has come in, the process goes by its claim. */
  lemma ClaimComesIn(w: World, p: string, i: nat, e: int) returns (steps: seq<Step>, v: World)
    requires Unbacked(w, p, i, e) && Alone(w, p) && OnPlan(w.procs[p]) && |w.procs[p].held| == |w.procs[p].plan|
    ensures Leads(w, steps, v) && Alone(v, p) && v.procs.Keys == w.procs.Keys
    ensures GoesBy(v, p, i) && Unbacked(v, p, i, v.procs[p].held[i].known)
  {
    var pr := w.procs[p];
    if e == pr.held[i].known {
      steps, v := [], w;
    } else {
      var id :| id in pr.flights && pr.flights[id].i == i && GoesOn(pr.held[i], pr.flights[id].answer) &&
                pr.flights[id].answer.reply.expires == e;
      v := After(w, End(p, id));
      LeadsOn(w, End(p, id), [], v);
      steps := [End(p, id)] + [];
    }
  }

  /** A newcomer takes a row that its owner still goes by. */
  lemma NewcomerTakes(w: World, p: string, i: nat, q: string) returns (steps: seq<Step>, u: World)
    requires GoesBy(w, p, i) && Unbacked(w, p, i, w.procs[p].held[i].known) && Alone(w, p) && q !in w.procs
    ensures Leads(w, steps, u)
    ensures Owns(u, p, w.procs[p].held[i].resource) && Owns(u, q, w.procs[p].held[i].resource)
  {
    var resource := w.procs[p].held[i].resource;
    var s1 := Tick(if resource in w.table && w.table[resource].holder == p then Reading(w, resource) else w.clock);
    var w1 := After(w, s1);
    var s2, s3 := Start(q, [resource]), Take(q, Reading(w1, resource), Done);
    var w2 := After(w1, s2);
    u := After(w2, s3);
    assert !CountsOn(w2, q, resource);
    LeadsOn(w2, s3, [], u);
    LeadsOn(w1, s2, [s3] + [], u);
    LeadsOn(w, s1, [s2] + ([s3] + []), u);
    steps := [s1] + ([s2] + ([s3] + []));
    assert GoesBy(u, p, i) && u.procs[p].held[i].resource == resource;
    assert GoesBy(u, q, 0) && u.procs[q].held[0].resource == resource;
  }

  /** Every unbacked claim opens the way for two owners, whoever has it and however far it is. */
  lemma UnbackedBreaks(w: World, p: string, i: nat, e: int) returns (steps: seq<Step>, u: World)
    requires Unbacked(w, p, i, e) && OnPlan(w.procs[p])
    ensures Leads(w, steps, u) && !Exclusive(u)
  {
    var a, x := OthersCrash(w, p, w.procs.Keys - {p});
    var b, y := TakesRest(x, p, i, e);
    RunAppend(w, a, x, b);
    var c, z := ClaimComesIn(y, p, i, e);
    RunAppend(w, a + b, y, c);
    var q := FreshName(z.procs.Keys);
    var d: seq<Step>;
    d, u := NewcomerTakes(z, p, i, q);
    RunAppend(w, a + b + c, z, d);
    steps := a + b + c + d;
    var resource := z.procs[p].held[i].resource;
    assert Owns(u, p, resource) && Owns(u, q, resource) && p != q;
  }

  /** There is always a holder id that no process has. */
  lemma {:induction false} FreshName(names: set<string>) returns (q: string)
    ensures q !in names && forall n :: n in names ==> |n| < |q|
    decreases |names|
  {
    if names == {} {
      q := "x";
    } else {
      var n :| n in names;
      q := FreshName(names - {n});
      if |n| >= |q| { q := n + "x"; }
    }
  }

  /** From a covered world a step leaves a safe one if and only if it is in order. */
  lemma StepSafe(w: World, step: Step)
    requires Covered(w) && Enabled(w, step)
    ensures Safe(After(w, step)) <==> InOrder(w, step)
  {
    var v := After(w, step);
    if InOrder(w, step) {
      StepCovered(w, step);
      CoveredSafe(v);
    } else {
      var q, i, e := OutOfOrderUnbacks(w, step);
      if q in w.procs { assert ProcessCovered(w.table, w.clock, w.procs[q], q); }
      OnPlanStep(w, step, q);
      var steps, u := UnbackedBreaks(v, q, i, e);
    }
  }

  /** Every world along the run is safe. */
  ghost predicate SafeThroughout(w: World, steps: seq<Step>)
    decreases |steps|
  {
    Safe(w) && (steps == [] || (Enabled(w, steps[0]) ==> SafeThroughout(After(w, steps[0]), steps[1..])))
  }

  lemma {:induction false} SafeExactly(w: World, steps: seq<Step>)
    requires Covered(w) && Run(w, steps).Some?
    ensures SafeThroughout(w, steps) <==> AllInOrder(w, steps)
    decreases |steps|
  {
    CoveredSafe(w);
    if steps != [] {
      StepSafe(w, steps[0]);
      if InOrder(w, steps[0]) {
        StepCovered(w, steps[0]);
        SafeExactly(After(w, steps[0]), steps[1..]);
      }
    }
  }

  /**
   The exact condition of exclusion. A run from any table stays where no two processes can
   come to own one resource, as long as later steps are in order, if and only if its own
   steps are.
  */
  lemma ExclusionExactly(clock: int, table: Table, steps: seq<Step>)
    requires Run(World(clock, table, map[]), steps).Some?
    ensures SafeThroughout(World(clock, table, map[]), steps) <==> AllInOrder(World(clock, table, map[]), steps)
  {
    SafeExactly(World(clock, table, map[]), steps);
  }

  const EMPTY: World := World(0, map[], map[])

  /** A process that holds the one lease of its plan, taken at `now`. */
  function Holding(now: int): (pr: Process) {
    Process(["state:x"], [Lease("state:x", now, now + TTL)], 0, Owning, false, map[], {})
  }

  /** A newcomer takes the lease, which nobody has or whose row has run out. */
  lemma TakesIt(w: World, p: string) returns (steps: seq<Step>, v: World)
    requires p !in w.procs && ("state:x" in w.table ==> w.table["state:x"].holder != p)
    requires "state:x" in w.table ==> w.table["state:x"].expires <= w.clock
    ensures Leads(w, steps, v) && forall k :: 0 <= k < |steps| ==> !steps[k].Begin?
    ensures v == World(w.clock, w.table["state:x" := Row(p, w.clock, w.clock + TTL)], w.procs[p := Holding(w.clock)])
  {
    var s1, s2 := Start(p, ["state:x"]), Take(p, w.clock, Done);
    var w1 := After(w, s1);
    v := After(w1, s2);
    assert v.procs[p] == Holding(w.clock);
    LeadsOn(w1, s2, [], v);
    LeadsOn(w, s1, [s2] + [], v);
    steps := [s1] + ([s2] + []);
  }

  /** `p` holds one lease, and has a renewal of it under way. */
  lemma FirstUnderWay() returns (steps: seq<Step>, w: World)
    ensures Leads(EMPTY, steps, w)
    ensures w == World(0, map["state:x" := Row("p", 0, TTL)],
                       map["p" := Holding(0).(flights := map[0 := Flight(0, 0, TTL, Waiting)])])
  {
    var a, x := TakesIt(EMPTY, "p");
    w := After(x, Begin("p", 0, 0));
    assert w.procs["p"].flights == map[0 := Flight(0, 0, TTL, Waiting)];
    assert w.procs == map["p" := w.procs["p"]];
    LeadsOn(x, Begin("p", 0, 0), [], w);
    RunAppend(EMPTY, a, x, [Begin("p", 0, 0)] + []);
    steps := a + ([Begin("p", 0, 0)] + []);
  }

  /** A second one begins later, and its statement runs first. */
  lemma SecondRunsFirst(w: World) returns (steps: seq<Step>, v: World)
    requires CanRun(w, "p", 0) && !w.procs["p"].lost && w.procs["p"].flights == map[0 := Flight(0, 0, TTL, Waiting)]
    requires w.clock == 0 && w.procs["p"].held == [Lease("state:x", 0, TTL)] && |w.procs["p"].plan| == 1
    requires w.table == map["state:x" := Row("p", 0, TTL)] && w.procs["p"].freed == 0
    ensures Run(w, steps) == Some(v) && AllInOrder(w, steps)
    ensures Enabled(v, Statement("p", 0, Done)) && !InOrder(v, Statement("p", 0, Done))
  {
    var s1, s2, s3 := Tick(100), Begin("p", 0, 1), Statement("p", 1, Done);
    var w1 := After(w, s1);
    var w2 := After(w1, s2);
    assert w2.procs["p"].flights == map[0 := Flight(0, 0, TTL, Waiting), 1 := Flight(0, 100, TTL, Waiting)];
    v := After(w2, s3);
    steps := [s1] + ([s2] + ([s3] + []));
    RunCons(w, s1, [s2] + ([s3] + []));
    RunCons(w1, s2, [s3] + []);
    RunCons(w2, s3, []);
    var answer := v.procs["p"].flights[1].answer;
    assert GoesOn(v.procs["p"].held[0], answer) && answer.reply.expires == 100 + TTL;
    assert Claims(v.procs["p"], 0, 100 + TTL);
  }

  /**
   A renewal that falls short is reachable: `p` has two renewals under way, and the
   statement of the one that read the clock later runs first.
  */
  lemma OvertakenRenewal() returns (steps: seq<Step>, w: World)
    ensures Leads(EMPTY, steps, w)
    ensures Enabled(w, Statement("p", 0, Done)) && !InOrder(w, Statement("p", 0, Done))
  {
    var a, x := FirstUnderWay();
    var b: seq<Step>;
    b, w := SecondRunsFirst(x);
    RunAppend(EMPTY, a, x, b);
    steps := a + b;
  }

  // ---- a clock that is set back ----

  /** `p` takes a lease, it runs out, and `q` takes it over. */
  lemma TakenOver() returns (steps: seq<Step>, w: World)
    ensures Leads(EMPTY, steps, w) && forall k :: 0 <= k < |steps| ==> !steps[k].Begin?
    ensures w == World(TTL, map["state:x" := Row("q", TTL, 2 * TTL)], map["p" := Holding(0), "q" := Holding(TTL)])
  {
    var a, x := TakesIt(EMPTY, "p");
    var y := After(x, Tick(TTL));
    LeadsOn(x, Tick(TTL), [], y);
    RunAppend(EMPTY, a, x, [Tick(TTL)] + []);
    a := a + ([Tick(TTL)] + []);
    var b;
    b, w := TakesIt(y, "q");
    RunAppend(EMPTY, a, y, b);
    steps := a + b;
  }

  /** Without any renewal: the clock set back after a lease was taken over makes two owners at once. */
  lemma ClockSetBack() returns (steps: seq<Step>, w: World)
    ensures Leads(EMPTY, steps, w)
    ensures forall k :: 0 <= k < |steps| ==> !steps[k].Begin?
    ensures !InOrder(w, Tick(TTL - 10_000)) && !Exclusive(After(w, Tick(TTL - 10_000)))
  {
    steps, w := TakenOver();
    var v := After(w, Tick(TTL - 10_000));
    assert GoesBy(v, "p", 0) && GoesBy(v, "q", 0);
    assert Owns(v, "p", "state:x") && Owns(v, "q", "state:x");
    assert Claims(w.procs["p"], 0, TTL);
    assert !StaysBacked(w, TTL - 10_000, w.procs["p"], "p");
  }

  // ---- renewals that do not overlap ----

  /** No renewal begins while another of the same lease is under way. */
  predicate Apart(w: World, step: Step) {
    step.Begin? && step.p in w.procs ==>
      forall id :: id in w.procs[step.p].flights ==> w.procs[step.p].flights[id].i != step.i
  }

  ghost predicate AllApart(w: World, steps: seq<Step>)
    decreases |steps|
  {
    steps == [] ||
    (Apart(w, steps[0]) && (Enabled(w, steps[0]) ==> AllApart(After(w, steps[0]), steps[1..])))
  }

  /** No known or granted expiry is later than a lease taken now, and one renewal of a lease is under way at most. */
  ghost predicate Lone(clock: int, pr: Process) {
    (forall i :: 0 <= i < |pr.held| ==> pr.held[i].known <= clock + TTL) &&
    (forall id, k :: id in pr.flights && k in pr.flights && pr.flights[id].i == pr.flights[k].i ==> id == k) &&
    (forall id :: id in pr.flights ==> LoneFlight(clock, pr, pr.flights[id]))
  }

  predicate LoneFlight(clock: int, pr: Process, f: Flight) {
    f.i < |pr.held| && pr.held[f.i].known == f.known && f.known <= f.now + TTL && f.now <= clock &&
    (f.answer.Replied? && f.answer.reply.granted ==> f.answer.reply.expires <= clock + TTL)
  }

  /** The clock goes on, and is read before it is used. */
  predicate Forward(w: World, step: Step) {
    match step
    case Tick(now) => now >= w.clock
    case Take(_, now, _) => now <= w.clock
    case _ => true
  }

  ghost predicate AllForward(w: World, steps: seq<Step>)
    decreases |steps|
  {
    steps == [] ||
    (Forward(w, steps[0]) && (Enabled(w, steps[0]) ==> AllForward(After(w, steps[0]), steps[1..])))
  }

  ghost predicate AllLone(w: World) { forall p :: p in w.procs ==> OnPlan(w.procs[p]) && Lone(w.clock, w.procs[p]) }

  lemma LoneStep(w: World, step: Step)
    requires AllLone(w) && Enabled(w, step) && Apart(w, step) && Forward(w, step)
    ensures AllLone(After(w, step))
  {
    var v := After(w, step);
    forall q | q in v.procs ensures OnPlan(v.procs[q]) && Lone(v.clock, v.procs[q]) {
      OnPlanStep(w, step, q);
      if q in w.procs { assert OnPlan(w.procs[q]) && Lone(w.clock, w.procs[q]); }
      if !step.Tick? && step.p == q { LoneOwn(w, step); }
    }
  }

  lemma LoneOwn(w: World, step: Step)
    requires AllLone(w) && Enabled(w, step) && Apart(w, step) && Forward(w, step) && !step.Tick?
    ensures Lone(After(w, step).clock, After(w, step).procs[step.p])
  {
    if step.p in w.procs { assert OnPlan(w.procs[step.p]) && Lone(w.clock, w.procs[step.p]); }
    match step
    case Take(p, now, outcome) => LoneTake(w, p, now, outcome);
    case Begin(p, i, id) => LoneBegin(w, p, i, id);
    case Statement(p, id, outcome) => LoneStatement(w, p, id, outcome);
    case End(p, id) => LoneEnd(w, p, id);
    case _ =>
  }

  lemma LoneTake(w: World, p: string, now: int, outcome: Outcome)
    requires Enabled(w, Take(p, now, outcome)) && OnPlan(w.procs[p]) && Lone(w.clock, w.procs[p]) && now <= w.clock
    ensures Lone(w.clock, After(w, Take(p, now, outcome)).procs[p])
  {
    assert w.procs[p].flights == map[];
  }

  lemma LoneBegin(w: World, p: string, i: nat, id: nat)
    requires Enabled(w, Begin(p, i, id)) && Apart(w, Begin(p, i, id)) && Lone(w.clock, w.procs[p])
    ensures Lone(w.clock, After(w, Begin(p, i, id)).procs[p])
  {
    var pr, next := w.procs[p], After(w, Begin(p, i, id)).procs[p];
    forall k | k in next.flights ensures LoneFlight(w.clock, next, next.flights[k]) {
      assert k != id ==> LoneFlight(w.clock, pr, pr.flights[k]);
    }
  }

  lemma LoneStatement(w: World, p: string, id: nat, outcome: Outcome)
    requires Enabled(w, Statement(p, id, outcome)) && Lone(w.clock, w.procs[p])
    ensures Lone(w.clock, After(w, Statement(p, id, outcome)).procs[p])
  {
    var pr, next := w.procs[p], After(w, Statement(p, id, outcome)).procs[p];
    assert LoneFlight(w.clock, pr, pr.flights[id]);
    forall k | k in next.flights ensures LoneFlight(w.clock, next, next.flights[k]) {
      assert LoneFlight(w.clock, pr, pr.flights[k]);
    }
  }

  lemma LoneEnd(w: World, p: string, id: nat)
    requires Enabled(w, End(p, id)) && Lone(w.clock, w.procs[p])
    ensures Lone(w.clock, After(w, End(p, id)).procs[p])
  {
    var pr, next := w.procs[p], After(w, End(p, id)).procs[p];
    var f := pr.flights[id];
    assert LoneFlight(w.clock, pr, f);
    forall k | k in next.flights ensures LoneFlight(w.clock, next, next.flights[k]) {
      assert pr.flights[k].i != f.i && LoneFlight(w.clock, pr, pr.flights[k]);
    }
  }

  /** A reading that is not past the clock takes over no unexpired row. */
  lemma ForwardInOrder(w: World, step: Step)
    requires AllLone(w) && Enabled(w, step) && Forward(w, step)
    ensures InOrder(w, step)
  {
    if step.Statement? {
      var pr := w.procs[step.p];
      var f := pr.flights[step.id];
      assert OnPlan(pr) && Lone(w.clock, pr) && LoneFlight(w.clock, pr, f);
      forall e | Claims(pr, f.i, e) && e > w.clock ensures f.now + TTL >= e {
        assert e == pr.held[f.i].known;
      }
    }
  }

  lemma {:induction false} ApartInOrder(w: World, steps: seq<Step>)
    requires AllLone(w) && Run(w, steps).Some? && AllApart(w, steps) && AllForward(w, steps)
    ensures AllInOrder(w, steps)
    decreases |steps|
  {
    if steps != [] {
      ForwardInOrder(w, steps[0]);
      LoneStep(w, steps[0]);
      ApartInOrder(After(w, steps[0]), steps[1..]);
    }
  }

  /** Exclusion when no two renewals of one lease overlap and the clock is never set back. */
  lemma OneOwnerApart(clock: int, table: Table, steps: seq<Step>)
    requires var w := World(clock, table, map[]); Run(w, steps).Some? && AllApart(w, steps) && AllForward(w, steps)
    ensures Exclusive(Run(World(clock, table, map[]), steps).value)
  {
    ApartInOrder(World(clock, table, map[]), steps);
    OneOwner(clock, table, steps);
  }
}
