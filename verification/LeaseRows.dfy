/** What a process leaves behind in the lease table, and what the others leave alone, over whole runs. */
module LeaseRows {
  import opened Prelude
  import opened LeaseStore
  import opened LeaseRuns

  /** The rows of `p` are those of leases it has not released, and of calls that met an error. */
  ghost predicate RowsKept(w: World, p: string) {
    forall r :: r in w.table && w.table[r].holder == p ==> MayHaveRow(w, p, r)
  }

  predicate MayHaveRow(w: World, p: string, r: string) {
    p in w.procs && (w.procs[p].phase.Gone? || r in w.procs[p].stray || IsUnfreed(w.procs[p], r))
  }

  predicate IsUnfreed(pr: Process, r: string) { exists i :: 0 <= i < Unfreed(pr) && pr.held[i].resource == r }

  lemma RowsStep(w: World, step: Step, p: string)
    requires RowsKept(w, p) && Enabled(w, step) && (p in w.procs ==> OnPlan(w.procs[p]))
    ensures RowsKept(After(w, step), p)
  {
    var v := After(w, step);
    forall r | r in v.table && v.table[r].holder == p ensures MayHaveRow(v, p, r) {
      if !step.Tick? && step.p == p { OwnRows(w, step, r); }
    }
  }

  lemma OwnRows(w: World, step: Step, r: string)
    requires Enabled(w, step) && !step.Tick? && RowsKept(w, step.p)
    requires step.p in w.procs ==> OnPlan(w.procs[step.p])
    requires r in After(w, step).table && After(w, step).table[r].holder == step.p
    ensures MayHaveRow(After(w, step), step.p, r)
  {
    var p, v := step.p, After(w, step);
    if r in w.table && w.table[r].holder == p {
      assert MayHaveRow(w, p, r);
      if IsUnfreed(w.procs[p], r) { StaysUnfreed(w, step, r); }
    } else if step.Take? {
      assert r == w.procs[p].plan[|w.procs[p].held|];
      if step.outcome.Done? { assert v.procs[p].held[|w.procs[p].held|].resource == r; }
    } else {
      var i := w.procs[p].flights[step.id].i;
      assert r == w.procs[p].held[i].resource == v.procs[p].held[i].resource;
    }
  }

  /** What a step of its process does not release stays to be released, or may be stray. */
  lemma StaysUnfreed(w: World, step: Step, r: string)
    requires Enabled(w, step) && !step.Tick? && step.p in w.procs && OnPlan(w.procs[step.p])
    requires IsUnfreed(w.procs[step.p], r)
    requires r in After(w, step).table && After(w, step).table[r].holder == step.p
    ensures MayHaveRow(After(w, step), step.p, r)
  {
    var pr, next := w.procs[step.p], After(w, step).procs[step.p];
    var i :| 0 <= i < Unfreed(pr) && pr.held[i].resource == r;
    assert next.held[i].resource == r;
    assert i < Unfreed(next) || (step.Free? && i == Unfreed(pr) - 1) || next.phase.Gone?;
  }

  lemma {:induction false} RowsRun(w: World, steps: seq<Step>, p: string)
    requires RowsKept(w, p) && (p in w.procs ==> OnPlan(w.procs[p])) && Run(w, steps).Some?
    ensures RowsKept(Run(w, steps).value, p)
    decreases |steps|
  {
    if steps != [] {
      var v := After(w, steps[0]);
      RowsStep(w, steps[0], p);
      if p in v.procs { OnPlanStep(w, steps[0], p); }
      RowsRun(v, steps[1..], p);
    }
  }

  /**
   Whatever the other processes do in between: a process that has released all it took,
   after a refusal or at its end, and met no store error leaves no row behind.
  */
  lemma NothingLeftBehind(clock: int, table: Table, steps: seq<Step>, p: string)
    requires Run(World(clock, table, map[]), steps).Some?
    requires forall r :: r in table ==> table[r].holder != p
    ensures var w := Run(World(clock, table, map[]), steps).value;
            p in w.procs && !w.procs[p].phase.Gone? && Unfreed(w.procs[p]) == 0 && w.procs[p].stray == {} ==>
              forall r :: r in w.table ==> w.table[r].holder != p
  {
    RowsRun(World(clock, table, map[]), steps, p);
  }

  function Actor(step: Step): (p: Option<string>) { if step.Tick? then None else Some(step.p) }

  /** Every clock reading there is, and of the renewals under way, is before `e`. */
  ghost predicate ReadBefore(w: World, e: int) {
    w.clock < e && forall p :: p in w.procs ==> ProcessReadBefore(w.procs[p], e)
  }

  ghost predicate ProcessReadBefore(pr: Process, e: int) {
    OnPlan(pr) && forall id :: id in pr.flights ==> pr.flights[id].now < e
  }

  predicate ReadsBefore(step: Step, e: int) { (step.Tick? || step.Take?) ==> step.now < e }

  lemma ReadBeforeStep(w: World, step: Step, e: int)
    requires ReadBefore(w, e) && Enabled(w, step) && ReadsBefore(step, e)
    ensures ReadBefore(After(w, step), e)
  {
    var v := After(w, step);
    forall q | q in v.procs ensures ProcessReadBefore(v.procs[q], e) {
      assert q in w.procs ==> ProcessReadBefore(w.procs[q], e);
      OnPlanStep(w, step, q);
    }
  }

  lemma OthersLeaveIt(w: World, step: Step, r: string)
    requires r in w.table && ReadBefore(w, w.table[r].expires) && ReadsBefore(step, w.table[r].expires)
    requires Enabled(w, step) && Actor(step) != Some(w.table[r].holder)
    ensures var v := After(w, step); r in v.table && v.table[r] == w.table[r]
  {
    if step.Statement? { assert ProcessReadBefore(w.procs[step.p], w.table[r].expires); }
  }

  /**
   No take, renewal or release of the others changes a process's row, in any run, until a
   clock reading reaches its expiry; whether the clock is set back in between or not.
  */
  lemma {:induction false} OnlyItsOwn(w: World, steps: seq<Step>, r: string)
    requires r in w.table && ReadBefore(w, w.table[r].expires) && Run(w, steps).Some?
    requires forall k :: 0 <= k < |steps| ==>
               ReadsBefore(steps[k], w.table[r].expires) && Actor(steps[k]) != Some(w.table[r].holder)
    ensures var u := Run(w, steps).value; r in u.table && u.table[r] == w.table[r]
    decreases |steps|
  {
    if steps != [] {
      OthersLeaveIt(w, steps[0], r);
      ReadBeforeStep(w, steps[0], w.table[r].expires);
      OnlyItsOwn(After(w, steps[0]), steps[1..], r);
    }
  }

  /** An expired row is freed by nobody but its holder: it is only taken over. */
  lemma ReleaseIsHolderScoped(w: World, p: string, outcome: Outcome, r: string)
    requires Enabled(w, Free(p, outcome)) && r in w.table && w.table[r].holder != p
    ensures var v := After(w, Free(p, outcome)); r in v.table && v.table[r] == w.table[r]
  {
  }
}
