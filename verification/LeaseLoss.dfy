/**
 What a process makes of the answers it gets (`HeldLeases::renew`,
 src/application/runtime/mod.rs:235-272; the take, src/bootstrap/runtime.rs:327-358):
 when exactly a renewal loses the lease, and that a loss or a refusal is for good.
*/
module LeaseLoss {
  import opened Prelude
  import opened LeaseStore
  import opened LeaseRuns

  /** The row of the lease is there for its process, granted when the process says. */
  predicate StillOwn(w: World, p: string, l: Lease) {
    l.resource in w.table && w.table[l.resource].holder == p && w.table[l.resource].acquired == l.acquired
  }

  /** Another process has the row, unexpired at the reading. */
  predicate HeldByOther(w: World, p: string, l: Lease, now: int) {
    l.resource in w.table && w.table[l.resource].holder != p && w.table[l.resource].expires > now
  }

  /** Nobody has it, and the grant is dated like the lease: the reading is the one the lease was taken by. */
  predicate TakenAnew(w: World, p: string, l: Lease, now: int) {
    (l.resource in w.table ==> w.table[l.resource].holder != p && w.table[l.resource].expires <= now) &&
    now == l.acquired
  }

  predicate LeavesFlight(step: Step, p: string, id: nat) { step != End(p, id) && step != Crash(p) }

  ghost predicate Waits(w: World, p: string, id: nat, f: Flight) {
    Alive(w, p) && id in w.procs[p].flights && w.procs[p].flights[id] == f
  }

  predicate LeavesWaiting(step: Step, p: string, id: nat) {
    LeavesFlight(step, p, id) && (step.Statement? ==> step.p != p || step.id != id)
  }

  /** Until its statement runs, a renewal has the clock and the expiry that were there when it began. */
  lemma RenewalReads(w: World, p: string, i: nat, id: nat, steps: seq<Step>)
    requires Enabled(w, Begin(p, i, id)) && Run(After(w, Begin(p, i, id)), steps).Some?
    requires forall k :: 0 <= k < |steps| ==> LeavesWaiting(steps[k], p, id)
    ensures Waits(Run(After(w, Begin(p, i, id)), steps).value, p, id,
                  Flight(i, w.clock, w.procs[p].held[i].known, Waiting))
  {
    WaitsRun(After(w, Begin(p, i, id)), p, id, Flight(i, w.clock, w.procs[p].held[i].known, Waiting), steps);
  }

  lemma {:induction false} WaitsRun(w: World, p: string, id: nat, f: Flight, steps: seq<Step>)
    requires Waits(w, p, id, f) && Run(w, steps).Some?
    requires forall k :: 0 <= k < |steps| ==> LeavesWaiting(steps[k], p, id)
    ensures Waits(Run(w, steps).value, p, id, f)
    decreases |steps|
  {
    if steps != [] { WaitsRun(After(w, steps[0]), p, id, f, steps[1..]); }
  }

  /** The renewal under way as `id` is of lease `l`, and is answered like this. */
  ghost predicate Pending(w: World, p: string, id: nat, f: Flight, l: Lease) {
    Alive(w, p) && id in w.procs[p].flights && w.procs[p].flights[id] == f && !f.answer.Waiting? &&
    f.i < |w.procs[p].held| && w.procs[p].held[f.i].acquired == l.acquired &&
    w.procs[p].held[f.i].resource == l.resource && w.procs[p].held[f.i].known >= l.known
  }

  lemma PendingStep(w: World, step: Step, p: string, id: nat, f: Flight, l: Lease)
    requires Pending(w, p, id, f, l) && Enabled(w, step) && LeavesFlight(step, p, id)
    ensures Pending(After(w, step), p, id, f, l)
  {
  }

  lemma {:induction false} PendingRun(w: World, steps: seq<Step>, p: string, id: nat, f: Flight, l: Lease)
    requires Pending(w, p, id, f, l) && Run(w, steps).Some?
    requires forall k :: 0 <= k < |steps| ==> LeavesFlight(steps[k], p, id)
    ensures Pending(Run(w, steps).value, p, id, f, l)
    decreases |steps|
  {
    if steps != [] {
      PendingStep(w, steps[0], p, id, f, l);
      PendingRun(After(w, steps[0]), steps[1..], p, id, f, l);
    }
  }

  /** A renewal's statement ran on `w`, and other steps after it: the flight still has its answer. */
  lemma Answers(w: World, p: string, id: nat, outcome: Outcome, between: seq<Step>)
    requires Enabled(w, Statement(p, id, outcome)) && Run(After(w, Statement(p, id, outcome)), between).Some?
    requires forall k :: 0 <= k < |between| ==> LeavesFlight(between[k], p, id)
    ensures var f, u := w.procs[p].flights[id], Run(After(w, Statement(p, id, outcome)), between).value;
            Enabled(u, End(p, id)) && f.i < |w.procs[p].held| &&
            Pending(u, p, id, f.(answer := if outcome == Done then Replied(Renewal(w, p, id).1) else Failed),
                    w.procs[p].held[f.i])
  {
    var f := w.procs[p].flights[id];
    var answer := if outcome == Done then Replied(Renewal(w, p, id).1) else Failed;
    PendingRun(After(w, Statement(p, id, outcome)), between, p, id, f.(answer := answer), w.procs[p].held[f.i]);
  }

  lemma GrantGoesOn(w: World, p: string, id: nat)
    requires CanRun(w, p, id)
    ensures var f, reply := w.procs[p].flights[id], Renewal(w, p, id).1;
            var l := w.procs[p].held[f.i];
            (GoesOn(l, Replied(reply)) <==> StillOwn(w, p, l) || TakenAnew(w, p, l, f.now)) &&
            (reply.granted ==> reply.expires == f.now + 30_000)
  {
  }

  /** A lease that lasts longer by a grant until `e`. */
  function Extended(pr: Process, i: nat, e: int): (held: seq<Lease>)
    requires i < |pr.held|
  {
    pr.held[i := pr.held[i].(known := Later(pr.held[i].known, e))]
  }

  /** What the answer does to the process. */
  lemma EndDecides(u: World, p: string, id: nat, f: Flight, l: Lease)
    requires Pending(u, p, id, f, l) && Enabled(u, End(p, id))
    ensures var pr, next := u.procs[p], After(u, End(p, id)).procs[p];
            if GoesOn(l, f.answer) then
              next.lost == pr.lost &&
              next.held == Extended(pr, f.i, f.answer.reply.expires)
            else
              next.held == pr.held && (next.lost <==> pr.lost || !(f.answer.Failed? && f.now + 1_000 < f.known))
  {
  }

  /**
   When a renewal loses the lease, by the table and the clock reading at its statement,
   whatever happens before its answer comes in: if the statement was answered, unless the
   row is still the process's own of the same grant; if the store failed, unless more than
   the guard of one second was left. Otherwise the lease goes on, until 30 s after the
   reading if that is later than what was known.
  */
  lemma RenewalDecides(w: World, p: string, id: nat, outcome: Outcome, between: seq<Step>)
    requires Enabled(w, Statement(p, id, outcome)) && Run(After(w, Statement(p, id, outcome)), between).Some?
    requires forall k :: 0 <= k < |between| ==> LeavesFlight(between[k], p, id)
    ensures var f, l := w.procs[p].flights[id], w.procs[p].held[w.procs[p].flights[id].i];
            var u := Run(After(w, Statement(p, id, outcome)), between).value;
            var kept := if outcome == Done then StillOwn(w, p, l) || TakenAnew(w, p, l, f.now)
                        else f.now + 1_000 < f.known;
            Enabled(u, End(p, id)) && f.i < |u.procs[p].held| &&
            var next := After(u, End(p, id)).procs[p];
            (next.lost <==> u.procs[p].lost || !kept) &&
            next.held == (if outcome == Done && kept then Extended(u.procs[p], f.i, f.now + 30_000)
                          else u.procs[p].held)
  {
    var f, l := w.procs[p].flights[id], w.procs[p].held[w.procs[p].flights[id].i];
    var u := Run(After(w, Statement(p, id, outcome)), between).value;
    Answers(w, p, id, outcome, between);
    GrantGoesOn(w, p, id);
    EndDecides(u, p, id, f.(answer := if outcome == Done then Replied(Renewal(w, p, id).1) else Failed), l);
  }

  /** In particular for good, when another process has the unexpired row. */
  lemma OvertakenForGood(w: World, p: string, id: nat, between: seq<Step>, rest: seq<Step>, r: string)
    requires Enabled(w, Statement(p, id, Done)) && Run(After(w, Statement(p, id, Done)), between).Some?
    requires forall k :: 0 <= k < |between| ==> LeavesFlight(between[k], p, id)
    requires var f := w.procs[p].flights[id]; HeldByOther(w, p, w.procs[p].held[f.i], f.now)
    requires var u := Run(After(w, Statement(p, id, Done)), between).value;
             Enabled(u, End(p, id)) && Run(After(u, End(p, id)), rest).Some?
    ensures var u := Run(After(w, Statement(p, id, Done)), between).value;
            !Owns(Run(After(u, End(p, id)), rest).value, p, r)
  {
    var u := Run(After(w, Statement(p, id, Done)), between).value;
    RenewalDecides(w, p, id, Done, between);
    LostForGood(After(u, End(p, id)), rest, p);
  }

  // ---- for good ----

  /** The process has lost a lease, has crashed, or gives up a plan it never had in full. */
  predicate Out(w: World, p: string) {
    p in w.procs &&
    (w.procs[p].lost || w.procs[p].phase.Gone? ||
     (w.procs[p].phase.Stopping? && |w.procs[p].held| < |w.procs[p].plan|))
  }

  lemma OutStep(w: World, step: Step, p: string)
    requires Out(w, p) && Enabled(w, step)
    ensures Out(After(w, step), p)
  {
  }

  /** A loss is for good, and so are a crash and a refusal: the process owns nothing in the rest of the run. */
  lemma {:induction false} LostForGood(w: World, steps: seq<Step>, p: string)
    requires Out(w, p) && Run(w, steps).Some?
    ensures p in Run(w, steps).value.procs && forall r :: !Owns(Run(w, steps).value, p, r)
    decreases |steps|
  {
    if steps != [] {
      OutStep(w, steps[0], p);
      LostForGood(After(w, steps[0]), steps[1..], p);
    }
  }

  /**
   A take of the next resource of the plan, by the table and the reading: granted unless
   another process has the row unexpired, the process then goes by it for 30 s and owns its
   plan with the last one; otherwise, or when the store fails, it gives up for good.
  */
  lemma TakeDecides(w: World, p: string, now: int, outcome: Outcome, rest: seq<Step>)
    requires Enabled(w, Take(p, now, outcome)) && Run(After(w, Take(p, now, outcome)), rest).Some?
    ensures var pr, next := w.procs[p], After(w, Take(p, now, outcome)).procs[p];
            var r := pr.plan[|pr.held|];
            var free := !(r in w.table && w.table[r].holder != p && w.table[r].expires > now);
            if outcome == Done && free then
              var acquired := if r in w.table && w.table[r].holder == p then w.table[r].acquired else now;
              After(w, Take(p, now, outcome)).table == w.table[r := Row(p, acquired, now + 30_000)] &&
              next.held == pr.held + [Lease(r, acquired, now + 30_000)] &&
              (next.phase == if |next.held| == |pr.plan| then Owning else Taking)
            else
              next.held == pr.held && next.phase == Stopping &&
              (outcome != FailedAfter ==> After(w, Take(p, now, outcome)).table == w.table) &&
              forall x :: !Owns(Run(After(w, Take(p, now, outcome)), rest).value, p, x)
  {
    var v := After(w, Take(p, now, outcome));
    if v.procs[p].phase.Stopping? { LostForGood(v, rest, p); }
  }
}
