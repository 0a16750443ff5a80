/**
 The gate over a recording (src/application/trace_exec.rs:268-327): any number of
 threads emit through it and close it, one atomic step at a time, and one piece of work
 is run by `close_after`. The log keeps what happened, in order.
*/
module TraceGate {
  import opened Prelude

  type Thread = nat
  type Draft = string

  /** The thread of the work that `close_after` runs, which closes the gate after it. */
  const WORK: Thread := 0

  datatype Event =
    | Called(t: Thread, d: Draft)      // emit is called
    | Checked(t: Thread, d: Draft)     // the gate is open
    | Wrote(t: Thread, d: Draft)       // the inner sink has returned
    | Panicked(t: Thread, d: Draft)    // the inner sink has panicked: the lock is poisoned
    | Refused(t: Thread, d: Draft)     // the gate is closed
    | CloseCalled(t: Thread)
    | Shut(t: Thread)                  // the flag is false
    | Closed(t: Thread)                // close has returned

  datatype Phase = Idle | WantsEmit(d: Draft) | HoldsEmit(d: Draft) | Writing(d: Draft)
                 | WantsClose | HoldsClose | HasShut

  datatype Work = Running | Dropping | Closing | Over

  datatype State = State(open: bool, lock: Option<Thread>, threads: map<Thread, Phase>, work: Work, log: seq<Event>)

  datatype Step =
    | Emit(t: Thread, d: Draft)
    | Close(t: Thread)
    | Lock(t: Thread)
    | Check(t: Thread)
    | Finish(t: Thread, panics: bool)
    | SetShut(t: Thread)
    | Return(t: Thread)
    | EndWork                          // the work finishes, or is dropped where it waits
    | WorkDropped

  const START: State := State(true, None, map[], Running, [])

  function PhaseOf(s: State, t: Thread): (r: Phase) { if t in s.threads then s.threads[t] else Idle }

  /** `t` moves to `p`, leaving `e`. */
  function To(s: State, t: Thread, p: Phase, e: Event): (r: State) {
    s.(threads := s.threads[t := p], log := s.log + [e])
  }

  predicate Enabled(s: State, step: Step) {
    match step
    case Emit(t, _) => PhaseOf(s, t).Idle? && (t == WORK ==> s.work.Running? || s.work.Dropping?)
    case Close(t) => PhaseOf(s, t).Idle? && (t == WORK ==> s.work.Closing?)
    case Lock(t) => (PhaseOf(s, t).WantsEmit? || PhaseOf(s, t).WantsClose?) && s.lock.None?
    case Check(t) => PhaseOf(s, t).HoldsEmit?
    case Finish(t, _) => PhaseOf(s, t).Writing?
    case SetShut(t) => PhaseOf(s, t).HoldsClose?
    case Return(t) => PhaseOf(s, t).HasShut?
    case EndWork => s.work.Running? && PhaseOf(s, WORK).Idle?
    case WorkDropped => s.work.Dropping? && PhaseOf(s, WORK).Idle?
  }

  function Next(s: State, step: Step): (r: State)
    requires Enabled(s, step)
  {
    match step
    case Emit(t, d) => To(s, t, WantsEmit(d), Called(t, d))
    case Close(t) => To(s, t, WantsClose, CloseCalled(t))
    case Lock(t) =>
      var p := PhaseOf(s, t);
      s.(lock := Some(t), threads := s.threads[t := if p.WantsEmit? then HoldsEmit(p.d) else HoldsClose])
    case Check(t) =>
      var d := PhaseOf(s, t).d;
      if s.open then To(s, t, Writing(d), Checked(t, d))
      else To(s, t, Idle, Refused(t, d)).(lock := None)
    case Finish(t, panics) =>
      var d := PhaseOf(s, t).d;
      To(s, t, Idle, if panics then Panicked(t, d) else Wrote(t, d)).(lock := None)
    case SetShut(t) => To(s, t, HasShut, Shut(t)).(open := false)
    case Return(t) => To(s, t, Idle, Closed(t)).(lock := None, work := if t == WORK then Over else s.work)
    case EndWork => s.(work := Dropping)
    case WorkDropped => s.(work := Closing)
  }

  /** The event a step leaves in the log. */
  function Leaves(s: State, step: Step): (r: Option<Event>)
    requires Enabled(s, step)
  {
    match step
    case Emit(t, d) => Some(Called(t, d))
    case Close(t) => Some(CloseCalled(t))
    case Check(t) => Some(if s.open then Checked(t, PhaseOf(s, t).d) else Refused(t, PhaseOf(s, t).d))
    case Finish(t, panics) => Some(if panics then Panicked(t, PhaseOf(s, t).d) else Wrote(t, PhaseOf(s, t).d))
    case SetShut(t) => Some(Shut(t))
    case Return(t) => Some(Closed(t))
    case _ => None
  }

  lemma NextLog(s: State, step: Step)
    requires Enabled(s, step)
    ensures var e := Leaves(s, step); Next(s, step).log == if e.Some? then s.log + [e.value] else s.log
  {
  }

  /** The state after a run, if every step of it could be taken. */
  function Run(steps: seq<Step>): (r: Option<State>)
    decreases |steps|
  {
    if steps == [] then Some(START)
    else
      var s := Run(steps[..|steps| - 1]);
      if s.Some? && Enabled(s.value, steps[|steps| - 1]) then Some(Next(s.value, steps[|steps| - 1])) else None
  }

  // ---- what every state keeps ----

  predicate Holds(p: Phase) { p.HoldsEmit? || p.Writing? || p.HoldsClose? || p.HasShut? }

  /** The lock is one thread's, and only an open gate is written through. */
  ghost predicate LockKept(s: State) {
    (forall t: Thread :: Holds(PhaseOf(s, t)) <==> s.lock == Some(t)) &&
    (forall t: Thread :: PhaseOf(s, t).Writing? ==> s.open) &&
    (forall t: Thread :: PhaseOf(s, t).HasShut? ==> !s.open)
  }

  /** An emit let through at `i` is what the event at `j` ends. */
  predicate Ends(before: Event, after: Event) {
    before.Checked? && (after.Wrote? || after.Panicked?) && after.t == before.t && after.d == before.d
  }

  /** The log without the calls: what happens under the lock. */
  function UnderLock(log: seq<Event>): (r: seq<Event>) {
    if log == [] then []
    else
      var e := log[|log| - 1];
      UnderLock(log[..|log| - 1]) + Guarded(e)
  }

  function Guarded(e: Event): (r: seq<Event>) { if e.Called? || e.CloseCalled? then [] else [e] }

  lemma UnderLockSnoc(log: seq<Event>, e: Event)
    ensures UnderLock(log + [e]) == UnderLock(log) + Guarded(e)
  {
    assert (log + [e])[..|log|] == log;
  }

  ghost predicate HasShutEvent(log: seq<Event>) { exists i :: 0 <= i < |log| && log[i].Shut? }

  /** How a checked write ends: the inner sink has it, or panicked in it. */
  predicate IsEnd(e: Event) { e.Wrote? || e.Panicked? }

  /** The flag says whether the log has a `Shut`, and each check answered by the flag. */
  ghost predicate FlagKept(s: State) {
    (s.open <==> !HasShutEvent(s.log)) && forall i :: 0 <= i < |s.log| ==> OnTime(s.log[..i], s.log[i])
  }

  /** A check that passes and its end come before the flag is put down, a refusal and a close's return after. */
  ghost predicate OnTime(before: seq<Event>, e: Event) {
    (e.Checked? || IsEnd(e) ==> !HasShutEvent(before)) && (e.Refused? || e.Closed? ==> HasShutEvent(before))
  }

  lemma ShutSnoc(log: seq<Event>, e: Event)
    ensures HasShutEvent(log + [e]) <==> HasShutEvent(log) || e.Shut?
    ensures forall i :: 0 <= i <= |log| ==> (log + [e])[..i] == log[..i]
  {
    if HasShutEvent(log) {
      var i :| 0 <= i < |log| && log[i].Shut?;
      assert (log + [e])[i].Shut?;
    }
    assert (log + [e])[|log|] == e;
  }

  /** `b` may come directly after `a` under the lock: a check is followed by its end. */
  predicate Follows(a: Event, b: Event) {
    if a.Checked? then Ends(a, b) else !IsEnd(b)
  }

  ghost predicate Paired(l: seq<Event>) {
    (l != [] ==> !IsEnd(l[0])) && forall i :: 0 <= i < |l| - 1 ==> Follows(l[i], l[i + 1])
  }

  /** A check without its end yet is the last event, and its thread is writing. */
  ghost predicate EndsNext(s: State) {
    var l := UnderLock(s.log);
    Paired(l) &&
    (l != [] && l[|l| - 1].Checked? ==> PhaseOf(s, l[|l| - 1].t) == Writing(l[|l| - 1].d)) &&
    (forall t: Thread :: PhaseOf(s, t).Writing? ==> l != [] && l[|l| - 1] == Checked(t, PhaseOf(s, t).d))
  }

  lemma PairedSnoc(l: seq<Event>, e: Event)
    requires Paired(l) && (if l == [] then !IsEnd(e) else Follows(l[|l| - 1], e))
    ensures Paired(l + [e])
  {
  }

  lemma LockStep(s: State, step: Step)
    requires LockKept(s) && Enabled(s, step)
    ensures LockKept(Next(s, step))
  {
  }

  lemma FlagStep(s: State, step: Step)
    requires LockKept(s) && FlagKept(s) && Enabled(s, step)
    ensures FlagKept(Next(s, step))
  {
    var e, t := Leaves(s, step), Next(s, step);
    NextLog(s, step);
    EventOnTime(s, step);
    if e.Some? {
      ShutSnoc(s.log, e.value);
      forall i | 0 <= i < |t.log| ensures OnTime(t.log[..i], t.log[i]) {
        assert t.log[..i] == s.log[..i];
      }
    }
  }

  /** What a step leaves comes on time, and puts the flag down if it says so. */
  lemma EventOnTime(s: State, step: Step)
    requires LockKept(s) && FlagKept(s) && Enabled(s, step)
    ensures var e := Leaves(s, step);
            (e.Some? ==> OnTime(s.log, e.value)) && (Next(s, step).open <==> s.open && !(e.Some? && e.value.Shut?))
  {
  }

  lemma StillWriting(s: State, step: Step, t: Thread)
    requires Enabled(s, step) && PhaseOf(Next(s, step), t).Writing?
    ensures if step == Check(t) then s.open && PhaseOf(s, t) == HoldsEmit(PhaseOf(Next(s, step), t).d)
            else PhaseOf(s, t) == PhaseOf(Next(s, step), t)
  {
  }

  /** What is done under the lock may follow what was done before. */
  lemma MayFollow(s: State, step: Step)
    requires LockKept(s) && EndsNext(s) && Enabled(s, step) && Leaves(s, step).Some?
    ensures var l, e := UnderLock(s.log), Leaves(s, step).value;
            Guarded(e) != [] ==> if l == [] then !IsEnd(e) else Follows(l[|l| - 1], e)
  {
    var l := UnderLock(s.log);
    assert l != [] && l[|l| - 1].Checked? ==> s.lock == Some(l[|l| - 1].t);
  }

  /** What a step adds to the log under the lock. */
  lemma LogStep(s: State, step: Step)
    requires LockKept(s) && EndsNext(s) && Enabled(s, step)
    ensures var e := Leaves(s, step);
            UnderLock(Next(s, step).log) == UnderLock(s.log) + (if e.Some? then Guarded(e.value) else [])
    ensures Paired(UnderLock(Next(s, step).log))
  {
    var l, e := UnderLock(s.log), Leaves(s, step);
    NextLog(s, step);
    assert l + [] == l;
    if e.Some? {
      UnderLockSnoc(s.log, e.value);
      MayFollow(s, step);
      if Guarded(e.value) != [] { PairedSnoc(l, e.value); }
    }
  }

  lemma WritingIsLast(s: State, step: Step, t: Thread)
    requires LockKept(s) && EndsNext(s) && Enabled(s, step) && PhaseOf(Next(s, step), t).Writing?
    ensures var m := UnderLock(Next(s, step).log); m != [] && m[|m| - 1] == Checked(t, PhaseOf(Next(s, step), t).d)
  {
    LogStep(s, step);
    StillWriting(s, step, t);
    if step != Check(t) { OnlyTheWriter(s, step, t); }
  }

  /** While a thread goes on writing, nothing else is done under the lock. */
  lemma OnlyTheWriter(s: State, step: Step, t: Thread)
    requires LockKept(s) && Enabled(s, step) && PhaseOf(s, t).Writing? && PhaseOf(Next(s, step), t).Writing?
    ensures Leaves(s, step).None? || Guarded(Leaves(s, step).value) == []
  {
    assert s.lock == Some(t);
    assert step.Check? || step.Finish? || step.SetShut? || step.Return? ==> Holds(PhaseOf(s, step.t));
  }

  lemma LastIsWriting(s: State, step: Step)
    requires LockKept(s) && EndsNext(s) && Enabled(s, step)
    ensures var m := UnderLock(Next(s, step).log);
            m != [] && m[|m| - 1].Checked? ==> PhaseOf(Next(s, step), m[|m| - 1].t) == Writing(m[|m| - 1].d)
  {
    var l, e := UnderLock(s.log), Leaves(s, step);
    LogStep(s, step);
    if e.None? || Guarded(e.value) == [] {
      if l != [] && l[|l| - 1].Checked? { WriterStays(s, step, l[|l| - 1].t); }
    } else if e.value.Checked? {
      CheckWrites(s, step);
    }
  }

  lemma CheckWrites(s: State, step: Step)
    requires Enabled(s, step) && Leaves(s, step).Some? && Leaves(s, step).value.Checked?
    ensures var e := Leaves(s, step).value; PhaseOf(Next(s, step), e.t) == Writing(e.d)
  {
  }

  /** A step that does nothing under the lock leaves a writer writing. */
  lemma WriterStays(s: State, step: Step, t: Thread)
    requires LockKept(s) && Enabled(s, step) && PhaseOf(s, t).Writing?
    requires Leaves(s, step).None? || Guarded(Leaves(s, step).value) == []
    ensures PhaseOf(Next(s, step), t) == PhaseOf(s, t)
  {
    assert s.lock == Some(t);
  }

  lemma EndsStep(s: State, step: Step)
    requires LockKept(s) && EndsNext(s) && Enabled(s, step)
    ensures EndsNext(Next(s, step))
  {
    var m := UnderLock(Next(s, step).log);
    LogStep(s, step);
    LastIsWriting(s, step);
    forall t: Thread | PhaseOf(Next(s, step), t).Writing?
      ensures m != [] && m[|m| - 1] == Checked(t, PhaseOf(Next(s, step), t).d)
    {
      WritingIsLast(s, step, t);
    }
  }

  lemma {:induction false} AllKept(steps: seq<Step>)
    requires Run(steps).Some?
    ensures var s := Run(steps).value; LockKept(s) && FlagKept(s) && EndsNext(s)
    decreases |steps|
  {
    if steps != [] {
      var init := steps[..|steps| - 1];
      AllKept(init);
      LockStep(Run(init).value, steps[|steps| - 1]);
      FlagStep(Run(init).value, steps[|steps| - 1]);
      EndsStep(Run(init).value, steps[|steps| - 1]);
    }
  }

  // ---- the gate ----

  /** Nothing reaches the inner sink once a close has returned, whoever closed and whoever writes. */
  lemma NothingAfterClose(steps: seq<Step>, i: nat, j: nat)
    requires Run(steps).Some?
    requires i < j < |Run(steps).value.log| && Run(steps).value.log[i].Closed?
    ensures var e := Run(steps).value.log[j]; !IsEnd(e) && !e.Checked?
  {
    AllKept(steps);
    var log := Run(steps).value.log;
    var k :| 0 <= k < i && log[..i][k].Shut?;
    assert log[..j][k].Shut?;
  }

  /** A refusal, and the return of a close, come after the flag was put down. */
  lemma ShutBefore(steps: seq<Step>, j: nat) returns (i: nat)
    requires Run(steps).Some? && j < |Run(steps).value.log|
    requires Run(steps).value.log[j].Refused? || Run(steps).value.log[j].Closed?
    ensures i < j && Run(steps).value.log[i].Shut? && !Run(steps).value.open
  {
    AllKept(steps);
    var log := Run(steps).value.log;
    assert HasShutEvent(log[..j]);
    i :| 0 <= i < |log[..j]| && log[..j][i].Shut?;
    assert log[i].Shut?;
  }

  /** An emit is refused only when some close has begun before it was answered. */
  lemma RefusedAfterShut(steps: seq<Step>, j: nat) returns (i: nat)
    requires Run(steps).Some? && j < |Run(steps).value.log| && Run(steps).value.log[j].Refused?
    ensures i < j && Run(steps).value.log[i].Shut?
  {
    i := ShutBefore(steps, j);
  }

  lemma {:induction false} UnderLockGrows(log: seq<Event>, i: nat, j: nat)
    requires i <= j <= |log|
    ensures UnderLock(log[..i]) <= UnderLock(log[..j])
  {
    if i < j {
      UnderLockGrows(log, i, j - 1);
      assert log[..j][..j - 1] == log[..j - 1];
    }
  }

  /** Where an event under the lock stands in the log. */
  lemma {:induction false} Spot(log: seq<Event>, p: nat) returns (k: nat)
    requires p < |UnderLock(log)|
    ensures k < |log| && log[k] == UnderLock(log)[p] && |UnderLock(log[..k])| == p
  {
    var n := |log| - 1;
    if p < |UnderLock(log[..n])| {
      k := Spot(log[..n], p);
      assert log[..n][..k] == log[..k];
    } else {
      k := n;
    }
  }

  lemma SpotOf(log: seq<Event>, i: nat)
    requires i < |log| && !log[i].Called? && !log[i].CloseCalled?
    ensures |UnderLock(log[..i])| < |UnderLock(log)| && UnderLock(log)[|UnderLock(log[..i])|] == log[i]
    ensures |UnderLock(log[..i + 1])| == |UnderLock(log[..i])| + 1
  {
    assert log[..i + 1][..i] == log[..i];
    UnderLockGrows(log, i + 1, |log|);
    assert log[..|log|] == log;
  }

  /** A write whose check succeeded has ended when a close returns, with nothing else under the lock between. */
  lemma CheckedEndsBeforeClose(steps: seq<Step>, i: nat, j: nat) returns (k: nat)
    requires Run(steps).Some?
    requires i < j < |Run(steps).value.log|
    requires Run(steps).value.log[i].Checked? && (Run(steps).value.log[j].Closed? || Run(steps).value.log[j].Shut?)
    ensures i < k < j && Ends(Run(steps).value.log[i], Run(steps).value.log[k])
  {
    AllKept(steps);
    var log := Run(steps).value.log;
    var p, q := |UnderLock(log[..i])|, |UnderLock(log[..j])|;
    SpotOf(log, i);
    SpotOf(log, j);
    UnderLockGrows(log, i + 1, j);
    assert Follows(UnderLock(log)[p], UnderLock(log)[p + 1]);
    k := Spot(log, p + 1);
    if k <= i { UnderLockGrows(log, k, i); }
    if j <= k { UnderLockGrows(log, j, k); }
  }

  /** Every write was let through just before, by the same thread. */
  lemma WriteWasChecked(steps: seq<Step>, k: nat) returns (i: nat)
    requires Run(steps).Some?
    requires k < |Run(steps).value.log| && (Run(steps).value.log[k].Wrote? || Run(steps).value.log[k].Panicked?)
    ensures i < k && Ends(Run(steps).value.log[i], Run(steps).value.log[k])
  {
    AllKept(steps);
    var log := Run(steps).value.log;
    var q := |UnderLock(log[..k])|;
    SpotOf(log, k);
    assert q > 0;
    assert Follows(UnderLock(log)[q - 1], UnderLock(log)[q]);
    i := Spot(log, q - 1);
    if k <= i { UnderLockGrows(log, k, i); }
  }

  // ---- each thread in turn ----

  /** The last event of thread `t`. */
  function LastOf(log: seq<Event>, t: Thread): (e: Option<Event>) {
    if log == [] then None
    else if log[|log| - 1].t == t then Some(log[|log| - 1]) else LastOf(log[..|log| - 1], t)
  }

  /** An emit or a close has been answered, or none was called yet. */
  predicate Answered(last: Option<Event>) {
    last.None? || IsEnd(last.value) || last.value.Refused? || last.value.Closed?
  }

  /** `e` is the answer to, or goes on with, what its thread did last. */
  predicate InTurn(last: Option<Event>, e: Event) {
    match e
    case Called(_, _) => Answered(last)
    case CloseCalled(_) => Answered(last)
    case Checked(t, d) => last == Some(Called(t, d))
    case Refused(t, d) => last == Some(Called(t, d))
    case Wrote(t, d) => last == Some(Checked(t, d))
    case Panicked(t, d) => last == Some(Checked(t, d))
    case Shut(t) => last == Some(CloseCalled(t))
    case Closed(t) => last == Some(Shut(t))
  }

  /** What the phase of a thread says of its last event. */
  predicate AsLast(p: Phase, t: Thread, last: Option<Event>) {
    match p
    case Idle => Answered(last)
    case WantsEmit(d) => last == Some(Called(t, d))
    case HoldsEmit(d) => last == Some(Called(t, d))
    case Writing(d) => last == Some(Checked(t, d))
    case WantsClose => last == Some(CloseCalled(t))
    case HoldsClose => last == Some(CloseCalled(t))
    case HasShut => last == Some(Shut(t))
  }

  ghost predicate TurnsKept(s: State) {
    (forall t: Thread :: AsLast(PhaseOf(s, t), t, LastOf(s.log, t))) &&
    forall j :: 0 <= j < |s.log| ==> InTurn(LastOf(s.log[..j], s.log[j].t), s.log[j])
  }

  lemma LastSnoc(log: seq<Event>, e: Event, t: Thread)
    ensures LastOf(log + [e], t) == if e.t == t then Some(e) else LastOf(log, t)
  {
    assert (log + [e])[..|log|] == log;
  }

  lemma TurnOfStep(s: State, step: Step, t: Thread)
    requires Enabled(s, step) && AsLast(PhaseOf(s, t), t, LastOf(s.log, t))
    ensures AsLast(PhaseOf(Next(s, step), t), t, LastOf(Next(s, step).log, t))
    ensures var e := Leaves(s, step); e.Some? && e.value.t == t ==> InTurn(LastOf(s.log, t), e.value)
  {
    NextLog(s, step);
    var e := Leaves(s, step);
    if e.Some? { LastSnoc(s.log, e.value, t); }
  }

  lemma TurnsStep(s: State, step: Step)
    requires TurnsKept(s) && Enabled(s, step)
    ensures TurnsKept(Next(s, step))
  {
    var next, e := Next(s, step), Leaves(s, step);
    NextLog(s, step);
    forall t: Thread ensures AsLast(PhaseOf(next, t), t, LastOf(next.log, t)) { TurnOfStep(s, step, t); }
    forall j | 0 <= j < |next.log| ensures InTurn(LastOf(next.log[..j], next.log[j].t), next.log[j]) {
      assert next.log[..j] == s.log[..j];
      if j == |s.log| {
        assert s.log[..j] == s.log;
        TurnOfStep(s, step, e.value.t);
      }
    }
  }

  /**
   Each thread goes its own way in turn: an emit is checked or refused with the draft it
   was called with, a checked one written or panics with that draft, and a close shuts the
   gate once and returns, with nothing else of the thread in between.
  */
  lemma {:induction false} ThreadsInTurn(steps: seq<Step>)
    requires Run(steps).Some?
    ensures TurnsKept(Run(steps).value)
    decreases |steps|
  {
    if steps != [] {
      var init := steps[..|steps| - 1];
      ThreadsInTurn(init);
      TurnsStep(Run(init).value, steps[|steps| - 1]);
    }
  }

  /** The drafts that thread `t` emits in a run. */
  function EmitsOf(steps: seq<Step>, t: Thread): (r: seq<Draft>) {
    if steps == [] then []
    else
      var last := steps[|steps| - 1];
      EmitsOf(steps[..|steps| - 1], t) + if last.Emit? && last.t == t then [last.d] else []
  }

  /** What the work asked for is what it emitted in the run. */
  lemma {:induction false} AskedByRun(steps: seq<Step>)
    requires Run(steps).Some?
    ensures Asked(Run(steps).value.log) == EmitsOf(steps, WORK)
    decreases |steps|
  {
    if steps != [] {
      var init, last := steps[..|steps| - 1], steps[|steps| - 1];
      AskedByRun(init);
      NextLog(Run(init).value, last);
      if Leaves(Run(init).value, last).Some? {
        WorkSnoc(Run(init).value.log, Leaves(Run(init).value, last).value);
      }
    }
  }

  // ---- the work of close_after ----

  /** What the work asked to be written. */
  function Asked(log: seq<Event>): (r: seq<Draft>) {
    if log == [] then []
    else
      var e := log[|log| - 1];
      Asked(log[..|log| - 1]) + AskedBy(e)
  }

  function AskedBy(e: Event): (r: seq<Draft>) { if e.Called? && e.t == WORK then [e.d] else [] }

  /** What the inner sink got of it. */
  function Landed(log: seq<Event>): (r: seq<Draft>) {
    if log == [] then []
    else
      var e := log[|log| - 1];
      Landed(log[..|log| - 1]) + LandedBy(e)
  }

  function LandedBy(e: Event): (r: seq<Draft>) { if IsEnd(e) && e.t == WORK then [e.d] else [] }

  lemma WorkSnoc(log: seq<Event>, e: Event)
    ensures Asked(log + [e]) == Asked(log) + AskedBy(e) && Landed(log + [e]) == Landed(log) + LandedBy(e)
  {
    assert (log + [e])[..|log|] == log;
  }

  /** The emit in progress. */
  function Pending(p: Phase): (r: seq<Draft>) {
    if p.WantsEmit? || p.HoldsEmit? || p.Writing? then [p.d] else []
  }

  predicate Closes(p: Phase) { p.WantsClose? || p.HoldsClose? || p.HasShut? }

  ghost predicate OnlyTheWorkCloses(steps: seq<Step>) {
    forall i :: 0 <= i < |steps| && steps[i].Close? ==> steps[i].t == WORK
  }

  /** Until the work is over and dropped the gate is open, and nothing of it is refused. */
  ghost predicate WorkKept(s: State) {
    var p := PhaseOf(s, WORK);
    (s.work.Running? || s.work.Dropping? ==> s.open && !Closes(p)) &&
    (s.work.Closing? || s.work.Over? ==> Pending(p) == []) &&
    (s.work.Closing? && !s.open ==> p.HasShut?) && (s.work.Over? ==> p.Idle?) &&
    (forall t: Thread :: t != WORK ==> !Closes(PhaseOf(s, t)))
  }

  ghost predicate LandedKept(s: State) {
    Asked(s.log) == Landed(s.log) + Pending(PhaseOf(s, WORK)) &&
    forall j :: 0 <= j < |s.log| && s.log[j].Closed? ==> s.work.Over? && Landed(s.log[..j]) == Asked(s.log)
  }

  lemma WorkStep(s: State, step: Step)
    requires WorkKept(s) && LockKept(s) && Enabled(s, step) && (step.Close? ==> step.t == WORK)
    ensures WorkKept(Next(s, step))
  {
    forall t: Thread | t != WORK ensures !Closes(PhaseOf(Next(s, step), t)) {
      assert !Closes(PhaseOf(s, t));
    }
  }

  /** What a step asks for is what it lands, or what the work's emit in progress changes by. */
  lemma PendingStep(s: State, step: Step)
    requires Enabled(s, step) && WorkKept(s) && WorkKept(Next(s, step))
    ensures var e, was, now := Leaves(s, step), PhaseOf(s, WORK), PhaseOf(Next(s, step), WORK);
            if e.None? then Pending(now) == Pending(was)
            else Pending(was) + AskedBy(e.value) == LandedBy(e.value) + Pending(now)
    ensures s.work.Over? && Leaves(s, step).Some? ==> AskedBy(Leaves(s, step).value) == []
  {
  }

  lemma AskedStep(s: State, step: Step)
    requires WorkKept(s) && Asked(s.log) == Landed(s.log) + Pending(PhaseOf(s, WORK)) && Enabled(s, step)
    requires WorkKept(Next(s, step))
    ensures Asked(Next(s, step).log) == Landed(Next(s, step).log) + Pending(PhaseOf(Next(s, step), WORK))
    ensures s.work.Over? ==> Asked(Next(s, step).log) == Asked(s.log)
  {
    var e := Leaves(s, step);
    NextLog(s, step);
    PendingStep(s, step);
    if e.Some? {
      WorkSnoc(s.log, e.value);
      Regroup(Landed(s.log), Pending(PhaseOf(s, WORK)), AskedBy(e.value),
              LandedBy(e.value), Pending(PhaseOf(Next(s, step), WORK)));
    }
  }

  lemma Regroup(all: seq<Draft>, was: seq<Draft>, asked: seq<Draft>, landed: seq<Draft>, now: seq<Draft>)
    requires was + asked == landed + now
    ensures (all + was) + asked == (all + landed) + now
  {
    assert (all + was) + asked == all + (was + asked);
    assert (all + landed) + now == all + (landed + now);
  }

  lemma LandedStep(s: State, step: Step)
    requires WorkKept(s) && LandedKept(s) && Enabled(s, step) && WorkKept(Next(s, step))
    ensures LandedKept(Next(s, step))
  {
    var next := Next(s, step);
    AskedStep(s, step);
    forall j | 0 <= j < |next.log| && next.log[j].Closed?
      ensures next.work.Over? && Landed(next.log[..j]) == Asked(next.log)
    {
      ClosedStep(s, step, j);
    }
  }

  lemma ClosedStep(s: State, step: Step, j: nat)
    requires WorkKept(s) && LandedKept(s) && Enabled(s, step) && WorkKept(Next(s, step))
    requires j < |Next(s, step).log| && Next(s, step).log[j].Closed?
    ensures Next(s, step).work.Over? && Landed(Next(s, step).log[..j]) == Asked(Next(s, step).log)
  {
    NextLog(s, step);
    assert Next(s, step).log[..j] == s.log[..j];
    if j < |s.log| {
      AskedStep(s, step);
      assert s.log[j].Closed?;
    } else {
      AllLanded(s, step.t);
      assert s.log[..j] == s.log;
    }
  }

  /** Where a close returns, the work's emits have all landed. */
  lemma AllLanded(s: State, t: Thread)
    requires WorkKept(s) && LandedKept(s) && PhaseOf(s, t).HasShut? && WorkKept(Next(s, Return(t)))
    ensures t == WORK && Asked(s.log) == Landed(s.log) && Asked(Next(s, Return(t)).log) == Asked(s.log)
  {
    assert Closes(PhaseOf(s, t));
    NextLog(s, Return(t));
    WorkSnoc(s.log, Closed(t));
  }

  lemma {:induction false} WorkRuns(steps: seq<Step>)
    requires Run(steps).Some? && OnlyTheWorkCloses(steps)
    ensures WorkKept(Run(steps).value) && LandedKept(Run(steps).value)
    decreases |steps|
  {
    if steps != [] {
      var init, last := steps[..|steps| - 1], steps[|steps| - 1];
      WorkRuns(init);
      AllKept(init);
      WorkStep(Run(init).value, last);
      LandedStep(Run(init).value, last);
    }
  }

  /**
   Whether the work finished or was dropped, all it asked for, its drop included, has
   reached the inner sink in its order when the close returns.
  */
  lemma WorkLandsBeforeClose(steps: seq<Step>, j: nat)
    requires Run(steps).Some? && OnlyTheWorkCloses(steps)
    requires j < |Run(steps).value.log| && Run(steps).value.log[j].Closed?
    ensures Landed(Run(steps).value.log[..j]) == Asked(Run(steps).value.log) == EmitsOf(steps, WORK)
    ensures Run(steps).value.work.Over? && !Run(steps).value.open
  {
    WorkRuns(steps);
    AskedByRun(steps);
    var k := ShutBefore(steps, j);
  }
}
