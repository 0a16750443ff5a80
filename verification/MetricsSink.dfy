/**
 The metrics sink and its flush barrier (src/application/metrics.rs): many
 senders, a broadcast ring that overwrites, one forwarder task, and callers of
 `flush`. Each step below is one atomic action of one of them, so a run is an
 arbitrary interleaving.

 A record is known by its position among the records sent since the forwarder
 subscribed. The ring retains the newest `CAPACITY` of them; a receiver that was
 overtaken jumps to the oldest retained one and learns how many it missed.
*/
module MetricsSink {
  import opened Prelude

  const CAPACITY: nat := 256

  /** One call of `flush`; `before` = the records sent when it was called. */
  datatype Flush =
    | Called(before: nat)
    | Queued(before: nat)
    | Resolved(before: nat, live: bool)  // live: the forwarder had not ended

  /** Where the forwarder's loop is. */
  datatype Mode =
    | Receive           // polling `records.recv()`, which has priority
    | Flushes           // no record there: polling `flushes.recv()`
    | Drain(ack: nat)   // answering a flush: `try_recv` until empty
    | Ended

  /** A lag report covers the positions from `first` up to `end`. */
  datatype Lag = Lag(first: nat, end: nat)

  /** What the receiver has been through. */
  datatype Track = Track(
    next: nat,                  // its cursor
    handed: seq<nat>,           // positions of the records given to `on_record`, in order
    lags: seq<Lag>              // the lag reports, in order
  )

  /** The forwarder's loop and the flushes it answers. */
  datatype Desk = Desk(
    mode: Mode,
    queue: seq<nat>,            // flushes sent and not yet received
    flushes: map<nat, Flush>
  )

  datatype State<R> = State(
    sent: seq<R>,
    given: seq<R>,              // what `on_record` was called with, in order
    got: Track,
    desk: Desk,
    refused: bool,              // `on_record` has returned false
    barrier: bool               // the `MetricsBarrier` has not been dropped
  )

  datatype Step<R> =
    | Send(record: R)           // `record` or `forward`, by any task
    | Call(flush: nat)          // `flush` is called
    | Enqueue(flush: nat)       // its ack is sent, or refused
    | DropBarrier
    | Hand(more: bool)          // a record is received; `on_record` returns `more`
    | Skip                      // `Lagged` is received
    | NoRecord                  // `recv` is pending / `try_recv` is empty
    | Poll                      // `flushes` is polled

  function Start<R>(): (r: State<R>) {
    State([], [], Track(0, [], []), Desk(Receive, [], map[]), false, true)
  }

  function TakeOne(k: Track): (r: Track) { k.(handed := k.handed + [k.next], next := k.next + 1) }

  function JumpTo(k: Track, oldest: nat): (r: Track) {
    k.(lags := k.lags + [Lag(k.next, oldest)], next := oldest)
  }

  function Unread<R>(s: State<R>): (r: int) { |s.sent| - s.got.next }

  function CallFlush(d: Desk, f: nat, before: nat): (r: Desk) { d.(flushes := d.flushes[f := Called(before)]) }

  /** The ack goes into the queue, or the send fails because the forwarder has ended. */
  function EnqueueFlush(d: Desk, f: nat): (r: Desk)
    requires f in d.flushes
  {
    var before := d.flushes[f].before;
    if d.mode == Ended then d.(flushes := d.flushes[f := Resolved(before, false)])
    else d.(flushes := d.flushes[f := Queued(before)], queue := d.queue + [f])
  }

  function TakeFlush(d: Desk): (r: Desk)
    requires d.queue != []
  {
    d.(mode := Drain(d.queue[0]), queue := d.queue[1..])
  }

  function Answer(d: Desk): (r: Desk)
    requires d.mode.Drain? && d.mode.ack in d.flushes
  {
    d.(mode := Receive, flushes := d.flushes[d.mode.ack := Resolved(d.flushes[d.mode.ack].before, true)])
  }

  /** The task returns: every ack not yet answered is dropped, which resolves its flush. */
  function End(d: Desk): (r: Desk) {
    d.(mode := Ended, queue := [], flushes := map f | f in d.flushes ::
         if d.flushes[f].Queued? then Resolved(d.flushes[f].before, false) else d.flushes[f])
  }

  /** What a step does; `None` when it cannot happen. */
  function Next<R>(s: State<R>, step: Step<R>): (r: Option<State<R>>) {
    match step
    case Send(r) => Some(s.(sent := s.sent + [r]))
    case Call(f) =>
      if f in s.desk.flushes || !s.barrier then None
      else Some(s.(desk := CallFlush(s.desk, f, |s.sent|)))
    case Enqueue(f) =>
      if f !in s.desk.flushes || !s.desk.flushes[f].Called? then None
      else Some(s.(desk := EnqueueFlush(s.desk, f)))
    case DropBarrier =>
      if exists f :: f in s.desk.flushes && s.desk.flushes[f].Called? then None
      else Some(s.(barrier := false))
    case Hand(more) =>
      if !Receiving(s.desk) || !(0 < Unread(s) <= CAPACITY) then None
      else
        var t := s.(given := s.given + [s.sent[s.got.next]], got := TakeOne(s.got));
        Some(if more then t else t.(desk := End(s.desk), refused := true))
    case Skip =>
      if !Receiving(s.desk) || Unread(s) <= CAPACITY then None
      else Some(s.(got := JumpTo(s.got, |s.sent| - CAPACITY)))
    case NoRecord =>
      if Unread(s) != 0 then None
      else if s.desk.mode.Receive? then Some(s.(desk := s.desk.(mode := Flushes)))
      else if s.desk.mode.Drain? && s.desk.mode.ack in s.desk.flushes then Some(s.(desk := Answer(s.desk)))
      else None
    case Poll =>
      if !s.desk.mode.Flushes? then None
      else if s.desk.queue != [] then Some(s.(desk := TakeFlush(s.desk)))
      else if s.barrier then Some(s.(desk := s.desk.(mode := Receive)))
      else Some(s.(desk := End(s.desk)))
  }

  predicate Receiving(d: Desk) { d.mode.Receive? || d.mode.Drain? }

  function Then<R>(s: Option<State<R>>, step: Step<R>): (r: Option<State<R>>) {
    match s case None => None case Some(t) => Next(t, step)
  }

  /** The state after the first `k` steps, if each could happen. */
  function Reach<R>(steps: seq<Step<R>>, k: nat): (r: Option<State<R>>)
    requires k <= |steps|
  {
    if k == 0 then Some(Start()) else Then(Reach(steps, k - 1), steps[k - 1])
  }

  /** The steps are a run from the start. */
  predicate IsRun<R>(steps: seq<Step<R>>) { Reach(steps, |steps|).Some? }

  /** A moment of a run. */
  function At<R>(steps: seq<Step<R>>, k: nat): (s: State<R>)
    requires IsRun(steps) && k <= |steps|
  {
    Reaches(steps, k);
    Reach(steps, k).value
  }

  function Last<R>(steps: seq<Step<R>>): (s: State<R>)
    requires IsRun(steps)
  {
    At(steps, |steps|)
  }

  lemma {:induction false} Reaches<R>(steps: seq<Step<R>>, k: nat)
    requires IsRun(steps) && k <= |steps|
    ensures Reach(steps, k).Some?
    decreases |steps| - k
  {
    if k < |steps| { Reaches(steps, k + 1); }
  }

  lemma AtStep<R>(steps: seq<Step<R>>, k: nat)
    requires IsRun(steps) && k < |steps|
    ensures Next(At(steps, k), steps[k]) == Some(At(steps, k + 1))
  {
    var s, t := Reach(steps, k), Reach(steps, k + 1);
    Reaches(steps, k);
    Reaches(steps, k + 1);
    assert t == Then(s, steps[k]);
  }

  // ---- what every reachable state keeps ----

  ghost predicate IsLost(k: Track, p: nat) {
    exists i :: 0 <= i < |k.lags| && k.lags[i].first <= p < k.lags[i].end
  }

  function LagCount(lags: seq<Lag>): (r: int) {
    if lags == [] then 0 else LagCount(lags[..|lags| - 1]) + lags[|lags| - 1].end - lags[|lags| - 1].first
  }

  /** Handed positions ascend; every position passed was handed or lost, not both, and is counted. */
  ghost predicate Ordered(k: Track) {
    (forall i, j :: 0 <= i < j < |k.handed| ==> k.handed[i] < k.handed[j]) &&
    (forall i :: 0 <= i < |k.handed| ==> k.handed[i] < k.next) &&
    (forall i :: 0 <= i < |k.lags| ==> k.lags[i].first < k.lags[i].end <= k.next) &&
    (forall p :: 0 <= p < k.next ==> (p in k.handed <==> !IsLost(k, p))) &&
    |k.handed| + LagCount(k.lags) == k.next
  }

  /** The queue holds exactly the flushes that wait for the forwarder. */
  ghost predicate QueueKept(d: Desk) {
    (forall i :: 0 <= i < |d.queue| ==> d.queue[i] in d.flushes && d.flushes[d.queue[i]].Queued?) &&
    (forall i, j :: 0 <= i < j < |d.queue| ==> d.queue[i] != d.queue[j]) &&
    (forall f :: f in d.flushes && d.flushes[f].Queued? ==> f in d.queue || d.mode == Drain(f)) &&
    (d.mode.Drain? ==> d.mode.ack in d.flushes && d.flushes[d.mode.ack].Queued? && d.mode.ack !in d.queue) &&
    (d.mode == Ended ==> d.queue == [])
  }

  /**
   With `next` records passed of `sent`: a flush counts what was sent before it; resolved
   by a live forwarder, all of that is passed.
  */
  ghost predicate BarrierKept(d: Desk, next: nat, sent: nat) {
    (forall f :: f in d.flushes ==> d.flushes[f].before <= sent) &&
    (forall f :: f in d.flushes && d.flushes[f].Resolved? && d.flushes[f].live ==> d.flushes[f].before <= next) &&
    (forall f :: f in d.flushes && d.flushes[f].Resolved? && !d.flushes[f].live ==> d.mode == Ended)
  }

  /** What was handed on is the record at each handed position. */
  ghost predicate Embeds<R>(a: seq<R>, b: seq<R>, at: seq<nat>) {
    |at| == |a| && (forall i, j :: 0 <= i < j < |at| ==> at[i] < at[j]) &&
    forall i :: 0 <= i < |a| ==> at[i] < |b| && a[i] == b[at[i]]
  }

  ghost predicate Kept<R>(s: State<R>) {
    Ordered(s.got) && Embeds(s.given, s.sent, s.got.handed) && s.got.next <= |s.sent| && QueueKept(s.desk) &&
    BarrierKept(s.desk, s.got.next, |s.sent|) && (s.refused ==> s.desk.mode == Ended)
  }

  lemma StartKept<R>()
    ensures Kept(Start<R>())
  {
  }

  lemma TakeOneOrdered(k: Track)
    requires Ordered(k)
    ensures Ordered(TakeOne(k))
  {
    var t := TakeOne(k);
    forall p | 0 <= p < t.next ensures p in t.handed <==> !IsLost(t, p) {
      assert IsLost(t, p) <==> IsLost(k, p);
      assert p == k.next ==> t.handed[|k.handed|] == p;
    }
  }

  lemma JumpToOrdered(k: Track, oldest: nat)
    requires Ordered(k) && k.next < oldest
    ensures Ordered(JumpTo(k, oldest))
  {
    var t := JumpTo(k, oldest);
    assert t.lags[..|k.lags|] == k.lags;
    forall p | 0 <= p < t.next ensures p in t.handed <==> !IsLost(t, p) {
      if p >= k.next {
        assert t.lags[|k.lags|].first <= p < t.lags[|k.lags|].end;
      } else if IsLost(k, p) {
        var i :| 0 <= i < |k.lags| && k.lags[i].first <= p < k.lags[i].end;
        assert t.lags[i] == k.lags[i];
      }
    }
  }

  /** The receiver only moves by taking one record or by jumping over lost ones. */
  lemma TrackStep<R>(s: State<R>, step: Step<R>, t: State<R>)
    requires Next(s, step) == Some(t)
    ensures |s.sent| <= |t.sent|
    ensures if step.Hand? then t.got == TakeOne(s.got) && s.got.next < |s.sent| && Unread(s) <= CAPACITY
            else if step.Skip? then t.got == JumpTo(s.got, |s.sent| - CAPACITY) && Unread(s) > CAPACITY
            else t.got == s.got
    ensures if step.Hand? then t.given == s.given + [s.sent[s.got.next]] else t.given == s.given
  {
  }

  lemma OrderedStep<R>(s: State<R>, step: Step<R>, t: State<R>)
    requires Ordered(s.got) && s.got.next <= |s.sent| && Next(s, step) == Some(t)
    ensures Ordered(t.got) && s.got.next <= t.got.next <= |t.sent|
  {
    TrackStep(s, step, t);
    if step.Hand? { TakeOneOrdered(s.got); }
    if step.Skip? { JumpToOrdered(s.got, |s.sent| - CAPACITY); }
  }

  lemma GivenStep<R>(s: State<R>, step: Step<R>, t: State<R>)
    requires Ordered(s.got) && Embeds(s.given, s.sent, s.got.handed) && Next(s, step) == Some(t)
    ensures Embeds(t.given, t.sent, t.got.handed)
  {
    TrackStep(s, step, t);
    SentStep(s, step, t);
  }

  lemma EndQueue(d: Desk)
    requires QueueKept(d)
    ensures QueueKept(End(d)) && forall f :: f in d.flushes ==> !End(d).flushes[f].Queued?
  {
  }

  lemma EnqueueQueue(d: Desk, f: nat)
    requires QueueKept(d) && f in d.flushes && d.flushes[f].Called?
    ensures QueueKept(EnqueueFlush(d, f))
  {
    assert f !in d.queue;
  }

  lemma TakeQueue(d: Desk)
    requires QueueKept(d) && d.mode.Flushes? && d.queue != []
    ensures QueueKept(TakeFlush(d))
  {
  }

  lemma AnswerQueue(d: Desk)
    requires QueueKept(d) && d.mode.Drain?
    ensures QueueKept(Answer(d))
  {
  }

  lemma QueueStep<R>(s: State<R>, step: Step<R>, t: State<R>)
    requires QueueKept(s.desk) && Next(s, step) == Some(t)
    ensures QueueKept(t.desk)
  {
    match step
    case Hand(more) => EndQueue(s.desk);
    case Enqueue(f) => EnqueueQueue(s.desk, f);
    case NoRecord => if s.desk.mode.Drain? { AnswerQueue(s.desk); }
    case Poll => if s.desk.queue != [] { TakeQueue(s.desk); } else { EndQueue(s.desk); }
    case _ =>
  }

  lemma BarrierStep<R>(s: State<R>, step: Step<R>, t: State<R>)
    requires BarrierKept(s.desk, s.got.next, |s.sent|) && s.got.next <= |s.sent| && Next(s, step) == Some(t)
    requires s.refused ==> s.desk.mode == Ended
    ensures BarrierKept(t.desk, t.got.next, |t.sent|) && (t.refused ==> t.desk.mode == Ended)
  {
  }

  lemma StepKept<R>(s: State<R>, step: Step<R>, t: State<R>)
    requires Kept(s) && Next(s, step) == Some(t)
    ensures Kept(t)
  {
    OrderedStep(s, step, t);
    GivenStep(s, step, t);
    QueueStep(s, step, t);
    BarrierStep(s, step, t);
  }

  /** The invariants hold at every moment of every run. */
  lemma {:induction false} AllKept<R>(steps: seq<Step<R>>, k: nat)
    requires IsRun(steps) && k <= |steps|
    ensures Kept(At(steps, k))
    decreases k
  {
    if k == 0 {
      StartKept<R>();
    } else {
      AllKept(steps, k - 1);
      AtStep(steps, k - 1);
      StepKept(At(steps, k - 1), steps[k - 1], At(steps, k));
    }
  }

  lemma AtNext<R>(steps: seq<Step<R>>, k: nat)
    requires IsRun(steps) && k < |steps|
    ensures Next(At(steps, k), steps[k]) == Some(At(steps, k + 1)) && Kept(At(steps, k)) && Kept(At(steps, k + 1))
  {
    AtStep(steps, k);
    AllKept(steps, k);
    AllKept(steps, k + 1);
  }

  // ---- what is sent, and what is passed ----

  /** The records of the `Send` steps, in order. */
  function Sends<R>(steps: seq<Step<R>>): (r: seq<R>) {
    if steps == [] then []
    else
      var last := steps[|steps| - 1];
      Sends(steps[..|steps| - 1]) + if last.Send? then [last.record] else []
  }

  lemma SendsNext<R>(steps: seq<Step<R>>, k: nat)
    requires k < |steps|
    ensures Sends(steps[..k + 1]) == Sends(steps[..k]) + if steps[k].Send? then [steps[k].record] else []
  {
    assert steps[..k + 1][..k] == steps[..k];
  }

  /** What was sent by an earlier moment is a prefix of what was sent by a later one. */
  lemma {:induction false} SendsGrow<R>(steps: seq<Step<R>>, j: nat, k: nat)
    requires j <= k <= |steps|
    ensures Sends(steps[..j]) <= Sends(steps[..k])
    decreases k
  {
    if j < k {
      SendsGrow(steps, j, k - 1);
      SendsNext(steps, k - 1);
    }
  }

  /** Each `Send` is at the place of the number of them before it. */
  lemma SendsAt<R>(steps: seq<Step<R>>, j: nat, k: nat)
    requires j < k <= |steps| && steps[j].Send?
    ensures |Sends(steps[..j])| < |Sends(steps[..k])|
    ensures Sends(steps[..k])[|Sends(steps[..j])|] == steps[j].record
  {
    SendsNext(steps, j);
    SendsGrow(steps, j + 1, k);
  }

  /** At every moment the sink has been sent what the run has sent by then, in its order. */
  lemma {:induction false} SentInOrder<R>(steps: seq<Step<R>>, k: nat)
    requires IsRun(steps) && k <= |steps|
    ensures At(steps, k).sent == Sends(steps[..k])
    decreases k
  {
    if k > 0 {
      SentInOrder(steps, k - 1);
      SendsNext(steps, k - 1);
      AtNext(steps, k - 1);
      SentStep(At(steps, k - 1), steps[k - 1], At(steps, k));
    }
  }

  lemma SentStep<R>(s: State<R>, step: Step<R>, t: State<R>)
    requires Next(s, step) == Some(t)
    ensures t.sent == s.sent + if step.Send? then [step.record] else []
  {
  }

  /** Sending never waits and changes nothing else. */
  lemma SendsAlways<R>(s: State<R>, record: R)
    ensures Next(s, Send(record)) == Some(s.(sent := s.sent + [record]))
  {
  }

  /** The number of records passed by the first `k` steps: handed on, or reported as lost. */
  function Passed<R>(steps: seq<Step<R>>, k: nat): (n: int)
    requires IsRun(steps) && k <= |steps|
  {
    |At(steps, k).given| + LagCount(At(steps, k).got.lags)
  }

  /**
   A receive gives the oldest record that has not been passed, and it is among the newest
   `CAPACITY` of those sent by then.
  */
  lemma HandGives<R>(steps: seq<Step<R>>, k: nat)
    requires IsRun(steps) && k < |steps| && steps[k].Hand?
    ensures 0 <= Passed(steps, k) < |Sends(steps[..k])| <= Passed(steps, k) + CAPACITY
    ensures At(steps, k + 1).given == At(steps, k).given + [Sends(steps[..k])[Passed(steps, k)]]
    ensures At(steps, k + 1).got.lags == At(steps, k).got.lags
  {
    AtNext(steps, k);
    SentInOrder(steps, k);
    TrackStep(At(steps, k), steps[k], At(steps, k + 1));
  }

  /** A lag report counts exactly the records overwritten before they were read; what is left is still there. */
  lemma SkipReports<R>(steps: seq<Step<R>>, k: nat)
    requires IsRun(steps) && k < |steps| && steps[k].Skip?
    ensures Passed(steps, k + 1) == |Sends(steps[..k])| - CAPACITY > Passed(steps, k) >= 0
    ensures At(steps, k + 1).got.lags == At(steps, k).got.lags + [Lag(Passed(steps, k), Passed(steps, k + 1))]
    ensures At(steps, k + 1).given == At(steps, k).given
  {
    AtNext(steps, k);
    SentInOrder(steps, k);
    TrackStep(At(steps, k), steps[k], At(steps, k + 1));
  }

  /** No other step hands a record on or reports one as lost. */
  lemma OthersPass<R>(steps: seq<Step<R>>, k: nat)
    requires IsRun(steps) && k < |steps| && !steps[k].Hand? && !steps[k].Skip?
    ensures At(steps, k + 1).given == At(steps, k).given && At(steps, k + 1).got.lags == At(steps, k).got.lags
  {
    AtNext(steps, k);
    TrackStep(At(steps, k), steps[k], At(steps, k + 1));
  }

  // ---- the barrier ----

  /** `before` is the number of records sent when the flush was called, from then on. */
  lemma {:induction false} CallCounts<R>(steps: seq<Step<R>>, j: nat, k: nat, f: nat)
    requires IsRun(steps) && j <= k <= |steps| && f in At(steps, j).desk.flushes
    ensures f in At(steps, k).desk.flushes
    ensures At(steps, k).desk.flushes[f].before == At(steps, j).desk.flushes[f].before
    decreases k
  {
    if j < k {
      CallCounts(steps, j, k - 1, f);
      AtStep(steps, k - 1);
      StepCounts(At(steps, k - 1), steps[k - 1], f);
    }
  }

  lemma StepCounts<R>(s: State<R>, step: Step<R>, f: nat)
    requires Next(s, step).Some? && f in s.desk.flushes
    ensures var t := Next(s, step).value; f in t.desk.flushes && t.desk.flushes[f].before == s.desk.flushes[f].before
  {
  }

  /** Step `m` hands on the record with `p` sent before it, or reports it as lost. */
  ghost predicate PassedBy<R>(steps: seq<Step<R>>, m: nat, p: nat)
    requires IsRun(steps)
  {
    m < |steps| && p < |Sends(steps[..m])| &&
    if steps[m].Hand? then
      Passed(steps, m) == p && At(steps, m + 1).given == At(steps, m).given + [Sends(steps[..m])[p]]
    else
      steps[m].Skip? && Passed(steps, m) <= p < |Sends(steps[..m])| - CAPACITY
  }

  lemma {:induction false} FindPass<R>(steps: seq<Step<R>>, k: nat, p: nat) returns (m: nat)
    requires IsRun(steps) && k <= |steps| && p < Passed(steps, k)
    ensures m < k && PassedBy(steps, m, p)
    decreases k
  {
    m := k - 1;
    if steps[m].Hand? { HandGives(steps, m); }
    else if steps[m].Skip? { SkipReports(steps, m); }
    else { OthersPass(steps, m); }
    if p < Passed(steps, m) { m := FindPass(steps, m, p); }
  }

  /** At the moment of the call, a flush counts what has been sent. */
  lemma CallSees<R>(steps: seq<Step<R>>, k: nat, f: nat)
    requires IsRun(steps) && k < |steps| && steps[k] == Call(f)
    ensures var t := Last(steps);
            f in t.desk.flushes && t.desk.flushes[f].before == |Sends(steps[..k])|
  {
    AtNext(steps, k);
    SentInOrder(steps, k);
    CallCounts(steps, k + 1, |steps|, f);
  }

  /**
   The barrier, over every interleaving: when a flush that was called at step `k` has
   resolved while the forwarder ran, every record sent before that step has been handed on
   or is counted in a lag report.
  */
  lemma FlushBarrier<R>(steps: seq<Step<R>>, k: nat, f: nat, j: nat) returns (m: nat)
    requires IsRun(steps) && j < k < |steps| && steps[j].Send? && steps[k] == Call(f)
    requires f in Last(steps).desk.flushes
    requires var x := Last(steps).desk.flushes[f]; x.Resolved? && x.live
    ensures j < m < |steps| && PassedBy(steps, m, |Sends(steps[..j])|)
    ensures steps[m].Hand? ==> At(steps, m + 1).given == At(steps, m).given + [steps[j].record]
  {
    var p := |Sends(steps[..j])|;
    AllKept(steps, |steps|);
    CallSees(steps, k, f);
    SendsAt(steps, j, k);
    m := FindPass(steps, |steps|, p);
    if m <= j { SendsGrow(steps, m, j); }
    SendsAt(steps, j, m);
  }

  /** A flush that resolved otherwise did so because the forwarder has ended. */
  lemma FlushOfEnded<R>(steps: seq<Step<R>>, f: nat)
    requires IsRun(steps) && f in Last(steps).desk.flushes
    ensures var s := Last(steps);
            s.desk.flushes[f].Resolved? && !s.desk.flushes[f].live ==> s.desk.mode == Ended
  {
    AllKept(steps, |steps|);
  }

  // ---- order and conservation ----

  /** `a` is what remains of `b` when some elements are left out. */
  ghost predicate Subsequence<R>(a: seq<R>, b: seq<R>) {
    exists at: seq<nat> :: Embeds(a, b, at)
  }

  /**
   In every run the records given to `on_record` are a subsequence of those sent, each
   once, and handed + counted as lost + unread is what was sent.
  */
  lemma SinkConserves<R>(steps: seq<Step<R>>)
    requires IsRun(steps)
    ensures var s := Last(steps);
            Subsequence(s.given, Sends(steps)) &&
            |s.given| + LagCount(s.got.lags) + Unread(s) == |Sends(steps)| && Unread(s) >= 0
  {
    var s := Last(steps);
    AllKept(steps, |steps|);
    SentInOrder(steps, |steps|);
    assert steps[..|steps|] == steps;
    assert Embeds(s.given, Sends(steps), s.got.handed);
  }

  /** No moment of the run has more unread records than the ring holds. */
  ghost predicate WithinCapacity<R>(steps: seq<Step<R>>)
    requires IsRun(steps)
  {
    forall k: nat :: k <= |steps| ==> |Sends(steps[..k])| - Passed(steps, k) <= CAPACITY
  }

  /** While that is so, nothing is lost: what has been handed on is the beginning of what was sent. */
  lemma NothingLostWithinCapacity<R>(steps: seq<Step<R>>)
    requires IsRun(steps) && WithinCapacity(steps)
    ensures var s := Last(steps); s.got.lags == [] && s.given <= Sends(steps)
  {
    var s := Last(steps);
    AllKept(steps, |steps|);
    SentInOrder(steps, |steps|);
    assert steps[..|steps|] == steps;
    NoLag(steps, |steps|);
    AllHanded(s.got);
  }

  lemma {:induction false} NoLag<R>(steps: seq<Step<R>>, k: nat)
    requires IsRun(steps) && WithinCapacity(steps) && k <= |steps|
    ensures At(steps, k).got.lags == []
    decreases k
  {
    if k > 0 {
      NoLag(steps, k - 1);
      if steps[k - 1].Hand? { HandGives(steps, k - 1); }
      else if steps[k - 1].Skip? { SkipReports(steps, k - 1); }
      else { OthersPass(steps, k - 1); }
    }
  }

  lemma AllHanded(k: Track)
    requires Ordered(k) && k.lags == []
    ensures k.handed == seq(k.next, i => i)
  {
    forall p | 0 <= p < k.next ensures p in k.handed { assert !IsLost(k, p); }
    Ascending(k.handed, k.next);
  }

  /** An ascending sequence of all numbers below `n` is 0, 1, 2, … */
  lemma {:induction false} Ascending(a: seq<nat>, n: nat)
    requires forall i, j :: 0 <= i < j < |a| ==> a[i] < a[j]
    requires forall i :: 0 <= i < |a| ==> a[i] < n
    requires forall p :: 0 <= p < n ==> p in a
    ensures a == seq(n, i => i)
    decreases n
  {
    assert a == [] || 0 <= a[0] < n;
    if n > 0 {
      assert n - 1 in a;
      var k :| 0 <= k < |a| && a[k] == n - 1;
      assert k == |a| - 1;
      var front := a[..k];
      assert a == front + [n - 1];
      forall p | 0 <= p < n - 1 ensures p in front {
        assert p in a;
        var i :| 0 <= i < |a| && a[i] == p;
        assert front[i] == p;
      }
      Ascending(front, n - 1);
    }
  }

  /** Once the forwarder has ended, it hands nothing on and reports nothing. */
  lemma {:induction false} NothingAfterEnd<R>(steps: seq<Step<R>>, j: nat, k: nat)
    requires IsRun(steps) && j <= k <= |steps| && At(steps, j).desk.mode == Ended
    ensures var s, t := At(steps, j), At(steps, k);
            t.desk.mode == Ended && t.given == s.given && t.got == s.got
    decreases k
  {
    if j < k {
      NothingAfterEnd(steps, j, k - 1);
      AtStep(steps, k - 1);
      EndedStays(At(steps, k - 1), steps[k - 1], At(steps, k));
    }
  }

  lemma EndedStays<R>(s: State<R>, step: Step<R>, t: State<R>)
    requires s.desk.mode == Ended && Next(s, step) == Some(t)
    ensures t.desk.mode == Ended && t.given == s.given && t.got == s.got
  {
  }

  /** `on_record` returning false ends the forwarder, and no flush is left waiting. */
  lemma RefusalEnds<R>(s: State<R>, t: State<R>)
    requires Next(s, Hand(false)) == Some(t)
    ensures t.desk.mode == Ended && t.refused && t.got == TakeOne(s.got)
    ensures forall f :: f in t.desk.flushes ==> !t.desk.flushes[f].Queued?
  {
  }

  // ---- no flush is left unanswered ----

  /** What the forwarder does next when left alone with an `on_record` that goes on. */
  function Forward<R>(s: State<R>): (r: Step<R>) {
    if s.desk.mode.Flushes? then Poll
    else if Unread(s) == 0 then NoRecord
    else if Unread(s) <= CAPACITY then Hand(true)
    else Skip
  }

  function Forwards<R>(s: State<R>, n: nat): (r: Option<State<R>>)
    decreases n
  {
    if n == 0 then Some(s)
    else match Next(s, Forward(s))
      case None => None
      case Some(t) => Forwards(t, n - 1)
  }

  function IndexOf(f: nat, queue: seq<nat>): (i: nat)
    requires f in queue
    ensures i < |queue| && queue[i] == f
  {
    if queue[0] == f then 0 else 1 + IndexOf(f, queue[1..])
  }

  /** How many turns of the loop are left before the forwarder answers `f`. */
  ghost function Ahead(d: Desk, f: nat): (r: nat)
    requires QueueKept(d) && f in d.flushes && d.flushes[f].Queued?
  {
    if d.mode == Drain(f) then 0
    else 3 * (IndexOf(f, d.queue) + 1) + (if d.mode.Drain? then 2 else if d.mode.Receive? then 1 else 0)
  }

  lemma ForwardMoves<R>(s: State<R>, f: nat)
    requires Kept(s) && f in s.desk.flushes && s.desk.flushes[f].Queued?
    ensures Next(s, Forward(s)).Some? && Kept(Next(s, Forward(s)).value)
  {
    StepKept(s, Forward(s), Next(s, Forward(s)).value);
  }

  lemma TakeCloser(d: Desk, f: nat)
    requires QueueKept(d) && d.mode.Flushes? && d.queue != [] && f in d.flushes && d.flushes[f].Queued?
    ensures QueueKept(TakeFlush(d)) && Ahead(TakeFlush(d), f) < Ahead(d, f)
  {
    TakeQueue(d);
    if d.queue[0] != f { assert IndexOf(f, d.queue) == 1 + IndexOf(f, d.queue[1..]); }
  }

  lemma ForwardDoes<R>(s: State<R>, f: nat, t: State<R>)
    requires Kept(s) && f in s.desk.flushes && s.desk.flushes[f].Queued? && Next(s, Forward(s)) == Some(t)
    ensures if s.desk.mode.Flushes? then s.desk.queue != [] && t.desk == TakeFlush(s.desk)
            else if s.desk.mode.Receive? && Unread(s) == 0 then t.desk == s.desk.(mode := Flushes)
            else if Unread(s) == 0 then s.desk.mode.Drain? && t.desk == Answer(s.desk)
            else t.desk == s.desk && 0 <= Unread(t) < Unread(s)
  {
  }

  /** A step brings the answer closer or is the answer. */
  ghost predicate Closer(d: Desk, u: int, e: Desk, v: int, f: nat)
    requires QueueKept(d) && f in d.flushes && d.flushes[f].Queued? && QueueKept(e)
  {
    f in e.flushes &&
    if e.flushes[f].Queued? then
      e.flushes[f] == d.flushes[f] && (Ahead(e, f) < Ahead(d, f) || (Ahead(e, f) == Ahead(d, f) && 0 <= v < u))
    else e.flushes[f] == Resolved(d.flushes[f].before, true)
  }

  lemma ForwardCloser<R>(s: State<R>, f: nat, t: State<R>)
    requires Kept(s) && f in s.desk.flushes && s.desk.flushes[f].Queued?
    requires Next(s, Forward(s)) == Some(t) && QueueKept(t.desk)
    ensures Closer(s.desk, Unread(s), t.desk, Unread(t), f)
  {
    ForwardDoes(s, f, t);
    if s.desk.mode.Flushes? { TakeCloser(s.desk, f); }
  }

  /**
   Left alone, the forwarder answers every flush that is waiting for it: a flush
   never hangs on records that keep the ring busy before it.
  */
  lemma FlushAnswered<R>(s: State<R>, f: nat) returns (n: nat)
    requires Kept(s) && f in s.desk.flushes && s.desk.flushes[f].Queued?
    ensures Forwards(s, n).Some?
    ensures f in Forwards(s, n).value.desk.flushes
    ensures Forwards(s, n).value.desk.flushes[f] == Resolved(s.desk.flushes[f].before, true)
    decreases Ahead(s.desk, f), Unread(s)
  {
    ForwardMoves(s, f);
    var next := Next(s, Forward(s));
    var t := next.value;
    ForwardCloser(s, f, t);
    var m := 0;
    if t.desk.flushes[f].Queued? { m := FlushAnswered(t, f); }
    n := m + 1;
    assert Forwards(s, n) == Forwards(t, m);
  }

  // ---- the barrier's drop ends the forwarder ----

  function Turns(d: Desk): (n: nat) {
    3 * |d.queue| +
    match d.mode case Ended => 0 case Flushes => 1 case Receive => 2 case Drain(_) => 3
  }

  lemma ForwardEnds<R>(s: State<R>, t: State<R>)
    requires Kept(s) && !s.barrier && s.desk.mode != Ended && Next(s, Forward(s)) == Some(t)
    ensures !t.barrier && (t.desk.mode == Ended || Turns(t.desk) < Turns(s.desk) ||
                           (t.desk == s.desk && 0 <= Unread(t) < Unread(s)))
  {
  }

  /** Once the barrier is dropped, the forwarder left alone ends, and no flush is left waiting. */
  lemma DropEnds<R>(s: State<R>) returns (n: nat)
    requires Kept(s) && !s.barrier
    ensures Forwards(s, n).Some? && Forwards(s, n).value.desk.mode == Ended
    ensures forall f :: f in Forwards(s, n).value.desk.flushes ==> !Forwards(s, n).value.desk.flushes[f].Queued?
    decreases Turns(s.desk), Unread(s)
  {
    if s.desk.mode == Ended {
      n := 0;
    } else {
      var t := Next(s, Forward(s)).value;
      StepKept(s, Forward(s), t);
      ForwardEnds(s, t);
      var m := 0;
      if t.desk.mode != Ended { m := DropEnds(t); }
      n := m + 1;
      assert Forwards(s, n) == Forwards(t, m);
    }
  }
}
