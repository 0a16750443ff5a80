/**
 Cache-or-fetch (src/application/observe.rs:19-59): `Observe` over one store, and any
 number of calls interleaved over it, one store operation at a time, each of which can
 fail. The store's rules are those of src/ports/observation.rs:16-40.
*/
module Observe {
  import opened Prelude

  datatype Status = Good | Partial | Absent | Error
  datatype Source = Live | Cached | Stream

  datatype Obs = Obs(
    key: string, at: int, slot: Option<nat>, ttl: nat, source: Source, status: Status,
    body: Option<string>)                   // none when the value did not serialize

  /** What a fetch reads; a value that does not serialize makes an `Error` row. */
  datatype Value = Value(key: string, slot: Option<nat>, status: Status, body: string, serializes: bool)

  datatype Query = Query(key: string, maxAge: nat, now: int)

  const I64_MAX: int := 0x7fff_ffff_ffff_ffff

  /** Saturating: a row from the future has age 0. */
  function Age(o: Obs, now: int): (r: nat) {
    if now <= o.at then 0 else if now - o.at > I64_MAX then I64_MAX else now - o.at
  }

  predicate Fresh(o: Obs, q: Query) {
    var limit := if o.ttl < q.maxAge then o.ttl else q.maxAge;
    limit > 0 && !o.status.Error? && Age(o, q.now) <= limit
  }

  /**
   Fresh, spelled out: usable, of a positive ttl, asked with a positive age, and neither the
   ttl nor the asked age has passed since it was read; `i64` differences saturate.
  */
  lemma FreshExactly(o: Obs, q: Query)
    ensures Fresh(o, q) <==> FreshRow(o, q)
  {
  }

  predicate FreshRow(o: Obs, q: Query) {
    o.status != Error && o.ttl > 0 && q.maxAge > 0 &&
    (q.now - o.at <= o.ttl || o.ttl >= I64_MAX) && (q.now - o.at <= q.maxAge || q.maxAge >= I64_MAX)
  }

  /** The live read of a value: its own key, slot and body, read now; `Error` when it does not serialize. */
  predicate IsLiveRead(o: Obs, v: Value, q: Query, ttl: nat) {
    o.key == v.key && o.at == q.now && o.slot == v.slot && o.ttl == ttl && o.source == Live &&
    if v.serializes then o.status == v.status && o.body == Some(v.body) else o.status == Error && o.body == None
  }

  function FromCache(o: Obs): (r: Obs) { if o.source.Live? then o.(source := Cached) else o }

  function LiveObs(v: Value, q: Query, ttl: nat): (r: Obs) {
    Obs(v.key, q.now, v.slot, ttl, Live, if v.serializes then v.status else Error,
        if v.serializes then Some(v.body) else None)
  }

  predicate Cacheable(o: Obs) { !o.status.Error? && o.ttl > 0 }

  /** An upsert: ignored for `Error` rows and when it would take the slot back. */
  function Upsert(cache: map<string, Obs>, o: Obs): (r: map<string, Obs>) {
    if o.status.Error? then cache
    else if o.key in cache && cache[o.key].slot.Some? && o.slot.Some? && o.slot.value < cache[o.key].slot.value
    then cache
    else cache[o.key := o]
  }

  // ---- one call ----

  class Store {
    var cache: map<string, Obs>
    var history: seq<Obs>

    constructor ()
      ensures cache == map[] && history == []
    {
      cache, history := map[], [];
    }

    method Get(key: string) returns (r: Result<Option<Obs>, ()>)
      ensures r.Ok? ==> r.value == if key in cache then Some(cache[key]) else None
    {
      var fails := *;
      r := if fails then Err(()) else Ok(if key in cache then Some(cache[key]) else None);
    }

    method Record(o: Obs) returns (ok: bool)
      modifies this`history
      ensures history == if ok then old(history) + [o] else old(history)
    {
      ok := *;
      if ok { history := history + [o]; }
    }

    method Put(o: Obs) returns (ok: bool)
      modifies this`cache
      ensures cache == if ok then Upsert(old(cache), o) else old(cache)
      ensures !ok || o.status == Error ==> cache == old(cache)
      ensures ok && o.status != Error ==>
                if o.key in old(cache) && old(cache)[o.key].slot.Some? && o.slot.Some? &&
                   old(cache)[o.key].slot.value > o.slot.value
                then cache == old(cache) else cache == old(cache)[o.key := o]
    {
      ok := *;
      if ok { cache := Upsert(cache, o); }
    }
  }

  /** How one call alone may go from one store to the next. */
  datatype Outcome =
    | Hit                                                  // a fresh row is served
    | Missed(failed: bool, fetched: Option<(Value, nat)>, recorded: bool, stored: bool)  // failed: the read did

  function ResultOf(cache: map<string, Obs>, q: Query, how: Outcome): (r: Option<Obs>)
    requires how.Hit? ==> q.key in cache
  {
    match how
    case Hit => Some(FromCache(cache[q.key]))
    case Missed(_, None, _, _) => None
    case Missed(_, Some(f), _, _) => Some(LiveObs(f.0, q, f.1))
  }

  predicate HasFresh(cache: map<string, Obs>, q: Query) { q.key in cache && Fresh(cache[q.key], q) }

  /** A fresh row is served unless it cannot be read. */
  predicate Possible(cache: map<string, Obs>, q: Query, how: Outcome) {
    match how
    case Hit => HasFresh(cache, q)
    case Missed(failed, _, _, _) => failed || !HasFresh(cache, q)
  }

  /** The store, if there is one, after a call. */
  function CacheAfter(cache: map<string, Obs>, q: Query, how: Outcome): (r: map<string, Obs>) {
    if how.Missed? && how.fetched.Some? && how.stored && Cacheable(LiveObs(how.fetched.value.0, q, how.fetched.value.1))
    then Upsert(cache, LiveObs(how.fetched.value.0, q, how.fetched.value.1)) else cache
  }

  function HistoryAfter(history: seq<Obs>, q: Query, how: Outcome): (r: seq<Obs>) {
    if how.Missed? && how.fetched.Some? && how.recorded
    then history + [LiveObs(how.fetched.value.0, q, how.fetched.value.1)] else history
  }

  /** The fresh cached row, else a live read, recorded and stored where it may be. */
  method Observe(store: Store?, q: Query, fetch: Option<(Value, nat)>) returns (r: Option<Obs>, how: Outcome)
    modifies store
    ensures how.Missed? ==> how.fetched == fetch
    ensures store == null ==> how.Missed? && !how.failed && r == ResultOf(map[], q, how)
    ensures store != null ==>
              Possible(old(store.cache), q, how) && r == ResultOf(old(store.cache), q, how) &&
              store.cache == CacheAfter(old(store.cache), q, how) &&
              store.history == HistoryAfter(old(store.history), q, how)
    ensures how.Hit? ==>
              store != null && q.key in old(store.cache) && FreshRow(old(store.cache)[q.key], q) &&
              var row := old(store.cache)[q.key];
              r == Some(if row.source == Live then row.(source := Cached) else row)
    ensures store != null && how.Missed? && !how.failed ==>
              !(q.key in old(store.cache) && FreshRow(old(store.cache)[q.key], q))
    ensures how.Missed? ==>
              if fetch.None? then r.None? else r.Some? && IsLiveRead(r.value, fetch.value.0, q, fetch.value.1)
    ensures store != null && how.Missed? && fetch.Some? ==>
              store.history == old(store.history) + (if how.recorded then [r.value] else []) &&
              store.cache == if how.stored && r.value.status != Error && r.value.ttl > 0
                             then Upsert(old(store.cache), r.value) else old(store.cache)
  {
    var failed := false;
    if store != null {
      var row := store.Get(q.key);
      if row.Ok? && row.value.Some? && Fresh(row.value.value, q) {
        return Some(FromCache(row.value.value)), Hit;
      }
      failed := row.Err?;
    }
    if fetch.None? { return None, Missed(failed, fetch, false, false); }
    var o := LiveObs(fetch.value.0, q, fetch.value.1);
    var recorded, stored := false, false;
    if store != null {
      recorded := store.Record(o);
      if !o.status.Error? && o.ttl > 0 { stored := store.Put(o); }
    }
    return Some(o), Missed(failed, fetch, recorded, stored);
  }

  // ---- calls interleaved over one store ----

  datatype Phase =
    | Asked(q: Query)
    | Fetching(q: Query)
    | Offering(q: Query, o: Obs)
    | Storing(q: Query, o: Obs)
    | Done(q: Query, r: Option<Obs>, fetched: bool)

  /** Which calls fetched, in order, what, and which of them the history took. */
  datatype Journal = Journal(fetched: seq<nat>, results: map<nat, Obs>, kept: seq<nat>, lost: set<nat>)

  datatype State = State(cache: map<string, Obs>, history: seq<Obs>, calls: map<nat, Phase>, j: Journal)

  datatype Step =
    | Begin(i: nat, q: Query)
    | GetStep(i: nat, fails: bool)
    | FetchStep(i: nat, fetch: Option<(Value, nat)>)
    | RecordStep(i: nat, fails: bool)
    | PutStep(i: nat, fails: bool)

  const START: State := State(map[], [], map[], Journal([], map[], [], {}))

  predicate Enabled(s: State, step: Step) {
    if step.Begin? then step.i !in s.calls
    else
      step.i in s.calls &&
      match step
      case GetStep(i, _) => s.calls[i].Asked?
      case FetchStep(i, _) => s.calls[i].Fetching?
      case RecordStep(i, _) => s.calls[i].Offering?
      case PutStep(i, _) => s.calls[i].Storing?
  }

  function Next(s: State, step: Step): (r: State)
    requires Enabled(s, step)
  {
    match step
    case Begin(i, q) => s.(calls := s.calls[i := Asked(q)])
    case GetStep(i, fails) =>
      var q := s.calls[i].q;
      s.(calls := s.calls[i := if !fails && HasFresh(s.cache, q)
                               then Done(q, Some(FromCache(s.cache[q.key])), false) else Fetching(q)])
    case FetchStep(i, fetch) =>
      var q := s.calls[i].q;
      if fetch.None? then s.(calls := s.calls[i := Done(q, None, false)])
      else
        var o := LiveObs(fetch.value.0, q, fetch.value.1);
        s.(calls := s.calls[i := Offering(q, o)],
           j := s.j.(fetched := s.j.fetched + [i], results := s.j.results[i := o]))
    case RecordStep(i, fails) =>
      var p := s.calls[i];
      s.(calls := s.calls[i := Storing(p.q, p.o)],
         history := if fails then s.history else s.history + [p.o],
         j := if fails then s.j.(lost := s.j.lost + {i}) else s.j.(kept := s.j.kept + [i]))
    case PutStep(i, fails) =>
      var p := s.calls[i];
      s.(calls := s.calls[i := Done(p.q, Some(p.o), true)],
         cache := if !fails && Cacheable(p.o) then Upsert(s.cache, p.o) else s.cache)
  }

  /** The state after a run, if every step of it could be taken. */
  function Run(s: State, steps: seq<Step>): (r: Option<State>)
    decreases |steps|
  {
    if steps == [] then Some(s)
    else
      var n := |steps| - 1;
      var r := Run(s, steps[..n]);
      if r.Some? && Enabled(r.value, steps[n]) then Some(Next(r.value, steps[n])) else None
  }

  // ---- what every run keeps ----

  /** Some call of the run read `o` live. */
  ghost predicate WasRead(j: Journal, o: Obs) { exists i :: i in j.results && j.results[i] == o }

  /** No `Error` and no ttl-0 row is cached, and every row was read live under its own key. */
  ghost predicate CacheKept(cache: map<string, Obs>, j: Journal) {
    forall k :: k in cache ==> cache[k].key == k && Cacheable(cache[k]) && WasRead(j, cache[k])
  }

  /** What is known of one call. */
  ghost predicate CallKept(j: Journal, i: nat, p: Phase) {
    match p
    case Asked(_) => i !in j.results
    case Fetching(_) => i !in j.results
    case Offering(q, o) => i in j.results && j.results[i] == o && o.at == q.now && i !in j.lost
    case Storing(q, o) => i in j.results && j.results[i] == o && o.at == q.now
    case Done(q, r, true) => i in j.results && r == Some(j.results[i]) && j.results[i].at == q.now
    case Done(q, None, false) => i !in j.results
    case Done(q, Some(o), false) => i !in j.results && ServedRow(j, q, o)
  }

  /** `o` is a row of the asked key that an earlier call read live, and it is fresh enough. */
  ghost predicate ServedRow(j: Journal, q: Query, o: Obs) {
    exists i :: i in j.results && o == FromCache(j.results[i]) && j.results[i].key == q.key &&
                Cacheable(j.results[i]) && Fresh(j.results[i], q)
  }

  ghost predicate CallsKept(s: State) {
    (forall i :: i in s.calls ==> CallKept(s.j, i, s.calls[i])) &&
    (forall i :: i in s.j.results ==> i in s.calls && s.j.results[i].source.Live?)
  }

  ghost predicate Offered(s: State, i: nat) { i in s.j.results && !(i in s.calls && s.calls[i].Offering?) }

  /** The history is the offered results that were not lost, each once. */
  ghost predicate HistoryKept(s: State) {
    |s.history| == |s.j.kept| &&
    (forall n :: 0 <= n < |s.j.kept| ==> s.j.kept[n] in s.j.results && s.history[n] == s.j.results[s.j.kept[n]]) &&
    (forall m, n :: 0 <= m < n < |s.j.kept| ==> s.j.kept[m] != s.j.kept[n]) &&
    (forall i :: Offered(s, i) <==> i in s.j.kept || i in s.j.lost) &&
    (forall i :: i in s.j.kept ==> i !in s.j.lost)
  }

  ghost predicate Kept(s: State) { CacheKept(s.cache, s.j) && CallsKept(s) && HistoryKept(s) }

  lemma CacheStep(s: State, step: Step)
    requires Kept(s) && Enabled(s, step)
    ensures CacheKept(Next(s, step).cache, Next(s, step).j)
  {
    var next := Next(s, step);
    forall k | k in next.cache
      ensures next.cache[k].key == k && Cacheable(next.cache[k]) && WasRead(next.j, next.cache[k])
    {
      var o := next.cache[k];
      if k in s.cache && s.cache[k] == o {
        var i :| i in s.j.results && s.j.results[i] == o;
        assert s.calls[i] == s.calls[i];
        assert next.j.results[i] == o;
      } else {
        assert CallKept(s.j, step.i, s.calls[step.i]);
        assert next.j.results[step.i] == o;
      }
    }
  }

  /** A row stays servable when more results come in. */
  lemma ServedStays(j: Journal, more: Journal, q: Query, o: Obs)
    requires ServedRow(j, q, o)
    requires forall i :: i in j.results ==> i in more.results && more.results[i] == j.results[i]
    ensures ServedRow(more, q, o)
  {
    var i :| i in j.results && o == FromCache(j.results[i]) && j.results[i].key == q.key &&
             Cacheable(j.results[i]) && Fresh(j.results[i], q);
    assert more.results[i] == j.results[i];
  }

  lemma OtherCall(s: State, step: Step, i: nat)
    requires CallsKept(s) && Enabled(s, step) && i in s.calls && i != step.i
    ensures CallKept(Next(s, step).j, i, Next(s, step).calls[i])
  {
    var next, p := Next(s, step), s.calls[i];
    assert CallKept(s.j, i, p);
    assert step.i in s.calls ==> CallKept(s.j, step.i, s.calls[step.i]);
    if p.Done? && !p.fetched && p.r.Some? { ServedStays(s.j, next.j, p.q, p.r.value); }
  }

  lemma HistoryStep(s: State, step: Step)
    requires Kept(s) && Enabled(s, step)
    ensures HistoryKept(Next(s, step))
  {
    var next := Next(s, step);
    assert step.i in s.calls ==> CallKept(s.j, step.i, s.calls[step.i]);
    forall i ensures Offered(next, i) <==> i in next.j.kept || i in next.j.lost {
      assert Offered(s, i) <==> i in s.j.kept || i in s.j.lost;
    }
  }

  lemma {:induction false} AllKept(steps: seq<Step>)
    requires Run(START, steps).Some?
    ensures Kept(Run(START, steps).value)
    decreases |steps|
  {
    if steps != [] {
      var n := |steps| - 1;
      AllKept(steps[..n]);
      var s := Run(START, steps[..n]).value;
      CacheStep(s, steps[n]);
      HistoryStep(s, steps[n]);
      forall i | i in Next(s, steps[n]).calls ensures CallKept(Next(s, steps[n]).j, i, Next(s, steps[n]).calls[i]) {
        if i != steps[n].i { OtherCall(s, steps[n], i); }
      }
    }
  }

  lemma StepResults(s: State, step: Step)
    requires Enabled(s, step)
    ensures var t := Next(s, step);
            forall i :: i in t.j.results && !(i in s.j.results && t.j.results[i] == s.j.results[i]) ==>
              step.FetchStep? && step.i == i && step.fetch.Some? && i in s.calls && i in t.calls &&
              t.calls[i].q == s.calls[i].q &&
              IsLiveRead(t.j.results[i], step.fetch.value.0, t.calls[i].q, step.fetch.value.1)
    ensures var t := Next(s, step);
            forall i :: i in t.calls && i !in s.calls ==> step == Begin(i, t.calls[i].q)
    ensures var t := Next(s, step); forall i :: i in s.calls ==> i in t.calls && t.calls[i].q == s.calls[i].q
  {
  }

  /** A live result is the read of what that call fetched. */
  lemma {:induction false} ResultsAreFetched(steps: seq<Step>, i: nat) returns (k: nat)
    requires Run(START, steps).Some? && i in Run(START, steps).value.j.results
    ensures k < |steps| && steps[k].FetchStep? && steps[k].i == i && steps[k].fetch.Some?
    ensures var s := Run(START, steps).value;
            i in s.calls &&
            IsLiveRead(s.j.results[i], steps[k].fetch.value.0, s.calls[i].q, steps[k].fetch.value.1)
    decreases |steps|
  {
    var n := |steps| - 1;
    var s := Run(START, steps[..n]).value;
    StepResults(s, steps[n]);
    if i in s.j.results && Next(s, steps[n]).j.results[i] == s.j.results[i] {
      k := ResultsAreFetched(steps[..n], i);
    } else {
      k := n;
    }
  }

  /** And a call asks what it began with. */
  lemma {:induction false} CallAsks(steps: seq<Step>, i: nat) returns (k: nat)
    requires Run(START, steps).Some? && i in Run(START, steps).value.calls
    ensures k < |steps| && steps[k] == Begin(i, Run(START, steps).value.calls[i].q)
    decreases |steps|
  {
    var n := |steps| - 1;
    var s := Run(START, steps[..n]).value;
    StepResults(s, steps[n]);
    if i in s.calls { k := CallAsks(steps[..n], i); } else { k := n; }
  }

  /** A call that can read the store serves a fresh row, and fetches otherwise. */
  lemma ReadDecides(s: State, i: nat, fails: bool)
    requires Enabled(s, GetStep(i, fails))
    ensures var q, p := s.calls[i].q, Next(s, GetStep(i, fails)).calls[i];
            if !fails && q.key in s.cache && FreshRow(s.cache[q.key], q) then
              var row := s.cache[q.key];
              p == Done(q, Some(if row.source == Live then row.(source := Cached) else row), false)
            else p == Fetching(q)
  {
  }

  /** The calls whose fetch brought a value, in the order of the fetches. */
  function FetchesOf(steps: seq<Step>): (r: seq<nat>) {
    if steps == [] then []
    else
      var last := steps[|steps| - 1];
      FetchesOf(steps[..|steps| - 1]) + if last.FetchStep? && last.fetch.Some? then [last.i] else []
  }

  /** The journal of a run is what its steps did: the fetches in order, and a loss only by a recorder that failed. */
  lemma {:induction false} JournalIsTheRun(steps: seq<Step>)
    requires Run(START, steps).Some?
    ensures var j := Run(START, steps).value.j;
            j.fetched == FetchesOf(steps) &&
            forall i :: i in j.lost <==> exists k :: 0 <= k < |steps| && steps[k] == RecordStep(i, true)
    decreases |steps|
  {
    if steps != [] {
      var n := |steps| - 1;
      JournalIsTheRun(steps[..n]);
      var was, j := Run(START, steps[..n]).value.j, Run(START, steps).value.j;
      forall i ensures i in j.lost <==> exists k :: 0 <= k < |steps| && steps[k] == RecordStep(i, true) {
        if i in was.lost {
          var k :| 0 <= k < n && steps[..n][k] == RecordStep(i, true);
          assert steps[k] == RecordStep(i, true);
        }
        if k :| 0 <= k < |steps| && steps[k] == RecordStep(i, true) {
          assert k < n ==> steps[..n][k] == RecordStep(i, true);
        }
      }
    }
  }

  /** In every run the cache holds usable live rows only, under their own keys. */
  lemma CacheHoldsLiveRows(steps: seq<Step>, k: string) returns (i: nat)
    requires Run(START, steps).Some? && k in Run(START, steps).value.cache
    ensures var s := Run(START, steps).value; var o := s.cache[k];
            o.key == k && !o.status.Error? && o.ttl > 0 && o.source.Live? && i in s.j.results && s.j.results[i] == o
  {
    AllKept(steps);
    var s := Run(START, steps).value;
    i :| i in s.j.results && s.j.results[i] == s.cache[k];
  }

  /**
   A call returns its own live read, or an earlier call's: of its key, marked as cached,
   and no older than it asked.
  */
  lemma ResultIsOwnOrFresh(steps: seq<Step>, i: nat) returns (from: nat)
    requires Run(START, steps).Some? && i in Run(START, steps).value.calls
    requires var p := Run(START, steps).value.calls[i]; p.Done? && p.r.Some?
    ensures var s := Run(START, steps).value; var p := s.calls[i]; var o := p.r.value;
            from in s.j.results &&
            if o.source.Live? then from == i && o == s.j.results[i] && o.at == p.q.now
            else
              from != i && o == s.j.results[from].(source := Cached) && o.key == p.q.key && !o.status.Error? &&
              0 < p.q.maxAge && Age(o, p.q.now) <= p.q.maxAge && Age(o, p.q.now) <= o.ttl
  {
    AllKept(steps);
    var s := Run(START, steps).value;
    var p := s.calls[i];
    assert CallKept(s.j, i, p);
    if p.fetched {
      from := i;
    } else {
      from :| from in s.j.results && p.r.value == FromCache(s.j.results[from]) && s.j.results[from].key == p.q.key &&
              Cacheable(s.j.results[from]) && Fresh(s.j.results[from], p.q);
    }
  }

  /** With a recorder that works, the history has every live result once, `Error` and ttl-0 rows included. */
  lemma HistoryIsComplete(steps: seq<Step>, i: nat) returns (n: nat)
    requires Run(START, steps).Some? && Run(START, steps).value.j.lost == {}
    requires Offered(Run(START, steps).value, i)
    ensures var s := Run(START, steps).value;
            |s.history| == |s.j.kept| && n < |s.history| && s.j.kept[n] == i && s.history[n] == s.j.results[i] &&
            forall m :: 0 <= m < |s.history| && s.j.kept[m] == i ==> m == n
  {
    AllKept(steps);
    var s := Run(START, steps).value;
    assert Offered(s, i);
    n :| 0 <= n < |s.j.kept| && s.j.kept[n] == i;
  }

  // ---- one call after the other ----

  predicate AllDone(calls: map<nat, Phase>) { forall i :: i in calls ==> calls[i].Done? }

  /** Each call begins when the calls before it are done. */
  predicate OneByOne(steps: seq<Step>)
    decreases |steps|
  {
    steps == [] ||
    var n := |steps| - 1;
    OneByOne(steps[..n]) &&
    (steps[n].Begin? && Run(START, steps[..n]).Some? ==> AllDone(Run(START, steps[..n]).value.calls))
  }

  /** What was fetched is in the history, but for the call that is about to offer it. */
  ghost predicate InOrder(s: State) {
    (forall i, k :: i in s.calls && k in s.calls && !s.calls[i].Done? && !s.calls[k].Done? ==> i == k) &&
    (s.j.lost == {} ==>
       (forall i :: i in s.calls && s.calls[i].Offering? ==> s.j.fetched == s.j.kept + [i]) &&
       ((forall i :: i in s.calls ==> !s.calls[i].Offering?) ==> s.j.fetched == s.j.kept))
  }

  lemma OrderStep(s: State, step: Step)
    requires InOrder(s) && Enabled(s, step) && (step.Begin? ==> AllDone(s.calls))
    ensures InOrder(Next(s, step))
  {
    var next := Next(s, step);
    assert forall i :: i in s.calls && i != step.i ==> s.calls[i].Done? && next.calls[i] == s.calls[i];
    assert !step.RecordStep? && step.i in s.calls ==> !s.calls[step.i].Offering?;
    assert !step.RecordStep? ==> forall i :: i in s.calls ==> !s.calls[i].Offering?;
    assert step.i in next.calls;
  }

  lemma {:induction false} OrderKept(steps: seq<Step>)
    requires Run(START, steps).Some? && OneByOne(steps)
    ensures InOrder(Run(START, steps).value)
    decreases |steps|
  {
    if steps != [] {
      var n := |steps| - 1;
      OrderKept(steps[..n]);
      OrderStep(Run(START, steps[..n]).value, steps[n]);
    }
  }

  /** Calls one after the other and a working recorder: the history is the live results in their order. */
  lemma HistoryIsTheReads(steps: seq<Step>)
    requires Run(START, steps).Some? && OneByOne(steps)
    requires Run(START, steps).value.j.lost == {} && AllDone(Run(START, steps).value.calls)
    ensures var s := Run(START, steps).value;
            |s.history| == |s.j.fetched| &&
            forall n :: 0 <= n < |s.history| ==>
              s.j.fetched[n] in s.j.results && s.history[n] == s.j.results[s.j.fetched[n]]
  {
    AllKept(steps);
    OrderKept(steps);
  }

  // ---- a call alone is a run of its steps ----

  function Script(i: nat, q: Query, how: Outcome): (steps: seq<Step>) {
    [Begin(i, q), GetStep(i, how.Missed? && how.failed)] + (if how.Hit? then [] else LiveScript(i, how))
  }

  function LiveScript(i: nat, how: Outcome): (steps: seq<Step>)
    requires how.Missed?
  {
    if how.fetched.None? then [FetchStep(i, None)]
    else [FetchStep(i, how.fetched), RecordStep(i, !how.recorded), PutStep(i, !how.stored)]
  }

  /** The steps of a run, one more at a time. */
  lemma RunSnoc(s: State, steps: seq<Step>, step: Step)
    requires Run(s, steps).Some? && Enabled(Run(s, steps).value, step)
    ensures Run(s, steps + [step]) == Some(Next(Run(s, steps).value, step))
  {
    assert (steps + [step])[..|steps|] == steps;
  }

  /** The read: it serves what is fresh, or leaves the call to fetch. */
  lemma ReadSteps(s: State, i: nat, q: Query, failed: bool)
    requires i !in s.calls
    ensures var r := Run(s, [Begin(i, q), GetStep(i, failed)]);
            r.Some? && r.value.cache == s.cache && r.value.history == s.history && i in r.value.calls &&
            r.value.calls[i] == if !failed && HasFresh(s.cache, q)
                                then Done(q, Some(FromCache(s.cache[q.key])), false) else Fetching(q)
  {
    RunSnoc(s, [], Begin(i, q));
    RunSnoc(s, [Begin(i, q)], GetStep(i, failed));
    assert [] + [Begin(i, q)] == [Begin(i, q)];
    assert [Begin(i, q)] + [GetStep(i, failed)] == [Begin(i, q), GetStep(i, failed)];
  }

  /** The live read after it. */
  lemma LiveSteps(s: State, steps: seq<Step>, i: nat, q: Query, how: Outcome)
    requires Run(s, steps).Some? && how.Missed?
    requires i in Run(s, steps).value.calls && Run(s, steps).value.calls[i] == Fetching(q)
    ensures var t, r := Run(s, steps).value, Run(s, steps + LiveScript(i, how));
            r.Some? && r.value.cache == CacheAfter(t.cache, q, how) &&
            r.value.history == HistoryAfter(t.history, q, how) &&
            i in r.value.calls && r.value.calls[i].Done? &&
            r.value.calls[i].r == (if how.fetched.None? then None else ResultOf(t.cache, q, how))
  {
    var fetch := FetchStep(i, how.fetched);
    RunSnoc(s, steps, fetch);
    if how.fetched.Some? {
      var record, put := RecordStep(i, !how.recorded), PutStep(i, !how.stored);
      RunSnoc(s, steps + [fetch], record);
      RunSnoc(s, steps + [fetch] + [record], put);
      assert steps + [fetch] + [record] + [put] == steps + LiveScript(i, how);
    }
  }

  /** What `Observe` may do to a store is what its steps do to it, uninterrupted. */
  lemma CallIsItsSteps(s: State, i: nat, q: Query, how: Outcome)
    requires i !in s.calls && Possible(s.cache, q, how)
    ensures var r := Run(s, Script(i, q, how));
            r.Some? && r.value.cache == CacheAfter(s.cache, q, how) &&
            r.value.history == HistoryAfter(s.history, q, how) &&
            i in r.value.calls && r.value.calls[i].Done? && r.value.calls[i].r == ResultOf(s.cache, q, how)
  {
    var failed := how.Missed? && how.failed;
    ReadSteps(s, i, q, failed);
    if how.Missed? {
      LiveSteps(s, [Begin(i, q), GetStep(i, failed)], i, q, how);
    } else {
      assert Script(i, q, how) == [Begin(i, q), GetStep(i, failed)];
    }
  }
}
