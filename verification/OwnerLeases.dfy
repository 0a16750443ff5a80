/**
 Taking and releasing the leases of one process (`OwnerLeases`,
 src/bootstrap/runtime.rs). Other processes use the same table between any two
 calls, so the store may give any answer at any call; what is proved is about the
 calls this process makes. `LeaseRuns` puts the processes together.
*/
module OwnerLeases {
  import opened Prelude
  import opened LeaseStore

  datatype Answer = Answered(reply: Reply) | Failed

  /** A call on the store, with how it ended. */
  datatype Call =
    | Take(resource: string, holder: string, ttl: int, now: int, answer: Answer)
    | Free(resource: string, holder: string, ok: bool)

  class RuntimeStore {
    ghost var calls: seq<Call>

    constructor ()
      ensures calls == []
    {
      calls := [];
    }

    /** Any reply is possible; a granted one names the caller as the holder. */
    method AcquireLease(resource: string, holder: string, ttl: int, now: int) returns (a: Answer)
      modifies this
      ensures calls == old(calls) + [Take(resource, holder, ttl, now, a)]
      ensures a.Answered? && a.reply.granted ==> a.reply.holder == holder && a.reply.expires == now + ttl
    {
      a := *;
      if Granted(a) { a := Answered(a.reply.(holder := holder, expires := now + ttl)); }
      calls := calls + [Take(resource, holder, ttl, now, a)];
    }

    method ReleaseLease(resource: string, holder: string) returns (ok: bool)
      modifies this
      ensures calls == old(calls) + [Free(resource, holder, ok)]
    {
      ok := *;
      calls := calls + [Free(resource, holder, ok)];
    }
  }

  /** Why `take` gave up: the lease another holder has, or a store error. */
  datatype Refusal = Held(wanted: Wanted, reply: Reply) | StoreError(wanted: Wanted)

  datatype Lease = Lease(resource: string, kind: LeaseKind, reply: Reply)

  predicate Granted(a: Answer) { a.Answered? && a.reply.granted }

  /** The calls that took `leases`, in order, each at its reading of the clock. */
  function Taken(holder: string, leases: seq<Lease>, ttl: int, clock: seq<int>): (calls: seq<Call>)
    requires |clock| >= |leases|
    ensures |calls| == |leases|
  {
    seq(|leases|, i requires 0 <= i < |leases| =>
      Take(leases[i].resource, holder, ttl, clock[i], Answered(leases[i].reply)))
  }

  /** One attempt to free each of `leases`, the last taken first. */
  ghost predicate Freed(holder: string, leases: seq<Lease>, calls: seq<Call>) {
    |calls| == |leases| &&
    forall i :: 0 <= i < |calls| ==>
      calls[i].Free? && calls[i].holder == holder && calls[i].resource == leases[|leases| - 1 - i].resource
  }

  /** `leases` are granted answers for the first resources of the plan. */
  ghost predicate Holds(holder: string, plan: seq<Wanted>, leases: seq<Lease>) {
    |leases| <= |plan| &&
    forall i :: 0 <= i < |leases| ==>
      leases[i].resource == plan[i].resource && leases[i].kind == plan[i].kind &&
      leases[i].reply.granted && leases[i].reply.holder == holder
  }

  class Owner {
    const store: RuntimeStore
    const holder: string
    var leases: seq<Lease>

    constructor (store: RuntimeStore, holder: string)
      ensures this.store == store && this.holder == holder && leases == []
    {
      this.store, this.holder, leases := store, holder, [];
    }

    /**
     All or none: with `None`, every resource of the plan was granted, in order, and
     nothing else was called; otherwise the attempt at one resource failed or was
     refused, and every lease granted before it was then freed, last first.
    */
    method TakeAll(plan: seq<Wanted>, ttl: int, clock: seq<int>)
      returns (refusal: Option<Refusal>, ghost got: seq<Lease>)
      requires leases == [] && |clock| >= |plan|
      modifies this, store
      ensures Holds(holder, plan, got)
      ensures refusal.None? ==>
                leases == got && |got| == |plan| && store.calls == old(store.calls) + Taken(holder, got, ttl, clock)
      ensures |store.calls| >= |old(store.calls)| + |got|
      ensures forall i :: 0 <= i < |got| ==>
                store.calls[|old(store.calls)| + i] ==
                Take(plan[i].resource, holder, ttl, clock[i], Answered(got[i].reply))
      ensures refusal.Some? ==>
                |got| < |plan| && refusal.value.wanted == plan[|got|] &&
                exists a, frees ::
                  !Granted(a) && Freed(holder, got, frees) &&
                  (match refusal.value
                   case Held(_, reply) => a == Answered(reply) && !reply.granted
                   case StoreError(_) => a == Failed) &&
                  store.calls == old(store.calls) + Taken(holder, got, ttl, clock) +
                                 [Take(plan[|got|].resource, holder, ttl, clock[|got|], a)] + frees
    {
      got := [];
      for i := 0 to |plan|
        invariant got == leases && |leases| == i && Holds(holder, plan, leases)
        invariant store.calls == old(store.calls) + Taken(holder, leases, ttl, clock)
      {
        var a := store.AcquireLease(plan[i].resource, holder, ttl, clock[i]);
        if Granted(a) {
          leases := leases + [Lease(plan[i].resource, plan[i].kind, a.reply)];
          got := leases;
          assert Taken(holder, leases, ttl, clock) ==
                 Taken(holder, leases[..i], ttl, clock) + [Take(plan[i].resource, holder, ttl, clock[i], a)];
          assert leases[..i] + [leases[i]] == leases;
        } else {
          refusal := Some(RefusalOf(plan[i], a));
          ghost var before := store.calls;
          var all, frees := Free();
          assert store.calls == before + frees;
          return;
        }
      }
      refusal := None;
    }

    /** Free every lease, the last taken first, whatever becomes of each; the list stays. */
    method Free() returns (all: bool, ghost frees: seq<Call>)
      modifies store
      ensures store.calls == old(store.calls) + frees && Freed(holder, leases, frees)
      ensures all <==> forall i :: 0 <= i < |frees| ==> frees[i].ok
    {
      all, frees := true, [];
      var i := |leases|;
      while i > 0
        invariant 0 <= i <= |leases| && |frees| == |leases| - i
        invariant store.calls == old(store.calls) + frees
        invariant Freed(holder, leases[i..], frees)
        invariant all <==> forall k :: 0 <= k < |frees| ==> frees[k].ok
      {
        i := i - 1;
        var ok := store.ReleaseLease(leases[i].resource, holder);
        ghost var before := frees;
        frees := before + [Call.Free(leases[i].resource, holder, ok)];
        if !ok { all := false; }
        assert frees[|before|].ok == ok && forall k :: 0 <= k < |before| ==> frees[k] == before[k];
        assert leases[i..] == [leases[i]] + leases[i + 1..];
      }
      assert leases[0..] == leases;
    }
  }

  function RefusalOf(w: Wanted, a: Answer): (r: Refusal)
    ensures r.wanted == w && (r.Held? <==> a.Answered?) && (a.Answered? ==> r == Held(w, a.reply))
  {
    if a.Answered? then Held(w, a.reply) else StoreError(w)
  }

  // ---- what a list of calls leaves in the table ----

  /** The table after one call that met no error it did not report. */
  function Effect(table: Table, c: Call): (r: Table) {
    if c.Free? then (if c.ok then Release(table, c.resource, c.holder) else table)
    else if Granted(c.answer) then Acquire(table, c.resource, c.holder, c.ttl, c.now).0
    else table
  }

  function Effects(table: Table, calls: seq<Call>): (r: Table) {
    if calls == [] then table
    else Effect(Effects(table, calls[..|calls| - 1]), calls[|calls| - 1])
  }

  ghost function RowsOf(table: Table, holder: string): (r: set<string>) {
    set r | r in table && table[r].holder == holder
  }

  ghost function ResourcesOf(leases: seq<Lease>): (r: set<string>) {
    set i | 0 <= i < |leases| :: leases[i].resource
  }

  ghost predicate ExpiresAfter(row: Row, clock: seq<int>) {
    forall i :: 0 <= i < |clock| ==> row.expires > clock[i]
  }

  lemma {:induction false} TakenRows(table: Table, holder: string, leases: seq<Lease>, ttl: int, clock: seq<int>)
    requires RowsOf(table, holder) == {} && |clock| >= |leases|
    requires forall i :: 0 <= i < |leases| ==> leases[i].reply.granted
    ensures RowsOf(Effects(table, Taken(holder, leases, ttl, clock)), holder) <= ResourcesOf(leases)
    ensures forall r :: r in table && ExpiresAfter(table[r], clock) ==>
              r in Effects(table, Taken(holder, leases, ttl, clock)) &&
              Effects(table, Taken(holder, leases, ttl, clock))[r] == table[r]
  {
    if leases != [] {
      var n := |leases| - 1;
      assert Taken(holder, leases, ttl, clock)[..n] == Taken(holder, leases[..n], ttl, clock);
      TakenRows(table, holder, leases[..n], ttl, clock);
      var mid := Effects(table, Taken(holder, leases[..n], ttl, clock));
      var end := Effects(table, Taken(holder, leases, ttl, clock));
      assert end == Acquire(mid, leases[n].resource, holder, ttl, clock[n]).0;
      forall r | r in RowsOf(end, holder) ensures r in ResourcesOf(leases) {
        if r in RowsOf(mid, holder) {
          var i :| 0 <= i < n && leases[..n][i].resource == r;
          assert leases[i].resource == r;
        } else {
          assert r == leases[n].resource;
        }
      }
      forall r | r in table && ExpiresAfter(table[r], clock) ensures r in end && end[r] == table[r] {
        assert r !in RowsOf(table, holder);
      }
    }
  }

  lemma {:induction false} FreedRows(table: Table, holder: string, frees: seq<Call>)
    requires forall i :: 0 <= i < |frees| ==> frees[i].Free? && frees[i].holder == holder && frees[i].ok
    ensures var end := Effects(table, frees);
            RowsOf(end, holder) == RowsOf(table, holder) - (set i | 0 <= i < |frees| :: frees[i].resource) &&
            forall r :: r in table && table[r].holder != holder ==> r in end && end[r] == table[r]
  {
    if frees != [] {
      var n := |frees| - 1;
      FreedRows(table, holder, frees[..n]);
      var mid, end := Effects(table, frees[..n]), Effects(table, frees);
      assert end == Release(mid, frees[n].resource, holder);
      var gone, all := (set i | 0 <= i < n :: frees[..n][i].resource), (set i | 0 <= i <= n :: frees[i].resource);
      assert all == gone + {frees[n].resource} by {
        forall r | r in gone ensures r in all {
          var i :| 0 <= i < n && frees[..n][i].resource == r;
          assert frees[i].resource == r;
        }
        forall r | r in all ensures r in gone + {frees[n].resource} {
          var i :| 0 <= i <= n && frees[i].resource == r;
          assert i < n ==> frees[..n][i].resource == r;
        }
      }
      assert RowsOf(end, holder) == RowsOf(mid, holder) - {frees[n].resource};
    }
  }

  lemma {:induction false} EffectsAppend(table: Table, a: seq<Call>, b: seq<Call>)
    ensures Effects(table, a + b) == Effects(Effects(table, a), b)
  {
    if b == [] {
      assert a + b == a;
    } else {
      var n := |b| - 1;
      assert (a + b)[..|a| + n] == a + b[..n];
      EffectsAppend(table, a, b[..n]);
    }
  }

  /**
   Giving up undoes itself: a process that held nothing, was granted some leases,
   was refused one and freed what it had without an error holds nothing again, and
   every unexpired lease of the others is as it was.
  */
  lemma GivingUpLeavesNothing(
    table: Table, holder: string, got: seq<Lease>, a: Answer, resource: string, frees: seq<Call>,
    ttl: int, clock: seq<int>, now: int)
    requires |clock| >= |got|
    requires RowsOf(table, holder) == {} && !Granted(a)
    requires forall i :: 0 <= i < |got| ==> got[i].reply.granted
    requires Freed(holder, got, frees) && forall i :: 0 <= i < |frees| ==> frees[i].ok
    ensures var end := Effects(table, Taken(holder, got, ttl, clock) + [Take(resource, holder, ttl, now, a)] + frees);
            RowsOf(end, holder) == {} &&
            forall r :: r in table && ExpiresAfter(table[r], clock) ==> r in end && end[r] == table[r]
  {
    var taken := Effects(table, Taken(holder, got, ttl, clock));
    TakenRows(table, holder, got, ttl, clock);
    assert (Taken(holder, got, ttl, clock) + [Take(resource, holder, ttl, now, a)])[..|got|] ==
           Taken(holder, got, ttl, clock);
    assert Effects(table, Taken(holder, got, ttl, clock) + [Take(resource, holder, ttl, now, a)]) == taken;
    EffectsAppend(table, Taken(holder, got, ttl, clock) + [Take(resource, holder, ttl, now, a)], frees);
    FreedRows(taken, holder, frees);
    forall r | r in table && ExpiresAfter(table[r], clock) ensures r in taken && taken[r].holder != holder {
      assert r !in RowsOf(table, holder);
    }
    forall r | r in ResourcesOf(got) ensures r in set i | 0 <= i < |frees| :: frees[i].resource {
      var i :| 0 <= i < |got| && got[i].resource == r;
      assert frees[|got| - 1 - i].resource == r;
    }
  }
}
