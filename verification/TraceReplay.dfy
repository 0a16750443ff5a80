/**
 Replaying a child's drafts (src/application/trace_exec.rs:329-359): its `tool.*`
 events, in order, each under the event the parent's own recording gave to its cause,
 or under the step.
*/
module TraceReplay {
  import opened Prelude

  datatype Component = Tool | Other(name: string)

  datatype Draft = Draft(
    kind: string, parent: Option<string>, session: Option<string>, correlation: Option<string>,
    component: Component, payload: string)

  /** A draft under the id the child gave it. */
  datatype Own = Own(id: string, draft: Draft)

  /** A draft handed to the sink, and the id it answered. */
  datatype Emitted = Emitted(draft: Draft, id: Option<string>)

  /** The parent's recording: it may refuse a draft, and never gives an id twice. */
  class Sink {
    var log: seq<Emitted>
    var used: set<string>

    constructor (used: set<string>)
      ensures this.log == [] && this.used == used
    {
      this.log, this.used := [], used;
    }

    method Emit(d: Draft) returns (id: Option<string>)
      modifies this
      ensures log == old(log) + [Emitted(d, id)]
      ensures id.Some? ==> id.value !in old(used)
      ensures used == old(used) + IdSet(id)
    {
      var given: string := *;
      var refuses := *;
      id := if refuses || given in used then None else Some(given);
      log := log + [Emitted(d, id)];
      used := used + IdSet(id);
    }
  }

  function IdSet(id: Option<string>): (r: set<string>) { if id.Some? then {id.value} else {} }

  // ---- what a replay is ----

  predicate IsTool(kind: string) { "tool." <= kind }

  /** The drafts that are replayed. */
  function Tools(drafts: seq<Own>): (r: seq<Own>) {
    if drafts == [] then []
    else Tools(drafts[..|drafts| - 1]) +
         (if IsTool(drafts[|drafts| - 1].draft.kind) then [drafts[|drafts| - 1]] else [])
  }

  /** The last accepted draft that the child knows as `own`. */
  function LastNamed(tools: seq<Own>, out: seq<Emitted>, own: string): (i: Option<nat>)
    requires |tools| == |out|
    ensures i.Some? ==> i.value < |out| && out[i.value].id.Some? && tools[i.value].id == own
    ensures i.Some? ==> forall j :: i.value < j < |out| && out[j].id.Some? ==> tools[j].id != own
    ensures i.None? ==> forall j :: 0 <= j < |out| && out[j].id.Some? ==> tools[j].id != own
  {
    if out == [] then None
    else
      var n := |out| - 1;
      if out[n].id.Some? && tools[n].id == own then Some(n) else LastNamed(tools[..n], out[..n], own)
  }

  /** The parent a draft is given after `out`. */
  function ParentOf(tools: seq<Own>, out: seq<Emitted>, d: Draft, step: string): (r: string)
    requires |tools| == |out|
  {
    if d.parent.None? then step
    else
      var i := LastNamed(tools, out, d.parent.value);
      if i.Some? then out[i.value].id.value else step
  }

  function Adopted(d: Draft, parent: string, session: string): (r: Draft) {
    Draft(d.kind, Some(parent), Some(session), None, Tool, d.payload)
  }

  ghost predicate Replays(tools: seq<Own>, out: seq<Emitted>, step: string, session: string) {
    |out| == |tools| &&
    forall k :: 0 <= k < |out| ==>
      out[k].draft == Adopted(tools[k].draft, ParentOf(tools[..k], out[..k], tools[k].draft, step), session)
  }

  /** Ids are new to the recording, and no two are the same. */
  ghost predicate FreshIds(out: seq<Emitted>, used: set<string>) {
    (forall i :: 0 <= i < |out| && out[i].id.Some? ==> out[i].id.value !in used) &&
    (forall i, j :: 0 <= i < j < |out| && out[i].id.Some? ==> out[i].id != out[j].id)
  }

  function Accepted(out: seq<Emitted>): (r: nat) {
    if out == [] then 0 else Accepted(out[..|out| - 1]) + (if out[|out| - 1].id.Some? then 1 else 0)
  }

  function AllIds(out: seq<Emitted>): (r: set<string>) {
    set i | 0 <= i < |out| && out[i].id.Some? :: out[i].id.value
  }

  /** The id map of the loop after `out`. */
  function IdMap(tools: seq<Own>, out: seq<Emitted>): (r: map<string, string>)
    requires |tools| == |out|
  {
    if out == [] then map[]
    else
      var n := |out| - 1;
      var ids := IdMap(tools[..n], out[..n]);
      if out[n].id.Some? then ids[tools[n].id := out[n].id.value] else ids
  }

  /** The map holds the id of the last event the child calls so. */
  lemma {:induction false} MapHoldsLast(tools: seq<Own>, out: seq<Emitted>, own: string)
    requires |tools| == |out|
    ensures var i := LastNamed(tools, out, own);
            if own in IdMap(tools, out) then i.Some? && out[i.value].id == Some(IdMap(tools, out)[own]) else i.None?
  {
    if out != [] { MapHoldsLast(tools[..|out| - 1], out[..|out| - 1], own); }
  }

  lemma ReplaysStep(tools: seq<Own>, out: seq<Emitted>, step: string, session: string, own: Own, e: Emitted)
    requires Replays(tools, out, step, session)
    requires e.draft == Adopted(own.draft, ParentOf(tools, out, own.draft, step), session)
    ensures Replays(tools + [own], out + [e], step, session)
  {
    forall k | 0 <= k < |out| + 1
      ensures (tools + [own])[..k] == tools[..k] && (out + [e])[..k] == out[..k]
    {
    }
  }

  /** The ids given so far: all new, all recorded, as many as were written. */
  ghost predicate Counted(out: seq<Emitted>, used: set<string>, now: set<string>, written: nat) {
    FreshIds(out, used) && now == used + AllIds(out) && written == Accepted(out)
  }

  lemma CountStep(out: seq<Emitted>, used: set<string>, now: set<string>, written: nat, e: Emitted)
    requires Counted(out, used, now, written) && (e.id.Some? ==> e.id.value !in now)
    ensures Counted(out + [e], used, now + IdSet(e.id), if e.id.Some? then written + 1 else written)
  {
    var more := out + [e];
    assert more[..|out|] == out;
    assert forall i :: 0 <= i < |out| ==> more[i] == out[i];
    forall x ensures x in AllIds(more) <==> x in AllIds(out) || x in IdSet(e.id) {
      if x in AllIds(out) {
        var i :| 0 <= i < |out| && out[i].id == Some(x);
        assert more[i].id == Some(x);
      }
      assert more[|out|] == e;
    }
  }

  /** The events written so far, and the id map. */
  ghost predicate ReplayedSoFar(
    drafts: seq<Own>, ids: map<string, string>, out: seq<Emitted>, step: string, session: string)
  {
    |Tools(drafts)| == |out| && ids == IdMap(Tools(drafts), out) && Replays(Tools(drafts), out, step, session)
  }

  lemma ToolsSnoc(drafts: seq<Own>, own: Own)
    ensures Tools(drafts + [own]) == if IsTool(own.draft.kind) then Tools(drafts) + [own] else Tools(drafts)
  {
    assert (drafts + [own])[..|drafts|] == drafts;
  }

  lemma ParentLookedUp(tools: seq<Own>, out: seq<Emitted>, d: Draft, step: string)
    requires |tools| == |out|
    ensures var ids := IdMap(tools, out);
            ParentOf(tools, out, d, step) ==
            if d.parent.Some? && d.parent.value in ids then ids[d.parent.value] else step
  {
    if d.parent.Some? { MapHoldsLast(tools, out, d.parent.value); }
  }

  lemma ReplayStep(
    drafts: seq<Own>, own: Own, ids: map<string, string>, out: seq<Emitted>, step: string, session: string,
    parent: string, id: Option<string>)
    requires ReplayedSoFar(drafts, ids, out, step, session) && IsTool(own.draft.kind)
    requires parent == ParentOf(Tools(drafts), out, own.draft, step)
    ensures ReplayedSoFar(
              drafts + [own], if id.Some? then ids[own.id := id.value] else ids,
              out + [Emitted(Adopted(own.draft, parent, session), id)], step, session)
  {
    var e, tools := Emitted(Adopted(own.draft, parent, session), id), Tools(drafts);
    ToolsSnoc(drafts, own);
    ReplaysStep(tools, out, step, session, own, e);
  }

  lemma Appended(base: seq<Emitted>, out: seq<Emitted>, e: Emitted)
    ensures base + out + [e] == base + (out + [e])
  {
  }

  // ---- which drafts are replayed, and as what ----

  /** Where in `drafts` the `tool.` drafts stand. */
  function Places(drafts: seq<Own>): (r: seq<nat>) {
    if drafts == [] then []
    else
      var n := |drafts| - 1;
      Places(drafts[..n]) + (if IsTool(drafts[n].draft.kind) then [n] else [])
  }

  /** What is replayed is `tool.` drafts only, each at its place, in their order. */
  lemma {:induction false} ToolsInOrder(drafts: seq<Own>)
    ensures |Places(drafts)| == |Tools(drafts)|
    ensures forall k :: 0 <= k < |Tools(drafts)| ==>
              Places(drafts)[k] < |drafts| && Tools(drafts)[k] == drafts[Places(drafts)[k]] &&
              IsTool(Tools(drafts)[k].draft.kind)
    ensures forall k, l :: 0 <= k < l < |Places(drafts)| ==> Places(drafts)[k] < Places(drafts)[l]
  {
    if drafts != [] { ToolsInOrder(drafts[..|drafts| - 1]); }
  }

  /** And none of them is left out. */
  lemma {:induction false} EveryToolIsReplayed(drafts: seq<Own>, n: nat) returns (k: nat)
    requires n < |drafts| && IsTool(drafts[n].draft.kind)
    ensures k < |Places(drafts)| && Places(drafts)[k] == n
  {
    var last := |drafts| - 1;
    if n == last {
      k := |Places(drafts[..last])|;
    } else {
      assert drafts[..last][n] == drafts[n];
      k := EveryToolIsReplayed(drafts[..last], n);
    }
  }

  /**
   The events are the `tool.` drafts, at the places `at`, in their order, with kind and
   payload as they were, in the given session, without a correlation and as a tool's.
  */
  ghost predicate TakesTools(drafts: seq<Own>, out: seq<Emitted>, session: string, at: seq<nat>) {
    |at| == |out| && (forall k, l :: 0 <= k < l < |at| ==> at[k] < at[l]) &&
    (forall k :: 0 <= k < |at| ==> at[k] < |drafts|) &&
    (forall n :: 0 <= n < |drafts| ==> (n in at <==> "tool." <= drafts[n].draft.kind)) &&
    forall k :: 0 <= k < |out| ==> TakenAs(drafts[at[k]].draft, out[k].draft, session)
  }

  predicate TakenAs(d: Draft, written: Draft, session: string) {
    written.kind == d.kind && written.payload == d.payload && written.session == Some(session) &&
    written.correlation.None? && written.component.Tool? && written.parent.Some?
  }

  lemma PlacesOfTools(drafts: seq<Own>)
    ensures forall n :: 0 <= n < |drafts| ==> (n in Places(drafts) <==> IsTool(drafts[n].draft.kind))
  {
    ToolsInOrder(drafts);
    forall n | 0 <= n < |drafts| ensures n in Places(drafts) <==> IsTool(drafts[n].draft.kind) {
      if IsTool(drafts[n].draft.kind) { var k := EveryToolIsReplayed(drafts, n); }
    }
  }

  lemma ReplayTakesTools(drafts: seq<Own>, out: seq<Emitted>, step: string, session: string)
    requires Replays(Tools(drafts), out, step, session)
    ensures TakesTools(drafts, out, session, Places(drafts))
  {
    ToolsInOrder(drafts);
    PlacesOfTools(drafts);
    forall k | 0 <= k < |out| ensures TakenAs(drafts[Places(drafts)[k]].draft, out[k].draft, session) {
      assert Tools(drafts)[k] == drafts[Places(drafts)[k]];
    }
  }

  ghost function AcceptedAt(out: seq<Emitted>): (ks: set<nat>) { set k | 0 <= k < |out| && out[k].id.Some? }

  lemma {:induction false} AcceptedCounts(out: seq<Emitted>)
    ensures Accepted(out) == |AcceptedAt(out)|
  {
    if out == [] {
      assert AcceptedAt(out) == {};
    } else {
      var n := |out| - 1;
      AcceptedCounts(out[..n]);
      assert AcceptedAt(out) == AcceptedAt(out[..n]) + if out[n].id.Some? then {n} else {};
    }
  }

  /** Write a child's drafts into `sink`; how many were written. */
  method ReplayChild(sink: Sink, drafts: seq<Own>, step: string, session: string) returns (written: nat)
    modifies sink
    ensures old(sink.log) <= sink.log
    ensures var out := sink.log[|old(sink.log)|..];
            Replays(Tools(drafts), out, step, session) && FreshIds(out, old(sink.used)) &&
            sink.used == old(sink.used) + AllIds(out) && written == Accepted(out)
    ensures var out := sink.log[|old(sink.log)|..];
            TakesTools(drafts, out, session, Places(drafts)) && written == |AcceptedAt(out)|
  {
    var ids: map<string, string> := map[];
    written := 0;
    ghost var base, out: seq<Emitted> := sink.log, [];
    for n := 0 to |drafts|
      invariant sink.log == base + out
      invariant ReplayedSoFar(drafts[..n], ids, out, step, session)
      invariant Counted(out, old(sink.used), sink.used, written)
    {
      assert drafts[..n + 1] == drafts[..n] + [drafts[n]];
      var own, d := drafts[n].id, drafts[n].draft;
      if IsTool(d.kind) {
        var parent := if d.parent.Some? && d.parent.value in ids then ids[d.parent.value] else step;
        ghost var before := sink.used;
        var id := sink.Emit(Draft(d.kind, Some(parent), Some(session), None, Tool, d.payload));
        ParentLookedUp(Tools(drafts[..n]), out, d, step);
        Appended(base, out, Emitted(Adopted(d, parent, session), id));
        ReplayStep(drafts[..n], drafts[n], ids, out, step, session, parent, id);
        CountStep(out, old(sink.used), before, written, Emitted(Adopted(d, parent, session), id));
        out := out + [Emitted(Adopted(d, parent, session), id)];
        if id.Some? {
          ids := ids[own := id.value];
          written := written + 1;
        }
      } else {
        ToolsSnoc(drafts[..n], drafts[n]);
      }
    }
    assert drafts[..|drafts|] == drafts;
    assert sink.log[|base|..] == out;
    ReplayTakesTools(drafts, out, step, session);
    AcceptedCounts(out);
  }

  // ---- the forest ----

  /** Event `j` hangs under event `i`. */
  predicate Under(out: seq<Emitted>, j: nat, i: nat)
    requires i < |out| && j < |out|
  {
    out[i].id.Some? && out[j].draft.parent == out[i].id
  }

  /** `path` leads from an event up to one directly under the step. */
  ghost predicate Chain(out: seq<Emitted>, step: string, path: seq<nat>) {
    path != [] && (forall n :: 0 <= n < |path| ==> path[n] < |out|) &&
    (forall n :: 0 <= n < |path| - 1 ==> Under(out, path[n], path[n + 1])) &&
    out[path[|path| - 1]].draft.parent == Some(step)
  }

  /** Every parent is the step or an event written earlier in this replay. */
  lemma ParentIsEarlier(tools: seq<Own>, out: seq<Emitted>, step: string, session: string, k: nat)
    returns (i: Option<nat>)
    requires Replays(tools, out, step, session) && k < |out|
    ensures i.None? ==> out[k].draft.parent == Some(step)
    ensures i.Some? ==> i.value < k && Under(out, k, i.value) && tools[k].draft.parent == Some(tools[i.value].id)
    ensures i.None? ==> forall j :: 0 <= j < k && out[j].id.Some? ==> tools[k].draft.parent != Some(tools[j].id)
  {
    var d := tools[k].draft;
    assert forall j :: 0 <= j < k ==> out[..k][j] == out[j] && tools[..k][j] == tools[j];
    i := if d.parent.None? then None else LastNamed(tools[..k], out[..k], d.parent.value);
  }

  /** Every chain of parents reaches the step. */
  lemma {:induction false} ReachesTheStep(tools: seq<Own>, out: seq<Emitted>, step: string, session: string, k: nat)
    returns (path: seq<nat>)
    requires Replays(tools, out, step, session) && k < |out|
    ensures Chain(out, step, path) && path[0] == k
    ensures forall n :: 0 <= n < |path| - 1 ==> path[n + 1] < path[n]
  {
    var i := ParentIsEarlier(tools, out, step, session, k);
    if i.None? {
      path := [k];
    } else {
      var rest := ReachesTheStep(tools, out, step, session, i.value);
      path := [k] + rest;
      forall n | 0 <= n < |path| - 1 ensures path[n + 1] < path[n] && Under(out, path[n], path[n + 1]) {
        if n > 0 { assert path[n] == rest[n - 1] && path[n + 1] == rest[n]; }
      }
    }
  }

  lemma SameId(out: seq<Emitted>, used: set<string>, a: nat, b: nat)
    requires FreshIds(out, used) && a < |out| && b < |out|
    ensures out[a].id.Some? && out[a].id == out[b].id ==> a == b
  {
  }

  /** With fresh ids a link always goes back, so there is no cycle. */
  lemma LinksGoBack(
    tools: seq<Own>, out: seq<Emitted>, step: string, session: string, used: set<string>, j: nat, i: nat)
    requires Replays(tools, out, step, session) && FreshIds(out, used) && step in used
    requires i < |out| && j < |out| && Under(out, j, i)
    ensures i < j
  {
    var k := ParentIsEarlier(tools, out, step, session, j);
    if k.Some? { SameId(out, used, i, k.value); }
  }

  /** So the chain is the only one: the events form a forest under the step. */
  lemma {:induction false} OneChain(out: seq<Emitted>, step: string, used: set<string>, a: seq<nat>, b: seq<nat>)
    requires FreshIds(out, used) && step in used
    requires Chain(out, step, a) && Chain(out, step, b) && a[0] == b[0]
    ensures a == b
  {
    var m := ChainTail(out, step, a);
    var n := ChainTail(out, step, b);
    assert |a| == 1 || |b| == 1 ==> |a| == |b|;
    if |a| > 1 {
      SameId(out, used, a[1], b[1]);
      OneChain(out, step, used, m, n);
      assert a == [a[0]] + m && b == [b[0]] + n;
    }
  }

  lemma ChainTail(out: seq<Emitted>, step: string, path: seq<nat>) returns (rest: seq<nat>)
    requires Chain(out, step, path)
    ensures rest == path[1..]
    ensures if |path| == 1 then out[path[0]].draft.parent == Some(step)
            else Under(out, path[0], path[1]) && Chain(out, step, rest)
  {
    rest := path[1..];
    assert forall k :: 0 <= k < |rest| ==> rest[k] == path[k + 1];
    if |path| > 1 { assert Under(out, path[0], path[0 + 1]); }
  }

  /**
   The replayed links are the child's own: with distinct own ids, an event hangs under
   an accepted one exactly when the child said so and the parent came first, and under
   the step exactly when no accepted earlier event is its parent.
  */
  lemma ForestKept(
    tools: seq<Own>, out: seq<Emitted>, step: string, session: string, used: set<string>, j: nat, i: nat)
    requires Replays(tools, out, step, session) && FreshIds(out, used) && step in used
    requires forall a, b :: 0 <= a < b < |tools| ==> tools[a].id != tools[b].id
    requires i < |out| && j < |out| && out[i].id.Some?
    ensures Under(out, j, i) <==> i < j && tools[j].draft.parent == Some(tools[i].id)
    ensures out[j].draft.parent == Some(step) <==>
            forall a :: 0 <= a < j && out[a].id.Some? ==> tools[j].draft.parent != Some(tools[a].id)
  {
    var k := ParentIsEarlier(tools, out, step, session, j);
    if Under(out, j, i) { LinksGoBack(tools, out, step, session, used, j, i); }
    if k.Some? {
      SameId(out, used, i, k.value);
      assert out[k.value].id.value !in used;
      assert i < k.value ==> tools[i].id != tools[k.value].id;
      assert k.value < i ==> tools[k.value].id != tools[i].id;
    }
  }
}
