/**
 An execution map narrows a decision loop (src/config/execution_map.rs): it picks
 among the loop's actions, tightens caps and limits, and may only turn dry-run on.
 What "narrower" means is stated on what the loop then offers and does, and not on
 how a map is applied.
*/
module ExecutionMap {
  import opened Prelude
  import opened DecisionLoop

  const MAX_EVENT_BYTES: nat := 16 * 1024
  const MAX_GOAL_CHARS: nat := 2_000

  /** What the checks read of the event: a JSON object, and its canonical size. */
  datatype Event = Event(isObject: bool, canonicalBytes: nat)

  datatype Map = Map(
    actions: Option<seq<string>>,
    sequence: Option<seq<SeqStep>>,
    event: Event,
    goal: Option<string>,
    caps: map<string, map<string, F64>>,
    maxSteps: Option<nat>,
    actAt: Option<F64>,
    dryRun: Option<bool>)

  datatype Refusal =
    | NotAnAction(action: string)
    | EventNotObject | EventTooLarge | GoalEmpty | GoalTooLong | StepsAbove | ActAtBelow | DryRunOff
    | CapOfNoAction(action: string)
    | CapOfNoSlot(action: string, slot: string)
    | CapNotFinite(action: string, slot: string)
    | CapAbove(action: string, slot: string)
    | Loop(problem: Problem)

  // ---- what a map asks for ----

  function CapOf(a: Action, sn: string): (cap: Option<F64>) { if sn in a.caps then Some(a.caps[sn]) else None }

  function Or<T>(asked: Option<T>, was: T): (r: T) { if asked.Some? then asked.value else was }

  /** `c` is the loop with its tools picked, its caps, limits and order set, and its goal gone on, as the map says. */
  ghost predicate AsAsked(m: Map, base: Config, c: Config) {
    c == base.(actions := c.actions, sequence := Or(m.sequence, base.sequence), goal := c.goal,
               maxSteps := Or(m.maxSteps, base.maxSteps), actAt := Or(m.actAt, base.actAt),
               dryRun := Or(m.dryRun, base.dryRun)) &&
    c.goal == (if m.goal.None? then base.goal
               else TrimEnd(base.goal) + "\n\nTask (architect): " + Trim(m.goal.value)) &&
    (forall an :: an in c.actions <==>
       an in base.actions && (base.actions[an].tool.None? || m.actions.None? || an in m.actions.value)) &&
    (forall an :: an in c.actions ==> ActionAsAsked(m, an, base.actions[an], c.actions[an]))
  }

  ghost predicate ActionAsAsked(m: Map, an: string, was: Action, a: Action) {
    a == was.(caps := a.caps) &&
    forall sn :: CapOf(a, sn) == if an in m.caps && sn in m.caps[an] then Some(m.caps[an][sn]) else CapOf(was, sn)
  }

  /** What the map may ask of the loop, before the loop it leaves is looked at. */
  ghost predicate MayAsk(m: Map, base: Config) {
    (m.actions.Some? ==> forall an :: an in m.actions.value ==> an in base.actions) &&
    m.event.isObject && m.event.canonicalBytes <= 16_384 &&
    (m.goal.Some? ==> Trim(m.goal.value) != [] && |m.goal.value| <= 2_000) &&
    (m.maxSteps.Some? ==> m.maxSteps.value <= base.maxSteps) &&
    (m.actAt.Some? ==> AtMost(base.actAt, m.actAt.value) && AtMost(m.actAt.value, Finite(1.0))) &&
    (base.dryRun ==> m.dryRun != Some(false)) &&
    forall an, sn :: an in m.caps && sn in m.caps[an] ==>
      an in base.actions && sn in base.actions[an].slots && m.caps[an][sn].Finite? &&
      (sn in base.actions[an].caps ==> !Greater(m.caps[an][sn], base.actions[an].caps[sn]))
  }

  /** Caps are set only for actions that stay. */
  ghost predicate CapsStay(m: Map, c: Config) { forall an :: an in m.caps ==> an in c.actions }

  // ---- what a map makes of a loop ----

  predicate Kept(m: Map, base: Config, an: string) {
    an in base.actions && (m.actions.None? || base.actions[an].tool.None? || an in m.actions.value)
  }

  predicate CapFits(a: Action, sn: string, cap: F64) {
    sn in a.slots && cap.Finite? && (sn in a.caps ==> !Greater(cap, a.caps[sn]))
  }

  function CapsWith(a: Action, wanted: map<string, F64>): (r: map<string, F64>) {
    a.caps + map sn | sn in wanted && CapFits(a, sn, wanted[sn]) :: wanted[sn]
  }

  function ActionWith(m: Map, an: string, a: Action): (r: Action) {
    if an in m.caps then a.(caps := CapsWith(a, m.caps[an])) else a
  }

  function GoalWith(m: Map, base: Config): (r: string) {
    if m.goal.None? || Trim(m.goal.value) == [] || |m.goal.value| > MAX_GOAL_CHARS then base.goal
    else TrimEnd(base.goal) + "\n\nTask (architect): " + Trim(m.goal.value)
  }

  function ActionsWith(m: Map, base: Config): (r: map<string, Action>) {
    map an | an in base.actions && Kept(m, base, an) :: ActionWith(m, an, base.actions[an])
  }

  /** The loop the map asks for; what it may not change stays as it is. */
  function Narrowed(m: Map, base: Config): (r: Config) {
    base.(
      actions := ActionsWith(m, base),
      sequence := if m.sequence.Some? then m.sequence.value else base.sequence,
      goal := GoalWith(m, base),
      maxSteps := if m.maxSteps.Some? && m.maxSteps.value <= base.maxSteps then m.maxSteps.value else base.maxSteps,
      actAt := if m.actAt.Some? && ActAtFits(base, m.actAt.value) then m.actAt.value else base.actAt,
      dryRun := if m.dryRun.Some? && (m.dryRun.value || !base.dryRun) then m.dryRun.value else base.dryRun)
  }

  predicate ActAtFits(base: Config, x: F64) { AtMost(base.actAt, x) && AtMost(x, Finite(1.0)) }

  /** The map is refused for `e`: its names and limits, its caps, or the loop it leaves. */
  ghost predicate Refuses(m: Map, base: Config, e: Refusal) {
    RefusesName(m, base, e) || RefusesLimit(m, base, e) ||
    (exists an :: an in m.caps && RefusesCaps(m, base, an, e)) ||
    (e.Loop? && Has(Narrowed(m, base), e.problem))
  }

  ghost predicate RefusesName(m: Map, base: Config, e: Refusal) {
    match e
    case NotAnAction(an) => m.actions.Some? && an in m.actions.value && an !in base.actions
    case GoalEmpty => m.goal.Some? && Trim(m.goal.value) == []
    case GoalTooLong => m.goal.Some? && Trim(m.goal.value) != [] && |m.goal.value| > MAX_GOAL_CHARS
    case _ => false
  }

  ghost predicate RefusesLimit(m: Map, base: Config, e: Refusal) {
    match e
    case EventNotObject => !m.event.isObject
    case EventTooLarge => m.event.isObject && m.event.canonicalBytes > MAX_EVENT_BYTES
    case StepsAbove => m.maxSteps.Some? && m.maxSteps.value > base.maxSteps
    case ActAtBelow => m.actAt.Some? && !ActAtFits(base, m.actAt.value)
    case DryRunOff => m.dryRun == Some(false) && base.dryRun
    case _ => false
  }

  /** The caps wanted for `an`. */
  ghost predicate RefusesCaps(m: Map, base: Config, an: string, e: Refusal)
    requires an in m.caps
  {
    if !Kept(m, base, an) then e == CapOfNoAction(an)
    else exists sn :: sn in m.caps[an] && RefusesCap(base.actions[an], an, sn, m.caps[an][sn], e)
  }

  ghost predicate RefusesCap(a: Action, an: string, sn: string, cap: F64, e: Refusal) {
    if sn !in a.slots then e == CapOfNoSlot(an, sn)
    else if !cap.Finite? then e == CapNotFinite(an, sn)
    else sn in a.caps && Greater(cap, a.caps[sn]) && e == CapAbove(an, sn)
  }

  ghost predicate Accepted(m: Map, base: Config) { forall e :: !Refuses(m, base, e) }

  // ---- accepted exactly when the loop asked for is sound ----

  lemma AcceptedCaps(m: Map, base: Config, an: string)
    requires Accepted(m, base) && an in m.caps
    ensures Kept(m, base, an)
    ensures forall sn :: sn in m.caps[an] ==> CapFits(base.actions[an], sn, m.caps[an][sn])
  {
    forall e ensures !RefusesCaps(m, base, an, e) { assert !Refuses(m, base, e); }
    assert !RefusesCaps(m, base, an, CapOfNoAction(an));
    forall sn | sn in m.caps[an] ensures CapFits(base.actions[an], sn, m.caps[an][sn]) {
      assert !RefusesCaps(m, base, an, CapOfNoSlot(an, sn)) && !RefusesCaps(m, base, an, CapNotFinite(an, sn));
      assert !RefusesCaps(m, base, an, CapAbove(an, sn));
    }
  }

  lemma NarrowedAsAsked(m: Map, base: Config)
    requires MayAsk(m, base)
    ensures AsAsked(m, base, Narrowed(m, base))
  {
    var c := Narrowed(m, base);
    forall an | an in c.actions ensures ActionAsAsked(m, an, base.actions[an], c.actions[an]) {
      if an in m.caps {
        forall sn | sn in m.caps[an] ensures CapFits(base.actions[an], sn, m.caps[an][sn]) {}
      }
    }
  }

  /** What a map asks for is one loop. */
  lemma AskedOnce(m: Map, base: Config, c: Config, d: Config)
    requires AsAsked(m, base, c) && AsAsked(m, base, d)
    ensures c == d
  {
    assert c.actions.Keys == d.actions.Keys;
    forall an | an in c.actions ensures c.actions[an] == d.actions[an] {
      assert ActionAsAsked(m, an, base.actions[an], c.actions[an]);
      assert ActionAsAsked(m, an, base.actions[an], d.actions[an]);
      SameCaps(c.actions[an], d.actions[an]);
    }
    assert c.actions == d.actions;
  }

  lemma SameCaps(a: Action, b: Action)
    requires forall sn :: CapOf(a, sn) == CapOf(b, sn)
    ensures a.caps == b.caps
  {
    assert forall sn :: sn in a.caps <==> CapOf(a, sn).Some?;
    assert forall sn :: sn in b.caps <==> CapOf(b, sn).Some?;
    forall sn | sn in a.caps ensures sn in b.caps && a.caps[sn] == b.caps[sn] {
      assert CapOf(a, sn) == CapOf(b, sn);
    }
  }

  lemma AcceptedMayAsk(m: Map, base: Config)
    requires Accepted(m, base)
    ensures MayAsk(m, base) && CapsStay(m, Narrowed(m, base)) && Sound(Narrowed(m, base))
  {
    if m.actions.Some? {
      forall an | an in m.actions.value ensures an in base.actions { assert !Refuses(m, base, NotAnAction(an)); }
    }
    assert !Refuses(m, base, EventNotObject) && !Refuses(m, base, EventTooLarge);
    assert !Refuses(m, base, GoalEmpty) && !Refuses(m, base, GoalTooLong);
    assert !Refuses(m, base, StepsAbove) && !Refuses(m, base, ActAtBelow) && !Refuses(m, base, DryRunOff);
    forall an | an in m.caps ensures Kept(m, base, an) { AcceptedCaps(m, base, an); }
    forall an, sn | an in m.caps && sn in m.caps[an] ensures CapFits(base.actions[an], sn, m.caps[an][sn]) {
      AcceptedCaps(m, base, an);
    }
    forall e ensures !Has(Narrowed(m, base), e) { assert !Refuses(m, base, Loop(e)); }
  }

  lemma MayAskAccepted(m: Map, base: Config)
    requires MayAsk(m, base) && CapsStay(m, Narrowed(m, base)) && Sound(Narrowed(m, base))
    ensures Accepted(m, base)
  {
    assert forall an :: an in m.caps ==> an in Narrowed(m, base).actions && Kept(m, base, an);
  }

  /** A map is accepted if and only if it may ask what it asks, and the one loop it asks for is sound. */
  lemma AcceptedExactly(m: Map, base: Config)
    ensures Accepted(m, base) <==>
            MayAsk(m, base) && exists c :: AsAsked(m, base, c) && CapsStay(m, c) && Sound(c)
    ensures Accepted(m, base) ==> AsAsked(m, base, Narrowed(m, base))
  {
    if MayAsk(m, base) { NarrowedAsAsked(m, base); }
    if Accepted(m, base) {
      AcceptedMayAsk(m, base);
    } else if MayAsk(m, base) {
      if c :| AsAsked(m, base, c) && CapsStay(m, c) && Sound(c) {
        AskedOnce(m, base, c, Narrowed(m, base));
        MayAskAccepted(m, base);
      }
    }
  }

  // ---- applying it ----

  /** One wanted cap. */
  method NarrowCap(a: Action, an: string, sn: string, cap: F64) returns (out: Action, errs: set<Refusal>)
    ensures out == if CapFits(a, sn, cap) then a.(caps := a.caps[sn := cap]) else a
    ensures forall e :: e in errs <==> RefusesCap(a, an, sn, cap, e)
  {
    out, errs := a, {};
    if sn !in a.slots {
      errs := {CapOfNoSlot(an, sn)};
    } else if !cap.Finite? {
      errs := {CapNotFinite(an, sn)};
    } else if sn in a.caps && Greater(cap, a.caps[sn]) {
      errs := {CapAbove(an, sn)};
    } else {
      out := a.(caps := a.caps[sn := cap]);
    }
  }

  /** The caps after the slots in `done`. */
  function CapsOn(a: Action, wanted: map<string, F64>, done: set<string>): (r: map<string, F64>)
    requires done <= wanted.Keys
  {
    a.caps + map sn | sn in done && CapFits(a, sn, wanted[sn]) :: wanted[sn]
  }

  lemma CapsOnSnoc(a: Action, wanted: map<string, F64>, done: set<string>, sn: string)
    requires done <= wanted.Keys && sn in wanted && sn !in done
    ensures CapsOn(a, wanted, done + {sn}) ==
            if CapFits(a, sn, wanted[sn]) then CapsOn(a, wanted, done)[sn := wanted[sn]] else CapsOn(a, wanted, done)
    ensures sn in CapsOn(a, wanted, done) <==> sn in a.caps
    ensures sn in a.caps ==> CapsOn(a, wanted, done)[sn] == a.caps[sn]
  {
  }

  /** The loop over the wanted caps of one action. */
  method NarrowCaps(a: Action, an: string, wanted: map<string, F64>) returns (out: Action, errs: set<Refusal>)
    ensures out == a.(caps := CapsWith(a, wanted))
    ensures forall e :: e in errs <==> exists sn :: sn in wanted && RefusesCap(a, an, sn, wanted[sn], e)
  {
    out, errs := a, {};
    var todo := wanted.Keys;
    while todo != {}
      invariant todo <= wanted.Keys
      invariant out == a.(caps := CapsOn(a, wanted, wanted.Keys - todo))
      invariant forall e :: e in errs <==>
                  exists sn :: sn in wanted.Keys - todo && RefusesCap(a, an, sn, wanted[sn], e)
    {
      var sn :| sn in todo;
      CapsOnSnoc(a, wanted, wanted.Keys - todo, sn);
      var more;
      out, more := NarrowCap(out, an, sn, wanted[sn]);
      assert forall e :: e in more <==> RefusesCap(a, an, sn, wanted[sn], e);
      errs := errs + more;
      assert wanted.Keys - (todo - {sn}) == (wanted.Keys - todo) + {sn};
      todo := todo - {sn};
    }
    assert wanted.Keys - {} == wanted.Keys;
  }

  /** The actions with the caps of those in `done` narrowed. */
  function ActionsOn(m: Map, base: Config, done: set<string>): (r: map<string, Action>) {
    map an | an in base.actions && Kept(m, base, an) ::
      if an in done then ActionWith(m, an, base.actions[an]) else base.actions[an]
  }

  /** The caps the map sets for one action. */
  method NarrowAction(m: Map, base: Config, ghost done: set<string>, an: string, was: map<string, Action>)
    returns (actions: map<string, Action>, errs: set<Refusal>)
    requires an in m.caps && an !in done && was == ActionsOn(m, base, done)
    ensures actions == ActionsOn(m, base, done + {an})
    ensures forall e :: e in errs <==> RefusesCaps(m, base, an, e)
  {
    actions := was;
    if an !in actions {
      errs := {CapOfNoAction(an)};
    } else {
      var a;
      a, errs := NarrowCaps(actions[an], an, m.caps[an]);
      actions := actions[an := a];
    }
  }

  /** The loop over the actions whose caps the map sets. */
  method NarrowActions(m: Map, base: Config, kept: map<string, Action>)
    returns (actions: map<string, Action>, errs: set<Refusal>)
    requires kept == ActionsOn(m, base, {})
    ensures actions == ActionsWith(m, base)
    ensures forall e :: e in errs <==> exists an :: an in m.caps && RefusesCaps(m, base, an, e)
  {
    actions, errs := kept, {};
    var todo := m.caps.Keys;
    assert m.caps.Keys - todo == {};
    while todo != {}
      invariant todo <= m.caps.Keys && actions == ActionsOn(m, base, m.caps.Keys - todo)
      invariant forall e :: e in errs <==> exists an :: an in m.caps.Keys - todo && RefusesCaps(m, base, an, e)
    {
      var an :| an in todo;
      assert m.caps.Keys - (todo - {an}) == (m.caps.Keys - todo) + {an};
      var more;
      actions, more := NarrowAction(m, base, m.caps.Keys - todo, an, actions);
      errs := errs + more;
      todo := todo - {an};
    }
    assert m.caps.Keys - {} == m.caps.Keys;
  }

  method NameRefusals(m: Map, base: Config) returns (errs: set<Refusal>)
    ensures forall e :: e in errs <==> RefusesName(m, base, e)
  {
    errs := {};
    if m.actions.Some? {
      errs := set an | an in m.actions.value && an !in base.actions :: NotAnAction(an);
    }
    if m.goal.Some? {
      if Trim(m.goal.value) == [] { errs := errs + {GoalEmpty}; }
      else if |m.goal.value| > MAX_GOAL_CHARS { errs := errs + {GoalTooLong}; }
    }
  }

  method LimitRefusals(m: Map, base: Config) returns (errs: set<Refusal>)
    ensures forall e :: e in errs <==> RefusesLimit(m, base, e)
  {
    errs := When(!m.event.isObject, EventNotObject);
    errs := errs + When(m.event.isObject && m.event.canonicalBytes > MAX_EVENT_BYTES, EventTooLarge);
    errs := errs + When(m.maxSteps.Some? && m.maxSteps.value > base.maxSteps, StepsAbove);
    errs := errs + When(m.actAt.Some? && !ActAtFits(base, m.actAt.value), ActAtBelow);
    errs := errs + When(m.dryRun == Some(false) && base.dryRun, DryRunOff);
  }

  /** The assignments to the copy of the loop. */
  method NarrowedCopy(m: Map, base: Config, actions: map<string, Action>) returns (cfg: Config)
    requires actions == ActionsWith(m, base)
    ensures cfg == Narrowed(m, base)
  {
    cfg := base.(actions := actions, goal := GoalWith(m, base));
    if m.sequence.Some? { cfg := cfg.(sequence := m.sequence.value); }
    if m.maxSteps.Some? && m.maxSteps.value <= base.maxSteps { cfg := cfg.(maxSteps := m.maxSteps.value); }
    if m.actAt.Some? && ActAtFits(base, m.actAt.value) { cfg := cfg.(actAt := m.actAt.value); }
    if m.dryRun.Some? && !(!m.dryRun.value && base.dryRun) { cfg := cfg.(dryRun := m.dryRun.value); }
  }

  /** The narrowed loop, and every reason the map is refused. */
  method NarrowAll(m: Map, base: Config) returns (cfg: Config, errs: set<Refusal>)
    ensures cfg == Narrowed(m, base)
    ensures forall e :: e in errs <==> Refuses(m, base, e)
  {
    var names := NameRefusals(m, base);
    var limits := LimitRefusals(m, base);
    var kept := base.actions;
    if m.actions.Some? {
      kept := map an | an in base.actions && (base.actions[an].tool.None? || an in m.actions.value) :: base.actions[an];
    }
    var actions, caps := NarrowActions(m, base, kept);
    cfg := NarrowedCopy(m, base, actions);
    var problems := ValidationErrors(cfg);
    var loop := set p | p in problems :: Loop(p);
    assert forall e :: e in loop <==> e.Loop? && Has(Narrowed(m, base), e.problem);
    errs := names + limits + caps + loop;
  }

  /** The loop as asked if the map may ask for it and it is sound, or else every reason against it. */
  method Apply(m: Map, base: Config) returns (r: Result<Config, set<Refusal>>)
    ensures r.Ok? <==> Accepted(m, base)
    ensures r.Ok? ==> r.value == Narrowed(m, base) && AsAsked(m, base, r.value)
    ensures r.Ok? <==> MayAsk(m, base) && exists c :: AsAsked(m, base, c) && CapsStay(m, c) && Sound(c)
    ensures r.Err? ==> forall e :: e in r.error <==> Refuses(m, base, e)
  {
    var cfg, errs := NarrowAll(m, base);
    AcceptedExactly(m, base);
    r := if errs == {} then Ok(cfg) else Err(errs);
  }

  // ---- what a loop offers ----

  /** What a slot reads: a list's values, or the one value when there is one. */
  datatype Read = Items(values: seq<Value>) | Single(v: Option<Value>) | Nothing

  /** The cap lets the value through. */
  predicate Within(cap: Option<F64>, v: Value) {
    cap.Some? ==> v.number.Some? && AtMost(v.number.value, cap.value)
  }

  function Filter(cap: Option<F64>, values: seq<Value>): (kept: seq<Value>)
    ensures forall v :: v in kept <==> v in values && Within(cap, v)
  {
    if values == [] then []
    else (if Within(cap, values[0]) then [values[0]] else []) + Filter(cap, values[1..])
  }

  function Take(values: seq<Value>, top: nat): (taken: seq<Value>) {
    if |values| <= top then values else values[..top]
  }

  /** The values a slot offers: a list is cut after the cap, at `top`. */
  function Candidates(s: Slot, cap: Option<F64>, read: Read): (offered: seq<Value>) {
    if s.Static? then Filter(cap, s.values)
    else match ModeOf(s)
      case Some(List(_, _, top)) => if read.Items? then Take(Filter(cap, read.values), top) else []
      case Some(One(_)) => if read.Single? && read.v.Some? && Within(cap, read.v.value) then [read.v.value] else []
      case None => []
  }

  /** The value passes the check before the tool runs. */
  predicate Passes(cap: Option<F64>, v: Value) {
    cap.Some? && v.number.Some? ==> !Greater(v.number.value, cap.value)
  }

  /** The confidence is enough to act. */
  predicate Acts(c: Config, confidence: real) { !Greater(c.actAt, Finite(confidence)) }

  /** With numbers as bounds: what a cap lets through, what it runs, and what is enough to act. */
  lemma InNumbers(v: Value, x: real, cap: real, c: Config)
    ensures Within(None, v) && Passes(None, v) && !Within(Some(NaN), v)
    ensures v.number.None? ==> !Within(Some(Finite(cap)), v) && Passes(Some(Finite(cap)), v)
    ensures v.number == Some(Finite(x)) ==>
              (Within(Some(Finite(cap)), v) <==> x <= cap) && (Passes(Some(Finite(cap)), v) <==> x <= cap)
    ensures c.actAt == Finite(cap) ==> (Acts(c, x) <==> x >= cap)
  {
  }

  /** What is offered is the first `top` values the cap lets through, in their order; `at` are their places. */
  ghost predicate FirstWithin(values: seq<Value>, cap: Option<F64>, top: nat, offered: seq<Value>, at: seq<nat>) {
    |at| == |offered| <= top &&
    (forall i :: 0 <= i < |at| ==> at[i] < |values| && offered[i] == values[at[i]] && Within(cap, values[at[i]])) &&
    (forall i, j :: 0 <= i < j < |at| ==> at[i] < at[j]) &&
    forall k :: 0 <= k < |values| && Within(cap, values[k]) && k !in at ==>
      |at| == top && forall i :: 0 <= i < |at| ==> at[i] < k
  }

  /** `at` are the places of the values the cap lets through. */
  ghost predicate PlacesWithin(cap: Option<F64>, values: seq<Value>, at: seq<nat>) {
    (forall i :: 0 <= i < |at| ==> at[i] < |values|) &&
    (forall i, j :: 0 <= i < j < |at| ==> at[i] < at[j]) &&
    forall k :: 0 <= k < |values| ==> (k in at <==> Within(cap, values[k]))
  }

  function Shifted(at: seq<nat>): (later: seq<nat>) { seq(|at|, i requires 0 <= i < |at| => at[i] + 1) }

  lemma InShifted(at: seq<nat>, k: nat)
    ensures k in Shifted(at) <==> k > 0 && k - 1 in at
  {
    if k > 0 && k - 1 in at {
      var i :| 0 <= i < |at| && at[i] == k - 1;
      assert Shifted(at)[i] == k;
    }
  }

  lemma PlacesCons(cap: Option<F64>, values: seq<Value>, rest: seq<nat>) returns (at: seq<nat>)
    requires values != [] && PlacesWithin(cap, values[1..], rest)
    ensures at == (if Within(cap, values[0]) then [0] else []) + Shifted(rest) && PlacesWithin(cap, values, at)
  {
    at := (if Within(cap, values[0]) then [0] else []) + Shifted(rest);
    forall k | 0 <= k < |values| ensures k in at <==> Within(cap, values[k]) {
      InShifted(rest, k);
      assert k > 0 ==> values[1..][k - 1] == values[k];
    }
  }

  /** The values at those places. */
  function Picked(values: seq<Value>, at: seq<nat>): (r: seq<Value>)
    requires forall i :: 0 <= i < |at| ==> at[i] < |values|
  {
    seq(|at|, i requires 0 <= i < |at| => values[at[i]])
  }

  lemma PickedCons(first: bool, values: seq<Value>, rest: seq<nat>)
    requires values != [] && forall i :: 0 <= i < |rest| ==> rest[i] < |values| - 1
    ensures var at := (if first then [0] else []) + Shifted(rest);
            (forall i :: 0 <= i < |at| ==> at[i] < |values|) &&
            Picked(values, at) == (if first then [values[0]] else []) + Picked(values[1..], rest)
  {
  }

  lemma {:induction false} FilterPlaces(cap: Option<F64>, values: seq<Value>) returns (at: seq<nat>)
    ensures PlacesWithin(cap, values, at) && Filter(cap, values) == Picked(values, at)
  {
    if values == [] {
      at := [];
    } else {
      var rest := FilterPlaces(cap, values[1..]);
      PickedCons(Within(cap, values[0]), values, rest);
      at := PlacesCons(cap, values, rest);
    }
  }

  lemma TopPlaces(cap: Option<F64>, values: seq<Value>, all: seq<nat>, top: nat) returns (at: seq<nat>)
    requires PlacesWithin(cap, values, all)
    ensures FirstWithin(values, cap, top, Take(Picked(values, all), top), at)
  {
    at := if |all| <= top then all else all[..top];
    assert forall i :: 0 <= i < |at| ==> at[i] == all[i] && all[i] in at;
    forall k | 0 <= k < |values| && Within(cap, values[k]) && k !in at
      ensures |at| == top && forall i :: 0 <= i < |at| ==> at[i] < k
    {
      var n :| 0 <= n < |all| && all[n] == k;
    }
  }

  /** What a slot offers, spelled out. */
  lemma OffersExactly(s: Slot, cap: Option<F64>, read: Read) returns (at: seq<nat>)
    ensures s.Static? ==> FirstWithin(s.values, cap, |s.values|, Candidates(s, cap, read), at)
    ensures !s.Static? && ModeOf(s).Some? && ModeOf(s).value.List? && read.Items? ==>
              FirstWithin(read.values, cap, ModeOf(s).value.top, Candidates(s, cap, read), at)
    ensures !s.Static? && ModeOf(s).Some? && ModeOf(s).value.One? && read.Single? ==>
              forall v :: v in Candidates(s, cap, read) <==> read.v == Some(v) && Within(cap, v)
  {
    at := [];
    if s.Static? {
      var all := FilterPlaces(cap, s.values);
      PlacesBound(all, |s.values|);
      at := TopPlaces(cap, s.values, all, |s.values|);
    } else if ModeOf(s).Some? && ModeOf(s).value.List? && read.Items? {
      var all := FilterPlaces(cap, read.values);
      at := TopPlaces(cap, read.values, all, ModeOf(s).value.top);
    }
  }

  lemma {:induction false} PlacesBound(at: seq<nat>, n: nat)
    requires forall i :: 0 <= i < |at| ==> at[i] < n
    requires forall i, j :: 0 <= i < j < |at| ==> at[i] < at[j]
    ensures |at| <= n
  {
    if at != [] { PlacesBound(at[..|at| - 1], at[|at| - 1]); }
  }

  // ---- one cap ----

  /** Whatever is read, `now` offers no value that `was` does not. */
  ghost predicate OffersLess(s: Slot, now: Option<F64>, was: Option<F64>) {
    forall read, v :: v in Candidates(s, now, read) ==> v in Candidates(s, was, read)
  }

  /** `now` lets no value through, and runs none, that `was` does not. */
  ghost predicate LetsLess(now: Option<F64>, was: Option<F64>) {
    (forall v :: Within(now, v) ==> Within(was, v)) && RunsLess(now, was)
  }

  ghost predicate RunsLess(now: Option<F64>, was: Option<F64>) { forall v :: Passes(now, v) ==> Passes(was, v) }

  /** The cap stays, or a finite one that is not above it takes its place. */
  predicate Tighter(now: Option<F64>, was: Option<F64>) {
    now == was || (now.Some? && now.value.Finite? && (was.Some? ==> !Greater(now.value, was.value)))
  }

  /** A tighter cap lets less through, unless it takes the place of NaN, which lets nothing through. */
  lemma CapLetsLess(now: Option<F64>, was: Option<F64>)
    requires Tighter(now, was)
    ensures RunsLess(now, was)
    ensures LetsLess(now, was) <==> now == was || was != Some(NaN)
  {
    if now != was && was == Some(NaN) { assert Within(now, Value("", now)) && !Within(was, Value("", now)); }
  }

  /**
   When a cap may take the place of another without a slot offering more: over a list it
   must be the same, or nothing is taken; else the old one is not NaN, or no static value
   is let through.
  */
  predicate MayCap(s: Slot, now: Option<F64>, was: Option<F64>) {
    now == was ||
    if s.Static? then was != Some(NaN) || forall i :: 0 <= i < |s.values| ==> !Within(now, s.values[i])
    else match ModeOf(s)
      case Some(List(_, _, top)) => top == 0
      case Some(One(_)) => was != Some(NaN)
      case None => true
  }

  /** Exactly then: a tighter cap makes a slot offer no more if and only if it may take the old one's place. */
  lemma CapNarrows(s: Slot, now: Option<F64>, was: Option<F64>)
    requires Tighter(now, was)
    ensures OffersLess(s, now, was) <==> MayCap(s, now, was)
  {
    CapLetsLess(now, was);
    if now != was {
      if s.Static? {
        StaticNarrows(s, now, was);
      } else if ModeOf(s).Some? && ModeOf(s).value.List? {
        if ModeOf(s).value.top > 0 { ListWidens(s, now.value, was); }
      } else if ModeOf(s).Some? {
        OneNarrows(s, now, was);
      }
    }
  }

  lemma StaticNarrows(s: Slot, now: Option<F64>, was: Option<F64>)
    requires s.Static? && now != was && Tighter(now, was)
    ensures OffersLess(s, now, was) <==>
            was != Some(NaN) || forall i :: 0 <= i < |s.values| ==> !Within(now, s.values[i])
  {
    CapLetsLess(now, was);
    if was == Some(NaN) && exists i :: 0 <= i < |s.values| && Within(now, s.values[i]) {
      var i :| 0 <= i < |s.values| && Within(now, s.values[i]);
      assert s.values[i] in Candidates(s, now, Nothing) && s.values[i] !in Candidates(s, was, Nothing);
    }
    if was == Some(NaN) && OffersLess(s, now, was) {
      assert forall i :: 0 <= i < |s.values| ==> s.values[i] in s.values;
    }
  }

  lemma OneNarrows(s: Slot, now: Option<F64>, was: Option<F64>)
    requires !s.Static? && ModeOf(s).Some? && ModeOf(s).value.One? && now != was && Tighter(now, was)
    ensures OffersLess(s, now, was) <==> was != Some(NaN)
  {
    CapLetsLess(now, was);
    if was == Some(NaN) {
      var v := Value("", now);
      assert v in Candidates(s, now, Single(Some(v))) && v !in Candidates(s, was, Single(Some(v)));
    }
  }

  // ---- a list is cut after the cap ----

  function Copies(v: Value, n: nat): (vs: seq<Value>) { seq(n, _ => v) }

  lemma FilterCons(cap: Option<F64>, v: Value, rest: seq<Value>)
    ensures Filter(cap, [v] + rest) == if Within(cap, v) then [v] + Filter(cap, rest) else Filter(cap, rest)
  {
    assert ([v] + rest)[1..] == rest;
  }

  lemma CopiesCons(v: Value, n: nat, tail: seq<Value>)
    requires n > 0
    ensures Copies(v, n) + tail == [v] + (Copies(v, n - 1) + tail)
  {
  }

  lemma {:induction false} FilterCopies(cap: Option<F64>, v: Value, n: nat, last: Value)
    ensures Filter(cap, Copies(v, n) + [last]) ==
            (if Within(cap, v) then Copies(v, n) else []) + Filter(cap, [last])
  {
    if n == 0 {
      assert Copies(v, 0) + [last] == [last];
      assert Copies(v, 0) + Filter(cap, [last]) == [] + Filter(cap, [last]) == Filter(cap, [last]);
    } else {
      FilterCopies(cap, v, n - 1, last);
      CopiesCons(v, n, [last]);
      FilterCons(cap, v, Copies(v, n - 1) + [last]);
      CopiesCons(v, n, Filter(cap, [last]));
    }
  }

  lemma FilterLast(cap: Option<F64>, last: Value)
    ensures Filter(cap, [last]) == if Within(cap, last) then [last] else []
  {
    FilterCons(cap, last, []);
    assert [last] + [] == [last];
  }

  /**
   A lower cap over a list lets the values behind the ones it drops move up: with `top`
   copies of a value that only the old cap lets through before one that both do, only
   the new one offers the latter.
  */
  lemma ListWidens(s: Slot, cap: F64, was: Option<F64>)
    requires !s.Static? && ModeOf(s).Some? && ModeOf(s).value.List? && ModeOf(s).value.top > 0
    requires cap.Finite? && Tighter(Some(cap), was) && was != Some(cap)
    ensures !OffersLess(s, Some(cap), was)
  {
    var low, high := Value("low", Some(cap)), Value("high", was);
    var read := Items(Copies(high, ModeOf(s).value.top) + [low]);
    OffersLow(s, cap, high, low);
    OffersHigh(s, was, high, low);
    assert low in Candidates(s, Some(cap), read) && low !in Candidates(s, was, read);
  }

  lemma OffersLow(s: Slot, cap: F64, high: Value, low: Value)
    requires !s.Static? && ModeOf(s).Some? && ModeOf(s).value.List? && ModeOf(s).value.top > 0
    requires !Within(Some(cap), high) && Within(Some(cap), low)
    ensures Candidates(s, Some(cap), Items(Copies(high, ModeOf(s).value.top) + [low])) == [low]
  {
    FilterCopies(Some(cap), high, ModeOf(s).value.top, low);
    FilterLast(Some(cap), low);
  }

  lemma OffersHigh(s: Slot, was: Option<F64>, high: Value, low: Value)
    requires !s.Static? && ModeOf(s).Some? && ModeOf(s).value.List? && ModeOf(s).value.top > 0
    requires Within(was, high) || !Within(was, low)
    ensures forall v :: v in Candidates(s, was, Items(Copies(high, ModeOf(s).value.top) + [low])) ==> v == high
  {
    var top := ModeOf(s).value.top;
    FilterCopies(was, high, top, low);
    FilterLast(was, low);
    TakeCopies(high, top, low);
    assert Copies(high, top) + [] == Copies(high, top);
  }

  lemma TakeCopies(v: Value, n: nat, last: Value)
    ensures Take(Copies(v, n) + [last], n) == Copies(v, n) == Take(Copies(v, n), n)
    ensures forall x :: x in Copies(v, n) ==> x == v
  {
    assert (Copies(v, n) + [last])[..n] == Copies(v, n);
  }

  // ---- narrower ----

  /** The action differs in its caps only, and offers and runs no value that `b` would not. */
  ghost predicate NarrowerAction(a: Action, b: Action) {
    a == b.(caps := a.caps) &&
    forall sn :: sn in b.slots ==>
      OffersLess(b.slots[sn], CapOf(a, sn), CapOf(b, sn)) && RunsLess(CapOf(a, sn), CapOf(b, sn))
  }

  /** The weaker relation: its caps let no value through, and run none, that those of `b` would not. */
  ghost predicate TighterAction(a: Action, b: Action) {
    a == b.(caps := a.caps) && forall sn :: sn in b.slots ==> LetsLess(CapOf(a, sn), CapOf(b, sn))
  }

  /** All of a loop but what its actions offer. */
  ghost predicate NarrowerFrame(c: Config, b: Config) {
    c == b.(actions := c.actions, sequence := c.sequence, goal := c.goal, maxSteps := c.maxSteps,
            actAt := c.actAt, dryRun := c.dryRun) &&
    c.actions.Keys <= b.actions.Keys &&
    (forall an :: an in b.actions && b.actions[an].tool.None? ==> an in c.actions) &&
    c.maxSteps <= b.maxSteps &&
    (forall x :: Acts(c, x) ==> Acts(b, x)) &&
    (forall an :: an in c.actions && LogsOnly(b, b.actions[an]) ==> LogsOnly(c, c.actions[an])) &&
    TrimEnd(b.goal) <= TrimEnd(c.goal)
  }

  /** `c` offers, runs and decides no more than `b` does. */
  ghost predicate Narrower(c: Config, b: Config) {
    NarrowerFrame(c, b) && forall an :: an in c.actions ==> NarrowerAction(c.actions[an], b.actions[an])
  }

  /** `c` lets through, runs and decides no more than `b` does. */
  ghost predicate TighterLoop(c: Config, b: Config) {
    NarrowerFrame(c, b) && forall an :: an in c.actions ==> TighterAction(c.actions[an], b.actions[an])
  }

  lemma NarrowerReflexive(c: Config)
    ensures Narrower(c, c) && TighterLoop(c, c)
  {
  }

  lemma FrameTransitive(a: Config, b: Config, c: Config)
    requires NarrowerFrame(a, b) && NarrowerFrame(b, c)
    requires forall an :: an in b.actions ==> b.actions[an].tool == c.actions[an].tool
    ensures NarrowerFrame(a, c)
  {
  }

  lemma NarrowerTransitive(a: Config, b: Config, c: Config)
    requires Narrower(a, b) && Narrower(b, c)
    ensures Narrower(a, c)
  {
    FrameTransitive(a, b, c);
    forall an | an in a.actions ensures NarrowerAction(a.actions[an], c.actions[an]) {
      assert an in b.actions && NarrowerAction(b.actions[an], c.actions[an]);
    }
  }

  // ---- what maps make of the caps ----

  /** Every action is one of the loop with tighter caps. */
  ghost predicate TighterCaps(c: Config, b: Config) {
    NarrowerFrame(c, b) &&
    forall an :: an in c.actions ==>
      c.actions[an] == b.actions[an].(caps := c.actions[an].caps) &&
      forall sn :: sn in b.actions[an].slots ==> Tighter(CapOf(c.actions[an], sn), CapOf(b.actions[an], sn))
  }

  /** No cap of `c` makes a slot offer more than with the cap of `b`. */
  predicate MayCapAll(c: Config, b: Config)
    requires c.actions.Keys <= b.actions.Keys
  {
    forall an :: an in c.actions ==>
      forall sn :: sn in b.actions[an].slots ==>
        MayCap(b.actions[an].slots[sn], CapOf(c.actions[an], sn), CapOf(b.actions[an], sn))
  }

  /** No cap of `c` takes the place of a NaN. */
  predicate SparesNaN(c: Config, b: Config)
    requires c.actions.Keys <= b.actions.Keys
  {
    forall an :: an in c.actions ==>
      forall sn :: sn in b.actions[an].slots ==>
        CapOf(c.actions[an], sn) == CapOf(b.actions[an], sn) || CapOf(b.actions[an], sn) != Some(NaN)
  }

  /** With tighter caps a loop is narrower, or tighter, exactly when each of its caps is. */
  lemma CapsDecide(c: Config, b: Config)
    requires TighterCaps(c, b)
    ensures Narrower(c, b) <==> MayCapAll(c, b)
    ensures TighterLoop(c, b) <==> SparesNaN(c, b)
  {
    forall an | an in c.actions
      ensures NarrowerAction(c.actions[an], b.actions[an]) <==>
              forall sn :: sn in b.actions[an].slots ==>
                MayCap(b.actions[an].slots[sn], CapOf(c.actions[an], sn), CapOf(b.actions[an], sn))
      ensures TighterAction(c.actions[an], b.actions[an]) <==>
              forall sn :: sn in b.actions[an].slots ==>
                CapOf(c.actions[an], sn) == CapOf(b.actions[an], sn) || CapOf(b.actions[an], sn) != Some(NaN)
    {
      ActionDecides(c.actions[an], b.actions[an]);
    }
  }

  lemma ActionDecides(a: Action, b: Action)
    requires a == b.(caps := a.caps) && forall sn :: sn in b.slots ==> Tighter(CapOf(a, sn), CapOf(b, sn))
    ensures NarrowerAction(a, b) <==> forall sn :: sn in b.slots ==> MayCap(b.slots[sn], CapOf(a, sn), CapOf(b, sn))
    ensures TighterAction(a, b) <==>
            forall sn :: sn in b.slots ==> CapOf(a, sn) == CapOf(b, sn) || CapOf(b, sn) != Some(NaN)
  {
    forall sn | sn in b.slots
      ensures OffersLess(b.slots[sn], CapOf(a, sn), CapOf(b, sn)) <==> MayCap(b.slots[sn], CapOf(a, sn), CapOf(b, sn))
      ensures RunsLess(CapOf(a, sn), CapOf(b, sn))
      ensures LetsLess(CapOf(a, sn), CapOf(b, sn)) <==> CapOf(a, sn) == CapOf(b, sn) || CapOf(b, sn) != Some(NaN)
    {
      CapNarrows(b.slots[sn], CapOf(a, sn), CapOf(b, sn));
      CapLetsLess(CapOf(a, sn), CapOf(b, sn));
    }
  }

  lemma GoalStays(m: Map, base: Config)
    ensures TrimEnd(base.goal) <= TrimEnd(GoalWith(m, base))
  {
    if GoalWith(m, base) != base.goal {
      var goal, task := GoalWith(m, base), Trim(m.goal.value);
      TrimEndEnds(m.goal.value);
      TrimStartEnds(TrimEnd(m.goal.value));
      assert goal[|goal| - 1] == task[|task| - 1];
      assert TrimEnd(goal) == goal;
    }
  }

  lemma LimitsNarrow(m: Map, base: Config)
    requires Accepted(m, base)
    ensures var c := Narrowed(m, base);
            c.maxSteps <= base.maxSteps && (base.dryRun ==> c.dryRun) && forall x :: Acts(c, x) ==> Acts(base, x)
  {
    assert !Refuses(m, base, DryRunOff);
  }

  lemma ActionTightens(m: Map, base: Config, an: string)
    requires Accepted(m, base) && Kept(m, base, an)
    ensures var a, b := ActionWith(m, an, base.actions[an]), base.actions[an];
            a == b.(caps := a.caps) && forall sn :: sn in b.slots ==> Tighter(CapOf(a, sn), CapOf(b, sn))
  {
    if an in m.caps { AcceptedCaps(m, base, an); }
  }

  /** An accepted map keeps all of a loop but the caps, and makes those tighter. */
  lemma MapTightensCaps(m: Map, base: Config)
    requires Accepted(m, base)
    ensures TighterCaps(Narrowed(m, base), base)
  {
    var c := Narrowed(m, base);
    FrameOf(m, base);
    forall an | an in c.actions
      ensures c.actions[an] == base.actions[an].(caps := c.actions[an].caps)
      ensures forall sn :: sn in base.actions[an].slots ==>
                Tighter(CapOf(c.actions[an], sn), CapOf(base.actions[an], sn))
    {
      ActionTightens(m, base, an);
    }
  }

  lemma FrameOf(m: Map, base: Config)
    requires Accepted(m, base)
    ensures NarrowerFrame(Narrowed(m, base), base)
  {
    GoalStays(m, base);
    LimitsNarrow(m, base);
  }

  /**
   An accepted map makes a loop that offers, runs and decides no more if and only if each
   of its caps may take the old one's place: a tighter cap over a list never may, as it
   lets later values into the first `top`, and none may over a NaN.
  */
  lemma MapNarrows(m: Map, base: Config)
    requires Accepted(m, base)
    ensures Narrower(Narrowed(m, base), base) <==> MayCapAll(Narrowed(m, base), base)
  {
    MapTightensCaps(m, base);
    CapsDecide(Narrowed(m, base), base);
  }

  /** And a loop whose caps let through no more if and only if it sets no cap over a NaN one. */
  lemma MapTightens(m: Map, base: Config)
    requires Accepted(m, base)
    ensures TighterLoop(Narrowed(m, base), base) <==> SparesNaN(Narrowed(m, base), base)
  {
    MapTightensCaps(m, base);
    CapsDecide(Narrowed(m, base), base);
  }

  /** No cap is NaN. */
  ghost predicate NumericCaps(c: Config) {
    forall an, sn :: an in c.actions && sn in c.actions[an].caps ==> !c.actions[an].caps[sn].NaN?
  }

  /** The loop of an accepted map has no dangling reference, and its caps are again numbers if they were. */
  lemma MapKeepsClosed(m: Map, base: Config)
    requires Accepted(m, base)
    ensures Closed(Narrowed(m, base))
    ensures NumericCaps(base) ==> NumericCaps(Narrowed(m, base))
  {
    forall e ensures !Has(Narrowed(m, base), e) { assert !Refuses(m, base, Loop(e)); }
    SoundIsClosed(Narrowed(m, base));
  }

  // ---- chains of maps ----

  /** Each map is accepted by the loop the maps before it left. */
  ghost predicate AcceptedAll(maps: seq<Map>, base: Config)
    decreases |maps|
  {
    maps == [] || (Accepted(maps[0], base) && AcceptedAll(maps[1..], Narrowed(maps[0], base)))
  }

  function NarrowedAll(maps: seq<Map>, base: Config): (r: Config)
    decreases |maps|
  {
    if maps == [] then base else NarrowedAll(maps[1..], Narrowed(maps[0], base))
  }

  lemma TighterTransitive(a: Config, b: Config, c: Config)
    requires TighterCaps(a, b) && TighterCaps(b, c)
    ensures TighterCaps(a, c)
  {
    FrameTransitive(a, b, c);
    forall an, sn | an in a.actions && sn in c.actions[an].slots
      ensures Tighter(CapOf(a.actions[an], sn), CapOf(c.actions[an], sn))
    {
      assert Tighter(CapOf(a.actions[an], sn), CapOf(b.actions[an], sn));
      assert Tighter(CapOf(b.actions[an], sn), CapOf(c.actions[an], sn));
    }
  }

  lemma {:induction false} ChainTightensCaps(maps: seq<Map>, base: Config)
    requires AcceptedAll(maps, base)
    ensures TighterCaps(NarrowedAll(maps, base), base)
    ensures NumericCaps(base) ==> NumericCaps(NarrowedAll(maps, base))
    ensures maps != [] ==> Closed(NarrowedAll(maps, base))
    decreases |maps|
  {
    if maps != [] {
      var next := Narrowed(maps[0], base);
      MapTightensCaps(maps[0], base);
      MapKeepsClosed(maps[0], base);
      ChainTightensCaps(maps[1..], next);
      TighterTransitive(NarrowedAll(maps, base), next, base);
    }
  }

  /**
   The same over any chain of accepted maps, between its end and its beginning: what is
   offered narrows exactly when each changed cap may take the first one's place, what is
   let through exactly when none of those was NaN, and never widens from caps that are
   numbers.
  */
  lemma ChainNarrows(maps: seq<Map>, base: Config)
    requires AcceptedAll(maps, base)
    ensures var c := NarrowedAll(maps, base);
            NarrowerFrame(c, base) && (Narrower(c, base) <==> MayCapAll(c, base)) &&
            (TighterLoop(c, base) <==> SparesNaN(c, base)) &&
            (NumericCaps(base) ==> TighterLoop(c, base)) && (maps != [] ==> Closed(c))
  {
    ChainTightensCaps(maps, base);
    CapsDecide(NarrowedAll(maps, base), base);
    if NumericCaps(base) { NumbersSpared(NarrowedAll(maps, base), base); }
  }

  lemma NumbersSpared(c: Config, b: Config)
    requires c.actions.Keys <= b.actions.Keys && NumericCaps(b)
    ensures SparesNaN(c, b)
  {
  }

  // ---- maps that widen ----

  const HOLD: Action := Action("nothing", None, "", map[], map[], map[], false, map[])

  const ROWS: Slot := FromEvent("/rows", Some("v"), 1)

  function Plan(cap: F64): (a: Action) {
    Action("plan", Some("lp_swap_plan"), "", map["size" := ROWS], map[], map["size" := cap], true, map[])
  }

  /** A loop with one list slot, cut at one, and a cap. */
  function Loop1(cap: F64): (c: Config) {
    Config("m", "g", "a", 8, Finite(0.8), 4, true, true, map[], 20, map[], 30,
           map["hold" := HOLD, "plan" := Plan(cap)], [])
  }

  /** A map that sets the cap to 2. */
  const TO_TWO: Map :=
    Map(None, None, Event(true, 2), None, map["plan" := map["size" := Finite(2.0)]], None, None, None)

  lemma SoundExample(cap: F64)
    ensures Sound(Loop1(cap))
  {
    var c := Loop1(cap);
    assert Trim("g") == "g" by { assert TrimEnd("g") == "g"; }
    assert c.actions["hold"].tool.None?;
    forall e ensures !Has(c, e) {
      forall an | an in c.actions ensures !HasAction(c, an, c.actions[an], e) {
        ActionIsClosed(c, an, c.actions[an]);
      }
    }
  }

  lemma ExampleNarrowed(cap: F64)
    requires !Greater(Finite(2.0), cap)
    ensures Narrowed(TO_TWO, Loop1(cap)) == Loop1(Finite(2.0))
  {
    assert CapsWith(Plan(cap), TO_TWO.caps["plan"]) == map["size" := Finite(2.0)];
    assert ActionsWith(TO_TWO, Loop1(cap)) == Loop1(Finite(2.0)).actions;
  }

  lemma ExampleNotRefused(cap: F64, e: Refusal)
    requires !Greater(Finite(2.0), cap) && Narrowed(TO_TWO, Loop1(cap)) == Loop1(Finite(2.0))
    requires Sound(Loop1(Finite(2.0)))
    ensures !Refuses(TO_TWO, Loop1(cap), e)
  {
    assert e.Loop? ==> !Has(Loop1(Finite(2.0)), e.problem);
  }

  lemma ExampleAccepted(cap: F64)
    requires !Greater(Finite(2.0), cap)
    ensures Sound(Loop1(cap)) && Accepted(TO_TWO, Loop1(cap))
  {
    SoundExample(cap);
    SoundExample(Finite(2.0));
    ExampleNarrowed(cap);
    forall e ensures !Refuses(TO_TWO, Loop1(cap), e) { ExampleNotRefused(cap, e); }
  }

  lemma ExampleCaps(cap: F64)
    requires !Greater(Finite(2.0), cap) && cap != Finite(2.0)
    ensures var c, b := Loop1(Finite(2.0)), Loop1(cap); !MayCapAll(c, b) && (SparesNaN(c, b) <==> !cap.NaN?)
  {
    var c, b := Loop1(Finite(2.0)), Loop1(cap);
    assert c.actions["plan"] == Plan(Finite(2.0)) && b.actions["plan"] == Plan(cap);
    assert CapOf(Plan(Finite(2.0)), "size") == Some(Finite(2.0)) && CapOf(Plan(cap), "size") == Some(cap);
    assert ModeOf(ROWS) == Some(List("/rows", "v", 1));
  }

  lemma ExampleWidens(cap: F64)
    requires !Greater(Finite(2.0), cap) && cap != Finite(2.0)
    ensures var c := Loop1(cap);
            Sound(c) && Accepted(TO_TWO, c) && !Narrower(Narrowed(TO_TWO, c), c) &&
            (TighterLoop(Narrowed(TO_TWO, c), c) <==> !cap.NaN?)
  {
    ExampleAccepted(cap);
    ExampleNarrowed(cap);
    ExampleCaps(cap);
    MapTightens(TO_TWO, Loop1(cap));
    MapNarrows(TO_TWO, Loop1(cap));
  }

  lemma ListOffers(cap: real)
    requires 1.0 <= cap
    ensures var three, one := Value("3", Some(Finite(3.0))), Value("1", Some(Finite(1.0)));
            Candidates(ROWS, Some(Finite(cap)), Items([three, one])) == if cap >= 3.0 then [three] else [one]
  {
    var three, one := Value("3", Some(Finite(3.0))), Value("1", Some(Finite(1.0)));
    assert Copies(three, 1) + [one] == [three, one];
    FilterCopies(Some(Finite(cap)), three, 1, one);
    FilterLast(Some(Finite(cap)), one);
    TakeCopies(three, 1, one);
    assert Copies(three, 1) == [three];
  }

  /** The map lowers the cap from 5 to 2, and the list offers 1 where it offered 3. */
  lemma LowerCapWidens()
    ensures var c := Loop1(Finite(5.0));
            Sound(c) && Accepted(TO_TWO, c) && TighterLoop(Narrowed(TO_TWO, c), c) &&
            !Narrower(Narrowed(TO_TWO, c), c)
    ensures var three, one := Value("3", Some(Finite(3.0))), Value("1", Some(Finite(1.0)));
            Candidates(ROWS, Some(Finite(5.0)), Items([three, one])) == [three] &&
            Candidates(ROWS, Some(Finite(2.0)), Items([three, one])) == [one]
  {
    ExampleWidens(Finite(5.0));
    ListOffers(5.0);
    ListOffers(2.0);
  }

  /** The loader takes a NaN cap, a map may replace it, and the loop then lets values through that it did not. */
  lemma NaNCapWidens()
    ensures var c := Loop1(NaN);
            Sound(c) && Accepted(TO_TWO, c) && !TighterLoop(Narrowed(TO_TWO, c), c) &&
            !Narrower(Narrowed(TO_TWO, c), c)
    ensures var one := Value("1", Some(Finite(1.0)));
            !Within(Some(NaN), one) && Within(Some(Finite(2.0)), one)
  {
    ExampleWidens(NaN);
  }
}
