/**
 A decision loop's configuration and its structural checks
 (src/config/decision_loop.rs). Problems are collected as a set: which problem is
 named, not the order or the wording of the messages.
*/
module DecisionLoop {
  import opened Prelude

  /** An `f64` as the checks read it. */
  datatype F64 = Finite(r: real) | PosInf | NegInf | NaN

  predicate Greater(a: F64, b: F64) {
    match (a, b)
    case (NaN, _) => false
    case (_, NaN) => false
    case (Finite(x), Finite(y)) => x > y
    case (PosInf, _) => !b.PosInf?
    case (_, NegInf) => !a.NegInf?
    case _ => false
  }

  predicate AtMost(a: F64, b: F64) { !a.NaN? && !b.NaN? && !Greater(a, b) }

  /** A value of a slot: as it is shown, and its number when it has one (text may be one too). */
  datatype Value = Value(shown: string, number: Option<F64>)

  datatype Slot =
    | Static(values: seq<Value>)
    | FromHistory(source: string, items: Option<string>, value: Option<string>, path: Option<string>, top: nat)
    | FromObservation(observation: string, items: Option<string>, value: Option<string>, path: Option<string>, top: nat)
    | FromEvent(event: string, value: Option<string>, top: nat)

  datatype Mode = List(items: string, value: string, top: nat) | One(path: string)

  datatype Action = Action(
    description: string,
    tool: Option<string>,
    args: string,
    slots: map<string, Slot>,
    reduce: map<string, string>,
    caps: map<string, F64>,
    readOnly: bool,
    requiresFresh: map<string, nat>)

  datatype SeqStep = SeqStep(action: string, optional: bool)

  datatype Config = Config(
    model: string,
    goal: string,
    agent: string,
    history: nat,
    actAt: F64,
    maxSteps: nat,
    dryRun: bool,
    escalate: bool,
    eventReduce: map<string, string>,
    timeoutSecs: nat,
    world: map<string, string>,
    worldMaxAgeSecs: nat,
    actions: map<string, Action>,
    sequence: seq<SeqStep>)

  // ---- text ----

  /** Unicode White_Space. */
  predicate IsSpace(c: char) {
    '\t' <= c <= '\r' || c == ' ' || c == '\U{0085}' || c == '\U{00A0}' || c == '\U{1680}' ||
    '\U{2000}' <= c <= '\U{200A}' || c == '\U{2028}' || c == '\U{2029}' || c == '\U{202F}' ||
    c == '\U{205F}' || c == '\U{3000}'
  }

  function TrimEnd(s: string): (r: string) {
    if s != [] && IsSpace(s[|s| - 1]) then TrimEnd(s[..|s| - 1]) else s
  }

  function TrimStart(s: string): (r: string) {
    if s != [] && IsSpace(s[0]) then TrimStart(s[1..]) else s
  }

  function Trim(s: string): (r: string) { TrimStart(TrimEnd(s)) }

  lemma {:induction false} TrimEndEnds(s: string)
    ensures TrimEnd(s) <= s
    ensures TrimEnd(s) != [] ==> !IsSpace(TrimEnd(s)[|TrimEnd(s)| - 1])
  {
    if s != [] && IsSpace(s[|s| - 1]) { TrimEndEnds(s[..|s| - 1]); }
  }

  lemma {:induction false} TrimEndSplits(s: string) returns (j: nat)
    ensures j <= |s| && TrimEnd(s) == s[..j] && (j > 0 ==> !IsSpace(s[j - 1]))
    ensures forall k :: j <= k < |s| ==> IsSpace(s[k])
  {
    if s != [] && IsSpace(s[|s| - 1]) { j := TrimEndSplits(s[..|s| - 1]); } else { j := |s|; }
  }

  lemma {:induction false} TrimStartSplits(s: string) returns (i: nat)
    ensures i <= |s| && TrimStart(s) == s[i..] && (i < |s| ==> !IsSpace(s[i]))
    ensures forall k :: 0 <= k < i ==> IsSpace(s[k])
  {
    i := 0;
    if s != [] && IsSpace(s[0]) {
      i := TrimStartSplits(s[1..]);
      i := i + 1;
      assert forall k :: 0 < k < i ==> s[k] == s[1..][k - 1];
    }
  }

  /** What is trimmed away is space at the ends, and all of it. */
  lemma TrimSplits(s: string) returns (i: nat, j: nat)
    ensures i <= j <= |s| && Trim(s) == s[i..j]
    ensures forall k :: 0 <= k < i || j <= k < |s| ==> IsSpace(s[k])
    ensures i < j ==> !IsSpace(s[i]) && !IsSpace(s[j - 1])
  {
    j := TrimEndSplits(s);
    i := TrimStartSplits(s[..j]);
    assert forall k :: 0 <= k < i ==> s[..j][k] == s[k];
  }

  lemma {:induction false} TrimStartEnds(s: string)
    ensures TrimStart(s) != [] ==> s != [] && TrimStart(s)[|TrimStart(s)| - 1] == s[|s| - 1]
  {
    if s != [] && IsSpace(s[0]) { TrimStartEnds(s[1..]); }
  }

  // ---- slots ----

  function Sourced(items: Option<string>, value: Option<string>, path: Option<string>, top: nat): (r: Option<Mode>) {
    match (items, value, path)
    case (Some(i), Some(v), None) => Some(List(i, v, top))
    case (None, None, Some(p)) => Some(One(p))
    case _ => None
  }

  /** List or binding mode of a sourced slot. */
  function ModeOf(s: Slot): (r: Option<Mode>) {
    match s
    case Static(_) => None
    case FromHistory(_, items, value, path, top) => Sourced(items, value, path, top)
    case FromObservation(_, items, value, path, top) => Sourced(items, value, path, top)
    case FromEvent(event, value, top) =>
      Some(if value.Some? then List(event, value.value, top) else One(event))
  }

  predicate BadMode(s: Slot) {
    match s
    case Static(_) => false
    case FromHistory(_, _, _, _, _) => ModeOf(s).None?
    case FromObservation(_, _, _, _, _) => ModeOf(s).None?
    case FromEvent(event, _, _) => event == "" || event[0] != '/'
  }

  /** A slot that is not malformed reads a list or one value, where its fields say; it never guesses. */
  lemma SoundSlotHasOneMode(s: Slot)
    requires !BadMode(s) && !s.Static?
    ensures s.FromHistory? || s.FromObservation? ==>
              if s.path.Some? then s.items.None? && s.value.None? && ModeOf(s) == Some(One(s.path.value))
              else s.items.Some? && s.value.Some? && ModeOf(s) == Some(List(s.items.value, s.value.value, s.top))
    ensures s.FromEvent? ==>
              s.event != "" && s.event[0] == '/' &&
              ModeOf(s) == Some(if s.value.Some? then List(s.event, s.value.value, s.top) else One(s.event))
  {
  }

  // ---- problems ----

  datatype Problem =
    | GoalMissing | ActAtRange | NoHistory | NoSteps | NoActions | NoTerminal | StepsTooFew
    | BadWorldKey(alias: string)
    | StepUnknown(action: string)
    | StepTerminal(action: string)
    | TerminalWithSlots(action: string)
    | NoCandidates(action: string, slot: string)
    | SourceUnknown(action: string, slot: string)
    | ObservationUnknown(action: string, slot: string)
    | SlotMode(action: string, slot: string)
    | RequiresUnknown(action: string, alias: string)
    | CapWithoutSlot(action: string, cap: string)

  /** `c` has the problem: one of the whole, of a step, or of an action. */
  ghost predicate Has(c: Config, e: Problem) {
    HasLimit(c, e) || HasSection(c, e) || HasStep(c, e, |c.sequence|) ||
    exists an :: an in c.actions && HasAction(c, an, c.actions[an], e)
  }

  ghost predicate HasLimit(c: Config, e: Problem) {
    match e
    case GoalMissing => Trim(c.goal) == []
    case ActAtRange => !(Greater(c.actAt, Finite(0.0)) && AtMost(c.actAt, Finite(1.0)))
    case NoHistory => c.history == 0
    case NoSteps => c.maxSteps == 0
    case StepsTooFew => c.sequence != [] && c.maxSteps <= |c.sequence|
    case _ => false
  }

  ghost predicate HasSection(c: Config, e: Problem) {
    match e
    case NoActions => c.actions == map[]
    case NoTerminal => forall an :: an in c.actions ==> c.actions[an].tool.Some?
    case BadWorldKey(alias) => alias in c.world && ':' !in c.world[alias]
    case _ => false
  }

  /** One of the first `n` steps is no action, or a terminal one. */
  ghost predicate HasStep(c: Config, e: Problem, n: nat)
    requires n <= |c.sequence|
  {
    (e.StepUnknown? || e.StepTerminal?) &&
    (exists i :: 0 <= i < n && c.sequence[i].action == e.action) &&
    (if e.StepUnknown? then e.action !in c.actions else e.action in c.actions && c.actions[e.action].tool.None?)
  }

  predicate HasAction(c: Config, an: string, a: Action, e: Problem) {
    match e
    case TerminalWithSlots(x) => x == an && a.tool.None? && a.slots != map[]
    case RequiresUnknown(x, alias) => x == an && alias in a.requiresFresh && alias !in c.world
    case CapWithoutSlot(x, cap) => x == an && cap in a.caps && cap !in a.slots
    case NoCandidates(x, sn) => x == an && sn in a.slots && HasSlot(c, an, sn, a.slots[sn], e)
    case SourceUnknown(x, sn) => x == an && sn in a.slots && HasSlot(c, an, sn, a.slots[sn], e)
    case ObservationUnknown(x, sn) => x == an && sn in a.slots && HasSlot(c, an, sn, a.slots[sn], e)
    case SlotMode(x, sn) => x == an && sn in a.slots && HasSlot(c, an, sn, a.slots[sn], e)
    case _ => false
  }

  predicate HasSlot(c: Config, an: string, sn: string, s: Slot, e: Problem) {
    match e
    case NoCandidates(x, y) => x == an && y == sn && s.Static? && s.values == []
    case SourceUnknown(x, y) => x == an && y == sn && s.FromHistory? && s.source !in c.actions
    case ObservationUnknown(x, y) => x == an && y == sn && s.FromObservation? && s.observation !in c.world
    case SlotMode(x, y) => x == an && y == sn && BadMode(s)
    case _ => false
  }

  method SlotErrors(c: Config, an: string, sn: string, s: Slot) returns (errs: set<Problem>)
    ensures forall e :: e in errs <==> HasSlot(c, an, sn, s, e)
  {
    errs := {};
    match s {
      case Static(values) => if values == [] { errs := errs + {NoCandidates(an, sn)}; }
      case FromHistory(source, _, _, _, _) => if source !in c.actions { errs := errs + {SourceUnknown(an, sn)}; }
      case FromObservation(observation, _, _, _, _) =>
        if observation !in c.world { errs := errs + {ObservationUnknown(an, sn)}; }
      case FromEvent(_, _, _) =>
    }
    if BadMode(s) { errs := errs + {SlotMode(an, sn)}; }
  }

  method ActionErrors(c: Config, an: string, a: Action) returns (errs: set<Problem>)
    ensures forall e :: e in errs <==> HasAction(c, an, a, e)
  {
    errs := {};
    if a.tool.None? && a.slots != map[] { errs := errs + {TerminalWithSlots(an)}; }
    ghost var terminal := errs;
    var slots := a.slots.Keys;
    while slots != {}
      invariant slots <= a.slots.Keys
      invariant forall e :: e in errs <==>
                  e in terminal || exists sn :: sn in a.slots.Keys - slots && HasSlot(c, an, sn, a.slots[sn], e)
    {
      var sn :| sn in slots;
      var more := SlotErrors(c, an, sn, a.slots[sn]);
      errs := errs + more;
      slots := slots - {sn};
    }
    errs := errs +
      (set alias | alias in a.requiresFresh && alias !in c.world :: RequiresUnknown(an, alias)) +
      (set cap | cap in a.caps && cap !in a.slots :: CapWithoutSlot(an, cap));
  }

  /** The limits of the loop as a whole. */
  method LimitErrors(c: Config) returns (errs: set<Problem>)
    ensures forall e :: e in errs <==> HasLimit(c, e)
  {
    errs := When(Trim(c.goal) == [], GoalMissing);
    errs := errs + When(!(Greater(c.actAt, Finite(0.0)) && AtMost(c.actAt, Finite(1.0))), ActAtRange);
    errs := errs + When(c.history == 0, NoHistory) + When(c.maxSteps == 0, NoSteps);
    errs := errs + When(c.sequence != [] && c.maxSteps <= |c.sequence|, StepsTooFew);
  }

  /** The action set and the world keys. */
  method SectionErrors(c: Config) returns (errs: set<Problem>)
    ensures forall e :: e in errs <==> HasSection(c, e)
  {
    errs := When(c.actions == map[], NoActions);
    errs := errs + When(forall an :: an in c.actions ==> c.actions[an].tool.Some?, NoTerminal);
    errs := errs + set alias | alias in c.world && ':' !in c.world[alias] :: BadWorldKey(alias);
  }

  method StepErrors(c: Config) returns (errs: set<Problem>)
    ensures forall e :: e in errs <==> HasStep(c, e, |c.sequence|)
  {
    errs := {};
    for i := 0 to |c.sequence|
      invariant forall e :: e in errs <==> HasStep(c, e, i)
    {
      var an := c.sequence[i].action;
      if an !in c.actions { errs := errs + {StepUnknown(an)}; }
      else if c.actions[an].tool.None? { errs := errs + {StepTerminal(an)}; }
    }
  }

  /** Names a problem if and only if the configuration has it. */
  method ValidationErrors(c: Config) returns (errs: set<Problem>)
    ensures forall e :: e in errs <==> Has(c, e)
  {
    var limits := LimitErrors(c);
    var sections := SectionErrors(c);
    var steps := StepErrors(c);
    var ofActions: set<Problem> := {};
    var todo := c.actions.Keys;
    while todo != {}
      invariant todo <= c.actions.Keys
      invariant forall e :: e in ofActions <==>
                  exists an :: an in c.actions.Keys - todo && HasAction(c, an, c.actions[an], e)
    {
      var an :| an in todo;
      var more := ActionErrors(c, an, c.actions[an]);
      ofActions := ofActions + more;
      todo := todo - {an};
    }
    errs := limits + sections + steps + ofActions;
  }

  ghost predicate Sound(c: Config) { forall e :: !Has(c, e) }

  /** What a slot reads is there, and it reads it in one way. */
  predicate SlotClosed(c: Config, s: Slot) {
    match s
    case Static(values) => values != []
    case FromHistory(source, _, _, _, _) => source in c.actions && ModeOf(s).Some?
    case FromObservation(observation, _, _, _, _) => observation in c.world && ModeOf(s).Some?
    case FromEvent(event, _, _) => event != "" && event[0] == '/'
  }

  ghost predicate ActionClosed(c: Config, a: Action) {
    a.requiresFresh.Keys <= c.world.Keys && a.caps.Keys <= a.slots.Keys &&
    (a.tool.None? ==> a.slots == map[]) &&
    forall sn :: sn in a.slots ==> SlotClosed(c, a.slots[sn])
  }

  /** No dangling reference, and a chain that can end on a terminal action. */
  ghost predicate Closed(c: Config) {
    (exists an :: an in c.actions && c.actions[an].tool.None?) &&
    (forall an :: an in c.actions ==> ActionClosed(c, c.actions[an])) &&
    (forall i :: 0 <= i < |c.sequence| ==>
      c.sequence[i].action in c.actions && c.actions[c.sequence[i].action].tool.Some?) &&
    (c.sequence != [] ==> |c.sequence| < c.maxSteps)
  }

  lemma ActionIsClosed(c: Config, an: string, a: Action)
    ensures (forall e :: !HasAction(c, an, a, e)) <==> ActionClosed(c, a)
  {
    if forall e :: !HasAction(c, an, a, e) {
      assert !HasAction(c, an, a, TerminalWithSlots(an));
      forall alias | alias in a.requiresFresh ensures alias in c.world {
        assert !HasAction(c, an, a, RequiresUnknown(an, alias));
      }
      forall cap | cap in a.caps ensures cap in a.slots {
        assert !HasAction(c, an, a, CapWithoutSlot(an, cap));
      }
      forall sn | sn in a.slots ensures SlotClosed(c, a.slots[sn]) {
        assert !HasAction(c, an, a, NoCandidates(an, sn)) && !HasAction(c, an, a, SourceUnknown(an, sn));
        assert !HasAction(c, an, a, ObservationUnknown(an, sn)) && !HasAction(c, an, a, SlotMode(an, sn));
      }
    }
  }

  lemma StepsAreClosed(c: Config)
    ensures (forall e :: !HasStep(c, e, |c.sequence|)) <==>
            forall i :: 0 <= i < |c.sequence| ==>
              c.sequence[i].action in c.actions && c.actions[c.sequence[i].action].tool.Some?
  {
    if forall e :: !HasStep(c, e, |c.sequence|) {
      forall i | 0 <= i < |c.sequence|
        ensures c.sequence[i].action in c.actions && c.actions[c.sequence[i].action].tool.Some?
      {
        assert !HasStep(c, StepUnknown(c.sequence[i].action), |c.sequence|);
        assert !HasStep(c, StepTerminal(c.sequence[i].action), |c.sequence|);
      }
    }
  }

  lemma GeneralIsClosed(c: Config)
    ensures (forall e :: !HasLimit(c, e) && !HasSection(c, e)) <==>
            Limits(c) && (exists an :: an in c.actions && c.actions[an].tool.None?) &&
            (c.sequence != [] ==> |c.sequence| < c.maxSteps)
  {
    if forall e :: !HasLimit(c, e) && !HasSection(c, e) {
      assert !HasSection(c, NoTerminal) && !HasLimit(c, StepsTooFew) && !HasLimit(c, ActAtRange);
      assert !HasLimit(c, GoalMissing) && !HasLimit(c, NoHistory) && !HasLimit(c, NoSteps);
      forall alias | alias in c.world ensures ':' in c.world[alias] { assert !HasSection(c, BadWorldKey(alias)); }
    }
  }

  /** The goal and the limits are there, and the world's keys have a schema. */
  ghost predicate Limits(c: Config) {
    Trim(c.goal) != [] && Greater(c.actAt, Finite(0.0)) && AtMost(c.actAt, Finite(1.0)) &&
    c.history >= 1 && c.maxSteps >= 1 && forall alias :: alias in c.world ==> ':' in c.world[alias]
  }

  /**
   A configuration has no problem if and only if its limits are set, it refers only to what
   it has, and it can always stop.
  */
  lemma SoundIsClosed(c: Config)
    ensures Sound(c) <==> Closed(c) && Limits(c)
  {
    GeneralIsClosed(c);
    StepsAreClosed(c);
    forall an | an in c.actions
      ensures (forall e :: !HasAction(c, an, c.actions[an], e)) <==> ActionClosed(c, c.actions[an])
    {
      ActionIsClosed(c, an, c.actions[an]);
    }
    if Sound(c) { SoundParts(c); }
  }

  lemma SoundParts(c: Config)
    requires Sound(c)
    ensures forall e :: !HasLimit(c, e) && !HasSection(c, e) && !HasStep(c, e, |c.sequence|)
    ensures forall an, e :: an in c.actions ==> !HasAction(c, an, c.actions[an], e)
  {
    forall e ensures !HasLimit(c, e) && !HasSection(c, e) && !HasStep(c, e, |c.sequence|) { assert !Has(c, e); }
    forall an, e | an in c.actions ensures !HasAction(c, an, c.actions[an], e) { assert !Has(c, e); }
  }

  /** The loop only logs `a` instead of running it. */
  predicate LogsOnly(c: Config, a: Action) { c.dryRun && a.tool.Some? && !a.readOnly }
}
