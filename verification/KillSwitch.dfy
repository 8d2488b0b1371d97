/**
 The kill-switch halt state machine (src/bolt_v3_kill_switch.rs). The hash that names a halt enters as a
 function of the trigger.
 */
module KillSwitch {
  import opened Common

  datatype TriggerKind = LossGovernorBreach | ProviderCollateralAllowanceRuntimeFailure

  datatype Trigger = Trigger(
    kind: TriggerKind,
    source: string,
    sourceTimestampNs: nat,
    reason: string,
    lossHaltReason: Option<string>)

  datatype State =
    | Armed
    | Halting(haltId: string, trigger: Trigger)
    | Halted(haltId: string, trigger: Trigger)
    | Cancelling(haltId: string)
    | Flattening(haltId: string)
    | Flat(haltId: string)
    | FailedManualIntervention(haltId: string, reason: string)

  datatype Event =
    | HaltTriggered(trigger: Trigger)
    | DurableHaltEvidenceRecorded
    | DurableHaltEvidenceWriteFailed(reason: string)
    | HaltActionDispatchFailed(reason: string)
    | ReconciliationProofReceived
    | ManualResetRequested(operatorId: string)

  datatype Context = Context(
    stateWriteSucceeded: bool,
    durableHaltEvidenceRecorded: bool,
    operatorAuthorized: bool,
    manualResetEvidenceValid: bool,
    mandatoryProofStreamsFresh: bool,
    noOutstandingOrderRisk: bool,
    noOpenPositions: bool,
    noPendingEntryRisk: bool)

  datatype TransitionError =
    | MissingDurableHaltEvidence
    | UnauthorizedManualReset
    | InvalidManualResetEvidence
    | MissingFreshReconciliationProof
    | ReconciliationNotFlat
    | IllegalTransition

  predicate Clean(c: Context) {
    c.noOutstandingOrderRisk && c.noOpenPositions && c.noPendingEntryRisk
  }

  function Transition(haltIdOf: Trigger -> string, state: State, event: Event, c: Context)
    : Result<State, TransitionError>
  {
    match (state, event)
    case (Armed, HaltTriggered(trigger)) => Ok(Halting(haltIdOf(trigger), trigger))
    case (Halting(haltId, trigger), DurableHaltEvidenceRecorded) =>
      if !c.stateWriteSucceeded || !c.durableHaltEvidenceRecorded then Err(MissingDurableHaltEvidence)
      else Ok(Halted(haltId, trigger))
    case (Halting(haltId, _), DurableHaltEvidenceWriteFailed(reason)) => Ok(FailedManualIntervention(haltId, reason))
    case (Halting(haltId, _), HaltActionDispatchFailed(reason)) => Ok(FailedManualIntervention(haltId, reason))
    case (Halted(haltId, _), ReconciliationProofReceived) =>
      if !c.mandatoryProofStreamsFresh then Err(MissingFreshReconciliationProof)
      else if !Clean(c) then Err(ReconciliationNotFlat)
      else Ok(Flat(haltId))
    case (Flat(_), ManualResetRequested(_)) => Reset(c)
    case (FailedManualIntervention(_, _), ManualResetRequested(_)) => Reset(c)
    case _ => Err(IllegalTransition)
  }

  function Reset(c: Context): Result<State, TransitionError> {
    if !c.operatorAuthorized then Err(UnauthorizedManualReset)
    else if !c.manualResetEvidenceValid then Err(InvalidManualResetEvidence)
    else if !c.mandatoryProofStreamsFresh then Err(MissingFreshReconciliationProof)
    else if !Clean(c) then Err(ReconciliationNotFlat)
    else Ok(Armed)
  }

  // ---------- Runs ----------

  datatype Input = Input(event: Event, context: Context)

  /** A refused event leaves the state as it was. */
  function Next(haltIdOf: Trigger -> string, state: State, input: Input): State {
    var r := Transition(haltIdOf, state, input.event, input.context);
    if r.Ok? then r.value else state
  }

  /** The states of a run from Armed: one before each input and one at the end. */
  predicate IsRun(haltIdOf: Trigger -> string, t: seq<State>, inputs: seq<Input>) {
    && |t| == |inputs| + 1
    && t[0] == Armed
    && forall i :: 0 <= i < |inputs| ==> t[i + 1] == Next(haltIdOf, t[i], inputs[i])
  }

  /** From step `i` through step `j` the switch is never armed. */
  predicate HaltedThroughout(t: seq<State>, i: nat, j: nat) {
    i <= j < |t| && forall k :: i <= k <= j ==> !t[k].Armed?
  }

  /** Within one halt, from leaving Armed to re-entering it, the halt id never changes. */
  lemma {:induction false} HaltIdIsFixed(haltIdOf: Trigger -> string, t: seq<State>, inputs: seq<Input>, i: nat, j: nat)
    requires IsRun(haltIdOf, t, inputs)
    requires HaltedThroughout(t, i, j)
    ensures t[i].haltId == t[j].haltId
    decreases j - i
  {
    if i < j {
      HaltIdIsFixed(haltIdOf, t, inputs, i, j - 1);
      assert t[j - 1 + 1] == Next(haltIdOf, t[j - 1], inputs[j - 1]);
    }
  }

  /** State `j` belongs to the halt raised at step `k`: a trigger left Armed there, and nothing re-armed since. */
  predicate RaisedAt(haltIdOf: Trigger -> string, t: seq<State>, inputs: seq<Input>, k: nat, j: nat) {
    && k < j && k < |inputs| && |t| == |inputs| + 1
    && t[k].Armed?
    && inputs[k].event.HaltTriggered?
    && HaltedThroughout(t, k + 1, j)
    && t[j].haltId == haltIdOf(inputs[k].event.trigger)
    && (t[j].Halting? || t[j].Halted? ==> t[j].trigger == inputs[k].event.trigger)
  }

  /** Every halt of a run was raised by a trigger, bears its name and carries it while it carries any. */
  lemma {:induction false} HaltIsNamedByItsTrigger(haltIdOf: Trigger -> string, t: seq<State>, inputs: seq<Input>,
                                                   j: nat)
    requires IsRun(haltIdOf, t, inputs) && j < |t| && !t[j].Armed?
    ensures exists k: nat :: RaisedAt(haltIdOf, t, inputs, k, j)
    decreases j
  {
    var i := j - 1;
    assert t[i + 1] == Next(haltIdOf, t[i], inputs[i]);
    if t[i].Armed? {
      assert RaisedAt(haltIdOf, t, inputs, i, j);
    } else {
      HaltIsNamedByItsTrigger(haltIdOf, t, inputs, i);
      var k: nat :| RaisedAt(haltIdOf, t, inputs, k, i);
      assert RaisedAt(haltIdOf, t, inputs, k, j);
    }
  }

  /** Step `k` recorded the halt durably: it is the step that made this halt Halted. */
  predicate RecordsDurably(t: seq<State>, inputs: seq<Input>, k: nat) {
    && k < |inputs| && |t| == |inputs| + 1
    && t[k].Halting?
    && t[k + 1] == Halted(t[k].haltId, t[k].trigger)
    && inputs[k].event.DurableHaltEvidenceRecorded?
    && inputs[k].context.stateWriteSucceeded
    && inputs[k].context.durableHaltEvidenceRecorded
  }

  /** Step `k` proved the book clean on fresh streams. */
  predicate ProvesClean(inputs: seq<Input>, k: nat) {
    && k < |inputs|
    && inputs[k].event.ReconciliationProofReceived?
    && inputs[k].context.mandatoryProofStreamsFresh
    && Clean(inputs[k].context)
  }

  /** State `j` stems from the durable recording at step `k`, without re-arming since. */
  predicate StemsFrom(t: seq<State>, inputs: seq<Input>, k: nat, j: nat) {
    && k < j
    && RecordsDurably(t, inputs, k)
    && HaltedThroughout(t, k, j)
    && (t[j].Flat? ==> exists m: nat :: k < m < j && ProvesClean(inputs, m))
  }

  /**
   Halted needs durable evidence, and Flat needs a clean reconciliation after it: any such state of a run was
   reached through a step that recorded the same halt durably, with no re-arming in between.
   */
  lemma {:induction false} HaltedNeedsDurableEvidence(haltIdOf: Trigger -> string, t: seq<State>, inputs: seq<Input>,
                                                      j: nat)
    requires IsRun(haltIdOf, t, inputs) && j < |t|
    requires t[j].Halted? || t[j].Flat?
    ensures exists k: nat :: StemsFrom(t, inputs, k, j)
    decreases j
  {
    var i := j - 1;
    assert t[i + 1] == Next(haltIdOf, t[i], inputs[i]);
    if t[i].Halting? {
      assert StemsFrom(t, inputs, i, j);
    } else {
      HaltedNeedsDurableEvidence(haltIdOf, t, inputs, i);
      var k: nat :| StemsFrom(t, inputs, k, i);
      if t[i].Halted? {
        assert t[j].Flat? ==> ProvesClean(inputs, i);
      }
      assert StemsFrom(t, inputs, k, j);
    }
  }

  /** Step `k` is an authorised, valid, fresh and clean reset of a flat or failed halt. */
  predicate ResetsCleanly(t: seq<State>, inputs: seq<Input>, k: nat) {
    && k < |inputs| && k < |t|
    && (t[k].Flat? || t[k].FailedManualIntervention?)
    && inputs[k].event.ManualResetRequested?
    && var c := inputs[k].context;
       c.operatorAuthorized && c.manualResetEvidenceValid && c.mandatoryProofStreamsFresh && Clean(c)
  }

  /** However far apart, between a halted state and a later armed one there is such a reset. */
  lemma {:induction false} RearmingNeedsCleanReset(haltIdOf: Trigger -> string, t: seq<State>, inputs: seq<Input>,
                                                   i: nat, j: nat)
    requires IsRun(haltIdOf, t, inputs) && i < j < |t|
    requires !t[i].Armed? && t[j].Armed?
    ensures exists k: nat :: i <= k < j && ResetsCleanly(t, inputs, k)
    decreases j
  {
    var n := j - 1;
    assert t[n + 1] == Next(haltIdOf, t[n], inputs[n]);
    if t[n].Armed? {
      RearmingNeedsCleanReset(haltIdOf, t, inputs, i, n);
    } else {
      assert ResetsCleanly(t, inputs, n);
    }
  }

  // ---------- What inputs do ----------

  /** The state an input leads to, spelled out: the state itself unless the input takes effect on it. */
  ghost predicate LeadsTo(haltIdOf: Trigger -> string, state: State, input: Input, next: State) {
    var e, c := input.event, input.context;
    var clean := c.mandatoryProofStreamsFresh && c.noOutstandingOrderRisk && c.noOpenPositions && c.noPendingEntryRisk;
    var triggered := state.Armed? && e.HaltTriggered?;
    var recorded := state.Halting? && e.DurableHaltEvidenceRecorded? && c.stateWriteSucceeded && c.durableHaltEvidenceRecorded;
    var failed := state.Halting? && (e.DurableHaltEvidenceWriteFailed? || e.HaltActionDispatchFailed?);
    var proved := state.Halted? && e.ReconciliationProofReceived? && clean;
    var reset := && (state.Flat? || state.FailedManualIntervention?) && e.ManualResetRequested?
                 && c.operatorAuthorized && c.manualResetEvidenceValid && clean;
    && (triggered ==> next == Halting(haltIdOf(e.trigger), e.trigger))
    && (recorded ==> next == Halted(state.haltId, state.trigger))
    && (failed ==> next == FailedManualIntervention(state.haltId, e.reason))
    && (proved ==> next == Flat(state.haltId))
    && (reset ==> next == Armed)
    && (!triggered && !recorded && !failed && !proved && !reset ==> next == state)
  }

  /** At every step of a run the input does what it should: takes effect, or leaves the state. */
  lemma InputsTakeEffect(haltIdOf: Trigger -> string, t: seq<State>, inputs: seq<Input>, k: nat)
    requires IsRun(haltIdOf, t, inputs) && k < |inputs|
    ensures LeadsTo(haltIdOf, t[k], inputs[k], t[k + 1])
  {
    assert t[k + 1] == Next(haltIdOf, t[k], inputs[k]);
  }

  /**
   A trigger met while armed takes hold: from then on, until a clean reset, the switch stays halted under that
   trigger's name whatever else comes in.
   */
  lemma {:induction false} TriggerTakesHold(haltIdOf: Trigger -> string, t: seq<State>, inputs: seq<Input>, k: nat, j: nat)
    requires IsRun(haltIdOf, t, inputs) && k < j < |t|
    requires t[k].Armed? && inputs[k].event.HaltTriggered?
    requires forall i :: k < i < j ==> !ResetsCleanly(t, inputs, i)
    ensures HaltedThroughout(t, k + 1, j) && t[j].haltId == haltIdOf(inputs[k].event.trigger)
    decreases j
  {
    var n := j - 1;
    InputsTakeEffect(haltIdOf, t, inputs, n);
    if n > k {
      TriggerTakesHold(haltIdOf, t, inputs, k, n);
      assert !ResetsCleanly(t, inputs, n);
    }
  }

  /** The inputs that clear a halt: what is missing of evidence, proof and reset, in order. */
  function Clearing(state: State, all: Context, operatorId: string): seq<Input> {
    var reset := [Input(ManualResetRequested(operatorId), all)];
    var proof := [Input(ReconciliationProofReceived, all)];
    match state
    case Armed => []
    case Halting(_, _) => [Input(DurableHaltEvidenceRecorded, all)] + (proof + reset)
    case Halted(_, _) => proof + reset
    case Flat(_) => reset
    case FailedManualIntervention(_, _) => reset
    case Cancelling(_) => []
    case Flattening(_) => []
  }

  function After(haltIdOf: Trigger -> string, state: State, inputs: seq<Input>): State
    decreases |inputs|
  {
    if inputs == [] then state else After(haltIdOf, Next(haltIdOf, state, inputs[0]), inputs[1..])
  }

  predicate EverythingInOrder(c: Context) {
    && c.stateWriteSucceeded && c.durableHaltEvidenceRecorded && c.operatorAuthorized && c.manualResetEvidenceValid
    && c.mandatoryProofStreamsFresh && c.noOutstandingOrderRisk && c.noOpenPositions && c.noPendingEntryRisk
  }

  lemma AfterCons(haltIdOf: Trigger -> string, state: State, first: Input, rest: seq<Input>)
    ensures After(haltIdOf, state, [first] + rest) == After(haltIdOf, Next(haltIdOf, state, first), rest)
  {
    assert ([first] + rest)[1..] == rest;
  }

  /** No halt is a dead end: from every state of a run, at most three inputs with everything in order re-arm it. */
  lemma EveryHaltCanBeCleared(haltIdOf: Trigger -> string, t: seq<State>, inputs: seq<Input>, j: nat, all: Context,
                              operatorId: string)
    requires IsRun(haltIdOf, t, inputs) && j < |t| && EverythingInOrder(all)
    ensures |Clearing(t[j], all, operatorId)| <= 3
    ensures After(haltIdOf, t[j], Clearing(t[j], all, operatorId)) == Armed
  {
    PlannerStatesAreUnreachable(haltIdOf, t, inputs, j);
    var reset, proof := Input(ManualResetRequested(operatorId), all), Input(ReconciliationProofReceived, all);
    FlatClears(haltIdOf, t[j], reset);
    if t[j].Halting? {
      var evidence := Input(DurableHaltEvidenceRecorded, all);
      AfterCons(haltIdOf, t[j], evidence, [proof] + [reset]);
      HaltedClears(haltIdOf, Halted(t[j].haltId, t[j].trigger), proof, reset);
    } else if t[j].Halted? {
      HaltedClears(haltIdOf, t[j], proof, reset);
    }
  }

  lemma FlatClears(haltIdOf: Trigger -> string, state: State, reset: Input)
    requires reset.event.ManualResetRequested? && EverythingInOrder(reset.context)
    ensures state.Flat? || state.FailedManualIntervention? ==> After(haltIdOf, state, [reset]) == Armed
  {
    assert [reset] == [reset] + [];
    AfterCons(haltIdOf, state, reset, []);
  }

  lemma HaltedClears(haltIdOf: Trigger -> string, state: State, proof: Input, reset: Input)
    requires state.Halted?
    requires proof.event.ReconciliationProofReceived? && EverythingInOrder(proof.context)
    requires reset.event.ManualResetRequested? && EverythingInOrder(reset.context)
    ensures After(haltIdOf, state, [proof] + [reset]) == Armed
  {
    AfterCons(haltIdOf, state, proof, [reset]);
    FlatClears(haltIdOf, Flat(state.haltId), reset);
  }

  /** Which error a refused event gets. */
  lemma RefusalsAreNamed(haltIdOf: Trigger -> string, state: State, e: Event, c: Context)
    ensures var r := Transition(haltIdOf, state, e, c);
            var clean := c.noOutstandingOrderRisk && c.noOpenPositions && c.noPendingEntryRisk;
            var resetting := (state.Flat? || state.FailedManualIntervention?) && e.ManualResetRequested?;
            var proving := state.Halted? && e.ReconciliationProofReceived?;
            && (r == Err(MissingDurableHaltEvidence) <==>
                  state.Halting? && e.DurableHaltEvidenceRecorded?
                  && !(c.stateWriteSucceeded && c.durableHaltEvidenceRecorded))
            && (r == Err(UnauthorizedManualReset) <==> resetting && !c.operatorAuthorized)
            && (r == Err(InvalidManualResetEvidence) <==>
                  resetting && c.operatorAuthorized && !c.manualResetEvidenceValid)
            && (r == Err(MissingFreshReconciliationProof) <==>
                  && (proving || (resetting && c.operatorAuthorized && c.manualResetEvidenceValid))
                  && !c.mandatoryProofStreamsFresh)
            && (r == Err(ReconciliationNotFlat) <==>
                  && (proving || (resetting && c.operatorAuthorized && c.manualResetEvidenceValid))
                  && c.mandatoryProofStreamsFresh && !clean)
            && (r == Err(IllegalTransition) <==>
                  && !(state.Armed? && e.HaltTriggered?)
                  && !(state.Halting? && (e.DurableHaltEvidenceRecorded? || e.DurableHaltEvidenceWriteFailed?
                                          || e.HaltActionDispatchFailed?))
                  && !proving && !resetting)
  {
  }

  /** No run of this machine ever enters Cancelling or Flattening: the states the action planners insist on. */
  lemma {:induction false} PlannerStatesAreUnreachable(haltIdOf: Trigger -> string, t: seq<State>, inputs: seq<Input>,
                                                       j: nat)
    requires IsRun(haltIdOf, t, inputs) && j < |t|
    ensures !t[j].Cancelling? && !t[j].Flattening?
    decreases j
  {
    if j > 0 {
      PlannerStatesAreUnreachable(haltIdOf, t, inputs, j - 1);
      assert t[j - 1 + 1] == Next(haltIdOf, t[j - 1], inputs[j - 1]);
    }
  }
}

/**
 The durable record of the kill switch: what is written, and how a stored file is classified on load
 (src/bolt_v3_kill_switch_store.rs). Serialisation and decimal text enter as functions.
 */
module KillSwitchStore {
  import opened Common
  import opened KillSwitch

  type Bytes = seq<bv8>

  /** A decimal amount as a count of its smallest unit: only its text and its being zero matter here. */
  type Amount = int

  const SCHEMA_VERSION: nat := 2

  datatype PendingActions = PendingActions(nextRetryAtNs: nat, retryDeadlineNs: nat)

  datatype Pnl = Pnl(realizedPnl: Amount, lastObservedAtNs: nat)

  datatype LossSnapshot = LossSnapshot(
    dailyBucket: Option<nat>,
    dailyRealizedPnl: Amount,
    settlementCurrency: Option<string>,
    cumulativePnl: map<string, Pnl>,
    closedPnl: map<string, Pnl>,
    adjustedPnl: map<string, Pnl>,
    pendingHaltActions: Option<PendingActions>)

  datatype PersistedPnl = PersistedPnl(realizedPnl: string, lastObservedAtNs: nat)

  datatype PersistedLoss = PersistedLoss(
    dailyBucket: Option<nat>,
    dailyRealizedPnl: string,
    settlementCurrency: Option<string>,
    cumulativePnl: map<string, PersistedPnl>,
    closedPnl: map<string, PersistedPnl>,
    adjustedPnl: map<string, PersistedPnl>,
    pendingHaltActions: Option<PendingActions>)

  datatype Persisted = Persisted(schemaVersion: nat, state: State, lossProtection: Option<PersistedLoss>)

  /** The foreign text formats: JSON of a record, its bare version field, decimal text, known currencies. */
  datatype Formats = Formats(
    encode: Persisted -> Bytes,
    decode: Bytes -> Option<Persisted>,
    declaredVersion: Bytes -> Option<nat>,
    namesUnrepresentableTrigger: Bytes -> bool,
    showDecimal: Amount -> string,
    readDecimal: string -> Option<Amount>,
    knownCurrency: string -> bool)

  /** What the formats are trusted for: records and decimals read back as written. */
  ghost predicate Faithful(f: Formats) {
    && (forall p :: f.decode(f.encode(p)) == Some(p))
    && (forall p :: f.declaredVersion(f.encode(p)) == Some(p.schemaVersion))
    && (forall d: Amount :: f.readDecimal(f.showDecimal(d)) == Some(d))
  }

  // ---------- Persist and restore ----------

  function PersistPnl(f: Formats, m: map<string, Pnl>): map<string, PersistedPnl> {
    map k | k in m :: PersistedPnl(f.showDecimal(m[k].realizedPnl), m[k].lastObservedAtNs)
  }

  function PersistLoss(f: Formats, s: LossSnapshot): PersistedLoss {
    PersistedLoss(s.dailyBucket, f.showDecimal(s.dailyRealizedPnl), s.settlementCurrency,
                  PersistPnl(f, s.cumulativePnl), PersistPnl(f, s.closedPnl), PersistPnl(f, s.adjustedPnl),
                  s.pendingHaltActions)
  }

  function ReadPnl(f: Formats, p: PersistedPnl): Option<Pnl> {
    var d := f.readDecimal(p.realizedPnl);
    if d.Some? then Some(Pnl(d.value, p.lastObservedAtNs)) else None
  }

  /** Every value of the map reads back, or the whole map is unreadable. */
  function RestorePnl(f: Formats, m: map<string, PersistedPnl>): Option<map<string, Pnl>> {
    if forall k :: k in m ==> ReadPnl(f, m[k]).Some? then Some(map k | k in m :: ReadPnl(f, m[k]).value)
    else None
  }

  /** The source's loop: insert entry by entry, give up at the first unreadable one. */
  method RestorePnlMap(f: Formats, m: map<string, PersistedPnl>) returns (r: Option<map<string, Pnl>>)
    ensures r == RestorePnl(f, m)
  {
    var restored: map<string, Pnl> := map[];
    var todo := m.Keys;
    while todo != {}
      invariant todo <= m.Keys <= restored.Keys + todo
      invariant ReadsBack(f, m, restored)
      decreases |todo|
    {
      var k := PickAny(todo);
      var value := ReadPnl(f, m[k]);
      if value.None? {
        return None;
      }
      restored, todo := restored[k := value.value], todo - {k};
    }
    RestoredAll(f, m, restored);
    return Some(restored);
  }

  /** `restored` reads back entries of `m`. */
  predicate ReadsBack(f: Formats, m: map<string, PersistedPnl>, restored: map<string, Pnl>) {
    restored.Keys <= m.Keys && forall k :: k in restored ==> ReadPnl(f, m[k]) == Some(restored[k])
  }

  lemma RestoredAll(f: Formats, m: map<string, PersistedPnl>, restored: map<string, Pnl>)
    requires ReadsBack(f, m, restored) && m.Keys <= restored.Keys
    ensures RestorePnl(f, m) == Some(restored)
  {
    assert forall k :: k in m ==> ReadPnl(f, m[k]).Some?;
    assert restored == (map k | k in m :: ReadPnl(f, m[k]).value);
  }

  predicate IsTrimmed(s: string) {
    s != "" ==> !IsWhitespace(s[0]) && !IsWhitespace(s[|s| - 1])
  }

  predicate ValidCurrency(f: Formats, c: string) {
    !IsBlank(c) && IsTrimmed(c) && f.knownCurrency(c)
  }

  /** A snapshot the store accepts back: open and closed positions apart, and a currency for any loss evidence. */
  predicate WellFormed(f: Formats, s: LossSnapshot) {
    && s.cumulativePnl.Keys !! s.closedPnl.Keys
    && match s.settlementCurrency
       case Some(c) => c != "" && !IsWhitespace(c[0]) && !IsWhitespace(c[|c| - 1]) && f.knownCurrency(c)
       case None =>
         && s.dailyRealizedPnl == 0
         && s.cumulativePnl == map[] && s.closedPnl == map[] && s.adjustedPnl == map[]
  }

  function RestoreLoss(f: Formats, p: PersistedLoss): Option<LossSnapshot> {
    var daily := f.readDecimal(p.dailyRealizedPnl);
    var cumulative := RestorePnl(f, p.cumulativePnl);
    var closed := RestorePnl(f, p.closedPnl);
    var adjusted := RestorePnl(f, p.adjustedPnl);
    if daily.None? || cumulative.None? || closed.None? || adjusted.None? then None
    else if exists k :: k in cumulative.value && k in closed.value then None
    else if p.settlementCurrency.Some? && !ValidCurrency(f, p.settlementCurrency.value) then None
    else if p.settlementCurrency.None?
         && (daily.value != 0 || cumulative.value != map[] || closed.value != map[] || adjusted.value != map[]) then
      None
    else
      Some(LossSnapshot(p.dailyBucket, daily.value, p.settlementCurrency, cumulative.value, closed.value,
                        adjusted.value, p.pendingHaltActions))
  }

  lemma PnlRoundTrip(f: Formats, m: map<string, Pnl>)
    requires Faithful(f)
    ensures RestorePnl(f, PersistPnl(f, m)) == Some(m)
  {
    var p := PersistPnl(f, m);
    assert forall k :: k in p ==> ReadPnl(f, p[k]) == Some(m[k]);
    assert RestorePnl(f, p).value == m;
  }

  /** A loss snapshot survives persisting exactly when it is well formed. */
  lemma LossRoundTrip(f: Formats, s: LossSnapshot)
    requires Faithful(f)
    ensures RestoreLoss(f, PersistLoss(f, s)) == if WellFormed(f, s) then Some(s) else None
  {
    PnlRoundTrip(f, s.cumulativePnl);
    PnlRoundTrip(f, s.closedPnl);
    PnlRoundTrip(f, s.adjustedPnl);
    assert (exists k :: k in s.cumulativePnl && k in s.closedPnl) <==> !(s.cumulativePnl.Keys !! s.closedPnl.Keys);
  }

  // ---------- Load ----------

  datatype RecoveryReason =
    | MissingEvidence
    | CorruptEvidence
    | OversizedEvidence
    | UnsupportedSchemaVersion
    | UnresolvedHalt
    | UnrepresentableHaltTrigger

  datatype RecoveryState = Recovered(state: State) | FailClosed(reason: RecoveryReason, failedState: Option<State>)

  datatype RecoveryRecord = RecoveryRecord(recovery: RecoveryState, lossProtection: Option<LossSnapshot>)

  function Refuse(reason: RecoveryReason, state: Option<State>): RecoveryRecord {
    RecoveryRecord(FailClosed(reason, state), None)
  }

  /** A halt still in flight, or one that failed, is not simply resumed. */
  predicate Unresolved(state: State) {
    state.Halting? || state.FailedManualIntervention?
  }

  function Classify(state: State): RecoveryState {
    if Unresolved(state) then FailClosed(UnresolvedHalt, Some(state)) else Recovered(state)
  }

  /** Classify the stored file, absent or present. */
  function Load(f: Formats, file: Option<Bytes>, maxBytes: nat): RecoveryRecord {
    if file.None? then Refuse(MissingEvidence, None)
    else if |file.value| > maxBytes then Refuse(OversizedEvidence, None)
    else
      var version := f.declaredVersion(file.value);
      if version.Some? && version.value != SCHEMA_VERSION then Refuse(UnsupportedSchemaVersion, None)
      else
        match f.decode(file.value)
        case None =>
          Refuse(if f.namesUnrepresentableTrigger(file.value) then UnrepresentableHaltTrigger else CorruptEvidence, None)
        case Some(p) =>
          if p.lossProtection.None? then RecoveryRecord(Classify(p.state), None)
          else
            match RestoreLoss(f, p.lossProtection.value)
            case None => Refuse(CorruptEvidence, Some(p.state))
            case Some(loss) => RecoveryRecord(Classify(p.state), Some(loss))
  }

  function Serialize(f: Formats, state: State, loss: Option<LossSnapshot>): Bytes {
    f.encode(Persisted(SCHEMA_VERSION, state, if loss.Some? then Some(PersistLoss(f, loss.value)) else None))
  }

  /**
   Writing any state and reloading it: with a well-formed snapshot, or none, the same state and snapshot come
   back, fail-closed exactly for Halting and FailedManualIntervention; an ill-formed snapshot is corrupt evidence.
   */
  lemma StoreRoundTrip(f: Formats, state: State, loss: Option<LossSnapshot>, maxBytes: nat)
    requires Faithful(f)
    requires |Serialize(f, state, loss)| <= maxBytes
    ensures Load(f, Some(Serialize(f, state, loss)), maxBytes)
         == if loss.Some? && !WellFormed(f, loss.value) then Refuse(CorruptEvidence, Some(state))
            else RecoveryRecord(Classify(state), loss)
  {
    if loss.Some? {
      LossRoundTrip(f, loss.value);
    }
  }

  /** A record of another version, when the version can be read at all. */
  predicate OtherVersion(f: Formats, bytes: Bytes) {
    f.declaredVersion(bytes).Some? && f.declaredVersion(bytes).value != 2
  }

  /** When each reason for staying closed is given, and when the stored state is resumed. */
  lemma LoadDecides(f: Formats, file: Option<Bytes>, maxBytes: nat)
    ensures var r := Load(f, file, maxBytes).recovery;
            && (file.None? <==> r == FailClosed(MissingEvidence, None))
            && (file.Some? ==>
                  var bytes := file.value;
                  && (|bytes| > maxBytes <==> r == FailClosed(OversizedEvidence, None))
                  && (|bytes| <= maxBytes && OtherVersion(f, bytes) <==> r == FailClosed(UnsupportedSchemaVersion, None))
                  && (|bytes| <= maxBytes && !OtherVersion(f, bytes) ==>
                        match f.decode(bytes)
                        case None =>
                          r == FailClosed(if f.namesUnrepresentableTrigger(bytes) then UnrepresentableHaltTrigger
                                          else CorruptEvidence, None)
                        case Some(p) =>
                          if p.lossProtection.Some? && RestoreLoss(f, p.lossProtection.value).None? then
                            r == FailClosed(CorruptEvidence, Some(p.state))
                          else if p.state.Halting? || p.state.FailedManualIntervention? then
                            r == FailClosed(UnresolvedHalt, Some(p.state))
                          else r == Recovered(p.state)))
  {
  }

  /** So a written state comes back as itself, held closed exactly when it is Halting or FailedManualIntervention. */
  lemma WrittenStateIsKept(f: Formats, state: State, loss: Option<LossSnapshot>, maxBytes: nat)
    requires Faithful(f) && |Serialize(f, state, loss)| <= maxBytes
    requires loss.Some? ==> WellFormed(f, loss.value)
    ensures var r := Load(f, Some(Serialize(f, state, loss)), maxBytes);
            && r.lossProtection == loss
            && (state.Halting? || state.FailedManualIntervention? ==>
                  r.recovery == FailClosed(UnresolvedHalt, Some(state)))
            && (!state.Halting? && !state.FailedManualIntervention? ==> r.recovery == Recovered(state))
  {
    StoreRoundTrip(f, state, loss, maxBytes);
  }

  /** Only a present, readable, current, resolved record with a valid snapshot is ever resumed. */
  lemma ResumedOnlyWhenSound(f: Formats, file: Option<Bytes>, maxBytes: nat)
    requires Load(f, file, maxBytes).recovery.Recovered?
    ensures file.Some? && |file.value| <= maxBytes
    ensures f.decode(file.value).Some?
    ensures var p := f.decode(file.value).value;
            && !Unresolved(p.state)
            && Load(f, file, maxBytes).recovery.state == p.state
            && (p.lossProtection.Some? ==> RestoreLoss(f, p.lossProtection.value).Some?)
  {
  }

  // ---------- The store ----------

  datatype StoreError = StateAlreadyExists | StateTooLarge(bytes: nat, maxBytes: nat)

  const INITIAL_LOSS: LossSnapshot := LossSnapshot(None, 0, None, map[], map[], map[], None)

  class Store {
    const maxBytes: nat
    var file: Option<Bytes>

    constructor (maxBytes: nat)
      ensures this.maxBytes == maxBytes && file.None?
    {
      this.maxBytes := maxBytes;
      file := None;
    }

    /** Replace the file atomically, unless the record is too large; what is written loads back as written. */
    method WriteStateWithLossSnapshot(f: Formats, state: State, loss: Option<LossSnapshot>)
      returns (error: Option<StoreError>)
      modifies this
      ensures error.Some? <==> |Serialize(f, state, loss)| > maxBytes
      ensures error.Some? ==> file == old(file)
      ensures error.None? ==> file == Some(Serialize(f, state, loss))
      ensures error.None? && Faithful(f) && (loss.Some? ==> WellFormed(f, loss.value)) ==>
                Load(f, file, maxBytes) == RecoveryRecord(Classify(state), loss)
    {
      var bytes := Serialize(f, state, loss);
      if |bytes| > maxBytes {
        return Some(StateTooLarge(|bytes|, maxBytes));
      }
      file := Some(bytes);
      error := None;
      if Faithful(f) {
        StoreRoundTrip(f, state, loss, maxBytes);
      }
    }

    /** Bootstrap never overwrites existing evidence. */
    method BootstrapInitialArmedLossSnapshot(f: Formats) returns (error: Option<StoreError>)
      modifies this
      ensures old(file).Some? ==> error.Some? && file == old(file)
      ensures error.Some? ==> file == old(file)
      ensures error.None? ==> old(file).None? && file == Some(Serialize(f, Armed, Some(INITIAL_LOSS)))
      ensures error.None? && Faithful(f) ==>
                Load(f, file, maxBytes) == RecoveryRecord(Recovered(Armed), Some(INITIAL_LOSS))
    {
      var bytes := Serialize(f, Armed, Some(INITIAL_LOSS));
      if |bytes| > maxBytes {
        return Some(StateTooLarge(|bytes|, maxBytes));
      }
      if file.Some? {
        return Some(StateAlreadyExists);
      }
      file := Some(bytes);
      error := None;
      if Faithful(f) {
        StoreRoundTrip(f, Armed, Some(INITIAL_LOSS), maxBytes);
      }
    }
  }
}
