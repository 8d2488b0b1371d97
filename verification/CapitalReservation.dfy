/**
 The reservation ledger for committed-but-unfilled capital: an ordered list of live liabilities
 with reserve, revalue, release, rollback, removal and carry, each behind freshness, identity and
 budget guards (src/bolt_v3_capital_reservation.rs).

 Each operation is first given as a step on ledger values; the class at the end performs the same
 steps in place. The lemmas in between are about the steps and about whole runs of them.
 */
module CapitalReservation {
  import opened Common
  import opened Decimals

  datatype PoolSnapshot = PoolSnapshot(
    source: string,
    observedAtNs: nat,
    poolId: string,
    maxPoolLiability: Decimal,
    committedLiability: Decimal,
    maxSnapshotAgeNs: nat)

  datatype ReservationRequest = ReservationRequest(
    requestId: string,
    poolId: string,
    groupId: string,
    liability: Decimal,
    observedAtNs: nat,
    evidenceLabel: string)

  /** A revalue request carries the same evidence as a reservation request. */
  type RevalueRequest = ReservationRequest

  datatype ReleaseRequest = ReleaseRequest(
    requestId: string,
    poolId: string,
    groupId: string,
    observedAtNs: nat,
    evidenceLabel: string)

  datatype Reason =
    | MissingEvidence
    | StaleRequest
    | PoolMismatch
    | OverBudget
    | InvalidRequest
    | CollateralGroupMismatch
    | DuplicateReservation
    | UnknownReservation
    | UnknownRelease
    | ReconciliationRequired

  datatype ReservationDecision = ReservationDecision(
    accepted: bool,
    reason: Option<Reason>,
    requestedLiability: Decimal,
    availableBefore: Decimal,
    availableAfter: Option<Decimal>)

  datatype ReleaseDecision = ReleaseDecision(
    accepted: bool,
    reason: Option<Reason>,
    releasedLiability: Option<Decimal>)

  datatype RevalueDecision = RevalueDecision(
    accepted: bool,
    reason: Option<Reason>,
    previousLiability: Option<Decimal>,
    revaluedLiability: Option<Decimal>)

  datatype LiveReservation = LiveReservation(
    requestId: string,
    poolId: string,
    groupId: string,
    liability: Decimal,
    observedAtNs: nat)

  /** The value of a ledger: its live list in insertion order and whether its gate is open. */
  datatype Ledger = Ledger(live: seq<LiveReservation>, reconciled: bool)

  // ---------- Totals ----------

  /** What one entry contributes to a pool. */
  function Contribution(r: LiveReservation, poolId: string): real {
    if r.poolId == poolId then r.liability else 0.0
  }

  /** The exact, unbounded sum of a pool's live liabilities. */
  function TrueTotal(live: seq<LiveReservation>, poolId: string): real {
    if live == [] then 0.0 else Contribution(live[0], poolId) + TrueTotal(live[1..], poolId)
  }

  /** The live sum the ledger reports: exact while representable, MAX once it overflows. */
  function SaturatedTotal(live: seq<LiveReservation>, poolId: string): Decimal
    requires AllPositive(live)
  {
    TotalNonNegative(live, poolId);
    var total := TrueTotal(live, poolId);
    if total <= MAX then total else MAX
  }

  lemma {:induction false} TotalConcat(a: seq<LiveReservation>, b: seq<LiveReservation>, poolId: string)
    ensures TrueTotal(a + b, poolId) == TrueTotal(a, poolId) + TrueTotal(b, poolId)
  {
    if a == [] {
      assert a + b == b;
    } else {
      assert (a + b)[1..] == a[1..] + b;
      TotalConcat(a[1..], b, poolId);
    }
  }

  lemma {:induction false} TotalNonNegative(live: seq<LiveReservation>, poolId: string)
    requires AllPositive(live)
    ensures TrueTotal(live, poolId) >= 0.0
  {
    if live != [] {
      TotalNonNegative(live[1..], poolId);
    }
  }

  /** The total of a list seen as a prefix, one entry and a suffix. */
  lemma TotalAt(live: seq<LiveReservation>, i: nat, poolId: string)
    requires i < |live|
    ensures TrueTotal(live, poolId)
         == TrueTotal(live[..i], poolId) + Contribution(live[i], poolId) + TrueTotal(live[i + 1..], poolId)
  {
    assert live == live[..i] + ([live[i]] + live[i + 1..]);
    TotalConcat(live[..i], [live[i]] + live[i + 1..], poolId);
    assert ([live[i]] + live[i + 1..])[1..] == live[i + 1..];
  }

  lemma TotalPush(live: seq<LiveReservation>, r: LiveReservation, poolId: string)
    ensures TrueTotal(live + [r], poolId) == TrueTotal(live, poolId) + Contribution(r, poolId)
  {
    TotalConcat(live, [r], poolId);
    assert [r][1..] == [];
  }

  // ---------- Ledger invariant ----------

  predicate HasKey(r: LiveReservation, poolId: string, requestId: string) {
    r.poolId == poolId && r.requestId == requestId
  }

  predicate AllPositive(live: seq<LiveReservation>) {
    forall i :: 0 <= i < |live| ==> live[i].liability > 0.0
  }

  predicate UniqueKeys(live: seq<LiveReservation>) {
    forall i, j :: 0 <= i < j < |live| ==> !HasKey(live[j], live[i].poolId, live[i].requestId)
  }

  /** What every ledger operation keeps: one entry per (pool, request id), all liabilities positive. */
  predicate ValidLedger(l: Ledger) {
    AllPositive(l.live) && UniqueKeys(l.live)
  }

  predicate Contains(live: seq<LiveReservation>, poolId: string, requestId: string) {
    exists i :: 0 <= i < |live| && HasKey(live[i], poolId, requestId)
  }

  /** The first position holding the key, or the length when there is none. */
  function Position(live: seq<LiveReservation>, poolId: string, requestId: string): (i: nat)
    ensures i <= |live|
    ensures i < |live| ==> HasKey(live[i], poolId, requestId)
    ensures forall j :: 0 <= j < i ==> !HasKey(live[j], poolId, requestId)
  {
    if live == [] || HasKey(live[0], poolId, requestId) then 0
    else 1 + Position(live[1..], poolId, requestId)
  }

  // ---------- Guards and decisions ----------

  predicate Stale(observedAtNs: nat, nowNs: nat, maxAgeNs: nat) {
    observedAtNs > nowNs || nowNs - observedAtNs > maxAgeNs
  }

  function AvailablePoolLiability(pool: PoolSnapshot, reserved: Decimal): Option<Decimal> {
    match CheckedSub(pool.maxPoolLiability, pool.committedLiability)
    case None => None
    case Some(budget) => CheckedSub(budget, reserved)
  }

  predicate BelowFloor(available: Decimal, floor: Option<Decimal>) {
    floor.Some? && available < floor.value
  }

  predicate MissingIdentity(requestId: string, poolId: string, groupId: string) {
    IsBlank(requestId) || IsBlank(poolId) || IsBlank(groupId)
  }

  function RejectedReserve(reason: Reason, requested: Decimal, before: Decimal): ReservationDecision {
    ReservationDecision(false, Some(reason), requested, before, None)
  }

  function RejectedRelease(reason: Reason): ReleaseDecision {
    ReleaseDecision(false, Some(reason), None)
  }

  function RejectedRevalue(reason: Reason): RevalueDecision {
    RevalueDecision(false, Some(reason), None, None)
  }

  /** The first identity, evidence or freshness guard a reservation request fails. */
  function ReserveGuard(l: Ledger, pool: PoolSnapshot, request: ReservationRequest, nowNs: nat): Option<Reason> {
    if !l.reconciled then Some(ReconciliationRequired)
    else if pool.poolId != request.poolId then Some(PoolMismatch)
    else if MissingIdentity(request.requestId, request.poolId, request.groupId) || request.liability <= 0.0 then
      Some(InvalidRequest)
    else if IsBlank(pool.source) || IsBlank(request.evidenceLabel) then Some(MissingEvidence)
    else if
      || Stale(pool.observedAtNs, nowNs, pool.maxSnapshotAgeNs)
      || Stale(request.observedAtNs, nowNs, pool.maxSnapshotAgeNs)
      || request.observedAtNs < pool.observedAtNs
    then Some(StaleRequest)
    else if Contains(l.live, request.poolId, request.requestId) then Some(DuplicateReservation)
    else None
  }

  function DecideReserve(l: Ledger, pool: PoolSnapshot, request: ReservationRequest, nowNs: nat,
                         floor: Option<Decimal>): ReservationDecision
    requires ValidLedger(l)
  {
    match AvailablePoolLiability(pool, SaturatedTotal(l.live, pool.poolId))
    case None => RejectedReserve(OverBudget, request.liability, 0.0)
    case Some(before) =>
      var guard := ReserveGuard(l, pool, request, nowNs);
      if guard.Some? then RejectedReserve(guard.value, request.liability, before)
      else if request.liability > before || BelowFloor(before - request.liability, floor) then
        RejectedReserve(OverBudget, request.liability, before)
      else ReservationDecision(true, None, request.liability, before, Some(before - request.liability))
  }

  function NewEntry(request: ReservationRequest): LiveReservation {
    LiveReservation(request.requestId, request.poolId, request.groupId, request.liability, request.observedAtNs)
  }

  function ReserveStep(l: Ledger, pool: PoolSnapshot, request: ReservationRequest, nowNs: nat,
                       floor: Option<Decimal>): (Ledger, ReservationDecision)
    requires ValidLedger(l)
  {
    var decision := DecideReserve(l, pool, request, nowNs, floor);
    (if decision.accepted then l.(live := l.live + [NewEntry(request)]) else l, decision)
  }

  function RollbackStep(l: Ledger, poolId: string, requestId: string): (Ledger, Option<Decimal>) {
    var i := Position(l.live, poolId, requestId);
    if i == |l.live| then (l, None) else (l.(live := Without(l.live, i)), Some(l.live[i].liability))
  }

  function RemoveExistingStep(l: Ledger, poolId: string, groupId: string, requestId: string)
    : (Ledger, ReleaseDecision)
  {
    var i := Position(l.live, poolId, requestId);
    if i == |l.live| then (l, RejectedRelease(UnknownRelease))
    else if l.live[i].groupId != groupId then (l, RejectedRelease(CollateralGroupMismatch))
    else (l.(live := Without(l.live, i)), ReleaseDecision(true, None, Some(l.live[i].liability)))
  }

  /** Look up a live entry to be carried into a rebuild. */
  function RetainedReservation(l: Ledger, poolId: string, groupId: string, requestId: string)
    : Result<LiveReservation, Reason>
  {
    var i := Position(l.live, poolId, requestId);
    if i == |l.live| then Err(UnknownReservation)
    else if l.live[i].groupId != groupId then Err(CollateralGroupMismatch)
    else Ok(l.live[i])
  }

  function CarryStep(l: Ledger, poolId: string, retained: LiveReservation): (Ledger, Result<Decimal, Reason>) {
    if retained.poolId != poolId then (l, Err(PoolMismatch))
    else if MissingIdentity(retained.requestId, retained.poolId, retained.groupId) || retained.liability <= 0.0 then
      (l, Err(InvalidRequest))
    else if Contains(l.live, retained.poolId, retained.requestId) then (l, Err(DuplicateReservation))
    else (l.(live := l.live + [retained]), Ok(retained.liability))
  }

  /** The guards release and revalue share before looking the entry up. */
  function LifecycleGuard(l: Ledger, pool: PoolSnapshot, poolId: string, invalid: bool, evidenceLabel: string,
                          observedAtNs: nat, nowNs: nat): Option<Reason>
  {
    if !l.reconciled then Some(ReconciliationRequired)
    else if pool.poolId != poolId then Some(PoolMismatch)
    else if invalid then Some(InvalidRequest)
    else if IsBlank(pool.source) || IsBlank(evidenceLabel) then Some(MissingEvidence)
    else if Stale(pool.observedAtNs, nowNs, pool.maxSnapshotAgeNs)
         || Stale(observedAtNs, nowNs, pool.maxSnapshotAgeNs) then Some(StaleRequest)
    else None
  }

  function ReleaseStep(l: Ledger, pool: PoolSnapshot, request: ReleaseRequest, nowNs: nat): (Ledger, ReleaseDecision) {
    var guard := LifecycleGuard(l, pool, request.poolId,
                                MissingIdentity(request.requestId, request.poolId, request.groupId),
                                request.evidenceLabel, request.observedAtNs, nowNs);
    var i := Position(l.live, request.poolId, request.requestId);
    if guard.Some? then (l, RejectedRelease(guard.value))
    else if i == |l.live| then (l, RejectedRelease(UnknownRelease))
    else if l.live[i].groupId != request.groupId then (l, RejectedRelease(CollateralGroupMismatch))
    else if request.observedAtNs <= l.live[i].observedAtNs then (l, RejectedRelease(StaleRequest))
    else (l.(live := Without(l.live, i)), ReleaseDecision(true, None, Some(l.live[i].liability)))
  }

  /** The budget check of a revalue: what the pool offers once the entry's old liability is given back. */
  predicate RevalueFits(live: seq<LiveReservation>, pool: PoolSnapshot, previous: Decimal, liability: Decimal,
                        floor: Option<Decimal>)
    requires AllPositive(live)
  {
    match AvailablePoolLiability(pool, SaturatedTotal(live, pool.poolId))
    case None => false
    case Some(available) =>
      match CheckedAdd(available, previous)
      case None => false
      case Some(before) =>
        && liability <= before
        && match CheckedSub(before, liability)
           case None => false
           case Some(after) => !BelowFloor(after, floor)
  }

  function RevalueStep(l: Ledger, pool: PoolSnapshot, request: RevalueRequest, nowNs: nat, floor: Option<Decimal>)
    : (Ledger, RevalueDecision)
    requires ValidLedger(l)
  {
    var guard := LifecycleGuard(l, pool, request.poolId,
                                MissingIdentity(request.requestId, request.poolId, request.groupId)
                                || request.liability <= 0.0,
                                request.evidenceLabel, request.observedAtNs, nowNs);
    var i := Position(l.live, request.poolId, request.requestId);
    if guard.Some? then (l, RejectedRevalue(guard.value))
    else if i == |l.live| then (l, RejectedRevalue(UnknownReservation))
    else if l.live[i].groupId != request.groupId then (l, RejectedRevalue(CollateralGroupMismatch))
    else if request.observedAtNs <= l.live[i].observedAtNs then (l, RejectedRevalue(StaleRequest))
    else if !RevalueFits(l.live, pool, l.live[i].liability, request.liability, floor) then
      (l, RejectedRevalue(OverBudget))
    else
      (l.(live := l.live[i := l.live[i].(liability := request.liability, observedAtNs := request.observedAtNs)]),
       RevalueDecision(true, None, Some(l.live[i].liability), Some(request.liability)))
  }

  // ---------- Budget safety ----------

  /** The exact budget of a pool snapshot. */
  function Budget(pool: PoolSnapshot): real {
    pool.maxPoolLiability - pool.committedLiability
  }

  /** The headroom an accepted decision must leave: zero, or the configured floor when that is larger. */
  function Headroom(floor: Option<Decimal>): real {
    if floor.Some? && floor.value > 0.0 then floor.value else 0.0
  }

  /** A live total fits a pool when the budget is representable and the headroom is left free. */
  predicate FitsBudget(pool: PoolSnapshot, total: real, floor: Option<Decimal>) {
    Representable(Budget(pool)) && Budget(pool) - total >= Headroom(floor)
  }

  /** A request that passes every guard but the budget. */
  predicate Admissible(l: Ledger, pool: PoolSnapshot, request: ReservationRequest, nowNs: nat) {
    && l.reconciled
    && ItemValid(pool, request, nowNs)
    && !Contains(l.live, request.poolId, request.requestId)
  }

  /** The guards that depend on the pool and the request alone. */
  predicate ItemValid(pool: PoolSnapshot, request: ReservationRequest, nowNs: nat) {
    && pool.poolId == request.poolId
    && !MissingIdentity(request.requestId, request.poolId, request.groupId)
    && request.liability > 0.0
    && !IsBlank(pool.source)
    && !IsBlank(request.evidenceLabel)
    && !Stale(pool.observedAtNs, nowNs, pool.maxSnapshotAgeNs)
    && !Stale(request.observedAtNs, nowNs, pool.maxSnapshotAgeNs)
    && pool.observedAtNs <= request.observedAtNs
  }

  /**
   Acceptance in exact terms: checked subtraction and a saturating live sum together decide the same
   as unbounded arithmetic on the true live total, headroom included.
   */
  lemma ReserveAcceptsExactly(l: Ledger, pool: PoolSnapshot, request: ReservationRequest, nowNs: nat,
                              floor: Option<Decimal>)
    requires ValidLedger(l)
    ensures ReserveStep(l, pool, request, nowNs, floor).1.accepted
       <==> Admissible(l, pool, request, nowNs)
            && FitsBudget(pool, TrueTotal(l.live, pool.poolId) + request.liability, floor)
  {
    TotalNonNegative(l.live, pool.poolId);
  }

  /** An accepted reserve leaves the true new live total inside the budget, whatever was saturated before. */
  lemma ReserveKeepsBudget(l: Ledger, pool: PoolSnapshot, request: ReservationRequest, nowNs: nat,
                           floor: Option<Decimal>)
    requires ValidLedger(l)
    ensures var (after, decision) := ReserveStep(l, pool, request, nowNs, floor);
            decision.accepted ==>
              && FitsBudget(pool, TrueTotal(after.live, pool.poolId), floor)
              && decision.availableAfter == Some(Budget(pool) - TrueTotal(after.live, pool.poolId))
              && forall other :: other != pool.poolId ==> TrueTotal(after.live, other) == TrueTotal(l.live, other)
  {
    ReserveAcceptsExactly(l, pool, request, nowNs, floor);
    TotalNonNegative(l.live, pool.poolId);
    forall p ensures TrueTotal(l.live + [NewEntry(request)], p)
                  == TrueTotal(l.live, p) + Contribution(NewEntry(request), p)
    {
      TotalPush(l.live, NewEntry(request), p);
    }
  }

  /** While the live total is representable, an accepted revalue leaves the true new total inside the budget. */
  lemma RevalueKeepsBudget(l: Ledger, pool: PoolSnapshot, request: RevalueRequest, nowNs: nat,
                           floor: Option<Decimal>)
    requires ValidLedger(l)
    requires TrueTotal(l.live, pool.poolId) <= MAX
    ensures var (after, decision) := RevalueStep(l, pool, request, nowNs, floor);
            decision.accepted ==> FitsBudget(pool, TrueTotal(after.live, pool.poolId), floor)
  {
    var (after, decision) := RevalueStep(l, pool, request, nowNs, floor);
    if decision.accepted {
      RevalueTotal(l, pool, request, nowNs, floor);
      TotalNonNegative(l.live, pool.poolId);
    }
  }

  /** An accepted revalue moves its pool's true total by exactly the change it reports. */
  lemma RevalueTotal(l: Ledger, pool: PoolSnapshot, request: RevalueRequest, nowNs: nat, floor: Option<Decimal>)
    requires ValidLedger(l)
    requires RevalueStep(l, pool, request, nowNs, floor).1.accepted
    ensures var (after, decision) := RevalueStep(l, pool, request, nowNs, floor);
            && decision.previousLiability.Some?
            && decision.revaluedLiability == Some(request.liability)
            && ValidLedger(after)
            && forall p :: TrueTotal(after.live, p) == TrueTotal(l.live, p)
                 + (if p == request.poolId then request.liability - decision.previousLiability.value else 0.0)
  {
    var (after, decision) := RevalueStep(l, pool, request, nowNs, floor);
    var i := Position(l.live, request.poolId, request.requestId);
    assert after.live[..i] == l.live[..i] && after.live[i + 1..] == l.live[i + 1..];
    forall p ensures TrueTotal(after.live, p) == TrueTotal(l.live, p)
                  + (if p == request.poolId then request.liability - l.live[i].liability else 0.0)
    {
      TotalAt(l.live, i, p);
      TotalAt(after.live, i, p);
    }
  }

  /** Revalue's checked budget test, in exact arithmetic over the saturated sum. */
  lemma RevalueFitsExactly(live: seq<LiveReservation>, pool: PoolSnapshot, i: nat, liability: Decimal,
                           floor: Option<Decimal>)
    requires AllPositive(live) && i < |live| && live[i].poolId == pool.poolId && liability > 0.0
    ensures RevalueFits(live, pool, live[i].liability, liability, floor)
       <==> && Representable(Budget(pool))
            && Representable(Budget(pool) - SaturatedTotal(live, pool.poolId))
            && Budget(pool) - SaturatedTotal(live, pool.poolId) + live[i].liability - liability >= Headroom(floor)
  {
    TotalAt(live, i, pool.poolId);
    TotalNonNegative(live[..i], pool.poolId);
    TotalNonNegative(live[i + 1..], pool.poolId);
    assert live[i].liability <= SaturatedTotal(live, pool.poolId);
  }

  /** Every liability the revalue check lets through for entry `i` keeps the true total inside the budget. */
  ghost predicate RevalueSound(live: seq<LiveReservation>, pool: PoolSnapshot, i: nat, floor: Option<Decimal>)
    requires AllPositive(live) && i < |live|
  {
    forall liability: Decimal {:trigger RevalueFits(live, pool, live[i].liability, liability, floor)} ::
      liability > 0.0 && RevalueFits(live, pool, live[i].liability, liability, floor) ==>
        FitsBudget(pool, TrueTotal(live, pool.poolId) - live[i].liability + liability, floor)
  }

  /**
   Exactly when revalue's budget check is sound for an entry: the budget is unrepresentable (nothing is
   accepted), or the live total is representable, or the saturated sum leaves no room above the headroom.
   */
  lemma RevalueSoundExactly(live: seq<LiveReservation>, pool: PoolSnapshot, i: nat, floor: Option<Decimal>)
    requires AllPositive(live) && i < |live| && live[i].poolId == pool.poolId
    ensures RevalueSound(live, pool, i, floor)
       <==> || !Representable(Budget(pool))
            || TrueTotal(live, pool.poolId) <= MAX
            || Budget(pool) - MAX + live[i].liability <= Headroom(floor)
  {
    TotalNonNegative(live, pool.poolId);
    var total := TrueTotal(live, pool.poolId);
    var previous := live[i].liability;
    forall liability: Decimal | liability > 0.0
      ensures RevalueFits(live, pool, previous, liability, floor)
         <==> && Representable(Budget(pool))
              && Representable(Budget(pool) - SaturatedTotal(live, pool.poolId))
              && Budget(pool) - SaturatedTotal(live, pool.poolId) + previous - liability >= Headroom(floor)
    {
      RevalueFitsExactly(live, pool, i, liability, floor);
    }
    if Representable(Budget(pool)) && total > MAX && Budget(pool) - MAX + previous > Headroom(floor) {
      var liability: Decimal := Budget(pool) - MAX + previous - Headroom(floor);
      assert RevalueFits(live, pool, previous, liability, floor);
    }
  }

  // ---------- Undo ----------

  /** Rolling back a reservation just made gives the exact list back, order included. */
  lemma ReserveThenRollback(l: Ledger, pool: PoolSnapshot, request: ReservationRequest, nowNs: nat,
                            floor: Option<Decimal>)
    requires ValidLedger(l)
    requires ReserveStep(l, pool, request, nowNs, floor).1.accepted
    ensures RollbackStep(ReserveStep(l, pool, request, nowNs, floor).0, request.poolId, request.requestId)
         == (l, Some(request.liability))
  {
    ReserveAcceptsExactly(l, pool, request, nowNs, floor);
    var after := ReserveStep(l, pool, request, nowNs, floor).0;
    var i := Position(after.live, request.poolId, request.requestId);
    assert after.live[|l.live|] == NewEntry(request);
    assert forall j :: 0 <= j < |l.live| ==>
        after.live[j] == l.live[j] && !HasKey(l.live[j], request.poolId, request.requestId);
    assert i == |l.live|;
    assert Without(after.live, i) == l.live;
  }

  // ---------- Runs ----------

  datatype Op =
    | Reserve(pool: PoolSnapshot, request: ReservationRequest, nowNs: nat, floor: Option<Decimal>)
    | Revalue(pool: PoolSnapshot, revalue: RevalueRequest, nowNs: nat, floor: Option<Decimal>)
    | Release(pool: PoolSnapshot, release: ReleaseRequest, nowNs: nat)
    | Rollback(poolId: string, requestId: string)
    | RemoveExisting(poolId: string, groupId: string, requestId: string)
    | Carry(poolId: string, retained: LiveReservation)
    | Invalidate

  /** A movement of liability as the operation's own answer reports it. */
  datatype Flow = Flow(poolId: string, amount: real)

  function Amount(reported: Option<Decimal>): real {
    if reported.Some? then reported.value else 0.0
  }

  /** One operation: the new ledger, and the flow read off the decision it returned. */
  function Step(l: Ledger, op: Op): (Ledger, Flow)
    requires ValidLedger(l)
  {
    match op
    case Reserve(pool, request, nowNs, floor) =>
      var (after, decision) := ReserveStep(l, pool, request, nowNs, floor);
      (after, Flow(request.poolId, if decision.accepted then decision.requestedLiability else 0.0))
    case Revalue(pool, request, nowNs, floor) =>
      var (after, decision) := RevalueStep(l, pool, request, nowNs, floor);
      (after, Flow(request.poolId, Amount(decision.revaluedLiability) - Amount(decision.previousLiability)))
    case Release(pool, request, nowNs) =>
      var (after, decision) := ReleaseStep(l, pool, request, nowNs);
      (after, Flow(request.poolId, -Amount(decision.releasedLiability)))
    case Rollback(poolId, requestId) =>
      var (after, removed) := RollbackStep(l, poolId, requestId);
      (after, Flow(poolId, -Amount(removed)))
    case RemoveExisting(poolId, groupId, requestId) =>
      var (after, decision) := RemoveExistingStep(l, poolId, groupId, requestId);
      (after, Flow(poolId, -Amount(decision.releasedLiability)))
    case Carry(poolId, retained) =>
      var (after, carried) := CarryStep(l, poolId, retained);
      (after, Flow(poolId, if carried.Ok? then carried.value else 0.0))
    case Invalidate => (l.(reconciled := false), Flow("", 0.0))
  }

  lemma RemoveKeepsValid(l: Ledger, i: nat)
    requires ValidLedger(l) && i < |l.live|
    ensures ValidLedger(l.(live := Without(l.live, i)))
    ensures forall p :: TrueTotal(Without(l.live, i), p) == TrueTotal(l.live, p) - Contribution(l.live[i], p)
  {
    forall p ensures TrueTotal(Without(l.live, i), p) == TrueTotal(l.live, p) - Contribution(l.live[i], p) {
      TotalAt(l.live, i, p);
      TotalConcat(l.live[..i], l.live[i + 1..], p);
    }
  }

  lemma PushKeepsValid(l: Ledger, r: LiveReservation)
    requires ValidLedger(l) && r.liability > 0.0 && !Contains(l.live, r.poolId, r.requestId)
    ensures ValidLedger(l.(live := l.live + [r]))
    ensures forall p :: TrueTotal(l.live + [r], p) == TrueTotal(l.live, p) + Contribution(r, p)
  {
    forall p ensures TrueTotal(l.live + [r], p) == TrueTotal(l.live, p) + Contribution(r, p) {
      TotalPush(l.live, r, p);
    }
  }

  /** The invariant is kept and every pool's true total moves by exactly the reported flow. */
  ghost predicate Faithful(l: Ledger, after: Ledger, flow: Flow) {
    && ValidLedger(after)
    && forall p :: TrueTotal(after.live, p) == TrueTotal(l.live, p) + (if p == flow.poolId then flow.amount else 0.0)
  }

  lemma ReserveFaithful(l: Ledger, op: Op)
    requires ValidLedger(l) && op.Reserve?
    ensures Faithful(l, Step(l, op).0, Step(l, op).1)
  {
    ReserveAcceptsExactly(l, op.pool, op.request, op.nowNs, op.floor);
    if ReserveStep(l, op.pool, op.request, op.nowNs, op.floor).1.accepted {
      PushKeepsValid(l, NewEntry(op.request));
    }
  }

  lemma RevalueFaithful(l: Ledger, op: Op)
    requires ValidLedger(l) && op.Revalue?
    ensures Faithful(l, Step(l, op).0, Step(l, op).1)
  {
    if RevalueStep(l, op.pool, op.revalue, op.nowNs, op.floor).1.accepted {
      RevalueTotal(l, op.pool, op.revalue, op.nowNs, op.floor);
    }
  }

  /** Removing entry `i` is faithful to a flow that gives its liability back. */
  lemma RemoveAtFaithful(l: Ledger, i: nat)
    requires ValidLedger(l) && i < |l.live|
    ensures Faithful(l, l.(live := Without(l.live, i)), Flow(l.live[i].poolId, -l.live[i].liability))
  {
    RemoveKeepsValid(l, i);
  }

  lemma UnchangedFaithful(l: Ledger, poolId: string)
    requires ValidLedger(l)
    ensures Faithful(l, l, Flow(poolId, 0.0))
  {
  }

  lemma RemovalFaithful(l: Ledger, op: Op)
    requires ValidLedger(l) && (op.Release? || op.Rollback? || op.RemoveExisting?)
    ensures Faithful(l, Step(l, op).0, Step(l, op).1)
  {
    var (poolId, requestId) := match op
                               case Release(_, request, _) => (request.poolId, request.requestId)
                               case Rollback(poolId, requestId) => (poolId, requestId)
                               case RemoveExisting(poolId, _, requestId) => (poolId, requestId);
    var i := Position(l.live, poolId, requestId);
    UnchangedFaithful(l, poolId);
    if i < |l.live| {
      RemoveAtFaithful(l, i);
    }
  }

  /** Every operation keeps the ledger invariant and moves totals by exactly the flow it reports. */
  lemma StepFaithful(l: Ledger, op: Op)
    requires ValidLedger(l)
    ensures Faithful(l, Step(l, op).0, Step(l, op).1)
  {
    match op {
      case Reserve(_, _, _, _) => ReserveFaithful(l, op);
      case Revalue(_, _, _, _) => RevalueFaithful(l, op);
      case Release(_, _, _) => RemovalFaithful(l, op);
      case Rollback(_, _) => RemovalFaithful(l, op);
      case RemoveExisting(_, _, _) => RemovalFaithful(l, op);
      case Carry(poolId, retained) =>
        if CarryStep(l, poolId, retained).1.Ok? {
          PushKeepsValid(l, retained);
        }
      case Invalidate =>
    }
  }

  /** A run of operations: the final ledger and every reported flow in order. */
  function Run(l: Ledger, ops: seq<Op>): (r: (Ledger, seq<Flow>))
    requires ValidLedger(l)
    ensures ValidLedger(r.0)
    decreases |ops|
  {
    if ops == [] then (l, [])
    else
      StepFaithful(l, ops[0]);
      var (next, flow) := Step(l, ops[0]);
      var (last, flows) := Run(next, ops[1..]);
      (last, [flow] + flows)
  }

  function NetFlow(flows: seq<Flow>, poolId: string): real {
    if flows == [] then 0.0
    else (if flows[0].poolId == poolId then flows[0].amount else 0.0) + NetFlow(flows[1..], poolId)
  }

  /**
   Conservation over every run: a pool's true total is where it started plus the reserves and carries
   accepted, plus revalue changes, minus releases, removals and rollbacks, all as reported.
   */
  lemma {:induction false} RunConserves(l: Ledger, ops: seq<Op>, poolId: string)
    requires ValidLedger(l)
    ensures TrueTotal(Run(l, ops).0.live, poolId)
         == TrueTotal(l.live, poolId) + NetFlow(Run(l, ops).1, poolId)
    decreases |ops|
  {
    if ops != [] {
      StepFaithful(l, ops[0]);
      var (next, flow) := Step(l, ops[0]);
      RunConserves(next, ops[1..], poolId);
      var flows := Run(next, ops[1..]).1;
      assert ([flow] + flows)[1..] == flows;
    }
  }

  /** A reserve or revalue of the pool whose budget, where representable, leaves no more than the bound. */
  predicate WithinBound(op: Op, poolId: string, bound: real) {
    (op.Reserve? || op.Revalue?) && op.pool.poolId == poolId && Representable(Budget(op.pool)) ==>
      Budget(op.pool) - Headroom(op.floor) <= bound
  }

  lemma StepStaysWithinBudgets(l: Ledger, op: Op, poolId: string, bound: real)
    requires ValidLedger(l) && TrueTotal(l.live, poolId) <= MAX && TrueTotal(l.live, poolId) <= bound
    requires !op.Carry? && WithinBound(op, poolId, bound)
    ensures TrueTotal(Step(l, op).0.live, poolId) <= MAX && TrueTotal(Step(l, op).0.live, poolId) <= bound
  {
    StepFaithful(l, op);
    if op.Reserve? {
      ReserveKeepsBudget(l, op.pool, op.request, op.nowNs, op.floor);
    } else if op.Revalue? && op.pool.poolId == poolId {
      RevalueKeepsBudget(l, op.pool, op.revalue, op.nowNs, op.floor);
    }
  }

  /**
   The cap over whole runs: without carries, a pool's true total never passes the largest budget, less its headroom,
   that any reserve or revalue of the pool was decided against.
   */
  lemma {:induction false} RunStaysWithinBudgets(l: Ledger, ops: seq<Op>, poolId: string, bound: real)
    requires ValidLedger(l) && TrueTotal(l.live, poolId) <= MAX && TrueTotal(l.live, poolId) <= bound
    requires forall i :: 0 <= i < |ops| ==> !ops[i].Carry? && WithinBound(ops[i], poolId, bound)
    ensures TrueTotal(Run(l, ops).0.live, poolId) <= MAX && TrueTotal(Run(l, ops).0.live, poolId) <= bound
    decreases |ops|
  {
    if ops != [] {
      StepFaithful(l, ops[0]);
      StepStaysWithinBudgets(l, ops[0], poolId, bound);
      RunStaysWithinBudgets(Step(l, ops[0]).0, ops[1..], poolId, bound);
    }
  }

  /** In particular a representable total stays representable. */
  lemma RunWithoutCarryStaysRepresentable(l: Ledger, ops: seq<Op>, poolId: string)
    requires ValidLedger(l) && TrueTotal(l.live, poolId) <= MAX
    requires forall i :: 0 <= i < |ops| ==> !ops[i].Carry?
    ensures TrueTotal(Run(l, ops).0.live, poolId) <= MAX
  {
    RunStaysWithinBudgets(l, ops, poolId, MAX);
  }

  // ---------- Carries ----------

  /** A lookup finds exactly the live entry of its key and group. */
  lemma RetainedExactly(l: Ledger, poolId: string, groupId: string, requestId: string, r: LiveReservation)
    requires ValidLedger(l)
    ensures RetainedReservation(l, poolId, groupId, requestId) == Ok(r)
       <==> r in l.live && HasKey(r, poolId, requestId) && r.groupId == groupId
  {
    var i := Position(l.live, poolId, requestId);
    if r in l.live && HasKey(r, poolId, requestId) {
      var j :| 0 <= j < |l.live| && l.live[j] == r;
      assert i <= j;
      assert i == j;
    }
  }

  /** Every carry of the run brings in an entry looked up at or before that point of the run. */
  ghost predicate CarriesLookedUp(l: Ledger, ops: seq<Op>)
    requires ValidLedger(l)
  {
    forall i :: 0 <= i < |ops| && ops[i].Carry? ==> LookedUp(l, ops, i, ops[i].retained)
  }

  ghost predicate LookedUp(l: Ledger, ops: seq<Op>, i: nat, r: LiveReservation)
    requires ValidLedger(l) && i <= |ops|
  {
    exists j :: 0 <= j <= i && RetainedReservation(After(l, ops, j), r.poolId, r.groupId, r.requestId) == Ok(r)
  }

  /** The ledger after the first `j` operations. */
  ghost function After(l: Ledger, ops: seq<Op>, j: nat): (r: Ledger)
    requires ValidLedger(l) && j <= |ops|
    ensures ValidLedger(r)
  {
    Run(l, ops[..j]).0
  }

  lemma {:induction false} RunSnoc(l: Ledger, ops: seq<Op>, op: Op)
    requires ValidLedger(l)
    ensures Run(l, ops + [op]).0 == Step(Run(l, ops).0, op).0
    decreases |ops|
  {
    if ops == [] {
      assert ops + [op] == [op] && [op][1..] == [];
      StepFaithful(l, op);
    } else {
      assert (ops + [op])[1..] == ops[1..] + [op];
      StepFaithful(l, ops[0]);
      RunSnoc(Step(l, ops[0]).0, ops[1..], op);
    }
  }

  const EXAMPLE_POOL := PoolSnapshot("s", 1, "p", MAX, 0.0, 10)
  const EXAMPLE_A := ReservationRequest("a", "p", "g", MAX, 1, "e")
  const EXAMPLE_B := ReservationRequest("b", "p", "g", 1.0, 1, "e")
  const EXAMPLE_REVALUE := ReservationRequest("b", "p", "g", 1.0, 2, "e")
  const EMPTY := Ledger([], true)

  /** Reserve a, look it up and roll it back, reserve b, carry a. */
  function OverrunOps(): seq<Op> {
    [Reserve(EXAMPLE_POOL, EXAMPLE_A, 1, None), Rollback("p", "a"), Reserve(EXAMPLE_POOL, EXAMPLE_B, 1, None),
     Carry("p", NewEntry(EXAMPLE_A))]
  }

  lemma NamesAreNotBlank()
    ensures !IsBlank("a") && !IsBlank("b") && !IsBlank("p") && !IsBlank("g") && !IsBlank("s") && !IsBlank("e")
    ensures "a" != "b"
  {
    assert "a"[0] != ' ' && "b"[0] != ' ' && "p"[0] != ' ' && "g"[0] != ' ' && "s"[0] != ' ' && "e"[0] != ' ';
    assert "a"[0] != "b"[0];
  }

  lemma FirstReserve(request: ReservationRequest)
    requires request == EXAMPLE_A || request == EXAMPLE_B
    ensures Step(EMPTY, Reserve(EXAMPLE_POOL, request, 1, None)).0 == Ledger([NewEntry(request)], true)
  {
    NamesAreNotBlank();
    ReserveAcceptsExactly(EMPTY, EXAMPLE_POOL, request, 1, None);
    assert [] + [NewEntry(request)] == [NewEntry(request)];
  }

  lemma AfterSnoc(l: Ledger, ops: seq<Op>, j: nat)
    requires ValidLedger(l) && j < |ops|
    ensures After(l, ops, j + 1) == Step(After(l, ops, j), ops[j]).0
  {
    assert ops[..j + 1] == ops[..j] + [ops[j]];
    RunSnoc(l, ops[..j], ops[j]);
  }

  lemma RollBackOnly(a: LiveReservation)
    requires ValidLedger(Ledger([a], true))
    ensures Step(Ledger([a], true), Rollback(a.poolId, a.requestId)).0 == EMPTY
  {
    assert Position([a], a.poolId, a.requestId) == 0 && Without([a], 0) == [];
  }

  /** Where the example run stands after the reserve of a, and at its end. */
  lemma OverrunStates()
    ensures After(EMPTY, OverrunOps(), 1) == Ledger([NewEntry(EXAMPLE_A)], true)
    ensures After(EMPTY, OverrunOps(), 4) == Ledger([NewEntry(EXAMPLE_B), NewEntry(EXAMPLE_A)], true)
  {
    var ops := OverrunOps();
    assert After(EMPTY, ops, 0) == EMPTY;
    AfterSnoc(EMPTY, ops, 0);
    FirstReserve(EXAMPLE_A);
    AfterSnoc(EMPTY, ops, 1);
    RollBackOnly(NewEntry(EXAMPLE_A));
    AfterSnoc(EMPTY, ops, 2);
    FirstReserve(EXAMPLE_B);
    AfterSnoc(EMPTY, ops, 3);
    CarryAOntoB();
  }

  lemma CarryAOntoB()
    ensures ValidLedger(Ledger([NewEntry(EXAMPLE_B)], true))
    ensures Step(Ledger([NewEntry(EXAMPLE_B)], true), Carry("p", NewEntry(EXAMPLE_A))).0
         == Ledger([NewEntry(EXAMPLE_B), NewEntry(EXAMPLE_A)], true)
  {
    NamesAreNotBlank();
    assert [NewEntry(EXAMPLE_B)] + [NewEntry(EXAMPLE_A)] == [NewEntry(EXAMPLE_B), NewEntry(EXAMPLE_A)];
  }

  /**
   A run from the empty ledger, carrying only what it looked up, after which an accepted revalue leaves the true total
   past the budget.
   */
  lemma RevalueOverrunExample()
    ensures CarriesLookedUp(EMPTY, OverrunOps())
    ensures var before := Run(EMPTY, OverrunOps()).0;
            var (after, decision) := RevalueStep(before, EXAMPLE_POOL, EXAMPLE_REVALUE, 2, None);
            decision.accepted && TrueTotal(after.live, "p") > Budget(EXAMPLE_POOL)
  {
    OverrunStates();
    assert OverrunOps()[..4] == OverrunOps();
    OverrunCarriesLookedUp();
    OverrunAccepted();
  }

  lemma OnlyCarryLookedUp(l: Ledger, ops: seq<Op>, k: nat)
    requires ValidLedger(l) && k < |ops| && ops[k].Carry? && LookedUp(l, ops, k, ops[k].retained)
    requires forall i :: 0 <= i < |ops| && i != k ==> !ops[i].Carry?
    ensures CarriesLookedUp(l, ops)
  {
  }

  lemma CarryOfALookedUp(ops: seq<Op>)
    requires ops == OverrunOps()
    ensures LookedUp(EMPTY, ops, 3, NewEntry(EXAMPLE_A))
  {
    OverrunStates();
    RetainedExactly(After(EMPTY, ops, 1), "p", "g", "a", NewEntry(EXAMPLE_A));
  }

  lemma OverrunCarriesLookedUp()
    ensures CarriesLookedUp(EMPTY, OverrunOps())
  {
    CarryOfALookedUp(OverrunOps());
    OnlyCarryLookedUp(EMPTY, OverrunOps(), 3);
  }

  /** The first entry of a two-entry ledger whose total saturates may keep its liability, whatever the total. */
  lemma KeepingIsAccepted(b: LiveReservation, a: LiveReservation, pool: PoolSnapshot, request: RevalueRequest,
                          nowNs: nat)
    requires ValidLedger(Ledger([b, a], true))
    requires a.poolId == b.poolId == pool.poolId && Budget(pool) == MAX
    requires TrueTotal([b, a], pool.poolId) > MAX
    requires HasKey(b, request.poolId, request.requestId) && request.groupId == b.groupId
    requires request.liability == b.liability && request.observedAtNs > b.observedAtNs
    requires ItemValid(pool, request, nowNs)
    ensures RevalueStep(Ledger([b, a], true), pool, request, nowNs, None).1.accepted
  {
    assert Position([b, a], request.poolId, request.requestId) == 0;
    RevalueFitsExactly([b, a], pool, 0, request.liability, None);
  }

  lemma TwoEntryTotal(b: LiveReservation, a: LiveReservation)
    requires a.poolId == b.poolId
    ensures TrueTotal([b, a], a.poolId) == b.liability + a.liability
  {
    assert [b, a][1..] == [a];
    assert TrueTotal([a], a.poolId) == a.liability by {
      assert [a][1..] == [];
    }
  }

  lemma OverrunAccepted()
    ensures var before := Ledger([NewEntry(EXAMPLE_B), NewEntry(EXAMPLE_A)], true);
            && ValidLedger(before)
            && RevalueStep(before, EXAMPLE_POOL, EXAMPLE_REVALUE, 2, None).1.accepted
            && TrueTotal(RevalueStep(before, EXAMPLE_POOL, EXAMPLE_REVALUE, 2, None).0.live, "p") > Budget(EXAMPLE_POOL)
  {
    var a, b := NewEntry(EXAMPLE_A), NewEntry(EXAMPLE_B);
    NamesAreNotBlank();
    assert ValidLedger(Ledger([b, a], true));
    TwoEntryTotal(b, a);
    KeepingIsAccepted(b, a, EXAMPLE_POOL, EXAMPLE_REVALUE, 2);
    OverrunTotal(b, a);
  }

  lemma OverrunTotal(b: LiveReservation, a: LiveReservation)
    requires b == NewEntry(EXAMPLE_B) && a == NewEntry(EXAMPLE_A)
    requires ValidLedger(Ledger([b, a], true)) && TrueTotal([b, a], "p") > MAX
    requires RevalueStep(Ledger([b, a], true), EXAMPLE_POOL, EXAMPLE_REVALUE, 2, None).1.accepted
    ensures TrueTotal(RevalueStep(Ledger([b, a], true), EXAMPLE_POOL, EXAMPLE_REVALUE, 2, None).0.live, "p") > MAX
  {
    RevalueTotal(Ledger([b, a], true), EXAMPLE_POOL, EXAMPLE_REVALUE, 2, None);
    assert Position([b, a], "p", "b") == 0;
  }

  // ---------- The mutable ledger ----------

  class ReservationLedger {
    var liveReservations: seq<LiveReservation>
    var reconciliationComplete: bool

    ghost function State(): Ledger
      reads this
    {
      Ledger(liveReservations, reconciliationComplete)
    }

    ghost predicate Valid()
      reads this
    {
      ValidLedger(State())
    }

    constructor Unreconciled()
      ensures Valid() && State() == Ledger([], false)
    {
      liveReservations, reconciliationComplete := [], false;
    }

    constructor Reconciled()
      ensures Valid() && State() == Ledger([], true)
    {
      liveReservations, reconciliationComplete := [], true;
    }

    method InvalidateReconciliation()
      requires Valid()
      modifies this
      ensures Valid() && State() == old(State()).(reconciled := false)
    {
      reconciliationComplete := false;
    }

    /** The running sum of one pool, given up as MAX at the first overflow. */
    method LiveReservedLiability(poolId: string) returns (sum: Decimal)
      requires Valid()
      ensures sum == SaturatedTotal(liveReservations, poolId)
    {
      sum := 0.0;
      TotalNonNegative(liveReservations, poolId);
      for i := 0 to |liveReservations|
        invariant sum == TrueTotal(liveReservations[..i], poolId)
      {
        assert liveReservations[..i + 1] == liveReservations[..i] + [liveReservations[i]];
        TotalPush(liveReservations[..i], liveReservations[i], poolId);
        if liveReservations[i].poolId == poolId {
          var next := CheckedAdd(sum, liveReservations[i].liability);
          if next.None? {
            TotalAt(liveReservations, i, poolId);
            TotalNonNegative(liveReservations[..i], poolId);
            TotalNonNegative(liveReservations[i + 1..], poolId);
            return MAX;
          }
          sum := next.value;
        }
      }
      assert liveReservations[..|liveReservations|] == liveReservations;
      assert Representable(sum);
    }

    /** First index holding the key, or the length. */
    method FindPosition(poolId: string, requestId: string) returns (i: nat)
      ensures i == Position(liveReservations, poolId, requestId)
      ensures i < |liveReservations| <==> Contains(liveReservations, poolId, requestId)
    {
      i := 0;
      while i < |liveReservations| && !HasKey(liveReservations[i], poolId, requestId)
        invariant i <= |liveReservations|
        invariant forall j :: 0 <= j < i ==> !HasKey(liveReservations[j], poolId, requestId)
      {
        i := i + 1;
      }
    }

    method Reserve(pool: PoolSnapshot, request: ReservationRequest, nowNs: nat, floor: Option<Decimal>)
      returns (decision: ReservationDecision)
      requires Valid()
      modifies this
      ensures Valid()
      ensures (State(), decision) == ReserveStep(old(State()), pool, request, nowNs, floor)
    {
      StepFaithful(State(), Op.Reserve(pool, request, nowNs, floor));
      var reserved := LiveReservedLiability(pool.poolId);
      var available := AvailablePoolLiability(pool, reserved);
      if available.None? {
        return RejectedReserve(OverBudget, request.liability, 0.0);
      }
      var before := available.value;
      if !reconciliationComplete {
        return RejectedReserve(ReconciliationRequired, request.liability, before);
      }
      if pool.poolId != request.poolId {
        return RejectedReserve(PoolMismatch, request.liability, before);
      }
      if MissingIdentity(request.requestId, request.poolId, request.groupId) || request.liability <= 0.0 {
        return RejectedReserve(InvalidRequest, request.liability, before);
      }
      if IsBlank(pool.source) || IsBlank(request.evidenceLabel) {
        return RejectedReserve(MissingEvidence, request.liability, before);
      }
      if Stale(pool.observedAtNs, nowNs, pool.maxSnapshotAgeNs)
         || Stale(request.observedAtNs, nowNs, pool.maxSnapshotAgeNs)
         || request.observedAtNs < pool.observedAtNs {
        return RejectedReserve(StaleRequest, request.liability, before);
      }
      var i := FindPosition(request.poolId, request.requestId);
      if i < |liveReservations| {
        return RejectedReserve(DuplicateReservation, request.liability, before);
      }
      if request.liability > before {
        return RejectedReserve(OverBudget, request.liability, before);
      }
      // 0 < liability <= before, so the checked subtraction cannot fail.
      var after: Decimal := before - request.liability;
      if BelowFloor(after, floor) {
        return RejectedReserve(OverBudget, request.liability, before);
      }
      liveReservations := liveReservations + [NewEntry(request)];
      return ReservationDecision(true, None, request.liability, before, Some(after));
    }

    method RollbackUncommitted(poolId: string, requestId: string) returns (removed: Option<Decimal>)
      requires Valid()
      modifies this
      ensures Valid()
      ensures (State(), removed) == RollbackStep(old(State()), poolId, requestId)
    {
      StepFaithful(State(), Rollback(poolId, requestId));
      var i := FindPosition(poolId, requestId);
      if i == |liveReservations| {
        return None;
      }
      removed := Some(liveReservations[i].liability);
      liveReservations := liveReservations[..i] + liveReservations[i + 1..];
    }

    method RemoveExisting(poolId: string, groupId: string, requestId: string) returns (decision: ReleaseDecision)
      requires Valid()
      modifies this
      ensures Valid()
      ensures (State(), decision) == RemoveExistingStep(old(State()), poolId, groupId, requestId)
    {
      StepFaithful(State(), Op.RemoveExisting(poolId, groupId, requestId));
      var i := FindPosition(poolId, requestId);
      if i == |liveReservations| {
        return RejectedRelease(UnknownRelease);
      }
      if liveReservations[i].groupId != groupId {
        return RejectedRelease(CollateralGroupMismatch);
      }
      decision := ReleaseDecision(true, None, Some(liveReservations[i].liability));
      liveReservations := liveReservations[..i] + liveReservations[i + 1..];
    }

    /** Look up an entry to carry into a rebuild. */
    method Retained(poolId: string, groupId: string, requestId: string) returns (r: Result<LiveReservation, Reason>)
      requires Valid()
      ensures r == RetainedReservation(State(), poolId, groupId, requestId)
      ensures r.Ok? <==> exists e :: e in liveReservations && HasKey(e, poolId, requestId) && e.groupId == groupId
    {
      var i := FindPosition(poolId, requestId);
      forall e ensures RetainedReservation(State(), poolId, groupId, requestId) == Ok(e)
                  <==> e in liveReservations && HasKey(e, poolId, requestId) && e.groupId == groupId
      {
        RetainedExactly(State(), poolId, groupId, requestId, e);
      }
      if i == |liveReservations| {
        return Err(UnknownReservation);
      }
      if liveReservations[i].groupId != groupId {
        return Err(CollateralGroupMismatch);
      }
      return Ok(liveReservations[i]);
    }

    method CarryRetained(poolId: string, retained: LiveReservation) returns (carried: Result<Decimal, Reason>)
      requires Valid()
      modifies this
      ensures Valid()
      ensures (State(), carried) == CarryStep(old(State()), poolId, retained)
    {
      StepFaithful(State(), Carry(poolId, retained));
      var i := FindPosition(retained.poolId, retained.requestId);
      if retained.poolId != poolId {
        return Err(PoolMismatch);
      }
      if MissingIdentity(retained.requestId, retained.poolId, retained.groupId) || retained.liability <= 0.0 {
        return Err(InvalidRequest);
      }
      if i < |liveReservations| {
        return Err(DuplicateReservation);
      }
      liveReservations := liveReservations + [retained];
      return Ok(retained.liability);
    }

    method Release(pool: PoolSnapshot, request: ReleaseRequest, nowNs: nat) returns (decision: ReleaseDecision)
      requires Valid()
      modifies this
      ensures Valid()
      ensures (State(), decision) == ReleaseStep(old(State()), pool, request, nowNs)
    {
      StepFaithful(State(), Op.Release(pool, request, nowNs));
      if !reconciliationComplete {
        return RejectedRelease(ReconciliationRequired);
      }
      if pool.poolId != request.poolId {
        return RejectedRelease(PoolMismatch);
      }
      if MissingIdentity(request.requestId, request.poolId, request.groupId) {
        return RejectedRelease(InvalidRequest);
      }
      if IsBlank(pool.source) || IsBlank(request.evidenceLabel) {
        return RejectedRelease(MissingEvidence);
      }
      if Stale(pool.observedAtNs, nowNs, pool.maxSnapshotAgeNs)
         || Stale(request.observedAtNs, nowNs, pool.maxSnapshotAgeNs) {
        return RejectedRelease(StaleRequest);
      }
      // The entry found has the request's pool, so the source's second pool comparison cannot fail.
      var i := FindPosition(request.poolId, request.requestId);
      if i == |liveReservations| {
        return RejectedRelease(UnknownRelease);
      }
      if liveReservations[i].groupId != request.groupId {
        return RejectedRelease(CollateralGroupMismatch);
      }
      if request.observedAtNs <= liveReservations[i].observedAtNs {
        return RejectedRelease(StaleRequest);
      }
      decision := ReleaseDecision(true, None, Some(liveReservations[i].liability));
      liveReservations := liveReservations[..i] + liveReservations[i + 1..];
    }

    method Revalue(pool: PoolSnapshot, request: RevalueRequest, nowNs: nat, floor: Option<Decimal>)
      returns (decision: RevalueDecision)
      requires Valid()
      modifies this
      ensures Valid()
      ensures (State(), decision) == RevalueStep(old(State()), pool, request, nowNs, floor)
    {
      StepFaithful(State(), Op.Revalue(pool, request, nowNs, floor));
      if !reconciliationComplete {
        return RejectedRevalue(ReconciliationRequired);
      }
      if pool.poolId != request.poolId {
        return RejectedRevalue(PoolMismatch);
      }
      if MissingIdentity(request.requestId, request.poolId, request.groupId) || request.liability <= 0.0 {
        return RejectedRevalue(InvalidRequest);
      }
      if IsBlank(pool.source) || IsBlank(request.evidenceLabel) {
        return RejectedRevalue(MissingEvidence);
      }
      if Stale(pool.observedAtNs, nowNs, pool.maxSnapshotAgeNs)
         || Stale(request.observedAtNs, nowNs, pool.maxSnapshotAgeNs) {
        return RejectedRevalue(StaleRequest);
      }
      var i := FindPosition(request.poolId, request.requestId);
      if i == |liveReservations| {
        return RejectedRevalue(UnknownReservation);
      }
      if liveReservations[i].groupId != request.groupId {
        return RejectedRevalue(CollateralGroupMismatch);
      }
      if request.observedAtNs <= liveReservations[i].observedAtNs {
        return RejectedRevalue(StaleRequest);
      }
      var previous := liveReservations[i].liability;
      var reserved := LiveReservedLiability(pool.poolId);
      var available := AvailablePoolLiability(pool, reserved);
      if available.None? {
        return RejectedRevalue(OverBudget);
      }
      var before := CheckedAdd(available.value, previous);
      if before.None? || request.liability > before.value {
        return RejectedRevalue(OverBudget);
      }
      var after: Decimal := before.value - request.liability;
      if BelowFloor(after, floor) {
        return RejectedRevalue(OverBudget);
      }
      liveReservations := liveReservations[
        i := liveReservations[i].(liability := request.liability, observedAtNs := request.observedAtNs)];
      return RevalueDecision(true, None, Some(previous), Some(request.liability));
    }
  }
}
