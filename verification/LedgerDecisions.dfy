/**
 What each ledger operation decides, in full: when it is accepted, what the list then is, and which reason each
 refusal gives (src/bolt_v3_capital_reservation.rs). The conditions are spelled out over the request, the pool and the
 live entries, not through the steps' own guards.
 */
module LedgerDecisions {
  import opened Common
  import opened Decimals
  import opened CapitalReservation

  /** A text with something in it besides white space. */
  predicate Named(s: string) {
    exists i :: 0 <= i < |s| && !IsWhitespace(s[i])
  }

  lemma NamedExactly(s: string)
    ensures Named(s) <==> !IsBlank(s)
  {
  }

  /** Observed in the past, and not longer ago than allowed. */
  predicate FreshAt(observedAtNs: nat, nowNs: nat, maxAgeNs: nat) {
    observedAtNs <= nowNs <= observedAtNs + maxAgeNs
  }

  /** An entry of the list has the key. */
  predicate IsLive(live: seq<LiveReservation>, poolId: string, requestId: string) {
    exists i :: 0 <= i < |live| && live[i].poolId == poolId && live[i].requestId == requestId
  }

  /** Entry `i` of the list has the key; in a valid ledger no other has. */
  predicate IsEntry(live: seq<LiveReservation>, i: nat, poolId: string, requestId: string) {
    i < |live| && live[i].poolId == poolId && live[i].requestId == requestId
  }

  lemma PositionIsEntry(l: Ledger, poolId: string, requestId: string)
    requires ValidLedger(l)
    ensures var n := Position(l.live, poolId, requestId);
            && (IsLive(l.live, poolId, requestId) <==> n < |l.live|)
            && forall i: nat :: IsEntry(l.live, i, poolId, requestId) <==> i == n && n < |l.live|
  {
    var n := Position(l.live, poolId, requestId);
    forall i: nat | IsEntry(l.live, i, poolId, requestId) ensures i == n {
      assert HasKey(l.live[i], poolId, requestId);
      assert n <= i;
    }
  }

  // ---------- Reserve ----------

  /** Everything a reservation needs but budget. */
  predicate ReserveAllowed(l: Ledger, pool: PoolSnapshot, request: ReservationRequest, nowNs: nat) {
    && l.reconciled
    && pool.poolId == request.poolId
    && Named(request.requestId) && Named(request.poolId) && Named(request.groupId)
    && request.liability > 0.0
    && Named(pool.source) && Named(request.evidenceLabel)
    && FreshAt(pool.observedAtNs, nowNs, pool.maxSnapshotAgeNs)
    && FreshAt(request.observedAtNs, nowNs, pool.maxSnapshotAgeNs)
    && pool.observedAtNs <= request.observedAtNs
    && !IsLive(l.live, request.poolId, request.requestId)
  }

  /** The pool's limit less what is committed holds the total and leaves the floor. */
  predicate LeavesRoom(pool: PoolSnapshot, total: real, floor: Option<Decimal>) {
    var left := pool.maxPoolLiability - pool.committedLiability - total;
    && -MAX <= pool.maxPoolLiability - pool.committedLiability <= MAX
    && left >= 0.0
    && (floor.Some? ==> left >= floor.value)
  }

  lemma RoomIsBudget(pool: PoolSnapshot, total: real, floor: Option<Decimal>)
    ensures LeavesRoom(pool, total, floor) <==> FitsBudget(pool, total, floor)
  {
  }

  lemma AllowedIsAdmissible(l: Ledger, pool: PoolSnapshot, request: ReservationRequest, nowNs: nat)
    ensures ReserveAllowed(l, pool, request, nowNs) <==> Admissible(l, pool, request, nowNs)
  {
    NamedExactly(request.requestId);
    NamedExactly(request.poolId);
    NamedExactly(request.groupId);
    NamedExactly(pool.source);
    NamedExactly(request.evidenceLabel);
    if Contains(l.live, request.poolId, request.requestId) {
      var i :| 0 <= i < |l.live| && HasKey(l.live[i], request.poolId, request.requestId);
      assert IsLive(l.live, request.poolId, request.requestId);
    }
    if IsLive(l.live, request.poolId, request.requestId) {
      var i :| 0 <= i < |l.live| && l.live[i].poolId == request.poolId && l.live[i].requestId == request.requestId;
      assert HasKey(l.live[i], request.poolId, request.requestId);
    }
  }

  /** A reserve is accepted exactly when allowed and within the room, and then appends exactly its own entry. */
  lemma ReserveDecides(l: Ledger, pool: PoolSnapshot, request: ReservationRequest, nowNs: nat, floor: Option<Decimal>)
    requires ValidLedger(l)
    ensures var (after, d) := ReserveStep(l, pool, request, nowNs, floor);
            && (d.accepted <==>
                  && ReserveAllowed(l, pool, request, nowNs)
                  && LeavesRoom(pool, TrueTotal(l.live, pool.poolId) + request.liability, floor))
            && d.requestedLiability == request.liability
            && d.availableBefore == (if RoomIsKnown(l, pool)
                                     then Budget(pool) - SaturatedTotal(l.live, pool.poolId) else 0.0)
            && d.availableAfter == (if d.accepted then Some(d.availableBefore - request.liability) else None)
            && (d.accepted ==>
                  && after.reconciled == l.reconciled
                  && after.live == l.live + [LiveReservation(request.requestId, request.poolId, request.groupId,
                                                             request.liability, request.observedAtNs)])
            && (!d.accepted ==> after == l && d.reason.Some?)
  {
    ReserveAcceptsExactly(l, pool, request, nowNs, floor);
    AllowedIsAdmissible(l, pool, request, nowNs);
    RoomIsBudget(pool, TrueTotal(l.live, pool.poolId) + request.liability, floor);
  }

  /** The pool has a representable amount left before the reserve, by the sum the ledger reports. */
  predicate RoomIsKnown(l: Ledger, pool: PoolSnapshot)
    requires AllPositive(l.live)
  {
    var budget := pool.maxPoolLiability - pool.committedLiability;
    -MAX <= budget <= MAX && -MAX <= budget - SaturatedTotal(l.live, pool.poolId) <= MAX
  }

  /** Which reason each refusal of a reserve gives, the earlier ones first. */
  lemma ReserveReasons(l: Ledger, pool: PoolSnapshot, request: ReservationRequest, nowNs: nat, floor: Option<Decimal>)
    requires ValidLedger(l)
    ensures var reason := ReserveStep(l, pool, request, nowNs, floor).1.reason;
            var named := Named(request.requestId) && Named(request.poolId) && Named(request.groupId);
            var evidenced := Named(pool.source) && Named(request.evidenceLabel);
            var timely := && FreshAt(pool.observedAtNs, nowNs, pool.maxSnapshotAgeNs)
                          && FreshAt(request.observedAtNs, nowNs, pool.maxSnapshotAgeNs)
                          && pool.observedAtNs <= request.observedAtNs;
            && (!RoomIsKnown(l, pool) ==> reason == Some(OverBudget))
            && (RoomIsKnown(l, pool) ==>
                  && (!l.reconciled ==> reason == Some(ReconciliationRequired))
                  && (l.reconciled && pool.poolId != request.poolId ==> reason == Some(PoolMismatch))
                  && (l.reconciled && pool.poolId == request.poolId ==>
                        && (!named || request.liability <= 0.0 ==> reason == Some(InvalidRequest))
                        && (named && request.liability > 0.0 ==>
                              && (!evidenced ==> reason == Some(MissingEvidence))
                              && (evidenced && !timely ==> reason == Some(StaleRequest))
                              && (evidenced && timely && IsLive(l.live, request.poolId, request.requestId) ==>
                                    reason == Some(DuplicateReservation))
                              && (evidenced && timely && !IsLive(l.live, request.poolId, request.requestId) ==>
                                    reason in {None, Some(OverBudget)}))))
  {
    NamedExactly(request.requestId);
    NamedExactly(request.poolId);
    NamedExactly(request.groupId);
    NamedExactly(pool.source);
    NamedExactly(request.evidenceLabel);
    PositionIsEntry(l, request.poolId, request.requestId);
    var n := Position(l.live, request.poolId, request.requestId);
    assert Contains(l.live, request.poolId, request.requestId) <==> n < |l.live|;
  }

  // ---------- Release and revalue ----------

  /** What release and revalue ask before they look for the entry. */
  predicate Serviceable(l: Ledger, pool: PoolSnapshot, requestId: string, poolId: string, groupId: string,
                        evidenceLabel: string, observedAtNs: nat, nowNs: nat)
  {
    && l.reconciled
    && pool.poolId == poolId
    && Named(requestId) && Named(poolId) && Named(groupId)
    && Named(pool.source) && Named(evidenceLabel)
    && FreshAt(pool.observedAtNs, nowNs, pool.maxSnapshotAgeNs)
    && FreshAt(observedAtNs, nowNs, pool.maxSnapshotAgeNs)
  }

  lemma ServiceableExactly(l: Ledger, pool: PoolSnapshot, requestId: string, poolId: string, groupId: string,
                           evidenceLabel: string, observedAtNs: nat, nowNs: nat, invalid: bool)
    ensures LifecycleGuard(l, pool, poolId, MissingIdentity(requestId, poolId, groupId) || invalid, evidenceLabel,
                           observedAtNs, nowNs).None?
       <==> Serviceable(l, pool, requestId, poolId, groupId, evidenceLabel, observedAtNs, nowNs) && !invalid
  {
    NamedExactly(requestId);
    NamedExactly(poolId);
    NamedExactly(groupId);
    NamedExactly(pool.source);
    NamedExactly(evidenceLabel);
  }

  /** Entry `i` is the one asked about, in the group asked about, and older than the asking. */
  predicate IsOlderEntry(live: seq<LiveReservation>, i: nat, poolId: string, requestId: string, groupId: string,
                         observedAtNs: nat)
  {
    IsEntry(live, i, poolId, requestId) && live[i].groupId == groupId && live[i].observedAtNs < observedAtNs
  }

  /** A release is accepted exactly when serviceable for an older live entry, and then removes exactly that entry. */
  lemma ReleaseDecides(l: Ledger, pool: PoolSnapshot, request: ReleaseRequest, nowNs: nat)
    requires ValidLedger(l)
    ensures var (after, d) := ReleaseStep(l, pool, request, nowNs);
            && (d.accepted <==>
                  && Serviceable(l, pool, request.requestId, request.poolId, request.groupId, request.evidenceLabel,
                                 request.observedAtNs, nowNs)
                  && exists i: nat :: IsOlderEntry(l.live, i, request.poolId, request.requestId, request.groupId,
                                                   request.observedAtNs))
            && (d.accepted ==> forall i: nat :: IsEntry(l.live, i, request.poolId, request.requestId) ==>
                  && after == Ledger(l.live[..i] + l.live[i + 1..], l.reconciled)
                  && d == ReleaseDecision(true, None, Some(l.live[i].liability)))
            && (!d.accepted ==> after == l && d.reason.Some? && d.releasedLiability.None?)
  {
    ServiceableExactly(l, pool, request.requestId, request.poolId, request.groupId, request.evidenceLabel,
                       request.observedAtNs, nowNs, false);
    PositionIsEntry(l, request.poolId, request.requestId);
    var n := Position(l.live, request.poolId, request.requestId);
    if ReleaseStep(l, pool, request, nowNs).1.accepted {
      assert IsOlderEntry(l.live, n, request.poolId, request.requestId, request.groupId, request.observedAtNs);
    }
  }

  /** Which reason a refused release gives once it is serviceable. */
  lemma ReleaseReasons(l: Ledger, pool: PoolSnapshot, request: ReleaseRequest, nowNs: nat)
    requires ValidLedger(l)
    requires Serviceable(l, pool, request.requestId, request.poolId, request.groupId, request.evidenceLabel,
                         request.observedAtNs, nowNs)
    ensures var reason := ReleaseStep(l, pool, request, nowNs).1.reason;
            && (!IsLive(l.live, request.poolId, request.requestId) <==> reason == Some(UnknownRelease))
            && forall i: nat :: IsEntry(l.live, i, request.poolId, request.requestId) ==>
                 && (l.live[i].groupId != request.groupId ==> reason == Some(CollateralGroupMismatch))
                 && (l.live[i].groupId == request.groupId && l.live[i].observedAtNs >= request.observedAtNs ==>
                       reason == Some(StaleRequest))
  {
    ServiceableExactly(l, pool, request.requestId, request.poolId, request.groupId, request.evidenceLabel,
                       request.observedAtNs, nowNs, false);
    PositionIsEntry(l, request.poolId, request.requestId);
  }

  /** Which reason release and revalue give before they look for the entry, the earlier ones first. */
  lemma ServiceReasons(l: Ledger, pool: PoolSnapshot, requestId: string, poolId: string, groupId: string,
                       evidenceLabel: string, observedAtNs: nat, nowNs: nat, invalid: bool)
    ensures var reason := LifecycleGuard(l, pool, poolId, MissingIdentity(requestId, poolId, groupId) || invalid,
                                         evidenceLabel, observedAtNs, nowNs);
            var named := Named(requestId) && Named(poolId) && Named(groupId) && !invalid;
            var evidenced := Named(pool.source) && Named(evidenceLabel);
            var timely := && FreshAt(pool.observedAtNs, nowNs, pool.maxSnapshotAgeNs)
                          && FreshAt(observedAtNs, nowNs, pool.maxSnapshotAgeNs);
            && (!l.reconciled <==> reason == Some(ReconciliationRequired))
            && (l.reconciled && pool.poolId != poolId <==> reason == Some(PoolMismatch))
            && (l.reconciled && pool.poolId == poolId && !named <==> reason == Some(InvalidRequest))
            && (l.reconciled && pool.poolId == poolId && named && !evidenced <==> reason == Some(MissingEvidence))
            && (l.reconciled && pool.poolId == poolId && named && evidenced && !timely <==> reason == Some(StaleRequest))
  {
    NamedExactly(requestId);
    NamedExactly(poolId);
    NamedExactly(groupId);
    NamedExactly(pool.source);
    NamedExactly(evidenceLabel);
  }

  /** The budget a revalue is measured against: the saturated live sum with the entry's own liability given back. */
  predicate RevalueLeavesRoom(l: Ledger, pool: PoolSnapshot, previous: real, liability: real, floor: Option<Decimal>)
    requires AllPositive(l.live)
  {
    var left := pool.maxPoolLiability - pool.committedLiability - SaturatedTotal(l.live, pool.poolId)
                + previous - liability;
    RoomIsKnown(l, pool) && left >= 0.0 && (floor.Some? ==> left >= floor.value)
  }

  /** A revalue is accepted exactly when serviceable for an older live entry with room, which it then rewrites in place. */
  lemma RevalueDecides(l: Ledger, pool: PoolSnapshot, request: RevalueRequest, nowNs: nat, floor: Option<Decimal>)
    requires ValidLedger(l)
    ensures var (after, d) := RevalueStep(l, pool, request, nowNs, floor);
            && (d.accepted <==>
                  && Serviceable(l, pool, request.requestId, request.poolId, request.groupId, request.evidenceLabel,
                                 request.observedAtNs, nowNs)
                  && request.liability > 0.0
                  && exists i: nat ::
                       && IsOlderEntry(l.live, i, request.poolId, request.requestId, request.groupId,
                                       request.observedAtNs)
                       && RevalueLeavesRoom(l, pool, l.live[i].liability, request.liability, floor))
            && (d.accepted ==> forall i: nat :: IsEntry(l.live, i, request.poolId, request.requestId) ==>
                  && after == Ledger(l.live[i := LiveReservation(request.requestId, request.poolId, request.groupId,
                                                                 request.liability, request.observedAtNs)],
                                     l.reconciled)
                  && d == RevalueDecision(true, None, Some(l.live[i].liability), Some(request.liability)))
            && (!d.accepted ==>
                  after == l && d.reason.Some? && d.previousLiability.None? && d.revaluedLiability.None?)
  {
    ServiceableExactly(l, pool, request.requestId, request.poolId, request.groupId, request.evidenceLabel,
                       request.observedAtNs, nowNs, request.liability <= 0.0);
    PositionIsEntry(l, request.poolId, request.requestId);
    var n := Position(l.live, request.poolId, request.requestId);
    if n < |l.live| && pool.poolId == request.poolId && request.liability > 0.0 {
      RevalueFitsExactly(l.live, pool, n, request.liability, floor);
    }
    if RevalueStep(l, pool, request, nowNs, floor).1.accepted {
      assert IsOlderEntry(l.live, n, request.poolId, request.requestId, request.groupId, request.observedAtNs);
    }
  }

  /** Which reason a refused revalue gives once it is serviceable with a positive liability. */
  lemma RevalueReasons(l: Ledger, pool: PoolSnapshot, request: RevalueRequest, nowNs: nat, floor: Option<Decimal>)
    requires ValidLedger(l) && request.liability > 0.0
    requires Serviceable(l, pool, request.requestId, request.poolId, request.groupId, request.evidenceLabel,
                         request.observedAtNs, nowNs)
    ensures var reason := RevalueStep(l, pool, request, nowNs, floor).1.reason;
            && (!IsLive(l.live, request.poolId, request.requestId) <==> reason == Some(UnknownReservation))
            && forall i: nat :: IsEntry(l.live, i, request.poolId, request.requestId) ==>
                 && (l.live[i].groupId != request.groupId ==> reason == Some(CollateralGroupMismatch))
                 && (l.live[i].groupId == request.groupId && l.live[i].observedAtNs >= request.observedAtNs ==>
                       reason == Some(StaleRequest))
                 && (l.live[i].groupId == request.groupId && l.live[i].observedAtNs < request.observedAtNs ==>
                       reason in {None, Some(OverBudget)})
  {
    ServiceableExactly(l, pool, request.requestId, request.poolId, request.groupId, request.evidenceLabel,
                       request.observedAtNs, nowNs, false);
    PositionIsEntry(l, request.poolId, request.requestId);
  }

  // ---------- Rollback, removal and carry ----------

  /** A rollback removes exactly the live entry of its key and reports its liability, or finds none. */
  lemma RollbackDecides(l: Ledger, poolId: string, requestId: string)
    requires ValidLedger(l)
    ensures var (after, removed) := RollbackStep(l, poolId, requestId);
            && (removed.Some? <==> IsLive(l.live, poolId, requestId))
            && (removed.None? ==> after == l)
            && forall i: nat :: IsEntry(l.live, i, poolId, requestId) ==>
                 after == Ledger(l.live[..i] + l.live[i + 1..], l.reconciled) && removed == Some(l.live[i].liability)
  {
    PositionIsEntry(l, poolId, requestId);
  }

  /** A removal is accepted exactly for a live entry of the key and group; else it says which is wrong. */
  lemma RemoveDecides(l: Ledger, poolId: string, groupId: string, requestId: string)
    requires ValidLedger(l)
    ensures var (after, d) := RemoveExistingStep(l, poolId, groupId, requestId);
            && (!IsLive(l.live, poolId, requestId) ==> after == l && d == ReleaseDecision(false, Some(UnknownRelease), None))
            && forall i: nat :: IsEntry(l.live, i, poolId, requestId) ==>
                 if l.live[i].groupId == groupId then
                   && after == Ledger(l.live[..i] + l.live[i + 1..], l.reconciled)
                   && d == ReleaseDecision(true, None, Some(l.live[i].liability))
                 else after == l && d == ReleaseDecision(false, Some(CollateralGroupMismatch), None)
  {
    PositionIsEntry(l, poolId, requestId);
  }

  /** A carry appends the entry as it is exactly when its pool fits, it is named and positive, and its key is not live. */
  lemma CarryDecides(l: Ledger, poolId: string, r: LiveReservation)
    requires ValidLedger(l)
    ensures var (after, carried) := CarryStep(l, poolId, r);
            var named := Named(r.requestId) && Named(r.poolId) && Named(r.groupId) && r.liability > 0.0;
            && (carried.Ok? <==> r.poolId == poolId && named && !IsLive(l.live, r.poolId, r.requestId))
            && (carried.Ok? ==> carried.value == r.liability && after == Ledger(l.live + [r], l.reconciled))
            && (carried.Err? ==> after == l)
            && (r.poolId != poolId <==> carried == Err(PoolMismatch))
            && (r.poolId == poolId && !named <==> carried == Err(InvalidRequest))
            && (r.poolId == poolId && named && IsLive(l.live, r.poolId, r.requestId) <==> carried == Err(DuplicateReservation))
  {
    NamedExactly(r.requestId);
    NamedExactly(r.poolId);
    NamedExactly(r.groupId);
    PositionIsEntry(l, r.poolId, r.requestId);
    var n := Position(l.live, r.poolId, r.requestId);
    assert Contains(l.live, r.poolId, r.requestId) <==> n < |l.live|;
  }

  /** A closed ledger answers every reserve, release and revalue with the need to reconcile, room being known. */
  lemma ClosedLedgerRefuses(l: Ledger, pool: PoolSnapshot, request: ReservationRequest, release: ReleaseRequest, nowNs: nat,
                            floor: Option<Decimal>)
    requires ValidLedger(l) && !l.reconciled
    ensures ReleaseStep(l, pool, release, nowNs) == (l, ReleaseDecision(false, Some(ReconciliationRequired), None))
    ensures RevalueStep(l, pool, request, nowNs, floor)
         == (l, RevalueDecision(false, Some(ReconciliationRequired), None, None))
    ensures RoomIsKnown(l, pool) ==> ReserveStep(l, pool, request, nowNs, floor).1.reason == Some(ReconciliationRequired)
  {
  }

  /** Invalidating closes the gate and keeps every entry; no other operation touches the gate. */
  lemma OnlyInvalidateCloses(l: Ledger, op: Op)
    requires ValidLedger(l)
    ensures Step(l, op).0.reconciled == (l.reconciled && !op.Invalidate?)
    ensures op.Invalidate? ==> Step(l, op).0.live == l.live
  {
  }
}
