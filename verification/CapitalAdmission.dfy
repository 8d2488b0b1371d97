/**
 The capital admission gate over the reservation ledger: rebuild from evidence, invalidation,
 admission of one order intent, removal and rollback (src/bolt_v3_capital_admission.rs).
 */
module CapitalAdmission {
  import opened Common
  import opened Decimals
  import opened RealArithmetic
  import opened CapitalReservation

  // ---------- Structural validation of a reservation decision ----------

  datatype ValidatedDecision = Accepted | Rejected(reason: Reason)

  datatype Invariant =
    | AcceptedReservationHasRejectionReason
    | ContradictoryReservationDecisionContext
    | MissingReservationRejectionReason

  function ValidateReservationDecision(d: ReservationDecision): Result<ValidatedDecision, Invariant> {
    match (d.accepted, d.reason, d.availableAfter)
    case (true, None, Some(_)) => Ok(Accepted)
    case (false, Some(reason), None) => Ok(Rejected(reason))
    case (false, None, _) => Err(MissingReservationRejectionReason)
    case (true, Some(_), _) => Err(AcceptedReservationHasRejectionReason)
    case _ => Err(ContradictoryReservationDecisionContext)
  }

  /** A decision is well formed when exactly one of a reason and a remainder is given, as its flag says. */
  lemma ValidationDecides(d: ReservationDecision)
    ensures var r := ValidateReservationDecision(d);
            && (r == Ok(Accepted) <==> d.accepted && d.reason.None? && d.availableAfter.Some?)
            && (r.Ok? && r.value.Rejected? <==> !d.accepted && d.reason.Some? && d.availableAfter.None?)
            && (r.Ok? && r.value.Rejected? ==> d.reason == Some(r.value.reason))
            && (r == Err(MissingReservationRejectionReason) <==> !d.accepted && d.reason.None?)
            && (r == Err(AcceptedReservationHasRejectionReason) <==> d.accepted && d.reason.Some?)
  {
  }

  /** The ledger's own decisions always pass validation, and validation reads them correctly. */
  lemma ReserveDecisionsAreWellFormed(l: Ledger, pool: PoolSnapshot, request: ReservationRequest, nowNs: nat,
                                      floor: Option<Decimal>)
    requires ValidLedger(l)
    ensures var (after, d) := ReserveStep(l, pool, request, nowNs, floor);
            && (ValidateReservationDecision(d) == Ok(Accepted) <==> after != l)
            && (after == l <==> d.reason.Some? && ValidateReservationDecision(d) == Ok(Rejected(d.reason.value)))
  {
    assert |l.live + [NewEntry(request)]| != |l.live|;
  }

  // ---------- Rebuild ----------

  datatype Evidence =
    | NtOpenOrder(request: ReservationRequest)
    | RetainedLifecycle(retained: LiveReservation)

  datatype RebuildDecision = RebuildDecision(
    accepted: bool,
    reason: Option<Reason>,
    attemptedCount: nat,
    rebuiltCount: nat,
    liveReservedLiability: Decimal)

  datatype Stage = Staged(ledger: Ledger) | Refused(index: nat, reason: Reason)

  /** Offer one piece of evidence to the staged ledger. */
  function StageOne(l: Ledger, pool: PoolSnapshot, e: Evidence, nowNs: nat, floor: Option<Decimal>)
    : (r: Result<Ledger, Reason>)
    requires ValidLedger(l)
    ensures r.Ok? ==> ValidLedger(r.value)
  {
    match e
    case NtOpenOrder(request) =>
      if pool.poolId != request.poolId then Err(PoolMismatch)
      else
        StepFaithful(l, Reserve(pool, request, nowNs, floor));
        var (after, d) := ReserveStep(l, pool, request, nowNs, floor);
        if d.accepted then Ok(after) else Err(d.reason.value)
    case RetainedLifecycle(retained) =>
      StepFaithful(l, Carry(pool.poolId, retained));
      var (after, carried) := CarryStep(l, pool.poolId, retained);
      if carried.Ok? then Ok(after) else Err(carried.error)
  }

  /** Stage a whole evidence list into an empty ledger, stopping at the first refusal. */
  function StageAll(pool: PoolSnapshot, evidence: seq<Evidence>, nowNs: nat, floor: Option<Decimal>): (s: Stage)
    ensures s.Staged? ==> ValidLedger(s.ledger)
    ensures s.Refused? ==> s.index < |evidence|
  {
    if evidence == [] then Staged(Ledger([], true))
    else
      var n := |evidence| - 1;
      match StageAll(pool, evidence[..n], nowNs, floor)
      case Refused(index, reason) => Refused(index, reason)
      case Staged(l) =>
        match StageOne(l, pool, evidence[n], nowNs, floor)
        case Err(reason) => Refused(n, reason)
        case Ok(after) => Staged(after)
  }

  function RebuildStep(l: Ledger, pool: PoolSnapshot, evidence: seq<Evidence>, nowNs: nat, floor: Option<Decimal>)
    : (Ledger, RebuildDecision)
    requires ValidLedger(l)
  {
    match StageAll(pool, evidence, nowNs, floor)
    case Staged(rebuilt) =>
      (rebuilt,
       RebuildDecision(true, None, |evidence|, |evidence|, SaturatedTotal(rebuilt.live, pool.poolId)))
    case Refused(index, reason) =>
      (l.(reconciled := false),
       RebuildDecision(false, Some(reason), index + 1, index, SaturatedTotal(l.live, pool.poolId)))
  }

  /** The live entry a piece of evidence becomes. */
  function EntryOf(e: Evidence): LiveReservation {
    match e
    case NtOpenOrder(request) => NewEntry(request)
    case RetainedLifecycle(retained) => retained
  }

  function Entries(evidence: seq<Evidence>): (r: seq<LiveReservation>)
    ensures |r| == |evidence|
    ensures forall i :: 0 <= i < |r| ==> r[i] == EntryOf(evidence[i])
  {
    seq(|evidence|, i requires 0 <= i < |evidence| => EntryOf(evidence[i]))
  }

  /** Evidence acceptable to the pool on its own, budget aside. */
  predicate EvidenceValid(pool: PoolSnapshot, e: Evidence, nowNs: nat) {
    match e
    case NtOpenOrder(request) => ItemValid(pool, request, nowNs)
    case RetainedLifecycle(r) =>
      r.poolId == pool.poolId && !MissingIdentity(r.requestId, r.poolId, r.groupId) && r.liability > 0.0
  }

  predicate AllEvidenceValid(pool: PoolSnapshot, evidence: seq<Evidence>, nowNs: nat) {
    forall i :: 0 <= i < |evidence| ==> EvidenceValid(pool, evidence[i], nowNs)
  }

  function RequestIds(evidence: seq<Evidence>): (ids: seq<string>)
    ensures |ids| == |evidence|
    ensures forall i :: 0 <= i < |ids| ==> ids[i] == EntryOf(evidence[i]).requestId
  {
    seq(|evidence|, i requires 0 <= i < |evidence| => EntryOf(evidence[i]).requestId)
  }

  /** The pool's total over the evidence up to and including item `k`. */
  function TotalThrough(evidence: seq<Evidence>, k: nat, poolId: string): real
    requires k < |evidence|
  {
    TrueTotal(Entries(evidence)[..k + 1], poolId)
  }

  /** Each open order finds the total up to and including itself inside the budget; carries are not asked. */
  predicate OpenOrdersFit(pool: PoolSnapshot, evidence: seq<Evidence>, floor: Option<Decimal>) {
    forall k :: 0 <= k < |evidence| && evidence[k].NtOpenOrder? ==>
      FitsBudget(pool, TotalThrough(evidence, k, pool.poolId), floor)
  }

  predicate Acceptable(pool: PoolSnapshot, evidence: seq<Evidence>, nowNs: nat, floor: Option<Decimal>) {
    && AllEvidenceValid(pool, evidence, nowNs)
    && Distinct(RequestIds(evidence))
    && OpenOrdersFit(pool, evidence, floor)
  }

  lemma ValidSnoc(pool: PoolSnapshot, evidence: seq<Evidence>, nowNs: nat)
    requires evidence != []
    ensures AllEvidenceValid(pool, evidence, nowNs)
       <==> && AllEvidenceValid(pool, evidence[..|evidence| - 1], nowNs)
            && EvidenceValid(pool, evidence[|evidence| - 1], nowNs)
  {
    var before := evidence[..|evidence| - 1];
    assert forall k :: 0 <= k < |before| ==> evidence[k] == before[k];
  }

  lemma IdsSnoc(evidence: seq<Evidence>)
    requires evidence != []
    ensures Distinct(RequestIds(evidence))
       <==> && Distinct(RequestIds(evidence[..|evidence| - 1]))
            && RequestIds(evidence)[|evidence| - 1] !in RequestIds(evidence[..|evidence| - 1])
  {
    var n := |evidence| - 1;
    assert RequestIds(evidence) == RequestIds(evidence[..n]) + [RequestIds(evidence)[n]];
    DistinctSnoc(RequestIds(evidence[..n]), RequestIds(evidence)[n]);
  }

  lemma OpenOrdersFitSnoc(pool: PoolSnapshot, evidence: seq<Evidence>, floor: Option<Decimal>)
    requires evidence != []
    ensures OpenOrdersFit(pool, evidence, floor)
       <==> && OpenOrdersFit(pool, evidence[..|evidence| - 1], floor)
            && (evidence[|evidence| - 1].NtOpenOrder? ==>
                  FitsBudget(pool, TrueTotal(Entries(evidence), pool.poolId), floor))
  {
    var n := |evidence| - 1;
    var before := evidence[..n];
    forall k | 0 <= k < n ensures TotalThrough(evidence, k, pool.poolId) == TotalThrough(before, k, pool.poolId) {
      assert Entries(evidence)[..k + 1] == Entries(before)[..k + 1];
    }
    assert Entries(evidence)[..n + 1] == Entries(evidence);
    assert forall k :: 0 <= k < n ==> before[k] == evidence[k];
  }

  /** How acceptability of a list grows by one item. */
  lemma AcceptableSnoc(pool: PoolSnapshot, evidence: seq<Evidence>, nowNs: nat, floor: Option<Decimal>)
    requires evidence != []
    ensures Acceptable(pool, evidence, nowNs, floor)
       <==> && Acceptable(pool, evidence[..|evidence| - 1], nowNs, floor)
            && EvidenceValid(pool, evidence[|evidence| - 1], nowNs)
            && RequestIds(evidence)[|evidence| - 1] !in RequestIds(evidence[..|evidence| - 1])
            && (evidence[|evidence| - 1].NtOpenOrder? ==>
                  FitsBudget(pool, TrueTotal(Entries(evidence), pool.poolId), floor))
  {
    ValidSnoc(pool, evidence, nowNs);
    IdsSnoc(evidence);
    OpenOrdersFitSnoc(pool, evidence, floor);
  }

  /** A request id is already staged exactly when the ledger holds its key. */
  lemma ContainsIsMembership(pool: PoolSnapshot, evidence: seq<Evidence>, nowNs: nat, requestId: string)
    requires AllEvidenceValid(pool, evidence, nowNs)
    ensures Contains(Entries(evidence), pool.poolId, requestId) <==> requestId in RequestIds(evidence)
  {
    if requestId in RequestIds(evidence) {
      var i :| 0 <= i < |evidence| && RequestIds(evidence)[i] == requestId;
      assert EvidenceValid(pool, evidence[i], nowNs);
      assert HasKey(Entries(evidence)[i], pool.poolId, requestId);
    }
  }

  lemma StageCarryExactly(l: Ledger, pool: PoolSnapshot, r: LiveReservation, nowNs: nat, floor: Option<Decimal>)
    requires ValidLedger(l)
    ensures var staged := StageOne(l, pool, RetainedLifecycle(r), nowNs, floor);
            && (staged.Ok? <==> EvidenceValid(pool, RetainedLifecycle(r), nowNs)
                                && !Contains(l.live, pool.poolId, r.requestId))
            && (staged.Ok? ==> staged.value == l.(live := l.live + [r]))
  {
  }

  lemma StageOpenExactly(l: Ledger, pool: PoolSnapshot, request: ReservationRequest, nowNs: nat, floor: Option<Decimal>)
    requires ValidLedger(l) && l.reconciled
    ensures var staged := StageOne(l, pool, NtOpenOrder(request), nowNs, floor);
            && (staged.Ok? <==> ItemValid(pool, request, nowNs)
                                && !Contains(l.live, pool.poolId, request.requestId)
                                && FitsBudget(pool, TrueTotal(l.live, pool.poolId) + request.liability, floor))
            && (staged.Ok? ==> staged.value == l.(live := l.live + [NewEntry(request)]))
  {
    ReserveAcceptsExactly(l, pool, request, nowNs, floor);
  }

  /** What one piece of evidence needs of the ledger it is offered to. */
  predicate Stageable(l: Ledger, pool: PoolSnapshot, e: Evidence, nowNs: nat, floor: Option<Decimal>) {
    && EvidenceValid(pool, e, nowNs)
    && !Contains(l.live, pool.poolId, EntryOf(e).requestId)
    && (e.NtOpenOrder? ==> FitsBudget(pool, TrueTotal(l.live + [EntryOf(e)], pool.poolId), floor))
  }

  lemma StageableExactly(l: Ledger, pool: PoolSnapshot, e: Evidence, nowNs: nat, floor: Option<Decimal>)
    requires ValidLedger(l) && l.reconciled
    ensures var staged := StageOne(l, pool, e, nowNs, floor);
            && (staged.Ok? <==> Stageable(l, pool, e, nowNs, floor))
            && (staged.Ok? ==> staged.value == l.(live := l.live + [EntryOf(e)]))
  {
    TotalPush(l.live, EntryOf(e), pool.poolId);
    match e {
      case NtOpenOrder(request) => StageOpenExactly(l, pool, request, nowNs, floor);
      case RetainedLifecycle(r) => StageCarryExactly(l, pool, r, nowNs, floor);
    }
  }

  lemma StageableSnoc(pool: PoolSnapshot, evidence: seq<Evidence>, nowNs: nat, floor: Option<Decimal>)
    requires evidence != [] && Acceptable(pool, evidence[..|evidence| - 1], nowNs, floor)
    ensures Stageable(Ledger(Entries(evidence[..|evidence| - 1]), true), pool, evidence[|evidence| - 1], nowNs, floor)
       <==> Acceptable(pool, evidence, nowNs, floor)
    ensures Entries(evidence) == Entries(evidence[..|evidence| - 1]) + [EntryOf(evidence[|evidence| - 1])]
  {
    var n := |evidence| - 1;
    AcceptableSnoc(pool, evidence, nowNs, floor);
    ContainsIsMembership(pool, evidence[..n], nowNs, EntryOf(evidence[n]).requestId);
    assert Entries(evidence) == Entries(evidence[..n]) + [EntryOf(evidence[n])];
  }

  /** Staging one more item onto an acceptable list succeeds exactly when the longer list is acceptable. */
  lemma StageOneExactly(pool: PoolSnapshot, evidence: seq<Evidence>, nowNs: nat, floor: Option<Decimal>)
    requires evidence != []
    requires var before := evidence[..|evidence| - 1];
             Acceptable(pool, before, nowNs, floor) && ValidLedger(Ledger(Entries(before), true))
    ensures var n := |evidence| - 1;
            var r := StageOne(Ledger(Entries(evidence[..n]), true), pool, evidence[n], nowNs, floor);
            && (r.Ok? <==> Acceptable(pool, evidence, nowNs, floor))
            && (r.Ok? ==> r.value == Ledger(Entries(evidence), true))
  {
    var n := |evidence| - 1;
    StageableSnoc(pool, evidence, nowNs, floor);
    StageableExactly(Ledger(Entries(evidence[..n]), true), pool, evidence[n], nowNs, floor);
  }

  /**
   A rebuild is accepted exactly when every item is valid for the pool, request ids are distinct, and
   each open order fits behind what precedes it; the staged ledger is then the evidence, in order.
   */
  lemma {:induction false} StageAllExactly(pool: PoolSnapshot, evidence: seq<Evidence>, nowNs: nat,
                                           floor: Option<Decimal>)
    ensures StageAll(pool, evidence, nowNs, floor).Staged? <==> Acceptable(pool, evidence, nowNs, floor)
    ensures Acceptable(pool, evidence, nowNs, floor) ==>
              StageAll(pool, evidence, nowNs, floor).ledger == Ledger(Entries(evidence), true)
  {
    if evidence == [] {
      assert Entries(evidence) == [];
    } else {
      var n := |evidence| - 1;
      StageAllExactly(pool, evidence[..n], nowNs, floor);
      AcceptableSnoc(pool, evidence, nowNs, floor);
      if Acceptable(pool, evidence[..n], nowNs, floor) {
        StageOneExactly(pool, evidence, nowNs, floor);
      }
    }
  }

  predicate OpenOrdersOnly(evidence: seq<Evidence>) {
    forall i :: 0 <= i < |evidence| ==> evidence[i].NtOpenOrder?
  }

  lemma TotalThroughIsBounded(pool: PoolSnapshot, evidence: seq<Evidence>, k: nat, nowNs: nat)
    requires AllEvidenceValid(pool, evidence, nowNs) && k < |evidence|
    ensures TotalThrough(evidence, k, pool.poolId) <= TrueTotal(Entries(evidence), pool.poolId)
  {
    var entries := Entries(evidence);
    assert entries == entries[..k + 1] + entries[k + 1..];
    TotalConcat(entries[..k + 1], entries[k + 1..], pool.poolId);
    assert forall i :: 0 <= i < |evidence| ==> EvidenceValid(pool, evidence[i], nowNs);
    TotalNonNegative(entries[k + 1..], pool.poolId);
  }

  /** For open orders alone the running budget checks collapse to one check of the grand total. */
  lemma OpenOrderRebuildExactly(pool: PoolSnapshot, evidence: seq<Evidence>, nowNs: nat, floor: Option<Decimal>)
    requires OpenOrdersOnly(evidence)
    ensures StageAll(pool, evidence, nowNs, floor).Staged?
       <==> && AllEvidenceValid(pool, evidence, nowNs)
            && Distinct(RequestIds(evidence))
            && (evidence != [] ==> FitsBudget(pool, TrueTotal(Entries(evidence), pool.poolId), floor))
  {
    StageAllExactly(pool, evidence, nowNs, floor);
    if AllEvidenceValid(pool, evidence, nowNs) && evidence != [] {
      var last := |evidence| - 1;
      assert Entries(evidence)[..last + 1] == Entries(evidence);
      assert TotalThrough(evidence, last, pool.poolId) == TrueTotal(Entries(evidence), pool.poolId);
      forall k | 0 <= k < |evidence|
        ensures TotalThrough(evidence, k, pool.poolId) <= TotalThrough(evidence, last, pool.poolId)
      {
        TotalThroughIsBounded(pool, evidence, k, nowNs);
      }
      assert evidence[last].NtOpenOrder?;
    }
  }

  /** Reordering evidence reorders the entries and keeps every pool total. */
  lemma {:induction false} EntriesPermute(a: seq<Evidence>, b: seq<Evidence>, poolId: string)
    requires multiset(a) == multiset(b)
    ensures multiset(Entries(a)) == multiset(Entries(b))
    ensures TrueTotal(Entries(a), poolId) == TrueTotal(Entries(b), poolId)
  {
    if a == [] {
      assert |multiset(b)| == 0;
      assert b == [];
    } else {
      var k := PermutationHead(a, b);
      EntriesPermute(a[1..], Without(b, k), poolId);
      EntriesWithout(a, 0, poolId);
      EntriesWithout(b, k, poolId);
      assert Without(a, 0) == a[1..];
    }
  }

  lemma EntriesWithout(b: seq<Evidence>, k: nat, poolId: string)
    requires k < |b|
    ensures multiset(Entries(b)) == multiset{EntryOf(b[k])} + multiset(Entries(Without(b, k)))
    ensures TrueTotal(Entries(b), poolId)
         == Contribution(EntryOf(b[k]), poolId) + TrueTotal(Entries(Without(b, k)), poolId)
  {
    var e := Entries(b);
    assert Entries(Without(b, k)) == e[..k] + e[k + 1..];
    assert e == e[..k] + [e[k]] + e[k + 1..];
    TotalAt(e, k, poolId);
    TotalConcat(e[..k], e[k + 1..], poolId);
  }

  /** Open-order evidence in any order is accepted alike and rebuilds the same multiset of entries. */
  lemma OpenOrderRebuildIgnoresOrder(pool: PoolSnapshot, a: seq<Evidence>, b: seq<Evidence>, nowNs: nat,
                                     floor: Option<Decimal>)
    requires OpenOrdersOnly(a)
    requires multiset(a) == multiset(b)
    ensures var s, t := StageAll(pool, a, nowNs, floor), StageAll(pool, b, nowNs, floor);
            && (s.Staged? <==> t.Staged?)
            && (s.Staged? ==> multiset(s.ledger.live) == multiset(t.ledger.live))
  {
    assert forall x :: x in a <==> x in multiset(a);
    assert forall x :: x in b <==> x in multiset(b);
    assert |a| == |multiset(a)| == |multiset(b)| == |b|;
    assert OpenOrdersOnly(b) by {
      forall i | 0 <= i < |b| ensures b[i].NtOpenOrder? {
        assert b[i] in a;
      }
    }
    SameMembers(pool, a, b, nowNs);
    SameMembers(pool, b, a, nowNs);
    DistinctByCount(RequestIds(a));
    DistinctByCount(RequestIds(b));
    assert (set x | x in RequestIds(a)) == (set x | x in RequestIds(b));
    EntriesPermute(a, b, pool.poolId);
    OpenOrderRebuildExactly(pool, a, nowNs, floor);
    OpenOrderRebuildExactly(pool, b, nowNs, floor);
    StageAllExactly(pool, a, nowNs, floor);
    StageAllExactly(pool, b, nowNs, floor);
  }

  lemma SameMembers(pool: PoolSnapshot, a: seq<Evidence>, b: seq<Evidence>, nowNs: nat)
    requires forall x :: x in b ==> x in a
    ensures AllEvidenceValid(pool, a, nowNs) ==> AllEvidenceValid(pool, b, nowNs)
    ensures forall id :: id in RequestIds(b) ==> id in RequestIds(a)
  {
    forall i | 0 <= i < |b|
      ensures AllEvidenceValid(pool, a, nowNs) ==> EvidenceValid(pool, b[i], nowNs)
      ensures RequestIds(b)[i] in RequestIds(a)
    {
      assert b[i] in a;
      var j :| 0 <= j < |a| && a[j] == b[i];
      assert RequestIds(a)[j] == RequestIds(b)[i];
    }
  }

  const EXAMPLE_POOL := PoolSnapshot("s", 1, "p", 10.0, 0.0, 10)
  const EXAMPLE_OPEN := NtOpenOrder(ReservationRequest("a", "p", "g", 6.0, 1, "e"))
  const EXAMPLE_CARRY := RetainedLifecycle(LiveReservation("b", "p", "g", 6.0, 1))

  lemma ExampleIsValid()
    ensures EvidenceValid(EXAMPLE_POOL, EXAMPLE_OPEN, 1) && EvidenceValid(EXAMPLE_POOL, EXAMPLE_CARRY, 1)
    ensures Distinct(RequestIds([EXAMPLE_OPEN, EXAMPLE_CARRY]))
  {
    NamesAreNotBlank();
  }

  lemma ExampleTotals()
    ensures TotalThrough([EXAMPLE_OPEN, EXAMPLE_CARRY], 0, "p") == 6.0
    ensures TotalThrough([EXAMPLE_CARRY, EXAMPLE_OPEN], 1, "p") == 12.0
  {
    var x, y := EntryOf(EXAMPLE_OPEN), EntryOf(EXAMPLE_CARRY);
    assert Entries([EXAMPLE_OPEN, EXAMPLE_CARRY])[..1] == [x];
    assert Entries([EXAMPLE_CARRY, EXAMPLE_OPEN])[..2] == [y, x];
    TwoEntryTotal(y, x);
    assert [x][1..] == [];
  }

  /** With carried reservations in the evidence, order does matter: a carry after the open order is not budgeted. */
  lemma CarriedEvidenceOrderMatters()
    ensures StageAll(EXAMPLE_POOL, [EXAMPLE_OPEN, EXAMPLE_CARRY], 1, None).Staged?
    ensures StageAll(EXAMPLE_POOL, [EXAMPLE_CARRY, EXAMPLE_OPEN], 1, None).Refused?
  {
    ExampleIsValid();
    ExampleTotals();
    StageAllExactly(EXAMPLE_POOL, [EXAMPLE_OPEN, EXAMPLE_CARRY], 1, None);
    StageAllExactly(EXAMPLE_POOL, [EXAMPLE_CARRY, EXAMPLE_OPEN], 1, None);
    assert !OpenOrdersFit(EXAMPLE_POOL, [EXAMPLE_CARRY, EXAMPLE_OPEN], None) by {
      assert [EXAMPLE_CARRY, EXAMPLE_OPEN][1].NtOpenOrder?;
    }
  }

  /**
   All or nothing: a refused rebuild keeps every live reservation and closes the gate; an accepted one
   makes the ledger exactly the evidence in order, all of it in the rebuilt pool, and opens the gate.
   */
  lemma RebuildAllOrNothing(l: Ledger, pool: PoolSnapshot, evidence: seq<Evidence>, nowNs: nat,
                            floor: Option<Decimal>)
    requires ValidLedger(l)
    ensures var (after, d) := RebuildStep(l, pool, evidence, nowNs, floor);
            && ValidLedger(after)
            && (d.accepted ==>
                  && after == Ledger(Entries(evidence), true)
                  && d.rebuiltCount == d.attemptedCount == |evidence|
                  && forall i :: 0 <= i < |after.live| ==> after.live[i].poolId == pool.poolId)
            && (!d.accepted ==>
                  && after == Ledger(l.live, false)
                  && d.rebuiltCount + 1 == d.attemptedCount <= |evidence|
                  && Acceptable(pool, evidence[..d.rebuiltCount], nowNs, floor)
                  && !Acceptable(pool, evidence[..d.attemptedCount], nowNs, floor))
            && (TrueTotal(after.live, pool.poolId) <= MAX ==>
                  d.liveReservedLiability == TrueTotal(after.live, pool.poolId))
            && (TrueTotal(after.live, pool.poolId) > MAX ==> d.liveReservedLiability == MAX)
  {
    StageAllExactly(pool, evidence, nowNs, floor);
    var (after, d) := RebuildStep(l, pool, evidence, nowNs, floor);
    if d.accepted {
      assert forall i :: 0 <= i < |evidence| ==> EvidenceValid(pool, evidence[i], nowNs);
    } else {
      RefusalPoint(pool, evidence, nowNs, floor);
      StageAllExactly(pool, evidence[..d.rebuiltCount], nowNs, floor);
      StageAllExactly(pool, evidence[..d.attemptedCount], nowNs, floor);
    }
  }

  function Carried(live: seq<LiveReservation>): (evidence: seq<Evidence>)
    ensures |evidence| == |live|
  {
    seq(|live|, i requires 0 <= i < |live| => RetainedLifecycle(live[i]))
  }

  predicate AllIdentified(live: seq<LiveReservation>, poolId: string) {
    forall i :: 0 <= i < |live| ==>
      live[i].poolId == poolId && !MissingIdentity(live[i].requestId, live[i].poolId, live[i].groupId)
  }

  /**
   Round trip: looking every live entry of a pool up and rebuilding from the lookups gives the same list back, in
   order, with the gate open, whatever the budget.
   */
  lemma RetainedRebuildRestores(l: Ledger, pool: PoolSnapshot, nowNs: nat, floor: Option<Decimal>)
    requires ValidLedger(l) && AllIdentified(l.live, pool.poolId)
    ensures forall i :: 0 <= i < |l.live| ==>
              RetainedReservation(l, pool.poolId, l.live[i].groupId, l.live[i].requestId) == Ok(l.live[i])
    ensures RebuildStep(l, pool, Carried(l.live), nowNs, floor).0 == Ledger(l.live, true)
  {
    forall i | 0 <= i < |l.live|
      ensures RetainedReservation(l, pool.poolId, l.live[i].groupId, l.live[i].requestId) == Ok(l.live[i])
    {
      RetainedExactly(l, pool.poolId, l.live[i].groupId, l.live[i].requestId, l.live[i]);
    }
    var evidence := Carried(l.live);
    assert Entries(evidence) == l.live;
    assert Distinct(RequestIds(evidence)) by {
      forall i, j | 0 <= i < j < |l.live| ensures RequestIds(evidence)[i] != RequestIds(evidence)[j] {
        assert !HasKey(l.live[j], l.live[i].poolId, l.live[i].requestId);
      }
    }
    assert AllEvidenceValid(pool, evidence, nowNs);
    StageAllExactly(pool, evidence, nowNs, floor);
  }

  /** One more item: a refusal stands, and a new one is of the new item. */
  lemma StageAllSnoc(pool: PoolSnapshot, evidence: seq<Evidence>, nowNs: nat, floor: Option<Decimal>)
    requires evidence != []
    ensures var before := StageAll(pool, evidence[..|evidence| - 1], nowNs, floor);
            var after := StageAll(pool, evidence, nowNs, floor);
            && (before.Refused? ==> after == before)
            && (before.Staged? && after.Refused? ==> after.index == |evidence| - 1)
  {
  }

  /** The reported refusal index is the first prefix that cannot be staged. */
  lemma {:induction false} RefusalPoint(pool: PoolSnapshot, evidence: seq<Evidence>, nowNs: nat,
                                        floor: Option<Decimal>)
    requires StageAll(pool, evidence, nowNs, floor).Refused?
    ensures var i := StageAll(pool, evidence, nowNs, floor).index;
            && StageAll(pool, evidence[..i], nowNs, floor).Staged?
            && StageAll(pool, evidence[..i + 1], nowNs, floor) == StageAll(pool, evidence, nowNs, floor)
  {
    var n := |evidence| - 1;
    var i := StageAll(pool, evidence, nowNs, floor).index;
    StageAllSnoc(pool, evidence, nowNs, floor);
    if StageAll(pool, evidence[..n], nowNs, floor).Refused? {
      RefusalPoint(pool, evidence[..n], nowNs, floor);
      assert evidence[..n][..i] == evidence[..i] && evidence[..n][..i + 1] == evidence[..i + 1];
    } else {
      assert evidence[..i + 1] == evidence;
    }
  }

  /** Once a prefix is refused, so is every extension, at the same place for the same reason. */
  lemma {:induction false} RefusalPersists(pool: PoolSnapshot, evidence: seq<Evidence>, k: nat, nowNs: nat,
                                           floor: Option<Decimal>)
    requires k <= |evidence|
    requires StageAll(pool, evidence[..k], nowNs, floor).Refused?
    ensures StageAll(pool, evidence, nowNs, floor) == StageAll(pool, evidence[..k], nowNs, floor)
  {
    if k == |evidence| {
      assert evidence[..k] == evidence;
    } else {
      var n := |evidence| - 1;
      assert evidence[..n][..k] == evidence[..k];
      RefusalPersists(pool, evidence[..n], k, nowNs, floor);
    }
  }

  // ---------- Worst-case liability ----------

  datatype Side = Buy | Sell

  datatype Liquidity = Taker | RestingMaker

  datatype AdmissionRequest = AdmissionRequest(
    intentId: string,
    instrumentId: string,
    poolId: string,
    side: Side,
    quantity: Decimal,
    limitPrice: Decimal,
    liquidity: Liquidity,
    quoteSetId: Option<string>,
    nowNs: nat)

  datatype FeeSlippagePolicy = FeeSlippagePolicy(maxFeeLiability: Decimal, maxSlippageLiability: Decimal)

  datatype AdmissionPolicy = AdmissionPolicy(
    minRemainingPoolBalance: Option<Decimal>,
    feeSlippagePolicy: Option<FeeSlippagePolicy>)

  datatype ProductSnapshot = ProductSnapshot(
    source: string,
    yesInstrumentId: string,
    noInstrumentId: string,
    yesPosition: Decimal,
    noPosition: Decimal,
    collateralAllowance: Decimal,
    groupId: string)

  datatype LiabilityError =
    | MissingFeePolicy
    | MissingSlippagePolicy
    | InvalidIntentPrice
    | InvalidIntentQuantity
    | MissingQuoteSetId
    | InsufficientAllowance
    | InsufficientInventory
    | ArithmeticOverflow

  function ValidateIntent(request: AdmissionRequest): Option<LiabilityError> {
    if request.quantity <= 0.0 then Some(InvalidIntentQuantity)
    else if request.limitPrice < 0.0 || request.limitPrice > 1.0 then Some(InvalidIntentPrice)
    else if request.liquidity == RestingMaker && (request.quoteSetId.None? || request.quoteSetId.value == "") then
      Some(MissingQuoteSetId)
    else None
  }

  function ValidateFees(policy: AdmissionPolicy): Result<FeeSlippagePolicy, LiabilityError> {
    match policy.feeSlippagePolicy
    case None => Err(MissingFeePolicy)
    case Some(fees) =>
      if fees.maxFeeLiability < 0.0 then Err(MissingFeePolicy)
      else if fees.maxSlippageLiability < 0.0 then Err(MissingSlippagePolicy)
      else Ok(fees)
  }

  function OutcomePosition(request: AdmissionRequest, snapshot: ProductSnapshot): Option<Decimal> {
    if request.instrumentId == snapshot.yesInstrumentId then Some(snapshot.yesPosition)
    else if request.instrumentId == snapshot.noInstrumentId then Some(snapshot.noPosition)
    else None
  }

  /** From the notional to the liability: both allowances added, then the backing checked. */
  function AddAllowances(request: AdmissionRequest, snapshot: ProductSnapshot, fees: FeeSlippagePolicy, notional: Decimal)
    : Result<Decimal, LiabilityError>
  {
    var withFee := CheckedAdd(notional, fees.maxFeeLiability);
    if withFee.None? then Err(ArithmeticOverflow)
    else
      var liability := CheckedAdd(withFee.value, fees.maxSlippageLiability);
      if liability.None? then Err(ArithmeticOverflow)
      else
        match request.side
        case Buy =>
          if snapshot.collateralAllowance < liability.value then Err(InsufficientAllowance)
          else Ok(liability.value)
        case Sell =>
          var position := OutcomePosition(request, snapshot);
          if position.None? || position.value < request.quantity then Err(InsufficientInventory)
          else Ok(liability.value)
  }

  function CheckedNotional(request: AdmissionRequest): Option<Decimal> {
    if request.side.Buy? then CheckedMul(request.quantity, request.limitPrice) else Some(0.0)
  }

  /** The liability to reserve for an intent: notional for a buy, plus the fee and slippage allowances. */
  function WorstCaseLiability(request: AdmissionRequest, snapshot: ProductSnapshot, policy: AdmissionPolicy)
    : Result<Decimal, LiabilityError>
  {
    var invalid := ValidateIntent(request);
    if invalid.Some? then Err(invalid.value)
    else
      match ValidateFees(policy)
      case Err(e) => Err(e)
      case Ok(fees) =>
        var notional := CheckedNotional(request);
        if notional.None? then Err(ArithmeticOverflow) else AddAllowances(request, snapshot, fees, notional.value)
  }

  /** A quoted buy covers every fill within its size and limit, fees and slippage included, and fits the allowance. */
  lemma BuyLiabilityIsWorstCase(request: AdmissionRequest, snapshot: ProductSnapshot, policy: AdmissionPolicy,
                                filled: real, price: real, fee: real, slippage: real)
    requires request.side.Buy?
    requires WorstCaseLiability(request, snapshot, policy).Ok?
    requires 0.0 <= filled <= request.quantity && 0.0 <= price <= request.limitPrice
    requires policy.feeSlippagePolicy.Some?
    requires fee <= policy.feeSlippagePolicy.value.maxFeeLiability
    requires slippage <= policy.feeSlippagePolicy.value.maxSlippageLiability
    ensures filled * price + fee + slippage
         <= WorstCaseLiability(request, snapshot, policy).value
         <= snapshot.collateralAllowance
  {
    var fees := policy.feeSlippagePolicy.value;
    ProductBound(filled, price, request.quantity, request.limitPrice);
    assert WorstCaseLiability(request, snapshot, policy).value
        == request.quantity * request.limitPrice + fees.maxFeeLiability + fees.maxSlippageLiability;
  }

  // ---------- Admission of one intent ----------

  /** Foreign verdicts enter as data: the state validator's error and the loss governor's decision. */
  datatype NtState = NtState(validationError: Option<string>, product: ProductSnapshot)

  datatype LossDecision = LossDecision(accepted: bool, haltReasons: seq<string>)

  datatype AdmissionReason =
    | LossHalt(halt: string)
    | ReservationRefused(refusal: Reason)
    | LiabilityRefused(liabilityError: LiabilityError)
    | InvariantBroken(invariantError: Invariant)
    | MissingNtState
    | InvalidNtState(stateError: string)

  datatype AdmissionDecision = AdmissionDecision(
    accepted: bool,
    acceptedQuantity: Option<Decimal>,
    reservedLiability: Option<Decimal>,
    reasons: seq<AdmissionReason>)

  datatype Inputs = Inputs(
    request: AdmissionRequest,
    state: Option<NtState>,
    policy: AdmissionPolicy,
    loss: Option<LossDecision>,
    pool: PoolSnapshot)

  function RejectedAdmission(reasons: seq<AdmissionReason>): AdmissionDecision {
    AdmissionDecision(false, None, None, reasons)
  }

  function HaltReasons(halts: seq<string>): seq<AdmissionReason> {
    seq(|halts|, i requires 0 <= i < |halts| => LossHalt(halts[i]))
  }

  /** Everything decided before the ledger is asked: the refusal, or the reservation request to make. */
  function Prepare(inputs: Inputs): Result<ReservationRequest, seq<AdmissionReason>> {
    var request := inputs.request;
    if inputs.pool.poolId != request.poolId then Err([ReservationRefused(PoolMismatch)])
    else if inputs.state.None? then Err([MissingNtState])
    else if inputs.state.value.validationError.Some? then
      Err([InvalidNtState(inputs.state.value.validationError.value)])
    else if inputs.loss.Some? && !inputs.loss.value.accepted then Err(HaltReasons(inputs.loss.value.haltReasons))
    else
      var product := inputs.state.value.product;
      match WorstCaseLiability(request, product, inputs.policy)
      case Err(e) => Err([LiabilityRefused(e)])
      case Ok(liability) =>
        Ok(ReservationRequest(request.intentId, request.poolId, product.groupId, liability, request.nowNs,
                              product.source))
  }

  function EvaluateStep(l: Ledger, inputs: Inputs): (Ledger, AdmissionDecision)
    requires ValidLedger(l)
  {
    match Prepare(inputs)
    case Err(reasons) => (l, RejectedAdmission(reasons))
    case Ok(reservation) =>
      var (after, d) := ReserveStep(l, inputs.pool, reservation, inputs.request.nowNs,
                                    inputs.policy.minRemainingPoolBalance);
      if d.accepted then
        (after, AdmissionDecision(true, Some(inputs.request.quantity), Some(reservation.liability), []))
      else
        (after, AdmissionDecision(false, None, Some(reservation.liability), [ReservationRefused(d.reason.value)]))
  }

  /**
   An accepted admission adds exactly one entry, for the intent, at the reported liability, inside the
   pool's budget; a rejected one changes nothing and gives a reason; a broken invariant is never reported.
   */
  lemma AdmissionAddsExactlyOne(l: Ledger, inputs: Inputs)
    requires ValidLedger(l)
    ensures var (after, d) := EvaluateStep(l, inputs);
            && ValidLedger(after)
            && (d.accepted ==>
                  && l.reconciled
                  && |after.live| == |l.live| + 1
                  && after.live[..|l.live|] == l.live
                  && HasKey(after.live[|l.live|], inputs.pool.poolId, inputs.request.intentId)
                  && d.reservedLiability == Some(after.live[|l.live|].liability)
                  && !Contains(l.live, inputs.pool.poolId, inputs.request.intentId)
                  && FitsBudget(inputs.pool, TrueTotal(after.live, inputs.pool.poolId),
                                inputs.policy.minRemainingPoolBalance))
            && (!d.accepted ==> after == l)
            && forall i :: 0 <= i < |d.reasons| ==> !d.reasons[i].InvariantBroken?
  {
    if Prepare(inputs).Ok? {
      var reservation := Prepare(inputs).value;
      var floor := inputs.policy.minRemainingPoolBalance;
      StepFaithful(l, Reserve(inputs.pool, reservation, inputs.request.nowNs, floor));
      ReserveAcceptsExactly(l, inputs.pool, reservation, inputs.request.nowNs, floor);
      ReserveKeepsBudget(l, inputs.pool, reservation, inputs.request.nowNs, floor);
      var after := ReserveStep(l, inputs.pool, reservation, inputs.request.nowNs, floor).0;
      if after != l {
        assert after.live[..|l.live|] == l.live;
      }
    }
  }

  /** What an accepted intent was backed by: a buy by allowance, a sell by inventory and positive fee allowances. */
  lemma AdmittedIntentIsBacked(l: Ledger, inputs: Inputs)
    requires ValidLedger(l)
    requires EvaluateStep(l, inputs).1.accepted
    ensures inputs.state.Some?
    ensures EvaluateStep(l, inputs).1.reservedLiability.Some?
    ensures var liability := EvaluateStep(l, inputs).1.reservedLiability.value;
            && 0.0 < liability
            && (inputs.request.side.Buy? ==> liability <= inputs.state.value.product.collateralAllowance)
            && (inputs.request.side.Sell? ==>
                  var product := inputs.state.value.product;
                  if inputs.request.instrumentId == product.yesInstrumentId then
                    inputs.request.quantity <= product.yesPosition
                  else
                    inputs.request.instrumentId == product.noInstrumentId
                    && inputs.request.quantity <= product.noPosition)
  {
    var reservation := Prepare(inputs).value;
    ReserveAcceptsExactly(l, inputs.pool, reservation, inputs.request.nowNs, inputs.policy.minRemainingPoolBalance);
  }

  /** An intent that costs nothing to back: no fee or slippage allowance, and no notional. */
  predicate IsFree(request: AdmissionRequest, fees: FeeSlippagePolicy) {
    && fees.maxFeeLiability == 0.0
    && fees.maxSlippageLiability == 0.0
    && (request.side.Sell? || request.limitPrice == 0.0)
  }

  /** A quoted liability is positive exactly when the intent is not free. */
  lemma LiabilityPositiveExactly(request: AdmissionRequest, snapshot: ProductSnapshot, policy: AdmissionPolicy)
    requires WorstCaseLiability(request, snapshot, policy).Ok?
    ensures policy.feeSlippagePolicy.Some?
    ensures WorstCaseLiability(request, snapshot, policy).value >= 0.0
    ensures WorstCaseLiability(request, snapshot, policy).value > 0.0
       <==> !IsFree(request, policy.feeSlippagePolicy.value)
  {
    ProductSign(request.quantity, request.limitPrice);
    ProductZero(request.quantity, request.limitPrice);
    var fees := policy.feeSlippagePolicy.value;
    assert WorstCaseLiability(request, snapshot, policy).value
        == (if request.side.Buy? then request.quantity * request.limitPrice else 0.0)
           + fees.maxFeeLiability + fees.maxSlippageLiability;
  }

  /** Every free intent that is otherwise in order is quoted at a liability of zero. */
  lemma FreeIntentIsQuotedAtZero(request: AdmissionRequest, snapshot: ProductSnapshot, policy: AdmissionPolicy)
    requires policy.feeSlippagePolicy.Some? && IsFree(request, policy.feeSlippagePolicy.value)
    requires ValidateIntent(request).None?
    requires request.side.Buy? ==> snapshot.collateralAllowance >= 0.0
    requires request.side.Sell? ==>
               var position := OutcomePosition(request, snapshot); position.Some? && position.value >= request.quantity
    ensures WorstCaseLiability(request, snapshot, policy) == Ok(0.0)
  {
    if request.side.Buy? {
      ProductZero(request.quantity, request.limitPrice);
    }
  }

  const FREE_POLICY := AdmissionPolicy(None, Some(FeeSlippagePolicy(0.0, 0.0)))
  const EXAMPLE_PRODUCT := ProductSnapshot("s", "y", "n", 1.0, 0.0, 0.0, "g")

  /** A sell at a price of one and a buy at a price of zero, both quoted at zero. */
  lemma FreeIntentExamples()
    ensures WorstCaseLiability(AdmissionRequest("i", "y", "p", Sell, 1.0, 1.0, Taker, None, 1), EXAMPLE_PRODUCT, FREE_POLICY)
         == Ok(0.0)
    ensures WorstCaseLiability(AdmissionRequest("i", "y", "p", Buy, 1.0, 0.0, Taker, None, 1), EXAMPLE_PRODUCT, FREE_POLICY)
         == Ok(0.0)
  {
    FreeIntentIsQuotedAtZero(AdmissionRequest("i", "y", "p", Sell, 1.0, 1.0, Taker, None, 1), EXAMPLE_PRODUCT, FREE_POLICY);
    FreeIntentIsQuotedAtZero(AdmissionRequest("i", "y", "p", Buy, 1.0, 0.0, Taker, None, 1), EXAMPLE_PRODUCT, FREE_POLICY);
  }

  /** Everything an admission needs of the ledger, for a request of this liability. */
  predicate LedgerAdmits(l: Ledger, inputs: Inputs, reservation: ReservationRequest) {
    && Admissible(l, inputs.pool, reservation, inputs.request.nowNs)
    && FitsBudget(inputs.pool, TrueTotal(l.live, inputs.pool.poolId) + reservation.liability,
                  inputs.policy.minRemainingPoolBalance)
  }

  /** Acceptance in exact terms: preparation succeeds, every guard passes and the true total leaves the headroom. */
  lemma AdmissionAcceptsExactly(l: Ledger, inputs: Inputs)
    requires ValidLedger(l)
    ensures EvaluateStep(l, inputs).1.accepted
       <==> Prepare(inputs).Ok? && LedgerAdmits(l, inputs, Prepare(inputs).value)
  {
    if Prepare(inputs).Ok? {
      ReserveAcceptsExactly(l, inputs.pool, Prepare(inputs).value, inputs.request.nowNs,
                            inputs.policy.minRemainingPoolBalance);
    }
  }

  /** A free intent is never admitted, whatever the ledger: its liability is zero, which no ledger reserves. */
  lemma FreeIntentIsNeverAdmitted(l: Ledger, inputs: Inputs)
    requires ValidLedger(l)
    requires inputs.policy.feeSlippagePolicy.Some? && IsFree(inputs.request, inputs.policy.feeSlippagePolicy.value)
    ensures !EvaluateStep(l, inputs).1.accepted
  {
    AdmissionAcceptsExactly(l, inputs);
    if Prepare(inputs).Ok? {
      LiabilityPositiveExactly(inputs.request, inputs.state.value.product, inputs.policy);
    }
  }

  // ---------- Runs of the gate ----------

  datatype GateOp =
    | Rebuild(pool: PoolSnapshot, evidence: seq<Evidence>, nowNs: nat, floor: Option<Decimal>)
    | InvalidateGate
    | RemoveLive(poolId: string, groupId: string, requestId: string)
    | Evaluate(inputs: Inputs)
    | RollbackLive(poolId: string, requestId: string)

  function GateStep(l: Ledger, op: GateOp): Ledger
    requires ValidLedger(l)
  {
    match op
    case Rebuild(pool, evidence, nowNs, floor) => RebuildStep(l, pool, evidence, nowNs, floor).0
    case InvalidateGate => l.(reconciled := false)
    case RemoveLive(poolId, groupId, requestId) => Step(l, RemoveExisting(poolId, groupId, requestId)).0
    case Evaluate(inputs) => EvaluateStep(l, inputs).0
    case RollbackLive(poolId, requestId) => Step(l, Rollback(poolId, requestId)).0
  }

  lemma GateStepKeepsValid(l: Ledger, op: GateOp)
    requires ValidLedger(l)
    ensures ValidLedger(GateStep(l, op))
  {
    match op {
      case Rebuild(pool, evidence, nowNs, floor) => RebuildAllOrNothing(l, pool, evidence, nowNs, floor);
      case InvalidateGate =>
      case RemoveLive(poolId, groupId, requestId) => StepFaithful(l, RemoveExisting(poolId, groupId, requestId));
      case Evaluate(inputs) => AdmissionAddsExactlyOne(l, inputs);
      case RollbackLive(poolId, requestId) => StepFaithful(l, Rollback(poolId, requestId));
    }
  }

  function GateRun(l: Ledger, ops: seq<GateOp>): (r: Ledger)
    requires ValidLedger(l)
    ensures ValidLedger(r)
    decreases |ops|
  {
    if ops == [] then l
    else
      GateStepKeepsValid(l, ops[0]);
      GateRun(GateStep(l, ops[0]), ops[1..])
  }

  predicate RebuildAccepted(op: GateOp) {
    op.Rebuild? && StageAll(op.pool, op.evidence, op.nowNs, op.floor).Staged?
  }

  lemma RemovalShrinks(l: Ledger, i: nat)
    requires i < |l.live|
    ensures multiset(Without(l.live, i)) <= multiset(l.live)
  {
    assert l.live == l.live[..i] + [l.live[i]] + l.live[i + 1..];
  }

  /** Nothing was added to the live list and no pool's total rose. */
  ghost predicate OnlyRemoves(l: Ledger, after: Ledger) {
    && multiset(after.live) <= multiset(l.live)
    && forall p :: TrueTotal(after.live, p) <= TrueTotal(l.live, p)
  }

  lemma RemoveAtOnlyRemoves(l: Ledger, i: nat)
    requires ValidLedger(l) && i < |l.live|
    ensures OnlyRemoves(l, l.(live := Without(l.live, i)))
  {
    RemoveKeepsValid(l, i);
    RemovalShrinks(l, i);
    assert forall p :: Contribution(l.live[i], p) >= 0.0;
  }

  lemma RemovalOnlyRemoves(l: Ledger, op: Op)
    requires ValidLedger(l) && (op.Rollback? || op.RemoveExisting?)
    ensures Step(l, op).0.reconciled == l.reconciled
    ensures OnlyRemoves(l, Step(l, op).0)
  {
    var i := Position(l.live, op.poolId, op.requestId);
    if i < |l.live| {
      RemoveAtOnlyRemoves(l, i);
    }
    assert Step(l, op).0 == l || (i < |l.live| && Step(l, op).0 == l.(live := Without(l.live, i)));
  }

  lemma ClosedStep(l: Ledger, op: GateOp)
    requires ValidLedger(l) && !l.reconciled && !RebuildAccepted(op)
    ensures !GateStep(l, op).reconciled
    ensures OnlyRemoves(l, GateStep(l, op))
  {
    match op {
      case Rebuild(_, _, _, _) =>
      case InvalidateGate =>
      case RemoveLive(poolId, groupId, requestId) => RemovalOnlyRemoves(l, RemoveExisting(poolId, groupId, requestId));
      case Evaluate(inputs) => AdmissionAddsExactlyOne(l, inputs);
      case RollbackLive(poolId, requestId) => RemovalOnlyRemoves(l, Rollback(poolId, requestId));
    }
  }

  /**
   While the gate is closed, no run of gate operations without an accepted rebuild reopens it, adds or
   changes a live reservation, or raises any pool's live liability.
   */
  lemma {:induction false} ClosedGateNeverRaisesLiability(l: Ledger, ops: seq<GateOp>)
    requires ValidLedger(l) && !l.reconciled
    requires forall i :: 0 <= i < |ops| ==> !RebuildAccepted(ops[i])
    ensures !GateRun(l, ops).reconciled
    ensures OnlyRemoves(l, GateRun(l, ops))
    decreases |ops|
  {
    if ops != [] {
      ClosedStep(l, ops[0]);
      GateStepKeepsValid(l, ops[0]);
      ClosedGateNeverRaisesLiability(GateStep(l, ops[0]), ops[1..]);
    }
  }

  // ---------- The mutable gate ----------

  /** Offer one piece of evidence to a ledger being rebuilt: the reason it is refused, or none and it is staged. */
  method StageInto(rebuilt: ReservationLedger, pool: PoolSnapshot, e: Evidence, nowNs: nat, floor: Option<Decimal>)
    returns (refusal: Option<Reason>)
    requires rebuilt.Valid()
    modifies rebuilt
    ensures rebuilt.Valid()
    ensures StageOne(old(rebuilt.State()), pool, e, nowNs, floor)
         == match refusal case None => Ok(rebuilt.State()) case Some(reason) => Err(reason)
  {
    refusal := None;
    match e {
      case NtOpenOrder(request) =>
        if pool.poolId != request.poolId {
          return Some(PoolMismatch);
        }
        ReserveDecisionsAreWellFormed(rebuilt.State(), pool, request, nowNs, floor);
        var decision := rebuilt.Reserve(pool, request, nowNs, floor);
        match ValidateReservationDecision(decision) {
          case Ok(Accepted) =>
          case Ok(Rejected(reason)) => refusal := Some(reason);
          case Err(_) => assert false;
        }
      case RetainedLifecycle(retained) =>
        var carried := rebuilt.CarryRetained(pool.poolId, retained);
        if carried.Err? {
          refusal := Some(carried.error);
        }
    }
  }

  /** One more item on a staged list is staged or refused as that item alone is. */
  lemma StageAllStep(pool: PoolSnapshot, evidence: seq<Evidence>, nowNs: nat, floor: Option<Decimal>)
    requires evidence != [] && StageAll(pool, evidence[..|evidence| - 1], nowNs, floor).Staged?
    ensures var n := |evidence| - 1;
            var l := StageAll(pool, evidence[..n], nowNs, floor).ledger;
            StageAll(pool, evidence, nowNs, floor)
            == match StageOne(l, pool, evidence[n], nowNs, floor)
               case Err(reason) => Refused(n, reason)
               case Ok(after) => Staged(after)
  {
  }

  class CapitalAdmissionGate {
    var reservationLedger: ReservationLedger

    ghost function State(): Ledger
      reads this, reservationLedger
    {
      reservationLedger.State()
    }

    ghost predicate Valid()
      reads this, reservationLedger
    {
      reservationLedger.Valid()
    }

    constructor Unreconciled()
      ensures Valid() && fresh(reservationLedger) && State() == Ledger([], false)
    {
      reservationLedger := new ReservationLedger.Unreconciled();
    }

    method InvalidateReconciliation()
      requires Valid()
      modifies reservationLedger
      ensures Valid() && State() == old(State()).(reconciled := false)
    {
      reservationLedger.InvalidateReconciliation();
    }

    /** Rebuild off to the side; only a fully accepted candidate replaces the live ledger. */
    method RebuildOpenOrderReservations(pool: PoolSnapshot, evidence: seq<Evidence>, nowNs: nat,
                                        floor: Option<Decimal>)
      returns (outcome: Result<RebuildDecision, Invariant>)
      requires Valid()
      modifies this, reservationLedger
      ensures Valid()
      ensures reservationLedger == old(reservationLedger) || fresh(reservationLedger)
      ensures outcome.Ok?
      ensures (State(), outcome.value) == RebuildStep(old(State()), pool, evidence, nowNs, floor)
    {
      var rebuilt := new ReservationLedger.Reconciled();
      for index := 0 to |evidence|
        invariant fresh(rebuilt) && rebuilt.Valid()
        invariant Valid() && reservationLedger == old(reservationLedger) && State() == old(State())
        invariant StageAll(pool, evidence[..index], nowNs, floor) == Staged(rebuilt.State())
      {
        assert evidence[..index + 1][..index] == evidence[..index];
        var candidate := StageInto(rebuilt, pool, evidence[index], nowNs, floor);
        StageAllStep(pool, evidence[..index + 1], nowNs, floor);
        if candidate.Some? {
          RefusalPersists(pool, evidence, index + 1, nowNs, floor);
          InvalidateReconciliation();
          var live := reservationLedger.LiveReservedLiability(pool.poolId);
          return Ok(RebuildDecision(false, candidate, index + 1, index, live));
        }
      }
      assert evidence[..|evidence|] == evidence;
      reservationLedger := rebuilt;
      var live := reservationLedger.LiveReservedLiability(pool.poolId);
      return Ok(RebuildDecision(true, None, |evidence|, |evidence|, live));
    }

    method EvaluateAndReserve(inputs: Inputs) returns (decision: AdmissionDecision)
      requires Valid()
      modifies reservationLedger
      ensures Valid()
      ensures (State(), decision) == EvaluateStep(old(State()), inputs)
    {
      var request := inputs.request;
      if inputs.pool.poolId != request.poolId {
        return RejectedAdmission([ReservationRefused(PoolMismatch)]);
      }
      if inputs.state.None? {
        return RejectedAdmission([MissingNtState]);
      }
      var state := inputs.state.value;
      if state.validationError.Some? {
        return RejectedAdmission([InvalidNtState(state.validationError.value)]);
      }
      if inputs.loss.Some? && !inputs.loss.value.accepted {
        return RejectedAdmission(HaltReasons(inputs.loss.value.haltReasons));
      }
      var liability := WorstCaseLiability(request, state.product, inputs.policy);
      if liability.Err? {
        return RejectedAdmission([LiabilityRefused(liability.error)]);
      }
      var reservation := ReservationRequest(request.intentId, request.poolId, state.product.groupId,
                                            liability.value, request.nowNs, state.product.source);
      var floor := inputs.policy.minRemainingPoolBalance;
      ReserveDecisionsAreWellFormed(reservationLedger.State(), inputs.pool, reservation, request.nowNs, floor);
      var d := reservationLedger.Reserve(inputs.pool, reservation, request.nowNs, floor);
      decision := AdmissionDecision(true, Some(request.quantity), Some(liability.value), []);
      match ValidateReservationDecision(d) {
        case Ok(Accepted) =>
        case Ok(Rejected(reason)) =>
          decision := AdmissionDecision(false, None, Some(liability.value), [ReservationRefused(reason)]);
        case Err(_) =>
          // The source rolls the reservation back here; well-formed decisions never reach it.
          assert false;
      }
    }

    /** Look up an entry of the live ledger to carry into a rebuild. */
    method Retained(poolId: string, groupId: string, requestId: string) returns (r: Result<LiveReservation, Reason>)
      requires Valid()
      ensures r == RetainedReservation(State(), poolId, groupId, requestId)
    {
      r := reservationLedger.Retained(poolId, groupId, requestId);
    }

    method RemoveExisting(poolId: string, groupId: string, requestId: string) returns (decision: ReleaseDecision)
      requires Valid()
      modifies reservationLedger
      ensures Valid()
      ensures (State(), decision) == RemoveExistingStep(old(State()), poolId, groupId, requestId)
    {
      decision := reservationLedger.RemoveExisting(poolId, groupId, requestId);
    }

    method RollbackUncommittedReservation(poolId: string, requestId: string) returns (removed: Option<Decimal>)
      requires Valid()
      modifies reservationLedger
      ensures Valid()
      ensures (State(), removed) == RollbackStep(old(State()), poolId, requestId)
    {
      removed := reservationLedger.RollbackUncommitted(poolId, requestId);
    }
  }
}
