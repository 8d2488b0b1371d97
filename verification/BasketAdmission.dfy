/**
 Basket admission: the match of submit claims to scanned legs, and the table of open baskets under
 interleaved admissions, permit drops and releases (src/bolt_v3_basket_admission.rs).
 */
module BasketAdmission {
  import opened Common
  import opened Decimals

  datatype AdmissionError =
    | BasketNotionalCapExceeded
    | MaxOpenBasketCapExceeded
    | NonPositiveCandidateCost
    | SubmitClaimsMismatch
    | BasketAlreadyOpen
    | BasketReservationMissing
    | StuckReservationHeld

  // ---------- Claims against scanned legs ----------

  datatype LegCost = LegCost(instrumentId: string, cost: Decimal)

  datatype Claim = Claim(instrumentId: string, notional: Decimal)

  function LegIds(legs: seq<LegCost>): (ids: seq<string>)
    ensures |ids| == |legs| && forall i :: 0 <= i < |ids| ==> ids[i] == legs[i].instrumentId
  {
    seq(|legs|, i requires 0 <= i < |legs| => legs[i].instrumentId)
  }

  function ClaimIds(claims: seq<Claim>): (ids: seq<string>)
    ensures |ids| == |claims| && forall i :: 0 <= i < |ids| ==> ids[i] == claims[i].instrumentId
  {
    seq(|claims|, i requires 0 <= i < |claims| => claims[i].instrumentId)
  }

  function TotalClaimed(claims: seq<Claim>): real {
    if claims == [] then 0.0 else TotalClaimed(claims[..|claims| - 1]) + claims[|claims| - 1].notional
  }

  /** The claim is positive and at most the cost of a leg with its instrument. */
  predicate Covered(claim: Claim, legs: seq<LegCost>) {
    && claim.notional > 0.0
    && exists j :: 0 <= j < |legs| && legs[j].instrumentId == claim.instrumentId && claim.notional <= legs[j].cost
  }

  predicate LegsUsable(tradable: set<string>, legs: seq<LegCost>) {
    Distinct(LegIds(legs)) && forall j :: 0 <= j < |legs| ==> legs[j].instrumentId in tradable
  }

  /** Claims pair off with the scanned legs one to one, each within its leg, all within the cap. */
  predicate ClaimsMatch(tradable: set<string>, legs: seq<LegCost>, claims: seq<Claim>, maxNotional: Decimal) {
    && |claims| == |legs|
    && LegsUsable(tradable, legs)
    && Distinct(ClaimIds(claims))
    && (forall i :: 0 <= i < |claims| ==> Covered(claims[i], legs))
    && TotalClaimed(claims) <= maxNotional
  }

  /** Matching claims and legs are a bijection: the same instruments, each exactly once on both sides. */
  lemma MatchIsBijection(tradable: set<string>, legs: seq<LegCost>, claims: seq<Claim>, maxNotional: Decimal)
    requires ClaimsMatch(tradable, legs, claims, maxNotional)
    ensures (set id | id in ClaimIds(claims)) == (set id | id in LegIds(legs))
  {
    var c, l := (set id | id in ClaimIds(claims)), (set id | id in LegIds(legs));
    DistinctByCount(ClaimIds(claims));
    DistinctByCount(LegIds(legs));
    assert c <= l by {
      forall i | 0 <= i < |claims| ensures ClaimIds(claims)[i] in LegIds(legs) {
        assert Covered(claims[i], legs);
        var j :| 0 <= j < |legs| && legs[j].instrumentId == claims[i].instrumentId;
        assert LegIds(legs)[j] == ClaimIds(claims)[i];
      }
    }
    SubsetOfSameSize(c, l);
  }

  lemma SubsetOfSameSize(a: set<string>, b: set<string>)
    requires a <= b && |a| == |b|
    ensures a == b
  {
    assert |b - a| == |b| - |a|;
  }

  /** The scanned legs by instrument, or nothing when a leg is untradable or repeats an instrument. */
  method IndexLegs(tradable: set<string>, legs: seq<LegCost>) returns (r: Option<map<string, Decimal>>)
    ensures r.Some? <==> LegsUsable(tradable, legs)
    ensures r.Some? ==>
              && r.value.Keys == (set id | id in LegIds(legs))
              && forall j :: 0 <= j < |legs| ==> r.value[legs[j].instrumentId] == legs[j].cost
  {
    var byInstrument: map<string, Decimal> := map[];
    for i := 0 to |legs|
      invariant forall j :: 0 <= j < i ==> legs[j].instrumentId in tradable
      invariant forall j, k :: 0 <= j < k < i ==> legs[j].instrumentId != legs[k].instrumentId
      invariant forall id :: id in byInstrument ==> exists j :: 0 <= j < i && legs[j].instrumentId == id
      invariant forall j :: 0 <= j < i ==>
                  legs[j].instrumentId in byInstrument && byInstrument[legs[j].instrumentId] == legs[j].cost
    {
      if legs[i].instrumentId !in tradable {
        return None;
      }
      if legs[i].instrumentId in byInstrument {
        var j :| 0 <= j < i && legs[j].instrumentId == legs[i].instrumentId;
        assert LegIds(legs)[j] == LegIds(legs)[i];
        return None;
      }
      byInstrument := byInstrument[legs[i].instrumentId := legs[i].cost];
    }
    assert forall id :: id in byInstrument ==> id in LegIds(legs) by {
      forall id | id in byInstrument ensures id in LegIds(legs) {
        var j :| 0 <= j < |legs| && legs[j].instrumentId == id;
        assert LegIds(legs)[j] == id;
      }
    }
    return Some(byInstrument);
  }

  /** How the first `i` claims were taken out of the index. */
  ghost predicate Consumed(index: map<string, Decimal>, left: map<string, Decimal>, claims: seq<Claim>, i: nat) {
    && i <= |claims|
    && left.Keys == index.Keys - (set id | id in ClaimIds(claims[..i]))
    && (forall id :: id in left ==> left[id] == index[id])
    && (forall k :: 0 <= k < i ==>
          claims[k].instrumentId in index && 0.0 < claims[k].notional <= index[claims[k].instrumentId])
    && (forall k, m :: 0 <= k < m < i ==> claims[k].instrumentId != claims[m].instrumentId)
  }

  lemma {:induction false} ClaimedGrows(claims: seq<Claim>, i: nat)
    requires i <= |claims| && forall k :: i <= k < |claims| ==> claims[k].notional > 0.0
    ensures TotalClaimed(claims[..i]) <= TotalClaimed(claims)
    decreases |claims| - i
  {
    if i < |claims| {
      ClaimedGrows(claims, i + 1);
      assert claims[..i + 1][..i] == claims[..i];
    } else {
      assert claims[..i] == claims;
    }
  }

  /** Take one claim out of the index. */
  lemma ConsumeOne(index: map<string, Decimal>, left: map<string, Decimal>, claims: seq<Claim>, i: nat)
    requires Consumed(index, left, claims, i) && i < |claims|
    requires claims[i].instrumentId in left && 0.0 < claims[i].notional <= left[claims[i].instrumentId]
    ensures Consumed(index, left - {claims[i].instrumentId}, claims, i + 1)
  {
    var ids, next := ClaimIds(claims[..i]), ClaimIds(claims[..i + 1]);
    assert next == ids + [claims[i].instrumentId];
    assert forall k :: 0 <= k < i ==> ids[k] == claims[k].instrumentId;
    assert (left - {claims[i].instrumentId}).Keys == index.Keys - (set id | id in next);
    forall k | 0 <= k < i ensures claims[k].instrumentId != claims[i].instrumentId {
      assert ids[k] in ids;
    }
  }

  /**
   Validate claims by consuming the leg index claim by claim. Accepted exactly when claims and legs pair off
   one to one, every claim is positive and within its leg, and the total is within the cap.
   */
  method ValidateSubmitClaims(tradable: set<string>, legs: seq<LegCost>, claims: seq<Claim>, maxNotional: Decimal)
    returns (error: Option<AdmissionError>)
    ensures error.None? <==> ClaimsMatch(tradable, legs, claims, maxNotional)
    ensures error.Some? ==> error.value == SubmitClaimsMismatch || error.value == BasketNotionalCapExceeded
  {
    if |claims| != |legs| {
      return Some(SubmitClaimsMismatch);
    }
    var indexed := IndexLegs(tradable, legs);
    if indexed.None? {
      return Some(SubmitClaimsMismatch);
    }
    var index := indexed.value;
    var left, total: Decimal := index, 0.0;
    assert Consumed(index, left, claims, 0) by {
      assert ClaimIds(claims[..0]) == [];
    }
    for i := 0 to |claims|
      invariant Consumed(index, left, claims, i)
      invariant total == TotalClaimed(claims[..i])
    {
      var claim := claims[i];
      if claim.instrumentId !in left || claim.notional <= 0.0 || claim.notional > left[claim.instrumentId] {
        BadClaim(tradable, legs, claims, maxNotional, index, left, i);
        return Some(SubmitClaimsMismatch);
      }
      assert claims[..i + 1][..i] == claims[..i];
      var next := CheckedAdd(total, claim.notional);
      if next.None? {
        OverflowExceedsCap(tradable, legs, claims, maxNotional, i, total);
        return Some(BasketNotionalCapExceeded);
      }
      ConsumeOne(index, left, claims, i);
      left, total := left - {claim.instrumentId}, next.value;
    }
    assert claims[..|claims|] == claims;
    AllConsumed(tradable, legs, claims, index, left);
    if left != map[] {
      return Some(SubmitClaimsMismatch);
    }
    if total > maxNotional {
      return Some(BasketNotionalCapExceeded);
    }
    return None;
  }

  /** A claim that cannot be taken out of the index rules a match out. */
  lemma BadClaim(tradable: set<string>, legs: seq<LegCost>, claims: seq<Claim>, maxNotional: Decimal,
                 index: map<string, Decimal>, left: map<string, Decimal>, i: nat)
    requires i < |claims| && Consumed(index, left, claims, i)
    requires index.Keys == (set id | id in LegIds(legs))
    requires forall j :: 0 <= j < |legs| ==> legs[j].instrumentId in index && index[legs[j].instrumentId] == legs[j].cost
    requires claims[i].instrumentId !in left || claims[i].notional <= 0.0
             || claims[i].notional > left[claims[i].instrumentId]
    ensures !ClaimsMatch(tradable, legs, claims, maxNotional)
  {
    var ids := ClaimIds(claims[..i]);
    assert forall k :: 0 <= k < i ==> ids[k] == ClaimIds(claims)[k];
    var claim := claims[i];
    assert ClaimIds(claims)[i] == claim.instrumentId;
    assert claim.instrumentId in ids ==> !Distinct(ClaimIds(claims));
    assert ClaimsMatch(tradable, legs, claims, maxNotional) ==> Covered(claim, legs);
  }

  lemma OverflowExceedsCap(tradable: set<string>, legs: seq<LegCost>, claims: seq<Claim>, maxNotional: Decimal, i: nat,
                           total: Decimal)
    requires i < |claims| && total == TotalClaimed(claims[..i]) && claims[i].notional > 0.0
    requires CheckedAdd(total, claims[i].notional).None?
    ensures !ClaimsMatch(tradable, legs, claims, maxNotional)
  {
    assert Representable(total) && Representable(maxNotional);
    assert claims[..i + 1][..i] == claims[..i];
    assert TotalClaimed(claims[..i + 1]) > MAX;
    if ClaimsMatch(tradable, legs, claims, maxNotional) {
      assert forall k :: 0 <= k < |claims| ==> Covered(claims[k], legs);
      ClaimedGrows(claims, i + 1);
    }
  }

  /** Once every claim was taken, what is left is nothing, and claims and legs match but for the cap. */
  lemma AllConsumed(tradable: set<string>, legs: seq<LegCost>, claims: seq<Claim>, index: map<string, Decimal>,
                    left: map<string, Decimal>)
    requires |claims| == |legs| && LegsUsable(tradable, legs) && Consumed(index, left, claims, |claims|)
    requires index.Keys == (set id | id in LegIds(legs))
    requires forall j :: 0 <= j < |legs| ==> legs[j].instrumentId in index && index[legs[j].instrumentId] == legs[j].cost
    ensures left == map[]
    ensures forall max: Decimal :: ClaimsMatch(tradable, legs, claims, max) <==> TotalClaimed(claims) <= max
  {
    assert claims[..|claims|] == claims;
    var ids := ClaimIds(claims);
    assert Distinct(ids);
    forall k | 0 <= k < |claims| ensures Covered(claims[k], legs) {
      assert claims[k].instrumentId in LegIds(legs);
      var j :| 0 <= j < |legs| && LegIds(legs)[j] == claims[k].instrumentId;
      assert legs[j].instrumentId == claims[k].instrumentId;
    }
    DistinctByCount(ids);
    DistinctByCount(LegIds(legs));
    var taken := set id | id in ids;
    assert taken <= index.Keys by {
      forall k | 0 <= k < |ids| ensures ids[k] in index { assert claims[k].instrumentId in index; }
    }
    SubsetOfSameSize(taken, index.Keys);
    assert left.Keys == {};
  }

  // ---------- Open baskets ----------

  datatype Reservation = Reservation(strategyId: string, groupId: string, totalNotional: Decimal, releaseOnDrop: bool)

  datatype Limits = Limits(maxBasketNotional: Decimal, maxOpenBaskets: nat)

  datatype BasketRequest = BasketRequest(basketId: string, strategyId: string, groupId: string, totalCost: Decimal)

  datatype ReleaseReason = Terminal | Abort | Reject | Stuck

  type Open = map<string, Reservation>

  /** The cost checks every admission passes before it may reserve. */
  function CostRefusal(limits: Limits, request: BasketRequest): Option<AdmissionError> {
    if request.totalCost <= 0.0 then Some(NonPositiveCandidateCost)
    else if request.totalCost > limits.maxBasketNotional then Some(BasketNotionalCapExceeded)
    else None
  }

  function ReserveOpen(limits: Limits, open: Open, request: BasketRequest): (Open, Option<AdmissionError>) {
    if CostRefusal(limits, request).Some? then (open, CostRefusal(limits, request))
    else if request.basketId in open then (open, Some(BasketAlreadyOpen))
    else if |open| >= limits.maxOpenBaskets then (open, Some(MaxOpenBasketCapExceeded))
    else
      (open[request.basketId := Reservation(request.strategyId, request.groupId, request.totalCost, true)], None)
  }

  /** A basket is admitted exactly at a positive cost within the cap, under a new id, with room in the table. */
  lemma ReserveDecides(limits: Limits, open: Open, request: BasketRequest)
    ensures var (after, error) := ReserveOpen(limits, open, request);
            var priced := 0.0 < request.totalCost <= limits.maxBasketNotional;
            && (error.None? <==> priced && request.basketId !in open && |open| < limits.maxOpenBaskets)
            && (error.Some? ==> after == open)
            && (error.None? ==>
                  && after.Keys == open.Keys + {request.basketId}
                  && (forall id :: id in open ==> after[id] == open[id])
                  && after[request.basketId] == Reservation(request.strategyId, request.groupId, request.totalCost, true))
            && (request.totalCost <= 0.0 <==> error == Some(NonPositiveCandidateCost))
            && (request.totalCost > 0.0 && request.totalCost > limits.maxBasketNotional <==>
                  error == Some(BasketNotionalCapExceeded))
            && (priced && request.basketId in open <==> error == Some(BasketAlreadyOpen))
            && (priced && request.basketId !in open && |open| >= limits.maxOpenBaskets <==>
                  error == Some(MaxOpenBasketCapExceeded))
  {
  }

  /** A release removes, holds or misses its basket, and touches no other. */
  lemma ReleaseDecides(open: Open, basketId: string, reason: ReleaseReason)
    ensures var (after, error) := ReleaseBasket(open, basketId, reason);
            && (forall id :: id != basketId ==> (id in after <==> id in open) && (id in open ==> after[id] == open[id]))
            && (basketId !in open <==> error == Some(BasketReservationMissing))
            && (basketId in open && reason == Stuck <==> error == Some(StuckReservationHeld))
            && (basketId in open && reason != Stuck <==> error.None?)
            && (basketId in after <==> basketId in open && reason == Stuck)
            && (basketId in after ==> after[basketId] == open[basketId].(releaseOnDrop := false))
  {
  }

  /** A drop removes its basket exactly while it may be released on drop, and touches no other. */
  lemma DropDecides(open: Open, basketId: string)
    ensures var after := DropPermit(open, basketId);
            && (forall id :: id != basketId ==> (id in after <==> id in open) && (id in open ==> after[id] == open[id]))
            && (basketId in after <==> basketId in open && !open[basketId].releaseOnDrop)
            && (basketId in after ==> after[basketId] == open[basketId])
  {
  }

  function ReleaseBasket(open: Open, basketId: string, reason: ReleaseReason): (Open, Option<AdmissionError>) {
    if basketId !in open then (open, Some(BasketReservationMissing))
    else if reason == Stuck then
      (open[basketId := open[basketId].(releaseOnDrop := false)], Some(StuckReservationHeld))
    else (open - {basketId}, None)
  }

  function DropPermit(open: Open, basketId: string): Open {
    if basketId in open && open[basketId].releaseOnDrop then open - {basketId} else open
  }

  /** The lock-held steps, in place. */
  class BasketAdmissionState {
    const limits: Limits
    var openBaskets: Open

    constructor (limits: Limits)
      ensures this.limits == limits && openBaskets == map[]
    {
      this.limits := limits;
      openBaskets := map[];
    }

    method Reserve(request: BasketRequest) returns (error: Option<AdmissionError>)
      modifies this
      ensures (openBaskets, error) == ReserveOpen(limits, old(openBaskets), request)
    {
      error := CostRefusal(limits, request);
      if error.Some? {
        return;
      }
      if request.basketId in openBaskets {
        return Some(BasketAlreadyOpen);
      }
      if |openBaskets| >= limits.maxOpenBaskets {
        return Some(MaxOpenBasketCapExceeded);
      }
      openBaskets := openBaskets[
        request.basketId := Reservation(request.strategyId, request.groupId, request.totalCost, true)];
    }

    method ReleaseAfterFailedSubmit(basketId: string)
      modifies this
      ensures openBaskets == old(openBaskets) - {basketId}
    {
      openBaskets := openBaskets - {basketId};
    }

    method Release(basketId: string, reason: ReleaseReason) returns (error: Option<AdmissionError>)
      modifies this
      ensures (openBaskets, error) == ReleaseBasket(old(openBaskets), basketId, reason)
    {
      if reason == Stuck && basketId in openBaskets {
        openBaskets := openBaskets[basketId := openBaskets[basketId].(releaseOnDrop := false)];
        return Some(StuckReservationHeld);
      }
      if basketId in openBaskets {
        openBaskets := openBaskets - {basketId};
        return None;
      }
      return Some(BasketReservationMissing);
    }

    method PermitDropped(basketId: string)
      modifies this
      ensures openBaskets == DropPermit(old(openBaskets), basketId)
    {
      var shouldRelease := basketId in openBaskets && openBaskets[basketId].releaseOnDrop;
      if shouldRelease {
        openBaskets := openBaskets - {basketId};
      }
    }
  }

  // ---------- Interleavings ----------

  /** The table together with the admissions still waiting on submit slots and the permits alive. */
  datatype World = World(open: Open, pending: multiset<string>, permits: multiset<string>)

  datatype Step =
    | AdmitReserve(request: BasketRequest)
    | SubmitGranted(basketId: string)
    | SubmitFailed(basketId: string)
    | PermitDrop(basketId: string)
    | Release(basketId: string, reason: ReleaseReason)

  /** One lock-held step of any thread; a step whose thread is not there does nothing. */
  function Take(limits: Limits, w: World, step: Step): World {
    match step
    case AdmitReserve(request) =>
      var (open, error) := ReserveOpen(limits, w.open, request);
      if error.Some? then w else w.(open := open, pending := w.pending + multiset{request.basketId})
    case SubmitGranted(id) =>
      if id !in w.pending then w
      else w.(pending := w.pending - multiset{id}, permits := w.permits + multiset{id})
    case SubmitFailed(id) =>
      if id !in w.pending then w else w.(open := w.open - {id}, pending := w.pending - multiset{id})
    case PermitDrop(id) =>
      if id !in w.permits then w else w.(open := DropPermit(w.open, id), permits := w.permits - multiset{id})
    case Release(id, reason) => w.(open := ReleaseBasket(w.open, id, reason).0)
  }

  function TakeAll(limits: Limits, w: World, steps: seq<Step>): World
    decreases |steps|
  {
    if steps == [] then w else TakeAll(limits, Take(limits, w, steps[0]), steps[1..])
  }

  const START := World(map[], multiset{}, multiset{})

  /** What every interleaving keeps: the count within its maximum, every open basket positive and within the cap. */
  predicate WithinLimits(limits: Limits, open: Open) {
    && |open| <= limits.maxOpenBaskets
    && forall id :: id in open ==> 0.0 < open[id].totalNotional <= limits.maxBasketNotional
  }

  lemma PutCount(open: Open, id: string, r: Reservation)
    ensures |open[id := r]| == |open| + if id in open then 0 else 1
  {
    assert open[id := r].Keys == open.Keys + {id};
  }

  lemma RemoveCount(open: Open, id: string)
    ensures |open - {id}| == |open| - if id in open then 1 else 0
  {
    assert (open - {id}).Keys == open.Keys - {id};
  }

  lemma ReleaseKeepsLimits(limits: Limits, open: Open, id: string, reason: ReleaseReason)
    requires WithinLimits(limits, open)
    ensures WithinLimits(limits, ReleaseBasket(open, id, reason).0)
    ensures WithinLimits(limits, open - {id})
    ensures WithinLimits(limits, DropPermit(open, id))
  {
    RemoveCount(open, id);
    if id in open {
      PutCount(open, id, open[id].(releaseOnDrop := false));
    }
  }

  lemma AdmissionKeepsLimits(limits: Limits, open: Open, request: BasketRequest)
    requires WithinLimits(limits, open)
    ensures WithinLimits(limits, ReserveOpen(limits, open, request).0)
  {
    PutCount(open, request.basketId, Reservation(request.strategyId, request.groupId, request.totalCost, true));
  }

  lemma AdmitStepKeepsLimits(limits: Limits, w: World, request: BasketRequest)
    requires WithinLimits(limits, w.open)
    ensures WithinLimits(limits, Take(limits, w, AdmitReserve(request)).open)
  {
    AdmissionKeepsLimits(limits, w.open, request);
  }

  lemma DepartureKeepsLimits(limits: Limits, w: World, id: string)
    requires WithinLimits(limits, w.open)
    ensures WithinLimits(limits, Take(limits, w, SubmitFailed(id)).open)
    ensures WithinLimits(limits, Take(limits, w, PermitDrop(id)).open)
  {
    ReleaseKeepsLimits(limits, w.open, id, Terminal);
  }

  lemma ReleaseStepKeepsLimits(limits: Limits, w: World, id: string, reason: ReleaseReason)
    requires WithinLimits(limits, w.open)
    ensures WithinLimits(limits, Take(limits, w, Release(id, reason)).open)
  {
    ReleaseKeepsLimits(limits, w.open, id, reason);
  }

  lemma StepKeepsLimits(limits: Limits, w: World, step: Step)
    requires WithinLimits(limits, w.open)
    ensures WithinLimits(limits, Take(limits, w, step).open)
  {
    match step {
      case AdmitReserve(request) => AdmitStepKeepsLimits(limits, w, request);
      case SubmitGranted(_) =>
      case SubmitFailed(id) => DepartureKeepsLimits(limits, w, id);
      case PermitDrop(id) => DepartureKeepsLimits(limits, w, id);
      case Release(id, reason) => ReleaseStepKeepsLimits(limits, w, id, reason);
    }
  }

  /** The open exposure: the sum of all open baskets' notionals. */
  ghost function Exposure(open: Open): real
    decreases |open|
  {
    if open == map[] then 0.0
    else
      var id := Any(open.Keys);
      RemoveCount(open, id);
      open[id].totalNotional + Exposure(open - {id})
  }

  lemma {:induction false} ExposureIsBounded(open: Open, cap: real)
    requires forall id :: id in open ==> open[id].totalNotional <= cap
    ensures Exposure(open) <= Times(|open|, cap)
    decreases |open|
  {
    if open != map[] {
      var id := Any(open.Keys);
      RemoveCount(open, id);
      ExposureIsBounded(open - {id}, cap);
    }
  }

  /** `n` copies of an amount. */
  function Times(n: nat, amount: real): real {
    if n == 0 then 0.0 else Times(n - 1, amount) + amount
  }

  /** Under every interleaving the open baskets stay within their maximum count, each within the notional cap. */
  lemma {:induction false} InterleavingsKeepLimits(limits: Limits, w: World, steps: seq<Step>)
    requires WithinLimits(limits, w.open)
    ensures WithinLimits(limits, TakeAll(limits, w, steps).open)
    decreases |steps|
  {
    if steps != [] {
      StepKeepsLimits(limits, w, steps[0]);
      InterleavingsKeepLimits(limits, Take(limits, w, steps[0]), steps[1..]);
    }
  }

  /** So the whole open exposure never passes the basket count times the cap. */
  lemma InterleavingsBoundExposure(limits: Limits, steps: seq<Step>)
    ensures var open := TakeAll(limits, START, steps).open;
            && Exposure(open) <= Times(|open|, limits.maxBasketNotional)
            && |open| <= limits.maxOpenBaskets
  {
    InterleavingsKeepLimits(limits, START, steps);
    ExposureIsBounded(TakeAll(limits, START, steps).open, limits.maxBasketNotional);
  }

  predicate HeldStuck(w: World, id: string) {
    id in w.open && !w.open[id].releaseOnDrop
  }

  /** A step that may remove a stuck basket: an explicit release of it, or the cleanup of a failed submit for it. */
  predicate MayRemove(step: Step, id: string) {
    || (step.Release? && step.basketId == id && step.reason != Stuck)
    || (step.SubmitFailed? && step.basketId == id)
  }

  lemma TableHoldsStuck(limits: Limits, open: Open, id: string, other: string, request: BasketRequest,
                        reason: ReleaseReason)
    requires id in open && !open[id].releaseOnDrop
    ensures var after := ReserveOpen(limits, open, request).0; id in after && after[id] == open[id]
    ensures var after := DropPermit(open, other); id in after && after[id] == open[id]
    ensures other != id || reason == Stuck ==>
              var after := ReleaseBasket(open, other, reason).0; id in after && after[id] == open[id]
  {
  }

  lemma StepHoldsStuck(limits: Limits, w: World, step: Step, id: string)
    requires HeldStuck(w, id) && !MayRemove(step, id)
    ensures HeldStuck(Take(limits, w, step), id) && Take(limits, w, step).open[id] == w.open[id]
  {
    var any := BasketRequest("", "", "", 0.0);
    match step {
      case AdmitReserve(request) => TableHoldsStuck(limits, w.open, id, id, request, Stuck);
      case SubmitGranted(_) =>
      case SubmitFailed(_) =>
      case PermitDrop(other) => TableHoldsStuck(limits, w.open, id, other, any, Stuck);
      case Release(other, reason) => TableHoldsStuck(limits, w.open, id, other, any, reason);
    }
  }

  /** A basket marked stuck stays open, unchanged, through any interleaving without such a step: drops never remove it. */
  lemma {:induction false} StuckBasketIsHeld(limits: Limits, w: World, steps: seq<Step>, id: string)
    requires HeldStuck(w, id)
    requires forall i :: 0 <= i < |steps| ==> !MayRemove(steps[i], id)
    ensures HeldStuck(TakeAll(limits, w, steps), id)
    ensures TakeAll(limits, w, steps).open[id] == w.open[id]
    decreases |steps|
  {
    if steps != [] {
      StepHoldsStuck(limits, w, steps[0], id);
      StuckBasketIsHeld(limits, Take(limits, w, steps[0]), steps[1..], id);
    }
  }

  // ---------- Ownership ----------

  function Owners(w: World): multiset<string> {
    w.pending + w.permits
  }

  /** Each owner has its basket open, no basket has two owners, and only stuck baskets have none. */
  predicate WellOwned(w: World) {
    && (forall id :: id in Owners(w) ==> Owners(w)[id] == 1 && id in w.open)
    && (forall id :: id in w.open && w.open[id].releaseOnDrop ==> id in Owners(w))
  }

  lemma AdmissionKeepsOwned(limits: Limits, w: World, request: BasketRequest)
    requires WellOwned(w)
    ensures WellOwned(Take(limits, w, AdmitReserve(request)))
  {
    var after := Take(limits, w, AdmitReserve(request));
    var id := request.basketId;
    if after != w {
      assert id !in Owners(w);
      assert Owners(after) == Owners(w) + multiset{id};
    }
  }

  lemma DepartureKeepsOwned(limits: Limits, w: World, step: Step)
    requires WellOwned(w) && (step.SubmitFailed? || step.PermitDrop?)
    ensures WellOwned(Take(limits, w, step))
  {
    var after := Take(limits, w, step);
    var id := step.basketId;
    if after != w {
      assert Owners(after) == Owners(w) - multiset{id};
      assert Owners(w)[id] == 1;
    }
  }

  /** An explicit release of a basket some admission still owns. */
  predicate OwnedRelease(w: World, step: Step) {
    step.Release? && step.reason != Stuck && step.basketId in Owners(w)
  }

  lemma ReleaseKeepsOwnedExactly(limits: Limits, w: World, id: string, reason: ReleaseReason)
    requires WellOwned(w)
    ensures WellOwned(Take(limits, w, Release(id, reason))) <==> !OwnedRelease(w, Release(id, reason))
  {
    var after := Take(limits, w, Release(id, reason));
    assert Owners(after) == Owners(w);
    if OwnedRelease(w, Release(id, reason)) {
      assert id in Owners(after) && id !in after.open;
    }
  }

  lemma GrantKeepsOwned(limits: Limits, w: World, id: string)
    requires WellOwned(w)
    ensures WellOwned(Take(limits, w, SubmitGranted(id)))
  {
    assert Owners(Take(limits, w, SubmitGranted(id))) == Owners(w);
  }

  /** A step keeps every admission its basket exactly when it is not the release of an owned basket. */
  lemma StepKeepsOwnedExactly(limits: Limits, w: World, step: Step)
    requires WellOwned(w)
    ensures WellOwned(Take(limits, w, step)) <==> !OwnedRelease(w, step)
  {
    match step {
      case AdmitReserve(request) => AdmissionKeepsOwned(limits, w, request);
      case SubmitGranted(id) => GrantKeepsOwned(limits, w, id);
      case SubmitFailed(_) => DepartureKeepsOwned(limits, w, step);
      case PermitDrop(_) => DepartureKeepsOwned(limits, w, step);
      case Release(id, reason) => ReleaseKeepsOwnedExactly(limits, w, id, reason);
    }
  }

  /** Step by step along an interleaving: no owned basket is released. */
  predicate NoOwnedRelease(limits: Limits, w: World, steps: seq<Step>)
    decreases |steps|
  {
    steps == [] || (!OwnedRelease(w, steps[0]) && NoOwnedRelease(limits, Take(limits, w, steps[0]), steps[1..]))
  }

  /** Every world along an interleaving, first and last included, is well owned. */
  predicate WellOwnedThroughout(limits: Limits, w: World, steps: seq<Step>)
    decreases |steps|
  {
    WellOwned(w) && (steps == [] || WellOwnedThroughout(limits, Take(limits, w, steps[0]), steps[1..]))
  }

  /** Every admission keeps the basket it was given throughout an interleaving exactly when none is released from it. */
  lemma {:induction false} InterleavingsKeepOwnership(limits: Limits, w: World, steps: seq<Step>)
    requires WellOwned(w)
    ensures WellOwnedThroughout(limits, w, steps) <==> NoOwnedRelease(limits, w, steps)
    decreases |steps|
  {
    if steps != [] {
      StepKeepsOwnedExactly(limits, w, steps[0]);
      if !OwnedRelease(w, steps[0]) {
        InterleavingsKeepOwnership(limits, Take(limits, w, steps[0]), steps[1..]);
      }
    }
  }

  /**
   With explicit releases that fails: a basket released and admitted again under the same id is removed by the
   drop of the first, stale permit, although the second admission is still alive.
   */
  lemma StalePermitRemovesReadmittedBasket(limits: Limits, request: BasketRequest)
    requires CostRefusal(limits, request).None? && limits.maxOpenBaskets > 0
    ensures var id := request.basketId;
            var first := Take(limits, Take(limits, START, AdmitReserve(request)), SubmitGranted(id));
            var released := Take(limits, first, Release(id, Terminal));
            var second := Take(limits, Take(limits, released, AdmitReserve(request)), SubmitGranted(id));
            var end := Take(limits, second, PermitDrop(id));
            id in end.permits && id !in end.open
  {
    var id := request.basketId;
    var open := map[id := Reserved(request)];
    AdmittedAndGranted(limits, multiset{}, request);
    ReleaseEmpties(limits, World(open, multiset{}, multiset{id}), id);
    AdmittedAndGranted(limits, multiset{id}, request);
    DropEmpties(limits, World(open, multiset{}, multiset{id, id}), id);
    assert multiset{} + multiset{id} == multiset{id} && multiset{id} + multiset{id} == multiset{id, id};
  }

  function Reserved(request: BasketRequest): Reservation {
    Reservation(request.strategyId, request.groupId, request.totalCost, true)
  }

  lemma AdmittedAndGranted(limits: Limits, permits: multiset<string>, request: BasketRequest)
    requires CostRefusal(limits, request).None? && limits.maxOpenBaskets > 0
    ensures Take(limits, Take(limits, World(map[], multiset{}, permits), AdmitReserve(request)),
                 SubmitGranted(request.basketId))
         == World(map[request.basketId := Reserved(request)], multiset{}, permits + multiset{request.basketId})
  {
    var id := request.basketId;
    var w := Take(limits, World(map[], multiset{}, permits), AdmitReserve(request));
    assert w == World(map[id := Reserved(request)], multiset{id}, permits);
    assert w.pending - multiset{id} == multiset{};
  }

  lemma ReleaseEmpties(limits: Limits, w: World, id: string)
    requires w.open.Keys == {id}
    ensures Take(limits, w, Release(id, Terminal)) == w.(open := map[])
  {
    assert w.open - {id} == map[];
  }

  lemma DropEmpties(limits: Limits, w: World, id: string)
    requires w.open.Keys == {id} && w.open[id].releaseOnDrop && id in w.permits
    ensures Take(limits, w, PermitDrop(id)) == w.(open := map[], permits := w.permits - multiset{id})
  {
    assert w.open - {id} == map[];
  }

  /**
   The same for a failed submit, and even for a basket marked stuck: released and admitted again under one id while
   the first admission still waits for its slots, it is removed by the first admission's failure.
   */
  lemma StaleFailureRemovesStuckBasket(limits: Limits, request: BasketRequest)
    requires CostRefusal(limits, request).None? && limits.maxOpenBaskets > 0
    ensures var id := request.basketId;
            var first := Take(limits, START, AdmitReserve(request));
            var released := Take(limits, first, Release(id, Terminal));
            var second := Take(limits, released, AdmitReserve(request));
            var stuck := Take(limits, second, Release(id, Stuck));
            var end := Take(limits, stuck, SubmitFailed(id));
            HeldStuck(stuck, id) && id in end.pending && id !in end.open
  {
    var id := request.basketId;
    var open := map[id := Reserved(request)];
    Admitted(limits, multiset{}, request);
    ReleaseEmpties(limits, World(open, multiset{id}, multiset{}), id);
    Admitted(limits, multiset{id}, request);
    assert multiset{} + multiset{id} == multiset{id} && multiset{id} + multiset{id} == multiset{id, id};
    var second := World(open, multiset{id, id}, multiset{});
    var stuck := Take(limits, second, Release(id, Stuck));
    assert stuck == second.(open := open[id := Reserved(request).(releaseOnDrop := false)]);
    assert Take(limits, stuck, SubmitFailed(id)).pending == multiset{id};
  }

  lemma Admitted(limits: Limits, pending: multiset<string>, request: BasketRequest)
    requires CostRefusal(limits, request).None? && limits.maxOpenBaskets > 0
    ensures Take(limits, World(map[], pending, multiset{}), AdmitReserve(request))
         == World(map[request.basketId := Reserved(request)], pending + multiset{request.basketId}, multiset{})
  {
  }

  /** A step strands an admission: its basket was open, is gone, and it is still there. */
  predicate Strands(w: World, after: World, id: string) {
    id in Owners(after) && id in w.open && id !in after.open
  }

  /** The steps that strand: a drop or a failure with another owner of the id, or the release of an owned basket. */
  predicate StrandingStep(w: World, step: Step) {
    match step
    case AdmitReserve(_) => false
    case SubmitGranted(_) => false
    case SubmitFailed(id) => id in w.pending && id in w.open && Owners(w)[id] >= 2
    case PermitDrop(id) => id in w.permits && id in w.open && w.open[id].releaseOnDrop && Owners(w)[id] >= 2
    case Release(id, reason) => reason != Stuck && id in w.open && id in Owners(w)
  }

  lemma DropStrandsExactly(limits: Limits, w: World, id: string)
    ensures (exists other :: Strands(w, Take(limits, w, PermitDrop(id)), other)) <==> StrandingStep(w, PermitDrop(id))
  {
    var after := Take(limits, w, PermitDrop(id));
    if id in w.permits {
      assert Owners(after) == Owners(w) - multiset{id};
      assert StrandingStep(w, PermitDrop(id)) ==> Strands(w, after, id);
    }
  }

  /** A failed submit strands whether or not the basket is marked stuck. */
  lemma FailureStrandsExactly(limits: Limits, w: World, id: string)
    ensures (exists other :: Strands(w, Take(limits, w, SubmitFailed(id)), other)) <==> StrandingStep(w, SubmitFailed(id))
  {
    var after := Take(limits, w, SubmitFailed(id));
    if id in w.pending {
      assert Owners(after) == Owners(w) - multiset{id};
      assert StrandingStep(w, SubmitFailed(id)) ==> Strands(w, after, id);
    }
  }

  lemma ReleaseStrandsExactly(limits: Limits, w: World, id: string, reason: ReleaseReason)
    ensures (exists other :: Strands(w, Take(limits, w, Release(id, reason)), other))
       <==> StrandingStep(w, Release(id, reason))
  {
    var after := Take(limits, w, Release(id, reason));
    assert Owners(after) == Owners(w);
    assert StrandingStep(w, Release(id, reason)) ==> Strands(w, after, id);
  }

  /** Exactly which steps take a basket from an admission that goes on. */
  lemma StrandsExactly(limits: Limits, w: World, step: Step)
    ensures (exists other :: Strands(w, Take(limits, w, step), other)) <==> StrandingStep(w, step)
  {
    match step {
      case AdmitReserve(_) =>
      case SubmitGranted(_) =>
      case SubmitFailed(id) => FailureStrandsExactly(limits, w, id);
      case PermitDrop(id) => DropStrandsExactly(limits, w, id);
      case Release(id, reason) => ReleaseStrandsExactly(limits, w, id, reason);
    }
  }

  /** No step of the interleaving strands an admission. */
  predicate NeverStrands(limits: Limits, w: World, steps: seq<Step>)
    decreases |steps|
  {
    steps == [] || (!StrandingStep(w, steps[0]) && NeverStrands(limits, Take(limits, w, steps[0]), steps[1..]))
  }

  /** So from a well-owned world nothing is ever stranded exactly when no owned basket is released. */
  lemma {:induction false} InterleavingsStrandExactly(limits: Limits, w: World, steps: seq<Step>)
    requires WellOwned(w)
    ensures NeverStrands(limits, w, steps) <==> NoOwnedRelease(limits, w, steps)
    decreases |steps|
  {
    if steps != [] {
      StrandingIsOwnedRelease(w, steps[0]);
      StepKeepsOwnedExactly(limits, w, steps[0]);
      if !OwnedRelease(w, steps[0]) {
        InterleavingsStrandExactly(limits, Take(limits, w, steps[0]), steps[1..]);
      }
    }
  }

  lemma StrandingIsOwnedRelease(w: World, step: Step)
    requires WellOwned(w)
    ensures StrandingStep(w, step) <==> OwnedRelease(w, step)
  {
    match step {
      case AdmitReserve(_) =>
      case SubmitGranted(_) =>
      case SubmitFailed(id) => assert id in w.pending ==> id in Owners(w);
      case PermitDrop(id) => assert id in w.permits ==> id in Owners(w);
      case Release(_, _) =>
    }
  }
}
