/**
 What an admission decides, in full: when it is accepted, what it reserves, and which reasons each refusal reports
 (src/bolt_v3_capital_admission.rs). The conditions are spelled out over the inputs and the live entries.
 */
module AdmissionDecisions {
  import opened Common
  import opened Decimals
  import opened RealArithmetic
  import opened CapitalReservation
  import opened CapitalAdmission
  import opened LedgerDecisions

  /** A positive quantity at a price from zero to one, and a quote set named by an order that is to rest. */
  predicate IntentInOrder(request: AdmissionRequest) {
    && request.quantity > 0.0
    && 0.0 <= request.limitPrice <= 1.0
    && (request.liquidity == RestingMaker ==> request.quoteSetId.Some? && |request.quoteSetId.value| > 0)
  }

  predicate FeesInOrder(policy: AdmissionPolicy) {
    && policy.feeSlippagePolicy.Some?
    && policy.feeSlippagePolicy.value.maxFeeLiability >= 0.0
    && policy.feeSlippagePolicy.value.maxSlippageLiability >= 0.0
  }

  /** What an intent is worth at most: the notional of a buy, plus both allowances. */
  function ClosedForm(request: AdmissionRequest, fees: FeeSlippagePolicy): real {
    var notional := if request.side.Buy? then request.quantity * request.limitPrice else 0.0;
    notional + fees.maxFeeLiability + fees.maxSlippageLiability
  }

  /** A buy within the collateral allowance; a sell of the YES or NO instrument within that side's position. */
  predicate BackedBy(request: AdmissionRequest, product: ProductSnapshot, liability: real) {
    match request.side
    case Buy => liability <= product.collateralAllowance
    case Sell =>
      || (request.instrumentId == product.yesInstrumentId && request.quantity <= product.yesPosition)
      || (request.instrumentId != product.yesInstrumentId && request.instrumentId == product.noInstrumentId
          && request.quantity <= product.noPosition)
  }

  // ---------- The quoted liability ----------

  lemma AllowancesDecide(request: AdmissionRequest, product: ProductSnapshot, fees: FeeSlippagePolicy, notional: Decimal)
    requires notional >= 0.0 && fees.maxFeeLiability >= 0.0 && fees.maxSlippageLiability >= 0.0
    ensures var r := AddAllowances(request, product, fees, notional);
            var liability := notional + fees.maxFeeLiability + fees.maxSlippageLiability;
            && (r.Ok? <==> liability <= MAX && BackedBy(request, product, liability))
            && (r.Ok? ==> r.value == liability)
            && (liability > MAX ==> r == Err(ArithmeticOverflow))
            && (liability <= MAX && !BackedBy(request, product, liability) ==>
                  r == Err(if request.side.Buy? then InsufficientAllowance else InsufficientInventory))
  {
  }

  /** An intent in order has a notional, which no product overflows: quantity times price for a buy. */
  lemma NotionalDecides(request: AdmissionRequest)
    requires IntentInOrder(request)
    ensures CheckedNotional(request).Some? && CheckedNotional(request).value >= 0.0
    ensures CheckedNotional(request).value == if request.side.Buy? then request.quantity * request.limitPrice else 0.0
  {
    PartOfWhole(request.quantity, request.limitPrice);
  }

  /** With intent and fees in order, the quote comes from the notional. */
  lemma QuoteFromNotional(request: AdmissionRequest, product: ProductSnapshot, policy: AdmissionPolicy, notional: Decimal)
    requires IntentInOrder(request) && FeesInOrder(policy) && CheckedNotional(request) == Some(notional)
    ensures WorstCaseLiability(request, product, policy)
         == AddAllowances(request, product, policy.feeSlippagePolicy.value, notional)
  {
  }

  lemma OutOfOrderIsNotQuoted(request: AdmissionRequest, product: ProductSnapshot, policy: AdmissionPolicy)
    requires !IntentInOrder(request) || !FeesInOrder(policy)
    ensures WorstCaseLiability(request, product, policy).Err?
  {
  }

  /** A liability is quoted exactly when intent and fees are in order, it is representable, and it is backed. */
  lemma QuoteDecides(request: AdmissionRequest, product: ProductSnapshot, policy: AdmissionPolicy)
    ensures var r := WorstCaseLiability(request, product, policy);
            && (r.Ok? <==>
                  && IntentInOrder(request) && FeesInOrder(policy)
                  && ClosedForm(request, policy.feeSlippagePolicy.value) <= MAX
                  && BackedBy(request, product, ClosedForm(request, policy.feeSlippagePolicy.value)))
            && (r.Ok? ==> r.value == ClosedForm(request, policy.feeSlippagePolicy.value))
  {
    if IntentInOrder(request) && FeesInOrder(policy) {
      NotionalDecides(request);
      var notional := CheckedNotional(request).value;
      QuoteFromNotional(request, product, policy, notional);
      AllowancesDecide(request, product, policy.feeSlippagePolicy.value, notional);
    } else {
      OutOfOrderIsNotQuoted(request, product, policy);
    }
  }

  /** Which error an intent or fee policy out of order gets, the earlier ones first. */
  lemma IntentReasons(request: AdmissionRequest, product: ProductSnapshot, policy: AdmissionPolicy)
    ensures var r := WorstCaseLiability(request, product, policy);
            var priced := 0.0 <= request.limitPrice <= 1.0;
            && (request.quantity <= 0.0 ==> r == Err(InvalidIntentQuantity))
            && (request.quantity > 0.0 && !priced ==> r == Err(InvalidIntentPrice))
            && (request.quantity > 0.0 && priced && !IntentInOrder(request) ==> r == Err(MissingQuoteSetId))
            && (IntentInOrder(request) && policy.feeSlippagePolicy.None? ==> r == Err(MissingFeePolicy))
            && (IntentInOrder(request) && policy.feeSlippagePolicy.Some? ==>
                  var fees := policy.feeSlippagePolicy.value;
                  && (fees.maxFeeLiability < 0.0 ==> r == Err(MissingFeePolicy))
                  && (fees.maxFeeLiability >= 0.0 && fees.maxSlippageLiability < 0.0 ==>
                        r == Err(MissingSlippagePolicy)))
  {
  }

  /** Which error an intent in order gets for its liability. */
  lemma LiabilityReasons(request: AdmissionRequest, product: ProductSnapshot, policy: AdmissionPolicy)
    requires IntentInOrder(request) && FeesInOrder(policy)
    ensures var r := WorstCaseLiability(request, product, policy);
            var liability := ClosedForm(request, policy.feeSlippagePolicy.value);
            && (liability > MAX ==> r == Err(ArithmeticOverflow))
            && (liability <= MAX && !BackedBy(request, product, liability) ==>
                  r == Err(if request.side.Buy? then InsufficientAllowance else InsufficientInventory))
  {
    NotionalDecides(request);
    var notional := CheckedNotional(request).value;
    QuoteFromNotional(request, product, policy, notional);
    AllowancesDecide(request, product, policy.feeSlippagePolicy.value, notional);
  }

  // ---------- The admission ----------

  /** Everything decided before the ledger is asked. */
  predicate InputsInOrder(inputs: Inputs) {
    && inputs.pool.poolId == inputs.request.poolId
    && inputs.state.Some? && inputs.state.value.validationError.None?
    && (inputs.loss.Some? ==> inputs.loss.value.accepted)
    && IntentInOrder(inputs.request)
    && FeesInOrder(inputs.policy)
    && ClosedForm(inputs.request, inputs.policy.feeSlippagePolicy.value) <= MAX
    && BackedBy(inputs.request, inputs.state.value.product,
                ClosedForm(inputs.request, inputs.policy.feeSlippagePolicy.value))
  }

  /** And everything the ledger asks of the reservation. */
  predicate LedgerInOrder(l: Ledger, inputs: Inputs)
    requires InputsInOrder(inputs)
  {
    var product := inputs.state.value.product;
    var liability := ClosedForm(inputs.request, inputs.policy.feeSlippagePolicy.value);
    && l.reconciled
    && Named(inputs.request.intentId) && Named(inputs.request.poolId) && Named(product.groupId)
    && liability > 0.0
    && Named(inputs.pool.source) && Named(product.source)
    && FreshAt(inputs.pool.observedAtNs, inputs.request.nowNs, inputs.pool.maxSnapshotAgeNs)
    && !IsLive(l.live, inputs.request.poolId, inputs.request.intentId)
    && LeavesRoom(inputs.pool, TrueTotal(l.live, inputs.pool.poolId) + liability, inputs.policy.minRemainingPoolBalance)
  }

  lemma PreparedExactly(inputs: Inputs)
    ensures Prepare(inputs).Ok? <==> InputsInOrder(inputs)
    ensures InputsInOrder(inputs) ==>
              Prepare(inputs).value
              == ReservationRequest(inputs.request.intentId, inputs.request.poolId, inputs.state.value.product.groupId,
                                    ClosedForm(inputs.request, inputs.policy.feeSlippagePolicy.value),
                                    inputs.request.nowNs, inputs.state.value.product.source)
  {
    if inputs.state.Some? {
      QuoteDecides(inputs.request, inputs.state.value.product, inputs.policy);
    }
  }

  lemma LedgerExactly(l: Ledger, inputs: Inputs)
    requires ValidLedger(l) && InputsInOrder(inputs) && Prepare(inputs).Ok?
    ensures var d := ReserveStep(l, inputs.pool, Prepare(inputs).value, inputs.request.nowNs,
                                 inputs.policy.minRemainingPoolBalance).1;
            d.accepted <==> LedgerInOrder(l, inputs)
  {
    PreparedExactly(inputs);
    ReserveDecides(l, inputs.pool, Prepare(inputs).value, inputs.request.nowNs, inputs.policy.minRemainingPoolBalance);
  }

  /**
   An admission is accepted exactly when inputs and ledger are in order. It then appends one entry, for the intent, at
   the closed form of its liability, and reports the quantity and that liability; a refused one changes nothing.
   */
  lemma AdmissionDecides(l: Ledger, inputs: Inputs)
    requires ValidLedger(l)
    ensures var (after, d) := EvaluateStep(l, inputs);
            && (d.accepted <==> InputsInOrder(inputs) && LedgerInOrder(l, inputs))
            && (d.accepted ==>
                  var liability := ClosedForm(inputs.request, inputs.policy.feeSlippagePolicy.value);
                  && after.reconciled
                  && after.live == l.live + [LiveReservation(inputs.request.intentId, inputs.request.poolId,
                                                             inputs.state.value.product.groupId, liability,
                                                             inputs.request.nowNs)]
                  && d == AdmissionDecision(true, Some(inputs.request.quantity), Some(liability), []))
            && (!d.accepted ==> after == l && d.acceptedQuantity.None?)
  {
    PreparedExactly(inputs);
    if Prepare(inputs).Ok? {
      LedgerExactly(l, inputs);
      ReserveDecides(l, inputs.pool, Prepare(inputs).value, inputs.request.nowNs, inputs.policy.minRemainingPoolBalance);
    }
  }

  /** The halt reasons of a loss decision, in order. */
  predicate AreHalts(reasons: seq<AdmissionReason>, halts: seq<string>) {
    |reasons| == |halts| && forall i :: 0 <= i < |halts| ==> reasons[i] == LossHalt(halts[i])
  }

  /** Which reasons a refusal reports before any liability is quoted, the earlier ones first. */
  lemma AdmissionReasons(l: Ledger, inputs: Inputs)
    requires ValidLedger(l)
    ensures var d := EvaluateStep(l, inputs).1;
            && (inputs.pool.poolId != inputs.request.poolId ==>
                  d == AdmissionDecision(false, None, None, [ReservationRefused(PoolMismatch)]))
            && (inputs.pool.poolId == inputs.request.poolId ==>
                  && (inputs.state.None? ==> d == AdmissionDecision(false, None, None, [MissingNtState]))
                  && (inputs.state.Some? && inputs.state.value.validationError.Some? ==>
                        d == AdmissionDecision(false, None, None,
                                               [InvalidNtState(inputs.state.value.validationError.value)]))
                  && (inputs.state.Some? && inputs.state.value.validationError.None?
                      && inputs.loss.Some? && !inputs.loss.value.accepted ==>
                        && !d.accepted && d.acceptedQuantity.None? && d.reservedLiability.None?
                        && AreHalts(d.reasons, inputs.loss.value.haltReasons)))
  {
  }

  /** A refusal for want of a liability reports its error; one of the ledger reports its reason and the liability. */
  lemma LaterReasons(l: Ledger, inputs: Inputs)
    requires ValidLedger(l)
    requires inputs.pool.poolId == inputs.request.poolId
    requires inputs.state.Some? && inputs.state.value.validationError.None?
    requires inputs.loss.Some? ==> inputs.loss.value.accepted
    ensures var d := EvaluateStep(l, inputs).1;
            && (!InputsInOrder(inputs) ==>
                  && WorstCaseLiability(inputs.request, inputs.state.value.product, inputs.policy).Err?
                  && d == AdmissionDecision(false, None, None, [LiabilityRefused(
                            WorstCaseLiability(inputs.request, inputs.state.value.product, inputs.policy).error)]))
            && (InputsInOrder(inputs) && !LedgerInOrder(l, inputs) ==>
                  && !d.accepted && d.acceptedQuantity.None?
                  && d.reservedLiability == Some(ClosedForm(inputs.request, inputs.policy.feeSlippagePolicy.value))
                  && |d.reasons| == 1 && d.reasons[0].ReservationRefused?
                  && (RoomIsKnown(l, inputs.pool) && !l.reconciled ==>
                        d.reasons == [ReservationRefused(ReconciliationRequired)]))
  {
    PreparedExactly(inputs);
    QuoteDecides(inputs.request, inputs.state.value.product, inputs.policy);
    if Prepare(inputs).Ok? {
      LedgerExactly(l, inputs);
      ReserveReasons(l, inputs.pool, Prepare(inputs).value, inputs.request.nowNs, inputs.policy.minRemainingPoolBalance);
    }
  }

  /**
   Exactly the intents some ledger admits: in order, worth something, named and fresh, with a liability the pool could
   hold on its own.
   */
  lemma SomeLedgerAdmitsExactly(inputs: Inputs)
    ensures (exists l :: ValidLedger(l) && EvaluateStep(l, inputs).1.accepted)
       <==> InputsInOrder(inputs) && LedgerInOrder(Ledger([], true), inputs)
  {
    var empty := Ledger([], true);
    AdmissionDecides(empty, inputs);
    forall l | ValidLedger(l) && EvaluateStep(l, inputs).1.accepted
      ensures InputsInOrder(inputs) && LedgerInOrder(empty, inputs)
    {
      AdmissionDecides(l, inputs);
      TotalNonNegative(l.live, inputs.pool.poolId);
    }
  }
}
