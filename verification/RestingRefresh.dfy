/** What a refresh of a resting order decides, in full (src/bolt_v3_economics_runtime.rs). */
module RestingRefresh {
  import opened Common
  import opened Decimals
  import opened RealArithmetic
  import opened RestingTerms
  import opened RestingMeaning

  /** A refresh that is not over: something remains, of a maker's order resting for its edge. */
  predicate Ongoing(prior: Admission, ask: Ask) {
    && ask.remainingQuantity > 0.0
    && ask.nowNs > 0
    && prior.request.authority.liquidityRole == GuaranteedMaker
    && prior.policy.TradingEdge?
  }

  /** Its quote still stands, as a maker's, and the margin before its end is known. */
  predicate Standing(prior: Admission, ask: Ask) {
    && Ongoing(prior, ask)
    && ask.makerGuaranteeIntact
    && ask.nowNs <= prior.quote.validUntilNs
    && ask.source.refreshMarginNs.Some?
    && ask.source.refreshMarginNs.value <= prior.quote.validUntilNs
  }

  /** It has come within the margin. */
  predicate IsDue(prior: Admission, ask: Ask) {
    Standing(prior, ask) && prior.quote.validUntilNs <= ask.nowNs + ask.source.refreshMarginNs.value
  }

  /** One planned leg, and a remainder within it and within the authorised ceiling. */
  predicate CanScale(prior: Admission, ask: Ask) {
    && |prior.request.plannedFillLegs| == 1
    && 0.0 < ask.remainingQuantity <= prior.request.plannedFillLegs[0].quantity
    && ask.remainingQuantity <= ask.authorizedQuantityCeiling
    && prior.reservationBasis > 0.0
  }

  /** An amount for one quantity as another is for another. */
  predicate InProportion(x: real, quantity: real, y: real, remaining: real) {
    y * quantity == x * remaining
  }

  /** The request again for the remainder, with gross value and basis in proportion. */
  predicate IsScaledIntent(prior: Admission, ask: Ask, intent: Intent) {
    && |prior.request.plannedFillLegs| == 1
    && var leg := prior.request.plannedFillLegs[0];
       && intent.request.authority == prior.request.authority
       && intent.request.plannedFillLegs == [PlannedLeg(leg.price, ask.remainingQuantity)]
       && intent.request.requestedAtNs == ask.nowNs
       && intent.policy == prior.policy
       && InProportion(prior.netEdge.grossExpectedValue, leg.quantity, intent.grossExpectedValue, ask.remainingQuantity)
       && InProportion(prior.reservationBasis, leg.quantity, intent.reservationBasis, ask.remainingQuantity)
  }

  /** The source quotes the intent at an edge above the minimum and zero, and the liability stays in range. */
  predicate IsQuoted(ask: Ask, intent: Intent) {
    && ask.source.price(intent).Some?
    && var (quote, edge) := ask.source.price(intent).value;
       && (intent.policy.TradingEdge? ==>
             edge.coreEdgeRatio > 0.0 && edge.coreEdgeRatio > intent.policy.minimumCoreEdgeRatio)
       && intent.reservationBasis - (if quote.coreTotal < 0.0 then quote.coreTotal else 0.0) <= MAX
  }

  /** The admission a quote of the intent becomes: the basis, and the core debit on top of it, reserved. */
  predicate IsQuoteOf(prior: Admission, ask: Ask, intent: Intent, next: Admission) {
    && ask.source.price(intent) == Some((next.quote, next.netEdge))
    && next.request == intent.request
    && next.orderBinding == prior.orderBinding
    && next.policy == intent.policy
    && next.reservationBasis == intent.reservationBasis
    && next.fullReservationLiability
       == intent.reservationBasis - (if next.quote.coreTotal < 0.0 then next.quote.coreTotal else 0.0)
  }

  /** Scaling an amount of the range to a part of its quantity stays in range, in proportion and in sign. */
  lemma ScaledDown(x: Decimal, remaining: Decimal, quantity: Decimal)
    requires 0.0 < remaining <= quantity
    ensures var ratio := CheckedDiv(remaining, quantity);
            && ratio.Some?
            && CheckedMul(x, ratio.value).Some?
            && InProportion(x, quantity, CheckedMul(x, ratio.value).value, remaining)
            && (x > 0.0 ==> CheckedMul(x, ratio.value).value > 0.0)
  {
    var ratio := remaining / quantity;
    assert ratio * quantity == remaining;
    Scale(ratio, 1.0, quantity);
    Scale(0.0, ratio, quantity);
    assert 0.0 < ratio <= 1.0;
    assert Representable(x);
    PartStaysInRange(x, ratio);
    assert (x * ratio) * quantity == x * remaining;
    if x > 0.0 {
      ProductZero(x, ratio);
    }
  }

  lemma PartStaysInRange(x: real, ratio: real)
    requires -MAX <= x <= MAX && 0.0 < ratio <= 1.0
    ensures -MAX <= x * ratio <= MAX
  {
    if x >= 0.0 {
      PartOfWhole(x, ratio);
    } else {
      PartOfWhole(0.0 - x, ratio);
      assert (0.0 - x) * ratio == 0.0 - x * ratio;
    }
  }

  /** A remainder within the planned leg can always be scaled to, and the intent is the proportional one. */
  lemma ScalingNeverFails(prior: Admission, ask: Ask)
    requires CanScale(prior, ask)
    ensures ScaledIntent(prior, ask).Some?
    ensures IsScaledIntent(prior, ask, ScaledIntent(prior, ask).value)
    ensures ScaledIntent(prior, ask).value.reservationBasis > 0.0
  {
    var quantity := prior.request.plannedFillLegs[0].quantity;
    ScaledDown(prior.reservationBasis, ask.remainingQuantity, quantity);
    ScaledDown(prior.netEdge.grossExpectedValue, ask.remainingQuantity, quantity);
  }

  /** An intent is admitted exactly when quoted, and as its quote. */
  lemma QuotedExactly(prior: Admission, ask: Ask, intent: Intent)
    requires intent.reservationBasis > 0.0
    ensures QuoteAdmission(ask.source, intent, prior.orderBinding).Some? <==> IsQuoted(ask, intent)
    ensures forall next :: QuoteAdmission(ask.source, intent, prior.orderBinding) == Some(next) ==>
              IsQuoteOf(prior, ask, intent, next)
  {
  }

  // ---------- The outcomes ----------

  /** The outcomes that need no new quote. */
  lemma EarlyOutcomes(prior: Admission, ask: Ask)
    ensures var r := RefreshRestingOrder(prior, ask);
            && (r == Complete <==> ask.remainingQuantity == 0.0 && ask.nowNs > 0)
            && (r == NotDue <==> Standing(prior, ask) && !IsDue(prior, ask))
            && (r == CancelRequired(MakerGuaranteeLost) <==> Ongoing(prior, ask) && !ask.makerGuaranteeIntact)
            && (Ongoing(prior, ask) && ask.makerGuaranteeIntact && ask.nowNs > prior.quote.validUntilNs ==>
                  r == CancelRequired(QuoteUnavailable))
            && (r == CancelRequired(InvalidState) <==>
                  || (!Ongoing(prior, ask) && !(ask.remainingQuantity == 0.0 && ask.nowNs > 0))
                  || (Ongoing(prior, ask) && ask.makerGuaranteeIntact && ask.nowNs <= prior.quote.validUntilNs
                      && (!Standing(prior, ask) || (IsDue(prior, ask) && !CanScale(prior, ask)))))
  {
    if IsDue(prior, ask) && CanScale(prior, ask) {
      ScalingNeverFails(prior, ask);
    }
  }

  /**
   Decided on an intent: the quote is unavailable exactly when the intent is not quoted, and otherwise the order is
   refreshed exactly when the quoted admission has the same terms, and cancelled for changed terms exactly when not.
   */
  ghost predicate DecidesOn(prior: Admission, ask: Ask, intent: Intent) {
    var r := RefreshRestingOrder(prior, ask);
    && (!IsQuoted(ask, intent) <==> r == CancelRequired(QuoteUnavailable))
    && (IsQuoted(ask, intent) ==> forall next :: IsQuoteOf(prior, ask, intent, next) ==>
          r == if SameTerms(prior, next) then Refreshed(next) else CancelRequired(TermsChanged))
  }

  /** Proportion fixes the intent: two scaled intents of one refresh are the same. */
  lemma ScaledIntentIsUnique(prior: Admission, ask: Ask, a: Intent, b: Intent)
    requires CanScale(prior, ask) && IsScaledIntent(prior, ask, a) && IsScaledIntent(prior, ask, b)
    ensures a == b
  {
    var quantity := prior.request.plannedFillLegs[0].quantity;
    SameProportion(prior.netEdge.grossExpectedValue, quantity, a.grossExpectedValue, b.grossExpectedValue,
                   ask.remainingQuantity);
    SameProportion(prior.reservationBasis, quantity, a.reservationBasis, b.reservationBasis, ask.remainingQuantity);
  }

  lemma SameProportion(x: real, quantity: real, y: real, z: real, remaining: real)
    requires quantity > 0.0 && InProportion(x, quantity, y, remaining) && InProportion(x, quantity, z, remaining)
    ensures y == z
  {
    Cancel(y, z, quantity);
  }

  /** A due refresh of a remainder that can be scaled decides on the one intent in proportion. */
  lemma RefreshDecides(prior: Admission, ask: Ask, intent: Intent)
    requires IsDue(prior, ask) && CanScale(prior, ask) && IsScaledIntent(prior, ask, intent)
    ensures DecidesOn(prior, ask, intent)
  {
    ScalingNeverFails(prior, ask);
    ScaledIntentIsUnique(prior, ask, intent, ScaledIntent(prior, ask).value);
    QuotedExactly(prior, ask, intent);
    var quoted := QuoteAdmission(ask.source, intent, prior.orderBinding);
    if quoted.Some? {
      TermsMatchMeans(prior, quoted.value);
    }
  }

  /** Over every chain of refreshes the standing admission has the terms of the first, spelled out. */
  lemma ChainKeepsTerms(a: Admission, asks: seq<Ask>)
    requires RefreshAll(a, asks).Some?
    ensures var last := RefreshAll(a, asks).value;
            last == a || (SameTerms(a, last)
                          && 0.0 < last.request.plannedFillLegs[0].quantity <= a.request.plannedFillLegs[0].quantity)
  {
    ChainContinues(a, asks);
    var last := RefreshAll(a, asks).value;
    if last != a {
      TermsMatchMeans(a, last);
    }
  }
}
