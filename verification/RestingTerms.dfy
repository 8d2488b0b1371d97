/**
 Refreshing the economics of a resting order: a re-quoted admission replaces the prior one only when its
 terms are the same per unit (src/bolt_v3_economics_runtime.rs). Identifiers are strings; the pricing of
 a quote by provider and aggregation code enters as a function of the intent.
 */
module RestingTerms {
  import opened Common
  import opened Decimals
  import opened RealArithmetic

  // ---------- Quotes and admissions ----------

  datatype InventoryApplication = AlreadyAppliedToGrossFill | ApplyOnceToNetPortfolio

  datatype Effect =
    | CurrencyAmount(amount: Decimal, currencyId: string)
    | AssetQuantity(amount: Decimal, assetId: string, application: InventoryApplication)

  datatype Scope =
    | Decision(decisionId: string)
    | PositionInterval(positionId: string, startsAtNs: nat, endsAtNs: nat)
    | Action(actionId: string)

  datatype PointEstimate = NonZero(effect: Effect) | ProvenZero(factorId: string)

  datatype Treatment = GuaranteedConditionalOnAction | RiskBound(authority: string) | ForecastOnly

  datatype Factor = Factor(factorId: string, value: Decimal)

  datatype Component = Component(
    componentId: string,
    economicClass: string,
    kind: string,
    scope: Scope,
    pointEstimate: PointEstimate,
    debitRiskBound: Option<Effect>,
    treatment: Treatment,
    factors: seq<Factor>,
    formulaId: string,
    source: string)

  datatype PlannedLeg = PlannedLeg(price: Decimal, quantity: Decimal)

  datatype PositionContext = PositionContext(positionId: string, isLong: bool, quantity: Decimal, horizonNs: nat)

  datatype LiquidityRole = GuaranteedMaker | Taker

  /** The identifiers of a request that must not change between quotes. */
  datatype Authority = Authority(
    executionClientId: string,
    accountId: string,
    instrumentId: string,
    productSurfaceId: string,
    isBuy: bool,
    liquidityRole: LiquidityRole,
    routing: Option<string>,
    position: Option<PositionContext>,
    lifecyclePath: string,
    reportingPolicyId: string,
    reportingCurrency: string,
    edgeBasisPolicyId: string,
    decisionCorrelationId: string)

  datatype Request = Request(authority: Authority, plannedFillLegs: seq<PlannedLeg>, requestedAtNs: nat)

  datatype Policy = TradingEdge(minimumCoreEdgeRatio: Decimal) | RiskReduction

  datatype EdgeBasis = EdgeBasis(
    policyId: string,
    resolverId: string,
    productMetadataSource: string,
    policyVersion: nat,
    normalizedAmount: Decimal,
    scope: Scope)

  datatype NetEdge = NetEdge(
    grossExpectedValue: Decimal,
    coreNetEdge: Decimal,
    coreEdgeRatio: Decimal,
    basis: EdgeBasis)

  datatype Quote = Quote(
    components: seq<Component>,
    coreTotal: Decimal,
    reportingCurrency: string,
    validUntilNs: nat)

  datatype Admission = Admission(
    request: Request,
    orderBinding: string,
    policy: Policy,
    quote: Quote,
    netEdge: NetEdge,
    reservationBasis: Decimal,
    fullReservationLiability: Decimal)

  // ---------- The terms relation ----------

  /** The quantity an effect is measured against: the order's, or the held position's for an interval. */
  function ComparisonBasis(scope: Scope, authority: Authority, orderQuantity: Decimal): Option<Decimal> {
    match scope
    case Decision(_) => Some(orderQuantity)
    case Action(_) => Some(orderQuantity)
    case PositionInterval(positionId, _, _) =>
      if authority.position.Some? && authority.position.value.positionId == positionId
      then Some(authority.position.value.quantity) else None
  }

  predicate SameShape(a: Effect, b: Effect) {
    match (a, b)
    case (CurrencyAmount(_, x), CurrencyAmount(_, y)) => x == y
    case (AssetQuantity(_, x, f), AssetQuantity(_, y, g)) => x == y && f == g
    case _ => false
  }

  predicate EffectsMatch(a: Effect, b: Effect, aBasis: Option<Decimal>, bBasis: Option<Decimal>) {
    && aBasis.Some?
    && bBasis.Some?
    && SameShape(a, b)
    && CheckedDiv(a.amount, aBasis.value) == CheckedDiv(b.amount, bBasis.value)
  }

  predicate OptionalEffectsMatch(a: Option<Effect>, b: Option<Effect>, aBasis: Option<Decimal>,
                                 bBasis: Option<Decimal>)
  {
    match (a, b)
    case (Some(x), Some(y)) => EffectsMatch(x, y, aBasis, bBasis)
    case (None, None) => true
    case _ => false
  }

  predicate PointEstimatesMatch(a: PointEstimate, b: PointEstimate, aBasis: Option<Decimal>, bBasis: Option<Decimal>) {
    match (a, b)
    case (NonZero(x), NonZero(y)) => EffectsMatch(x, y, aBasis, bBasis)
    case (ProvenZero(x), ProvenZero(y)) => x == y
    case _ => false
  }

  /** An interval may slide but not change length; a reversed interval has no length. */
  function Duration(startsAtNs: nat, endsAtNs: nat): Option<nat> {
    if startsAtNs <= endsAtNs then Some(endsAtNs - startsAtNs) else None
  }

  predicate ScopesMatch(a: Scope, b: Scope) {
    match (a, b)
    case (Decision(x), Decision(y)) => x == y
    case (PositionInterval(p, s, e), PositionInterval(p', s', e')) => p == p' && Duration(s, e) == Duration(s', e')
    case (Action(x), Action(y)) => x == y
    case _ => false
  }

  /** A component seen together with the admission's measuring quantities. */
  predicate ComponentsMatch(a: Component, b: Component, aAuthority: Authority, bAuthority: Authority,
                            aQuantity: Decimal, bQuantity: Decimal)
  {
    var aBasis := ComparisonBasis(a.scope, aAuthority, aQuantity);
    var bBasis := ComparisonBasis(b.scope, bAuthority, bQuantity);
    && a.componentId == b.componentId
    && a.economicClass == b.economicClass
    && a.kind == b.kind
    && ScopesMatch(a.scope, b.scope)
    && a.treatment == b.treatment
    && a.formulaId == b.formulaId
    && a.source == b.source
    && a.factors == b.factors
    && PointEstimatesMatch(a.pointEstimate, b.pointEstimate, aBasis, bBasis)
    && OptionalEffectsMatch(a.debitRiskBound, b.debitRiskBound, aBasis, bBasis)
  }

  /** The components that bind: everything but forecasts, in order. */
  function CoreComponents(components: seq<Component>): seq<Component> {
    if components == [] then []
    else (if components[0].treatment.ForecastOnly? then [] else [components[0]]) + CoreComponents(components[1..])
  }

  predicate CoreMatch(a: Admission, b: Admission, aQuantity: Decimal, bQuantity: Decimal) {
    var x, y := CoreComponents(a.quote.components), CoreComponents(b.quote.components);
    && |x| == |y|
    && forall i :: 0 <= i < |x| ==>
         ComponentsMatch(x[i], y[i], a.request.authority, b.request.authority, aQuantity, bQuantity)
  }

  /** The reservation liability: the basis plus whatever the core total guarantees as a debit. */
  function LiabilityOf(basis: Decimal, coreTotal: Decimal): Option<Decimal> {
    var debit: real := if coreTotal < 0.0 then 0.0 - coreTotal else 0.0;
    Checked(basis + debit)
  }

  /** The derived figures of an admission agree with the figures they derive from. */
  predicate DerivedCoreTermsValid(a: Admission) {
    var netEdge := CheckedAdd(a.netEdge.grossExpectedValue, a.quote.coreTotal);
    && netEdge == Some(a.netEdge.coreNetEdge)
    && CheckedDiv(netEdge.value, a.netEdge.basis.normalizedAmount) == Some(a.netEdge.coreEdgeRatio)
    && LiabilityOf(a.reservationBasis, a.quote.coreTotal) == Some(a.fullReservationLiability)
  }

  predicate SamePerUnit(x: Decimal, y: Decimal, xQuantity: Decimal, yQuantity: Decimal) {
    CheckedDiv(x, xQuantity) == CheckedDiv(y, yQuantity)
  }

  predicate SameBasisAuthority(a: EdgeBasis, b: EdgeBasis) {
    a.(normalizedAmount := 0.0) == b.(normalizedAmount := 0.0)
  }

  /** Two admissions of one resting order have the same terms. */
  predicate TermsMatch(a: Admission, b: Admission) {
    && |a.request.plannedFillLegs| == 1
    && |b.request.plannedFillLegs| == 1
    && var p, r := a.request.plannedFillLegs[0], b.request.plannedFillLegs[0];
       && CoreMatch(a, b, p.quantity, r.quantity)
       && a.request.authority == b.request.authority
       && p.price == r.price
       && a.orderBinding == b.orderBinding
       && a.policy == b.policy
       && SameBasisAuthority(a.netEdge.basis, b.netEdge.basis)
       && SamePerUnit(a.netEdge.grossExpectedValue, b.netEdge.grossExpectedValue, p.quantity, r.quantity)
       && SamePerUnit(a.reservationBasis, b.reservationBasis, p.quantity, r.quantity)
       && SamePerUnit(a.netEdge.basis.normalizedAmount, b.netEdge.basis.normalizedAmount, p.quantity, r.quantity)
       && DerivedCoreTermsValid(a)
       && DerivedCoreTermsValid(b)
       && a.quote.reportingCurrency == b.quote.reportingCurrency
  }

  lemma ComponentsMatchBackAndThrough(a: Component, b: Component, c: Component, aAuth: Authority, bAuth: Authority,
                                      cAuth: Authority, aQ: Decimal, bQ: Decimal, cQ: Decimal)
    requires ComponentsMatch(a, b, aAuth, bAuth, aQ, bQ)
    ensures ComponentsMatch(b, a, bAuth, aAuth, bQ, aQ)
    ensures ComponentsMatch(b, c, bAuth, cAuth, bQ, cQ) ==> ComponentsMatch(a, c, aAuth, cAuth, aQ, cQ)
  {
  }

  /** Same terms is symmetric. */
  lemma TermsMatchSymmetric(a: Admission, b: Admission)
    requires TermsMatch(a, b)
    ensures TermsMatch(b, a)
  {
    var x, y := CoreComponents(a.quote.components), CoreComponents(b.quote.components);
    var p, r := a.request.plannedFillLegs[0].quantity, b.request.plannedFillLegs[0].quantity;
    forall i | 0 <= i < |y|
      ensures ComponentsMatch(y[i], x[i], b.request.authority, a.request.authority, r, p)
    {
      ComponentsMatchBackAndThrough(x[i], y[i], y[i], a.request.authority, b.request.authority,
                                    b.request.authority, p, r, r);
    }
  }

  /** Same terms is transitive. */
  lemma TermsMatchTransitive(a: Admission, b: Admission, c: Admission)
    requires TermsMatch(a, b) && TermsMatch(b, c)
    ensures TermsMatch(a, c)
  {
    var x, y, z := CoreComponents(a.quote.components), CoreComponents(b.quote.components),
                   CoreComponents(c.quote.components);
    var p, r, s := a.request.plannedFillLegs[0].quantity, b.request.plannedFillLegs[0].quantity,
                   c.request.plannedFillLegs[0].quantity;
    forall i | 0 <= i < |x|
      ensures ComponentsMatch(x[i], z[i], a.request.authority, c.request.authority, p, s)
    {
      ComponentsMatchBackAndThrough(x[i], y[i], z[i], a.request.authority, b.request.authority,
                                    c.request.authority, p, r, s);
    }
  }

  /** Every core effect of the admission has something to be measured against. */
  predicate Measurable(a: Admission, quantity: Decimal) {
    var x := CoreComponents(a.quote.components);
    forall i :: 0 <= i < |x| && (x[i].pointEstimate.NonZero? || x[i].debitRiskBound.Some?) ==>
      ComparisonBasis(x[i].scope, a.request.authority, quantity).Some?
  }

  /**
   The relation is partial: an admission has its own terms exactly when it plans one leg, its derived
   figures are consistent and every interval effect names the position held. So it is an equivalence on those.
   */
  lemma TermsMatchReflexiveExactly(a: Admission)
    ensures TermsMatch(a, a)
       <==> && |a.request.plannedFillLegs| == 1
            && DerivedCoreTermsValid(a)
            && Measurable(a, a.request.plannedFillLegs[0].quantity)
  {
    if |a.request.plannedFillLegs| == 1 {
      var q := a.request.plannedFillLegs[0].quantity;
      var auth := a.request.authority;
      var x := CoreComponents(a.quote.components);
      forall i | 0 <= i < |x|
        ensures ComponentsMatch(x[i], x[i], auth, auth, q, q)
           <==> (x[i].pointEstimate.NonZero? || x[i].debitRiskBound.Some? ==>
                   ComparisonBasis(x[i].scope, auth, q).Some?)
      {
        SelfMatch(x[i], auth, q);
      }
    }
  }

  /** An admission that does not have its own terms: two planned legs, or a figure that does not follow from the others. */
  lemma MismatchWithItself(a: Admission, leg: PlannedLeg)
    ensures var twoLegs := a.(request := a.request.(plannedFillLegs := [leg, leg])); !TermsMatch(twoLegs, twoLegs)
    ensures var cheap := a.(reservationBasis := 2.0, fullReservationLiability := 1.0); !TermsMatch(cheap, cheap)
  {
    var twoLegs := a.(request := a.request.(plannedFillLegs := [leg, leg]));
    assert |twoLegs.request.plannedFillLegs| == 2;
  }

  lemma SelfMatch(c: Component, auth: Authority, q: Decimal)
    ensures ComponentsMatch(c, c, auth, auth, q, q)
       <==> (c.pointEstimate.NonZero? || c.debitRiskBound.Some? ==> ComparisonBasis(c.scope, auth, q).Some?)
  {
  }

  // ---------- Refresh ----------

  datatype Intent = Intent(request: Request, policy: Policy, grossExpectedValue: Decimal, reservationBasis: Decimal)

  /** A bound pricing source: its refresh margin (none on overflow) and how it prices an intent (none if unavailable). */
  datatype Source = Source(refreshMarginNs: Option<nat>, price: Intent -> Option<(Quote, NetEdge)>)

  predicate EdgeAdmitted(policy: Policy, edge: NetEdge) {
    match policy
    case RiskReduction => true
    case TradingEdge(minimum) => edge.coreEdgeRatio > (if minimum > 0.0 then minimum else 0.0)
  }

  /** Price an intent into an admission, reserving for the guaranteed debit as well. */
  function QuoteAdmission(source: Source, intent: Intent, orderBinding: string): Option<Admission> {
    if intent.reservationBasis <= 0.0 then None
    else
      match source.price(intent)
      case None => None
      case Some((quote, edge)) =>
        if !EdgeAdmitted(intent.policy, edge) then None
        else
          match LiabilityOf(intent.reservationBasis, quote.coreTotal)
          case None => None
          case Some(liability) =>
            Some(Admission(intent.request, orderBinding, intent.policy, quote, edge, intent.reservationBasis,
                           liability))
  }

  datatype CancelReason = InvalidState | MakerGuaranteeLost | QuoteUnavailable | TermsChanged

  datatype Refresh = NotDue | Complete | Refreshed(admission: Admission) | CancelRequired(reason: CancelReason)

  /** What is asked of a refresh besides the prior admission. */
  datatype Ask = Ask(
    source: Source,
    remainingQuantity: Decimal,
    authorizedQuantityCeiling: Decimal,
    makerGuaranteeIntact: bool,
    nowNs: nat)

  /** The intent a due refresh re-quotes: the same request scaled to the remaining quantity. */
  function ScaledIntent(prior: Admission, ask: Ask): Option<Intent>
    requires |prior.request.plannedFillLegs| == 1
  {
    var leg := prior.request.plannedFillLegs[0];
    var ratio := CheckedDiv(ask.remainingQuantity, leg.quantity);
    if ratio.None? then None
    else
      var basis := CheckedMul(prior.reservationBasis, ratio.value);
      var gross := CheckedMul(prior.netEdge.grossExpectedValue, ratio.value);
      if basis.None? || gross.None? || basis.value <= 0.0 then None
      else
        var request := prior.request.(plannedFillLegs := [leg.(quantity := ask.remainingQuantity)],
                                      requestedAtNs := ask.nowNs);
        Some(Intent(request, prior.policy, gross.value, basis.value))
  }

  function RefreshRestingOrder(prior: Admission, ask: Ask): Refresh {
    if ask.remainingQuantity < 0.0 || ask.nowNs == 0 then CancelRequired(InvalidState)
    else if ask.remainingQuantity == 0.0 then Complete
    else if !prior.request.authority.liquidityRole.GuaranteedMaker? || !prior.policy.TradingEdge? then
      CancelRequired(InvalidState)
    else if !ask.makerGuaranteeIntact then CancelRequired(MakerGuaranteeLost)
    else if ask.nowNs > prior.quote.validUntilNs then CancelRequired(QuoteUnavailable)
    else if ask.source.refreshMarginNs.None? || ask.source.refreshMarginNs.value > prior.quote.validUntilNs then
      CancelRequired(InvalidState)
    else if ask.nowNs < prior.quote.validUntilNs - ask.source.refreshMarginNs.value then NotDue
    else if |prior.request.plannedFillLegs| != 1 then CancelRequired(InvalidState)
    else if
      || ask.authorizedQuantityCeiling <= 0.0
      || ask.remainingQuantity > ask.authorizedQuantityCeiling
      || ask.remainingQuantity > prior.request.plannedFillLegs[0].quantity
      || prior.reservationBasis <= 0.0
    then CancelRequired(InvalidState)
    else
      match ScaledIntent(prior, ask)
      case None => CancelRequired(InvalidState)
      case Some(intent) =>
        match QuoteAdmission(ask.source, intent, prior.orderBinding)
        case None => CancelRequired(QuoteUnavailable)
        case Some(refreshed) =>
          if TermsMatch(prior, refreshed) then Refreshed(refreshed) else CancelRequired(TermsChanged)
  }

  function OrderQuantity(a: Admission): Decimal
    requires |a.request.plannedFillLegs| == 1
  {
    a.request.plannedFillLegs[0].quantity
  }

  /** The exact reservation basis per unit of the planned quantity. */
  function BasisPerUnit(a: Admission): real
    requires |a.request.plannedFillLegs| == 1 && OrderQuantity(a) != 0.0
  {
    a.reservationBasis / OrderQuantity(a)
  }

  /** A later admission that stands for the earlier one on the same terms, for no more quantity. */
  predicate Continues(first: Admission, last: Admission) {
    && TermsMatch(first, last)
    && 0.0 < OrderQuantity(last) <= OrderQuantity(first)
    && BasisPerUnit(last) == BasisPerUnit(first)
    && last.reservationBasis > 0.0
    && LiabilityOf(last.reservationBasis, last.quote.coreTotal) == Some(last.fullReservationLiability)
    && last.fullReservationLiability >= last.reservationBasis
    && EdgeAdmitted(last.policy, last.netEdge)
  }

  /** A refreshed admission is the source's quote of the scaled intent, and it matched. */
  lemma RefreshIsScaledQuote(prior: Admission, ask: Ask)
    requires RefreshRestingOrder(prior, ask).Refreshed?
    ensures |prior.request.plannedFillLegs| == 1
    ensures 0.0 < ask.remainingQuantity <= OrderQuantity(prior)
    ensures ask.remainingQuantity <= ask.authorizedQuantityCeiling
    ensures prior.reservationBasis > 0.0
    ensures ScaledIntent(prior, ask).Some?
    ensures Some(RefreshRestingOrder(prior, ask).admission)
         == QuoteAdmission(ask.source, ScaledIntent(prior, ask).value, prior.orderBinding)
    ensures TermsMatch(prior, RefreshRestingOrder(prior, ask).admission)
  {
  }

  /** What an admission records of its intent, and what it reserves. */
  lemma QuotedAdmission(source: Source, intent: Intent, orderBinding: string)
    requires QuoteAdmission(source, intent, orderBinding).Some?
    ensures var a := QuoteAdmission(source, intent, orderBinding).value;
            && a.request == intent.request
            && a.reservationBasis == intent.reservationBasis > 0.0
            && LiabilityOf(a.reservationBasis, a.quote.coreTotal) == Some(a.fullReservationLiability)
            && a.fullReservationLiability >= a.reservationBasis
            && EdgeAdmitted(a.policy, a.netEdge)
  {
  }

  /** A scaled intent asks for the remaining quantity at a proportional basis. */
  lemma ScaledIntentIsProportional(prior: Admission, ask: Ask)
    requires |prior.request.plannedFillLegs| == 1 && ScaledIntent(prior, ask).Some?
    requires 0.0 < ask.remainingQuantity <= OrderQuantity(prior) && prior.reservationBasis > 0.0
    ensures IsProportional(prior, ScaledIntent(prior, ask).value, ask)
  {
    ScaledBasis(prior.reservationBasis, OrderQuantity(prior), ask.remainingQuantity);
  }

  predicate IsProportional(prior: Admission, intent: Intent, ask: Ask) {
    && |prior.request.plannedFillLegs| == 1 == |intent.request.plannedFillLegs|
    && intent.request.plannedFillLegs[0].quantity == ask.remainingQuantity
    && intent.request.requestedAtNs == ask.nowNs
    && 0.0 < ask.remainingQuantity <= OrderQuantity(prior)
    && 0.0 < intent.reservationBasis <= prior.reservationBasis
    && intent.reservationBasis / ask.remainingQuantity == prior.reservationBasis / OrderQuantity(prior)
  }

  /** A matching quote of a proportional intent continues the prior admission. */
  lemma ProportionalQuoteContinues(prior: Admission, intent: Intent, ask: Ask, next: Admission)
    requires IsProportional(prior, intent, ask)
    requires Some(next) == QuoteAdmission(ask.source, intent, prior.orderBinding)
    requires TermsMatch(prior, next)
    ensures Continues(prior, next)
    ensures OrderQuantity(next) == ask.remainingQuantity && next.request.requestedAtNs == ask.nowNs
    ensures next.reservationBasis <= prior.reservationBasis
  {
    QuotedAdmission(ask.source, intent, prior.orderBinding);
  }

  /** One successful refresh continues the prior admission at exactly the remaining quantity. */
  lemma RefreshContinues(prior: Admission, ask: Ask)
    requires RefreshRestingOrder(prior, ask).Refreshed?
    ensures var next := RefreshRestingOrder(prior, ask).admission;
            && Continues(prior, next)
            && OrderQuantity(next) == ask.remainingQuantity <= ask.authorizedQuantityCeiling
            && next.request.requestedAtNs == ask.nowNs
            && next.reservationBasis <= prior.reservationBasis
  {
    RefreshIsScaledQuote(prior, ask);
    ScaledIntentIsProportional(prior, ask);
    ProportionalQuoteContinues(prior, ScaledIntent(prior, ask).value, ask, RefreshRestingOrder(prior, ask).admission);
  }

  lemma ScaledBasis(basis: real, quantity: real, remaining: real)
    requires 0.0 < remaining <= quantity && basis > 0.0
    ensures var scaled := basis * (remaining / quantity);
            0.0 < scaled <= basis && scaled / remaining == basis / quantity
  {
    var ratio, unit := remaining / quantity, basis / quantity;
    assert ratio * quantity == remaining && unit * quantity == basis;
    Scale(ratio, 0.0, quantity);
    Scale(ratio, 1.0, quantity);
    Scale(ratio, 1.0, basis);
    Scale(ratio, 0.0, basis);
    assert unit * remaining == (unit * quantity) * ratio;
    assert (basis * ratio) / remaining == unit;
  }

  /** The fate of a resting order under a series of refreshes: the admission standing, or none once it ended. */
  function RefreshAll(a: Admission, asks: seq<Ask>): Option<Admission>
    decreases |asks|
  {
    if asks == [] then Some(a)
    else
      match RefreshRestingOrder(a, asks[0])
      case NotDue => RefreshAll(a, asks[1..])
      case Refreshed(next) => RefreshAll(next, asks[1..])
      case Complete => None
      case CancelRequired(_) => None
  }

  /**
   Over every chain of refreshes, the admission left standing is the first one or continues it: same terms,
   same reservation basis per unit, never more quantity.
   */
  lemma {:induction false} ChainContinues(a: Admission, asks: seq<Ask>)
    requires RefreshAll(a, asks).Some?
    ensures var last := RefreshAll(a, asks).value; last == a || Continues(a, last)
    decreases |asks|
  {
    if asks != [] {
      var step := RefreshRestingOrder(a, asks[0]);
      if step.Refreshed? {
        RefreshContinues(a, asks[0]);
        ChainContinues(step.admission, asks[1..]);
        var last := RefreshAll(step.admission, asks[1..]).value;
        if last != step.admission {
          TermsMatchTransitive(a, step.admission, last);
        }
      } else {
        ChainContinues(a, asks[1..]);
      }
    }
  }
}
