/**
 What "the same terms" means, spelled out, and what a refresh decides in full (src/bolt_v3_economics_runtime.rs).
 Per-unit amounts are compared through checked division, which has no result when the quantity is zero or the quotient
 is past the range. Two such comparisons agree with each other whatever the amounts, so a match of terms means equal
 amounts per unit exactly as far as the quotients exist.
 */
module RestingMeaning {
  import opened Common
  import opened Decimals
  import opened RealArithmetic
  import opened RestingTerms

  // ---------- Amounts per unit ----------

  function Magnitude(x: real): real {
    if x < 0.0 then 0.0 - x else x
  }

  /** An amount has a quotient by a quantity: the quantity is not zero and does not blow it past the range. */
  predicate HasQuotient(amount: real, quantity: real) {
    quantity != 0.0 && Magnitude(amount) <= MAX * Magnitude(quantity)
  }

  /** Equal per unit where both have a quotient, and otherwise both without one. */
  predicate EqualPerUnit(x: real, y: real, xQuantity: real, yQuantity: real) {
    && (HasQuotient(x, xQuantity) <==> HasQuotient(y, yQuantity))
    && (HasQuotient(x, xQuantity) ==> x * yQuantity == y * xQuantity)
  }

  /** Scaling a range by a positive quantity. */
  lemma RangeScales(ratio: real, bound: real, x: real, quantity: real)
    requires quantity > 0.0 && ratio * quantity == x
    ensures -bound <= ratio <= bound <==> -(bound * quantity) <= x <= bound * quantity
  {
    Scale(ratio, bound, quantity);
    Scale(-bound, ratio, quantity);
    assert -bound * quantity == -(bound * quantity);
  }

  lemma RatioInRange(ratio: real, bound: real, x: real, quantity: real)
    requires quantity != 0.0 && ratio * quantity == x
    ensures -bound <= ratio <= bound <==> Magnitude(x) <= bound * Magnitude(quantity)
  {
    if quantity > 0.0 {
      RangeScales(ratio, bound, x, quantity);
    } else {
      assert ratio * (0.0 - quantity) == 0.0 - x;
      RangeScales(ratio, bound, 0.0 - x, 0.0 - quantity);
    }
  }

  /** A checked quotient exists exactly where described, and is the amount per unit. */
  lemma QuotientMeans(x: Decimal, quantity: Decimal)
    ensures CheckedDiv(x, quantity).Some? <==> HasQuotient(x, quantity)
    ensures CheckedDiv(x, quantity).Some? ==> CheckedDiv(x, quantity).value * quantity == x
  {
    if quantity != 0.0 {
      var ratio := x / quantity;
      assert ratio * quantity == x;
      RatioInRange(ratio, MAX, x, quantity);
    }
  }

  lemma CrossProducts(a: real, b: real, x: real, y: real, xQuantity: real, yQuantity: real)
    requires xQuantity != 0.0 && yQuantity != 0.0 && a * xQuantity == x && b * yQuantity == y
    ensures a == b <==> x * yQuantity == y * xQuantity
  {
    var product := xQuantity * yQuantity;
    assert x * yQuantity == a * product;
    assert y * xQuantity == b * product;
    assert product != 0.0;
    if a * product == b * product {
      assert (a - b) * product == 0.0;
    }
  }

  /** What comparing two checked quotients means. */
  lemma QuotientsMean(x: Decimal, y: Decimal, xQuantity: Decimal, yQuantity: Decimal)
    ensures CheckedDiv(x, xQuantity) == CheckedDiv(y, yQuantity) <==> EqualPerUnit(x, y, xQuantity, yQuantity)
  {
    QuotientMeans(x, xQuantity);
    QuotientMeans(y, yQuantity);
    var p, q := CheckedDiv(x, xQuantity), CheckedDiv(y, yQuantity);
    if p.Some? && q.Some? {
      CrossProducts(p.value, q.value, x, y, xQuantity, yQuantity);
    }
  }

  // ---------- Effects ----------

  /** The quantity an effect of this scope is measured by: the order's, or that of the position the interval names. */
  predicate MeasuredBy(scope: Scope, authority: Authority, orderQuantity: real, quantity: real) {
    if scope.PositionInterval? then
      && authority.position.Some?
      && authority.position.value.positionId == scope.positionId
      && quantity == authority.position.value.quantity
    else quantity == orderQuantity
  }

  /** Two effects of one currency, or of one asset booked alike, that come to the same per unit. */
  ghost predicate SameEffect(x: Effect, y: Effect, xScope: Scope, yScope: Scope, xAuthority: Authority,
                             yAuthority: Authority, xOrder: real, yOrder: real)
  {
    && (x.CurrencyAmount? <==> y.CurrencyAmount?)
    && (x.CurrencyAmount? ==> x.currencyId == y.currencyId)
    && (x.AssetQuantity? ==> x.assetId == y.assetId && x.application == y.application)
    && exists p: real, q: real ::
         && MeasuredBy(xScope, xAuthority, xOrder, p)
         && MeasuredBy(yScope, yAuthority, yOrder, q)
         && EqualPerUnit(x.amount, y.amount, p, q)
  }

  lemma EffectsMean(x: Effect, y: Effect, xScope: Scope, yScope: Scope, xAuthority: Authority, yAuthority: Authority,
                    xOrder: Decimal, yOrder: Decimal)
    ensures EffectsMatch(x, y, ComparisonBasis(xScope, xAuthority, xOrder), ComparisonBasis(yScope, yAuthority, yOrder))
       <==> SameEffect(x, y, xScope, yScope, xAuthority, yAuthority, xOrder, yOrder)
  {
    var p, q := ComparisonBasis(xScope, xAuthority, xOrder), ComparisonBasis(yScope, yAuthority, yOrder);
    assert forall v: real :: MeasuredBy(xScope, xAuthority, xOrder, v) <==> p == Some(v);
    assert forall v: real :: MeasuredBy(yScope, yAuthority, yOrder, v) <==> q == Some(v);
    if p.Some? && q.Some? {
      assert MeasuredBy(xScope, xAuthority, xOrder, p.value) && MeasuredBy(yScope, yAuthority, yOrder, q.value);
      QuotientsMean(x.amount, y.amount, p.value, q.value);
    }
  }

  /** Decisions and actions by name, intervals by position and length; a reversed interval is like any other. */
  predicate SameScope(x: Scope, y: Scope) {
    match x
    case Decision(id) => y == Decision(id)
    case Action(id) => y == Action(id)
    case PositionInterval(id, start, end) =>
      && y.PositionInterval? && y.positionId == id
      && (start <= end <==> y.startsAtNs <= y.endsAtNs)
      && (start <= end ==> end - start == y.endsAtNs - y.startsAtNs)
  }

  // ---------- Components ----------

  /** Two components that agree in everything named and come to the same per unit. */
  ghost predicate SameComponent(x: Component, y: Component, xAuthority: Authority, yAuthority: Authority, xOrder: real,
                                yOrder: real)
  {
    && x.componentId == y.componentId && x.economicClass == y.economicClass && x.kind == y.kind
    && SameScope(x.scope, y.scope)
    && x.treatment == y.treatment && x.formulaId == y.formulaId && x.source == y.source && x.factors == y.factors
    && (x.pointEstimate.NonZero? <==> y.pointEstimate.NonZero?)
    && (x.pointEstimate.NonZero? ==>
          SameEffect(x.pointEstimate.effect, y.pointEstimate.effect, x.scope, y.scope, xAuthority, yAuthority, xOrder,
                     yOrder))
    && (x.pointEstimate.ProvenZero? ==> x.pointEstimate.factorId == y.pointEstimate.factorId)
    && (x.debitRiskBound.Some? <==> y.debitRiskBound.Some?)
    && (x.debitRiskBound.Some? ==>
          SameEffect(x.debitRiskBound.value, y.debitRiskBound.value, x.scope, y.scope, xAuthority, yAuthority, xOrder,
                     yOrder))
  }

  lemma ComponentsMean(x: Component, y: Component, xAuthority: Authority, yAuthority: Authority, xOrder: Decimal,
                       yOrder: Decimal)
    ensures ComponentsMatch(x, y, xAuthority, yAuthority, xOrder, yOrder)
       <==> SameComponent(x, y, xAuthority, yAuthority, xOrder, yOrder)
  {
    if x.pointEstimate.NonZero? && y.pointEstimate.NonZero? {
      EffectsMean(x.pointEstimate.effect, y.pointEstimate.effect, x.scope, y.scope, xAuthority, yAuthority, xOrder, yOrder);
    }
    if x.debitRiskBound.Some? && y.debitRiskBound.Some? {
      EffectsMean(x.debitRiskBound.value, y.debitRiskBound.value, x.scope, y.scope, xAuthority, yAuthority, xOrder, yOrder);
    }
  }

  /** The components compared are all but the forecasts, in order. */
  lemma {:induction false} CoreSplits(a: seq<Component>, b: seq<Component>)
    ensures CoreComponents(a + b) == CoreComponents(a) + CoreComponents(b)
    decreases |a|
  {
    if a == [] {
      assert a + b == b;
    } else {
      assert (a + b)[1..] == a[1..] + b && (a + b)[0] == a[0];
      CoreSplits(a[1..], b);
      var head := if a[0].treatment.ForecastOnly? then [] else [a[0]];
      assert head + (CoreComponents(a[1..]) + CoreComponents(b)) == (head + CoreComponents(a[1..])) + CoreComponents(b);
    }
  }

  lemma CoreOfOne(c: Component)
    ensures CoreComponents([c]) == if c.treatment == ForecastOnly then [] else [c]
  {
    assert [c][1..] == [];
  }

  // ---------- Admissions ----------

  /** The net edge is gross value plus core total, its ratio to the basis is as given, and the liability covers the debit. */
  predicate FiguresFollow(a: Admission) {
    var basis := a.netEdge.basis.normalizedAmount;
    && a.netEdge.coreNetEdge == a.netEdge.grossExpectedValue + a.quote.coreTotal
    && basis != 0.0
    && a.netEdge.coreEdgeRatio * basis == a.netEdge.coreNetEdge
    && (a.quote.coreTotal >= 0.0 ==> a.fullReservationLiability == a.reservationBasis)
    && (a.quote.coreTotal < 0.0 ==> a.fullReservationLiability == a.reservationBasis - a.quote.coreTotal)
  }

  lemma FiguresMean(a: Admission)
    ensures DerivedCoreTermsValid(a) <==> FiguresFollow(a)
  {
    var basis, edge, ratio := a.netEdge.basis.normalizedAmount, a.netEdge.coreNetEdge, a.netEdge.coreEdgeRatio;
    if basis != 0.0 {
      RatioIs(edge, basis, ratio);
    }
  }

  lemma RatioIs(edge: real, basis: real, ratio: real)
    requires basis != 0.0
    ensures edge / basis == ratio <==> ratio * basis == edge
  {
    assert (edge / basis) * basis == edge;
    if ratio * basis == edge {
      assert (ratio - edge / basis) * basis == 0.0;
    }
  }

  /** The same terms, in full. */
  ghost predicate SameTerms(a: Admission, b: Admission) {
    && |a.request.plannedFillLegs| == 1 && |b.request.plannedFillLegs| == 1
    && var x, y := a.request.plannedFillLegs[0], b.request.plannedFillLegs[0];
       var c, d := CoreComponents(a.quote.components), CoreComponents(b.quote.components);
       && x.price == y.price
       && a.request.authority == b.request.authority
       && a.orderBinding == b.orderBinding
       && a.policy == b.policy
       && a.quote.reportingCurrency == b.quote.reportingCurrency
       && a.netEdge.basis.policyId == b.netEdge.basis.policyId
       && a.netEdge.basis.resolverId == b.netEdge.basis.resolverId
       && a.netEdge.basis.productMetadataSource == b.netEdge.basis.productMetadataSource
       && a.netEdge.basis.policyVersion == b.netEdge.basis.policyVersion
       && a.netEdge.basis.scope == b.netEdge.basis.scope
       && EqualPerUnit(a.netEdge.grossExpectedValue, b.netEdge.grossExpectedValue, x.quantity, y.quantity)
       && EqualPerUnit(a.reservationBasis, b.reservationBasis, x.quantity, y.quantity)
       && EqualPerUnit(a.netEdge.basis.normalizedAmount, b.netEdge.basis.normalizedAmount, x.quantity, y.quantity)
       && FiguresFollow(a) && FiguresFollow(b)
       && |c| == |d|
       && forall i :: 0 <= i < |c| ==>
            SameComponent(c[i], d[i], a.request.authority, b.request.authority, x.quantity, y.quantity)
  }

  lemma CoreMeans(a: Admission, b: Admission, xOrder: Decimal, yOrder: Decimal)
    ensures var c, d := CoreComponents(a.quote.components), CoreComponents(b.quote.components);
            CoreMatch(a, b, xOrder, yOrder)
            <==> |c| == |d| && forall i :: 0 <= i < |c| ==>
                   SameComponent(c[i], d[i], a.request.authority, b.request.authority, xOrder, yOrder)
  {
    var c, d := CoreComponents(a.quote.components), CoreComponents(b.quote.components);
    if |c| == |d| {
      forall i | 0 <= i < |c|
        ensures ComponentsMatch(c[i], d[i], a.request.authority, b.request.authority, xOrder, yOrder)
           <==> SameComponent(c[i], d[i], a.request.authority, b.request.authority, xOrder, yOrder)
      {
        ComponentsMean(c[i], d[i], a.request.authority, b.request.authority, xOrder, yOrder);
      }
    }
  }

  /** The relation the code computes is the same terms. */
  lemma TermsMatchMeans(a: Admission, b: Admission)
    ensures TermsMatch(a, b) <==> SameTerms(a, b)
  {
    if |a.request.plannedFillLegs| == 1 && |b.request.plannedFillLegs| == 1 {
      var x, y := a.request.plannedFillLegs[0].quantity, b.request.plannedFillLegs[0].quantity;
      CoreMeans(a, b, x, y);
      QuotientsMean(a.netEdge.grossExpectedValue, b.netEdge.grossExpectedValue, x, y);
      QuotientsMean(a.reservationBasis, b.reservationBasis, x, y);
      QuotientsMean(a.netEdge.basis.normalizedAmount, b.netEdge.basis.normalizedAmount, x, y);
      FiguresMean(a);
      FiguresMean(b);
    }
  }

  // ---------- Where a match of quotients falls short ----------

  /** Measured by a quantity of zero, any two amounts match. */
  lemma ZeroQuantityMatchesAnything(x: Decimal, y: Decimal)
    ensures CheckedDiv(x, 0.0) == CheckedDiv(y, 0.0)
  {
  }

  /** So the interval effects of a position of size zero may change at will: a debit of one matches a debit of two. */
  lemma FlatPositionExample(c: Component, authority: Authority, orderQuantity: Decimal)
    requires authority.position == Some(PositionContext("p", true, 0.0, 0)) && c.scope == PositionInterval("p", 0, 1)
    requires c.debitRiskBound.None?
    ensures var one := c.(pointEstimate := NonZero(CurrencyAmount(-1.0, "usd")));
            var two := c.(pointEstimate := NonZero(CurrencyAmount(-2.0, "usd")));
            ComponentsMatch(one, two, authority, authority, orderQuantity, orderQuantity)
  {
  }

  /** Measured by two quantities other than zero, every match is equal per unit. */
  ghost predicate MatchesAreEqual(p: Decimal, q: Decimal) {
    forall x: Decimal, y: Decimal {:trigger CheckedDiv(x, p), CheckedDiv(y, q)} ::
      CheckedDiv(x, p) == CheckedDiv(y, q) ==> x * q == y * p
  }

  lemma LargeQuantityHasQuotients(x: Decimal, p: Decimal)
    requires Magnitude(p) >= 1.0
    ensures HasQuotient(x, p)
  {
    var m := Magnitude(p);
    assert Representable(x);
    ProductSign(MAX, m - 1.0);
    assert MAX * (m - 1.0) == MAX * m - MAX;
  }

  /** An amount of the range that a quantity below one gives no quotient, and it is not `other`. */
  lemma SmallQuantityLacksQuotient(p: Decimal, other: real) returns (x: Decimal)
    requires p != 0.0 && Magnitude(p) < 1.0
    ensures !HasQuotient(x, p) && x != other
  {
    var m := Magnitude(p);
    var edge := MAX * m;
    PartOfWhole(MAX, m);
    ProductZero(MAX, 1.0 - m);
    assert MAX * (1.0 - m) == MAX - edge;
    x := if MAX == other then (edge + MAX) / 2.0 else MAX;
  }

  lemma LargeQuantitiesAreSound(p: Decimal, q: Decimal)
    requires p != 0.0 && q != 0.0 && (Magnitude(p) >= 1.0 || Magnitude(q) >= 1.0)
    ensures MatchesAreEqual(p, q)
  {
    forall x: Decimal, y: Decimal | CheckedDiv(x, p) == CheckedDiv(y, q) ensures x * q == y * p {
      QuotientsMean(x, y, p, q);
      if Magnitude(p) >= 1.0 {
        LargeQuantityHasQuotients(x, p);
      } else {
        LargeQuantityHasQuotients(y, q);
      }
    }
  }

  lemma SmallQuantitiesAreNot(p: Decimal, q: Decimal)
    requires p != 0.0 && q != 0.0 && Magnitude(p) < 1.0 && Magnitude(q) < 1.0
    ensures !MatchesAreEqual(p, q)
  {
    var y := SmallQuantityLacksQuotient(q, 0.0);
    var same := SolveFor(y, p, q);
    var x := SmallQuantityLacksQuotient(p, same);
    NoQuotientsMatch(x, y, p, q);
    ProductsDiffer(x, same, y, p, q);
  }

  lemma SolveFor(y: real, p: real, q: real) returns (same: real)
    requires q != 0.0
    ensures same * q == y * p
  {
    same := (y * p) / q;
  }

  lemma NoQuotientsMatch(x: Decimal, y: Decimal, p: Decimal, q: Decimal)
    requires !HasQuotient(x, p) && !HasQuotient(y, q)
    ensures CheckedDiv(x, p) == CheckedDiv(y, q)
  {
    QuotientMeans(x, p);
    QuotientMeans(y, q);
  }

  lemma ProductsDiffer(x: real, same: real, y: real, p: real, q: real)
    requires q != 0.0 && x != same && same * q == y * p
    ensures x * q != y * p
  {
    if x * q == same * q {
      Cancel(x, same, q);
    }
  }

  /** Exactly when: one of the quantities is at least one in size, so that its quotients all exist. */
  lemma MatchesAreEqualExactly(p: Decimal, q: Decimal)
    requires p != 0.0 && q != 0.0
    ensures MatchesAreEqual(p, q) <==> Magnitude(p) >= 1.0 || Magnitude(q) >= 1.0
  {
    if Magnitude(p) >= 1.0 || Magnitude(q) >= 1.0 {
      LargeQuantitiesAreSound(p, q);
    } else {
      SmallQuantitiesAreNot(p, q);
    }
  }
}
