/**
 The two executable-cost sweeps: fill an exact notional, or fill up to a quantity, over the levels inside
 a depth limit (src/bolt_v3_executable_cost.rs). Prices, sizes and notionals are exact reals.
 */
module ExecutableCost {
  import opened Common
  import opened RealArithmetic
  import opened BookLevels
  import opened BookSizing

  datatype BlockReason = MissingOrderBook | InsufficientDepth | InvalidCost | UnsupportedOrderShape

  datatype Leg = Leg(price: real, quantity: real)

  datatype ExactSizeVwap = ExactSizeVwap(
    vwapPrice: real,
    vwapQuantity: real,
    limitPrice: real,
    exactSizeFilled: bool,
    fillLegs: seq<Leg>,
    candidateLevels: seq<Level>)

  datatype BookQuote = BookQuote(
    bestBid: Option<real>,
    bestAsk: Option<real>,
    bidLevels: map<real, real>,
    askLevels: map<real, real>)

  /** The slack the source grants to accumulated rounding: 10000 machine epsilons of the reference. */
  function Tolerance(reference: real): real {
    (if reference < 0.0 then -reference else reference) * 10000.0 / 4503599627370496.0
  }

  /** Ten thousand epsilons of 2^-52, whatever the sign. */
  lemma ToleranceIs(reference: real)
    ensures Tolerance(reference) >= 0.0 && Tolerance(reference) == Tolerance(-reference)
    ensures reference >= 0.0 ==> 4503599627370496.0 * Tolerance(reference) == 10000.0 * reference
  {
  }

  // ---------- What a sweep may reach ----------

  predicate Inside(level: Level, allowed: real, isBuy: bool) {
    if isBuy then level.price <= allowed else level.price >= allowed
  }

  /** How many leading levels lie inside the limit. */
  function InsideCount(levels: seq<Level>, allowed: real, isBuy: bool): (n: nat)
    ensures n <= |levels|
    ensures forall i :: 0 <= i < n ==> Inside(levels[i], allowed, isBuy)
    ensures n < |levels| ==> !Inside(levels[n], allowed, isBuy)
  {
    if levels == [] || !Inside(levels[0], allowed, isBuy) then 0
    else 1 + InsideCount(levels[1..], allowed, isBuy)
  }

  /** In sweep order, the levels inside the limit are exactly the leading ones. */
  lemma InsideIsPrefix(levels: seq<Level>, allowed: real, isBuy: bool, i: nat)
    requires InSweepOrder(levels, isBuy) && i < |levels|
    ensures (if isBuy then levels[i].price <= allowed else levels[i].price >= allowed)
       <==> i < InsideCount(levels, allowed, isBuy)
  {
  }

  /** Total notional and quantity of the first `n` levels. */
  function DepthNotional(levels: seq<Level>, n: nat): real {
    Notional(levels, Greedy(levels, n, 0.0))
  }

  function DepthQuantity(levels: seq<Level>, n: nat): real {
    Quantity(Greedy(levels, n, 0.0))
  }

  // ---------- Legs ----------

  function FullLegs(levels: seq<Level>, k: nat): (legs: seq<Leg>)
    requires k <= |levels|
    ensures |legs| == k
  {
    seq(k, i requires 0 <= i < k => Leg(levels[i].price, levels[i].size))
  }

  function LegsQuantity(legs: seq<Leg>): real {
    if legs == [] then 0.0 else legs[0].quantity + LegsQuantity(legs[1..])
  }

  function LegsNotional(legs: seq<Leg>): real {
    if legs == [] then 0.0 else legs[0].price * legs[0].quantity + LegsNotional(legs[1..])
  }

  /** Legs that fill a book prefix: every level but the last in full, the last in full or in part. */
  predicate PrefixFill(levels: seq<Level>, legs: seq<Leg>) {
    && 0 < |legs| <= |levels|
    && var k := |legs| - 1;
       && legs == FullLegs(levels, k) + [Leg(levels[k].price, legs[k].quantity)]
       && 0.0 < legs[k].quantity <= levels[k].size
       && forall i :: 0 <= i <= k ==> Usable(levels[i])
  }

  /** Such legs are the greedy allocation that ends where they end. */
  lemma {:induction false} LegsAreGreedy(levels: seq<Level>, k: nat, x: real)
    requires k < |levels| && forall i :: 0 <= i < k ==> Usable(levels[i])
    ensures var legs := FullLegs(levels, k) + [Leg(levels[k].price, x)];
            && LegsQuantity(legs) == Quantity(Greedy(levels, k, x))
            && LegsNotional(legs) == Notional(levels, Greedy(levels, k, x))
  {
    var legs := FullLegs(levels, k) + [Leg(levels[k].price, x)];
    var g := Greedy(levels, k, x);
    if k == 0 {
      assert legs[1..] == [];
      EmptyTotals(levels[1..], g[1..]);
    } else {
      assert legs[1..] == FullLegs(levels[1..], k - 1) + [Leg(levels[1..][k - 1].price, x)];
      assert g[1..] == Greedy(levels[1..], k - 1, x);
      LegsAreGreedy(levels[1..], k - 1, x);
    }
  }

  // ---------- Optimality of a prefix fill ----------

  /**
   A fill no allocation improves on. Buying: nothing costing at most as much gets more, and nothing getting
   at least as much costs less. Selling: nothing raising at least as much gives up less, and nothing giving
   up at most as much raises more.
   */
  ghost predicate Unbeaten(levels: seq<Level>, isBuy: bool, quantity: real, notional: real) {
    forall q :: Allocation(levels, q) ==>
      if isBuy then
        && (Notional(levels, q) <= notional ==> Quantity(q) <= quantity)
        && (Quantity(q) >= quantity ==> Notional(levels, q) >= notional)
      else
        && (Notional(levels, q) >= notional ==> Quantity(q) >= quantity)
        && (Quantity(q) <= quantity ==> Notional(levels, q) <= notional)
  }

  lemma PivotForcesOrder(price: real, quantity: real, notional: real, q: real, n: real, isBuy: bool)
    requires price > 0.0
    requires if isBuy then NetGain(price, q, n, quantity, notional) <= 0.0
             else NetGain(price, q, n, quantity, notional) >= 0.0
    ensures if isBuy then (n <= notional ==> q <= quantity) && (q >= quantity ==> n >= notional)
            else (n >= notional ==> q >= quantity) && (q <= quantity ==> n <= notional)
  {
    var extra := q - quantity;
    assert NetGain(price, q, n, quantity, notional) == price * extra - (n - notional);
    ProductSign(price, extra);
    assert extra > 0.0 ==> price * extra > 0.0;
    assert extra < 0.0 ==> price * extra < 0.0;
  }

  lemma PrefixFillIsUnbeaten(levels: seq<Level>, k: nat, x: real, isBuy: bool)
    requires InSweepOrder(levels, isBuy) && k < |levels| && Usable(levels[k])
    ensures Unbeaten(levels, isBuy, Quantity(Greedy(levels, k, x)), Notional(levels, Greedy(levels, k, x)))
  {
    var g := Greedy(levels, k, x);
    var quantity, notional := Quantity(g), Notional(levels, g);
    forall q | Allocation(levels, q)
      ensures if isBuy then
                && (Notional(levels, q) <= notional ==> Quantity(q) <= quantity)
                && (Quantity(q) >= quantity ==> Notional(levels, q) >= notional)
              else
                && (Notional(levels, q) >= notional ==> Quantity(q) >= quantity)
                && (Quantity(q) <= quantity ==> Notional(levels, q) <= notional)
    {
      Exchange(levels, q, k, x, isBuy);
      PivotForcesOrder(levels[k].price, quantity, notional, Quantity(q), Notional(levels, q), isBuy);
    }
  }

  /** The average price of legs all inside the limit is inside the limit, so the final depth check cannot fail. */
  lemma {:induction false} AverageInside(legs: seq<Leg>, allowed: real, isBuy: bool)
    requires forall i :: 0 <= i < |legs| ==> legs[i].quantity >= 0.0
    requires forall i :: 0 <= i < |legs| ==> if isBuy then legs[i].price <= allowed else legs[i].price >= allowed
    ensures WithinLimit(LegsNotional(legs), LegsQuantity(legs), allowed, isBuy)
  {
    if legs != [] {
      AverageInside(legs[1..], allowed, isBuy);
      ProductSign(legs[0].quantity, allowed - legs[0].price);
      var rest := LegsQuantity(legs[1..]);
      assert legs[0].quantity * (allowed - legs[0].price)
          == allowed * legs[0].quantity - legs[0].price * legs[0].quantity;
      assert allowed * (legs[0].quantity + rest) == allowed * legs[0].quantity + allowed * rest;
    }
  }

  lemma {:induction false} MonotoneTotals(levels: seq<Level>, q: seq<real>, g: seq<real>)
    requires Allocation(levels, q) && Allocation(levels, g)
    requires forall i :: 0 <= i < |q| ==> q[i] <= g[i]
    ensures Quantity(q) <= Quantity(g) && Notional(levels, q) <= Notional(levels, g)
  {
    if q != [] {
      assert Allocation(levels[1..], q[1..]) && Allocation(levels[1..], g[1..]);
      MonotoneTotals(levels[1..], q[1..], g[1..]);
      var p, a, b := levels[0].price, q[0], g[0];
      assert b > a ==> p > 0.0;
      ProductSign(b - a, p);
      assert p * b - p * a == (b - a) * p;
    }
  }

  /** A greedy allocation ending inside the first `n` levels takes no more than their depth. */
  lemma WithinDepth(levels: seq<Level>, k: nat, x: real, n: nat)
    requires k < n <= |levels| && 0.0 <= x <= UsableSize(levels[k])
    ensures Quantity(Greedy(levels, k, x)) <= DepthQuantity(levels, n)
    ensures Notional(levels, Greedy(levels, k, x)) <= DepthNotional(levels, n)
  {
    GreedyIsAllocation(levels, k, x);
    GreedyIsAllocation(levels, n, 0.0);
    MonotoneTotals(levels, Greedy(levels, k, x), Greedy(levels, n, 0.0));
  }

  lemma DepthGrows(levels: seq<Level>, i: nat, n: nat)
    requires i <= n <= |levels|
    ensures 0.0 <= DepthQuantity(levels, i) <= DepthQuantity(levels, n)
    ensures 0.0 <= DepthNotional(levels, i) <= DepthNotional(levels, n)
  {
    GreedyIsAllocation(levels, i, 0.0);
    GreedyIsAllocation(levels, n, 0.0);
    NonNegativeTotals(levels, Greedy(levels, i, 0.0));
    MonotoneTotals(levels, Greedy(levels, i, 0.0), Greedy(levels, n, 0.0));
  }

  // ---------- Common shape of both sweeps ----------

  predicate IsAverage(price: real, quantity: real, notional: real) {
    price * quantity == notional
  }

  /** What a priced fill always says about itself. */
  ghost predicate FillReport(levels: seq<Level>, allowed: real, isBuy: bool, v: ExactSizeVwap) {
    && PrefixFill(levels, v.fillLegs)
    && v.candidateLevels == levels[..|v.fillLegs|]
    && |v.fillLegs| <= InsideCount(levels, allowed, isBuy)
    && v.vwapQuantity == LegsQuantity(v.fillLegs) > 0.0
    && IsAverage(v.vwapPrice, v.vwapQuantity, LegsNotional(v.fillLegs))
    && v.limitPrice == v.fillLegs[|v.fillLegs| - 1].price
    && Inside(Level(v.vwapPrice, v.vwapQuantity), allowed, isBuy)
    && Inside(Level(v.limitPrice, v.vwapQuantity), allowed, isBuy)
    && Unbeaten(levels, isBuy, LegsQuantity(v.fillLegs), LegsNotional(v.fillLegs))
  }

  /** The running totals of a sweep. */
  datatype Totals = Totals(quantity: real, notional: real, legs: seq<Leg>, candidates: seq<Level>)

  /** A sweep that took the first `i` levels, all usable and inside the limit, in full. */
  predicate Swept(levels: seq<Level>, allowed: real, isBuy: bool, i: nat, t: Totals) {
    && i <= InsideCount(levels, allowed, isBuy)
    && (forall j :: 0 <= j < i ==> Usable(levels[j]))
    && t.quantity == DepthQuantity(levels, i) && t.notional == DepthNotional(levels, i)
    && t.legs == FullLegs(levels, i) && t.candidates == levels[..i]
  }

  /** A sweep that stopped with `x` from level `k`. */
  predicate Stopped(levels: seq<Level>, allowed: real, isBuy: bool, k: nat, x: real, t: Totals) {
    && k < InsideCount(levels, allowed, isBuy)
    && (forall j :: 0 <= j <= k ==> Usable(levels[j]))
    && 0.0 < x <= levels[k].size
    && t.quantity == Quantity(Greedy(levels, k, x)) && t.notional == Notional(levels, Greedy(levels, k, x))
    && t.legs == FullLegs(levels, k) + [Leg(levels[k].price, x)] && t.candidates == levels[..k + 1]
  }

  function Take(t: Totals, level: Level, quantity: real, notional: real): Totals {
    Totals(t.quantity + quantity, t.notional + notional, t.legs + [Leg(level.price, quantity)], t.candidates + [level])
  }

  lemma NothingSwept(levels: seq<Level>, allowed: real, isBuy: bool)
    ensures Swept(levels, allowed, isBuy, 0, Totals(0.0, 0.0, [], []))
  {
    EmptyTotals(levels, Greedy(levels, 0, 0.0));
  }

  lemma TakeStops(levels: seq<Level>, allowed: real, isBuy: bool, i: nat, t: Totals, x: real, notional: real)
    requires Swept(levels, allowed, isBuy, i, t) && i < InsideCount(levels, allowed, isBuy) && Usable(levels[i])
    requires 0.0 < x <= levels[i].size && notional == levels[i].price * x
    ensures Stopped(levels, allowed, isBuy, i, x, Take(t, levels[i], x, notional))
  {
    GreedyTotals(levels, i, x);
  }

  lemma StoppedWhole(levels: seq<Level>, allowed: real, isBuy: bool, k: nat, t: Totals)
    requires k < |levels|
    ensures Stopped(levels, allowed, isBuy, k, levels[k].size, t) ==> Swept(levels, allowed, isBuy, k + 1, t)
    ensures Swept(levels, allowed, isBuy, k + 1, t) ==> Stopped(levels, allowed, isBuy, k, levels[k].size, t)
  {
    if Usable(levels[k]) {
      GreedyAdvance(levels, k);
      assert FullLegs(levels, k + 1) == FullLegs(levels, k) + [Leg(levels[k].price, levels[k].size)];
    }
  }

  method AveragePrice(notional: real, quantity: real, ghost allowed: real, ghost isBuy: bool) returns (vwap: real)
    requires quantity > 0.0 && WithinLimit(notional, quantity, allowed, isBuy)
    ensures IsAverage(vwap, quantity, notional)
    ensures Inside(Level(vwap, quantity), allowed, isBuy)
  {
    vwap := notional / quantity;
    assert vwap * quantity == notional;
    Scale(vwap, allowed, quantity);
  }

  lemma StoppedIsInside(levels: seq<Level>, allowed: real, isBuy: bool, k: nat, x: real, t: Totals)
    requires Stopped(levels, allowed, isBuy, k, x, t)
    ensures t.quantity > 0.0 && WithinLimit(t.notional, t.quantity, allowed, isBuy)
    ensures LegsQuantity(t.legs) == t.quantity && LegsNotional(t.legs) == t.notional
  {
    LegsAreGreedy(levels, k, x);
    assert forall i :: 0 <= i <= k ==> Inside(levels[i], allowed, isBuy) && Usable(levels[i]);
    AverageInside(t.legs, allowed, isBuy);
    DepthGrows(levels, k, k);
    GreedyTotals(levels, k, x);
  }

  /** Assemble the report of a stopped sweep. The source's final depth check is passed by every such sweep. */
  method ReportFill(levels: seq<Level>, allowed: real, isBuy: bool, ghost k: nat, ghost x: real, t: Totals,
                    exactSizeFilled: bool)
    returns (v: ExactSizeVwap)
    requires InSweepOrder(levels, isBuy)
    requires Stopped(levels, allowed, isBuy, k, x, t)
    ensures FillReport(levels, allowed, isBuy, v)
    ensures v.fillLegs == t.legs && v.vwapQuantity == t.quantity && LegsNotional(t.legs) == t.notional
    ensures v.exactSizeFilled == exactSizeFilled
  {
    StoppedIsInside(levels, allowed, isBuy, k, x, t);
    PrefixFillIsUnbeaten(levels, k, x, isBuy);
    assert Inside(levels[k], allowed, isBuy);
    var vwap := AveragePrice(t.notional, t.quantity, allowed, isBuy);
    v := ExactSizeVwap(vwap, t.quantity, t.legs[|t.legs| - 1].price, exactSizeFilled, t.legs, t.candidates);
  }

  // ---------- Exact notional ----------

  /** A level inside the limit that cannot be priced and is reached before the notional is filled. */
  predicate ReachesBadLevel(levels: seq<Level>, allowed: real, isBuy: bool, requested: real) {
    exists j :: 0 <= j < InsideCount(levels, allowed, isBuy) && !Usable(levels[j])
             && DepthNotional(levels, j) < requested
  }

  /** Take from one level towards a remaining notional. */
  method ConsumeExactNotionalLevel(price: real, size: real, remaining: real) returns (notional: real, quantity: real)
    requires price > 0.0 && size > 0.0 && remaining > 0.0
    ensures 0.0 < quantity <= size && notional == price * quantity
    ensures 0.0 < notional <= remaining
    ensures quantity == size || notional == remaining
  {
    var levelNotional := price * size;
    assert levelNotional > 0.0;
    notional := if remaining <= levelNotional then remaining else levelNotional;
    quantity := notional / price;
    assert quantity * price == notional;
    Scale(quantity, size, price);
    Scale(size, quantity, price);
    Scale(quantity, 0.0, price);
  }

  /** How a sweep ended: at an unpriceable level, filled inside level `k`, or out of levels inside the limit. */
  datatype Ending = BadLevel | Filled(k: nat, x: real) | RanOut

  method RunExactNotional(levels: seq<Level>, allowed: real, isBuy: bool, requested: real)
    returns (ending: Ending, totals: Totals)
    requires InSweepOrder(levels, isBuy) && requested > 0.0
    ensures match ending
            case BadLevel => ReachesBadLevel(levels, allowed, isBuy, requested)
            case Filled(k, x) => Stopped(levels, allowed, isBuy, k, x, totals) && totals.notional == requested
            case RanOut =>
              && Swept(levels, allowed, isBuy, InsideCount(levels, allowed, isBuy), totals)
              && totals.notional < requested
  {
    var remaining := requested;
    totals := Totals(0.0, 0.0, [], []);
    NothingSwept(levels, allowed, isBuy);
    var i := 0;
    while i < |levels| && Inside(levels[i], allowed, isBuy)
      invariant Swept(levels, allowed, isBuy, i, totals)
      invariant remaining == requested - totals.notional > 0.0
    {
      InsideIsPrefix(levels, allowed, isBuy, i);
      var level := levels[i];
      if !Usable(level) {
        assert DepthNotional(levels, i) < requested;
        return BadLevel, totals;
      }
      var takeNotional, takeQuantity := ConsumeExactNotionalLevel(level.price, level.size, remaining);
      TakeStops(levels, allowed, isBuy, i, totals, takeQuantity, takeNotional);
      totals, remaining := Take(totals, level, takeQuantity, takeNotional), remaining - takeNotional;
      if remaining <= 0.0 {
        return Filled(i, takeQuantity), totals;
      }
      StoppedWhole(levels, allowed, isBuy, i, totals);
      i := i + 1;
    }
    SweptEverything(levels, allowed, isBuy, i, totals);
    return RanOut, totals;
  }

  /**
   Fill a notional exactly. Success means a prefix of the book filled in full but perhaps for its last
   level, whose notional misses the request by at most the tolerance and which no allocation beats; it is
   reached exactly when no unpriceable level stands in the way and the depth inside the limit suffices.
   */
  method SweepExactNotional(levels: seq<Level>, allowed: real, isBuy: bool, requested: real)
    returns (r: Result<ExactSizeVwap, BlockReason>)
    requires InSweepOrder(levels, isBuy) && requested > 0.0
    ensures r.Ok? ==>
              && FillReport(levels, allowed, isBuy, r.value)
              && r.value.exactSizeFilled
              && 0.0 <= requested - LegsNotional(r.value.fillLegs) <= Tolerance(requested)
    ensures r == Err(InvalidCost) <==> ReachesBadLevel(levels, allowed, isBuy, requested)
    ensures r == Err(InsufficientDepth)
       <==> !ReachesBadLevel(levels, allowed, isBuy, requested)
            && requested - DepthNotional(levels, InsideCount(levels, allowed, isBuy)) > Tolerance(requested)
    ensures r.Ok? || r.error == InvalidCost || r.error == InsufficientDepth
  {
    var ending, totals := RunExactNotional(levels, allowed, isBuy, requested);
    match ending {
      case BadLevel =>
        r := Err(InvalidCost);
      case Filled(k, x) =>
        NoBadLevelOnceFilled(levels, allowed, isBuy, requested, k, x);
        WithinDepth(levels, k, x, InsideCount(levels, allowed, isBuy));
        var v := ReportFill(levels, allowed, isBuy, k, x, totals, true);
        r := Ok(v);
      case RanOut =>
        ghost var n := InsideCount(levels, allowed, isBuy);
        SweptEverything(levels, allowed, isBuy, n, totals);
        if requested - totals.notional > Tolerance(requested) {
          return Err(InsufficientDepth);
        }
        // The tolerance is a small fraction of the request, so something was filled.
        StoppedWhole(levels, allowed, isBuy, n - 1, totals);
        var v := ReportFill(levels, allowed, isBuy, n - 1, levels[n - 1].size, totals, true);
        r := Ok(v);
    }
  }

  /** A sweep that ran out of levels inside the limit has taken them all, and met no unpriceable one. */
  lemma SweptEverything(levels: seq<Level>, allowed: real, isBuy: bool, i: nat, t: Totals)
    requires InSweepOrder(levels, isBuy) && Swept(levels, allowed, isBuy, i, t)
    requires i < |levels| ==> !Inside(levels[i], allowed, isBuy)
    ensures i == InsideCount(levels, allowed, isBuy)
    ensures i == 0 ==> t.quantity == 0.0 && t.notional == 0.0
    ensures forall requested :: !ReachesBadLevel(levels, allowed, isBuy, requested)
    ensures forall requested :: !ReachesBadLevelByQuantity(levels, allowed, isBuy, requested)
  {
    if i < |levels| {
      InsideIsPrefix(levels, allowed, isBuy, i);
    }
    if i == 0 {
      EmptyTotals(levels, Greedy(levels, 0, 0.0));
    }
  }

  /** When usable levels up to `k` pay for the whole request, no unpriceable level is reached. */
  lemma NoBadLevelOnceFilled(levels: seq<Level>, allowed: real, isBuy: bool, requested: real, k: nat, x: real)
    requires k < |levels| && forall j :: 0 <= j <= k ==> Usable(levels[j])
    requires 0.0 <= x <= levels[k].size
    requires Notional(levels, Greedy(levels, k, x)) >= requested
    ensures !ReachesBadLevel(levels, allowed, isBuy, requested)
  {
    forall j | 0 <= j < InsideCount(levels, allowed, isBuy) && !Usable(levels[j])
      ensures DepthNotional(levels, j) >= requested
    {
      WithinDepth(levels, k, x, j);
    }
  }

  // ---------- Bounded quantity ----------

  predicate ReachesBadLevelByQuantity(levels: seq<Level>, allowed: real, isBuy: bool, requested: real) {
    exists j :: 0 <= j < InsideCount(levels, allowed, isBuy) && !Usable(levels[j])
             && DepthQuantity(levels, j) < requested
  }

  lemma NoBadLevelOnceBought(levels: seq<Level>, allowed: real, isBuy: bool, requested: real, k: nat, x: real)
    requires k < |levels| && forall j :: 0 <= j <= k ==> Usable(levels[j])
    requires 0.0 <= x <= levels[k].size
    requires Quantity(Greedy(levels, k, x)) >= requested
    ensures !ReachesBadLevelByQuantity(levels, allowed, isBuy, requested)
  {
    forall j | 0 <= j < InsideCount(levels, allowed, isBuy) && !Usable(levels[j])
      ensures DepthQuantity(levels, j) >= requested
    {
      WithinDepth(levels, k, x, j);
    }
  }

  function Min(a: real, b: real): real {
    if a <= b then a else b
  }

  method RunBoundedQuantity(levels: seq<Level>, allowed: real, isBuy: bool, requested: real)
    returns (ending: Ending, totals: Totals)
    requires InSweepOrder(levels, isBuy) && requested > 0.0
    ensures match ending
            case BadLevel => ReachesBadLevelByQuantity(levels, allowed, isBuy, requested)
            case Filled(k, x) => Stopped(levels, allowed, isBuy, k, x, totals) && totals.quantity == requested
            case RanOut =>
              && Swept(levels, allowed, isBuy, InsideCount(levels, allowed, isBuy), totals)
              && totals.quantity < requested
  {
    var remaining := requested;
    totals := Totals(0.0, 0.0, [], []);
    NothingSwept(levels, allowed, isBuy);
    var i := 0;
    while i < |levels| && Inside(levels[i], allowed, isBuy)
      invariant Swept(levels, allowed, isBuy, i, totals)
      invariant remaining == requested - totals.quantity > 0.0
    {
      InsideIsPrefix(levels, allowed, isBuy, i);
      var level := levels[i];
      if !Usable(level) {
        assert DepthQuantity(levels, i) < requested;
        return BadLevel, totals;
      }
      var take := Min(remaining, level.size);
      TakeStops(levels, allowed, isBuy, i, totals, take, level.price * take);
      totals, remaining := Take(totals, level, take, level.price * take), remaining - take;
      if remaining <= 0.0 {
        return Filled(i, take), totals;
      }
      StoppedWhole(levels, allowed, isBuy, i, totals);
      i := i + 1;
    }
    SweptEverything(levels, allowed, isBuy, i, totals);
    return RanOut, totals;
  }

  /**
   Fill up to a quantity. Success fills exactly the smaller of the request and the depth inside the limit,
   at the best total price any allocation of that quantity could have.
   */
  method SweepBoundedQuantity(levels: seq<Level>, allowed: real, isBuy: bool, requested: real)
    returns (r: Result<ExactSizeVwap, BlockReason>)
    requires InSweepOrder(levels, isBuy) && requested > 0.0
    ensures r.Ok? ==>
              && FillReport(levels, allowed, isBuy, r.value)
              && r.value.vwapQuantity == Min(requested, DepthQuantity(levels, InsideCount(levels, allowed, isBuy)))
              && (r.value.exactSizeFilled <==> requested - r.value.vwapQuantity <= Tolerance(requested))
    ensures r == Err(InvalidCost) <==> ReachesBadLevelByQuantity(levels, allowed, isBuy, requested)
    ensures r == Err(InsufficientDepth) <==> InsideCount(levels, allowed, isBuy) == 0
    ensures r.Ok? || r.error == InvalidCost || r.error == InsufficientDepth
  {
    var ending, totals := RunBoundedQuantity(levels, allowed, isBuy, requested);
    match ending {
      case BadLevel =>
        r := Err(InvalidCost);
      case Filled(k, x) =>
        NoBadLevelOnceBought(levels, allowed, isBuy, requested, k, x);
        WithinDepth(levels, k, x, InsideCount(levels, allowed, isBuy));
        var v := ReportFill(levels, allowed, isBuy, k, x, totals, true);
        r := Ok(v);
      case RanOut =>
        var n := |totals.legs|;
        SweptEverything(levels, allowed, isBuy, n, totals);
        if n == 0 {
          return Err(InsufficientDepth);
        }
        StoppedWhole(levels, allowed, isBuy, n - 1, totals);
        var v := ReportFill(levels, allowed, isBuy, n - 1, levels[n - 1].size, totals,
                            requested - totals.quantity <= Tolerance(requested));
        r := Ok(v);
    }
  }

  // ---------- From a quote to a sweep ----------

  /** The levels an order takes from: asks by rising price for a buy, bids by falling price for a sale. */
  function Side(book: BookQuote, isBuy: bool): (levels: seq<Level>)
    ensures |levels| == |if isBuy then book.askLevels else book.bidLevels|
    ensures forall i :: 0 <= i < |levels| ==>
              && levels[i].price in (if isBuy then book.askLevels else book.bidLevels)
              && levels[i].size == (if isBuy then book.askLevels else book.bidLevels)[levels[i].price]
    ensures InSweepOrder(levels, isBuy)
  {
    SortedLevelsInSweepOrder(book.askLevels);
    SortedLevelsInSweepOrder(book.bidLevels);
    if isBuy then Ascending(book.askLevels) else Descending(book.bidLevels)
  }

  /** The depth limit: so many basis points of the touch above it for a buy, below it for a sale. */
  predicate IsDepthLimit(touch: real, depthBps: nat, isBuy: bool, limit: real) {
    10000.0 * (if isBuy then limit - touch else touch - limit) == depthBps as real * touch
  }

  /** What the price of the best level on the side an order takes from is, when there is one above zero. */
  predicate HasTouch(book: BookQuote, side: OrderSide, touch: real) {
    touch > 0.0 && ((side.Buy? && book.bestAsk == Some(touch)) || (side.Sell? && book.bestBid == Some(touch)))
  }

  /** The depth limit of a quote, or exactly why there is none. */
  function DepthLimit(book: BookQuote, side: OrderSide, request: real, depthBps: nat): (r: Result<real, BlockReason>)
    ensures r == Err(UnsupportedOrderShape) <==> request > 0.0 && side.NoOrderSide?
    ensures r == Err(MissingOrderBook)
       <==> request > 0.0 && !side.NoOrderSide? && forall touch: real :: !HasTouch(book, side, touch)
    ensures forall touch: real :: request > 0.0 && HasTouch(book, side, touch) ==>
              && (r.Ok? <==> side.Buy? || depthBps < 10000)
              && (r.Ok? ==> IsDepthLimit(touch, depthBps, side.Buy?, r.value))
    ensures request <= 0.0 ==> r == Err(InvalidCost)
    ensures r.Ok? || r.error in {UnsupportedOrderShape, MissingOrderBook, InvalidCost}
  {
    if request <= 0.0 then Err(InvalidCost)
    else if side.NoOrderSide? then Err(UnsupportedOrderShape)
    else
      var touch := if side.Buy? then book.bestAsk else book.bestBid;
      if touch.None? || touch.value <= 0.0 then Err(MissingOrderBook)
      else
        assert HasTouch(book, side, touch.value);
        AllowedVwapSign(touch.value, depthBps, side.Buy?);
        DepthLimitValue(touch.value, depthBps, side.Buy?);
        var allowed := AllowedVwap(touch.value, depthBps, side.Buy?);
        if allowed <= 0.0 then Err(InvalidCost) else Ok(allowed)
  }

  lemma DepthLimitValue(touch: real, depthBps: nat, isBuy: bool)
    ensures IsDepthLimit(touch, depthBps, isBuy, AllowedVwap(touch, depthBps, isBuy))
  {
    var slippage := depthBps as real / 10000.0;
    assert touch * (1.0 + slippage) == touch + touch * slippage;
    assert touch * (1.0 - slippage) == touch - touch * slippage;
    assert 10000.0 * (touch * slippage) == depthBps as real * touch;
  }

  /**
   What the refusal of a sale of 10000 basis points depth or more gives up: at the limit it would have, every bid lies
   inside it and none is unpriceable, so both sweeps would fill from the whole book.
   */
  lemma RefusedSaleHasWholeDepth(book: BookQuote, request: real, depthBps: nat, limit: real)
    requires request > 0.0 && depthBps >= 10000
    requires book.bestBid.Some? && book.bestBid.value in book.bidLevels
    requires forall p :: p in book.bidLevels ==> p > 0.0 && book.bidLevels[p] > 0.0
    requires IsDepthLimit(book.bestBid.value, depthBps, false, limit)
    ensures DepthLimit(book, Sell, request, depthBps) == Err(InvalidCost)
    ensures var levels := Descending(book.bidLevels);
            && InsideCount(levels, limit, false) == |levels| > 0
            && !ReachesBadLevel(levels, limit, false, request)
            && !ReachesBadLevelByQuantity(levels, limit, false, request)
  {
    var levels, touch := Descending(book.bidLevels), book.bestBid.value;
    assert HasTouch(book, Sell, touch);
    ProductBound(10000.0, touch, depthBps as real, touch);
    assert limit <= 0.0;
    AscendingCovers(book.bidLevels, touch);
    forall i | 0 <= i < |levels| ensures Usable(levels[i]) && Inside(levels[i], limit, false) {
      assert levels[i].price in book.bidLevels;
    }
  }

  method PriceExactSizeVwap(book: BookQuote, side: OrderSide, notional: real, depthBps: nat)
    returns (r: Result<ExactSizeVwap, BlockReason>)
    ensures var limit := DepthLimit(book, side, notional, depthBps);
            && (limit.Err? ==> r == Err(limit.error))
            && (limit.Ok? && r.Ok? ==>
                  && FillReport(Side(book, side.Buy?), limit.value, side.Buy?, r.value)
                  && 0.0 <= notional - LegsNotional(r.value.fillLegs) <= Tolerance(notional))
            && (limit.Ok? ==>
                  (r.Err? <==>
                  || ReachesBadLevel(Side(book, side.Buy?), limit.value, side.Buy?, notional)
                  || notional - DepthNotional(Side(book, side.Buy?),
                       InsideCount(Side(book, side.Buy?), limit.value, side.Buy?)) > Tolerance(notional)))
  {
    var limit := DepthLimit(book, side, notional, depthBps);
    if limit.Err? {
      return Err(limit.error);
    }
    r := SweepExactNotional(Side(book, side.Buy?), limit.value, side.Buy?, notional);
  }

  method PriceBoundedQuantityVwap(book: BookQuote, side: OrderSide, quantity: real, depthBps: nat)
    returns (r: Result<ExactSizeVwap, BlockReason>)
    ensures var limit := DepthLimit(book, side, quantity, depthBps);
            && (limit.Err? ==> r == Err(limit.error))
            && (limit.Ok? && r.Ok? ==>
                  && FillReport(Side(book, side.Buy?), limit.value, side.Buy?, r.value)
                  && r.value.vwapQuantity == Min(quantity, DepthQuantity(Side(book, side.Buy?),
                       InsideCount(Side(book, side.Buy?), limit.value, side.Buy?))))
            && (limit.Ok? ==>
                  (r.Err? <==>
                  || ReachesBadLevelByQuantity(Side(book, side.Buy?), limit.value, side.Buy?, quantity)
                  || InsideCount(Side(book, side.Buy?), limit.value, side.Buy?) == 0))
  {
    var limit := DepthLimit(book, side, quantity, depthBps);
    if limit.Err? {
      return Err(limit.error);
    }
    r := SweepBoundedQuantity(Side(book, side.Buy?), limit.value, side.Buy?, quantity);
  }
}
