/**
 Order-book levels and allocations over them. An allocation says how much is taken from each level;
 the exchange inequality compares any allocation with a greedy one and is the one argument behind the
 optimality of every sweep in this project.
 */
module BookLevels {
  import opened Common
  import opened RealArithmetic

  datatype OrderSide = Buy | Sell | NoOrderSide

  datatype Level = Level(price: real, size: real)

  /** A level a sweep may take from. */
  predicate Usable(level: Level) {
    level.price > 0.0 && level.size > 0.0
  }

  function UsableSize(level: Level): real {
    if Usable(level) then level.size else 0.0
  }

  /** Asks are swept by ascending price, bids by descending price. */
  predicate InSweepOrder(levels: seq<Level>, isBuy: bool) {
    forall i, j :: 0 <= i < j < |levels| ==>
      if isBuy then levels[i].price <= levels[j].price else levels[i].price >= levels[j].price
  }

  /** Some quantity from each level, never more than a usable level shows. */
  predicate Allocation(levels: seq<Level>, q: seq<real>) {
    && |q| == |levels|
    && forall i :: 0 <= i < |q| ==> 0.0 <= q[i] <= UsableSize(levels[i])
  }

  /** In full: one quantity per level, none negative, none from a level without a positive price and size, none past it. */
  lemma AllocationMeans(levels: seq<Level>, q: seq<real>)
    ensures Allocation(levels, q)
       <==> && |q| == |levels|
            && forall i :: 0 <= i < |q| ==>
                 && q[i] >= 0.0
                 && (levels[i].price > 0.0 && levels[i].size > 0.0 ==> q[i] <= levels[i].size)
                 && (levels[i].price <= 0.0 || levels[i].size <= 0.0 ==> q[i] == 0.0)
  {
  }

  function Quantity(q: seq<real>): real {
    if q == [] then 0.0 else q[0] + Quantity(q[1..])
  }

  function Notional(levels: seq<Level>, q: seq<real>): real
    requires |q| == |levels|
  {
    if q == [] then 0.0 else levels[0].price * q[0] + Notional(levels[1..], q[1..])
  }

  /** The greedy allocation: the first `k` levels in full, `x` from level `k`, nothing after. */
  function Greedy(levels: seq<Level>, k: nat, x: real): (g: seq<real>)
    ensures |g| == |levels|
  {
    seq(|levels|, i requires 0 <= i < |levels| => if i < k then UsableSize(levels[i]) else if i == k then x else 0.0)
  }

  lemma {:induction false} UpdateTotals(levels: seq<Level>, q: seq<real>, k: nat, x: real)
    requires |q| == |levels| && k < |q|
    ensures Quantity(q[k := x]) == Quantity(q) - q[k] + x
    ensures Notional(levels, q[k := x]) == Notional(levels, q) + levels[k].price * (x - q[k])
  {
    if k == 0 {
      assert q[k := x][1..] == q[1..];
    } else {
      assert q[k := x][1..] == q[1..][k - 1 := x];
      UpdateTotals(levels[1..], q[1..], k - 1, x);
    }
  }

  /** Growing the greedy allocation at its last level. */
  lemma GreedyTotals(levels: seq<Level>, k: nat, x: real)
    requires k < |levels|
    ensures Quantity(Greedy(levels, k, x)) == Quantity(Greedy(levels, k, 0.0)) + x
    ensures Notional(levels, Greedy(levels, k, x)) == Notional(levels, Greedy(levels, k, 0.0)) + levels[k].price * x
  {
    assert Greedy(levels, k, x) == Greedy(levels, k, 0.0)[k := x];
    UpdateTotals(levels, Greedy(levels, k, 0.0), k, x);
  }

  lemma GreedyIsAllocation(levels: seq<Level>, k: nat, x: real)
    requires k < |levels| ==> 0.0 <= x <= UsableSize(levels[k])
    ensures Allocation(levels, Greedy(levels, k, x))
  {
  }

  lemma GreedyAdvance(levels: seq<Level>, k: nat)
    requires k < |levels|
    ensures Greedy(levels, k + 1, 0.0) == Greedy(levels, k, UsableSize(levels[k]))
  {
  }

  lemma {:induction false} EmptyTotals(levels: seq<Level>, q: seq<real>)
    requires |q| == |levels| && forall i :: 0 <= i < |q| ==> q[i] == 0.0
    ensures Quantity(q) == 0.0 && Notional(levels, q) == 0.0
  {
    if q != [] {
      EmptyTotals(levels[1..], q[1..]);
    }
  }

  /** What moving from `g` to `q` at one level is worth, measured at the pivot price. */
  function Trade(level: Level, taken: real, pivot: real): real {
    taken * (pivot - level.price)
  }

  /** Level by level, moving from `g` to `q` trades towards prices no better than the pivot. */
  predicate NoBetterAt(levels: seq<Level>, q: seq<real>, g: seq<real>, pivot: real, isBuy: bool)
    requires |q| == |g| == |levels|
  {
    forall i :: 0 <= i < |q| ==>
      var trade := Trade(levels[i], q[i] - g[i], pivot);
      if isBuy then trade <= 0.0 else trade >= 0.0
  }

  /** Extra quantity priced at the pivot, net of the extra notional it costs. */
  function NetGain(pivot: real, quantity: real, notional: real, baseQuantity: real, baseNotional: real): real {
    pivot * (quantity - baseQuantity) - (notional - baseNotional)
  }

  /** The net gain of allocation `q` over allocation `g`. */
  function Gain(levels: seq<Level>, q: seq<real>, g: seq<real>, pivot: real): real
    requires |q| == |g| == |levels|
  {
    NetGain(pivot, Quantity(q), Notional(levels, q), Quantity(g), Notional(levels, g))
  }

  lemma GainSplits(level: Level, q: real, g: real, pivot: real, quantity: real, notional: real,
                   baseQuantity: real, baseNotional: real)
    ensures NetGain(pivot, q + quantity, level.price * q + notional, g + baseQuantity, level.price * g + baseNotional)
         == Trade(level, q - g, pivot) + NetGain(pivot, quantity, notional, baseQuantity, baseNotional)
  {
  }

  /** The gain of a whole allocation is the trade at its first level and the gain of the rest. */
  lemma {:induction false} GainOfFirst(levels: seq<Level>, q: seq<real>, g: seq<real>, pivot: real)
    requires |q| == |g| == |levels| && q != []
    ensures Gain(levels, q, g, pivot)
         == Trade(levels[0], q[0] - g[0], pivot) + Gain(levels[1..], q[1..], g[1..], pivot)
  {
    GainSplits(levels[0], q[0], g[0], pivot, Quantity(q[1..]), Notional(levels[1..], q[1..]), Quantity(g[1..]),
               Notional(levels[1..], g[1..]));
  }

  lemma NoBetterRest(levels: seq<Level>, q: seq<real>, g: seq<real>, pivot: real, isBuy: bool)
    requires |q| == |g| == |levels| && q != [] && NoBetterAt(levels, q, g, pivot, isBuy)
    ensures NoBetterAt(levels[1..], q[1..], g[1..], pivot, isBuy)
  {
    forall i | 0 <= i < |q| - 1
      ensures Trade(levels[1..][i], q[1..][i] - g[1..][i], pivot) == Trade(levels[i + 1], q[i + 1] - g[i + 1], pivot)
    {
    }
  }

  lemma {:induction false} ExchangeSum(levels: seq<Level>, q: seq<real>, g: seq<real>, pivot: real, isBuy: bool)
    requires |q| == |g| == |levels|
    requires NoBetterAt(levels, q, g, pivot, isBuy)
    ensures if isBuy then Gain(levels, q, g, pivot) <= 0.0 else Gain(levels, q, g, pivot) >= 0.0
  {
    if q == [] {
      NoGain(pivot);
    } else {
      NoBetterRest(levels, q, g, pivot, isBuy);
      ExchangeSum(levels[1..], q[1..], g[1..], pivot, isBuy);
      GainOfFirst(levels, q, g, pivot);
    }
  }

  lemma NoGain(pivot: real)
    ensures NetGain(pivot, 0.0, 0.0, 0.0, 0.0) == 0.0
  {
  }

  /** Against a greedy allocation ending at level `k`, any allocation only moves to worse prices. */
  lemma GreedyIsBest(levels: seq<Level>, q: seq<real>, k: nat, x: real, isBuy: bool)
    requires InSweepOrder(levels, isBuy) && Allocation(levels, q) && k < |levels|
    ensures NoBetterAt(levels, q, Greedy(levels, k, x), levels[k].price, isBuy)
  {
    var g := Greedy(levels, k, x);
    forall i | 0 <= i < |q|
      ensures var trade := Trade(levels[i], q[i] - g[i], levels[k].price);
              if isBuy then trade <= 0.0 else trade >= 0.0
    {
      ProductSign(q[i] - g[i], levels[k].price - levels[i].price);
    }
  }

  /**
   Exchange: against a greedy allocation ending at level `k`, every other allocation gains quantity only
   at prices no better than level `k`'s.
   */
  lemma Exchange(levels: seq<Level>, q: seq<real>, k: nat, x: real, isBuy: bool)
    requires InSweepOrder(levels, isBuy) && Allocation(levels, q) && k < |levels|
    ensures var gain := Gain(levels, q, Greedy(levels, k, x), levels[k].price);
            if isBuy then gain <= 0.0 else gain >= 0.0
  {
    GreedyIsBest(levels, q, k, x, isBuy);
    ExchangeSum(levels, q, Greedy(levels, k, x), levels[k].price, isBuy);
  }

  /** No allocation takes more than every usable level in full. */
  lemma {:induction false} FullIsMost(levels: seq<Level>, q: seq<real>, g: seq<real>)
    requires |q| == |g| == |levels|
    requires forall i :: 0 <= i < |q| ==> q[i] <= g[i]
    ensures Quantity(q) <= Quantity(g)
  {
    if q != [] {
      FullIsMost(levels[1..], q[1..], g[1..]);
    }
  }

  /** An allocation with no quantity takes nothing anywhere. */
  lemma {:induction false} NonNegativeTotals(levels: seq<Level>, q: seq<real>)
    requires Allocation(levels, q)
    ensures Quantity(q) >= 0.0 && Notional(levels, q) >= 0.0
    ensures Quantity(q) == 0.0 ==> Notional(levels, q) == 0.0
  {
    if q != [] {
      assert Allocation(levels[1..], q[1..]);
      NonNegativeTotals(levels[1..], q[1..]);
      assert q[0] > 0.0 ==> levels[0].price > 0.0;
      ProductSign(q[0], levels[0].price);
    }
  }
}
