/**
 The delta-maintained outcome book with its cached touch and liquidity, and the VWAP-capped sizing
 sweep over it (src/bolt_v3_book_sizing.rs). Prices and sizes are exact reals.
 */
module BookSizing {
  import opened Common
  import opened RealArithmetic
  import opened BookLevels

  // ---------- VWAP-capped sizing ----------

  datatype Execution = Execution(quantity: real, vwapPrice: real)

  /** A notional and quantity whose average price respects the limit. */
  predicate WithinLimit(notional: real, quantity: real, allowed: real, isBuy: bool) {
    if isBuy then notional <= allowed * quantity else notional >= allowed * quantity
  }

  /** Any way of taking from the book, greedy or not, whose VWAP respects the limit. */
  predicate Feasible(levels: seq<Level>, q: seq<real>, allowed: real, isBuy: bool) {
    Allocation(levels, q) && WithinLimit(Notional(levels, q), Quantity(q), allowed, isBuy)
  }

  /** No feasible allocation takes more than `bound`. */
  ghost predicate BoundsFeasible(levels: seq<Level>, allowed: real, isBuy: bool, bound: real) {
    forall q :: Feasible(levels, q, allowed, isBuy) ==> Quantity(q) <= bound
  }

  /** Some feasible allocation has exactly this quantity and this average price. */
  ghost predicate Attained(levels: seq<Level>, allowed: real, isBuy: bool, e: Execution) {
    exists q :: Feasible(levels, q, allowed, isBuy) && Quantity(q) == e.quantity
             && Notional(levels, q) == e.vwapPrice * e.quantity
  }

  /** The largest execution the limit allows, or none when the limit allows nothing. */
  ghost predicate IsLargestExecution(levels: seq<Level>, allowed: real, isBuy: bool, r: Option<Execution>) {
    match r
    case None => BoundsFeasible(levels, allowed, isBuy, 0.0)
    case Some(e) =>
      && e.quantity > 0.0
      && Attained(levels, allowed, isBuy, e)
      && BoundsFeasible(levels, allowed, isBuy, e.quantity)
  }

  /** Its own average price is then inside the limit. */
  lemma LargestExecutionRespectsLimit(levels: seq<Level>, allowed: real, isBuy: bool, e: Execution)
    requires IsLargestExecution(levels, allowed, isBuy, Some(e))
    ensures if isBuy then e.vwapPrice <= allowed else e.vwapPrice >= allowed
  {
    Scale(e.vwapPrice, allowed, e.quantity);
  }

  /** A total whose average price is exactly the limit. */
  predicate OnLimit(notional: real, quantity: real, allowed: real) {
    notional == allowed * quantity
  }

  /** Spending the limit exactly at a price worse than it leaves no room for more. */
  lemma NoRoomBeyondLimit(price: real, allowed: real, quantity: real, notional: real, q: real, n: real, isBuy: bool)
    requires if isBuy then price > allowed else price < allowed
    requires OnLimit(notional, quantity, allowed)
    requires WithinLimit(n, q, allowed, isBuy)
    requires if isBuy then NetGain(price, q, n, quantity, notional) <= 0.0
             else NetGain(price, q, n, quantity, notional) >= 0.0
    ensures q <= quantity
  {
    var extra := q - quantity;
    assert allowed * extra == allowed * q - allowed * quantity;
    assert NetGain(price, q, n, quantity, notional) == price * extra - (n - notional);
    if extra > 0.0 {
      Scale(price, allowed, extra);
    }
  }

  lemma GreedyAtLimitBeats(levels: seq<Level>, q: seq<real>, k: nat, x: real, quantity: real, notional: real,
                           allowed: real, isBuy: bool)
    requires InSweepOrder(levels, isBuy) && k < |levels|
    requires quantity == Quantity(Greedy(levels, k, x)) && notional == Notional(levels, Greedy(levels, k, x))
    requires OnLimit(notional, quantity, allowed)
    requires if isBuy then levels[k].price > allowed else levels[k].price < allowed
    requires Feasible(levels, q, allowed, isBuy)
    ensures Quantity(q) <= quantity
  {
    Exchange(levels, q, k, x, isBuy);
    NoRoomBeyondLimit(levels[k].price, allowed, quantity, notional, Quantity(q), Notional(levels, q), isBuy);
  }

  /** An allocation together with its totals. */
  predicate IsTotal(levels: seq<Level>, q: seq<real>, quantity: real, notional: real) {
    Allocation(levels, q) && quantity == Quantity(q) && notional == Notional(levels, q)
  }

  /** A greedy allocation that spends the limit exactly, at a level worse than the limit, is the largest. */
  lemma GreedyAtLimitIsLargest(levels: seq<Level>, k: nat, x: real, quantity: real, notional: real, allowed: real,
                               isBuy: bool)
    requires InSweepOrder(levels, isBuy) && k < |levels|
    requires quantity == Quantity(Greedy(levels, k, x)) && notional == Notional(levels, Greedy(levels, k, x))
    requires OnLimit(notional, quantity, allowed)
    requires if isBuy then levels[k].price > allowed else levels[k].price < allowed
    ensures BoundsFeasible(levels, allowed, isBuy, quantity)
  {
    forall q | Feasible(levels, q, allowed, isBuy) ensures Quantity(q) <= quantity {
      GreedyAtLimitBeats(levels, q, k, x, quantity, notional, allowed, isBuy);
    }
  }

  /** Taking every usable level in full bounds everything. */
  lemma FullSweepIsLargest(levels: seq<Level>, allowed: real, isBuy: bool)
    ensures BoundsFeasible(levels, allowed, isBuy, Quantity(Greedy(levels, |levels|, 0.0)))
  {
    forall q | Feasible(levels, q, allowed, isBuy)
      ensures Quantity(q) <= Quantity(Greedy(levels, |levels|, 0.0))
    {
      FullIsMost(levels, q, Greedy(levels, |levels|, 0.0));
    }
  }

  /** The execution that takes every usable level in full. */
  ghost function WholeBook(levels: seq<Level>): Execution
    requires Quantity(Greedy(levels, |levels|, 0.0)) != 0.0
  {
    var whole := Greedy(levels, |levels|, 0.0);
    Execution(Quantity(whole), Notional(levels, whole) / Quantity(whole))
  }

  predicate HasUsable(levels: seq<Level>) {
    exists i :: 0 <= i < |levels| && Usable(levels[i])
  }

  lemma WholeBookIsPositive(levels: seq<Level>)
    requires HasUsable(levels)
    ensures Quantity(Greedy(levels, |levels|, 0.0)) > 0.0
  {
    var i :| 0 <= i < |levels| && Usable(levels[i]);
    var whole := Greedy(levels, |levels|, 0.0);
    GreedyIsAllocation(levels, |levels|, 0.0);
    UpdateTotals(levels, whole, i, 0.0);
    NonNegativeTotals(levels, whole[i := 0.0]);
  }

  /** A sale with a limit of zero or less is limited by nothing: the largest execution is the whole book. */
  lemma NonPositiveLimitAllowsWholeBook(levels: seq<Level>, allowed: real)
    requires allowed <= 0.0 && HasUsable(levels)
    ensures Quantity(Greedy(levels, |levels|, 0.0)) > 0.0
    ensures IsLargestExecution(levels, allowed, false, Some(WholeBook(levels)))
    ensures !IsLargestExecution(levels, allowed, false, None)
  {
    var whole := Greedy(levels, |levels|, 0.0);
    var quantity, notional := Quantity(whole), Notional(levels, whole);
    WholeBookIsPositive(levels);
    GreedyIsAllocation(levels, |levels|, 0.0);
    NonNegativeTotals(levels, whole);
    NothingIsBelow(notional, quantity, allowed);
    assert Feasible(levels, whole, allowed, false);
    FullSweepIsLargest(levels, allowed, false);
    AverageTimesQuantity(notional, quantity);
  }

  lemma NothingIsBelow(notional: real, quantity: real, allowed: real)
    requires allowed <= 0.0 <= notional && quantity >= 0.0
    ensures WithinLimit(notional, quantity, allowed, false)
  {
    ProductSign(allowed, quantity);
  }

  lemma AverageTimesQuantity(notional: real, quantity: real)
    requires quantity > 0.0
    ensures (notional / quantity) * quantity == notional
  {
  }

  /** Compare an average price with the limit: the same test as on the notional. */
  method VwapWithinLimit(notional: real, quantity: real, allowed: real, isBuy: bool) returns (within: bool)
    requires quantity > 0.0
    ensures within <==> WithinLimit(notional, quantity, allowed, isBuy)
  {
    var vwap := notional / quantity;
    assert vwap * quantity == notional;
    Scale(vwap, allowed, quantity);
    within := if isBuy then vwap <= allowed else vwap >= allowed;
  }

  /**
   How much of a level that breaks the limit the room left by earlier levels pays for: a proper part of it,
   landing exactly on the limit. Neither the clamp nor the non-positive slope of the formula takes effect.
   */
  method PartialQuantity(quantity: real, notional: real, price: real, size: real, allowed: real, isBuy: bool,
                         ghost nextQuantity: real, ghost nextNotional: real)
    returns (partial: real, totalQuantity: real, totalNotional: real)
    requires size > 0.0
    requires WithinLimit(notional, quantity, allowed, isBuy)
    requires nextQuantity == quantity + size && nextNotional == notional + price * size
    requires !WithinLimit(nextNotional, nextQuantity, allowed, isBuy)
    ensures if isBuy then price > allowed else price < allowed
    ensures 0.0 <= partial < size
    ensures totalQuantity == quantity + partial && totalNotional == notional + price * partial
    ensures OnLimit(totalNotional, totalQuantity, allowed)
  {
    var room := if isBuy then allowed * quantity - notional else notional - allowed * quantity;
    var slope := if isBuy then price - allowed else allowed - price;
    assert allowed * nextQuantity == allowed * quantity + allowed * size;
    Scale(price, allowed, size);
    assert slope * size == if isBuy then price * size - allowed * size else allowed * size - price * size;
    QuotientRange(room, slope, size);
    partial := Clamp(room / slope, 0.0, size);
    assert partial * slope == room;
    totalQuantity, totalNotional := quantity + partial, notional + price * partial;
    assert allowed * totalQuantity == allowed * quantity + allowed * partial;
    assert partial * slope == if isBuy then price * partial - allowed * partial else allowed * partial - price * partial;
  }

  function Clamp(x: real, low: real, high: real): real {
    if x < low then low else if x > high then high else x
  }

  lemma QuotientRange(room: real, slope: real, size: real)
    requires slope > 0.0 && 0.0 <= room < slope * size
    ensures 0.0 <= room / slope < size
  {
    var x := room / slope;
    assert x * slope == room;
    Scale(0.0, x, slope);
    Scale(size, x, slope);
  }

  /** The sweep before level `i`: every earlier usable level in full, inside the limit so far. */
  predicate SweptTo(levels: seq<Level>, i: nat, quantity: real, notional: real, allowed: real, isBuy: bool) {
    && i <= |levels|
    && quantity == Quantity(Greedy(levels, i, 0.0))
    && notional == Notional(levels, Greedy(levels, i, 0.0))
    && WithinLimit(notional, quantity, allowed, isBuy)
  }

  lemma SweepWhole(levels: seq<Level>, i: nat, quantity: real, notional: real, nextQuantity: real, nextNotional: real,
                   allowed: real, isBuy: bool)
    requires i < |levels| && SweptTo(levels, i, quantity, notional, allowed, isBuy)
    requires nextQuantity == quantity + UsableSize(levels[i])
    requires nextNotional == notional + levels[i].price * UsableSize(levels[i])
    requires WithinLimit(nextNotional, nextQuantity, allowed, isBuy)
    ensures SweptTo(levels, i + 1, nextQuantity, nextNotional, allowed, isBuy)
  {
    GreedyAdvance(levels, i);
    GreedyTotals(levels, i, UsableSize(levels[i]));
  }

  /** Stopping inside level `i` exactly on the limit is the largest execution there is. */
  lemma SweepPart(levels: seq<Level>, i: nat, quantity: real, notional: real, partial: real,
                  totalQuantity: real, totalNotional: real, allowed: real, isBuy: bool)
    requires InSweepOrder(levels, isBuy) && i < |levels|
    requires SweptTo(levels, i, quantity, notional, allowed, isBuy)
    requires if isBuy then levels[i].price > allowed else levels[i].price < allowed
    requires 0.0 <= partial <= UsableSize(levels[i])
    requires totalQuantity == quantity + partial && totalNotional == notional + levels[i].price * partial
    requires OnLimit(totalNotional, totalQuantity, allowed)
    ensures IsTotal(levels, Greedy(levels, i, partial), totalQuantity, totalNotional)
    ensures BoundsFeasible(levels, allowed, isBuy, totalQuantity)
  {
    GreedyTotals(levels, i, partial);
    GreedyIsAllocation(levels, i, partial);
    GreedyAtLimitIsLargest(levels, i, partial, totalQuantity, totalNotional, allowed, isBuy);
  }

  /**
   The sweep: take whole levels while the running VWAP stays inside the limit, then the part of the next
   level that lands exactly on it. What it returns is the largest execution of all, not only of greedy ones.
   */
  method MaxExecutionWithinVwapLimit(levels: seq<Level>, allowed: real, isBuy: bool)
    returns (r: Option<Execution>)
    requires InSweepOrder(levels, isBuy)
    ensures allowed <= 0.0 ==> r.None?
    ensures allowed > 0.0 ==> IsLargestExecution(levels, allowed, isBuy, r)
  {
    if allowed <= 0.0 {
      return None;
    }
    var quantity, notional := 0.0, 0.0;
    EmptyTotals(levels, Greedy(levels, 0, 0.0));
    for i := 0 to |levels|
      invariant SweptTo(levels, i, quantity, notional, allowed, isBuy)
      invariant quantity >= 0.0
    {
      var level := levels[i];
      if !Usable(level) {
        SweepWhole(levels, i, quantity, notional, quantity, notional, allowed, isBuy);
        continue;
      }
      var nextQuantity, nextNotional := quantity + level.size, notional + level.price * level.size;
      var within := VwapWithinLimit(nextNotional, nextQuantity, allowed, isBuy);
      if within {
        SweepWhole(levels, i, quantity, notional, nextQuantity, nextNotional, allowed, isBuy);
        quantity, notional := nextQuantity, nextNotional;
        continue;
      }
      var partial, totalQuantity, totalNotional :=
        PartialQuantity(quantity, notional, level.price, level.size, allowed, isBuy, nextQuantity, nextNotional);
      SweepPart(levels, i, quantity, notional, partial, totalQuantity, totalNotional, allowed, isBuy);
      r := FinishExecution(levels, allowed, isBuy, totalQuantity, totalNotional, Greedy(levels, i, partial));
      return;
    }
    FullSweepIsLargest(levels, allowed, isBuy);
    GreedyIsAllocation(levels, |levels|, 0.0);
    r := FinishExecution(levels, allowed, isBuy, quantity, notional, Greedy(levels, |levels|, 0.0));
  }

  /** An empty total is no execution; otherwise report the quantity and its average price. */
  method FinishExecution(levels: seq<Level>, allowed: real, isBuy: bool, quantity: real, notional: real,
                         ghost g: seq<real>)
    returns (r: Option<Execution>)
    requires IsTotal(levels, g, quantity, notional)
    requires WithinLimit(notional, quantity, allowed, isBuy)
    requires BoundsFeasible(levels, allowed, isBuy, quantity)
    ensures IsLargestExecution(levels, allowed, isBuy, r)
  {
    NonNegativeTotals(levels, g);
    if quantity > 0.0 {
      assert (notional / quantity) * quantity == notional;
      r := Some(Execution(quantity, notional / quantity));
    } else {
      r := None;
    }
  }

  // ---------- Sorted price maps ----------

  lemma {:induction false} SmallestExists(keys: set<real>)
    requires keys != {}
    ensures exists k :: k in keys && forall x :: x in keys ==> k <= x
  {
    var k := Pick(keys);
    var rest := keys - {k};
    if rest == {} {
      assert keys == {k};
    } else {
      SmallestExists(rest);
      var m :| m in rest && forall x :: x in rest ==> m <= x;
      var least := if k <= m then k else m;
      assert forall x :: x in keys ==> x == k || x in rest;
      assert least in keys && forall x :: x in keys ==> least <= x;
    }
  }

  function Smallest(keys: set<real>): (k: real)
    requires keys != {}
    ensures k in keys && forall x :: x in keys ==> k <= x
  {
    SmallestExists(keys);
    var k :| k in keys && forall x :: x in keys ==> k <= x;
    k
  }

  /** The levels of a price map by ascending price: the iteration order of a sorted map. */
  function Ascending(m: map<real, real>): (levels: seq<Level>)
    ensures |levels| == |m|
    ensures forall i :: 0 <= i < |levels| ==> levels[i].price in m && levels[i].size == m[levels[i].price]
    ensures forall i, j :: 0 <= i < j < |levels| ==> levels[i].price < levels[j].price
    decreases |m|
  {
    if m == map[] then []
    else
      var k := Smallest(m.Keys);
      var rest := m - {k};
      assert rest.Keys == m.Keys - {k};
      [Level(k, m[k])] + Ascending(rest)
  }

  function Descending(m: map<real, real>): (levels: seq<Level>)
    ensures |levels| == |m|
    ensures forall i :: 0 <= i < |levels| ==> levels[i] == Ascending(m)[|m| - 1 - i]
  {
    var up := Ascending(m);
    seq(|m|, i requires 0 <= i < |m| => up[|m| - 1 - i])
  }

  /** Every price of the map is among its levels. */
  lemma {:induction false} AscendingCovers(m: map<real, real>, price: real)
    requires price in m
    ensures exists i :: 0 <= i < |m| && Ascending(m)[i] == Level(price, m[price])
    decreases |m|
  {
    var k := Smallest(m.Keys);
    var rest := m - {k};
    assert rest.Keys == m.Keys - {k};
    if price == k {
      assert Ascending(m)[0] == Level(price, m[price]);
    } else {
      AscendingCovers(rest, price);
      var i :| 0 <= i < |rest| && Ascending(rest)[i] == Level(price, rest[price]);
      assert Ascending(m)[i + 1] == Ascending(rest)[i];
    }
  }

  /** The first ascending level is the smallest price, the last the largest. */
  lemma AscendingEnds(m: map<real, real>, price: real)
    requires price in m
    ensures Ascending(m)[0].price <= price <= Ascending(m)[|m| - 1].price
  {
    AscendingCovers(m, price);
  }

  /** A sorted map iterates in sweep order: ascending for buys, reversed for sells. */
  lemma SortedLevelsInSweepOrder(m: map<real, real>)
    ensures InSweepOrder(Ascending(m), true)
    ensures InSweepOrder(Descending(m), false)
  {
    var down := Descending(m);
    forall i, j | 0 <= i < j < |down| ensures down[i].price >= down[j].price {
      assert Ascending(m)[|m| - 1 - j].price < Ascending(m)[|m| - 1 - i].price;
    }
  }

  // ---------- Deltas ----------

  /** A positive price of the map is a usable level of it, whichever way it is listed. */
  lemma PriceIsUsable(m: map<real, real>, price: real)
    requires price in m && price > 0.0 && m[price] > 0.0
    ensures HasUsable(Ascending(m)) && HasUsable(Descending(m))
  {
    AscendingCovers(m, price);
    var i :| 0 <= i < |m| && Ascending(m)[i] == Level(price, m[price]);
    assert Descending(m)[|m| - 1 - i] == Level(price, m[price]);
  }

  datatype Action = Add | Update | Delete | Clear

  datatype Delta = Delta(action: Action, side: OrderSide, price: real, size: real)

  datatype Levels = Levels(bids: map<real, real>, asks: map<real, real>)

  function SideLevels(book: Levels, side: OrderSide): map<real, real> {
    match side
    case Buy => book.bids
    case Sell => book.asks
    case NoOrderSide => map[]
  }

  function Write(m: map<real, real>, d: Delta): map<real, real> {
    if d.action.Delete? || d.size <= 0.0 then m - {d.price} else m[d.price := d.size]
  }

  function ApplyDelta(book: Levels, d: Delta): Levels {
    if d.action.Clear? then Levels(map[], map[])
    else
      match d.side
      case Buy => book.(bids := Write(book.bids, d))
      case Sell => book.(asks := Write(book.asks, d))
      case NoOrderSide => book
  }

  function ApplyDeltas(book: Levels, deltas: seq<Delta>): Levels {
    if deltas == [] then book
    else ApplyDelta(ApplyDeltas(book, deltas[..|deltas| - 1]), deltas[|deltas| - 1])
  }

  function Lookup(m: map<real, real>, price: real): Option<real> {
    if price in m then Some(m[price]) else None
  }

  /** A delta that decides what stands at a side and price: a write there, or a clear of everything. */
  predicate Touches(d: Delta, side: OrderSide, price: real) {
    d.action.Clear? || (d.side == side && d.price == price)
  }

  /** What a touching delta leaves behind. */
  function LeftBehind(d: Delta): Option<real> {
    if (d.action.Add? || d.action.Update?) && d.size > 0.0 then Some(d.size) else None
  }

  /** `i` is the last delta of the batch touching the side and price. */
  predicate LastTouch(deltas: seq<Delta>, side: OrderSide, price: real, i: nat) {
    && i < |deltas|
    && Touches(deltas[i], side, price)
    && forall j :: i < j < |deltas| ==> !Touches(deltas[j], side, price)
  }

  predicate Untouched(deltas: seq<Delta>, side: OrderSide, price: real) {
    forall i :: 0 <= i < |deltas| ==> !Touches(deltas[i], side, price)
  }

  /** One delta: the touched side and price holds what it left, every other one what it held. */
  lemma DeltaTouches(book: Levels, d: Delta, side: OrderSide, price: real)
    requires side != NoOrderSide
    ensures At(ApplyDelta(book, d), side, price)
         == if Touches(d, side, price) then LeftBehind(d) else At(book, side, price)
  {
  }

  function At(book: Levels, side: OrderSide, price: real): Option<real> {
    Lookup(SideLevels(book, side), price)
  }

  /** A side and price no delta touches keeps what it held. */
  lemma {:induction false} UntouchedKeeps(book: Levels, deltas: seq<Delta>, side: OrderSide, price: real)
    requires side != NoOrderSide && Untouched(deltas, side, price)
    ensures At(ApplyDeltas(book, deltas), side, price) == At(book, side, price)
  {
    if deltas != [] {
      var n := |deltas| - 1;
      UntouchedKeeps(book, deltas[..n], side, price);
      DeltaTouches(ApplyDeltas(book, deltas[..n]), deltas[n], side, price);
    }
  }

  /** Last writer wins: a side and price holds what its last touching delta left behind. */
  lemma {:induction false} LastWriterWins(book: Levels, deltas: seq<Delta>, side: OrderSide, price: real, i: nat)
    requires side != NoOrderSide && LastTouch(deltas, side, price, i)
    ensures At(ApplyDeltas(book, deltas), side, price) == LeftBehind(deltas[i])
  {
    var n := |deltas| - 1;
    DeltaTouches(ApplyDeltas(book, deltas[..n]), deltas[n], side, price);
    if i < n {
      LastWriterWins(book, deltas[..n], side, price, i);
    }
  }

  predicate PositiveSizes(book: Levels) {
    && (forall p :: p in book.bids ==> book.bids[p] > 0.0)
    && (forall p :: p in book.asks ==> book.asks[p] > 0.0)
  }

  /** No batch leaves an empty or negative level behind. */
  lemma {:induction false} DeltasKeepSizesPositive(book: Levels, deltas: seq<Delta>)
    requires PositiveSizes(book)
    ensures PositiveSizes(ApplyDeltas(book, deltas))
  {
    if deltas != [] {
      DeltasKeepSizesPositive(book, deltas[..|deltas| - 1]);
    }
  }

  /** Two batches in sequence build the same levels as their concatenation. */
  lemma {:induction false} BatchesCompose(book: Levels, first: seq<Delta>, second: seq<Delta>)
    ensures ApplyDeltas(ApplyDeltas(book, first), second) == ApplyDeltas(book, first + second)
  {
    if second == [] {
      assert first + second == first;
    } else {
      var n := |second| - 1;
      BatchesCompose(book, first, second[..n]);
      assert (first + second)[..|first + second| - 1] == first + second[..n];
    }
  }

  // ---------- Cached view ----------

  function TotalSize(levels: seq<Level>): real {
    if levels == [] then 0.0 else levels[0].size + TotalSize(levels[1..])
  }

  function MapTotal(m: map<real, real>): real {
    TotalSize(Ascending(m))
  }

  /** The total of a non-empty map, its smallest price taken off. */
  lemma MapTotalSmallest(m: map<real, real>, k: real)
    requires m != map[] && k == Smallest(m.Keys)
    ensures MapTotal(m) == m[k] + MapTotal(m - {k})
    ensures |m - {k}| < |m|
  {
    assert (m - {k}).Keys == m.Keys - {k};
    assert Ascending(m) == [Level(k, m[k])] + Ascending(m - {k});
    assert Ascending(m)[1..] == Ascending(m - {k});
  }

  lemma SmallestIsUnique(keys: set<real>, k: real)
    requires k in keys && forall x :: x in keys ==> k <= x
    ensures Smallest(keys) == k
  {
  }

  /** Taking a price off and putting another one in can be done in either order. */
  lemma PutAndTake(m: map<real, real>, price: real, size: real, k: real)
    requires price !in m
    ensures m[price := size] - {k} == if k == price then m else (m - {k})[price := size]
  {
  }

  lemma SmallestBelowNewPrice(m: map<real, real>, price: real, k: real, keys: set<real>)
    requires keys == m.Keys + {price} && k == Smallest(keys) && k != price
    ensures m != map[] && Smallest(m.Keys) == k
  {
    assert k in m.Keys;
    assert forall x :: x in m.Keys ==> x in keys;
    SmallestIsUnique(m.Keys, k);
  }

  /** The displayed total is a sum over the map: nothing when empty, and each new price adds its size. */
  lemma {:induction false} MapTotalAdds(m: map<real, real>, price: real, size: real)
    requires price !in m
    ensures MapTotal(map[]) == 0.0
    ensures MapTotal(m[price := size]) == MapTotal(m) + size
    decreases |m|
  {
    var grown := m[price := size];
    assert price in grown.Keys;
    var k := Smallest(grown.Keys);
    PutAndTake(m, price, size, k);
    MapTotalSmallest(grown, k);
    if k != price {
      assert grown.Keys == m.Keys + {price};
      SmallestBelowNewPrice(m, price, k, grown.Keys);
      MapTotalSmallest(m, k);
      MapTotalAdds(m - {k}, price, size);
    }
  }

  /** A cached best price: none for an empty side, else an extreme price of it. */
  ghost predicate IsBest(best: Option<real>, m: map<real, real>, highest: bool) {
    match best
    case None => m == map[]
    case Some(p) => p in m && forall x :: x in m ==> if highest then x <= p else p <= x
  }

  /** The worst average price a slippage allowance in basis points permits. */
  function AllowedVwap(touch: real, slippageBps: nat, isBuy: bool): real {
    var slippage := slippageBps as real / 10000.0;
    if isBuy then touch * (1.0 + slippage) else touch * (1.0 - slippage)
  }

  /** From a positive touch the limit is positive except for a sale that may slip by everything. */
  lemma AllowedVwapSign(touch: real, slippageBps: nat, isBuy: bool)
    requires touch > 0.0
    ensures AllowedVwap(touch, slippageBps, isBuy) > 0.0 <==> isBuy || slippageBps < 10000
  {
    var slippage := slippageBps as real / 10000.0;
    ProductZero(touch, 1.0 + slippage);
    ProductSign(touch, 1.0 - slippage);
    ProductZero(touch, 1.0 - slippage);
  }

  /** What is paid over the touch, or given up below it, is at most so many basis points of the touch. */
  predicate WithinSlippage(notional: real, quantity: real, touch: real, slippageBps: nat, isBuy: bool) {
    var atTouch := touch * quantity;
    var slipped := if isBuy then notional - atTouch else atTouch - notional;
    10000.0 * slipped <= slippageBps as real * atTouch
  }

  /** The limit the code computes stands for that bound on slippage. */
  lemma LimitIsSlippage(notional: real, quantity: real, touch: real, slippageBps: nat, isBuy: bool)
    ensures WithinLimit(notional, quantity, AllowedVwap(touch, slippageBps, isBuy), isBuy)
       <==> WithinSlippage(notional, quantity, touch, slippageBps, isBuy)
  {
    var slippage := slippageBps as real / 10000.0;
    var atTouch := touch * quantity;
    var signed := if isBuy then slippage else 0.0 - slippage;
    assert AllowedVwap(touch, slippageBps, isBuy) == touch * (1.0 + signed);
    LimitTimesQuantity(touch, quantity, signed);
    assert 10000.0 * (atTouch * slippage) == slippageBps as real * atTouch;
    assert atTouch * signed == if isBuy then atTouch * slippage else 0.0 - atTouch * slippage;
  }

  lemma LimitTimesQuantity(touch: real, quantity: real, signed: real)
    ensures touch * (1.0 + signed) * quantity == touch * quantity + touch * quantity * signed
  {
    assert touch * (1.0 + signed) == touch + touch * signed;
    assert touch * signed * quantity == touch * quantity * signed;
  }

  /** Any way of taking from the book whose slippage stays within the allowance. */
  predicate WithinAllowance(levels: seq<Level>, q: seq<real>, touch: real, slippageBps: nat, isBuy: bool) {
    Allocation(levels, q) && WithinSlippage(Notional(levels, q), Quantity(q), touch, slippageBps, isBuy)
  }

  /** The largest execution the slippage allowance permits, or none when it permits nothing. */
  ghost predicate IsLargestWithinAllowance(levels: seq<Level>, touch: real, slippageBps: nat, isBuy: bool,
                                           r: Option<Execution>)
  {
    match r
    case None => forall q :: WithinAllowance(levels, q, touch, slippageBps, isBuy) ==> Quantity(q) <= 0.0
    case Some(e) =>
      && e.quantity > 0.0
      && (exists q :: WithinAllowance(levels, q, touch, slippageBps, isBuy) && Quantity(q) == e.quantity
                      && Notional(levels, q) == e.vwapPrice * e.quantity)
      && (forall q :: WithinAllowance(levels, q, touch, slippageBps, isBuy) ==> Quantity(q) <= e.quantity)
  }

  lemma LargestIsWithinAllowance(levels: seq<Level>, touch: real, slippageBps: nat, isBuy: bool, r: Option<Execution>)
    ensures IsLargestExecution(levels, AllowedVwap(touch, slippageBps, isBuy), isBuy, r)
       <==> IsLargestWithinAllowance(levels, touch, slippageBps, isBuy, r)
  {
    var allowed := AllowedVwap(touch, slippageBps, isBuy);
    forall q ensures Feasible(levels, q, allowed, isBuy) <==> WithinAllowance(levels, q, touch, slippageBps, isBuy) {
      if Allocation(levels, q) {
        LimitIsSlippage(Notional(levels, q), Quantity(q), touch, slippageBps, isBuy);
      }
    }
    SameFeasibleSameLargest(levels, allowed, touch, slippageBps, isBuy, r);
  }

  lemma SameFeasibleSameLargest(levels: seq<Level>, allowed: real, touch: real, slippageBps: nat, isBuy: bool,
                                r: Option<Execution>)
    requires forall q :: Feasible(levels, q, allowed, isBuy) <==> WithinAllowance(levels, q, touch, slippageBps, isBuy)
    ensures IsLargestExecution(levels, allowed, isBuy, r)
       <==> IsLargestWithinAllowance(levels, touch, slippageBps, isBuy, r)
  {
  }

  /** The largest execution within the slippage allowance, except that a sale allowed to slip by everything gets none. */
  ghost predicate SizedExactly(levels: seq<Level>, touch: real, slippageBps: nat, isBuy: bool, r: Option<Execution>) {
    && (!isBuy && slippageBps >= 10000 ==> r.None?)
    && (IsLargestWithinAllowance(levels, touch, slippageBps, isBuy, r) <==> isBuy || slippageBps < 10000)
  }

  /** Size an order from the touch of its side. */
  method SizeFromTouch(m: map<real, real>, touch: real, slippageBps: nat, isBuy: bool) returns (r: Option<Execution>)
    requires touch in m && touch > 0.0 && m[touch] > 0.0
    ensures SizedExactly(if isBuy then Ascending(m) else Descending(m), touch, slippageBps, isBuy, r)
  {
    SortedLevelsInSweepOrder(m);
    PriceIsUsable(m, touch);
    var levels := if isBuy then Ascending(m) else Descending(m);
    var allowed := AllowedVwap(touch, slippageBps, isBuy);
    AllowedVwapSign(touch, slippageBps, isBuy);
    r := MaxExecutionWithinVwapLimit(levels, allowed, isBuy);
    if allowed <= 0.0 {
      NonPositiveLimitAllowsWholeBook(levels, allowed);
    }
    LargestIsWithinAllowance(levels, touch, slippageBps, isBuy, r);
  }

  /** Sized from the best price of a side when that is positive, and nothing otherwise. */
  ghost predicate SizedFromBest(m: map<real, real>, slippageBps: nat, isBuy: bool, r: Option<Execution>) {
    && (forall touch :: IsBest(Some(touch), m, !isBuy) && touch > 0.0 ==>
          SizedExactly(if isBuy then Ascending(m) else Descending(m), touch, slippageBps, isBuy, r))
    && ((forall touch :: IsBest(Some(touch), m, !isBuy) ==> touch <= 0.0) ==> r.None?)
  }

  method SizeSide(m: map<real, real>, best: Option<real>, slippageBps: nat, isBuy: bool) returns (r: Option<Execution>)
    requires IsBest(best, m, !isBuy) && forall p :: p in m ==> m[p] > 0.0
    ensures SizedFromBest(m, slippageBps, isBuy, r)
  {
    r := None;
    if best.Some? && best.value > 0.0 {
      r := SizeFromTouch(m, best.value, slippageBps, isBuy);
      assert forall touch :: IsBest(Some(touch), m, !isBuy) ==> touch == best.value;
      assert IsBest(Some(best.value), m, !isBuy);
    }
  }

  class OutcomeBookState {
    const instrumentId: Option<string>
    var lastObservedInstrumentId: Option<string>
    var bidLevels: map<real, real>
    var askLevels: map<real, real>
    var bestBid: Option<real>
    var bestAsk: Option<real>
    var liquidityAvailable: Option<real>

    ghost function Book(): Levels
      reads this
    {
      Levels(bidLevels, askLevels)
    }

    /** The cache agrees with the levels; a book never updated has no liquidity figure and no levels. */
    ghost predicate Valid()
      reads this
    {
      && PositiveSizes(Book())
      && IsBest(bestBid, bidLevels, true)
      && IsBest(bestAsk, askLevels, false)
      && (liquidityAvailable.Some? ==> liquidityAvailable.value == MapTotal(bidLevels) + MapTotal(askLevels))
    }

    constructor (instrumentId: Option<string>)
      ensures Valid() && this.instrumentId == instrumentId
      ensures Book() == Levels(map[], map[]) && liquidityAvailable.None? && lastObservedInstrumentId.None?
    {
      this.instrumentId := instrumentId;
      lastObservedInstrumentId := None;
      bidLevels, askLevels := map[], map[];
      bestBid, bestAsk, liquidityAvailable := None, None, None;
    }

    method ApplyInPlace(delta: Delta)
      modifies this`bidLevels, this`askLevels
      ensures Book() == ApplyDelta(old(Book()), delta)
    {
      match delta.action {
        case Clear =>
          bidLevels, askLevels := map[], map[];
        case Delete =>
          if delta.side == Buy {
            bidLevels := bidLevels - {delta.price};
          } else if delta.side == Sell {
            askLevels := askLevels - {delta.price};
          }
        case _ =>
          if delta.side == Buy {
            bidLevels := if delta.size > 0.0 then bidLevels[delta.price := delta.size]
                         else bidLevels - {delta.price};
          } else if delta.side == Sell {
            askLevels := if delta.size > 0.0 then askLevels[delta.price := delta.size]
                         else askLevels - {delta.price};
          }
      }
    }

    /** Recompute the cached touch and liquidity from the levels. */
    method RefreshCache()
      requires PositiveSizes(Book())
      modifies this`bestBid, this`bestAsk, this`liquidityAvailable
      ensures Valid() && liquidityAvailable.Some?
    {
      var bids, asks := Ascending(bidLevels), Ascending(askLevels);
      bestBid := if bids == [] then None else Some(bids[|bids| - 1].price);
      bestAsk := if asks == [] then None else Some(asks[0].price);
      liquidityAvailable := Some(TotalSize(bids) + TotalSize(asks));
      forall p | p in bidLevels ensures p <= bids[|bids| - 1].price {
        AscendingEnds(bidLevels, p);
      }
      forall p | p in askLevels ensures asks[0].price <= p {
        AscendingEnds(askLevels, p);
      }
    }

    method UpdateFromDeltas(deltas: seq<Delta>, observedInstrumentId: string)
      requires Valid()
      modifies this
      ensures Valid()
      ensures Book() == ApplyDeltas(old(Book()), deltas)
      ensures lastObservedInstrumentId == Some(observedInstrumentId)
      ensures liquidityAvailable.Some?
    {
      for i := 0 to |deltas|
        invariant Book() == ApplyDeltas(old(Book()), deltas[..i])
      {
        assert deltas[..i + 1][..i] == deltas[..i];
        ApplyInPlace(deltas[i]);
      }
      assert deltas[..|deltas|] == deltas;
      DeltasKeepSizesPositive(old(Book()), deltas);
      lastObservedInstrumentId := Some(observedInstrumentId);
      RefreshCache();
    }

    /**
     Size an order to its slippage allowance: from the lowest ask for a buy and the highest bid for a sell, over that
     side's levels. Without such a price, or when it is not positive, nothing.
     */
    method MaxExecutionWithinVwapSlippageBps(side: OrderSide, slippageBps: nat) returns (r: Option<Execution>)
      requires Valid()
      ensures side.NoOrderSide? ==> r.None?
      ensures side.Buy? ==> SizedFromBest(askLevels, slippageBps, true, r)
      ensures side.Sell? ==> SizedFromBest(bidLevels, slippageBps, false, r)
    {
      match side {
        case Buy => r := SizeSide(askLevels, bestAsk, slippageBps, true);
        case Sell => r := SizeSide(bidLevels, bestBid, slippageBps, false);
        case NoOrderSide => r := None;
      }
    }
  }

  /**
   The sale the sizing gives up on: one bid of size 1 at price 1, with a slippage allowance of 10000 basis points.
   The whole bid is within the limit of zero, and nothing is what is returned.
   */
  lemma FullSlippageSaleExample()
    ensures var levels := [Level(1.0, 1.0)];
            && !IsLargestWithinAllowance(levels, 1.0, 10000, false, None)
            && IsLargestWithinAllowance(levels, 1.0, 10000, false, Some(Execution(1.0, 1.0)))
  {
    var levels := [Level(1.0, 1.0)];
    var allowed := AllowedVwap(1.0, 10000, false);
    assert Usable(levels[0]);
    AllowedVwapSign(1.0, 10000, false);
    NonPositiveLimitAllowsWholeBook(levels, allowed);
    var whole := Greedy(levels, 1, 0.0);
    assert whole == [1.0] && whole[1..] == [] && levels[1..] == [];
    assert Quantity(whole) == 1.0 && Notional(levels, whole) == 1.0;
    LargestIsWithinAllowance(levels, 1.0, 10000, false, None);
    LargestIsWithinAllowance(levels, 1.0, 10000, false, Some(Execution(1.0, 1.0)));
  }
}
