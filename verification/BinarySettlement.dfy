/** Settling binary inventory lots against a resolved market (src/bolt_v3_binary_settlement.rs). */
module BinarySettlement {
  import opened Common

  datatype Leg = Yes | No

  datatype QuoteSide = Buy | Sell

  datatype Lot = Lot(leg: Leg, side: QuoteSide, quantity: real, entryPrice: real)

  /** What each leg pays per share. */
  datatype Payout = Payout(yes: real, no: real) {
    function Of(leg: Leg): real {
      if leg.Yes? then yes else no
    }
  }

  datatype LotResult = LotResult(
    payoutPerShare: real,
    terminalValue: real,
    entryCashflow: real,
    realizedPnl: real,
    closedQuantity: real,
    closedNetYes: real)

  datatype SettlementResult = SettlementResult(
    terminalValue: real,
    entryCashflow: real,
    realizedPnl: real,
    closedQuantity: real,
    closedNetYes: real)

  const FLAT := SettlementResult(0.0, 0.0, 0.0, 0.0, 0.0)

  const YES_WINS := Payout(1.0, 0.0)

  const NO_WINS := Payout(0.0, 1.0)

  predicate Terminal(value: real) {
    value == 0.0 || value == 1.0
  }

  /** A terminal payout pays exactly one leg, so there are two of them and nothing else is accepted. */
  function NewPayout(yes: real, no: real): (r: Option<Payout>)
    ensures r.Some? ==> r.value in {YES_WINS, NO_WINS} && r.value == Payout(yes, no)
    ensures r.None? ==> Payout(yes, no) !in {YES_WINS, NO_WINS}
  {
    if !Terminal(yes) || !Terminal(no) || yes == no then None else Some(Payout(yes, no))
  }

  predicate LotValid(lot: Lot) {
    lot.quantity > 0.0 && 0.0 <= lot.entryPrice <= 1.0
  }

  function SignedNetYes(leg: Leg, side: QuoteSide, quantity: real): Option<real> {
    if quantity <= 0.0 then None
    else if leg.Yes? == side.Buy? then Some(quantity)
    else Some(0.0 - quantity)
  }

  function SettleLot(payout: Payout, lot: Lot): Option<LotResult> {
    if lot.quantity <= 0.0 then None
    else if !(0.0 <= lot.entryPrice <= 1.0) then None
    else
      var terminal := lot.quantity * payout.Of(lot.leg);
      var entry := lot.quantity * lot.entryPrice;
      match SignedNetYes(lot.leg, lot.side, lot.quantity)
      case None => None
      case Some(net) =>
        Some(LotResult(
               payout.Of(lot.leg),
               terminal,
               if lot.side.Buy? then 0.0 - entry else entry,
               if lot.side.Buy? then terminal - entry else entry - terminal,
               lot.quantity,
               net))
  }

  function Add(a: SettlementResult, b: SettlementResult): SettlementResult {
    SettlementResult(
      a.terminalValue + b.terminalValue,
      a.entryCashflow + b.entryCashflow,
      a.realizedPnl + b.realizedPnl,
      a.closedQuantity + b.closedQuantity,
      a.closedNetYes + b.closedNetYes)
  }

  /** A lot's own contribution; nothing for a lot that cannot be settled. */
  function Share(payout: Payout, lot: Lot): SettlementResult {
    match SettleLot(payout, lot)
    case None => FLAT
    case Some(r) =>
      SettlementResult(r.terminalValue, r.entryCashflow, r.realizedPnl, r.closedQuantity, r.closedNetYes)
  }

  function Shares(payout: Payout, lots: seq<Lot>): (s: seq<SettlementResult>)
    ensures |s| == |lots|
  {
    seq(|lots|, i requires 0 <= i < |lots| => Share(payout, lots[i]))
  }

  function Sum(s: seq<SettlementResult>): SettlementResult {
    if s == [] then FLAT else Add(Sum(s[..|s| - 1]), s[|s| - 1])
  }

  function Totals(payout: Payout, lots: seq<Lot>): SettlementResult {
    Sum(Shares(payout, lots))
  }

  predicate AllValid(lots: seq<Lot>) {
    forall i :: 0 <= i < |lots| ==> LotValid(lots[i])
  }

  /** Settle the whole book: refused exactly when some lot is invalid, else the sum of the lots' contributions. */
  method SettleBinaryLots(payout: Payout, lots: seq<Lot>) returns (r: Option<SettlementResult>)
    ensures r == if AllValid(lots) then Some(Totals(payout, lots)) else None
  {
    var result := FLAT;
    for i := 0 to |lots|
      invariant AllValid(lots[..i])
      invariant result == Totals(payout, lots[..i])
    {
      assert Shares(payout, lots[..i + 1])[..i] == Shares(payout, lots[..i]);
      match SettleLot(payout, lots[i])
      case None =>
        assert !LotValid(lots[i]);
        return None;
      case Some(lot) =>
        result := SettlementResult(
          result.terminalValue + lot.terminalValue,
          result.entryCashflow + lot.entryCashflow,
          result.realizedPnl + lot.realizedPnl,
          result.closedQuantity + lot.closedQuantity,
          result.closedNetYes + lot.closedNetYes);
    }
    assert lots[..|lots|] == lots;
    return Some(result);
  }

  /**
   One valid lot in full. A buy pays quantity times price and collects the payout; a sale collects and pays. Net YES
   is lengthened by buying YES or selling NO, and shortened by the others.
   */
  lemma LotMeans(payout: Payout, lot: Lot)
    requires LotValid(lot)
    ensures var s := Share(payout, lot);
            var perShare := if lot.leg == Yes then payout.yes else payout.no;
            && s.closedQuantity == lot.quantity
            && s.terminalValue == lot.quantity * perShare
            && (lot.side == Buy ==>
                  && s.entryCashflow == -(lot.quantity * lot.entryPrice)
                  && s.realizedPnl == s.entryCashflow + s.terminalValue)
            && (lot.side == Sell ==>
                  && s.entryCashflow == lot.quantity * lot.entryPrice
                  && s.realizedPnl == s.entryCashflow - s.terminalValue)
            && ((lot.leg == Yes && lot.side == Buy) || (lot.leg == No && lot.side == Sell) ==>
                  s.closedNetYes == lot.quantity)
            && ((lot.leg == Yes && lot.side == Sell) || (lot.leg == No && lot.side == Buy) ==>
                  s.closedNetYes == -lot.quantity)
  {
  }

  /** A lot that is not valid settles to nothing at all. */
  lemma InvalidLotIsRefused(payout: Payout, lot: Lot)
    ensures SettleLot(payout, lot).None? <==> lot.quantity <= 0.0 || lot.entryPrice < 0.0 || lot.entryPrice > 1.0
  {
  }

  predicate OneSided(lots: seq<Lot>, side: QuoteSide) {
    forall i :: 0 <= i < |lots| ==> LotValid(lots[i]) && lots[i].side == side
  }

  /** Profit is cash flow with the terminal value added. */
  predicate Collects(s: SettlementResult) {
    s.realizedPnl == s.entryCashflow + s.terminalValue
  }

  /** Profit is cash flow with the terminal value paid out. */
  predicate PaysOut(s: SettlementResult) {
    s.realizedPnl == s.entryCashflow - s.terminalValue
  }

  lemma {:induction false} SumCollects(s: seq<SettlementResult>)
    requires forall i :: 0 <= i < |s| ==> Collects(s[i])
    ensures Collects(Sum(s))
    decreases |s|
  {
    if s != [] {
      SumCollects(s[..|s| - 1]);
    }
  }

  lemma {:induction false} SumPaysOut(s: seq<SettlementResult>)
    requires forall i :: 0 <= i < |s| ==> PaysOut(s[i])
    ensures PaysOut(Sum(s))
    decreases |s|
  {
    if s != [] {
      SumPaysOut(s[..|s| - 1]);
    }
  }

  /** A bought book makes its payout on top of what it paid; a sold book keeps what it was paid less the payout. */
  lemma {:induction false} BookMakes(payout: Payout, lots: seq<Lot>)
    ensures OneSided(lots, Buy) ==> Collects(Totals(payout, lots))
    ensures OneSided(lots, Sell) ==> PaysOut(Totals(payout, lots))
  {
    var s := Shares(payout, lots);
    forall i | 0 <= i < |lots| && LotValid(lots[i])
      ensures lots[i].side == Buy ==> Collects(s[i])
      ensures lots[i].side == Sell ==> PaysOut(s[i])
    {
      LotMeans(payout, lots[i]);
    }
    if OneSided(lots, Buy) {
      SumCollects(s);
    }
    if OneSided(lots, Sell) {
      SumPaysOut(s);
    }
  }

  // ---------- What a settled book means ----------

  /**
   Two settlements of one book, for YES winning and for NO winning: they differ by the net YES closed, each share pays
   in exactly one of them, and cash flow, quantity and net YES do not depend on the outcome.
   */
  predicate HedgePair(y: SettlementResult, n: SettlementResult) {
    && y.realizedPnl - n.realizedPnl == y.closedNetYes == n.closedNetYes
    && y.terminalValue + n.terminalValue == y.closedQuantity == n.closedQuantity
    && y.entryCashflow == n.entryCashflow
  }

  lemma ShareIsHedgePair(lot: Lot)
    ensures HedgePair(Share(YES_WINS, lot), Share(NO_WINS, lot))
  {
  }

  lemma {:induction false} SumKeepsHedgePairs(ys: seq<SettlementResult>, ns: seq<SettlementResult>)
    requires |ys| == |ns| && forall i :: 0 <= i < |ys| ==> HedgePair(ys[i], ns[i])
    ensures HedgePair(Sum(ys), Sum(ns))
    decreases |ys|
  {
    if ys != [] {
      SumKeepsHedgePairs(ys[..|ys| - 1], ns[..|ns| - 1]);
    }
  }

  /** The hedge identity, for every book. */
  lemma {:induction false} HedgeIdentity(lots: seq<Lot>)
    ensures HedgePair(Totals(YES_WINS, lots), Totals(NO_WINS, lots))
  {
    var ys, ns := Shares(YES_WINS, lots), Shares(NO_WINS, lots);
    forall i | 0 <= i < |lots| ensures HedgePair(ys[i], ns[i]) {
      ShareIsHedgePair(lots[i]);
    }
    SumKeepsHedgePairs(ys, ns);
  }

  /** A book makes the same in both outcomes exactly when its net YES is zero. */
  lemma {:induction false} HedgedExactly(lots: seq<Lot>, payout: Payout)
    requires payout in {YES_WINS, NO_WINS}
    ensures Totals(YES_WINS, lots).realizedPnl == Totals(NO_WINS, lots).realizedPnl
       <==> Totals(payout, lots).closedNetYes == 0.0
  {
    HedgeIdentity(lots);
  }

  function Mirror(lot: Lot): Lot {
    lot.(side := if lot.side.Buy? then Sell else Buy)
  }

  function MirrorAll(lots: seq<Lot>): seq<Lot> {
    seq(|lots|, i requires 0 <= i < |lots| => Mirror(lots[i]))
  }

  /** Money changes hands and nothing more: gains, cash flows and net YES cancel, volumes agree. */
  predicate Balances(a: SettlementResult, b: SettlementResult) {
    && a.realizedPnl + b.realizedPnl == 0.0
    && a.entryCashflow + b.entryCashflow == 0.0
    && a.closedNetYes + b.closedNetYes == 0.0
    && a.terminalValue == b.terminalValue && a.closedQuantity == b.closedQuantity
  }

  lemma ShareBalances(payout: Payout, lot: Lot)
    ensures Balances(Share(payout, lot), Share(payout, Mirror(lot)))
  {
  }

  lemma {:induction false} SumKeepsBalances(a: seq<SettlementResult>, b: seq<SettlementResult>)
    requires |a| == |b| && forall i :: 0 <= i < |a| ==> Balances(a[i], b[i])
    ensures Balances(Sum(a), Sum(b))
    decreases |a|
  {
    if a != [] {
      SumKeepsBalances(a[..|a| - 1], b[..|b| - 1]);
    }
  }

  /** The other side of every lot loses what this side makes. */
  lemma {:induction false} CounterpartyBalances(payout: Payout, lots: seq<Lot>)
    ensures Balances(Totals(payout, lots), Totals(payout, MirrorAll(lots)))
  {
    var a, b := Shares(payout, lots), Shares(payout, MirrorAll(lots));
    forall i | 0 <= i < |lots| ensures Balances(a[i], b[i]) {
      ShareBalances(payout, lots[i]);
    }
    SumKeepsBalances(a, b);
  }

  lemma {:induction false} SumConcat(a: seq<SettlementResult>, b: seq<SettlementResult>)
    ensures Sum(a + b) == Add(Sum(a), Sum(b))
    decreases |b|
  {
    if b == [] {
      assert a + b == a;
    } else {
      var front := b[..|b| - 1];
      assert (a + b)[..|a + b| - 1] == a + front;
      SumConcat(a, front);
    }
  }

  lemma {:induction false} SharesConcat(payout: Payout, a: seq<Lot>, b: seq<Lot>)
    ensures Shares(payout, a + b) == Shares(payout, a) + Shares(payout, b)
  {
  }

  /** Books settle separately or together alike. */
  lemma {:induction false} BooksCombine(payout: Payout, a: seq<Lot>, b: seq<Lot>)
    ensures Totals(payout, a + b) == Add(Totals(payout, a), Totals(payout, b))
  {
    SharesConcat(payout, a, b);
    SumConcat(Shares(payout, a), Shares(payout, b));
  }

  lemma {:induction false} SumOne(x: SettlementResult)
    ensures Sum([x]) == x
  {
    assert [x][..0] == [];
  }

  /** Taking one addend out of the middle and putting it first changes nothing. */
  lemma {:induction false} SumMovesFirst(x: SettlementResult, head: seq<SettlementResult>, tail: seq<SettlementResult>)
    ensures Sum(head + ([x] + tail)) == Add(x, Sum(head + tail))
  {
    SumConcat(head, [x] + tail);
    SumConcat([x], tail);
    SumConcat(head, tail);
    SumOne(x);
  }

  /** The order of the lots does not matter. */
  lemma {:induction false} LotOrderIsIrrelevant(payout: Payout, a: seq<Lot>, b: seq<Lot>)
    requires multiset(a) == multiset(b)
    ensures Totals(payout, a) == Totals(payout, b)
    decreases |a|
  {
    if a == [] {
      assert |multiset(b)| == 0;
    } else {
      var k := PermutationHead(a, b);
      LotOrderIsIrrelevant(payout, a[1..], Without(b, k));
      var x := Share(payout, a[0]);
      var head, tail := Shares(payout, b[..k]), Shares(payout, b[k + 1..]);
      assert Shares(payout, a) == [] + ([x] + Shares(payout, a[1..]));
      assert [] + Shares(payout, a[1..]) == Shares(payout, a[1..]);
      assert Shares(payout, b) == head + ([x] + tail);
      assert Shares(payout, Without(b, k)) == head + tail;
      SumMovesFirst(x, [], Shares(payout, a[1..]));
      SumMovesFirst(x, head, tail);
    }
  }

  /** Nor does it for whether the book can be settled at all. */
  lemma OrderKeepsValidity(a: seq<Lot>, b: seq<Lot>)
    requires multiset(a) == multiset(b)
    ensures AllValid(a) ==> AllValid(b)
  {
    forall i | 0 <= i < |b| && AllValid(a) ensures LotValid(b[i]) {
      assert b[i] in multiset(a);
    }
  }
}
