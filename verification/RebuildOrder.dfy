/**
 When the order of rebuild evidence matters (src/bolt_v3_capital_admission.rs). Open orders are checked against the
 budget as they are staged and carried reservations are not, so what is accepted depends on which come first.
 */
module RebuildOrder {
  import opened Common
  import opened Decimals
  import opened CapitalReservation
  import opened CapitalAdmission

  /** Every item valid for the pool and no request id repeated: what no order can change. */
  predicate WellFormed(pool: PoolSnapshot, evidence: seq<Evidence>, nowNs: nat) {
    AllEvidenceValid(pool, evidence, nowNs) && Distinct(RequestIds(evidence))
  }

  predicate HasOpenOrder(evidence: seq<Evidence>) {
    exists i :: 0 <= i < |evidence| && evidence[i].NtOpenOrder?
  }

  /** The open orders of a list, or its carries, in order. */
  function Select(evidence: seq<Evidence>, openOrders: bool): seq<Evidence> {
    if evidence == [] then []
    else
      var n := |evidence| - 1;
      Select(evidence[..n], openOrders) + if evidence[n].NtOpenOrder? == openOrders then [evidence[n]] else []
  }

  function GrandTotal(evidence: seq<Evidence>, poolId: string): real {
    TrueTotal(Entries(evidence), poolId)
  }

  /** The total of the open orders alone. */
  function OpenTotal(evidence: seq<Evidence>, poolId: string): real {
    GrandTotal(Select(evidence, true), poolId)
  }

  // ---------- Selecting ----------

  lemma CountSnoc(s: seq<Evidence>, x: Evidence, e: Evidence)
    ensures multiset(s + [x])[e] == multiset(s)[e] + if x == e then 1 else 0
  {
  }

  lemma SelectSnoc(rest: seq<Evidence>, last: Evidence, openOrders: bool)
    ensures Select(rest + [last], openOrders)
         == if last.NtOpenOrder? == openOrders then Select(rest, openOrders) + [last] else Select(rest, openOrders)
  {
    assert (rest + [last])[..|rest|] == rest;
    assert Select(rest, openOrders) + [] == Select(rest, openOrders);
  }

  lemma {:induction false} SelectCounts(evidence: seq<Evidence>, openOrders: bool, e: Evidence)
    ensures multiset(Select(evidence, openOrders))[e]
         == if e.NtOpenOrder? == openOrders then multiset(evidence)[e] else 0
  {
    if evidence != [] {
      var rest, last := evidence[..|evidence| - 1], evidence[|evidence| - 1];
      assert evidence == rest + [last];
      SelectCounts(rest, openOrders, e);
      SelectSnoc(rest, last, openOrders);
      CountSnoc(rest, last, e);
      CountSnoc(Select(rest, openOrders), last, e);
    }
  }

  lemma SelectPermutes(a: seq<Evidence>, b: seq<Evidence>, openOrders: bool)
    requires multiset(a) == multiset(b)
    ensures multiset(Select(a, openOrders)) == multiset(Select(b, openOrders))
  {
    forall e ensures multiset(Select(a, openOrders))[e] == multiset(Select(b, openOrders))[e] {
      SelectCounts(a, openOrders, e);
      SelectCounts(b, openOrders, e);
    }
  }

  /** The open orders and the carries together are the evidence. */
  lemma SelectSplits(evidence: seq<Evidence>)
    ensures multiset(Select(evidence, true) + Select(evidence, false)) == multiset(evidence)
  {
    var all := Select(evidence, true) + Select(evidence, false);
    forall e ensures multiset(all)[e] == multiset(evidence)[e] {
      SelectCounts(evidence, true, e);
      SelectCounts(evidence, false, e);
    }
  }

  lemma SelectMembers(evidence: seq<Evidence>, openOrders: bool, i: nat)
    requires i < |Select(evidence, openOrders)|
    ensures Select(evidence, openOrders)[i] in evidence
    ensures Select(evidence, openOrders)[i].NtOpenOrder? == openOrders
  {
    var e := Select(evidence, openOrders)[i];
    assert e in multiset(Select(evidence, openOrders));
    SelectCounts(evidence, openOrders, e);
    assert e in multiset(evidence);
  }

  lemma SomeOpenSelected(evidence: seq<Evidence>)
    ensures HasOpenOrder(evidence) <==> Select(evidence, true) != []
  {
    if i :| 0 <= i < |evidence| && evidence[i].NtOpenOrder? {
      SelectCounts(evidence, true, evidence[i]);
      assert evidence[i] in multiset(evidence);
      assert evidence[i] in multiset(Select(evidence, true));
    }
    if Select(evidence, true) != [] {
      SelectMembers(evidence, true, 0);
    }
  }

  // ---------- What reordering keeps ----------

  /** Reordering keeps well-formedness, both totals and whether there is an open order. */
  lemma ReorderingKeeps(pool: PoolSnapshot, a: seq<Evidence>, b: seq<Evidence>, nowNs: nat)
    requires multiset(a) == multiset(b)
    ensures WellFormed(pool, a, nowNs) <==> WellFormed(pool, b, nowNs)
    ensures GrandTotal(a, pool.poolId) == GrandTotal(b, pool.poolId)
    ensures OpenTotal(a, pool.poolId) == OpenTotal(b, pool.poolId)
    ensures HasOpenOrder(a) <==> HasOpenOrder(b)
  {
    WellFormedPermutes(pool, a, b, nowNs);
    EntriesPermute(a, b, pool.poolId);
    SelectPermutes(a, b, true);
    EntriesPermute(Select(a, true), Select(b, true), pool.poolId);
    SomeOpenSelected(a);
    SomeOpenSelected(b);
    assert |Select(a, true)| == |multiset(Select(a, true))| == |Select(b, true)|;
  }

  lemma WellFormedPermutes(pool: PoolSnapshot, a: seq<Evidence>, b: seq<Evidence>, nowNs: nat)
    requires multiset(a) == multiset(b)
    ensures WellFormed(pool, a, nowNs) <==> WellFormed(pool, b, nowNs)
  {
    assert forall x :: x in a <==> x in multiset(a);
    assert forall x :: x in b <==> x in multiset(b);
    assert |a| == |multiset(a)| == |multiset(b)| == |b|;
    SameMembers(pool, a, b, nowNs);
    SameMembers(pool, b, a, nowNs);
    DistinctByCount(RequestIds(a));
    DistinctByCount(RequestIds(b));
    assert (set x | x in RequestIds(a)) == (set x | x in RequestIds(b));
  }

  // ---------- Sufficient and necessary totals ----------

  /** If the grand total fits, the order at hand is staged. */
  lemma GrandTotalSuffices(pool: PoolSnapshot, evidence: seq<Evidence>, nowNs: nat, floor: Option<Decimal>)
    requires WellFormed(pool, evidence, nowNs)
    requires HasOpenOrder(evidence) ==> FitsBudget(pool, GrandTotal(evidence, pool.poolId), floor)
    ensures StageAll(pool, evidence, nowNs, floor).Staged?
  {
    forall k | 0 <= k < |evidence| && evidence[k].NtOpenOrder?
      ensures FitsBudget(pool, TotalThrough(evidence, k, pool.poolId), floor)
    {
      TotalThroughIsBounded(pool, evidence, k, nowNs);
    }
    StageAllExactly(pool, evidence, nowNs, floor);
  }

  /** A staged list that ends in an open order has its grand total inside the budget. */
  lemma EndingInOpenOrderNeedsGrandTotal(pool: PoolSnapshot, evidence: seq<Evidence>, nowNs: nat,
                                         floor: Option<Decimal>)
    requires evidence != [] && evidence[|evidence| - 1].NtOpenOrder?
    requires StageAll(pool, evidence, nowNs, floor).Staged?
    ensures FitsBudget(pool, GrandTotal(evidence, pool.poolId), floor)
  {
    StageAllExactly(pool, evidence, nowNs, floor);
    AcceptableSnoc(pool, evidence, nowNs, floor);
  }

  lemma {:induction false} OpenTotalIsBounded(pool: PoolSnapshot, evidence: seq<Evidence>, nowNs: nat)
    requires AllEvidenceValid(pool, evidence, nowNs)
    ensures OpenTotal(evidence, pool.poolId) <= GrandTotal(evidence, pool.poolId)
  {
    if evidence != [] {
      var n := |evidence| - 1;
      var e := evidence[n];
      OpenTotalIsBounded(pool, evidence[..n], nowNs);
      assert EvidenceValid(pool, e, nowNs);
      TotalSnoc(evidence, pool.poolId);
      OpenTotalSnoc(evidence, pool.poolId);
    }
  }

  lemma TotalSnoc(evidence: seq<Evidence>, poolId: string)
    requires evidence != []
    ensures GrandTotal(evidence, poolId)
         == GrandTotal(evidence[..|evidence| - 1], poolId) + Contribution(EntryOf(evidence[|evidence| - 1]), poolId)
  {
    var n := |evidence| - 1;
    assert Entries(evidence) == Entries(evidence[..n]) + [EntryOf(evidence[n])];
    TotalPush(Entries(evidence[..n]), EntryOf(evidence[n]), poolId);
  }

  lemma OpenTotalSnoc(evidence: seq<Evidence>, poolId: string)
    requires evidence != []
    ensures OpenTotal(evidence, poolId) == OpenTotal(evidence[..|evidence| - 1], poolId)
         + if evidence[|evidence| - 1].NtOpenOrder? then Contribution(EntryOf(evidence[|evidence| - 1]), poolId) else 0.0
  {
    var n := |evidence| - 1;
    var before := Select(evidence[..n], true);
    if evidence[n].NtOpenOrder? {
      assert (before + [evidence[n]])[..|before|] == before;
      TotalSnoc(before + [evidence[n]], poolId);
    } else {
      assert before + [] == before;
    }
  }

  /** Whatever the order, an accepted list has the total of its open orders inside the budget. */
  lemma {:induction false} AcceptanceNeedsOpenTotal(pool: PoolSnapshot, evidence: seq<Evidence>, nowNs: nat,
                                                    floor: Option<Decimal>)
    requires Acceptable(pool, evidence, nowNs, floor) && HasOpenOrder(evidence)
    ensures FitsBudget(pool, OpenTotal(evidence, pool.poolId), floor)
  {
    var n := |evidence| - 1;
    AcceptableSnoc(pool, evidence, nowNs, floor);
    if evidence[n].NtOpenOrder? {
      OpenTotalIsBounded(pool, evidence, nowNs);
    } else {
      EarlierOpenOrder(evidence);
      AcceptanceNeedsOpenTotal(pool, evidence[..n], nowNs, floor);
      OpenTotalSnoc(evidence, pool.poolId);
    }
  }

  lemma EarlierOpenOrder(evidence: seq<Evidence>)
    requires HasOpenOrder(evidence) && !evidence[|evidence| - 1].NtOpenOrder?
    ensures HasOpenOrder(evidence[..|evidence| - 1])
  {
    var i :| 0 <= i < |evidence| && evidence[i].NtOpenOrder?;
    assert evidence[..|evidence| - 1][i] == evidence[i];
  }

  /** With the open orders first, their total is all the budget is asked for. */
  lemma OpenOrdersFirstSuffices(pool: PoolSnapshot, evidence: seq<Evidence>, nowNs: nat, floor: Option<Decimal>)
    requires WellFormed(pool, evidence, nowNs)
    requires HasOpenOrder(evidence) ==> FitsBudget(pool, OpenTotal(evidence, pool.poolId), floor)
    ensures StageAll(pool, Select(evidence, true) + Select(evidence, false), nowNs, floor).Staged?
  {
    var open, carried := Select(evidence, true), Select(evidence, false);
    var all := open + carried;
    SelectSplits(evidence);
    WellFormedPermutes(pool, all, evidence, nowNs);
    SomeOpenSelected(evidence);
    forall i | 0 <= i < |carried| ensures !carried[i].NtOpenOrder? {
      SelectMembers(evidence, false, i);
    }
    LeadingTotalsFit(pool, open, carried, nowNs, floor);
    StageAllExactly(pool, all, nowNs, floor);
  }

  lemma LeadingTotalsFit(pool: PoolSnapshot, open: seq<Evidence>, carried: seq<Evidence>, nowNs: nat,
                         floor: Option<Decimal>)
    requires AllEvidenceValid(pool, open + carried, nowNs)
    requires forall i :: 0 <= i < |carried| ==> !carried[i].NtOpenOrder?
    requires open != [] ==> FitsBudget(pool, GrandTotal(open, pool.poolId), floor)
    ensures OpenOrdersFit(pool, open + carried, floor)
  {
    var all := open + carried;
    assert AllEvidenceValid(pool, open, nowNs) by {
      assert forall i :: 0 <= i < |open| ==> all[i] == open[i];
    }
    forall k | 0 <= k < |all| && all[k].NtOpenOrder? ensures FitsBudget(pool, TotalThrough(all, k, pool.poolId), floor) {
      assert k < |open|;
      assert Entries(all)[..k + 1] == Entries(open)[..k + 1];
      TotalThroughIsBounded(pool, open, k, nowNs);
    }
  }

  // ---------- The exact conditions ----------

  ghost predicate EveryOrderIsStaged(pool: PoolSnapshot, evidence: seq<Evidence>, nowNs: nat, floor: Option<Decimal>) {
    forall b :: multiset(b) == multiset(evidence) ==> StageAll(pool, b, nowNs, floor).Staged?
  }

  ghost predicate SomeOrderIsStaged(pool: PoolSnapshot, evidence: seq<Evidence>, nowNs: nat, floor: Option<Decimal>) {
    exists b :: multiset(b) == multiset(evidence) && StageAll(pool, b, nowNs, floor).Staged?
  }

  /** All orders of the evidence are accepted, or none is. */
  ghost predicate OrderIsIrrelevant(pool: PoolSnapshot, evidence: seq<Evidence>, nowNs: nat, floor: Option<Decimal>) {
    forall a, b :: multiset(a) == multiset(evidence) && multiset(b) == multiset(evidence) ==>
      (StageAll(pool, a, nowNs, floor).Staged? <==> StageAll(pool, b, nowNs, floor).Staged?)
  }

  /** Every order is accepted exactly when the evidence is well formed and has no open order or fits as a whole. */
  lemma EveryOrderExactly(pool: PoolSnapshot, evidence: seq<Evidence>, nowNs: nat, floor: Option<Decimal>)
    ensures EveryOrderIsStaged(pool, evidence, nowNs, floor)
       <==> && WellFormed(pool, evidence, nowNs)
            && (HasOpenOrder(evidence) ==> FitsBudget(pool, GrandTotal(evidence, pool.poolId), floor))
  {
    if EveryOrderIsStaged(pool, evidence, nowNs, floor) {
      StageAllExactly(pool, evidence, nowNs, floor);
      if HasOpenOrder(evidence) {
        CarriesFirstReorders(evidence);
        CarriesFirstNeedsGrandTotal(pool, evidence, nowNs, floor);
      }
    }
    if && WellFormed(pool, evidence, nowNs)
       && (HasOpenOrder(evidence) ==> FitsBudget(pool, GrandTotal(evidence, pool.poolId), floor))
    {
      forall b | multiset(b) == multiset(evidence) ensures StageAll(pool, b, nowNs, floor).Staged? {
        ReorderingKeeps(pool, evidence, b, nowNs);
        GrandTotalSuffices(pool, b, nowNs, floor);
      }
    }
  }

  /** With the carries first and an open order last, acceptance needs the grand total. */
  lemma CarriesFirstNeedsGrandTotal(pool: PoolSnapshot, evidence: seq<Evidence>, nowNs: nat, floor: Option<Decimal>)
    requires HasOpenOrder(evidence)
    requires StageAll(pool, CarriesFirst(evidence), nowNs, floor).Staged?
    ensures FitsBudget(pool, GrandTotal(evidence, pool.poolId), floor)
  {
    CarriesFirstReorders(evidence);
    EndingInOpenOrderNeedsGrandTotal(pool, CarriesFirst(evidence), nowNs, floor);
    EntriesPermute(evidence, CarriesFirst(evidence), pool.poolId);
  }

  function CarriesFirst(evidence: seq<Evidence>): seq<Evidence> {
    Select(evidence, false) + Select(evidence, true)
  }

  lemma CarriesFirstReorders(evidence: seq<Evidence>)
    requires HasOpenOrder(evidence)
    ensures multiset(CarriesFirst(evidence)) == multiset(evidence)
    ensures var last := CarriesFirst(evidence); last != [] && last[|last| - 1].NtOpenOrder?
  {
    var open, carried := Select(evidence, true), Select(evidence, false);
    SelectSplits(evidence);
    assert multiset(carried + open) == multiset(open + carried);
    SomeOpenSelected(evidence);
    SelectMembers(evidence, true, |open| - 1);
  }

  /** Some order is accepted exactly when the evidence is well formed and its open orders alone fit. */
  lemma SomeOrderExactly(pool: PoolSnapshot, evidence: seq<Evidence>, nowNs: nat, floor: Option<Decimal>)
    ensures SomeOrderIsStaged(pool, evidence, nowNs, floor)
       <==> && WellFormed(pool, evidence, nowNs)
            && (HasOpenOrder(evidence) ==> FitsBudget(pool, OpenTotal(evidence, pool.poolId), floor))
  {
    if SomeOrderIsStaged(pool, evidence, nowNs, floor) {
      var b :| multiset(b) == multiset(evidence) && StageAll(pool, b, nowNs, floor).Staged?;
      StageAllExactly(pool, b, nowNs, floor);
      ReorderingKeeps(pool, evidence, b, nowNs);
      if HasOpenOrder(b) {
        AcceptanceNeedsOpenTotal(pool, b, nowNs, floor);
      }
    }
    if && WellFormed(pool, evidence, nowNs)
       && (HasOpenOrder(evidence) ==> FitsBudget(pool, OpenTotal(evidence, pool.poolId), floor))
    {
      OpenOrdersFirstSuffices(pool, evidence, nowNs, floor);
      SelectSplits(evidence);
    }
  }

  /**
   Exactly when order is irrelevant: an item is invalid or an id repeated, there is no open order, everything fits
   together, or not even the open orders fit.
   */
  lemma OrderIsIrrelevantExactly(pool: PoolSnapshot, evidence: seq<Evidence>, nowNs: nat, floor: Option<Decimal>)
    ensures OrderIsIrrelevant(pool, evidence, nowNs, floor)
       <==> || !WellFormed(pool, evidence, nowNs)
            || !HasOpenOrder(evidence)
            || FitsBudget(pool, GrandTotal(evidence, pool.poolId), floor)
            || !FitsBudget(pool, OpenTotal(evidence, pool.poolId), floor)
  {
    EveryOrderExactly(pool, evidence, nowNs, floor);
    SomeOrderExactly(pool, evidence, nowNs, floor);
    AllOrNone(pool, evidence, nowNs, floor);
  }

  lemma AllOrNone(pool: PoolSnapshot, evidence: seq<Evidence>, nowNs: nat, floor: Option<Decimal>)
    ensures OrderIsIrrelevant(pool, evidence, nowNs, floor)
       <==> (SomeOrderIsStaged(pool, evidence, nowNs, floor) ==> EveryOrderIsStaged(pool, evidence, nowNs, floor))
  {
  }

  /** Two orders that are both accepted rebuild the same multiset of entries. */
  lemma AcceptedOrdersAgree(pool: PoolSnapshot, a: seq<Evidence>, b: seq<Evidence>, nowNs: nat, floor: Option<Decimal>)
    requires multiset(a) == multiset(b)
    requires StageAll(pool, a, nowNs, floor).Staged? && StageAll(pool, b, nowNs, floor).Staged?
    ensures multiset(StageAll(pool, a, nowNs, floor).ledger.live) == multiset(StageAll(pool, b, nowNs, floor).ledger.live)
  {
    StageAllExactly(pool, a, nowNs, floor);
    StageAllExactly(pool, b, nowNs, floor);
    EntriesPermute(a, b, pool.poolId);
  }
}
