/**
 Flatten evidence of the kill switch: the conflict-checked position snapshot, the summary cascade over
 attempt outcomes and its per-command aggregation (src/bolt_v3_kill_switch_flatten.rs).
 */
module KillSwitchFlatten {
  import opened Common

  // ---------- Position snapshot ----------

  datatype PositionSide = Long | Short | FlatSide | NoPositionSide

  datatype OrderSide = BuySide | SellSide

  datatype Position = Position(accountId: string, instrumentId: string, strategyId: string, positionId: string)

  datatype Candidate = Candidate(position: Position, side: PositionSide, quantity: nat, fromCache: bool,
                                 sourceTimestampNs: nat)

  datatype FlattenError = ConflictingPositionProof | UnknownOutcomeCommand

  /** Two proofs of one position that disagree on its side or size. */
  predicate Conflict(a: Candidate, b: Candidate) {
    a.position == b.position && (a.side != b.side || a.quantity != b.quantity)
  }

  predicate ConflictFree(candidates: seq<Candidate>) {
    forall i, j :: 0 <= i < j < |candidates| ==> !Conflict(candidates[i], candidates[j])
  }

  predicate ObservedOpen(side: PositionSide) {
    side == Long || side == Short
  }

  datatype Snapshot = Snapshot(
    candidates: map<Position, Candidate>,
    openPositions: set<Position>,
    flatPositions: set<Position>,
    unknownSidePositions: set<Position>)

  function OpenOf(candidates: map<Position, Candidate>): set<Position> {
    set p | p in candidates && ObservedOpen(candidates[p].side)
  }

  method ValidateNoConflictingPositionProof(candidates: seq<Candidate>) returns (ok: bool)
    ensures ok <==> ConflictFree(candidates)
  {
    for i := 0 to |candidates|
      invariant forall k, j :: 0 <= k < i && k < j < |candidates| ==> !Conflict(candidates[k], candidates[j])
    {
      for j := i + 1 to |candidates|
        invariant forall m :: i < m < j ==> !Conflict(candidates[i], candidates[m])
      {
        if Conflict(candidates[i], candidates[j]) {
          return false;
        }
      }
    }
    return true;
  }

  /** One proof per position, the first given. */
  function KeepFirst(candidates: seq<Candidate>): map<Position, Candidate> {
    if candidates == [] then map[]
    else
      var n := |candidates| - 1;
      var kept := KeepFirst(candidates[..n]);
      if candidates[n].position in kept then kept else kept[candidates[n].position := candidates[n]]
  }

  function SnapshotOf(candidates: seq<Candidate>): Snapshot {
    var kept := KeepFirst(candidates);
    Snapshot(kept,
             OpenOf(kept),
             set p | p in kept && kept[p].side == FlatSide,
             set p | p in kept && kept[p].side == NoPositionSide)
  }

  /** What is kept: a given proof of each position proved, and none else. */
  lemma {:induction false} KeptProofs(candidates: seq<Candidate>)
    ensures forall c :: c in candidates ==> c.position in KeepFirst(candidates)
    ensures forall p :: p in KeepFirst(candidates) ==>
              KeepFirst(candidates)[p] in candidates && KeepFirst(candidates)[p].position == p
  {
    if candidates != [] {
      var n := |candidates| - 1;
      KeptProofs(candidates[..n]);
      assert candidates == candidates[..n] + [candidates[n]];
    }
  }

  /** A proof put first is kept. */
  lemma {:induction false} FirstIsKept(c: Candidate, rest: seq<Candidate>)
    ensures c.position in KeepFirst([c] + rest) && KeepFirst([c] + rest)[c.position] == c
    decreases |rest|
  {
    var all := [c] + rest;
    if rest == [] {
      assert all == [c] && all[..0] == [];
    } else {
      var n := |rest| - 1;
      FirstIsKept(c, rest[..n]);
      assert all[..|all| - 1] == [c] + rest[..n];
    }
  }

  /** Refuse conflicting proofs, then keep one proof per position and sort positions by side. */
  method NewSnapshot(candidates: seq<Candidate>) returns (r: Result<Snapshot, FlattenError>)
    ensures r.Ok? <==> ConflictFree(candidates)
    ensures r.Err? ==> r.error == ConflictingPositionProof
    ensures r.Ok? ==> r.value == SnapshotOf(candidates)
  {
    var ok := ValidateNoConflictingPositionProof(candidates);
    if !ok {
      return Err(ConflictingPositionProof);
    }
    var scoped: map<Position, Candidate> := map[];
    for i := 0 to |candidates|
      invariant scoped == KeepFirst(candidates[..i])
    {
      assert candidates[..i + 1][..i] == candidates[..i];
      if candidates[i].position !in scoped {
        scoped := scoped[candidates[i].position := candidates[i]];
      }
    }
    assert candidates[..|candidates|] == candidates;
    return Ok(Snapshot(scoped,
                       OpenOf(scoped),
                       set p | p in scoped && scoped[p].side == FlatSide,
                       set p | p in scoped && scoped[p].side == NoPositionSide));
  }

  /** Every position proved is in exactly one of the three classes. */
  lemma SidesPartition(candidates: seq<Candidate>)
    ensures var s := SnapshotOf(candidates);
            && s.openPositions + s.flatPositions + s.unknownSidePositions == (set c | c in candidates :: c.position)
            && s.openPositions !! s.flatPositions !! s.unknownSidePositions
  {
    var s := SnapshotOf(candidates);
    KeptProofs(candidates);
    forall p | p in s.candidates ensures p in s.openPositions + s.flatPositions + s.unknownSidePositions {
      assert s.candidates[p].side == Long || s.candidates[p].side == Short
          || s.candidates[p].side == FlatSide || s.candidates[p].side == NoPositionSide;
    }
    assert s.candidates.Keys == (set c | c in candidates :: c.position);
  }

  /** The flatten order for a position: the opposite side, for its whole size, naming where the size was read. */
  datatype Command = Command(orderSide: OrderSide, quantity: nat, quantityFromCache: bool)

  function CommandFor(c: Candidate): Command {
    Command(if c.side == Long then SellSide else BuySide, c.quantity, c.fromCache)
  }

  function Commands(candidates: seq<Candidate>): map<Position, Command> {
    var kept := KeepFirst(candidates);
    map p | p in OpenOf(kept) :: CommandFor(kept[p])
  }

  /**
   What is traded: exactly the positions proved long or short are flattened, each by the opposite side, for the size
   every proof of it gives.
   */
  lemma CommandsMean(candidates: seq<Candidate>)
    requires ConflictFree(candidates)
    ensures forall p :: p in Commands(candidates)
              <==> exists c :: c in candidates && c.position == p && c.side in {Long, Short}
    ensures forall c :: c in candidates && c.side == Long ==>
              var command := Commands(candidates)[c.position]; command.orderSide == SellSide && command.quantity == c.quantity
    ensures forall c :: c in candidates && c.side == Short ==>
              var command := Commands(candidates)[c.position]; command.orderSide == BuySide && command.quantity == c.quantity
  {
    var kept := KeepFirst(candidates);
    KeptProofs(candidates);
    forall c | c in candidates
      ensures c.position in kept && kept[c.position].side == c.side && kept[c.position].quantity == c.quantity
    {
      NoConflictBetween(candidates, c, kept[c.position]);
    }
  }

  ghost predicate SameProofs(a: seq<Candidate>, b: seq<Candidate>) {
    forall c :: c in a <==> c in b
  }

  /** Two plans with the same positions, sides and sizes. */
  predicate SameOrders(x: map<Position, Command>, y: map<Position, Command>) {
    && x.Keys == y.Keys
    && forall p :: p in x ==> x[p].orderSide == y[p].orderSide && x[p].quantity == y[p].quantity
  }

  /** Two proofs of one open position, read from different places. */
  predicate SourcesDiffer(x: Candidate, y: Candidate) {
    x.position == y.position && ObservedOpen(x.side) && x.fromCache != y.fromCache
  }

  /** The proofs of each open position were all read from the same place. */
  predicate SourcesAgree(candidates: seq<Candidate>) {
    forall i, j :: 0 <= i < |candidates| && 0 <= j < |candidates| ==> !SourcesDiffer(candidates[i], candidates[j])
  }

  lemma KeptAgree(a: seq<Candidate>, b: seq<Candidate>)
    requires SameProofs(a, b) && ConflictFree(a)
    ensures KeepFirst(a).Keys == KeepFirst(b).Keys
    ensures forall p :: p in KeepFirst(a) ==>
              && KeepFirst(a)[p].side == KeepFirst(b)[p].side
              && KeepFirst(a)[p].quantity == KeepFirst(b)[p].quantity
              && (SourcesAgree(a) && ObservedOpen(KeepFirst(a)[p].side) ==>
                    KeepFirst(a)[p].fromCache == KeepFirst(b)[p].fromCache)
  {
    KeptProofs(a);
    KeptProofs(b);
    forall p | p in KeepFirst(a)
      ensures p in KeepFirst(b)
      ensures KeepFirst(a)[p].side == KeepFirst(b)[p].side && KeepFirst(a)[p].quantity == KeepFirst(b)[p].quantity
      ensures SourcesAgree(a) && ObservedOpen(KeepFirst(a)[p].side) ==>
                KeepFirst(a)[p].fromCache == KeepFirst(b)[p].fromCache
    {
      var x, y := KeepFirst(a)[p], KeepFirst(b)[p];
      assert x in b && y in a;
      NoConflictBetween(a, x, y);
      var i :| 0 <= i < |a| && a[i] == x;
      var j :| 0 <= j < |a| && a[j] == y;
      assert SourcesAgree(a) ==> !SourcesDiffer(a[i], a[j]);
    }
  }

  /**
   Keeping the first proof is safe for what is traded: once no proofs conflict, the positions to flatten, the sides
   and the sizes depend only on which proofs were given, not on their order or repetition.
   */
  lemma PlanIgnoresProofOrder(a: seq<Candidate>, b: seq<Candidate>)
    requires SameProofs(a, b) && ConflictFree(a)
    ensures SameOrders(Commands(a), Commands(b))
    ensures SourcesAgree(a) ==> Commands(a) == Commands(b)
  {
    KeptAgree(a, b);
    assert OpenOf(KeepFirst(a)) == OpenOf(KeepFirst(b));
  }

  /**
   The whole command, with the source of its size, is the same in every order of the proofs exactly when the proofs
   of each open position agree on that source.
   */
  lemma CommandsIgnoreOrderExactly(a: seq<Candidate>)
    requires ConflictFree(a)
    ensures (forall b :: multiset(b) == multiset(a) ==> Commands(b) == Commands(a)) <==> SourcesAgree(a)
  {
    forall b | multiset(b) == multiset(a) && SourcesAgree(a) ensures Commands(b) == Commands(a) {
      assert forall c :: c in a <==> c in multiset(a);
      assert forall c :: c in b <==> c in multiset(b);
      PlanIgnoresProofOrder(a, b);
    }
    if forall b :: multiset(b) == multiset(a) ==> Commands(b) == Commands(a) {
      forall i, j | 0 <= i < |a| && 0 <= j < |a| ensures !SourcesDiffer(a[i], a[j]) {
        if a[i].position == a[j].position && ObservedOpen(a[i].side) {
          NoConflictBetween(a, a[i], a[j]);
          MovedFirst(a, i);
          MovedFirst(a, j);
          assert Commands(ToFront(a, i)) == Commands(ToFront(a, j));
        }
      }
    }
  }

  /** Two agreeing proofs of a long position, from the cache and from a report: the order given shows in the command. */
  lemma SourceOrderExample(cached: Candidate, reported: Candidate)
    requires cached.side == Long && cached.fromCache && reported == cached.(fromCache := false)
    ensures ConflictFree([cached, reported])
    ensures Commands([cached, reported]) != Commands([reported, cached])
  {
    FirstIsKept(cached, [reported]);
    FirstIsKept(reported, [cached]);
    assert [cached, reported] == [cached] + [reported] && [reported, cached] == [reported] + [cached];
    var p := cached.position;
    assert Commands([cached, reported])[p] == CommandFor(cached);
    assert Commands([reported, cached])[p] == CommandFor(reported);
  }

  /** The list with proof `i` moved to the front. */
  function ToFront(a: seq<Candidate>, i: nat): seq<Candidate>
    requires i < |a|
  {
    [a[i]] + Without(a, i)
  }

  lemma MovedFirst(a: seq<Candidate>, i: nat)
    requires i < |a| && ObservedOpen(a[i].side)
    ensures multiset(ToFront(a, i)) == multiset(a)
    ensures var c := Commands(ToFront(a, i)); a[i].position in c && c[a[i].position].quantityFromCache == a[i].fromCache
  {
    assert a == a[..i] + [a[i]] + a[i + 1..];
    FirstIsKept(a[i], Without(a, i));
  }

  lemma NoConflictBetween(a: seq<Candidate>, x: Candidate, y: Candidate)
    requires ConflictFree(a) && x in a && y in a && x.position == y.position
    ensures x.side == y.side && x.quantity == y.quantity
  {
    var i :| 0 <= i < |a| && a[i] == x;
    var j :| 0 <= j < |a| && a[j] == y;
    if i < j {
      assert !Conflict(a[i], a[j]);
    } else if j < i {
      assert !Conflict(a[j], a[i]);
    }
  }

  // ---------- Outcome summary ----------

  datatype Outcome =
    | SubmitPlanned
    | SubmitAccepted
    | SubmitRejected
    | PartialFill
    | ResidualPositionRemains
    | FlatPositionObserved
    | StalePositionProof
    | UnsupportedInstrument
    | ThinBookNoFillabilityProof

  /** Worst last, as the source orders its variants. */
  datatype Aggregate = AllFlat | OutstandingFlattenSubmit | ResidualRemains | FailedManual | SubmitRejectedManual

  function Rank(a: Aggregate): nat {
    match a
    case AllFlat => 0
    case OutstandingFlattenSubmit => 1
    case ResidualRemains => 2
    case FailedManual => 3
    case SubmitRejectedManual => 4
  }

  function WorseAggregate(current: Aggregate, next: Aggregate): Aggregate {
    if Rank(next) > Rank(current) then next else current
  }

  predicate Among(outcomes: seq<Outcome>, kinds: set<Outcome>) {
    exists i :: 0 <= i < |outcomes| && outcomes[i] in kinds
  }

  /** The source's cascade: the first class of outcome found anywhere decides. */
  function Summarize(outcomes: seq<Outcome>): Aggregate {
    if Among(outcomes, {SubmitRejected}) then SubmitRejectedManual
    else if Among(outcomes, {StalePositionProof, UnsupportedInstrument, ThinBookNoFillabilityProof}) then FailedManual
    else if Among(outcomes, {ResidualPositionRemains, PartialFill}) then ResidualRemains
    else if Among(outcomes, {SubmitPlanned, SubmitAccepted}) then OutstandingFlattenSubmit
    else AllFlat
  }

  /** Each class of the summary by the outcomes that put it there. */
  lemma SummarizeMeans(outcomes: seq<Outcome>)
    ensures var r := Summarize(outcomes);
            var rejected := SubmitRejected in outcomes;
            var failed := StalePositionProof in outcomes || UnsupportedInstrument in outcomes
                          || ThinBookNoFillabilityProof in outcomes;
            var residual := ResidualPositionRemains in outcomes || PartialFill in outcomes;
            && (r == SubmitRejectedManual <==> rejected)
            && (r == FailedManual <==> !rejected && failed)
            && (r == ResidualRemains <==> !rejected && !failed && residual)
            && (r == OutstandingFlattenSubmit <==>
                  !rejected && !failed && !residual && (SubmitPlanned in outcomes || SubmitAccepted in outcomes))
            && (r == AllFlat <==> forall i :: 0 <= i < |outcomes| ==> outcomes[i] == FlatPositionObserved)
  {
    AmongIsMembership(outcomes, {SubmitRejected});
    AmongIsMembership(outcomes, {StalePositionProof, UnsupportedInstrument, ThinBookNoFillabilityProof});
    AmongIsMembership(outcomes, {ResidualPositionRemains, PartialFill});
    AmongIsMembership(outcomes, {SubmitPlanned, SubmitAccepted});
    if forall i :: 0 <= i < |outcomes| ==> outcomes[i] == FlatPositionObserved {
      assert forall o :: o in outcomes ==> o == FlatPositionObserved;
    } else {
      var i :| 0 <= i < |outcomes| && outcomes[i] != FlatPositionObserved;
      assert outcomes[i] in outcomes;
    }
  }

  lemma AmongIsMembership(outcomes: seq<Outcome>, kinds: set<Outcome>)
    ensures Among(outcomes, kinds) <==> exists o :: o in kinds && o in outcomes
  {
    if o :| o in kinds && o in outcomes {
      var i :| 0 <= i < |outcomes| && outcomes[i] == o;
    }
    if Among(outcomes, kinds) {
      var i :| 0 <= i < |outcomes| && outcomes[i] in kinds;
      assert outcomes[i] in outcomes;
    }
  }

  function AggregateForOutcome(o: Outcome): Aggregate {
    Summarize([o])
  }

  lemma AmongConcat(a: seq<Outcome>, b: seq<Outcome>, kinds: set<Outcome>)
    ensures Among(a + b, kinds) <==> Among(a, kinds) || Among(b, kinds)
  {
    if Among(a, kinds) {
      var i :| 0 <= i < |a| && a[i] in kinds;
      assert (a + b)[i] in kinds;
    }
    if Among(b, kinds) {
      var i :| 0 <= i < |b| && b[i] in kinds;
      assert (a + b)[|a| + i] in kinds;
    }
  }

  /** The cascade is a join homomorphism: summarizing a concatenation is the worse of the two summaries. */
  lemma SummarizeConcat(a: seq<Outcome>, b: seq<Outcome>)
    ensures Summarize(a + b) == WorseAggregate(Summarize(a), Summarize(b))
  {
    AmongConcat(a, b, {SubmitRejected});
    AmongConcat(a, b, {StalePositionProof, UnsupportedInstrument, ThinBookNoFillabilityProof});
    AmongConcat(a, b, {ResidualPositionRemains, PartialFill});
    AmongConcat(a, b, {SubmitPlanned, SubmitAccepted});
  }

  /** A summary is the worst of its outcomes: it bounds each of them and, unless all flat, is one of them. */
  lemma {:induction false} SummarizeIsWorst(outcomes: seq<Outcome>)
    ensures forall i :: 0 <= i < |outcomes| ==> Rank(AggregateForOutcome(outcomes[i])) <= Rank(Summarize(outcomes))
    ensures Summarize(outcomes) == AllFlat
         || exists i :: 0 <= i < |outcomes| && AggregateForOutcome(outcomes[i]) == Summarize(outcomes)
  {
    if outcomes != [] {
      var n := |outcomes| - 1;
      SummarizeIsWorst(outcomes[..n]);
      assert outcomes == outcomes[..n] + [outcomes[n]];
      SummarizeConcat(outcomes[..n], [outcomes[n]]);
      assert forall i :: 0 <= i < n ==> outcomes[..n][i] == outcomes[i];
    }
  }

  // ---------- Aggregation over a plan ----------

  datatype Identity = Identity(haltId: string, actionId: string, position: Position)

  datatype Evidence = Evidence(identity: Identity, outcome: Outcome)

  function WorseOutcome(current: Outcome, next: Outcome): Outcome {
    if Rank(AggregateForOutcome(next)) > Rank(AggregateForOutcome(current)) then next else current
  }

  /** The outcomes of the evidence for one command. */
  function OutcomesOf(evidence: seq<Evidence>, id: Identity): seq<Outcome> {
    if evidence == [] then []
    else
      var n := |evidence| - 1;
      OutcomesOf(evidence[..n], id) + (if evidence[n].identity == id then [evidence[n].outcome] else [])
  }

  function AllOutcomes(evidence: seq<Evidence>): seq<Outcome> {
    seq(|evidence|, i requires 0 <= i < |evidence| => evidence[i].outcome)
  }

  /** One planned submit for every command no evidence speaks of. */
  function Unreported(commands: seq<Identity>, evidence: seq<Evidence>): seq<Outcome> {
    if commands == [] then []
    else
      var n := |commands| - 1;
      Unreported(commands[..n], evidence) + (if OutcomesOf(evidence, commands[n]) == [] then [SubmitPlanned] else [])
  }

  /** What one command contributes: its evidence summarized, or a planned submit. */
  function CommandSummary(evidence: seq<Evidence>, id: Identity): Aggregate {
    var own := OutcomesOf(evidence, id);
    if own == [] then OutstandingFlattenSubmit else Summarize(own)
  }

  /** The worst over the commands, in order. */
  function PlanSummary(commands: seq<Identity>, evidence: seq<Evidence>): Aggregate {
    if commands == [] then AllFlat
    else WorseAggregate(PlanSummary(commands[..|commands| - 1], evidence),
                        CommandSummary(evidence, commands[|commands| - 1]))
  }

  /** The outcomes of the evidence that belongs to some command of the list. */
  function Reported(commands: seq<Identity>, evidence: seq<Evidence>): seq<Outcome> {
    if commands == [] then []
    else Reported(commands[..|commands| - 1], evidence) + OutcomesOf(evidence, commands[|commands| - 1])
  }

  /** Summaries see only which outcomes occur. */
  lemma SummarizeSeesMembers(a: seq<Outcome>, b: seq<Outcome>)
    requires forall o :: o in a <==> o in b
    ensures Summarize(a) == Summarize(b)
  {
    SummarizeIsWorst(a);
    SummarizeIsWorst(b);
    forall i | 0 <= i < |a| ensures Rank(AggregateForOutcome(a[i])) <= Rank(Summarize(b)) {
      assert a[i] in b;
    }
    forall i | 0 <= i < |b| ensures Rank(AggregateForOutcome(b[i])) <= Rank(Summarize(a)) {
      assert b[i] in a;
    }
  }

  lemma SummarizeRegroups(r: seq<Outcome>, own: seq<Outcome>, u: seq<Outcome>, planned: seq<Outcome>)
    ensures Summarize((r + own) + (u + planned)) == WorseAggregate(Summarize(r + u), Summarize(own + planned))
  {
    SummarizeSeesMembers((r + own) + (u + planned), (r + u) + (own + planned));
    SummarizeConcat(r + u, own + planned);
  }

  lemma CommandSummaryIsFlat(evidence: seq<Evidence>, id: Identity)
    ensures var own := OutcomesOf(evidence, id);
            CommandSummary(evidence, id) == Summarize(own + if own == [] then [SubmitPlanned] else [])
  {
    var own := OutcomesOf(evidence, id);
    if own == [] {
      assert own + [SubmitPlanned] == [SubmitPlanned];
      assert Among([SubmitPlanned], {SubmitPlanned, SubmitAccepted}) by { assert [SubmitPlanned][0] == SubmitPlanned; }
    } else {
      assert own + [] == own;
    }
  }

  lemma {:induction false} PlanSummaryIsFlat(commands: seq<Identity>, evidence: seq<Evidence>)
    ensures PlanSummary(commands, evidence)
         == Summarize(Reported(commands, evidence) + Unreported(commands, evidence))
  {
    if commands == [] {
      assert Reported(commands, evidence) + Unreported(commands, evidence) == [];
    } else {
      var n := |commands| - 1;
      PlanSummaryIsFlat(commands[..n], evidence);
      CommandSummaryIsFlat(evidence, commands[n]);
      var own := OutcomesOf(evidence, commands[n]);
      SummarizeRegroups(Reported(commands[..n], evidence), own, Unreported(commands[..n], evidence),
                        if own == [] then [SubmitPlanned] else []);
    }
  }

  lemma {:induction false} OutcomesOfMembers(evidence: seq<Evidence>, id: Identity, o: Outcome)
    ensures o in OutcomesOf(evidence, id) <==> Evidence(id, o) in evidence
  {
    if evidence != [] {
      var n := |evidence| - 1;
      OutcomesOfMembers(evidence[..n], id, o);
      assert evidence == evidence[..n] + [evidence[n]];
    }
  }

  lemma {:induction false} ReportedMembers(commands: seq<Identity>, evidence: seq<Evidence>, o: Outcome)
    ensures o in Reported(commands, evidence) <==> exists id :: id in commands && Evidence(id, o) in evidence
  {
    if commands != [] {
      var n := |commands| - 1;
      ReportedMembers(commands[..n], evidence, o);
      OutcomesOfMembers(evidence, commands[n], o);
      assert commands == commands[..n] + [commands[n]];
    }
  }

  /** Every piece of evidence names a command of the plan. */
  predicate AllKnown(commands: seq<Identity>, evidence: seq<Evidence>) {
    forall i :: 0 <= i < |evidence| ==> evidence[i].identity in commands
  }

  /**
   The per-command aggregation is the flat summary of all the evidence with one planned submit added for
   each command that has none.
   */
  lemma PlanSummaryIsFlatSummary(commands: seq<Identity>, evidence: seq<Evidence>)
    requires AllKnown(commands, evidence)
    ensures PlanSummary(commands, evidence) == Summarize(AllOutcomes(evidence) + Unreported(commands, evidence))
  {
    PlanSummaryIsFlat(commands, evidence);
    var all, unreported := AllOutcomes(evidence), Unreported(commands, evidence);
    forall o ensures o in Reported(commands, evidence) <==> o in all {
      ReportedMembers(commands, evidence, o);
      if o in all {
        var i :| 0 <= i < |evidence| && all[i] == o;
        assert evidence[i] == Evidence(evidence[i].identity, o);
        assert evidence[i].identity in commands;
      }
      if id :| id in commands && Evidence(id, o) in evidence {
        var i :| 0 <= i < |evidence| && evidence[i] == Evidence(id, o);
        assert all[i] == o;
      }
    }
    SummarizeConcat(all, unreported);
    SummarizeConcat(Reported(commands, evidence), unreported);
    SummarizeSeesMembers(Reported(commands, evidence), all);
  }

  /** The worst outcome collected for each identity summarizes that identity's evidence. */
  ghost predicate Collected(outcomes: map<Identity, Outcome>, evidence: seq<Evidence>) {
    forall id ::
      && (id in outcomes <==> OutcomesOf(evidence, id) != [])
      && (id in outcomes ==> AggregateForOutcome(outcomes[id]) == Summarize(OutcomesOf(evidence, id)))
  }

  function Record(outcomes: map<Identity, Outcome>, e: Evidence): map<Identity, Outcome> {
    outcomes[e.identity := if e.identity in outcomes then WorseOutcome(outcomes[e.identity], e.outcome) else e.outcome]
  }

  lemma CollectOne(outcomes: map<Identity, Outcome>, evidence: seq<Evidence>, e: Evidence)
    requires Collected(outcomes, evidence)
    ensures Collected(Record(outcomes, e), evidence + [e])
  {
    var after := Record(outcomes, e);
    assert (evidence + [e])[..|evidence|] == evidence;
    forall id
      ensures id in after <==> OutcomesOf(evidence + [e], id) != []
      ensures id in after ==> AggregateForOutcome(after[id]) == Summarize(OutcomesOf(evidence + [e], id))
    {
      var own := OutcomesOf(evidence, id);
      if id == e.identity {
        assert OutcomesOf(evidence + [e], id) == own + [e.outcome];
        SummarizeConcat(own, [e.outcome]);
        if own == [] {
          assert own + [e.outcome] == [e.outcome];
        }
      } else {
        assert OutcomesOf(evidence + [e], id) == own;
      }
    }
  }

  /** The worst outcome per command, or an error at the first piece of evidence that names none. */
  method CollectWorst(commands: seq<Identity>, evidence: seq<Evidence>)
    returns (r: Result<map<Identity, Outcome>, FlattenError>)
    ensures r.Ok? <==> AllKnown(commands, evidence)
    ensures r.Err? ==> r.error == UnknownOutcomeCommand
    ensures r.Ok? ==> Collected(r.value, evidence)
  {
    var outcomes: map<Identity, Outcome> := map[];
    for i := 0 to |evidence|
      invariant Collected(outcomes, evidence[..i])
      invariant AllKnown(commands, evidence[..i])
    {
      if evidence[i].identity !in commands {
        return Err(UnknownOutcomeCommand);
      }
      CollectOne(outcomes, evidence[..i], evidence[i]);
      assert evidence[..i + 1] == evidence[..i] + [evidence[i]];
      outcomes := Record(outcomes, evidence[i]);
    }
    assert evidence[..|evidence|] == evidence;
    return Ok(outcomes);
  }

  function CommandSeverity(outcomes: map<Identity, Outcome>, id: Identity): Aggregate {
    if id in outcomes then AggregateForOutcome(outcomes[id]) else OutstandingFlattenSubmit
  }

  lemma CollectedSeverity(outcomes: map<Identity, Outcome>, evidence: seq<Evidence>, id: Identity)
    requires Collected(outcomes, evidence)
    ensures CommandSeverity(outcomes, id) == CommandSummary(evidence, id)
  {
  }

  /** The worst over the commands, each by its collected outcome or as a planned submit. */
  method WorstOverCommands(commands: seq<Identity>, outcomes: map<Identity, Outcome>, ghost evidence: seq<Evidence>)
    returns (aggregate: Aggregate)
    requires Collected(outcomes, evidence)
    ensures aggregate == PlanSummary(commands, evidence)
  {
    aggregate := AllFlat;
    for i := 0 to |commands|
      invariant aggregate == PlanSummary(commands[..i], evidence)
    {
      assert commands[..i + 1][..i] == commands[..i];
      CollectedSeverity(outcomes, evidence, commands[i]);
      aggregate := WorseAggregate(aggregate, CommandSeverity(outcomes, commands[i]));
    }
    assert commands[..|commands|] == commands;
  }

  /** Aggregate outcome evidence over a plan's commands; unknown evidence is an error. */
  method FromPlanOutcomes(commands: seq<Identity>, evidence: seq<Evidence>) returns (r: Result<Aggregate, FlattenError>)
    ensures r.Ok? <==> AllKnown(commands, evidence)
    ensures r.Err? ==> r.error == UnknownOutcomeCommand
    ensures r.Ok? ==> r.value == Summarize(AllOutcomes(evidence) + Unreported(commands, evidence))
  {
    var collected := CollectWorst(commands, evidence);
    match collected
    case Err(error) => return Err(error);
    case Ok(outcomes) =>
      var aggregate := WorstOverCommands(commands, outcomes, evidence);
      PlanSummaryIsFlatSummary(commands, evidence);
      return Ok(aggregate);
  }

  predicate Reports(evidence: seq<Evidence>, id: Identity) {
    exists j :: 0 <= j < |evidence| && evidence[j].identity == id
  }

  lemma HasOutcome(evidence: seq<Evidence>, id: Identity)
    ensures OutcomesOf(evidence, id) != [] <==> Reports(evidence, id)
  {
    if i :| 0 <= i < |evidence| && evidence[i].identity == id {
      OutcomesOfMembers(evidence, id, evidence[i].outcome);
      assert evidence[i] == Evidence(id, evidence[i].outcome);
    }
    if OutcomesOf(evidence, id) != [] {
      var o := OutcomesOf(evidence, id)[0];
      OutcomesOfMembers(evidence, id, o);
    }
  }

  /** Some command has no evidence. */
  predicate HasUnreported(commands: seq<Identity>, evidence: seq<Evidence>) {
    exists i :: 0 <= i < |commands| && !Reports(evidence, commands[i])
  }

  lemma HasUnreportedSnoc(commands: seq<Identity>, last: Identity, evidence: seq<Evidence>)
    ensures HasUnreported(commands + [last], evidence) <==> HasUnreported(commands, evidence) || !Reports(evidence, last)
  {
    var all := commands + [last];
    if i :| 0 <= i < |commands| && !Reports(evidence, commands[i]) {
      assert all[i] == commands[i];
    }
    assert all[|commands|] == last;
  }

  /** What is planned on top is empty exactly when every command has evidence, and else planned submits only. */
  lemma {:induction false} UnreportedMembers(commands: seq<Identity>, evidence: seq<Evidence>)
    ensures Unreported(commands, evidence) != [] <==> HasUnreported(commands, evidence)
    ensures forall i :: 0 <= i < |Unreported(commands, evidence)| ==> Unreported(commands, evidence)[i] == SubmitPlanned
    decreases |commands|
  {
    if commands != [] {
      var front, last := commands[..|commands| - 1], commands[|commands| - 1];
      assert commands == front + [last];
      UnreportedMembers(front, evidence);
      HasUnreportedSnoc(front, last, evidence);
      HasOutcome(evidence, last);
    }
  }

  /** A plan is flat exactly when every command has evidence and all evidence saw its position flat. */
  lemma PlanIsFlatExactly(commands: seq<Identity>, evidence: seq<Evidence>)
    ensures Summarize(AllOutcomes(evidence) + Unreported(commands, evidence)) == AllFlat
       <==> && (forall i :: 0 <= i < |evidence| ==> evidence[i].outcome == FlatPositionObserved)
            && !HasUnreported(commands, evidence)
  {
    var all, planned := AllOutcomes(evidence), Unreported(commands, evidence);
    SummarizeConcat(all, planned);
    SummarizeMeans(all);
    SummarizeMeans(planned);
    UnreportedMembers(commands, evidence);
    assert planned != [] ==> planned[0] != FlatPositionObserved;
    assert forall i :: 0 <= i < |evidence| ==> all[i] == evidence[i].outcome;
  }
}
