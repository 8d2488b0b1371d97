/**
 Cancel evidence of the kill switch: the deduplicating snapshot of outstanding orders and the aggregation
 of cancel outcomes into one severity (src/bolt_v3_kill_switch_cancel.rs).
 */
module KillSwitchCancel {
  import opened Common

  datatype Identity = Identity(accountId: string, instrumentId: string, strategyId: string, clientOrderId: string)

  datatype Surface =
    | Open
    | Inflight
    | PendingCancelSurface
    | Emulated
    | AlgorithmManaged
    | Contingent
    | AcceptedButNotTerminal

  datatype Candidate = Candidate(surface: Surface, identity: Identity, orderStatus: string, sourceTimestampNs: nat)

  datatype Snapshot = Snapshot(candidates: map<Identity, Candidate>, observedSurfaces: set<Surface>)

  datatype CancelError = MissingCandidates | UnknownOutcomeCandidate

  // ---------- Snapshot ----------

  /** The first candidate of the list with this identity. */
  ghost predicate IsFirst(candidates: seq<Candidate>, c: Candidate) {
    exists i :: 0 <= i < |candidates| && candidates[i] == c
      && forall j :: 0 <= j < i ==> candidates[j].identity != c.identity
  }

  /** One candidate per order, the first seen winning; every surface seen is remembered even if its candidate lost. */
  method NewSnapshot(candidates: seq<Candidate>) returns (r: Result<Snapshot, CancelError>)
    ensures r.Err? <==> candidates == []
    ensures r.Err? ==> r.error == MissingCandidates
    ensures r.Ok? ==>
              && r.value.candidates.Keys == (set c | c in candidates :: c.identity)
              && (forall id :: id in r.value.candidates ==>
                    r.value.candidates[id].identity == id && IsFirst(candidates, r.value.candidates[id]))
              && r.value.observedSurfaces == (set c | c in candidates :: c.surface)
  {
    if candidates == [] {
      return Err(MissingCandidates);
    }
    var scoped: map<Identity, Candidate> := map[];
    var surfaces: set<Surface> := {};
    for i := 0 to |candidates|
      invariant scoped.Keys == (set c | c in candidates[..i] :: c.identity)
      invariant forall id :: id in scoped ==> scoped[id].identity == id && IsFirst(candidates, scoped[id])
      invariant surfaces == (set c | c in candidates[..i] :: c.surface)
    {
      var c := candidates[i];
      assert candidates[..i + 1] == candidates[..i] + [c];
      surfaces := surfaces + {c.surface};
      if c.identity !in scoped {
        assert forall j :: 0 <= j < i ==> candidates[j] in candidates[..i];
        assert IsFirst(candidates, c);
        scoped := scoped[c.identity := c];
      }
    }
    assert candidates[..|candidates|] == candidates;
    return Ok(Snapshot(scoped, surfaces));
  }

  // ---------- Severity ----------

  datatype OutcomeKind =
    | CancelRequested
    | CancelAccepted
    | CancelRejected
    | PendingCancel
    | Expired
    | FilledBeforeCancel
    | TerminalBeforeCancel

  datatype Outcome = Outcome(kind: OutcomeKind, orderStatus: string)

  datatype Evidence = Evidence(identity: Identity, outcome: Outcome)

  datatype Severity = AllTerminal | OutstandingRiskRemains | RequiresPositionReconciliation | FailedManualIntervention

  /** The order of the severity lattice. */
  function Rank(s: Severity): nat {
    match s
    case AllTerminal => 0
    case OutstandingRiskRemains => 1
    case RequiresPositionReconciliation => 2
    case FailedManualIntervention => 3
  }

  function ResultForOutcome(o: Outcome): Severity {
    match o.kind
    case CancelRejected => FailedManualIntervention
    case FilledBeforeCancel => RequiresPositionReconciliation
    case CancelRequested => OutstandingRiskRemains
    case CancelAccepted => OutstandingRiskRemains
    case PendingCancel => OutstandingRiskRemains
    case Expired => AllTerminal
    case TerminalBeforeCancel => AllTerminal
  }

  /** The source's cascade of merges is the join of the severity order. */
  function MergeAggregateResult(current: Severity, next: Severity): (r: Severity)
    ensures r == current || r == next
    ensures Rank(current) <= Rank(r) && Rank(next) <= Rank(r)
  {
    if current.FailedManualIntervention? || next.FailedManualIntervention? then FailedManualIntervention
    else if current.RequiresPositionReconciliation? || next.RequiresPositionReconciliation? then
      RequiresPositionReconciliation
    else if current.OutstandingRiskRemains? || next.OutstandingRiskRemains? then OutstandingRiskRemains
    else AllTerminal
  }

  /** One of the two outcomes, no less severe than either. */
  function WorseOutcome(current: Outcome, next: Outcome): (r: Outcome)
    ensures r == current || r == next
    ensures Rank(ResultForOutcome(current)) <= Rank(ResultForOutcome(r))
    ensures Rank(ResultForOutcome(next)) <= Rank(ResultForOutcome(r))
  {
    var a, b := ResultForOutcome(current), ResultForOutcome(next);
    if b == MergeAggregateResult(a, b) then next else current
  }

  // ---------- Aggregation as a join ----------

  predicate HasEvidence(evidence: set<Evidence>, id: Identity) {
    exists e :: e in evidence && e.identity == id
  }

  /** A severity some candidate raises: that of a piece of its evidence, or outstanding risk for want of any. */
  ghost predicate Raises(evidence: set<Evidence>, id: Identity, s: Severity) {
    || (!HasEvidence(evidence, id) && s == OutstandingRiskRemains)
    || exists e :: e in evidence && e.identity == id && ResultForOutcome(e.outcome) == s
  }

  /** `r` is the least severity at or above everything the candidates raise. */
  ghost predicate IsJoin(ids: set<Identity>, evidence: set<Evidence>, r: Severity) {
    && (forall id, s :: id in ids && Raises(evidence, id, s) ==> Rank(s) <= Rank(r))
    && (r == AllTerminal || exists id :: id in ids && Raises(evidence, id, r))
  }

  /** The join is determined by the candidates and the set of evidence: order and repetition cannot matter. */
  lemma JoinIsUnique(ids: set<Identity>, evidence: set<Evidence>, r: Severity, s: Severity)
    requires IsJoin(ids, evidence, r) && IsJoin(ids, evidence, s)
    ensures r == s
  {
    assert Rank(r) <= Rank(s) && Rank(s) <= Rank(r);
  }

  predicate IsTerminal(o: Outcome) {
    o.kind == Expired || o.kind == TerminalBeforeCancel
  }

  /** All-terminal exactly when every candidate has evidence and all of it is terminal. */
  lemma AllTerminalExactly(ids: set<Identity>, evidence: set<Evidence>)
    ensures IsJoin(ids, evidence, AllTerminal)
       <==> forall id :: id in ids ==>
              && HasEvidence(evidence, id)
              && forall e :: e in evidence && e.identity == id ==> IsTerminal(e.outcome)
  {
    if IsJoin(ids, evidence, AllTerminal) {
      forall id | id in ids
        ensures HasEvidence(evidence, id)
        ensures forall e :: e in evidence && e.identity == id ==> IsTerminal(e.outcome)
      {
        assert Raises(evidence, id, OutstandingRiskRemains) ==> Rank(OutstandingRiskRemains) <= 0;
        forall e | e in evidence && e.identity == id ensures IsTerminal(e.outcome) {
          assert Raises(evidence, id, ResultForOutcome(e.outcome));
        }
      }
    }
  }

  /** Some candidate has evidence of one of these kinds. */
  ghost predicate Observed(ids: set<Identity>, evidence: set<Evidence>, kinds: set<OutcomeKind>) {
    exists e :: e in evidence && e.identity in ids && e.outcome.kind in kinds
  }

  ghost predicate Unobserved(ids: set<Identity>, evidence: set<Evidence>) {
    exists id :: id in ids && forall e :: e in evidence ==> e.identity != id
  }

  /**
   The aggregate in terms of what was observed: a rejected cancel fails to the operator, else a fill asks for
   reconciliation, else an open cancel or a candidate without evidence leaves risk, else all is terminal.
   */
  lemma AggregateMeans(ids: set<Identity>, evidence: set<Evidence>, r: Severity)
    requires IsJoin(ids, evidence, r)
    ensures var rejected := Observed(ids, evidence, {CancelRejected});
            var filled := Observed(ids, evidence, {FilledBeforeCancel});
            var open := Observed(ids, evidence, {CancelRequested, CancelAccepted, PendingCancel})
                        || Unobserved(ids, evidence);
            && (r == FailedManualIntervention <==> rejected)
            && (r == RequiresPositionReconciliation <==> !rejected && filled)
            && (r == OutstandingRiskRemains <==> !rejected && !filled && open)
            && (r == AllTerminal <==> !rejected && !filled && !open)
  {
    forall e | e in evidence && e.identity in ids ensures Rank(ResultForOutcome(e.outcome)) <= Rank(r) {
      assert Raises(evidence, e.identity, ResultForOutcome(e.outcome));
    }
    forall id | id in ids && (forall e :: e in evidence ==> e.identity != id) ensures Rank(r) >= 1 {
      assert Raises(evidence, id, OutstandingRiskRemains);
    }
    if r != AllTerminal {
      var id :| id in ids && Raises(evidence, id, r);
    }
  }

  /** Worst outcome per identity, as collected so far. */
  ghost predicate Collected(outcomes: map<Identity, Outcome>, evidence: seq<Evidence>) {
    && (forall e :: e in evidence ==>
          && e.identity in outcomes
          && Rank(ResultForOutcome(e.outcome)) <= Rank(ResultForOutcome(outcomes[e.identity])))
    && (forall id :: id in outcomes ==> Evidence(id, outcomes[id]) in evidence)
  }

  /** The evidence by identity, or an error at the first piece that names no candidate. */
  method CollectWorst(snapshot: Snapshot, evidence: seq<Evidence>)
    returns (r: Result<map<Identity, Outcome>, CancelError>)
    ensures r.Err? ==> r.error == UnknownOutcomeCandidate
                       && exists e :: e in evidence && e.identity !in snapshot.candidates
    ensures r.Ok? ==> Collected(r.value, evidence) && forall e :: e in evidence ==> e.identity in snapshot.candidates
  {
    var outcomes: map<Identity, Outcome> := map[];
    for i := 0 to |evidence|
      invariant Collected(outcomes, evidence[..i])
      invariant forall e :: e in evidence[..i] ==> e.identity in snapshot.candidates
    {
      var e := evidence[i];
      assert evidence[..i + 1] == evidence[..i] + [e];
      if e.identity !in snapshot.candidates {
        return Err(UnknownOutcomeCandidate);
      }
      outcomes := outcomes[e.identity := if e.identity in outcomes then WorseOutcome(outcomes[e.identity], e.outcome)
                                         else e.outcome];
    }
    assert evidence[..|evidence|] == evidence;
    return Ok(outcomes);
  }

  /**
   Aggregate outcome evidence over a snapshot: an error exactly when some evidence names no candidate, and
   otherwise the severity join over the candidates, whatever order candidates and evidence come in.
   */
  method FromSnapshotOutcomes(snapshot: Snapshot, evidence: seq<Evidence>) returns (r: Result<Severity, CancelError>)
    ensures r.Err? <==> exists e :: e in evidence && e.identity !in snapshot.candidates
    ensures r.Err? ==> r.error == UnknownOutcomeCandidate
    ensures r.Ok? ==> IsJoin(snapshot.candidates.Keys, (set e | e in evidence), r.value)
  {
    var collected := CollectWorst(snapshot, evidence);
    if collected.Err? {
      return Err(collected.error);
    }
    var outcomes := collected.value;
    ghost var ev := set e | e in evidence;
    var result, todo := AllTerminal, snapshot.candidates.Keys;
    while todo != {}
      invariant todo <= snapshot.candidates.Keys
      invariant IsJoin(snapshot.candidates.Keys - todo, ev, result)
      decreases |todo|
    {
      var id := PickAny(todo);
      var next := if id in outcomes then ResultForOutcome(outcomes[id]) else OutstandingRiskRemains;
      CandidateSeverity(evidence, outcomes, id);
      ghost var done := snapshot.candidates.Keys - todo;
      JoinGrows(done, ev, result, id, next);
      result, todo := MergeAggregateResult(result, next), todo - {id};
      assert snapshot.candidates.Keys - todo == done + {id};
    }
    assert snapshot.candidates.Keys - todo == snapshot.candidates.Keys;
    return Ok(result);
  }

  /** What one candidate contributes is raised by it and tops everything it raises. */
  lemma CandidateSeverity(evidence: seq<Evidence>, outcomes: map<Identity, Outcome>, id: Identity)
    requires Collected(outcomes, evidence)
    ensures var ev := set e | e in evidence;
            var s := if id in outcomes then ResultForOutcome(outcomes[id]) else OutstandingRiskRemains;
            Raises(ev, id, s) && forall t :: Raises(ev, id, t) ==> Rank(t) <= Rank(s)
  {
    var ev := set e | e in evidence;
    if id in outcomes {
      assert Evidence(id, outcomes[id]) in ev;
    }
  }

  lemma JoinGrows(ids: set<Identity>, evidence: set<Evidence>, r: Severity, id: Identity, s: Severity)
    requires IsJoin(ids, evidence, r)
    requires Raises(evidence, id, s) && forall t :: Raises(evidence, id, t) ==> Rank(t) <= Rank(s)
    ensures IsJoin(ids + {id}, evidence, MergeAggregateResult(r, s))
  {
    var m := MergeAggregateResult(r, s);
    if m == s {
      assert id in ids + {id};
    } else if r != AllTerminal {
      var k :| k in ids && Raises(evidence, k, r);
      assert k in ids + {id};
    }
  }
}
