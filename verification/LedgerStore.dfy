// The calls of improvement_proposals.py, statement by statement, over one connection.
module LedgerStore {
  import opened Options
  import opened Ledger
  import opened LedgerSession

  datatype Error =
    | ProposalNotFound | ExperimentNotFound | ExperimentModelMismatch | ApprovalRequiresRecommendation
    | PromotionRequiresApproval | PromotionNotFound | RollbackRequiresActive | DuplicateKey

  // Passed, safe, and better by one of the metrics that count.
  predicate Recommendable(row: Proposal, e: Experiment) {
    e.passed && e.safe && exists m | m in Aims(row) :: m in e.deltas && e.deltas[m] > 0
  }

  lemma RecommendableIsPassing(row: Proposal, e: Experiment)
    ensures Recommendable(row, e) <==> Passing(row, e)
  {
    if Recommendable(row, e) {
      var m :| m in Aims(row) && m in e.deltas && e.deltas[m] > 0;
      AimsAreTargets(row, m);
    }
    if Passing(row, e) {
      var m :| m in Targets(row) && m !in NEVER_IMPROVING && DeltaOf(e, m) > 0;
      AimsAreTargets(row, m);
    }
  }

  // A proposal is attached to an experiment that is there.
  lemma AttachedExist(s: Session, id: ExperimentId)
    requires Sound(s)
    ensures forall p | p in s.working.proposals && s.working.proposals[p].experiment == Some(id) :: id in s.working.experiments
  {
    forall p | p in s.working.proposals && s.working.proposals[p].experiment == Some(id) ensures id in s.working.experiments {
      assert ProposalOk(s.working, p);
    }
  }

  lemma OneActive(s: Session)
    requires Sound(s)
    ensures AtMostOneActive(s.working.rows)
  {
  }

  // Retiring the active row leaves none.
  lemma NoneActive(rows: seq<Row>)
    requires AtMostOneActive(rows)
    ensures var a := Active(rows);
            forall i :: 0 <= i < |rows| ==> (if a.Some? then Retire(rows, a.value) else rows)[i] == rows[i].(active := false)
  {
  }

  class GovernedModels {
    // What is committed, and the tables with the open transaction in them.
    var committed: Tables
    var experiments: map<ExperimentId, Experiment>
    var proposals: map<ProposalId, Proposal>
    var rows: seq<Row>

    function View(): Tables
      reads this
    {
      Tables(experiments, proposals, rows)
    }

    function Here(): Session
      reads this
    {
      Session(committed, View())
    }

    ghost predicate Valid()
      reads this
    {
      Sound(Here())
    }

    constructor ()
      ensures Valid() && Here() == NEW_SESSION
    {
      committed := NO_TABLES;
      experiments, proposals, rows := map[], map[], [];
    }

    // conn.commit(), at the end of a call or by the caller
    method CommitAll()
      modifies `committed
      ensures Here() == Do(old(Here()), Commit)
    {
      committed := View();
    }

    // conn.rollback()
    method DiscardAll()
      requires Valid()
      modifies this
      ensures Valid() && Here() == Do(old(Here()), Discard)
    {
      SoundStep(Here(), Discard);
      experiments, proposals, rows := committed.experiments, committed.proposals, committed.rows;
    }

    // run_candidate_experiment, when one of its cases raises.
    method BreakOffExperiment(id: ExperimentId, baseline: ModelId, candidate: ModelId)
      requires Valid()
      modifies `experiments, `proposals
      ensures Valid() && Here() == Do(old(Here()), BreakOff(id, baseline, candidate))
      ensures experiments == old(experiments)[id := Experiment(baseline, candidate, false, false, map[])] && committed == old(committed)
      ensures proposals.Keys == old(proposals).Keys && forall p | p in proposals ::
                proposals[p] == if old(proposals)[p].experiment == Some(id) then old(proposals)[p].(experiment := None) else old(proposals)[p]
    {
      SoundStep(Here(), BreakOff(id, baseline, candidate));
      AttachedExist(Here(), id);
      ReplaceExperiment(id, Experiment(baseline, candidate, false, false, map[]));
    }

    // INSERT OR IGNORE of a draft.
    method ProposeModel(p: ProposalId, baseline: ModelId, candidate: ModelId, targets: seq<string>)
      requires Valid()
      modifies `proposals, `committed
      ensures Valid() && Here() == Do(old(Here()), Make(Propose(p, baseline, candidate, targets)))
      ensures proposals == if p in old(proposals) then old(proposals) else old(proposals)[p := Proposal(baseline, candidate, targets, Draft, None, None)]
      ensures committed == View()
    {
      SoundStep(Here(), Make(Propose(p, baseline, candidate, targets)));
      if p !in proposals {
        proposals := proposals[p := Proposal(baseline, candidate, targets, Draft, None, None)];
      }
      CommitAll();
    }

    // INSERT OR REPLACE; the foreign key clears the references to the row that is replaced.
    method ReplaceExperiment(id: ExperimentId, e: Experiment)
      modifies `experiments, `proposals
      ensures View() == PutExperiment(old(View()), id, e)
    {
      if id in experiments {
        proposals := map p | p in proposals :: if proposals[p].experiment == Some(id) then proposals[p].(experiment := None)
          else proposals[p];
      }
      experiments := experiments[id := e];
    }

    method RecordExperiment(id: ExperimentId, outcome: Experiment)
      requires Valid()
      modifies `experiments, `proposals, `committed
      ensures Valid() && Here() == Do(old(Here()), Make(RunExperiment(id, outcome)))
      ensures experiments == old(experiments)[id := outcome] && proposals.Keys == old(proposals).Keys && committed == View()
      ensures forall p | p in proposals ::
                proposals[p] == if old(proposals)[p].experiment == Some(id) then old(proposals)[p].(experiment := None) else old(proposals)[p]
    {
      SoundStep(Here(), Make(RunExperiment(id, outcome)));
      AttachedExist(Here(), id);
      ReplaceExperiment(id, outcome);
      CommitAll();
    }

    method Attach(p: ProposalId, id: ExperimentId) returns (error: Option<Error>)
      requires Valid()
      modifies `proposals, `committed
      ensures Valid() && Here() == Do(old(Here()), Make(AttachExperiment(p, id)))
      ensures error.None? <==>
                && p in proposals && id in experiments
                && experiments[id].baseline == old(proposals)[p].baseline && experiments[id].candidate == old(proposals)[p].candidate
      ensures error.None? ==>
                && committed == View()
                && proposals == if old(proposals)[p].status in {Draft, ExperimentReady, Blocked}
                                then old(proposals)[p := old(proposals)[p].(experiment := Some(id), status := ExperimentReady)] else old(proposals)
      ensures error.Some? ==> Here() == old(Here())
    {
      SoundStep(Here(), Make(AttachExperiment(p, id)));
      if p !in proposals { return Some(ProposalNotFound); }
      if id !in experiments { return Some(ExperimentNotFound); }
      var row, e := proposals[p], experiments[id];
      if e.baseline != row.baseline || e.candidate != row.candidate { return Some(ExperimentModelMismatch); }
      if row.status in {Draft, ExperimentReady, Blocked} {
        proposals := proposals[p := row.(experiment := Some(id), status := ExperimentReady)];
      }
      CommitAll();
      return None;
    }

    // The any() of the evaluation: a loop over the target metrics.
    method AnyImproved(targets: seq<string>, deltas: map<string, int>) returns (improved: bool)
      ensures improved <==> exists m | m in targets :: m !in NEVER_IMPROVING && m in deltas && deltas[m] > 0
    {
      for i := 0 to |targets|
        invariant forall j :: 0 <= j < i ==> targets[j] in NEVER_IMPROVING || targets[j] !in deltas || deltas[targets[j]] <= 0
      {
        if targets[i] !in NEVER_IMPROVING && targets[i] in deltas && deltas[targets[i]] > 0 { return true; }
      }
      return false;
    }

    // It asks for no status: any proposal can become recommended or blocked.
    method EvaluatePromotion(p: ProposalId) returns (error: Option<Error>)
      requires Valid()
      modifies `proposals, `committed
      ensures Valid() && Here() == Do(old(Here()), Make(EvaluateRecommendation(p)))
      ensures error == if p in old(proposals) then None else Some(ProposalNotFound)
      ensures p in old(proposals) ==>
                var row := old(proposals)[p];
                var passes := row.experiment.Some? && row.experiment.value in experiments && Recommendable(row, experiments[row.experiment.value]);
                proposals == old(proposals)[p := row.(status := if passes then Recommended else Blocked)] && committed == View()
    {
      SoundStep(Here(), Make(EvaluateRecommendation(p)));
      if p !in proposals { return Some(ProposalNotFound); }
      assert ProposalOk(View(), p);
      var row := proposals[p];
      if row.experiment.None? {
        proposals := proposals[p := row.(status := Blocked)];
      } else {
        var e := experiments[row.experiment.value];
        var improved := AnyImproved(Targets(row), e.deltas);
        assert improved <==> Improved(row, e);
        RecommendableIsPassing(row, e);
        proposals := proposals[p := row.(status := if e.passed && e.safe && improved then Recommended else Blocked)];
      }
      CommitAll();
      return None;
    }

    method ReviewImprovement(p: ProposalId, decision: Decision) returns (error: Option<Error>)
      requires Valid()
      modifies `proposals, `committed
      ensures Valid() && Here() == Do(old(Here()), Make(ReviewProposal(p, decision)))
      ensures error.Some? ==> Here() == old(Here())
      ensures error.None? <==> p in old(proposals) && (decision == Approve ==> old(proposals)[p].status == Recommended)
      ensures error.None? ==> committed == View() && proposals == old(proposals)[p := old(proposals)[p].(decision := Some(decision),
                status := match decision case Approve => Approved case Reject => Rejected case Block => Blocked)]
    {
      SoundStep(Here(), Make(ReviewProposal(p, decision)));
      if p !in proposals { return Some(ProposalNotFound); }
      var row := proposals[p];
      if decision == Approve && row.status != Recommended { return Some(ApprovalRequiresRecommendation); }
      var status := match decision case Approve => Approved case Reject => Rejected case Block => Blocked;
      proposals := proposals[p := row.(status := status, decision := Some(decision))];
      CommitAll();
      return None;
    }

    // The query for the active row: a scan from the newest row.
    method FindActive() returns (i: Option<nat>)
      ensures i == Active(rows)
    {
      var k: nat := |rows|;
      while k > 0
        invariant 0 <= k <= |rows| && forall j :: k <= j < |rows| ==> !rows[j].active
      {
        k := k - 1;
        if rows[k].active { return Some(k); }
      }
      return None;
    }

    // Primary key check of the insertion.
    method Insert(row: Row) returns (ok: bool)
      modifies `rows
      ensures ok == !HasId(old(rows), row.id) && rows == if ok then old(rows) + [row] else old(rows)
    {
      for i := 0 to |rows|
        invariant rows == old(rows) && forall j :: 0 <= j < i ==> rows[j].id != row.id
      {
        if rows[i].id == row.id { return false; }
      }
      rows := rows + [row];
      return true;
    }

    method PromoteVersion(p: ProposalId, at: nat) returns (error: Option<Error>)
      requires Valid()
      modifies `proposals, `rows, `committed
      ensures Valid() && Here() == Do(old(Here()), Make(PromoteModel(p, at)))
      ensures error == Some(DuplicateKey) <==> Collides(old(View()), PromoteModel(p, at))
      ensures error.None? <==> Promotes(old(View()), PromoteModel(p, at), p)
      ensures error.None? ==> InUse(View()) == Some(old(proposals)[p].candidate)
      ensures error.None? || error == Some(DuplicateKey) <==>
                p in old(proposals) && old(proposals)[p].status == Approved && old(proposals)[p].decision == Some(Approve)
      ensures error.None? ==>
                && proposals == old(proposals)[p := old(proposals)[p].(status := Promoted)] && |rows| == |old(rows)| + 1
                && var src := if InUse(old(View())).Some? then InUse(old(View())).value else old(proposals)[p].baseline;
                rows[|old(rows)|] == Row(Promotion(p, src, old(proposals)[p].candidate, at), p, src, old(proposals)[p].candidate, true)
      ensures error.None? || error == Some(DuplicateKey) ==> forall i :: 0 <= i < |old(rows)| ==> rows[i] == old(rows)[i].(active := false)
      ensures if error.None? then committed == View() else committed == old(committed)
    {
      hide Sound;
      SoundStep(Here(), Make(PromoteModel(p, at)));
      OneActive(Here());
      NoneActive(rows);
      if p !in proposals { return Some(ProposalNotFound); }
      var proposal := proposals[p];
      if proposal.status != Approved || proposal.decision != Some(Approve) { return Some(PromotionRequiresApproval); }
      ghost var row := NextRow(View(), p, at);
      var current := FindActive();
      var src := proposal.baseline;
      if current.Some? {
        src := rows[current.value].dst;
        SameIds(rows, current.value, row.id);
        rows := rows[current.value := rows[current.value].(active := false)];
      }
      var ok := Insert(Row(Promotion(p, src, proposal.candidate, at), p, src, proposal.candidate, true));
      if !ok { return Some(DuplicateKey); }
      proposals := proposals[p := proposal.(status := Promoted)];
      CommitAll();
      return None;
    }

    method RollbackVersion(id: RowId, at: nat) returns (error: Option<Error>)
      requires Valid()
      modifies `proposals, `rows, `committed
      ensures Valid() && Here() == Do(old(Here()), Make(RollbackPromotion(id, at)))
      ensures error.Some? ==> Here() == old(Here()) && error != Some(DuplicateKey)
      ensures error.None? <==> Find(old(rows), id).Some? && old(rows)[Find(old(rows), id).value].active
      ensures error.None? ==> InUse(View()) == Some(old(rows)[Find(old(rows), id).value].src)
      ensures error.None? ==>
                && committed == View() && |rows| == |old(rows)| + 1
                && (forall i :: 0 <= i < |old(rows)| ==> rows[i] == old(rows)[i].(active := false))
                && var row := old(rows)[Find(old(rows), id).value];
                rows[|old(rows)|] == Row(Restoration(id, row.src, at), row.proposal, row.dst, row.src, true)
                && proposals == old(proposals)[row.proposal := old(proposals)[row.proposal].(status := RolledBack)]
    {
      SoundStep(Here(), Make(RollbackPromotion(id, at)));
      var i := Find(rows, id);
      if i.None? { return Some(PromotionNotFound); }
      var row := rows[i.value];
      if !row.active { return Some(RollbackRequiresActive); }
      RestorationIsNew(rows, i.value, at);
      rows := rows[i.value := row.(active := false)];
      var ok := Insert(Row(Restoration(id, row.src, at), row.proposal, row.dst, row.src, true));
      proposals := proposals[row.proposal := proposals[row.proposal].(status := RolledBack)];
      CommitAll();
      return None;
    }
  }
}
