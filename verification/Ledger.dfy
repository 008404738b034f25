// Gated promotion of local memory models: proposals, the offline experiments attached to
// them, and the promotion ledger (improvement_proposals.py, with the foreign keys of
// 0001_initial_schema.sql).
module Ledger {
  import opened Options

  type ModelId = string
  type ExperimentId = string
  type ProposalId = string

  // Outcome of run_candidate_experiment. The deltas are scaled to integers.
  datatype Experiment = Experiment(baseline: ModelId, candidate: ModelId, passed: bool, safe: bool, deltas: map<string, int>)

  datatype Status = Draft | ExperimentReady | Recommended | Rejected | Approved | Promoted | RolledBack | Blocked
  datatype Decision = Approve | Reject | Block

  datatype Proposal = Proposal(baseline: ModelId, candidate: ModelId, targets: seq<string>, status: Status,
                               experiment: Option<ExperimentId>, decision: Option<Decision>)

  // Primary keys of model_promotions: stable_id, taken to be injective.
  datatype RowId = Promotion(proposal: ProposalId, src: ModelId, dst: ModelId, at: nat) | Restoration(of: RowId, model: ModelId, at: nat)
  datatype Row = Row(id: RowId, proposal: ProposalId, src: ModelId, dst: ModelId, active: bool)

  // The tables as their connection sees them; rows in the order of insertion.
  datatype Tables = Tables(experiments: map<ExperimentId, Experiment>, proposals: map<ProposalId, Proposal>, rows: seq<Row>)

  const NO_TABLES := Tables(map[], map[], [])

  // ---- Experiments and recommendation --------------------------------------------------

  // Metrics whose increase is no improvement.
  const NEVER_IMPROVING: set<string> := {"cross_profile_leakage", "unauthorized_writes", "memory_bloat_rate", "harmful_recall_rate"}

  function Targets(p: Proposal): seq<string> {
    if p.targets == [] then ["recall_at_k"] else p.targets
  }

  function DeltaOf(e: Experiment, metric: string): int {
    if metric in e.deltas then e.deltas[metric] else 0
  }

  predicate Improved(p: Proposal, e: Experiment) {
    exists m | m in Targets(p) :: m !in NEVER_IMPROVING && DeltaOf(e, m) > 0
  }

  // What a recommendation asks of an experiment.
  predicate Passing(p: Proposal, e: Experiment) {
    e.passed && e.safe && Improved(p, e)
  }

  // INSERT OR REPLACE of an experiment. Replacing deletes the old row first, and the
  // foreign key of the proposals is ON DELETE SET NULL.
  function PutExperiment(t: Tables, id: ExperimentId, e: Experiment): Tables {
    t.(experiments := t.experiments[id := e],
       proposals := if id !in t.experiments then t.proposals
                    else map p | p in t.proposals :: if t.proposals[p].experiment == Some(id)
                      then t.proposals[p].(experiment := None) else t.proposals[p])
  }

  function SetProposal(t: Tables, p: ProposalId, row: Proposal): Tables {
    t.(proposals := t.proposals[p := row])
  }

  function Attach(t: Tables, p: ProposalId, id: ExperimentId): Tables
    requires p in t.proposals
  {
    var row := t.proposals[p];
    if row.status in {Draft, ExperimentReady, Blocked}
      then SetProposal(t, p, row.(experiment := Some(id), status := ExperimentReady)) else t
  }

  function Evaluate(t: Tables, p: ProposalId): Tables
    requires p in t.proposals
  {
    var row := t.proposals[p];
    if row.experiment.None? then SetProposal(t, p, row.(status := Blocked))
    else if row.experiment.value !in t.experiments then t
    else SetProposal(t, p, row.(status := if Passing(row, t.experiments[row.experiment.value]) then Recommended else Blocked))
  }

  function Review(t: Tables, p: ProposalId, d: Decision): Tables
    requires p in t.proposals
  {
    var row := t.proposals[p];
    if d == Approve && row.status != Recommended then t
    else SetProposal(t, p, row.(decision := Some(d),
      status := match d case Approve => Approved case Reject => Rejected case Block => Blocked))
  }

  // ---- The ledger ---------------------------------------------------------------------

  // The last active row. There is at most one, so that any order of the query finds it.
  function Active(rows: seq<Row>): Option<nat>
    ensures var i := Active(rows);
            if i.Some? then i.value < |rows| && rows[i.value].active && forall j | i.value < j < |rows| :: !rows[j].active
            else forall j | 0 <= j < |rows| :: !rows[j].active
  {
    if rows == [] then None
    else if rows[|rows| - 1].active then Some(|rows| - 1)
    else Active(rows[..|rows| - 1])
  }

  function Retire(rows: seq<Row>, i: nat): seq<Row>
    requires i < |rows|
  {
    rows[i := rows[i].(active := false)]
  }

  predicate HasId(rows: seq<Row>, id: RowId) {
    exists i :: 0 <= i < |rows| && rows[i].id == id
  }

  // The row that a promotion would insert.
  function NextRow(t: Tables, p: ProposalId, at: nat): Row
    requires p in t.proposals
  {
    var row := t.proposals[p];
    var src := match Active(t.rows) case Some(i) => t.rows[i].dst case None => row.baseline;
    Row(Promotion(p, src, row.candidate, at), p, src, row.candidate, true)
  }

  predicate Promotable(t: Tables, p: ProposalId) {
    p in t.proposals && t.proposals[p].status == Approved && t.proposals[p].decision == Some(Approve)
  }

  // A duplicate key raises after the active row has been retired, and the open
  // transaction keeps that update until somebody commits.
  function Promote(t: Tables, p: ProposalId, at: nat): Tables {
    if !Promotable(t, p) then t
    else
      var retired := match Active(t.rows) case Some(i) => Retire(t.rows, i) case None => t.rows;
      var row := NextRow(t, p, at);
      if HasId(retired, row.id) then t.(rows := retired)
      else SetProposal(t.(rows := retired + [row]), p, t.proposals[p].(status := Promoted))
  }

  function Find(rows: seq<Row>, id: RowId): Option<nat>
    ensures var i := Find(rows, id); if i.Some? then i.value < |rows| && rows[i.value].id == id else !HasId(rows, id)
  {
    if rows == [] then None
    else if rows[|rows| - 1].id == id then Some(|rows| - 1)
    else Find(rows[..|rows| - 1], id)
  }

  function Rollback(t: Tables, id: RowId, at: nat): Tables {
    match Find(t.rows, id)
    case None => t
    case Some(i) =>
      var row := t.rows[i];
      if !row.active then t
      else
        var (retired, restored) := (Retire(t.rows, i), Row(Restoration(id, row.src, at), row.proposal, row.dst, row.src, true));
        if HasId(retired, restored.id) then t.(rows := retired)
        else
          var t' := t.(rows := retired + [restored]);
          if row.proposal in t.proposals then SetProposal(t', row.proposal, t.proposals[row.proposal].(status := RolledBack)) else t'
  }

  // ---- All moves ----------------------------------------------------------------------

  datatype Label =
    | Propose(p: ProposalId, baseline: ModelId, candidate: ModelId, targets: seq<string>)
    | RunExperiment(id: ExperimentId, outcome: Experiment)
    | AttachExperiment(p: ProposalId, id: ExperimentId)
    | EvaluateRecommendation(p: ProposalId)
    | ReviewProposal(p: ProposalId, decision: Decision)
    | PromoteModel(p: ProposalId, at: nat)
    | RollbackPromotion(row: RowId, at: nat)

  function Apply(t: Tables, l: Label): Tables {
    match l
    case Propose(p, baseline, candidate, targets) =>
      if p in t.proposals then t else SetProposal(t, p, Proposal(baseline, candidate, targets, Draft, None, None))
    case RunExperiment(id, outcome) => PutExperiment(t, id, outcome)
    case AttachExperiment(p, id) =>
      if p in t.proposals && id in t.experiments && t.experiments[id].baseline == t.proposals[p].baseline
         && t.experiments[id].candidate == t.proposals[p].candidate then Attach(t, p, id) else t
    case EvaluateRecommendation(p) => if p in t.proposals then Evaluate(t, p) else t
    case ReviewProposal(p, d) => if p in t.proposals then Review(t, p, d) else t
    case PromoteModel(p, at) => Promote(t, p, at)
    case RollbackPromotion(id, at) => Rollback(t, id, at)
  }

  function Run(t: Tables, ls: seq<Label>): Tables
    decreases |ls|
  {
    if ls == [] then t else Run(Apply(t, ls[0]), ls[1..])
  }

  // ---- What every run keeps -------------------------------------------------------------

  predicate AtMostOneActive(rows: seq<Row>) {
    forall i, j :: 0 <= i < j < |rows| ==> !(rows[i].active && rows[j].active)
  }

  predicate DistinctIds(rows: seq<Row>) {
    forall i, j :: 0 <= i < j < |rows| ==> rows[i].id != rows[j].id
  }

  // A restoration is the mirror image of an earlier row, which is retired for good.
  predicate Mirrors(rows: seq<Row>, i: nat)
    requires i < |rows|
  {
    match rows[i].id
    case Promotion(p, src, dst, _) => rows[i].proposal == p && rows[i].src == src && rows[i].dst == dst
    case Restoration(of, model, _) =>
      rows[i].dst == model
      && exists j :: 0 <= j < i && rows[j].id == of && !rows[j].active && rows[j].src == rows[i].dst && rows[j].dst == rows[i].src && rows[j].proposal == rows[i].proposal
  }

  predicate RowsOk(rows: seq<Row>) {
    && AtMostOneActive(rows) && DistinctIds(rows)
    && forall i {:trigger Mirrors(rows, i)} :: 0 <= i < |rows| ==> Mirrors(rows, i)
  }

  predicate Gated(row: Proposal) {
    row.status in {Recommended, Approved, Promoted}
  }

  // A proposal past the gate has a target that can improve and, as long as its experiment
  // has not been replaced, a passing experiment about its own two models.
  predicate ProposalOk(t: Tables, p: ProposalId)
    requires p in t.proposals
  {
    var row := t.proposals[p];
    && (row.experiment.Some? ==>
          && row.experiment.value in t.experiments
          && var e := t.experiments[row.experiment.value];
          && e.baseline == row.baseline && e.candidate == row.candidate
          && (Gated(row) ==> Passing(row, e)))
    && (Gated(row) ==> exists m | m in Targets(row) :: m !in NEVER_IMPROVING)
    && (row.status == Approved ==> row.decision == Some(Approve))
  }

  ghost predicate Good(t: Tables) {
    && RowsOk(t.rows) && (forall i :: 0 <= i < |t.rows| ==> t.rows[i].proposal in t.proposals)
    && forall p {:trigger ProposalOk(t, p)} | p in t.proposals :: ProposalOk(t, p)
  }

  lemma RetireKeeps(rows: seq<Row>, i: nat)
    requires RowsOk(rows) && i < |rows|
    ensures RowsOk(Retire(rows, i))
  {
    var rows' := Retire(rows, i);
    forall k | 0 <= k < |rows'| ensures Mirrors(rows', k) {
      assert Mirrors(rows, k);
      if rows[k].id.Restoration? {
        var j :| 0 <= j < k && rows[j].id == rows[k].id.of && !rows[j].active && rows[j].src == rows[k].dst && rows[j].dst == rows[k].src
                 && rows[j].proposal == rows[k].proposal;
        assert rows'[j] == rows[j];
      }
    }
  }

  lemma AppendKeeps(rows: seq<Row>, row: Row)
    requires RowsOk(rows) && !HasId(rows, row.id) && (forall i :: 0 <= i < |rows| ==> !rows[i].active)
    requires Mirrors(rows + [row], |rows|)
    ensures RowsOk(rows + [row])
  {
    var rows' := rows + [row];
    forall k | 0 <= k < |rows'| ensures Mirrors(rows', k) {
      if k < |rows| {
        assert Mirrors(rows, k);
        if rows[k].id.Restoration? {
          var j :| 0 <= j < k && rows[j].id == rows[k].id.of && !rows[j].active && rows[j].src == rows[k].dst && rows[j].dst == rows[k].src
                   && rows[j].proposal == rows[k].proposal;
          assert rows'[j] == rows[j];
        }
      }
    }
  }

  lemma PromoteRows(t: Tables, p: ProposalId, at: nat)
    requires RowsOk(t.rows)
    ensures RowsOk(Promote(t, p, at).rows)
  {
    if Promotable(t, p) {
      var a := Active(t.rows);
      if a.Some? { RetireKeeps(t.rows, a.value); }
      var retired := if a.Some? then Retire(t.rows, a.value) else t.rows;
      var row := NextRow(t, p, at);
      if !HasId(retired, row.id) { AppendKeeps(retired, row); }
    }
  }

  // The key of a restoration is always new.
  lemma RestorationIsNew(rows: seq<Row>, i: nat, at: nat)
    requires RowsOk(rows) && i < |rows| && rows[i].active
    ensures !HasId(rows, Restoration(rows[i].id, rows[i].src, at)) && !HasId(Retire(rows, i), Restoration(rows[i].id, rows[i].src, at))
  {
    forall k | 0 <= k < |rows| ensures rows[k].id != Restoration(rows[i].id, rows[i].src, at) {
      assert Mirrors(rows, k);
    }
  }

  lemma RollbackRows(t: Tables, id: RowId, at: nat)
    requires RowsOk(t.rows)
    ensures RowsOk(Rollback(t, id, at).rows)
  {
    var f := Find(t.rows, id);
    if f.Some? && t.rows[f.value].active {
      var (i, row) := (f.value, t.rows[f.value]);
      RetireKeeps(t.rows, i);
      RestorationIsNew(t.rows, i, at);
      var retired := Retire(t.rows, i);
      var restored := Row(Restoration(id, row.src, at), row.proposal, row.dst, row.src, true);
      assert (retired + [restored])[i] == retired[i];
      AppendKeeps(retired, restored);
    }
  }

  lemma ProposalsKeep(t: Tables, l: Label, p: ProposalId)
    requires Good(t) && p in Apply(t, l).proposals
    ensures ProposalOk(Apply(t, l), p)
  {
    hide Active, HasId, Retire;
    if p in t.proposals { assert ProposalOk(t, p); }
  }

  lemma StepKeeps(t: Tables, l: Label)
    requires Good(t)
    ensures Good(Apply(t, l))
  {
    hide ProposalOk;
    match l {
      case PromoteModel(p, at) => PromoteRows(t, p, at);
      case RollbackPromotion(id, at) => RollbackRows(t, id, at);
      case _ =>
    }
    forall p | p in Apply(t, l).proposals ensures ProposalOk(Apply(t, l), p) { ProposalsKeep(t, l, p); }
  }

  lemma {:induction false} RunKeeps(t: Tables, ls: seq<Label>)
    requires Good(t)
    ensures Good(Run(t, ls))
    decreases |ls|
  {
    if ls != [] {
      StepKeeps(t, ls[0]);
      RunKeeps(Apply(t, ls[0]), ls[1..]);
    }
  }

  function Reached(ls: seq<Label>): Tables {
    Run(NO_TABLES, ls)
  }

  lemma ReachedGood(ls: seq<Label>)
    ensures Good(Reached(ls))
  {
    RunKeeps(NO_TABLES, ls);
  }

  // ---- The ledger theorems ----------------------------------------------------------------

  // The model in use: active_local_memory_model_version.
  function InUse(t: Tables): Option<ModelId> {
    match Active(t.rows) case Some(i) => Some(t.rows[i].dst) case None => None
  }

  // One unbroken path of models, starting at the baseline of the first proposal, whose last
  // row alone is active.
  predicate Intact(t: Tables) {
    t.rows != [] ==>
      && t.rows[|t.rows| - 1].active
      && (forall i :: 0 <= i < |t.rows| - 1 ==> t.rows[i].dst == t.rows[i + 1].src)
      && t.rows[0].proposal in t.proposals && t.rows[0].src == t.proposals[t.rows[0].proposal].baseline
  }

  // At most one row is active, whatever happens; ids are unique.
  lemma AtMostOneModelInUse(ls: seq<Label>)
    ensures var rows := Reached(ls).rows; AtMostOneActive(rows) && DistinctIds(rows)
  {
    ReachedGood(ls);
  }

  // The call would insert a row whose key exists already.
  predicate Collides(t: Tables, l: Label) {
    l.PromoteModel? && Promotable(t, l.p) && HasId(t.rows, NextRow(t, l.p, l.at).id)
  }

  // A move keeps the path unbroken and the last row active if and only if it is not a
  // promotion whose key exists already.
  lemma StaysIntact(t: Tables, l: Label)
    requires Good(t) && Intact(t)
    ensures Intact(Apply(t, l)) <==> !Collides(t, l)
  {
    match l {
      case PromoteModel(p, at) => PromoteIntact(t, p, at);
      case RollbackPromotion(id, at) => RollbackIntact(t, id, at);
      case _ =>
    }
  }

  lemma ActiveIsLast(t: Tables)
    requires Intact(t) && t.rows != []
    ensures Active(t.rows) == Some(|t.rows| - 1)
  {
  }

  lemma PromoteIntact(t: Tables, p: ProposalId, at: nat)
    requires Good(t) && Intact(t)
    ensures Intact(Promote(t, p, at)) <==> !Collides(t, PromoteModel(p, at))
  {
    if Promotable(t, p) {
      var row := NextRow(t, p, at);
      if t.rows != [] {
        ActiveIsLast(t);
        var retired := Retire(t.rows, |t.rows| - 1);
        SameIds(t.rows, |t.rows| - 1, row.id);
        var t' := Promote(t, p, at);
        if !HasId(retired, row.id) {
          forall i | 0 <= i < |t'.rows| - 1 ensures t'.rows[i].dst == t'.rows[i + 1].src {
            if i < |t.rows| - 1 { assert t.rows[i].dst == t.rows[i + 1].src; }
          }
        }
      }
    }
  }

  lemma SameIds(rows: seq<Row>, i: nat, id: RowId)
    requires i < |rows|
    ensures HasId(Retire(rows, i), id) <==> HasId(rows, id)
  {
    var rows' := Retire(rows, i);
    assert forall k :: 0 <= k < |rows| ==> rows'[k].id == rows[k].id;
  }

  lemma RollbackIntact(t: Tables, id: RowId, at: nat)
    requires Good(t) && Intact(t)
    ensures Intact(Rollback(t, id, at))
  {
    var f := Find(t.rows, id);
    if f.Some? && t.rows[f.value].active {
      ActiveIsLast(t);
      RestorationIsNew(t.rows, f.value, at);
      var t' := Rollback(t, id, at);
      forall i | 0 <= i < |t'.rows| - 1 ensures t'.rows[i].dst == t'.rows[i + 1].src {
        if i < |t.rows| - 1 { assert t.rows[i].dst == t.rows[i + 1].src; }
      }
    }
  }

  // No call of the run collides.
  predicate Collisionless(t: Tables, ls: seq<Label>)
    decreases |ls|
  {
    ls != [] ==> !Collides(t, ls[0]) && Collisionless(Apply(t, ls[0]), ls[1..])
  }

  lemma {:induction false} RunIntact(t: Tables, ls: seq<Label>)
    requires Good(t) && Intact(t) && Collisionless(t, ls)
    ensures Intact(Run(t, ls))
    decreases |ls|
  {
    if ls != [] {
      StepKeeps(t, ls[0]);
      StaysIntact(t, ls[0]);
      RunIntact(Apply(t, ls[0]), ls[1..]);
    }
  }

  // Over every run without a colliding key: exactly one row is active once any promotion
  // happened, it is the newest, and the rows form one unbroken path.
  lemma UnbrokenLedger(ls: seq<Label>)
    requires Collisionless(NO_TABLES, ls)
    ensures var t := Reached(ls);
            Intact(t) && (t.rows != [] ==> Active(t.rows) == Some(|t.rows| - 1) && forall i :: 0 <= i < |t.rows| - 1 ==> !t.rows[i].active)
  {
    RunIntact(NO_TABLES, ls);
    ReachedGood(ls);
    var t := Reached(ls);
    if t.rows != [] { ActiveIsLast(t); }
  }

  function AtOf(id: RowId): nat {
    id.at
  }

  // Time stamps that grow from promotion to promotion rule collisions out.
  predicate Clocked(ls: seq<Label>, now: nat)
    decreases |ls|
  {
    ls != [] ==>
      match ls[0]
      case PromoteModel(_, at) => at > now && Clocked(ls[1..], at)
      case RollbackPromotion(_, at) => at > now && Clocked(ls[1..], at)
      case _ => Clocked(ls[1..], now)
  }

  predicate Before(rows: seq<Row>, now: nat) {
    forall i :: 0 <= i < |rows| ==> AtOf(rows[i].id) <= now
  }

  lemma StepBefore(t: Tables, l: Label, now: nat)
    requires Before(t.rows, now) && (l.PromoteModel? || l.RollbackPromotion? ==> l.at > now)
    ensures Before(Apply(t, l).rows, if l.PromoteModel? || l.RollbackPromotion? then l.at else now) && !Collides(t, l)
  {
  }

  lemma {:induction false} ClockedRun(t: Tables, ls: seq<Label>, now: nat)
    requires Before(t.rows, now) && Clocked(ls, now)
    ensures Collisionless(t, ls)
    decreases |ls|
  {
    if ls != [] {
      var l := ls[0];
      StepBefore(t, l, now);
      ClockedRun(Apply(t, l), ls[1..], if l.PromoteModel? || l.RollbackPromotion? then l.at else now);
    }
  }

  lemma GrowingClockIsEnough(ls: seq<Label>, now: nat)
    requires Clocked(ls, now)
    ensures Collisionless(NO_TABLES, ls) && Intact(Reached(ls))
  {
    ClockedRun(NO_TABLES, ls, now);
    UnbrokenLedger(ls);
  }

  // A collision leaves no model in use.
  lemma CollisionDropsTheModel(t: Tables, l: Label)
    requires Good(t) && Intact(t) && Collides(t, l)
    ensures InUse(t).Some? && InUse(Apply(t, l)).None?
  {
    var row := NextRow(t, l.p, l.at);
    assert t.rows != [];
    ActiveIsLast(t);
    SameIds(t.rows, |t.rows| - 1, row.id);
  }

  // Time stamps have a resolution of one second. A model that is promoted, rolled back,
  // approved and promoted again within one second collides.
  lemma TwiceInASecond(t: Tables, p: ProposalId, at: nat)
    requires Good(t) && Intact(t) && Promotable(t, p) && t.proposals[p].experiment.Some? && !Collides(t, PromoteModel(p, at))
    ensures var again := [PromoteModel(p, at), RollbackPromotion(NextRow(t, p, at).id, at), EvaluateRecommendation(p),
      ReviewProposal(p, Approve)];
            Collides(Run(t, again), PromoteModel(p, at)) && InUse(Run(t, again + [PromoteModel(p, at)])).None?
  {
    hide Good;
    var row := NextRow(t, p, at);
    var (l1, l2, l3, l4) := (PromoteModel(p, at), RollbackPromotion(row.id, at), EvaluateRecommendation(p), ReviewProposal(p, Approve));
    var t2 := Apply(Apply(t, l1), l2);
    PromotedOnce(t, p, at);
    ApprovedAgain(t, t2, p);
    var t4 := Apply(Apply(t2, l3), l4);
    RunFour(t, l1, l2, l3, l4);
    assert HasId(t4.rows, row.id) by { assert t4.rows[|t.rows|].id == row.id; }
    StepKeeps(t, l1);
    StepKeeps(Apply(t, l1), l2);
    StepKeeps(t2, l3);
    StepKeeps(Apply(t2, l3), l4);
    CollisionDropsTheModel(t4, l1);
    RunConcat(t, [l1, l2, l3, l4], [l1]);
    assert Run(t4, [l1]) == Run(Apply(t4, l1), []);
  }

  // The experiment still passes, so that the proposal is recommended and approved again.
  lemma ApprovedAgain(t: Tables, t2: Tables, p: ProposalId)
    requires Good(t) && Promotable(t, p) && t.proposals[p].experiment.Some? && t2.experiments == t.experiments
    requires t2.proposals == t.proposals[p := t.proposals[p].(status := RolledBack)]
    ensures var t4 := Apply(Apply(t2, EvaluateRecommendation(p)), ReviewProposal(p, Approve));
            t4.rows == t2.rows && Promotable(t4, p) && t4.proposals[p].candidate == t.proposals[p].candidate
  {
    assert ProposalOk(t, p);
  }

  // Promotion and rollback: the new row, retired, and its mirror image, active.
  lemma PromotedOnce(t: Tables, p: ProposalId, at: nat)
    requires Good(t) && Intact(t) && Promotable(t, p) && !Collides(t, PromoteModel(p, at))
    ensures var row := NextRow(t, p, at);
            var t' := Apply(Apply(t, PromoteModel(p, at)), RollbackPromotion(row.id, at));
            && |t'.rows| == |t.rows| + 2 && t'.rows[|t.rows|] == row.(active := false)
            && t'.rows[|t.rows| + 1].dst == row.src && Intact(t')
            && t'.proposals == t.proposals[p := t.proposals[p].(status := RolledBack)] && t'.experiments == t.experiments
  {
    var (n, row) := (|t.rows|, NextRow(t, p, at));
    if n > 0 {
      ActiveIsLast(t);
      SameIds(t.rows, n - 1, row.id);
    }
    var t1 := Apply(t, PromoteModel(p, at));
    StepKeeps(t, PromoteModel(p, at));
    PromoteIntact(t, p, at);
    assert |t1.rows| == n + 1 && t1.rows[n] == row;
    FindIt(t1.rows, n);
    RestorationIsNew(t1.rows, n, at);
    RollbackIntact(t1, row.id, at);
  }

  lemma RunFour(t: Tables, a: Label, b: Label, c: Label, d: Label)
    ensures Run(t, [a, b, c, d]) == Apply(Apply(Apply(Apply(t, a), b), c), d)
  {
    assert [a, b, c, d][1..] == [b, c, d] && [b, c, d][1..] == [c, d] && [c, d][1..] == [d] && [d][1..] == [];
    var t2 := Apply(Apply(t, a), b);
    assert Run(t2, [c, d]) == Run(Apply(t2, c), [d]);
    assert Run(Apply(t2, c), [d]) == Run(Apply(Apply(t2, c), d), []);
  }

  // ---- Rolling back -------------------------------------------------------------------------

  // Rolling the active row back restores the model in use just before it, and rolling the
  // restoration back returns to the promoted model. The proposal stays rolled back.
  lemma RollbackRestores(t: Tables, at: nat, at': nat)
    requires Good(t) && Intact(t) && t.rows != []
    ensures var last := t.rows[|t.rows| - 1];
            var t1 := Rollback(t, last.id, at);
            var t2 := Rollback(t1, Restoration(last.id, last.src, at), at');
            && InUse(t) == Some(last.dst) && InUse(t1) == Some(last.src) && InUse(t2) == InUse(t)
            && last.src == (if |t.rows| > 1 then t.rows[|t.rows| - 2].dst else t.proposals[last.proposal].baseline)
            && |t1.rows| == |t.rows| + 1 && |t2.rows| == |t.rows| + 2 && Intact(t2)
            && last.proposal in t2.proposals && t2.proposals[last.proposal].status == RolledBack
  {
    var n := |t.rows|;
    var last := t.rows[n - 1];
    ActiveIsLast(t);
    FindIt(t.rows, n - 1);
    RestorationIsNew(t.rows, n - 1, at);
    RollbackRows(t, last.id, at);
    RollbackIntact(t, last.id, at);
    var t1 := Rollback(t, last.id, at);
    assert t1.rows == Retire(t.rows, n - 1) + [Row(Restoration(last.id, last.src, at), last.proposal, last.dst, last.src, true)];
    StepKeeps(t, RollbackPromotion(last.id, at));
    FindIt(t1.rows, n);
    RestorationIsNew(t1.rows, n, at');
    RollbackIntact(t1, t1.rows[n].id, at');
    ActiveIsLast(t1);
    ActiveIsLast(Rollback(t1, t1.rows[n].id, at'));
    if n > 1 { assert t.rows[n - 2].dst == t.rows[n - 1].src; }
  }

  lemma FindIt(rows: seq<Row>, i: nat)
    requires DistinctIds(rows) && i < |rows|
    ensures Find(rows, rows[i].id) == Some(i)
  {
    assert HasId(rows, rows[i].id);
  }

  // Rows are never altered but for their retirement, and never deleted.
  lemma RowsOnlyRetire(t: Tables, l: Label)
    ensures var rows' := Apply(t, l).rows;
            |t.rows| <= |rows'| && forall i :: 0 <= i < |t.rows| ==> rows'[i] == t.rows[i] || (t.rows[i].active && rows'[i] == t.rows[i].(active := false))
  {
  }

  // ---- The gate ----------------------------------------------------------------------------

  predicate GatedAttached(t: Tables) {
    forall p | p in t.proposals && Gated(t.proposals[p]) :: t.proposals[p].experiment.Some?
  }

  // The experiment of a proposal past the gate is run again under the same id.
  predicate Unhooks(t: Tables, l: Label) {
    && l.RunExperiment? && l.id in t.experiments
    && exists p :: p in t.proposals && Gated(t.proposals[p]) && t.proposals[p].experiment == Some(l.id)
  }

  lemma StaysAttached(t: Tables, l: Label)
    requires Good(t) && GatedAttached(t)
    ensures GatedAttached(Apply(t, l)) <==> !Unhooks(t, l)
  {
    var t' := Apply(t, l);
    if l.RunExperiment? && Unhooks(t, l) {
      var p :| p in t.proposals && Gated(t.proposals[p]) && t.proposals[p].experiment == Some(l.id);
      assert p in t'.proposals && t'.proposals[p].experiment == None;
    } else {
      forall p | p in t'.proposals && Gated(t'.proposals[p]) ensures t'.proposals[p].experiment.Some? {
        StaysAttachedOne(t, l, p);
      }
    }
  }

  lemma StaysAttachedOne(t: Tables, l: Label, p: ProposalId)
    requires Good(t) && GatedAttached(t) && !Unhooks(t, l) && p in Apply(t, l).proposals && Gated(Apply(t, l).proposals[p])
    ensures Apply(t, l).proposals[p].experiment.Some?
  {
    if p in t.proposals { assert ProposalOk(t, p); }
  }

  predicate Hooked(t: Tables, ls: seq<Label>)
    decreases |ls|
  {
    ls != [] ==> !Unhooks(t, ls[0]) && Hooked(Apply(t, ls[0]), ls[1..])
  }

  lemma {:induction false} RunAttached(t: Tables, ls: seq<Label>)
    requires Good(t) && GatedAttached(t) && Hooked(t, ls)
    ensures GatedAttached(Run(t, ls))
    decreases |ls|
  {
    if ls != [] {
      StepKeeps(t, ls[0]);
      StaysAttached(t, ls[0]);
      RunAttached(Apply(t, ls[0]), ls[1..]);
    }
  }

  // The metrics by which a proposal can be found to improve: its targets, or recall when it
  // names none, but for four rates that should fall.
  function Aims(row: Proposal): set<string> {
    (if row.targets == [] then {"recall_at_k"} else set m | m in row.targets)
    - {"cross_profile_leakage", "unauthorized_writes", "memory_bloat_rate", "harmful_recall_rate"}
  }

  lemma AimsAreTargets(row: Proposal, m: string)
    ensures m in Aims(row) <==> m in Targets(row) && m !in NEVER_IMPROVING
  {
  }

  // A proposal that is recommended, approved or promoted has a passing, safe experiment
  // with an improved target, unless that experiment was run again meanwhile.
  lemma GateIsSound(ls: seq<Label>, p: ProposalId)
    requires p in Reached(ls).proposals && Gated(Reached(ls).proposals[p])
    ensures var (t, row) := (Reached(ls), Reached(ls).proposals[p]);
            && (row.experiment.Some? ==>
                  && row.experiment.value in t.experiments
                  && var e := t.experiments[row.experiment.value];
                  && e.baseline == row.baseline && e.candidate == row.candidate && e.passed && e.safe
                  && exists m | m in Aims(row) :: m in e.deltas && e.deltas[m] > 0)
            && (Hooked(NO_TABLES, ls) ==> row.experiment.Some?)
            && Aims(row) != {}
  {
    ReachedGood(ls);
    var (t, row) := (Reached(ls), Reached(ls).proposals[p]);
    assert ProposalOk(t, p);
    if Hooked(NO_TABLES, ls) { RunAttached(NO_TABLES, ls); }
    var m :| m in Targets(row) && m !in NEVER_IMPROVING;
    AimsAreTargets(row, m);
    if row.experiment.Some? {
      var k :| k in Targets(row) && k !in NEVER_IMPROVING && DeltaOf(t.experiments[row.experiment.value], k) > 0;
      AimsAreTargets(row, k);
    }
  }

  // An approved proposal whose experiment is run again is still promoted, with no
  // experiment attached.
  lemma PromotedUnhooked(t: Tables, p: ProposalId, e: ExperimentId, outcome: Experiment, at: nat)
    requires Good(t) && Promotable(t, p) && t.proposals[p].experiment == Some(e) && !Collides(t, PromoteModel(p, at))
    ensures var t' := Apply(Apply(t, RunExperiment(e, outcome)), PromoteModel(p, at));
            && p in t'.proposals && t'.proposals[p].status == Promoted && t'.proposals[p].experiment.None?
            && InUse(t') == Some(t.proposals[p].candidate)
  {
    assert ProposalOk(t, p);
    var t1 := Apply(t, RunExperiment(e, outcome));
    assert t1.rows == t.rows && NextRow(t1, p, at) == NextRow(t, p, at);
    var a := Active(t.rows);
    if a.Some? { SameIds(t.rows, a.value, NextRow(t, p, at).id); }
  }

  // ---- Two promotions need two approvals -----------------------------------------------------

  predicate Promotes(t: Tables, l: Label, p: ProposalId) {
    l.PromoteModel? && l.p == p && Promotable(t, p) && !Collides(t, l)
  }

  predicate Approves(t: Tables, l: Label, p: ProposalId) {
    l == ReviewProposal(p, Approve) && p in t.proposals && t.proposals[p].status == Recommended
  }

  lemma OnlyApprovalApproves(t: Tables, l: Label, p: ProposalId)
    requires !(p in t.proposals && t.proposals[p].status == Approved) && p in Apply(t, l).proposals
             && Apply(t, l).proposals[p].status == Approved
    ensures Approves(t, l, p)
  {
  }

  lemma {:induction false} ApprovedMeanwhile(t: Tables, ls: seq<Label>, p: ProposalId) returns (k: nat)
    requires !(p in t.proposals && t.proposals[p].status == Approved) && p in Run(t, ls).proposals
             && Run(t, ls).proposals[p].status == Approved
    ensures k < |ls| && Approves(Run(t, ls[..k]), ls[k], p)
    decreases |ls|
  {
    var t' := Apply(t, ls[0]);
    if p in t'.proposals && t'.proposals[p].status == Approved {
      OnlyApprovalApproves(t, ls[0], p);
      k := 0;
    } else {
      var j := ApprovedMeanwhile(t', ls[1..], p);
      k := j + 1;
      assert ls[..k][0] == ls[0] && ls[..k][1..] == ls[1..][..j];
    }
  }

  lemma {:induction false} RunConcat(t: Tables, ls: seq<Label>, more: seq<Label>)
    ensures Run(t, ls + more) == Run(Run(t, ls), more)
    decreases |ls|
  {
    if ls == [] {
      assert ls + more == more;
    } else {
      assert (ls + more)[1..] == ls[1..] + more;
      RunConcat(Apply(t, ls[0]), ls[1..], more);
    }
  }

  // Between two promotions of one proposal there is a fresh approval, given while the
  // proposal was recommended.
  lemma FreshApproval(ls: seq<Label>, i: nat, j: nat, p: ProposalId) returns (k: nat)
    requires i < j < |ls| && Promotes(Reached(ls[..i]), ls[i], p) && Promotes(Reached(ls[..j]), ls[j], p)
    ensures i < k < j && Approves(Reached(ls[..k]), ls[k], p)
  {
    hide Apply, Promotes, Approves;
    PromotableNow(Reached(ls[..j]), ls[j], p);
    var t := Reached(ls[..i]);
    var mid := ls[i + 1..j];
    ReachedNext(ls, i);
    var t1 := Reached(ls[..i + 1]);
    RunConcat(NO_TABLES, ls[..i + 1], mid);
    assert ls[..i + 1] + mid == ls[..j];
    PromotedNow(t, ls[i], p);
    var m := ApprovedMeanwhile(t1, mid, p);
    k := i + 1 + m;
    RunConcat(NO_TABLES, ls[..i + 1], mid[..m]);
    assert ls[..i + 1] + mid[..m] == ls[..k] && mid[m] == ls[k];
  }

  lemma ReachedNext(ls: seq<Label>, i: nat)
    requires i < |ls|
    ensures Reached(ls[..i + 1]) == Apply(Reached(ls[..i]), ls[i])
  {
    hide Apply;
    RunConcat(NO_TABLES, ls[..i], [ls[i]]);
    assert ls[..i] + [ls[i]] == ls[..i + 1];
    assert Run(Reached(ls[..i]), [ls[i]]) == Run(Apply(Reached(ls[..i]), ls[i]), []);
  }

  lemma PromotableNow(t: Tables, l: Label, p: ProposalId)
    requires Promotes(t, l, p)
    ensures p in t.proposals && t.proposals[p].status == Approved
  {
  }

  lemma PromotedNow(t: Tables, l: Label, p: ProposalId)
    requires Promotes(t, l, p)
    ensures p in Apply(t, l).proposals && Apply(t, l).proposals[p].status == Promoted
  {
    var a := Active(t.rows);
    if a.Some? { SameIds(t.rows, a.value, NextRow(t, p, l.at).id); }
  }

  // ---- Runs from empty tables ------------------------------------------------------------------

  const SUBJECT: ProposalId := "proposal"
  const TRIAL: ExperimentId := "experiment"
  const SUCCESS := Experiment("base", "candidate", true, true, map["recall_at_k" := 1])

  function Approval(): seq<Label> {
    [Propose(SUBJECT, "base", "candidate", []), RunExperiment(TRIAL, SUCCESS), AttachExperiment(SUBJECT, TRIAL),
     EvaluateRecommendation(SUBJECT)] + [ReviewProposal(SUBJECT, Approve)]
  }

  lemma ApprovedIsReached()
    ensures var t := Reached(Approval());
            t == Tables(map[TRIAL := SUCCESS], map[SUBJECT := Proposal("base", "candidate", [], Approved, Some(TRIAL), Some(Approve))], [])
  {
    var (l1, l2, l3, l4) := (Propose(SUBJECT, "base", "candidate", []), RunExperiment(TRIAL, SUCCESS), AttachExperiment(SUBJECT, TRIAL),
      EvaluateRecommendation(SUBJECT));
    var row := Proposal("base", "candidate", [], Draft, None, None);
    RunFour(NO_TABLES, l1, l2, l3, l4);
    RunConcat(NO_TABLES, [l1, l2, l3, l4], [ReviewProposal(SUBJECT, Approve)]);
    var ready := row.(experiment := Some(TRIAL), status := ExperimentReady);
    assert Apply(NO_TABLES, l1) == Tables(map[], map[SUBJECT := row], []);
    assert Apply(Apply(NO_TABLES, l1), l2) == Tables(map[TRIAL := SUCCESS], map[SUBJECT := row], []);
    assert Targets(ready) == ["recall_at_k"] && "recall_at_k" in Targets(ready) && Improved(ready, SUCCESS);
    var t := Tables(map[TRIAL := SUCCESS], map[SUBJECT := ready.(status := Recommended)], []);
    assert Run(NO_TABLES, [l1, l2, l3, l4]) == t;
    assert Run(t, [ReviewProposal(SUBJECT, Approve)]) == Run(Apply(t, ReviewProposal(SUBJECT, Approve)), []);
  }

  // Both findings begin with empty tables: the collision drops the model in use, and the
  // rerun lets a proposal without an experiment through. The id of an experiment is made of its
  // models, its suite and its second, so that the rerun is one of the same suite in the same
  // second, or with the same explicit time, and has the same outcome.
  lemma FindingsAreReached(at: nat)
    ensures var row := Promotion(SUBJECT, "base", "candidate", at);
            var again := [PromoteModel(SUBJECT, at), RollbackPromotion(row, at), EvaluateRecommendation(SUBJECT), ReviewProposal(SUBJECT, Approve)];
            InUse(Reached(Approval() + (again + [PromoteModel(SUBJECT, at)]))).None?
    ensures var t := Apply(Apply(Reached(Approval()), RunExperiment(TRIAL, SUCCESS)), PromoteModel(SUBJECT, at));
            SUBJECT in t.proposals && t.proposals[SUBJECT].status == Promoted && t.proposals[SUBJECT].experiment.None?
  {
    hide Apply, Good, Approval;
    var t := Reached(Approval());
    ReachedGood(Approval());
    ApprovedIsReached();
    TwiceInASecond(t, SUBJECT, at);
    PromotedUnhooked(t, SUBJECT, TRIAL, SUCCESS, at);
    var again := [PromoteModel(SUBJECT, at), RollbackPromotion(NextRow(t, SUBJECT, at).id, at), EvaluateRecommendation(SUBJECT),
      ReviewProposal(SUBJECT, Approve)];
    RunConcat(NO_TABLES, Approval(), again + [PromoteModel(SUBJECT, at)]);
  }
}
