// The calls of improvement_proposals.py on a connection. A call that raises after a statement
// leaves its transaction open: the next one that commits takes it along, and a rollback of the
// connection forgets it.
module LedgerSession {
  import opened Options
  import opened Ledger

  // What is committed, and what the connection sees.
  datatype Session = Session(committed: Tables, working: Tables)
  const NEW_SESSION := Session(NO_TABLES, NO_TABLES)

  datatype Call =
    | Make(move: Label)
    // An experiment that raises at one of its cases: its row is there, blocked, and not committed.
    | BreakOff(id: ExperimentId, baseline: ModelId, candidate: ModelId)
    | Commit
    | Discard

  // The calls that reach their commit.
  predicate Completes(t: Tables, l: Label) {
    match l
    case Propose(_, _, _, _) => true
    case RunExperiment(_, _) => true
    case AttachExperiment(p, id) =>
      && p in t.proposals && id in t.experiments
      && t.experiments[id].baseline == t.proposals[p].baseline && t.experiments[id].candidate == t.proposals[p].candidate
    case EvaluateRecommendation(p) =>
      p in t.proposals && (t.proposals[p].experiment.Some? ==> t.proposals[p].experiment.value in t.experiments)
    case ReviewProposal(p, d) => p in t.proposals && (d == Approve ==> t.proposals[p].status == Recommended)
    case PromoteModel(p, _) => Promotes(t, l, p)
    case RollbackPromotion(id, at) =>
      var i := Find(t.rows, id);
      i.Some? && t.rows[i.value].active && !HasId(Retire(t.rows, i.value), Restoration(id, t.rows[i.value].src, at))
  }

  function Broken(baseline: ModelId, candidate: ModelId): Experiment {
    Experiment(baseline, candidate, false, false, map[])
  }

  function Do(s: Session, c: Call): Session {
    match c
    case Make(l) => var t := Apply(s.working, l); Session(if Completes(s.working, l) then t else s.committed, t)
    case BreakOff(id, baseline, candidate) => Session(s.committed, PutExperiment(s.working, id, Broken(baseline, candidate)))
    case Commit => Session(s.working, s.working)
    case Discard => Session(s.committed, s.committed)
  }

  function RunAll(s: Session, cs: seq<Call>): Session
    decreases |cs|
  {
    if cs == [] then s else RunAll(Do(s, cs[0]), cs[1..])
  }

  // ---- Both layers ---------------------------------------------------------------------------

  // Rows are only appended, and altered by their retirement.
  predicate Extends(rows: seq<Row>, rows': seq<Row>) {
    && |rows| <= |rows'|
    && forall i :: 0 <= i < |rows| ==> rows'[i] == rows[i] || (rows[i].active && rows'[i] == rows[i].(active := false))
  }

  lemma ExtendsTrans(a: seq<Row>, b: seq<Row>, c: seq<Row>)
    requires Extends(a, b) && Extends(b, c)
    ensures Extends(a, c)
  {
    forall i | 0 <= i < |a| ensures c[i] == a[i] || (a[i].active && c[i] == a[i].(active := false)) {
      assert c[i] == b[i] || (b[i].active && c[i] == b[i].(active := false));
    }
  }

  ghost predicate Sound(s: Session) {
    Good(s.committed) && Good(s.working) && Extends(s.committed.rows, s.working.rows)
  }

  // Every call keeps both layers sound. Committed rows are only appended and retired, for ever;
  // only a rollback of the connection takes anything back from what the connection sees.
  lemma SoundStep(s: Session, c: Call)
    requires Sound(s)
    ensures var s' := Do(s, c);
            && Sound(s') && Extends(s.committed.rows, s'.committed.rows)
            && (if c.Discard? then s'.working == s.committed else Extends(s.working.rows, s'.working.rows))
  {
    hide Good, Completes;
    match c
    case Make(l) =>
      StepKeeps(s.working, l);
      RowsOnlyRetire(s.working, l);
      ExtendsTrans(s.committed.rows, s.working.rows, Apply(s.working, l).rows);
    case BreakOff(id, baseline, candidate) => StepKeeps(s.working, RunExperiment(id, Broken(baseline, candidate)));
    case _ =>
  }

  lemma {:induction false} SoundRun(s: Session, cs: seq<Call>)
    requires Sound(s)
    ensures Sound(RunAll(s, cs)) && Extends(s.committed.rows, RunAll(s, cs).committed.rows)
    decreases |cs|
  {
    hide Sound;
    if cs == [] {
      assert Extends(s.committed.rows, s.committed.rows);
    } else {
      SoundStep(s, cs[0]);
      SoundRun(Do(s, cs[0]), cs[1..]);
      ExtendsTrans(s.committed.rows, Do(s, cs[0]).committed.rows, RunAll(s, cs).committed.rows);
    }
  }

  function Reach(cs: seq<Call>): Session {
    RunAll(NEW_SESSION, cs)
  }

  // Over every run with commits, rollbacks of the connection and calls that raise midway: in
  // what is committed and in what the connection sees, at most one model is in use.
  lemma OneModelInBothLayers(cs: seq<Call>)
    ensures var s := Reach(cs);
            && AtMostOneActive(s.committed.rows) && DistinctIds(s.committed.rows)
            && AtMostOneActive(s.working.rows) && DistinctIds(s.working.rows)
  {
    SoundRun(NEW_SESSION, cs);
  }

  function Made(ls: seq<Label>): seq<Call>
    decreases |ls|
  {
    if ls == [] then [] else [Make(ls[0])] + Made(ls[1..])
  }

  // A connection that is never rolled back sees the tables of the runs without layers.
  lemma {:induction false} WorkingIsRun(s: Session, ls: seq<Label>)
    ensures RunAll(s, Made(ls)).working == Run(s.working, ls)
    decreases |ls|
  {
    hide Apply, Completes;
    if ls != [] {
      assert Made(ls)[1..] == Made(ls[1..]);
      WorkingIsRun(Do(s, Make(ls[0])), ls[1..]);
    }
  }

  // ---- The path after a collision ----------------------------------------------------------------

  function Revived(t: Tables): Tables
    requires t.rows != []
  {
    var n := |t.rows| - 1;
    t.(rows := t.rows[n := t.rows[n].(active := true)])
  }

  // No model is in use; but for the retirement of the last row the path would be unbroken.
  predicate Dropped(t: Tables) {
    t.rows != [] && Active(t.rows).None? && Intact(Revived(t))
  }

  lemma CollisionDrops(t: Tables, l: Label)
    requires Good(t) && Intact(t) && Collides(t, l)
    ensures Dropped(Apply(t, l))
  {
    var n := |t.rows| - 1;
    CollisionDropsTheModel(t, l);
    ActiveIsLast(t);
    SameIds(t.rows, n, NextRow(t, l.p, l.at).id);
    var t' := Apply(t, l);
    assert t' == t.(rows := Retire(t.rows, n));
    assert Revived(t').rows == t.rows;
  }

  // A promotion that starts from the model of the last row, because that is the baseline of
  // its proposal.
  predicate Heals(t: Tables, l: Label) {
    && l.PromoteModel? && Promotes(t, l, l.p)
    && t.rows != [] && t.proposals[l.p].baseline == t.rows[|t.rows| - 1].dst
  }

  lemma PromotedRows(t: Tables, l: Label)
    requires Dropped(t) && l.PromoteModel? && Promotes(t, l, l.p)
    ensures Apply(t, l).rows == t.rows + [NextRow(t, l.p, l.at)] && NextRow(t, l.p, l.at).src == t.proposals[l.p].baseline
  {
  }

  lemma DroppedPromotes(t: Tables, l: Label)
    requires Good(t) && Dropped(t) && l.PromoteModel? && Promotes(t, l, l.p)
    ensures Intact(Apply(t, l)) <==> Heals(t, l)
    ensures !Dropped(Apply(t, l))
  {
    PromotedRows(t, l);
    var (n, t') := (|t.rows|, Apply(t, l));
    var v := Revived(t);
    BaselineStays(t, l, t.rows[0].proposal);
    assert t'.rows[n].active && t'.rows[n - 1] == t.rows[n - 1];
    if Intact(t') { assert t'.rows[n - 1].dst == t'.rows[n - 1 + 1].src; }
    assert v.rows[0].proposal == t.rows[0].proposal && v.rows[0].src == t.rows[0].src;
    forall i | 0 <= i < n - 1 ensures t'.rows[i].dst == t'.rows[i + 1].src {
      assert v.rows[i].dst == v.rows[i + 1].src;
    }
  }

  // While the path is dropped, no other call touches the ledger.
  lemma DroppedStays(t: Tables, l: Label)
    requires Good(t) && Dropped(t) && !(l.PromoteModel? && Promotes(t, l, l.p))
    ensures Dropped(Apply(t, l)) && (!Completes(t, l) ==> Apply(t, l) == t)
  {
    hide Good;
    DroppedRows(t, l);
    var t' := Apply(t, l);
    assert Revived(t').rows == Revived(t).rows;
    BaselineStays(t, l, t.rows[0].proposal);
  }

  lemma DroppedRows(t: Tables, l: Label)
    requires Dropped(t) && !(l.PromoteModel? && Promotes(t, l, l.p))
    ensures Apply(t, l).rows == t.rows && (!Completes(t, l) ==> Apply(t, l) == t)
  {
  }

  lemma BaselineStays(t: Tables, l: Label, p: ProposalId)
    requires p in t.proposals
    ensures p in Apply(t, l).proposals && Apply(t, l).proposals[p].baseline == t.proposals[p].baseline
  {
  }

  // What is committed is an unbroken path, and so is what the connection sees, unless the
  // retirement of a collision is open.
  ghost predicate Whole(s: Session) {
    Sound(s) && Intact(s.committed) && (Intact(s.working) || Dropped(s.working))
  }

  predicate CommitsNow(s: Session, c: Call) {
    c.Commit? || (c.Make? && Completes(s.working, c.move))
  }

  // A commit that takes along what a collision has left open. A promotion that starts from the
  // model of the last row mends it.
  predicate Careless(s: Session, c: Call) {
    Dropped(s.working) && CommitsNow(s, c) && !(c.Make? && Heals(s.working, c.move))
  }

  lemma IntactIsNotDropped(t: Tables)
    requires Dropped(t)
    ensures !Intact(t)
  {
  }

  lemma IntactCall(s: Session, l: Label)
    requires Whole(s) && Intact(s.working)
    ensures Whole(Do(s, Make(l))) && !Dropped(s.working)
  {
    hide Good, Intact, Dropped;
    SoundStep(s, Make(l));
    StaysIntact(s.working, l);
    if Dropped(s.working) { IntactIsNotDropped(s.working); }
    if Collides(s.working, l) {
      CollisionDrops(s.working, l);
    }
  }

  lemma DroppedCall(s: Session, l: Label)
    requires Whole(s) && Dropped(s.working)
    ensures Whole(Do(s, Make(l))) <==> !Careless(s, Make(l))
  {
    hide Good, Intact, Dropped, Completes;
    SoundStep(s, Make(l));
    if l.PromoteModel? && Promotes(s.working, l, l.p) {
      DroppedPromotes(s.working, l);
      PromotionCommits(s.working, l);
    } else {
      DroppedStays(s.working, l);
      IntactIsNotDropped(Apply(s.working, l));
    }
  }

  lemma PromotionCommits(t: Tables, l: Label)
    requires l.PromoteModel? && Promotes(t, l, l.p)
    ensures Completes(t, l)
  {
  }

  lemma BreakOffKeeps(t: Tables, id: ExperimentId, e: Experiment)
    ensures var t' := PutExperiment(t, id, e); (Intact(t) ==> Intact(t')) && (Dropped(t) ==> Dropped(t'))
  {
    if Dropped(t) { assert Revived(PutExperiment(t, id, e)).rows == Revived(t).rows; }
  }

  // A call keeps the ledger whole if and only if it does not commit what a collision has
  // left open.
  lemma WholeStep(s: Session, c: Call)
    requires Whole(s)
    ensures Whole(Do(s, c)) <==> !Careless(s, c)
  {
    hide Good, Intact, Dropped, Completes;
    SoundStep(s, c);
    match c
    case Make(l) => if Dropped(s.working) { DroppedCall(s, l); } else { IntactCall(s, l); }
    case BreakOff(id, baseline, candidate) => BreakOffKeeps(s.working, id, Broken(baseline, candidate));
    case Commit => if Dropped(s.working) { IntactIsNotDropped(s.working); }
    case Discard =>
  }

  predicate Careful(s: Session, cs: seq<Call>)
    decreases |cs|
  {
    cs != [] ==> !Careless(s, cs[0]) && Careful(Do(s, cs[0]), cs[1..])
  }

  lemma {:induction false} WholeRun(s: Session, cs: seq<Call>)
    requires Whole(s) && Careful(s, cs)
    ensures Whole(RunAll(s, cs))
    decreases |cs|
  {
    hide Whole, Careless;
    if cs != [] {
      WholeStep(s, cs[0]);
      WholeRun(Do(s, cs[0]), cs[1..]);
    }
  }

  // Over every run in which nobody commits what a collision has left open: one unbroken path is
  // committed, its newest row alone active, and after a rollback of the connection it is also
  // what the connection sees.
  lemma CommittedPath(cs: seq<Call>)
    requires Careful(NEW_SESSION, cs)
    ensures var s := Reach(cs);
            && Intact(s.committed) && (s.committed.rows != [] ==> Active(s.committed.rows) == Some(|s.committed.rows| - 1))
            && (Intact(s.working) || Dropped(s.working)) && Intact(Do(s, Discard).working)
  {
    WholeRun(NEW_SESSION, cs);
    var s := Reach(cs);
    if s.committed.rows != [] { ActiveIsLast(s.committed); }
  }

  // A collision is forgotten when the connection is rolled back at once. When it is committed
  // instead, no model is in use for anybody.
  lemma CollisionThenRollback(s: Session, l: Label)
    requires Whole(s) && s.committed == s.working && Collides(s.working, l)
    ensures var mid := Do(s, Make(l));
            && mid.committed == s.committed && InUse(mid.committed).Some? && InUse(mid.working).None?
            && Do(mid, Discard) == s && InUse(Do(mid, Commit).committed).None?
  {
    hide Good;
    CollisionDropsTheModel(s.working, l);
  }

  // Once two neighbours of the committed ledger do not fit, no run ever mends it.
  lemma BrokenForGood(s: Session, cs: seq<Call>, i: nat)
    requires Sound(s) && i + 1 < |s.committed.rows| && s.committed.rows[i].dst != s.committed.rows[i + 1].src
    ensures !Intact(RunAll(s, cs).committed)
  {
    SoundRun(s, cs);
    var (rows, rows') := (s.committed.rows, RunAll(s, cs).committed.rows);
    assert rows'[i].dst == rows[i].dst && rows'[i + 1].src == rows[i + 1].src;
    if |rows'| > 1 { assert 0 <= i < |rows'| - 1; }
  }
}
