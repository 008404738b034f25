// Runs from an initial state that reach what the general theorems speak of.
module WritebackScenarios {
  import opened Options
  import opened Text
  import opened Blocks
  import Trim
  import opened Writeback
  import opened WritebackSafety
  import opened WritebackTheorems
  import opened WritebackRecovery
  import opened WritebackDuplicates
  import opened WritebackRuns
  import opened WritebackStops
  import opened WritebackMends
  import opened WritebackRetrims

  const FILE := "MEMORY.md"
  const AUTH: AuthId := "trim-authorization"
  const TRIM: OpId := "trim"
  const UNDO_AUTH: AuthId := "rollback-authorization"
  const UNDO: OpId := "rollback"
  const POLICY := Trim.SMALL_POLICY

  // Any trim that is left alone comes to the point at which RecoveryEquivalence begins.
  lemma ArmedIsReached(s: Sys, id: AuthId, policy: Trim.Policy)
    requires Inv(s) && Trimmable(s, id, policy) && s.disk.auths[id].kind == LiveOverflowTrim
    ensures var op := s.disk.auths[id].op; Armed(Run(s, Trimming(id, policy, op, 9)), op)
  {
    hide Record;
    var op := s.disk.auths[id].op;
    var t := TrimAt(s, id, policy, 9);
    TrimOutcome(s, id, policy, 9);
    RunKeeps(s, Trimming(id, policy, op, 9));
    assert MainOk(t, op) && OpOk(t, op);
  }

  // A file of three entries, and an authorization to trim it.
  function Issued(x: char, y: char): Sys {
    var text := Join(Trim.Entries(x, y));
    Apply(Init(FILE, File(text, 0)), Issue(AUTH, TRIM, LiveOverflowTrim, Sha256(text), None))
  }

  lemma IssuedOk(x: char, y: char)
    requires Trim.Plain(x) && Trim.Plain(y)
    ensures var s := Issued(x, y);
            && Inv(s) && Trimmable(s, AUTH, POLICY) && Planned(s, POLICY).removed == [[x], [y]] && Planned(s, POLICY).after == Join(["ccc"])
            && s.disk.auths == map[AUTH := Auth(TRIM, LiveOverflowTrim, Sha256(Join(Trim.Entries(x, y))), None, false)]
            && s.disk.events == map[] && s.disk.ops == map[] && s.disk.dirs == map[]
            && s.disk.file.text == Join(Trim.Entries(x, y)) && s.planner == Trim.PlanTrim && s.disk.target == FILE
  {
    hide Trim.PlanTrim, Join, Inv;
    var text := Join(Trim.Entries(x, y));
    var s0 := Init(FILE, File(text, 0));
    Trim.EntriesPlan(x, y);
    InitOk(FILE, File(text, 0));
    StepKeeps(s0, Issue(AUTH, TRIM, LiveOverflowTrim, Sha256(text), None));
  }

  // ---- Two equal entries -----------------------------------------------------------------

  // The trim of two equal entries, about to replace the file.
  function Twice(x: char): Sys {
    Run(Issued(x, x), Trimming(AUTH, POLICY, TRIM, 9))
  }

  lemma DoomedIsReached(x: char)
    requires Trim.Plain(x)
    ensures Armed(Twice(x), TRIM) && Doomed(Twice(x), TRIM)
    ensures ExactSpool(Twice(x), TRIM).removed == [[x], [x]] && Twice(x).disk.events == map[]
    ensures Unrecorded(map[], ExactSpool(Twice(x), TRIM), 0) == [[x], [x]]
  {
    hide Trim.PlanTrim, Join, Inv, Armed;
    var s := Issued(x, x);
    IssuedOk(x, x);
    ArmedIsReached(s, AUTH, POLICY);
    TrimOutcome(s, AUTH, POLICY, 9);
    TwoUnrecorded(ExactSpool(Twice(x), TRIM), x);
  }

  lemma TwoUnrecorded(sp: Spool, x: char)
    requires sp.removed == [[x], [x]]
    ensures var u := Unrecorded(map[], sp, 0); u == [[x], [x]] && !Distinct(u) && Rounds(u) == 2
  {
    assert Unrecorded(map[], sp, 2) == [];
    assert Unrecorded(map[], sp, 1) == [[x]];
    assert Unrecorded(map[], sp, 0) == [[x], [x]];
    var u := [[x], [x]];
    assert u[0] == u[1];
    EqualBlocksCount(u, [x]);
  }

  // The call that trims them has replaced the file when it fails.
  function TwiceFailed(x: char): Sys {
    Run(Twice(x), Repeat(Step(TRIM), 7))
  }

  lemma SevenSteps(s: Sys)
    ensures Run(s, Repeat(Step(TRIM), 7)) == Run(Run(s, Repeat(Step(TRIM), 4)), Repeat(Step(TRIM), 3))
  {
    var l := Step(TRIM);
    assert Repeat(l, 7) == Repeat(l, 4) + Repeat(l, 3);
    RunConcat(s, Repeat(l, 4), Repeat(l, 3));
  }

  lemma TwiceFails(x: char)
    requires Trim.Plain(x)
    ensures var s := Issued(x, x);
            && Trimmable(s, AUTH, POLICY)
            && var t := TrimAt(s, AUTH, POLICY, 13);
            TRIM in t.disk.ops && TwiceFailed(x) == HandledAs(t, TRIM)
  {
    hide Trim.PlanTrim, Join, Inv, Apply, HandledAs;
    var s := Issued(x, x);
    IssuedOk(x, x);
    var t := TrimAt(s, AUTH, POLICY, 13);
    TrimOutcome(s, AUTH, POLICY, 9);
    TrimRuns(s, AUTH, POLICY, 9, 4);
    SevenSteps(Twice(x));
    var sp := SpoolOf(s.disk.file.text, Planned(s, POLICY));
    TwoUnrecorded(sp, x);
    DoomedFails(map[], TRIM, sp, s.disk.clock);
    RefusableAt(s, AUTH, POLICY);
    RefusedTrim(t, TRIM);
  }

  lemma TwiceFacts(x: char)
    requires Trim.Plain(x)
    ensures var s := TwiceFailed(x);
            && Idle(s) && TRIM in s.disk.ops && TRIM in s.hist && s.hist[TRIM].replaced && Flushed(s).disk.events == map[]
            && s.disk.ops[TRIM].state == RecoveryRequired && s.disk.file.text == Join(["ccc"])
  {
    hide Trim.PlanTrim, Join, Inv, Apply, Run;
    TwiceFails(x);
    IssuedOk(x, x);
  }

  // Two equal entries need two reconciliations on a living connection.
  lemma EqualEntriesNeedTwo(x: char, pid: Pid, n: nat)
    requires Trim.Plain(x)
    ensures var (s0, s) := (Twice(x), TwiceFailed(x));
            && Armed(s0, TRIM) && TRIM in s0.disk.ops && TRIM in s0.hist && HasPlan(s0, TRIM) && TRIM in s0.disk.dirs
            && TRIM in s.disk.ops && s.disk.ops[TRIM].state == RecoveryRequired && s.disk.file.text == Join(["ccc"])
            && (Finished(s0, Run(s, Again(TRIM, pid, n)).disk, TRIM) <==> n >= 2)
  {
    hide Trim.PlanTrim, Join, Inv, Armed, Apply, Again, Finished, OnTrack, Calm, Rounds, Unrecorded, Twice, TwiceFailed;
    var (s0, s) := (Twice(x), TwiceFailed(x));
    DoomedIsReached(x);
    TwiceFacts(x);
    ArmedOnTrack(s0, TRIM);
    TwiceOnTrack(x);
    OnTrackFacts(s0, s, TRIM);
    TwoUnrecorded(ExactSpool(s0, TRIM), x);
    ReconciliationsNeeded(s0, s, TRIM, pid, n);
  }

  lemma TwiceOnTrack(x: char)
    requires Armed(Twice(x), TRIM)
    ensures OnTrack(Twice(x), TwiceFailed(x), TRIM) && Inv(TwiceFailed(x))
  {
    hide Apply, Twice, Inv, OnTrack, Calm;
    var s0 := Twice(x);
    ArmedOnTrack(s0, TRIM);
    ArmedAlone(s0, TRIM);
    OnlySteps(TRIM, 7);
    RunOnTrack(s0, s0, TRIM, Repeat(Step(TRIM), 7));
  }

  lemma {:induction false} OnlySteps(op: OpId, n: nat)
    ensures forall l | l in Repeat(Step(op), n) :: l == Step(op)
  {
    if n > 0 { OnlySteps(op, n - 1); }
  }

  // ---- A file that is trimmed again -----------------------------------------------------------

  // The trim, its rollback and a second trim of the same file, with nothing between them.
  function TrimmedAgain(): Sys {
    var w := Run(Issued('a', 'b'), RoundTripOf(AUTH, POLICY, TRIM, Planned(Issued('a', 'b'), POLICY), UNDO_AUTH, UNDO));
    Run(Apply(w, Issue("again-authorization", "again", LiveOverflowTrim, Sha256(Issued('a', 'b').disk.file.text), None)),
        Trimming("again-authorization", POLICY, "again", 17))
  }

  // Two entries are cut out again, and no standing evidence is left of them.
  lemma RetrimIsReached()
    ensures var (u, before) := (TrimmedAgain(), Sha256(Join(Trim.Entries('a', 'b'))));
            && u.disk.file.text == Join(["ccc"]) && "again" in u.disk.ops && u.disk.ops["again"].evidence == Committed
            && Key(['a'], 1, before) in u.disk.events && u.disk.events[Key(['a'], 1, before)].status == Tombstoned
            && Key(['b'], 2, before) in u.disk.events && u.disk.events[Key(['b'], 2, before)].status == Tombstoned
  {
    hide Trim.PlanTrim, Join, Inv, Record, Apply, Run, Trimming, RoundTripOf;
    var s := Issued('a', 'b');
    TrimmedOk();
    IssuedOk('a', 'b');
    var removed := Planned(s, POLICY).removed;
    assert removed[0] == ['a'] && removed[1] == ['b'];
    RetrimStaysBuried(s, AUTH, POLICY, UNDO_AUTH, UNDO, "again-authorization", "again");
  }

  // ---- A rollback that is struck down -------------------------------------------------------

  function UndoIssue(): Label {
    Issue(UNDO_AUTH, UNDO, Rollback, Sha256(Join(["ccc"])), Some(TRIM))
  }

  // A trim, and k statements of its rollback.
  function Halfway(k: nat): seq<Label> {
    Trimming(AUTH, POLICY, TRIM, 17) + ([UndoIssue(), StartUndo(UNDO_AUTH, TRIM)] + Repeat(Step(UNDO), k))
  }

  lemma TwoRecorded(before: Digest)
    ensures Record(map[], TRIM, [['a'], ['b']], before, 0, 0).Some?
  {
    DistinctRecords(map[], TRIM, [['a'], ['b']], before, 0);
  }

  // The system after the trim and the authorization to roll it back.
  lemma TrimmedOk()
    ensures var s := Issued('a', 'b'); Trimmable(s, AUTH, POLICY) && Evidence(s, AUTH, POLICY).Some?
    ensures var s := Issued('a', 'b');
            && Planned(s, POLICY).after == Join(["ccc"]) && UndoIssuable(s, AUTH, UNDO_AUTH, UNDO) && s.disk.auths[AUTH].op == TRIM
            && s.disk.file.text == Join(Trim.Entries('a', 'b')) && s.disk.auths[AUTH].before == Sha256(s.disk.file.text) && Inv(s)
  {
    hide Trim.PlanTrim, Join, Inv, Record;
    IssuedOk('a', 'b');
    TwoRecorded(Sha256(Issued('a', 'b').disk.file.text));
  }

  lemma HalfwayOk(k: nat)
    requires k <= 12
    ensures var (s, t) := (Issued('a', 'b'), Run(Issued('a', 'b'), Halfway(k)));
            && Trimmable(s, AUTH, POLICY) && Evidence(s, AUTH, POLICY).Some?
            && var u := Apply(TrimAt(s, AUTH, POLICY, 17), UndoIssue());
            && Restorable(u, UNDO_AUTH, TRIM) && u.disk.auths[UNDO_AUTH].op == UNDO && t == UndoAt(u, UNDO_AUTH, TRIM, k)
            && TRIM in u.disk.ops && u.disk.ops[TRIM].rollbackAvailable && u.disk.ops[TRIM].before.text == Join(Trim.Entries('a', 'b'))
    ensures Inv(Run(Issued('a', 'b'), Halfway(k)))
  {
    hide Trim.PlanTrim, Join, Inv, Record, Apply, UndoAt;
    var s := Issued('a', 'b');
    TrimmedOk();
    TrimOutcome(s, AUTH, POLICY, 17);
    UndoReady(s, AUTH, POLICY, UNDO_AUTH, UNDO);
    var (t, more) := (TrimAt(s, AUTH, POLICY, 17), Repeat(Step(UNDO), k));
    var u := Apply(t, UndoIssue());
    RunConcat(s, Trimming(AUTH, POLICY, TRIM, 17), [UndoIssue(), StartUndo(UNDO_AUTH, TRIM)] + more);
    RunConcat(t, [UndoIssue(), StartUndo(UNDO_AUTH, TRIM)], more);
    TwoSteps(t, UndoIssue(), StartUndo(UNDO_AUTH, TRIM));
    UndoBegins(u, UNDO_AUTH, TRIM);
    UndoRuns(u, UNDO_AUTH, TRIM, 0, k);
    RunKeeps(s, Halfway(k));
  }

  // An exception between the replacement and the mark after it: the file is back, and the
  // row of the rollback says that it failed before anything was changed.
  lemma MisreportIsReached()
    ensures var s := Run(Issued('a', 'b'), Halfway(6) + [Fault(UNDO), Step(UNDO), Step(UNDO)]);
            && UNDO in s.disk.ops && s.disk.ops[UNDO].state == FailedBeforeMutation
            && UNDO in s.hist && s.hist[UNDO].replaced && s.disk.file.text == Join(Trim.Entries('a', 'b'))
  {
    hide Trim.PlanTrim, Join, Inv, Record, Apply;
    HalfwayOk(6);
    var s := Run(Issued('a', 'b'), Halfway(6));
    RunConcat(Issued('a', 'b'), Halfway(6), [Fault(UNDO), Step(UNDO), Step(UNDO)]);
    RollbackMisreport(s, UNDO);
    RunThree(s, Fault(UNDO), Step(UNDO), Step(UNDO));
    HandlerRuns(s, UNDO);
  }

  lemma BeforeLastMarks()
    ensures var s := Run(Issued('a', 'b'), Halfway(10));
            && Inv(s) && s.held.None? && Running(s, UNDO) && s.mains[UNDO].UndoRun? && s.mains[UNDO].upc.UndoMarkSelf? && s.menders == map[]
            && s.mains[UNDO].original == TRIM && TRIM in s.disk.ops && s.disk.ops[TRIM].rollbackAvailable
  {
    hide Trim.PlanTrim, Join, Inv, Record, Apply, Run;
    HalfwayOk(10);
  }

  // A crash between its last two marks: the rollback is over, and what it has undone can be
  // rolled back once more.
  lemma HalfClosedIsReached()
    ensures var s := Run(Issued('a', 'b'), Halfway(10) + [Step(UNDO), Kill(UNDO), StartMend(0, UNDO)]);
            && UNDO in s.disk.ops && s.disk.ops[UNDO].state == RolledBack && UNDO !in s.mains && s.menders == map[]
            && TRIM in s.disk.ops && s.disk.ops[TRIM].rollbackAvailable
  {
    hide Trim.PlanTrim, Join, Inv, Record, Apply, Run, Halfway, Issued;
    BeforeLastMarks();
    var s := Run(Issued('a', 'b'), Halfway(10));
    RunConcat(Issued('a', 'b'), Halfway(10), [Step(UNDO), Kill(UNDO), StartMend(0, UNDO)]);
    CrashBetweenMarks(s, UNDO, 0);
  }

  // A crash right after the file is back: the reconciliation sees by the file that the rollback
  // has happened.
  lemma UnwindIsReached(pid: Pid)
    ensures var s := Run(Issued('a', 'b'), Halfway(7) + [Kill(UNDO)]);
            var s' := Mended(s, UNDO, pid);
            && UNDO in s.disk.ops && s.disk.ops[UNDO].state == RollbackFileReplaced && TRIM in s.disk.ops && TRIM != UNDO
            && s'.disk.file.text == Join(Trim.Entries('a', 'b')) && Buried(s.disk.events, s'.disk.events, TRIM)
            && UNDO in s'.disk.ops && s'.disk.ops[UNDO].state == RolledBack
            && TRIM in s'.disk.ops && s'.disk.ops[TRIM].state == RolledBack && !s'.disk.ops[TRIM].rollbackAvailable
  {
    hide Trim.PlanTrim, Join, Inv, Record, Apply, Run, Mended, Buried;
    KilledHalfway();
    UnwindsExactly(Run(Issued('a', 'b'), Halfway(7) + [Kill(UNDO)]), UNDO, pid);
  }

  lemma KilledHalfway()
    ensures var s := Run(Issued('a', 'b'), Halfway(7) + [Kill(UNDO)]);
            && Still(s) && UNDO in s.disk.ops && s.disk.ops[UNDO].state == RollbackFileReplaced && s.disk.ops[UNDO].kind == Rollback
            && s.disk.ops[UNDO].proposal == Some(TRIM) && TRIM in s.disk.ops && s.disk.ops[TRIM].before == Sha256(s.disk.file.text)
            && s.disk.file.text == Join(Trim.Entries('a', 'b')) && Mendable(s.disk, UNDO)
  {
    hide Trim.PlanTrim, Join, Inv, Record, Run, Halfway, Issued, TrimStep, UndoStep, HandlerStep, MendStep, StartMender;
    HalfwayOk(7);
    var s := Run(Issued('a', 'b'), Halfway(7));
    RunConcat(Issued('a', 'b'), Halfway(7), [Kill(UNDO)]);
    RunOne(s, Kill(UNDO));
    KilledAt(s);
  }

  lemma KilledAt(s: Sys)
    requires s.mains.Keys == {UNDO} && s.menders == map[] && s.held.None? && (s.lock == MainHolds(UNDO) || s.lock == Free)
    ensures Apply(s, Kill(UNDO)) == s.(mains := map[], lock := Free)
  {
    assert s.mains - {UNDO} == map[];
  }

  lemma RunOne(s: Sys, l: Label)
    ensures Run(s, [l]) == Apply(s, l)
  {
    hide Apply;
    assert Run(s, [l]) == Run(Apply(s, l), []);
  }
}
