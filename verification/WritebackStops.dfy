// What an undisturbed call leaves behind when it cannot do its job.
module WritebackStops {
  import opened Options
  import opened Trim
  import opened Blocks
  import opened Writeback
  import opened WritebackSafety
  import opened WritebackMoves
  import opened WritebackRecovery
  import opened WritebackTheorems
  import opened WritebackRuns

  // ---- The outcome -------------------------------------------------------------------

  // The row of an operation that has got its lock.
  function LockedRow(id: AuthId, a: Auth, state: State): OpRow {
    OpRow(id, a.kind, a.proposal, a.before, None, state, None, false, false, NoEvidence, AuditPending, false, true)
  }

  // Nothing but the authorization and the row.
  predicate OnlyRow(d: Disk, d': Disk, id: AuthId, row: OpRow)
    requires id in d.auths
  {
    d' == d.(auths := d.auths[id := d.auths[id].(consumed := true)], ops := d.ops[d.auths[id].op := row])
  }

  // A trim that cannot be carried out. When the file is not the expected one, that is all it
  // says. When the policy has no limit for the file, it has failed before any mutation. When
  // the plan changes nothing, it says whether the file is full all the same. When the removed
  // blocks cannot be recorded, the file is replaced, backup and spool are there, and somebody
  // must reconcile.
  predicate TrimStopped(d: Disk, d': Disk, id: AuthId, policy: Policy)
    requires Consumable(d, id) && !CanTrim(d, id, policy)
  {
    var (a, text, r) := (d.auths[id], d.file.text, PlanTrim(d.file.text, d.target, policy));
    if a.before != Sha256(text) then
      OnlyRow(d, d', id, LockedRow(id, a, ConcurrentEditDetected).(error := Some(ExpectedHashMismatch)))
    else if r.Err? then
      OnlyRow(d, d', id, LockedRow(id, a, FailedBeforeMutation).(error := Some(Raised)))
    else if r.value.after == text then
      var full := r.value.reason != BelowTrigger;
      OnlyRow(d, d', id, LockedRow(id, a, if full then BlockedTargetUnreachable else Completed).(
        after := Some(a.before), error := if full then Some(Error.TargetUnreachable) else None, audit := AuditCommitted))
    else
      && d'.file == File(r.value.after, d.file.inode + 1) && d'.clock == d.clock && d'.target == d.target && d'.events == d.events
      && d'.auths == d.auths[id := a.(consumed := true)]
      && d'.dirs == d.dirs[a.op := OpDir(true, Whole(text), Whole(Spool(Sha256(text), Sha256(r.value.after), r.value.removed, r.value.reached)), Absent)]
      && d'.ops == d.ops[a.op := OpRow(id, a.kind, a.proposal, a.before, Some(Sha256(r.value.after)), RecoveryRequired, Some(Raised),
                                       true, true, Pending, AuditPending, true, true)]
  }

  // A rollback that finds another file than the trim left.
  predicate UndoStopped(d: Disk, d': Disk, id: AuthId)
    requires id in d.auths
  {
    OnlyRow(d, d', id, LockedRow(id, d.auths[id], ConcurrentEditDetected).(error := Some(RollbackCasMismatch)))
  }

  // ---- One statement after the other ---------------------------------------------------

  predicate InLock(m: Main) {
    match m
    case TrimRun(_, pc, _, _) => !pc.BindParent? && !pc.TakeLock?
    case UndoRun(_, _, upc, _, _) => 3 <= UndoRank(upc) <= 8
    case Handler(_, _) => false
  }

  // The call `op`, alone at m, with this row.
  function Call(s: Sys, id: AuthId, m: Main, row: OpRow, trim: bool, policy: Policy): Sys
    requires id in s.disk.auths
  {
    var op := s.disk.auths[id].op;
    s.(disk := s.disk.(auths := s.disk.auths[id := s.disk.auths[id].(consumed := true)], ops := s.disk.ops[op := row]),
       mains := map[op := m], lock := if InLock(m) then MainHolds(op) else Free, hist := s.hist[op := Hist(trim, policy, false)])
  }

  function Over(s: Sys, id: AuthId, row: OpRow, trim: bool, policy: Policy): Sys
    requires id in s.disk.auths
  {
    Call(s, id, Handler(false, None), row, trim, policy).(mains := map[])
  }

  lemma EndsCall(s: Sys, id: AuthId, m: Main, row: OpRow, trim: bool, policy: Policy)
    requires Startable(s, id)
    ensures EndMain(Call(s, id, m, row, trim, policy), s.disk.auths[id].op) == Over(s, id, row, trim, policy)
  {
    assert map[s.disk.auths[id].op := m] - {s.disk.auths[id].op} == map[];
  }

  lemma BindsCall(s: Sys, id: AuthId, m: Main, row: OpRow, trim: bool, policy: Policy)
    requires Startable(s, id) && m.TrimRun? && m.pc.BindParent?
    ensures Apply(Call(s, id, m, row, trim, policy), Step(s.disk.auths[id].op)) == Call(s, id, m.(pc := TakeLock), row.(parentBound := true), trim, policy)
  {
    hide Record, UndoStep, HandlerStep, MendStep, StartMender;
  }

  lemma LocksCall(s: Sys, id: AuthId, m: Main, row: OpRow, trim: bool, policy: Policy)
    requires Startable(s, id) && m.TrimRun? && m.pc.TakeLock?
    ensures Apply(Call(s, id, m, row, trim, policy), Step(s.disk.auths[id].op)) == Call(s, id, m.(pc := MarkLocked), row, trim, policy)
  {
    hide Record, UndoStep, HandlerStep, MendStep, StartMender;
  }

  lemma MarksCall(s: Sys, id: AuthId, m: Main, row: OpRow, trim: bool, policy: Policy)
    requires Startable(s, id) && m.TrimRun? && m.pc.MarkLocked?
    ensures Apply(Call(s, id, m, row, trim, policy), Step(s.disk.auths[id].op)) == Call(s, id, m.(pc := ReadTarget), row.(state := Locked), trim, policy)
  {
    hide Record, UndoStep, HandlerStep, MendStep, StartMender;
  }

  lemma ReadsCall(s: Sys, id: AuthId, m: Main, row: OpRow, trim: bool, policy: Policy)
    requires Startable(s, id) && m.TrimRun? && m.pc.ReadTarget?
    ensures var (f, r) := (s.disk.file, s.planner(s.disk.file.text, s.disk.target, m.policy));
            Apply(Call(s, id, m, row, trim, policy), Step(s.disk.auths[id].op)) ==
            if Sha256(f.text) != row.before then Call(s, id, m.(pc := MarkEdited(ExpectedHashMismatch)), row, trim, policy)
            else if r.Err? then Call(s, id, Handler(false, None), row, trim, policy)
            else Call(s, id, m.(seen := f, plan := r.value, pc := if r.value.after == f.text then MarkUnchanged else MakeDir), row, trim, policy)
  {
  }

  lemma EditedCall(s: Sys, id: AuthId, m: Main, row: OpRow, trim: bool, policy: Policy)
    requires Startable(s, id) && m.TrimRun? && m.pc.MarkEdited?
    ensures Apply(Call(s, id, m, row, trim, policy), Step(s.disk.auths[id].op)) ==
            Over(s, id, row.(state := ConcurrentEditDetected, error := Some(m.pc.error)), trim, policy)
  {
    EndsCall(s, id, m, row.(state := ConcurrentEditDetected, error := Some(m.pc.error)), trim, policy);
  }

  // The row of a trim that changes nothing.
  function UnchangedRow(row: OpRow, blocked: bool): OpRow {
    row.(state := if blocked then BlockedTargetUnreachable else Completed, after := Some(row.before),
         error := if blocked then Some(Error.TargetUnreachable) else None, evidence := NoEvidence, audit := AuditCommitted)
  }

  lemma UnchangedMark(s: Sys, op: OpId, row: OpRow, blocked: bool)
    requires op in s.disk.ops && s.disk.ops[op] == row
    ensures Mark(s, op, Change(if blocked then BlockedTargetUnreachable else Completed, after := Set(row.before),
              error := Set(if blocked then Some(Error.TargetUnreachable) else None), evidence := Set(NoEvidence), audit := Set(AuditCommitted)))
         == WithRow(s, op, UnchangedRow(row, blocked))
  {
  }

  lemma UnchangedCall(s: Sys, id: AuthId, m: Main, row: OpRow, trim: bool, policy: Policy)
    requires Startable(s, id) && m.TrimRun? && m.pc.MarkUnchanged?
    ensures Apply(Call(s, id, m, row, trim, policy), Step(s.disk.auths[id].op)) ==
            Over(s, id, UnchangedRow(row, m.plan.reason == Reason.TargetUnreachable), trim, policy)
  {
    hide Record, UndoStep, HandlerStep, MendStep, StartMender, Altered, UnchangedRow;
    var (c, blocked) := (Call(s, id, m, row, trim, policy), m.plan.reason == Reason.TargetUnreachable);
    UnchangedMark(c, s.disk.auths[id].op, row, blocked);
    EndsCall(s, id, m, UnchangedRow(row, blocked), trim, policy);
    assert WithRow(c, s.disk.auths[id].op, UnchangedRow(row, blocked)) == Call(s, id, m, UnchangedRow(row, blocked), trim, policy);
  }

  // The handler judges by the state that it reads: while nothing but the lock has been taken,
  // nothing can have been changed.
  lemma HandlerReads(s: Sys, id: AuthId, undo: bool, row: OpRow, trim: bool, policy: Policy)
    requires Startable(s, id)
    ensures Apply(Call(s, id, Handler(undo, None), row, trim, policy), Step(s.disk.auths[id].op)) ==
            Call(s, id, Handler(undo, Some(row.state)), row, trim, policy)
  {
    hide TrimStep, UndoStep, MendStep, StartMender;
  }

  function HandledRow(row: OpRow, undo: bool): OpRow {
    var early := row.state == Authorized || row.state == (if undo then RollbackLocked else Locked);
    row.(state := if early then FailedBeforeMutation else RecoveryRequired, error := Some(Raised))
  }

  lemma HandlerJudges(s: Sys, id: AuthId, undo: bool, row: OpRow, trim: bool, policy: Policy)
    requires Startable(s, id)
    ensures Apply(Call(s, id, Handler(undo, Some(row.state)), row, trim, policy), Step(s.disk.auths[id].op)) ==
            Over(s, id, HandledRow(row, undo), trim, policy)
  {
    hide TrimStep, UndoStep, MendStep, StartMender, Mark, EndMain, Over, HandledRow;
    var (op, m) := (s.disk.auths[id].op, Handler(undo, Some(row.state)));
    MarkedCall(s, id, m, row, Change(TerminalState(undo, row.state), error := Set(Some(Raised))), trim, policy);
    HandledRowIs(row, undo);
    EndsCall(s, id, m, HandledRow(row, undo), trim, policy);
  }

  lemma MarkedCall(s: Sys, id: AuthId, m: Main, row: OpRow, c: Change, trim: bool, policy: Policy)
    requires Startable(s, id)
    ensures Mark(Call(s, id, m, row, trim, policy), s.disk.auths[id].op, c) == Call(s, id, m, Altered(row, c), trim, policy)
  {
  }

  lemma HandledRowIs(row: OpRow, undo: bool)
    ensures Altered(row, Change(TerminalState(undo, row.state), error := Set(Some(Raised)))) == HandledRow(row, undo)
  {
  }

  // ---- A trim ------------------------------------------------------------------------------

  lemma BeginsCall(s: Sys, id: AuthId, policy: Policy)
    requires Startable(Flushed(s), id)
    ensures Apply(s, StartTrim(id, policy)) ==
            Call(Flushed(s), id, TrimRun(policy, BindParent, NO_FILE, NO_PLAN),
                 LockedRow(id, s.disk.auths[id], Authorized).(parentBound := false), true, policy)
  {
  }

  lemma ToReadTarget(s: Sys, id: AuthId, policy: Policy, n: nat, t: Sys)
    requires Startable(s, id)
    requires Goes(Call(s, id, TrimRun(policy, ReadTarget, NO_FILE, NO_PLAN), LockedRow(id, s.disk.auths[id], Locked), true, policy), s.disk.auths[id].op, n, t)
    ensures Goes(Call(s, id, TrimRun(policy, BindParent, NO_FILE, NO_PLAN), LockedRow(id, s.disk.auths[id], Authorized).(parentBound := false), true, policy),
                 s.disk.auths[id].op, n + 3, t)
  {
    hide Apply, Goes, Call;
    var (op, row) := (s.disk.auths[id].op, LockedRow(id, s.disk.auths[id], Authorized));
    var m := TrimRun(policy, BindParent, NO_FILE, NO_PLAN);
    BindsCall(s, id, m, row.(parentBound := false), true, policy);
    LocksCall(s, id, m.(pc := TakeLock), row, true, policy);
    MarksCall(s, id, m.(pc := MarkLocked), row, true, policy);
    GoesNext(Call(s, id, m.(pc := MarkLocked), row, true, policy), op, n + 1, t);
    GoesNext(Call(s, id, m.(pc := TakeLock), row, true, policy), op, n + 2, t);
    GoesNext(Call(s, id, m, row.(parentBound := false), true, policy), op, n + 3, t);
  }

  // Where a trim stops that has come to read the target.
  lemma StopsAtRead(s: Sys, id: AuthId, policy: Policy) returns (n: nat, t: Sys)
    requires Startable(s, id) && s.planner == PlanTrim
    requires s.disk.auths[id].before != Sha256(s.disk.file.text) || PlanTrim(s.disk.file.text, s.disk.target, policy).Err?
             || PlanTrim(s.disk.file.text, s.disk.target, policy).value.after == s.disk.file.text
    ensures Goes(Call(s, id, TrimRun(policy, ReadTarget, NO_FILE, NO_PLAN), LockedRow(id, s.disk.auths[id], Locked), true, policy), s.disk.auths[id].op, n, t)
    ensures t.mains == map[] && TrimStopped(s.disk, t.disk, id, policy)
  {
    hide Apply, Goes, PlanTrim, Call;
    var (op, row, f) := (s.disk.auths[id].op, LockedRow(id, s.disk.auths[id], Locked), s.disk.file);
    var (m, r) := (TrimRun(policy, ReadTarget, NO_FILE, NO_PLAN), PlanTrim(s.disk.file.text, s.disk.target, policy));
    ReadsCall(s, id, m, row, true, policy);
    if Sha256(f.text) != row.before {
      var m1 := m.(pc := MarkEdited(ExpectedHashMismatch));
      EditedCall(s, id, m1, row, true, policy);
      n, t := 2, Over(s, id, row.(state := ConcurrentEditDetected, error := Some(ExpectedHashMismatch)), true, policy);
      GoesNowhere(t, op);
      GoesNext(Call(s, id, m1, row, true, policy), op, 1, t);
      OverIs(s, id, row.(state := ConcurrentEditDetected, error := Some(ExpectedHashMismatch)), true, policy);
    } else if r.Err? {
      HandlerReads(s, id, false, row, true, policy);
      HandlerJudges(s, id, false, row, true, policy);
      n, t := 3, Over(s, id, HandledRow(row, false), true, policy);
      GoesNowhere(t, op);
      GoesNext(Call(s, id, Handler(false, Some(Locked)), row, true, policy), op, 1, t);
      GoesNext(Call(s, id, Handler(false, None), row, true, policy), op, 2, t);
      OverIs(s, id, HandledRow(row, false), true, policy);
    } else {
      var m1 := m.(seen := f, plan := r.value, pc := MarkUnchanged);
      TrimPartition(f.text, s.disk.target, policy);
      BelowTriggerExactly(f.text, s.disk.target, policy);
      if r.value.reason != BelowTrigger { VerdictExactly(f.text, s.disk.target, policy); }
      var end := UnchangedRow(row, r.value.reason == Reason.TargetUnreachable);
      UnchangedCall(s, id, m1, row, true, policy);
      n, t := 2, Over(s, id, end, true, policy);
      GoesNowhere(t, op);
      GoesNext(Call(s, id, m1, row, true, policy), op, 1, t);
      OverIs(s, id, end, true, policy);
    }
    GoesNext(Call(s, id, m, row, true, policy), op, n, t);
  }

  lemma OverIs(s: Sys, id: AuthId, row: OpRow, trim: bool, policy: Policy)
    requires Startable(s, id)
    ensures OnlyRow(s.disk, Over(s, id, row, trim, policy).disk, id, row) && Over(s, id, row, trim, policy).mains == map[]
  {
  }

  // ---- A trim whose evidence is refused ------------------------------------------------------

  // The evidence transaction is refused: the handler of the call marks the row and ends it.
  predicate Refusable(s: Sys, op: OpId) {
    && Running(s, op) && s.held.None? && s.mains == map[op := s.mains[op]] && s.lock == MainHolds(op)
    && s.mains[op].TrimRun? && s.mains[op].pc.RecordEvidence? && op in s.disk.dirs && s.disk.dirs[op].pending.Whole?
    && Record(s.disk.events, op, s.disk.dirs[op].pending.value.removed, Sha256(s.mains[op].seen.text), s.disk.clock, 0).None?
  }

  lemma RefusableAt(s: Sys, id: AuthId, policy: Policy)
    requires Trimmable(s, id, policy) && Evidence(s, id, policy).None?
    ensures Refusable(TrimAt(s, id, policy, 13), s.disk.auths[id].op)
  {
    hide Record;
  }

  function Handling(s: Sys, op: OpId, read: Option<State>): Sys {
    s.(mains := map[op := Handler(false, read)], lock := Free)
  }

  function HandledAs(s: Sys, op: OpId): Sys
    requires op in s.disk.ops
  {
    var c := Change(TerminalState(false, s.disk.ops[op].state), error := Set(Some(Raised)));
    Mark(s, op, c).(mains := map[], lock := Free)
  }

  lemma RefusedRaises(s: Sys, op: OpId)
    requires Refusable(s, op)
    ensures Apply(s, Step(op)) == Handling(s, op, None)
  {
    hide Record, UndoStep, HandlerStep, MendStep, StartMender;
  }

  lemma HandlerGoes(s: Sys, op: OpId)
    requires op in s.disk.ops && op in s.hist && s.held.None?
    ensures Apply(Handling(s, op, None), Step(op)) == Handling(s, op, Some(s.disk.ops[op].state))
    ensures Apply(Handling(s, op, Some(s.disk.ops[op].state)), Step(op)) == HandledAs(s, op)
  {
    hide TrimStep, UndoStep, MendStep, StartMender;
  }

  lemma RefusedTrim(s: Sys, op: OpId)
    requires Refusable(s, op)
    ensures Run(s, Repeat(Step(op), 3)) == HandledAs(s, op)
  {
    hide Apply, Handling, HandledAs;
    RefusedRaises(s, op);
    HandlerGoes(s, op);
    RunNext(s, Step(op), 3);
    RunNext(Handling(s, op, None), Step(op), 2);
    RunNext(Handling(s, op, Some(s.disk.ops[op].state)), Step(op), 1);
    assert Run(HandledAs(s, op), Repeat(Step(op), 0)) == HandledAs(s, op);
  }

  lemma StopsAtEvidence(s: Sys, id: AuthId, policy: Policy) returns (t: Sys)
    requires Trimmable(s, id, policy) && s.planner == PlanTrim && Evidence(s, id, policy).None?
    ensures Goes(TrimAt(s, id, policy, 0), s.disk.auths[id].op, 16, t) && t.mains == map[] && TrimStopped(s.disk, t.disk, id, policy)
  {
    hide Apply, Goes, PlanTrim, Record;
    var op := s.disk.auths[id].op;
    TrimRuns(s, id, policy, 0, 13);
    RefusableAt(s, id, policy);
    RefusedTrim(TrimAt(s, id, policy, 13), op);
    t := HandledAs(TrimAt(s, id, policy, 13), op);
    assert Goes(TrimAt(s, id, policy, 0), op, 13, TrimAt(s, id, policy, 13)) && Goes(TrimAt(s, id, policy, 13), op, 3, t) by { GoesAre(s, id, policy, t); }
    GoesOn(TrimAt(s, id, policy, 0), op, 13, TrimAt(s, id, policy, 13), 3, t);
  }

  lemma GoesAre(s: Sys, id: AuthId, policy: Policy, t: Sys)
    requires Trimmable(s, id, policy)
    requires var op := s.disk.auths[id].op;
             && Run(TrimAt(s, id, policy, 0), Repeat(Step(op), 13)) == TrimAt(s, id, policy, 13)
             && Run(TrimAt(s, id, policy, 13), Repeat(Step(op), 3)) == t
    ensures var op := s.disk.auths[id].op;
            Goes(TrimAt(s, id, policy, 0), op, 13, TrimAt(s, id, policy, 13)) && Goes(TrimAt(s, id, policy, 13), op, 3, t)
  {
    hide Run, Apply, TrimAt;
  }

  // An undisturbed trim that cannot be carried out, however its trace is told.
  lemma TrimStops(s: Sys, id: AuthId, policy: Policy, ls: seq<Label>, edits: seq<Option<File>>)
    requires Startable(Flushed(s), id) && s.planner == PlanTrim && !CanTrim(Flushed(s).disk, id, policy)
    requires ls != [] && OwnMoves(ls, StartTrim(id, policy), s.disk.auths[id].op, edits, Never) && Undisturbed(edits)
    requires Run(s, ls).mains == map[]
    ensures TrimStopped(Flushed(s).disk, Run(s, ls).disk, id, policy)
  {
    hide Apply, Goes, PlanTrim, Record, Call, TrimAt, TrimStopped;
    var (f, op) := (Flushed(s), s.disk.auths[id].op);
    var r := PlanTrim(f.disk.file.text, f.disk.target, policy);
    BeginsCall(s, id, policy);
    if f.disk.auths[id].before != Sha256(f.disk.file.text) || r.Err? || r.value.after == f.disk.file.text {
      var n, t := StopsAtRead(f, id, policy);
      ToReadTarget(f, id, policy, n, t);
      NobodyMends(f, id, policy);
      CallEnded(Apply(s, ls[0]), op, ls[1..], edits, n + 3, t);
    } else {
      TrimBegins(s, id, policy);
      var t := StopsAtEvidence(f, id, policy);
      NobodyMends(f, id, policy);
      CallEnded(Apply(s, ls[0]), op, ls[1..], edits, 16, t);
    }
  }

  lemma NobodyMends(s: Sys, id: AuthId, policy: Policy)
    requires Startable(s, id)
    ensures Call(s, id, TrimRun(policy, BindParent, NO_FILE, NO_PLAN), LockedRow(id, s.disk.auths[id], Authorized).(parentBound := false), true, policy).menders == map[]
    ensures Trimmable(s, id, policy) ==> TrimAt(s, id, policy, 0).menders == map[]
  {
  }

  // ---- A rollback that finds another file ----------------------------------------------------

  // The backup is there, and the file is not what the trim left.
  predicate Displaced(s: Sys, id: AuthId, original: OpId) {
    && Startable(s, id) && Undoable(s.disk, id, original) && s.disk.auths[id].before != Sha256(s.disk.file.text)
    && var row := s.disk.ops[original];
    && row.backupRef && original in s.disk.dirs && s.disk.dirs[original].backup == Whole(row.before.text)
  }

  lemma UndoBinds(s: Sys, id: AuthId, m: Main, row: OpRow)
    requires Startable(s, id) && m.UndoRun? && m.upc.UndoBindParent?
    ensures Apply(Call(s, id, m, row, false, DEFAULT_POLICY), Step(s.disk.auths[id].op)) ==
            Call(s, id, m.(upc := ReadBackup), row.(parentBound := true), false, DEFAULT_POLICY)
  {
    hide TrimStep, HandlerStep, MendStep, StartMender;
  }

  lemma UndoLoads(s: Sys, id: AuthId, m: Main, row: OpRow)
    requires Startable(s, id) && m.UndoRun? && m.upc.ReadBackup? && m.original in s.disk.ops && m.snap == s.disk.ops[m.original]
    requires m.snap.backupRef && m.original in s.disk.dirs && s.disk.dirs[m.original].backup == Whole(m.snap.before.text)
    ensures Apply(Call(s, id, m, row, false, DEFAULT_POLICY), Step(s.disk.auths[id].op)) ==
            Call(s, id, m.(data := m.snap.before.text, upc := UndoTakeLock), row, false, DEFAULT_POLICY)
  {
    hide TrimStep, HandlerStep, MendStep, StartMender;
  }

  lemma UndoTakesLock(s: Sys, id: AuthId, m: Main, row: OpRow)
    requires Startable(s, id) && m.UndoRun? && m.upc.UndoTakeLock?
    ensures Apply(Call(s, id, m, row, false, DEFAULT_POLICY), Step(s.disk.auths[id].op)) ==
            Call(s, id, m.(upc := UndoMarkLocked), row, false, DEFAULT_POLICY)
  {
    hide TrimStep, HandlerStep, MendStep, StartMender;
  }

  lemma UndoMarksLocked(s: Sys, id: AuthId, m: Main, row: OpRow)
    requires Startable(s, id) && m.UndoRun? && m.upc.UndoMarkLocked?
    ensures Apply(Call(s, id, m, row, false, DEFAULT_POLICY), Step(s.disk.auths[id].op)) ==
            Call(s, id, m.(upc := UndoReadTarget), row.(state := RollbackLocked), false, DEFAULT_POLICY)
  {
    hide TrimStep, HandlerStep, MendStep, StartMender;
  }

  lemma UndoFindsOther(s: Sys, id: AuthId, m: Main, row: OpRow)
    requires Startable(s, id) && m.UndoRun? && m.upc.UndoReadTarget? && Sha256(s.disk.file.text) != row.before
    ensures Apply(Call(s, id, m, row, false, DEFAULT_POLICY), Step(s.disk.auths[id].op)) ==
            Call(s, id, m.(upc := UndoMarkEdited), row, false, DEFAULT_POLICY)
  {
    hide TrimStep, HandlerStep, MendStep, StartMender;
  }

  lemma UndoMarksEdited(s: Sys, id: AuthId, m: Main, row: OpRow)
    requires Startable(s, id) && m.UndoRun? && m.upc.UndoMarkEdited?
    ensures Apply(Call(s, id, m, row, false, DEFAULT_POLICY), Step(s.disk.auths[id].op)) ==
            Over(s, id, row.(state := ConcurrentEditDetected, error := Some(RollbackCasMismatch)), false, DEFAULT_POLICY)
  {
    hide TrimStep, HandlerStep, MendStep, StartMender;
    EndsCall(s, id, m, row.(state := ConcurrentEditDetected, error := Some(RollbackCasMismatch)), false, DEFAULT_POLICY);
  }

  lemma UndoCallBegins(s: Sys, id: AuthId, original: OpId)
    requires Displaced(s, id, original)
    ensures var c := Call(s, id, UndoRun(original, s.disk.ops[original], UndoBindParent, "", NO_FILE),
                          LockedRow(id, s.disk.auths[id], Authorized).(parentBound := false), false, DEFAULT_POLICY);
            Apply(s, StartUndo(id, original)) == c && c.menders == map[]
  {
  }

  lemma UndoStops(s: Sys, id: AuthId, original: OpId, ls: seq<Label>, edits: seq<Option<File>>)
    requires Displaced(s, id, original)
    requires ls != [] && OwnMoves(ls, StartUndo(id, original), s.disk.auths[id].op, edits, Never) && Undisturbed(edits)
    requires Run(s, ls).mains == map[]
    ensures UndoStopped(s.disk, Run(s, ls).disk, id)
  {
    hide Apply, Goes, Call;
    var (op, row) := (s.disk.auths[id].op, LockedRow(id, s.disk.auths[id], Authorized));
    var m := UndoRun(original, s.disk.ops[original], UndoBindParent, "", NO_FILE);
    var m1 := m.(data := s.disk.ops[original].before.text);
    var row1 := row.(state := RollbackLocked);
    var end := row.(state := ConcurrentEditDetected, error := Some(RollbackCasMismatch));
    var t := Over(s, id, end, false, DEFAULT_POLICY);
    UndoCallBegins(s, id, original);
    UndoBinds(s, id, m, row.(parentBound := false));
    UndoLoads(s, id, m.(upc := ReadBackup), row);
    UndoTakesLock(s, id, m1.(upc := UndoTakeLock), row);
    UndoMarksLocked(s, id, m1.(upc := UndoMarkLocked), row);
    UndoFindsOther(s, id, m1.(upc := UndoReadTarget), row1);
    UndoMarksEdited(s, id, m1.(upc := UndoMarkEdited), row1);
    GoesNowhere(t, op);
    GoesNext(Call(s, id, m1.(upc := UndoMarkEdited), row1, false, DEFAULT_POLICY), op, 1, t);
    GoesNext(Call(s, id, m1.(upc := UndoReadTarget), row1, false, DEFAULT_POLICY), op, 2, t);
    GoesNext(Call(s, id, m1.(upc := UndoMarkLocked), row, false, DEFAULT_POLICY), op, 3, t);
    GoesNext(Call(s, id, m1.(upc := UndoTakeLock), row, false, DEFAULT_POLICY), op, 4, t);
    GoesNext(Call(s, id, m.(upc := ReadBackup), row, false, DEFAULT_POLICY), op, 5, t);
    GoesNext(Call(s, id, m, row.(parentBound := false), false, DEFAULT_POLICY), op, 6, t);
    OverIs(s, id, end, false, DEFAULT_POLICY);
    CallEnded(Apply(s, ls[0]), op, ls[1..], edits, 6, t);
  }
}
