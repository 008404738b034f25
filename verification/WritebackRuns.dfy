// Calls that nothing disturbs do their job: what a trim and a rollback leave behind, to the
// last column, and that together they give the old text back.
module WritebackRuns {
  import opened Options
  import opened Trim
  import opened Blocks
  import opened Writeback
  import opened WritebackSafety
  import opened WritebackMoves
  import opened WritebackRecovery
  import opened WritebackTheorems

  // No process, no open transaction, and an authorization whose operation is new.
  predicate Startable(s: Sys, id: AuthId) {
    && s.mains == map[] && s.menders == map[] && s.lock == Free && s.held.None?
    && Consumable(s.disk, id) && s.disk.auths[id].op !in s.disk.ops && s.disk.auths[id].op !in s.disk.dirs
  }

  // ---- A trim ------------------------------------------------------------------------

  // The target hashes to the expected value, and its plan changes it.
  predicate Trimmable(s: Sys, id: AuthId, policy: Policy) {
    && Startable(s, id) && s.disk.auths[id].before == Sha256(s.disk.file.text)
    && var r := s.planner(s.disk.file.text, s.disk.target, policy);
    && r.Ok? && r.value.after != s.disk.file.text
  }

  function Planned(s: Sys, policy: Policy): Plan
    requires s.planner(s.disk.file.text, s.disk.target, policy).Ok?
  {
    s.planner(s.disk.file.text, s.disk.target, policy).value
  }

  function Evidence(s: Sys, id: AuthId, policy: Policy): Option<Events>
    requires id in s.disk.auths && s.planner(s.disk.file.text, s.disk.target, policy).Ok?
  {
    Record(s.disk.events, s.disk.auths[id].op, Planned(s, policy).removed, Sha256(s.disk.file.text), s.disk.clock, 0)
  }

  function TrimPcAt(k: nat): TrimPc {
    match k
    case 0 => BindParent case 1 => TakeLock case 2 => MarkLocked case 3 => ReadTarget case 4 => MakeDir
    case 5 => WriteBackup case 6 => MarkBackup case 7 => WriteSpool case 8 => MarkSpool case 9 => Replace
    case 10 => MarkReplaced case 11 => ReadBack case 12 => MarkVerified case 13 => RecordEvidence
    case 14 => RenameSpool case 15 => MarkFinal case _ => DropRecovery
  }

  // The journal row after k statements of the trim.
  function TrimRowAt(id: AuthId, a: Auth, p: Plan, k: nat): OpRow {
    OpRow(id, a.kind, a.proposal, a.before, if k >= 11 then Some(Sha256(p.after)) else None,
          if k >= 16 then FinalState(p.reached) else if k >= 13 then ReadbackVerified else if k >= 11 then FileReplaced
          else if k >= 9 then EvidencePending else if k >= 7 then BackupDurable else if k >= 3 then Locked else Authorized,
          if k >= 16 then FinalError(p.reached) else None, k >= 7, k >= 9,
          if k >= 16 then Committed else if k >= 9 then Pending else NoEvidence,
          if k >= 16 then AuditCommitted else AuditPending, k >= 7, k >= 1)
  }

  // Its private directory.
  function TrimDirAt(text: string, p: Plan, k: nat): OpDir {
    OpDir(k < 17, if k >= 6 then Whole(text) else Absent, if 8 <= k < 15 then Whole(SpoolOf(text, p)) else Absent,
          if k >= 15 then Whole(SpoolOf(text, p)) else Absent)
  }

  // The whole system after k of the seventeen statements.
  function TrimAt(s: Sys, id: AuthId, policy: Policy, k: nat): Sys
    requires Trimmable(s, id, policy) && (k >= 14 ==> Evidence(s, id, policy).Some?)
  {
    var (a, file, p) := (s.disk.auths[id], s.disk.file, Planned(s, policy));
    s.(disk := s.disk.(
         file := if k >= 10 then File(p.after, file.inode + 1) else file,
         auths := s.disk.auths[id := a.(consumed := true)],
         ops := s.disk.ops[a.op := TrimRowAt(id, a, p, k)],
         dirs := if k >= 5 then s.disk.dirs[a.op := TrimDirAt(file.text, p, k)] else s.disk.dirs,
         events := if k >= 14 then Evidence(s, id, policy).value else s.disk.events),
       mains := if k < 17 then map[a.op := TrimRun(policy, TrimPcAt(k), if k >= 4 then file else NO_FILE, if k >= 4 then p else NO_PLAN)]
                else map[],
       lock := if 2 <= k < 17 then MainHolds(a.op) else Free,
       hist := s.hist[a.op := Hist(true, policy, k >= 10)])
  }

  lemma TrimOpens(s: Sys, id: AuthId, policy: Policy, k: nat)
    requires Trimmable(s, id, policy) && k < 3
    ensures Apply(TrimAt(s, id, policy, k), Step(s.disk.auths[id].op)) == TrimAt(s, id, policy, k + 1)
  {
    hide SpoolOf, Record, UndoStep, HandlerStep, MendStep, StartMender;
  }

  lemma TrimReads(s: Sys, id: AuthId, policy: Policy)
    requires Trimmable(s, id, policy)
    ensures Apply(TrimAt(s, id, policy, 3), Step(s.disk.auths[id].op)) == TrimAt(s, id, policy, 4)
  {
    hide SpoolOf, Record, UndoStep, HandlerStep, MendStep, StartMender;
  }

  lemma TrimPrepares(s: Sys, id: AuthId, policy: Policy, k: nat)
    requires Trimmable(s, id, policy) && 4 <= k < 6
    ensures Apply(TrimAt(s, id, policy, k), Step(s.disk.auths[id].op)) == TrimAt(s, id, policy, k + 1)
  {
    hide SpoolOf, Record, UndoStep, HandlerStep, MendStep, StartMender;
  }

  lemma TrimSavesBackup(s: Sys, id: AuthId, policy: Policy)
    requires Trimmable(s, id, policy)
    ensures Apply(TrimAt(s, id, policy, 6), Step(s.disk.auths[id].op)) == TrimAt(s, id, policy, 7)
  {
    hide SpoolOf, Record, UndoStep, HandlerStep, MendStep, StartMender;
  }

  lemma TrimWritesSpool(s: Sys, id: AuthId, policy: Policy)
    requires Trimmable(s, id, policy)
    ensures Apply(TrimAt(s, id, policy, 7), Step(s.disk.auths[id].op)) == TrimAt(s, id, policy, 8)
  {
    hide SpoolOf, Record, UndoStep, HandlerStep, MendStep, StartMender;
  }

  lemma TrimSavesSpool(s: Sys, id: AuthId, policy: Policy)
    requires Trimmable(s, id, policy)
    ensures Apply(TrimAt(s, id, policy, 8), Step(s.disk.auths[id].op)) == TrimAt(s, id, policy, 9)
  {
    hide SpoolOf, Record, UndoStep, HandlerStep, MendStep, StartMender;
  }

  lemma TrimReplaces(s: Sys, id: AuthId, policy: Policy)
    requires Trimmable(s, id, policy)
    ensures Apply(TrimAt(s, id, policy, 9), Step(s.disk.auths[id].op)) == TrimAt(s, id, policy, 10)
  {
    hide SpoolOf, Record, UndoStep, HandlerStep, MendStep, StartMender;
  }

  lemma TrimSavesReplaced(s: Sys, id: AuthId, policy: Policy)
    requires Trimmable(s, id, policy)
    ensures Apply(TrimAt(s, id, policy, 10), Step(s.disk.auths[id].op)) == TrimAt(s, id, policy, 11)
  {
    hide SpoolOf, Record, UndoStep, HandlerStep, MendStep, StartMender;
  }

  lemma TrimVerifies(s: Sys, id: AuthId, policy: Policy, k: nat)
    requires Trimmable(s, id, policy) && 11 <= k < 13
    ensures Apply(TrimAt(s, id, policy, k), Step(s.disk.auths[id].op)) == TrimAt(s, id, policy, k + 1)
  {
    hide SpoolOf, Record, UndoStep, HandlerStep, MendStep, StartMender;
  }

  lemma TrimRecords(s: Sys, id: AuthId, policy: Policy)
    requires Trimmable(s, id, policy) && Evidence(s, id, policy).Some?
    ensures Apply(TrimAt(s, id, policy, 13), Step(s.disk.auths[id].op)) == TrimAt(s, id, policy, 14)
  {
    hide Record, UndoStep, HandlerStep, MendStep, StartMender;
  }

  lemma TrimCommits(s: Sys, id: AuthId, policy: Policy)
    requires Trimmable(s, id, policy) && Evidence(s, id, policy).Some?
    ensures Apply(TrimAt(s, id, policy, 14), Step(s.disk.auths[id].op)) == TrimAt(s, id, policy, 15)
  {
    hide SpoolOf, Record, UndoStep, HandlerStep, MendStep, StartMender;
  }

  lemma TrimFinishes(s: Sys, id: AuthId, policy: Policy)
    requires Trimmable(s, id, policy) && Evidence(s, id, policy).Some?
    ensures Apply(TrimAt(s, id, policy, 15), Step(s.disk.auths[id].op)) == TrimAt(s, id, policy, 16)
  {
    hide SpoolOf, Record, UndoStep, HandlerStep, MendStep, StartMender;
  }

  lemma TrimEnds(s: Sys, id: AuthId, policy: Policy)
    requires Trimmable(s, id, policy) && Evidence(s, id, policy).Some?
    ensures Apply(TrimAt(s, id, policy, 16), Step(s.disk.auths[id].op)) == TrimAt(s, id, policy, 17)
  {
    hide SpoolOf, Record, UndoStep, HandlerStep, MendStep, StartMender;
  }

  lemma TrimGoes(s: Sys, id: AuthId, policy: Policy, k: nat)
    requires Trimmable(s, id, policy) && k < 17 && (k >= 13 ==> Evidence(s, id, policy).Some?)
    ensures Apply(TrimAt(s, id, policy, k), Step(s.disk.auths[id].op)) == TrimAt(s, id, policy, k + 1)
  {
    hide Apply, TrimAt, Trimmable, Evidence;
    if k < 3 { TrimOpens(s, id, policy, k); }
    else if k == 3 { TrimReads(s, id, policy); }
    else if k < 6 { TrimPrepares(s, id, policy, k); }
    else if k == 6 { TrimSavesBackup(s, id, policy); }
    else if k == 7 { TrimWritesSpool(s, id, policy); }
    else if k == 8 { TrimSavesSpool(s, id, policy); }
    else if k == 9 { TrimReplaces(s, id, policy); }
    else if k == 10 { TrimSavesReplaced(s, id, policy); }
    else if k < 13 { TrimVerifies(s, id, policy, k); }
    else if k == 13 { TrimRecords(s, id, policy); }
    else if k == 14 { TrimCommits(s, id, policy); }
    else if k == 15 { TrimFinishes(s, id, policy); }
    else { TrimEnds(s, id, policy); }
  }

  lemma TrimBegins(s: Sys, id: AuthId, policy: Policy)
    requires Trimmable(Flushed(s), id, policy)
    ensures Apply(s, StartTrim(id, policy)) == TrimAt(Flushed(s), id, policy, 0)
  {
  }

  // ---- A rollback ------------------------------------------------------------------------

  // The target is what the trim left, and the backup is the file before it.
  predicate Restorable(s: Sys, id: AuthId, original: OpId) {
    && Startable(s, id) && Undoable(s.disk, id, original) && s.disk.auths[id].before == Sha256(s.disk.file.text)
    && var row := s.disk.ops[original];
    && row.backupRef && original in s.disk.dirs && s.disk.dirs[original].backup == Whole(row.before.text)
  }

  function UndoPcAt(k: nat): UndoPc {
    match k
    case 0 => UndoBindParent case 1 => ReadBackup case 2 => UndoTakeLock case 3 => UndoMarkLocked case 4 => UndoReadTarget
    case 5 => UndoReplace case 6 => UndoMarkReplaced case 7 => UndoReadBack case 8 => UndoTombstone
    case 9 => UndoMarkReconciled case 10 => UndoMarkSelf case _ => UndoMarkOriginal
  }

  function UndoRowAt(id: AuthId, a: Auth, text: string, k: nat): OpRow {
    OpRow(id, a.kind, a.proposal, a.before, if k >= 7 then Some(Sha256(text)) else None,
          if k >= 11 then RolledBack else if k >= 10 then RollbackEvidenceReconciled else if k >= 7 then RollbackFileReplaced
          else if k >= 4 then RollbackLocked else Authorized,
          None, false, false, if k >= 10 then Reconciled else NoEvidence, if k >= 11 then AuditCommitted else AuditPending, false, k >= 1)
  }

  // The whole system after k of the twelve statements of a rollback.
  function UndoAt(s: Sys, id: AuthId, original: OpId, k: nat): Sys
    requires Restorable(s, id, original)
  {
    var (a, file, row) := (s.disk.auths[id], s.disk.file, s.disk.ops[original]);
    var text := row.before.text;
    var ops := s.disk.ops[a.op := UndoRowAt(id, a, text, k)];
    s.(disk := s.disk.(
         file := if k >= 6 then File(text, file.inode + 1) else file,
         auths := s.disk.auths[id := a.(consumed := true)],
         ops := if k >= 12 then ops[original := Altered(row, ORIGINAL_UNDONE)] else ops,
         events := if k >= 9 then Tombstone(s.disk.events, original) else s.disk.events),
       mains := if k < 12 then map[a.op := UndoRun(original, row, UndoPcAt(k), if k >= 2 then text else "", if k >= 5 then file else NO_FILE)]
                else map[],
       lock := if 3 <= k < 8 then MainHolds(a.op) else Free,
       hist := s.hist[a.op := Hist(false, DEFAULT_POLICY, k >= 6)])
  }

  lemma UndoBegins(s: Sys, id: AuthId, original: OpId)
    requires Restorable(s, id, original)
    ensures Apply(s, StartUndo(id, original)) == UndoAt(s, id, original, 0)
  {
  }

  lemma UndoOpens(s: Sys, id: AuthId, original: OpId, k: nat)
    requires Restorable(s, id, original) && k < 2
    ensures Apply(UndoAt(s, id, original, k), Step(s.disk.auths[id].op)) == UndoAt(s, id, original, k + 1)
  {
    hide TrimStep, HandlerStep, MendStep, StartMender;
  }

  lemma UndoLocks(s: Sys, id: AuthId, original: OpId, k: nat)
    requires Restorable(s, id, original) && 2 <= k < 4
    ensures Apply(UndoAt(s, id, original, k), Step(s.disk.auths[id].op)) == UndoAt(s, id, original, k + 1)
  {
    hide TrimStep, HandlerStep, MendStep, StartMender;
  }

  lemma UndoReads(s: Sys, id: AuthId, original: OpId, k: nat)
    requires Restorable(s, id, original) && 4 <= k < 6
    ensures Apply(UndoAt(s, id, original, k), Step(s.disk.auths[id].op)) == UndoAt(s, id, original, k + 1)
  {
    hide TrimStep, HandlerStep, MendStep, StartMender;
  }

  lemma UndoMarks(s: Sys, id: AuthId, original: OpId, k: nat)
    requires Restorable(s, id, original) && 6 <= k < 8
    ensures Apply(UndoAt(s, id, original, k), Step(s.disk.auths[id].op)) == UndoAt(s, id, original, k + 1)
  {
    hide TrimStep, HandlerStep, MendStep, StartMender;
  }

  lemma UndoTombstones(s: Sys, id: AuthId, original: OpId, k: nat)
    requires Restorable(s, id, original) && 8 <= k < 9
    ensures Apply(UndoAt(s, id, original, k), Step(s.disk.auths[id].op)) == UndoAt(s, id, original, k + 1)
  {
    hide TrimStep, HandlerStep, MendStep, StartMender;
  }

  lemma UndoReconciles(s: Sys, id: AuthId, original: OpId, k: nat)
    requires Restorable(s, id, original) && 9 <= k < 11
    ensures Apply(UndoAt(s, id, original, k), Step(s.disk.auths[id].op)) == UndoAt(s, id, original, k + 1)
  {
    hide TrimStep, HandlerStep, MendStep, StartMender;
  }

  lemma UndoCloses(s: Sys, id: AuthId, original: OpId, k: nat)
    requires Restorable(s, id, original) && 11 <= k < 12
    ensures Apply(UndoAt(s, id, original, k), Step(s.disk.auths[id].op)) == UndoAt(s, id, original, k + 1)
  {
    hide TrimStep, HandlerStep, MendStep, StartMender;
  }

  lemma UndoGoes(s: Sys, id: AuthId, original: OpId, k: nat)
    requires Restorable(s, id, original) && k < 12
    ensures Apply(UndoAt(s, id, original, k), Step(s.disk.auths[id].op)) == UndoAt(s, id, original, k + 1)
  {
    hide Apply, UndoAt, Restorable;
    if k < 2 { UndoOpens(s, id, original, k); }
    else if k < 4 { UndoLocks(s, id, original, k); }
    else if k < 6 { UndoReads(s, id, original, k); }
    else if k < 8 { UndoMarks(s, id, original, k); }
    else if k < 9 { UndoTombstones(s, id, original, k); }
    else if k < 11 { UndoReconciles(s, id, original, k); }
    else { UndoCloses(s, id, original, k); }
  }

  // ---- Whole calls -----------------------------------------------------------------------

  lemma {:induction false} TrimRuns(s: Sys, id: AuthId, policy: Policy, k: nat, n: nat)
    requires Trimmable(s, id, policy) && k + n <= 17 && (k + n >= 14 ==> Evidence(s, id, policy).Some?)
    ensures Run(TrimAt(s, id, policy, k), Repeat(Step(s.disk.auths[id].op), n)) == TrimAt(s, id, policy, k + n)
    decreases n
  {
    hide Apply, TrimAt, Evidence;
    if n > 0 {
      TrimGoes(s, id, policy, k);
      RunNext(TrimAt(s, id, policy, k), Step(s.disk.auths[id].op), n);
      TrimRuns(s, id, policy, k + 1, n - 1);
    }
  }

  lemma {:induction false} UndoRuns(s: Sys, id: AuthId, original: OpId, k: nat, n: nat)
    requires Restorable(s, id, original) && k + n <= 12
    ensures Run(UndoAt(s, id, original, k), Repeat(Step(s.disk.auths[id].op), n)) == UndoAt(s, id, original, k + n)
    decreases n
  {
    hide Apply, UndoAt;
    if n > 0 {
      UndoGoes(s, id, original, k);
      RunNext(UndoAt(s, id, original, k), Step(s.disk.auths[id].op), n);
      UndoRuns(s, id, original, k + 1, n - 1);
    }
  }

  // The calls of execute_writeback and of rollback_writeback, alone.
  function Trimming(id: AuthId, policy: Policy, op: OpId, n: nat): seq<Label> {
    [StartTrim(id, policy)] + Repeat(Step(op), n)
  }

  function Undoing(id: AuthId, original: OpId, op: OpId): seq<Label> {
    [StartUndo(id, original)] + Repeat(Step(op), 12)
  }

  // A trim that nothing disturbs, after n of its statements. The first thirteen need nothing of
  // the evidence; with evidence that can be recorded it goes on to its end.
  lemma TrimOutcome(s: Sys, id: AuthId, policy: Policy, n: nat)
    requires Trimmable(s, id, policy) && n <= 17 && (n >= 14 ==> Evidence(s, id, policy).Some?)
    ensures Run(s, Trimming(id, policy, s.disk.auths[id].op, n)) == TrimAt(s, id, policy, n)
  {
    hide Apply, TrimAt, Evidence;
    var ls := Trimming(id, policy, s.disk.auths[id].op, n);
    assert ls[1..] == Repeat(Step(s.disk.auths[id].op), n);
    TrimBegins(s, id, policy);
    TrimRuns(s, id, policy, 0, n);
  }

  // A rollback that nothing disturbs.
  lemma UndoOutcome(s: Sys, id: AuthId, original: OpId)
    requires Restorable(s, id, original)
    ensures Run(s, Undoing(id, original, s.disk.auths[id].op)) == UndoAt(s, id, original, 12)
  {
    hide Apply, UndoAt;
    var ls := Undoing(id, original, s.disk.auths[id].op);
    assert ls[1..] == Repeat(Step(s.disk.auths[id].op), 12);
    UndoBegins(s, id, original);
    UndoRuns(s, id, original, 0, 12);
  }

  // ---- The round trip ------------------------------------------------------------------

  // A trim, an authorization to roll it back, and the rollback.
  function RoundTripOf(id: AuthId, policy: Policy, op: OpId, p: Plan, undoId: AuthId, undoOp: OpId): seq<Label> {
    Trimming(id, policy, op, 17) + ([Issue(undoId, undoOp, Rollback, Sha256(p.after), Some(op))] + Undoing(undoId, op, undoOp))
  }

  predicate UndoIssuable(s: Sys, id: AuthId, undoId: AuthId, undoOp: OpId)
    requires id in s.disk.auths
  {
    && undoId !in s.disk.auths && (forall i | i in s.disk.auths :: s.disk.auths[i].op != undoOp)
    && undoOp !in s.disk.ops && undoOp !in s.disk.dirs
  }

  lemma UndoReady(s: Sys, id: AuthId, policy: Policy, undoId: AuthId, undoOp: OpId)
    requires Trimmable(s, id, policy) && Evidence(s, id, policy).Some? && UndoIssuable(s, id, undoId, undoOp)
    ensures var (t, op, p) := (TrimAt(s, id, policy, 17), s.disk.auths[id].op, Planned(s, policy));
            var u := Apply(t, Issue(undoId, undoOp, Rollback, Sha256(p.after), Some(op)));
            && u == t.(disk := t.disk.(auths := t.disk.auths[undoId := Auth(undoOp, Rollback, Sha256(p.after), Some(op), false)]))
            && Restorable(u, undoId, op)
  {
    var t := TrimAt(s, id, policy, 17);
    forall i | i in t.disk.auths ensures t.disk.auths[i].op != undoOp { }
  }

  // The text is the one before the trim, the evidence stays on record as tombstones, and
  // both operations are closed.
  lemma TrimThenRollback(s: Sys, id: AuthId, policy: Policy, undoId: AuthId, undoOp: OpId)
    requires Trimmable(s, id, policy) && Evidence(s, id, policy).Some? && UndoIssuable(s, id, undoId, undoOp)
    ensures var (op, p) := (s.disk.auths[id].op, Planned(s, policy));
            var s' := Run(s, RoundTripOf(id, policy, op, p, undoId, undoOp));
            && s'.disk.file.text == s.disk.file.text
            && Buried(Evidence(s, id, policy).value, s'.disk.events, op)
            && op in s'.disk.ops && s'.disk.ops[op].state == RolledBack && !s'.disk.ops[op].rollbackAvailable
            && undoOp in s'.disk.ops && s'.disk.ops[undoOp].state == RolledBack
            && s'.mains == map[] && s'.lock == Free
  {
    hide Apply, Record, Restorable, Undoing, Trimming;
    var (op, p) := (s.disk.auths[id].op, Planned(s, policy));
    var issue := Issue(undoId, undoOp, Rollback, Sha256(p.after), Some(op));
    var t := TrimAt(s, id, policy, 17);
    var (ls, more) := (Trimming(id, policy, op, 17), Undoing(undoId, op, undoOp));
    TrimOutcome(s, id, policy, 17);
    UndoReady(s, id, policy, undoId, undoOp);
    RunConcat(s, ls, [issue] + more);
    assert ([issue] + more)[1..] == more;
    UndoOutcome(Apply(t, issue), undoId, op);
    TombstoneExactly(t.disk.events, Tombstone(t.disk.events, op), op);
  }

  // ---- What a call can have done ---------------------------------------------------------

  predicate Undisturbed(edits: seq<Option<File>>) {
    forall e | e in edits :: e.None?
  }

  // n statements of `op` from s come to t.
  ghost predicate Goes(s: Sys, op: OpId, n: nat, t: Sys) {
    Run(s, Repeat(Step(op), n)) == t
  }

  lemma GoesNowhere(s: Sys, op: OpId)
    ensures Goes(s, op, 0, s)
  {
  }

  lemma GoesNext(s: Sys, op: OpId, n: nat, t: Sys)
    requires n > 0 && Goes(Apply(s, Step(op)), op, n - 1, t)
    ensures Goes(s, op, n, t)
  {
    RunNext(s, Step(op), n);
  }

  lemma {:induction false} GoesOn(s: Sys, op: OpId, m: nat, t: Sys, n: nat, u: Sys)
    requires Goes(s, op, m, t) && Goes(t, op, n, u)
    ensures Goes(s, op, m + n, u)
    decreases m
  {
    hide Apply;
    if m > 0 {
      RunNext(s, Step(op), m);
      GoesOn(Apply(s, Step(op)), op, m - 1, t, n, u);
      GoesNext(s, op, m + n, u);
    }
  }

  lemma {:induction false} NoMains(s: Sys, op: OpId, n: nat)
    requires op !in s.mains
    ensures Goes(s, op, n, s)
  {
    if n > 0 {
      NoMains(s, op, n - 1);
      GoesNext(s, op, n, s);
    }
  }

  // Once it is over, further steps change nothing.
  lemma {:induction false} GoesNoFurther(s: Sys, op: OpId, m: nat, t: Sys, n: nat, u: Sys)
    requires Goes(s, op, m, t) && Goes(s, op, n, u) && t.mains == map[] && u.mains == map[] && m <= n
    ensures t == u
    decreases m
  {
    hide Apply;
    if m == 0 {
      NoMains(s, op, n);
    } else {
      RunNext(s, Step(op), m);
      RunNext(s, Step(op), n);
      GoesNoFurther(Apply(s, Step(op)), op, m - 1, t, n - 1, u);
    }
  }

  lemma TrimMenders(s: Sys, op: OpId)
    requires Running(s, op) && s.mains[op].TrimRun?
    ensures TrimStep(s, op).menders == s.menders
  {
    hide TrimStep;
    if TrimRank(s.mains[op].pc) <= 7 { TrimMendersEarly(s, op); } else { TrimMendersLate(s, op); }
  }

  lemma TrimMendersEarly(s: Sys, op: OpId)
    requires Running(s, op) && s.mains[op].TrimRun? && TrimRank(s.mains[op].pc) <= 7
    ensures TrimStep(s, op).menders == s.menders
  {
    hide Record, SpoolOf, Renamed, Altered, FinalState, FinalError;
  }

  lemma TrimMendersLate(s: Sys, op: OpId)
    requires Running(s, op) && s.mains[op].TrimRun? && TrimRank(s.mains[op].pc) > 7
    ensures TrimStep(s, op).menders == s.menders
  {
    hide Record, SpoolOf, Renamed, Altered, FinalState, FinalError;
  }

  lemma UndoMenders(s: Sys, op: OpId)
    requires Running(s, op) && s.mains[op].UndoRun?
    ensures UndoStep(s, op).menders == s.menders
  {
    hide Altered, Tombstone;
  }

  lemma StepMenders(s: Sys, op: OpId)
    ensures Apply(s, Step(op)).menders == s.menders
  {
    hide TrimStep, UndoStep, Altered;
    if Running(s, op) && !Waits(s, op) {
      if s.mains[op].TrimRun? { TrimMenders(s, op); } else if s.mains[op].UndoRun? { UndoMenders(s, op); }
    }
  }

  lemma OwnedMove(s: Sys, l: Label, op: OpId, edits: seq<Option<File>>)
    requires s.menders == map[] && Owned(l, op, edits, Never) && Undisturbed(edits)
    ensures Apply(s, l).menders == map[] && (l == Step(op) || Apply(s, l) == s)
  {
    hide TrimStep, UndoStep, HandlerStep, MendStep, StartMender;
    if l.Step? { StepMenders(s, op); }
  }

  // Moves of one undisturbed call are statements of it, or nothing.
  lemma {:induction false} OnlyStatements(s: Sys, ls: seq<Label>, op: OpId, edits: seq<Option<File>>) returns (n: nat)
    requires s.menders == map[] && (forall l | l in ls :: Owned(l, op, edits, Never)) && Undisturbed(edits)
    ensures Goes(s, op, n, Run(s, ls))
    decreases |ls|
  {
    hide Apply;
    if ls == [] {
      n := 0;
    } else {
      assert ls[0] in ls;
      OwnedMove(s, ls[0], op, edits);
      n := OnlyStatements(Apply(s, ls[0]), ls[1..], op, edits);
      if ls[0] == Step(op) {
        GoesNext(s, op, n + 1, Run(s, ls));
        n := n + 1;
      }
    }
  }

  // An undisturbed call that is over is where its statements lead.
  lemma CallEnded(s: Sys, op: OpId, ls: seq<Label>, edits: seq<Option<File>>, n: nat, t: Sys)
    requires s.menders == map[] && (forall l | l in ls :: Owned(l, op, edits, Never)) && Undisturbed(edits)
    requires Goes(s, op, n, t) && t.mains == map[] && Run(s, ls).mains == map[]
    ensures Run(s, ls) == t
  {
    hide Goes, Apply;
    var m := OnlyStatements(s, ls, op, edits);
    if m <= n { GoesNoFurther(s, op, m, Run(s, ls), n, t); } else { GoesNoFurther(s, op, n, t, m, Run(s, ls)); }
  }

  // What an earlier call has left open on the connection is committed when a trim begins.
  lemma TrimEnded(s: Sys, id: AuthId, policy: Policy, ls: seq<Label>, edits: seq<Option<File>>)
    requires Trimmable(Flushed(s), id, policy) && Evidence(Flushed(s), id, policy).Some?
    requires ls != [] && OwnMoves(ls, StartTrim(id, policy), s.disk.auths[id].op, edits, Never) && Undisturbed(edits)
    requires Run(s, ls).mains == map[]
    ensures Run(s, ls) == TrimAt(Flushed(s), id, policy, 17)
  {
    hide Apply, TrimAt;
    TrimBegins(s, id, policy);
    TrimRuns(Flushed(s), id, policy, 0, 17);
    AtEnd(Flushed(s), id, policy);
    CallEnded(TrimAt(Flushed(s), id, policy, 0), s.disk.auths[id].op, ls[1..], edits, 17, TrimAt(Flushed(s), id, policy, 17));
  }

  lemma AtEnd(s: Sys, id: AuthId, policy: Policy)
    requires Trimmable(s, id, policy) && Evidence(s, id, policy).Some?
    ensures TrimAt(s, id, policy, 17).mains == map[] && TrimAt(s, id, policy, 0).menders == map[]
  {
  }

  lemma UndoEnded(s: Sys, id: AuthId, original: OpId, ls: seq<Label>, edits: seq<Option<File>>)
    requires Restorable(s, id, original)
    requires ls != [] && OwnMoves(ls, StartUndo(id, original), s.disk.auths[id].op, edits, Never) && Undisturbed(edits)
    requires Run(s, ls).mains == map[]
    ensures Run(s, ls) == UndoAt(s, id, original, 12)
  {
    hide Apply;
    UndoBegins(s, id, original);
    UndoRuns(s, id, original, 0, 12);
    CallEnded(UndoAt(s, id, original, 0), s.disk.auths[id].op, ls[1..], edits, 12, UndoAt(s, id, original, 12));
  }

  // ---- A rollback that says it is done ---------------------------------------------------

  // A rollback: of which operation, over which evidence, and, when nobody else edits the file
  // meanwhile, to which text.
  datatype Undoer = Undoer(op: OpId, original: OpId, text: Option<string>, events: Events)

  // It is on its way, or over.
  predicate Undone(s: Sys, u: Undoer) {
    && s.menders == map[] && s.mains.Keys <= {u.op} && s.held.None? && u.original in s.disk.ops
    && (u.text.Some? ==> s.disk.ops[u.original].before.text == u.text.value)
    && (u.op in s.mains ==> UndoneMain(s, u, s.mains[u.op]))
    && (u.op in s.hist ==> UndoneRow(s, u))
  }

  predicate UndoneMain(s: Sys, u: Undoer, m: Main) {
    || m.Handler?
    || (m.UndoRun? && m.original == u.original && (if UndoRank(m.upc) <= 9 then s.disk.events == u.events else Buried(u.events, s.disk.events, u.original)))
  }

  // It replaces the file by the one before the trim, and says RolledBack only then, and when
  // it has buried the evidence.
  predicate UndoneRow(s: Sys, u: Undoer)
    requires u.op in s.hist
  {
    && u.op in s.disk.ops && !s.hist[u.op].trim && (u.text.Some? && s.hist[u.op].replaced ==> s.disk.file.text == u.text.value)
    && (s.disk.ops[u.op].state == RolledBack ==> s.hist[u.op].replaced && Buried(u.events, s.disk.events, u.original))
  }

  lemma UndoneEarly(s: Sys, u: Undoer)
    requires Undone(s, u) && Running(s, u.op) && s.mains[u.op].UndoRun? && UndoRank(s.mains[u.op].upc) <= 2
    ensures Undone(UndoStep(s, u.op), u)
  {
    hide Buried;
  }

  lemma UndoneLocked(s: Sys, u: Undoer)
    requires Undone(s, u) && Running(s, u.op) && s.mains[u.op].UndoRun? && 3 <= UndoRank(s.mains[u.op].upc) <= 4
    ensures Undone(UndoStep(s, u.op), u)
  {
    hide Buried;
  }

  lemma UndoneEdited(s: Sys, u: Undoer)
    requires Undone(s, u) && Running(s, u.op) && s.mains[u.op].UndoRun? && UndoRank(s.mains[u.op].upc) == 5
    ensures Undone(UndoStep(s, u.op), u)
  {
    hide Buried;
  }

  lemma UndoneReplace(s: Sys, u: Undoer)
    requires Undone(s, u) && Running(s, u.op) && s.mains[u.op].UndoRun? && UndoRank(s.mains[u.op].upc) == 6
    requires u.text.Some? ==> s.mains[u.op].data == u.text.value
    ensures Undone(UndoStep(s, u.op), u)
  {
    hide Buried;
  }

  lemma UndoneMarks(s: Sys, u: Undoer)
    requires Undone(s, u) && Running(s, u.op) && s.mains[u.op].UndoRun? && 7 <= UndoRank(s.mains[u.op].upc) <= 8
    ensures Undone(UndoStep(s, u.op), u)
  {
    hide Buried;
  }

  lemma UndoneBuries(s: Sys, u: Undoer)
    requires Undone(s, u) && Running(s, u.op) && s.mains[u.op].UndoRun? && s.mains[u.op].upc.UndoTombstone?
    requires s.hist[u.op].replaced
    ensures Undone(UndoStep(s, u.op), u)
  {
    hide Buried, Tombstone;
    TombstoneExactly(s.disk.events, Tombstone(s.disk.events, u.original), u.original);
  }

  lemma UndoneClosing(s: Sys, u: Undoer)
    requires Undone(s, u) && Running(s, u.op) && s.mains[u.op].UndoRun? && 10 <= UndoRank(s.mains[u.op].upc) <= 11
    requires s.hist[u.op].replaced && u.op != u.original
    ensures Undone(UndoStep(s, u.op), u)
  {
    hide Altered, Buried;
  }

  lemma UndoneLast(s: Sys, u: Undoer)
    requires Undone(s, u) && Running(s, u.op) && s.mains[u.op].UndoRun? && s.mains[u.op].upc.UndoMarkOriginal?
    requires s.hist[u.op].replaced && u.op != u.original
    ensures Undone(UndoStep(s, u.op), u)
  {
    hide Buried;
  }

  lemma UndoneHandler(s: Sys, u: Undoer)
    requires Undone(s, u) && Running(s, u.op) && s.mains[u.op].Handler?
    ensures Undone(HandlerStep(s, u.op), u)
  {
    hide Buried;
  }

  lemma UndoneFacts(s: Sys, u: Undoer)
    requires Inv(s) && Undone(s, u) && Running(s, u.op) && s.mains[u.op].UndoRun?
    ensures UndoRank(s.mains[u.op].upc) >= 2 && u.text.Some? ==> s.mains[u.op].data == u.text.value
    ensures u.op != u.original && (UndoRank(s.mains[u.op].upc) >= 9 ==> s.hist[u.op].replaced)
  {
    hide Buried;
    assert MainOk(s, u.op);
  }

  lemma UndoneStep(s: Sys, u: Undoer)
    requires Inv(s) && Undone(s, u) && Running(s, u.op)
    ensures Undone(Apply(s, Step(u.op)), u)
  {
    hide TrimStep, UndoStep, HandlerStep, Inv, UndoneRow, Buried;
    if s.mains[u.op].Handler? {
      UndoneHandler(s, u);
    } else {
      UndoneFacts(s, u);
      var r := UndoRank(s.mains[u.op].upc);
      if r <= 2 { UndoneEarly(s, u); }
      else if r <= 4 { UndoneLocked(s, u); }
      else if r == 5 { UndoneEdited(s, u); }
      else if r == 6 { UndoneReplace(s, u); }
      else if r <= 8 { UndoneMarks(s, u); }
      else if r <= 9 { UndoneBuries(s, u); }
      else if r <= 11 { UndoneClosing(s, u); }
      else { UndoneLast(s, u); }
    }
  }

  // Faults and kills of it.
  lemma UndoneStrike(s: Sys, u: Undoer)
    requires Undone(s, u)
    ensures Undone(Apply(s, Kill(u.op)), u) && Undone(Apply(s, Fault(u.op)), u)
  {
    hide TrimStep, UndoStep, HandlerStep, Buried;
  }

  lemma UndoneEdit(s: Sys, u: Undoer, f: File)
    requires Undone(s, u) && u.text.None?
    ensures Undone(Apply(s, Edit(f)), u)
  {
    hide Buried;
  }

  lemma NoneMend(s: Sys, u: Undoer)
    requires Inv(s) && Undone(s, u)
    ensures s.menders == map[] && !s.lock.MenderHolds?
  {
    hide Buried;
  }

  lemma UndoneKeeps(s: Sys, u: Undoer, l: Label, edits: seq<Option<File>>, fate: Strike)
    requires Inv(s) && Undone(s, u) && Owned(l, u.op, edits, fate) && (u.text.Some? ==> Undisturbed(edits))
    ensures Undone(Apply(s, l), u)
  {
    hide TrimStep, UndoStep, HandlerStep, MendStep, StartMender, Inv, Undone;
    NoneMend(s, u);
    match l
    case Step(_) => if Running(s, u.op) { UndoneStep(s, u); }
    case Fault(_) => UndoneStrike(s, u);
    case Kill(_) => UndoneStrike(s, u);
    case KillMend(pid) => assert s.menders - {pid} == s.menders;
    case Edit(f) => UndoneEdit(s, u, f);
    case _ =>
  }

  lemma {:induction false} UndoneTrace(s: Sys, u: Undoer, ls: seq<Label>, edits: seq<Option<File>>, fate: Strike)
    requires Inv(s) && Undone(s, u) && (forall l | l in ls :: Owned(l, u.op, edits, fate)) && (u.text.Some? ==> Undisturbed(edits))
    ensures Undone(Run(s, ls), u)
    decreases |ls|
  {
    hide Apply, Inv, Undone, Owned;
    if ls != [] {
      assert ls[0] in ls;
      UndoneKeeps(s, u, ls[0], edits, fate);
      StepKeeps(s, ls[0]);
      UndoneTrace(Apply(s, ls[0]), u, ls[1..], edits, fate);
    }
  }

  lemma UndoneBegins(s: Sys, id: AuthId, u: Undoer)
    requires Startable(s, id) && Undoable(s.disk, id, u.original) && u.op == s.disk.auths[id].op && u.events == s.disk.events
    requires u.text.Some? ==> u.text.value == s.disk.ops[u.original].before.text
    ensures Undone(Apply(s, StartUndo(id, u.original)), u)
  {
    hide Buried;
  }

  // Whatever strikes a rollback: the state RolledBack means that exactly the evidence of the
  // original is tombstoned, besides what was, and, unless somebody else edits the file
  // meanwhile, that the file is, to the last character, what it was before the trim.
  lemma RollbackRestores(s: Sys, id: AuthId, original: OpId, ls: seq<Label>, edits: seq<Option<File>>, fate: Strike)
    requires Inv(s) && Startable(s, id) && Undoable(s.disk, id, original)
    requires OwnMoves(ls, StartUndo(id, original), s.disk.auths[id].op, edits, fate)
    ensures var (t, op) := (Run(s, ls), s.disk.auths[id].op);
            op in t.disk.ops && t.disk.ops[op].state == RolledBack ==>
              && Buried(s.disk.events, t.disk.events, original)
              && (Undisturbed(edits) ==> t.disk.file.text == s.disk.ops[original].before.text)
  {
    hide Apply, Buried;
    if ls != [] {
      var u := Undoer(s.disk.auths[id].op, original, if Undisturbed(edits) then Some(s.disk.ops[original].before.text) else None,
                      s.disk.events);
      StepKeeps(s, ls[0]);
      UndoneBegins(s, id, u);
      UndoneTrace(Apply(s, ls[0]), u, ls[1..], edits, fate);
      RunKeeps(s, ls);
    }
  }

  // ---- What the callers see --------------------------------------------------------------

  // The checks of a trim that nothing stops.
  predicate CanTrim(d: Disk, id: AuthId, policy: Policy) {
    && id in d.auths && !d.auths[id].consumed && d.auths[id].before == Sha256(d.file.text)
    && var r := PlanTrim(d.file.text, d.target, policy);
    && r.Ok? && r.value.after != d.file.text
    && Record(d.events, d.auths[id].op, r.value.removed, Sha256(d.file.text), d.clock, 0).Some?
  }

  // Its effect: the planned text, the backup of the old one, the committed spool and the
  // evidence of what was removed; everything else is as it was.
  predicate TrimDone(d: Disk, d': Disk, id: AuthId, policy: Policy)
    requires CanTrim(d, id, policy)
  {
    var (a, text, p) := (d.auths[id], d.file.text, PlanTrim(d.file.text, d.target, policy).value);
    var fits := |p.after| * policy.trimTarget.den <= LimitFor(policy, d.target).value * policy.trimTarget.num;
    && d'.file == File(p.after, d.file.inode + 1) && d'.clock == d.clock && d'.target == d.target
    && d'.auths == d.auths[id := a.(consumed := true)]
    && d'.dirs == d.dirs[a.op := OpDir(false, Whole(text), Absent, Whole(Spool(Sha256(text), Sha256(p.after), p.removed, p.reached)))]
    && d'.events == Record(d.events, a.op, p.removed, Sha256(text), d.clock, 0).value
    && d'.ops == d.ops[a.op := OpRow(id, a.kind, a.proposal, a.before, Some(Sha256(p.after)),
                                     if fits then Completed else CompletedPartial, if fits then None else Some(Error.TargetUnreachable),
                                     true, true, Committed, AuditCommitted, true, true)]
  }

  // The checks of a rollback: an unused authorization to undo this operation, which can be
  // undone and has left what the authorization expects.
  predicate MayUndo(d: Disk, id: AuthId, original: OpId) {
    && id in d.auths && !d.auths[id].consumed && d.auths[id].kind == Rollback && d.auths[id].proposal == Some(original)
    && original in d.ops && d.ops[original].rollbackAvailable && d.ops[original].after == Some(d.auths[id].before)
  }

  // The same, and the file is still that.
  predicate CanUndo(d: Disk, id: AuthId, original: OpId) {
    MayUndo(d, id, original) && d.auths[id].before == Sha256(d.file.text)
  }

  predicate UndoDone(d: Disk, d': Disk, id: AuthId, original: OpId)
    requires CanUndo(d, id, original)
  {
    var (a, row) := (d.auths[id], d.ops[original]);
    && d'.file == File(row.before.text, d.file.inode + 1) && d'.clock == d.clock && d'.target == d.target && d'.dirs == d.dirs
    && d'.auths == d.auths[id := a.(consumed := true)] && Buried(d.events, d'.events, original)
    && d'.ops == d.ops[a.op := OpRow(id, a.kind, a.proposal, a.before, Some(row.before), RolledBack, None, false, false, Reconciled,
                                     AuditCommitted, false, true)]
                         [original := row.(state := RolledBack, evidence := Reconciled, audit := AuditCommitted, rollbackAvailable := false)]
  }

  lemma NewOperation(s: Sys, id: AuthId)
    requires Inv(s) && s.mains == map[] && s.menders == map[] && s.lock == Free && Consumable(s.disk, id)
    ensures Startable(Flushed(s), id)
  {
    assert AuthOk(s.disk, id);
  }

  lemma HasBackup(s: Sys, original: OpId)
    requires Inv(s) && original in s.disk.ops && s.disk.ops[original].rollbackAvailable
    ensures var row := s.disk.ops[original];
            row.backupRef && original in s.disk.dirs && s.disk.dirs[original].backup == Whole(row.before.text)
  {
    assert OpOk(s, original);
  }

  // However its trace is told, an undisturbed call has done all of it.
  lemma TrimSucceeds(s: Sys, id: AuthId, policy: Policy, ls: seq<Label>, edits: seq<Option<File>>)
    requires Startable(Flushed(s), id) && s.planner == PlanTrim && CanTrim(Flushed(s).disk, id, policy)
    requires ls != [] && OwnMoves(ls, StartTrim(id, policy), s.disk.auths[id].op, edits, Never) && Undisturbed(edits)
    requires Run(s, ls).mains == map[]
    ensures TrimDone(Flushed(s).disk, Run(s, ls).disk, id, policy)
  {
    hide Record, PlanTrim, OwnMoves;
    TrimEnded(s, id, policy, ls, edits);
    BelowTriggerExactly(s.disk.file.text, s.disk.target, policy);
    VerdictExactly(s.disk.file.text, s.disk.target, policy);
  }

  lemma UndoSucceeds(s: Sys, id: AuthId, original: OpId, ls: seq<Label>, edits: seq<Option<File>>)
    requires Inv(s) && Startable(s, id) && CanUndo(s.disk, id, original)
    requires ls != [] && OwnMoves(ls, StartUndo(id, original), s.disk.auths[id].op, edits, Never) && Undisturbed(edits)
    requires Run(s, ls).mains == map[]
    ensures UndoDone(s.disk, Run(s, ls).disk, id, original)
  {
    hide Inv, Tombstone, OwnMoves, Buried;
    HasBackup(s, original);
    UndoEnded(s, id, original, ls, edits);
    TombstoneExactly(s.disk.events, Tombstone(s.disk.events, original), original);
  }
}
