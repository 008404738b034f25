// The moves of the step machine as effects: what each one does to the journal, the files,
// the lock and the program counter of its process.
module WritebackMoves {
  import opened Options
  import opened Trim
  import opened Blocks
  import opened Writeback
  import opened WritebackSafety

  lemma RunLast(s: Sys, ls: seq<Label>, l: Label)
    ensures Run(s, ls + [l]) == Apply(Run(s, ls), l)
  {
    RunConcat(s, ls, [l]);
    assert Run(Run(s, ls), [l]) == Run(Apply(Run(s, ls), l), []);
  }

  // What the fault hook does, after the given number of statements.
  datatype Strike = Never | RaiseAfter(n: nat) | DieAfter(n: nat)

  // The moves that a call of `op` is made of, once it has begun.
  predicate Owned(l: Label, op: OpId, edits: seq<Option<File>>, fate: Strike) {
    match l
    case Step(o) => o == op
    case Fault(o) => o == op && fate.RaiseAfter?
    case Kill(o) => o == op && fate.DieAfter?
    case StepMend(pid) => pid == RECONCILER
    case KillMend(pid) => pid == RECONCILER && !fate.Never?
    case Edit(f) => Some(f) in edits
    case _ => false
  }

  predicate OwnMoves(ls: seq<Label>, start: Label, op: OpId, edits: seq<Option<File>>, fate: Strike) {
    ls != [] ==> ls[0] == start && forall l | l in ls[1..] :: Owned(l, op, edits, fate)
  }

  // ---- What one step does, program counter by program counter ------------------------

  // The process of `op` goes on.
  ghost predicate Moves(s: Sys, s': Sys, op: OpId, d: Disk, lock: Holder, m: Main) {
    && s'.disk == d && s'.lock == lock && s'.planner == s.planner && s'.menders == s.menders && s'.held == s.held
    && s'.mains.Keys == s.mains.Keys && Running(s', op) && s'.mains[op] == m
  }

  // The process of `op` is over.
  ghost predicate Ends(s: Sys, s': Sys, op: OpId, d: Disk) {
    && s'.disk == d && s'.lock == Released(s, op) && s'.planner == s.planner && s'.held == s.held
    && s'.menders == s.menders && s'.mains.Keys == s.mains.Keys - {op} && op in s'.disk.ops && op in s'.hist
  }

  function Released(s: Sys, op: OpId): Holder {
    if s.lock == MainHolds(op) then Free else s.lock
  }

  function Marked(d: Disk, op: OpId, c: Change): Disk
    requires op in d.ops
  {
    d.(ops := d.ops[op := Altered(d.ops[op], c)])
  }

  function WithFiles(d: Disk, op: OpId, dir: OpDir): Disk {
    d.(dirs := d.dirs[op := dir])
  }

  // No handler is in sight.
  predicate Unguarded(m: Main) {
    (m.TrimRun? && m.pc.BindParent?) || (m.UndoRun? && m.upc.UndoBindParent?) || m.Handler?
  }

  // The statement after m, when all goes well.
  function Next(m: Main): Main {
    match m
    case TrimRun(_, pc, _, _) => m.(pc := match pc
      case BindParent => TakeLock case TakeLock => MarkLocked case MarkLocked => ReadTarget
      case MakeDir => WriteBackup case WriteBackup => MarkBackup case MarkBackup => WriteSpool case WriteSpool => MarkSpool
      case MarkSpool => Replace case Replace => MarkReplaced case MarkReplaced => ReadBack case ReadBack => MarkVerified
      case MarkVerified => RecordEvidence case RecordEvidence => RenameSpool case RenameSpool => MarkFinal case MarkFinal => DropRecovery
      case _ => pc)
    case UndoRun(_, _, upc, _, _) => m.(upc := match upc
      case UndoBindParent => ReadBackup case UndoTakeLock => UndoMarkLocked case UndoMarkLocked => UndoReadTarget
      case UndoReplace => UndoMarkReplaced case UndoMarkReplaced => UndoReadBack case UndoReadBack => UndoTombstone
      case UndoTombstone => UndoMarkReconciled case UndoMarkReconciled => UndoMarkSelf case UndoMarkSelf => UndoMarkOriginal
      case _ => upc)
    case Handler(_, _) => m
  }

  // The journal marks that a process makes on its way.
  function MarkOf(m: Main): Option<Change> {
    match m
    case TrimRun(_, pc, _, plan) => (match pc
      case MarkLocked => Some(Change(Locked))
      case MarkBackup => Some(Change(BackupDurable, backupRef := Set(true), rollbackAvailable := Set(true)))
      case MarkSpool => Some(Change(EvidencePending, spoolRef := Set(true), evidence := Set(Pending)))
      case MarkReplaced => Some(Change(FileReplaced, after := Set(Sha256(plan.after))))
      case MarkVerified => Some(Change(ReadbackVerified))
      case MarkFinal => Some(Change(FinalState(plan.reached), error := Set(FinalError(plan.reached)),
        evidence := Set(Committed), audit := Set(AuditCommitted)))
      case _ => None)
    case UndoRun(_, _, upc, data, _) => (match upc
      case UndoMarkLocked => Some(Change(RollbackLocked))
      case UndoMarkReplaced => Some(Change(RollbackFileReplaced, after := Set(Sha256(data))))
      case UndoMarkReconciled => Some(Change(RollbackEvidenceReconciled, after := Set(Sha256(data)), evidence := Set(Reconciled)))
      case UndoMarkSelf => Some(Change(RolledBack, audit := Set(AuditCommitted)))
      case _ => None)
    case Handler(_, _) => None
  }

  // The marks with which it ends.
  function EndOf(row: OpRow, m: Main): Option<Change> {
    match m
    case TrimRun(_, pc, _, plan) => (match pc
      case MarkEdited(e) => Some(Change(ConcurrentEditDetected, error := Set(Some(e))))
      case MarkUnchanged =>
        var blocked := plan.reason == Reason.TargetUnreachable;
        Some(Change(if blocked then BlockedTargetUnreachable else Completed, after := Set(row.before),
                    error := Set(if blocked then Some(Error.TargetUnreachable) else None), evidence := Set(NoEvidence),
                      audit := Set(AuditCommitted)))
      case _ => None)
    case UndoRun(_, _, upc, _, _) => if upc.UndoMarkEdited? then Some(CAS_FAILED) else None
    case Handler(undo, read) => if read.Some? then Some(Change(TerminalState(undo, read.value), error := Set(Some(Raised)))) else None
  }

  // The row of a trim that went through.
  predicate Settled(row: OpRow) {
    row.state in {Completed, CompletedPartial} && row.evidence == Committed
  }

  lemma EditMoves(s: Sys, f: File)
    ensures Apply(s, Edit(f)) == s.(disk := s.disk.(file := f))
  {
  }

  lemma AuthRow(s: Sys, id: AuthId)
    requires Inv(s) && id in s.disk.auths
    ensures var op := s.disk.auths[id].op;
            if s.disk.auths[id].consumed then op in s.disk.ops && s.disk.ops[op].auth == id else op !in s.disk.ops
  {
    assert AuthOk(s.disk, id);
  }

  lemma HistRow(s: Sys, op: OpId)
    requires Inv(s) && op in s.disk.ops
    ensures op in s.hist
  {
  }

  lemma StartMoves(s: Sys, id: AuthId, policy: Policy, original: OpId)
    requires Consumable(s.disk, id)
    ensures Apply(s, StartTrim(id, policy)) == Begin(Flushed(s), id, TrimRun(policy, TrimPc.BindParent, NO_FILE, NO_PLAN), Hist(true, policy, false))
    ensures s.held.None? && Undoable(s.disk, id, original) ==>
              Apply(s, StartUndo(id, original)) ==
              Begin(s, id, UndoRun(original, s.disk.ops[original], UndoBindParent, "", NO_FILE), Hist(false, DEFAULT_POLICY, false))
  {
  }

  lemma StrikeMoves(s: Sys, op: OpId)
    requires Running(s, op)
    ensures Ends(s, Apply(s, Kill(op)), op, s.disk)
    ensures if Unguarded(s.mains[op]) then Ends(s, Apply(s, Fault(op)), op, s.disk)
            else Moves(s, Apply(s, Fault(op)), op, s.disk, Released(s, op), Handler(s.mains[op].UndoRun?, None))
  {
  }

  lemma TrimMarkMoves(s: Sys, op: OpId)
    requires s.held.None? && Running(s, op) && s.mains[op].TrimRun? && MarkOf(s.mains[op]).Some?
    ensures Moves(s, Apply(s, Step(op)), op, Marked(s.disk, op, MarkOf(s.mains[op]).value), s.lock, Next(s.mains[op]))
  {
  }

  lemma UndoMarkMoves(s: Sys, op: OpId)
    requires s.held.None? && Running(s, op) && s.mains[op].UndoRun? && MarkOf(s.mains[op]).Some?
    ensures Moves(s, Apply(s, Step(op)), op, Marked(s.disk, op, MarkOf(s.mains[op]).value), s.lock, Next(s.mains[op]))
  {
  }

  lemma TrimEndMoves(s: Sys, op: OpId)
    requires s.held.None? && Running(s, op) && s.mains[op].TrimRun? && EndOf(s.disk.ops[op], s.mains[op]).Some?
    ensures Ends(s, Apply(s, Step(op)), op, Marked(s.disk, op, EndOf(s.disk.ops[op], s.mains[op]).value))
  {
    hide Apply, Marked, Ends;
    if s.mains[op].pc.MarkEdited? { EditedMoves(s, op); } else { UnchangedMoves(s, op); }
  }

  lemma EditedMoves(s: Sys, op: OpId)
    requires s.held.None? && Running(s, op) && s.mains[op].TrimRun? && s.mains[op].pc.MarkEdited?
    ensures Ends(s, Apply(s, Step(op)), op, Marked(s.disk, op, EndOf(s.disk.ops[op], s.mains[op]).value))
  {
    hide Altered, UndoStep, HandlerStep, MendStep, StartMender, Record, SpoolOf, Renamed;
  }

  lemma UnchangedMoves(s: Sys, op: OpId)
    requires s.held.None? && Running(s, op) && s.mains[op].TrimRun? && s.mains[op].pc.MarkUnchanged?
    ensures Ends(s, Apply(s, Step(op)), op, Marked(s.disk, op, EndOf(s.disk.ops[op], s.mains[op]).value))
  {
    hide Altered, UndoStep, HandlerStep, MendStep, StartMender, Record, SpoolOf, Renamed;
  }

  lemma OtherEndMoves(s: Sys, op: OpId)
    requires s.held.None? && Running(s, op) && !s.mains[op].TrimRun? && EndOf(s.disk.ops[op], s.mains[op]).Some?
    ensures Ends(s, Apply(s, Step(op)), op, Marked(s.disk, op, EndOf(s.disk.ops[op], s.mains[op]).value))
  {
    hide Altered, TrimStep;
  }

  lemma EndMoves(s: Sys, op: OpId)
    requires s.held.None? && Running(s, op) && EndOf(s.disk.ops[op], s.mains[op]).Some?
    ensures Ends(s, Apply(s, Step(op)), op, Marked(s.disk, op, EndOf(s.disk.ops[op], s.mains[op]).value))
  {
    hide Apply, EndOf, Marked;
    if s.mains[op].TrimRun? { TrimEndMoves(s, op); } else { OtherEndMoves(s, op); }
  }

  lemma HandlerMoves(s: Sys, op: OpId)
    requires s.held.None? && Running(s, op) && s.mains[op].Handler? && s.mains[op].read.None?
    ensures Moves(s, Apply(s, Step(op)), op, s.disk, s.lock, s.mains[op].(read := Some(s.disk.ops[op].state)))
  {
  }

  lemma LockMoves(s: Sys, op: OpId)
    requires s.held.None? && Running(s, op)
    ensures var (d, m, s') := (s.disk, s.mains[op], Apply(s, Step(op)));
            && ((m.TrimRun? && m.pc.BindParent?) || (m.UndoRun? && m.upc.UndoBindParent?) ==>
                  Moves(s, s', op, d.(ops := d.ops[op := d.ops[op].(parentBound := true)]), s.lock, Next(m)))
            && ((m.TrimRun? && m.pc.TakeLock?) || (m.UndoRun? && m.upc.UndoTakeLock?) ==>
                  s.lock.Free? ==> Moves(s, s', op, d, MainHolds(op), Next(m)))
  {
  }

  lemma ReadMoves(s: Sys, op: OpId)
    requires s.held.None? && Running(s, op) && s.mains[op].TrimRun? && s.mains[op].pc.ReadTarget?
    ensures var (d, m, s') := (s.disk, s.mains[op], Apply(s, Step(op)));
            var r := s.planner(d.file.text, d.target, m.policy);
            if Sha256(d.file.text) != d.ops[op].before then Moves(s, s', op, d, s.lock, m.(pc := MarkEdited(ExpectedHashMismatch)))
            else if r.Err? then Moves(s, s', op, d, Released(s, op), Handler(false, None))
            else Moves(s, s', op, d, s.lock,
              m.(seen := d.file, plan := r.value, pc := if r.value.after == d.file.text then MarkUnchanged else MakeDir))
  {
  }

  // What the private writes need, and what they leave.
  predicate Writable(d: Disk, op: OpId, pc: TrimPc) {
    match pc
    case MakeDir => op !in d.dirs
    case WriteBackup => op in d.dirs && d.dirs[op].backup.Absent?
    case WriteSpool => op in d.dirs && d.dirs[op].pending.Absent?
    case RenameSpool => op in d.dirs && !d.dirs[op].pending.Absent?
    case _ => false
  }

  function Written(d: Disk, op: OpId, m: Main): OpDir
    requires m.TrimRun? && Writable(d, op, m.pc)
  {
    match m.pc
    case WriteBackup => d.dirs[op].(backup := Whole(m.seen.text))
    case WriteSpool => d.dirs[op].(pending := Whole(SpoolOf(m.seen.text, m.plan)))
    case RenameSpool => Renamed(d.dirs[op])
    case _ => FRESH_DIR
  }

  predicate Writes(pc: TrimPc) {
    pc.MakeDir? || pc.WriteBackup? || pc.WriteSpool? || pc.RenameSpool?
  }

  lemma WriteMoves(s: Sys, op: OpId)
    requires s.held.None? && Running(s, op) && s.mains[op].TrimRun? && Writes(s.mains[op].pc)
    ensures var (d, m, s') := (s.disk, s.mains[op], Apply(s, Step(op)));
            if Writable(d, op, m.pc) then Moves(s, s', op, WithFiles(d, op, Written(d, op, m)), s.lock, Next(m))
            else Moves(s, s', op, d, Released(s, op), Handler(false, None))
  {
  }

  lemma ReplaceMoves(s: Sys, op: OpId)
    requires s.held.None? && Running(s, op) && s.mains[op].TrimRun? && s.mains[op].pc.Replace?
    ensures var (d, m, s') := (s.disk, s.mains[op], Apply(s, Step(op)));
            if d.file != m.seen then Moves(s, s', op, d, s.lock, m.(pc := MarkEdited(ImmediateCasMismatch)))
            else Moves(s, s', op, d.(file := File(m.plan.after, d.file.inode + 1)), s.lock, Next(m))
  {
  }

  lemma ReadBackMoves(s: Sys, op: OpId)
    requires s.held.None? && Running(s, op) && s.mains[op].TrimRun? && s.mains[op].pc.ReadBack?
    ensures var (m, s') := (s.mains[op], Apply(s, Step(op)));
            if s.disk.file.text == m.plan.after then Moves(s, s', op, s.disk, s.lock, Next(m))
            else Moves(s, s', op, s.disk, Released(s, op), Handler(false, None))
  {
  }

  lemma EvidenceMoves(s: Sys, op: OpId)
    requires s.held.None? && Running(s, op) && s.mains[op].TrimRun? && s.mains[op].pc.RecordEvidence?
    ensures var (d, m, s') := (s.disk, s.mains[op], Apply(s, Step(op)));
            var r := if op in d.dirs && d.dirs[op].pending.Whole?
                     then Record(d.events, op, d.dirs[op].pending.value.removed, Sha256(m.seen.text), d.clock, 0) else None;
            if r.Some? then Moves(s, s', op, d.(events := r.value), s.lock, Next(m))
            else Moves(s, s', op, d, Released(s, op), Handler(false, None))
  {
  }

  lemma DropMoves(s: Sys, op: OpId)
    requires s.held.None? && Running(s, op) && s.mains[op].TrimRun? && s.mains[op].pc.DropRecovery?
    ensures Ends(s, Apply(s, Step(op)), op, if op in s.disk.dirs
      then WithFiles(s.disk, op, s.disk.dirs[op].(recoveryAuth := false)) else s.disk)
  {
  }

  lemma BackupMoves(s: Sys, op: OpId)
    requires s.held.None? && Running(s, op) && s.mains[op].UndoRun? && s.mains[op].upc.ReadBackup?
    ensures var (d, m, s') := (s.disk, s.mains[op], Apply(s, Step(op)));
            if m.original in d.dirs && m.snap.backupRef && d.dirs[m.original].backup.Whole?
              && Sha256(d.dirs[m.original].backup.value) == m.snap.before
            then Moves(s, s', op, d, s.lock, m.(data := d.dirs[m.original].backup.value, upc := UndoTakeLock))
            else Moves(s, s', op, d, Released(s, op), Handler(true, None))
  {
  }

  lemma UndoReplaceMoves(s: Sys, op: OpId)
    requires s.held.None? && Running(s, op) && s.mains[op].UndoRun?
    ensures var (d, m, s') := (s.disk, s.mains[op], Apply(s, Step(op)));
            && (m.upc.UndoReadTarget? ==>
                  Moves(s, s', op, d, s.lock, if Sha256(d.file.text) != d.ops[op].before then m.(upc := UndoMarkEdited)
                    else m.(seen := d.file, upc := UndoReplace)))
            && (m.upc.UndoReplace? ==>
                  if d.file != m.seen then Moves(s, s', op, d, s.lock, m.(upc := UndoMarkEdited))
                  else Moves(s, s', op, d.(file := File(m.data, d.file.inode + 1)), s.lock, Next(m)))
  {
  }

  lemma UndoReadBackMoves(s: Sys, op: OpId)
    requires s.held.None? && Running(s, op) && s.mains[op].UndoRun? && s.mains[op].upc.UndoReadBack?
    ensures var (m, s') := (s.mains[op], Apply(s, Step(op)));
            if Sha256(s.disk.file.text) == m.snap.before then Moves(s, s', op, s.disk, Released(s, op), Next(m))
            else Moves(s, s', op, s.disk, Released(s, op), Handler(true, None))
  {
  }

  lemma TombstoneMoves(s: Sys, op: OpId)
    requires s.held.None? && Running(s, op) && s.mains[op].UndoRun? && s.mains[op].upc.UndoTombstone?
    ensures Moves(s, Apply(s, Step(op)), op, s.disk.(events := Tombstone(s.disk.events, s.mains[op].original)), s.lock, Next(s.mains[op]))
  {
  }

  lemma UndoEnds(s: Sys, op: OpId)
    requires s.held.None? && Running(s, op) && s.mains[op].UndoRun? && s.mains[op].upc.UndoMarkOriginal?
    ensures var (d, original) := (s.disk, s.mains[op].original);
            Ends(s, Apply(s, Step(op)), op, if original in d.ops then Marked(d, original, ORIGINAL_UNDONE) else d)
  {
  }

  // ---- The same for a reconciliation -------------------------------------------------

  // One reconciliation at a time.
  const RECONCILER: Pid := 0

  ghost predicate MendMoves(s: Sys, s': Sys, d: Disk, lock: Holder, m: Mender) {
    && s'.disk == d && s'.lock == lock && s'.planner == s.planner && s'.mains == s.mains && s'.hist == s.hist
    && s'.held == s.held && s'.menders.Keys == s.menders.Keys && RECONCILER in s'.menders && s'.menders[RECONCILER] == m
  }

  ghost predicate MendEnds(s: Sys, s': Sys, d: Disk, held: Option<Events>) {
    && s'.held == held && s'.disk == d && s'.lock == (if s.lock == MenderHolds(RECONCILER) then Free else s.lock) && s'.planner == s.planner
    && s'.mains == s.mains && s'.hist == s.hist && s'.menders.Keys == s.menders.Keys - {RECONCILER}
  }

  predicate Mending(s: Sys) {
    RECONCILER in s.menders && s.menders[RECONCILER].op in s.disk.ops && s.held.None?
  }

  // The marks with which a reconciliation ends.
  function MendEndOf(m: Mender): Option<Change> {
    match m.pc
    case MendMarkFailed => Some(if m.original.Some? then Change(FailedBeforeMutation, audit := Set(AuditCommitted))
                                else Change(FailedBeforeMutation, evidence := Set(Pending), audit := Set(AuditCommitted)))
    case MendMarkUnknown => Some(Change(RecoveryRequired, error := Set(Some(UnknownTargetHash))))
    case MendMarkStale => Some(Change(RecoveryRequired,
      error := Set(Some(if m.original.Some? then RollbackReconcileCasMismatch else ReconcileCasMismatch))))
    case _ => None
  }

  lemma MendFailedMoves(s: Sys)
    requires Mending(s) && s.menders[RECONCILER].pc.MendMarkFailed?
    ensures var m := s.menders[RECONCILER]; MendEnds(s, Apply(s, StepMend(RECONCILER)), Marked(s.disk, m.op, MendEndOf(m).value), None)
  {
    hide Altered;
  }

  lemma MendUnsureMoves(s: Sys)
    requires Mending(s) && (s.menders[RECONCILER].pc.MendMarkUnknown? || s.menders[RECONCILER].pc.MendMarkStale?)
    ensures var m := s.menders[RECONCILER]; MendEnds(s, Apply(s, StepMend(RECONCILER)), Marked(s.disk, m.op, MendEndOf(m).value), None)
  {
    hide Altered;
  }

  lemma MendEndMoves(s: Sys)
    requires Mending(s) && MendEndOf(s.menders[RECONCILER]).Some?
    ensures var m := s.menders[RECONCILER]; MendEnds(s, Apply(s, StepMend(RECONCILER)), Marked(s.disk, m.op, MendEndOf(m).value), None)
  {
    hide Apply, Marked;
    if s.menders[RECONCILER].pc.MendMarkFailed? { MendFailedMoves(s); } else { MendUnsureMoves(s); }
  }

  lemma MendKillMoves(s: Sys)
    ensures MendEnds(s, Apply(s, KillMend(RECONCILER)), s.disk, s.held)
  {
  }

  lemma LoadMoves(s: Sys)
    requires Mending(s) && s.menders[RECONCILER].pc.LoadSpool?
    ensures var (d, m, s') := (s.disk, s.menders[RECONCILER], Apply(s, StepMend(RECONCILER)));
            if m.op in d.dirs && d.dirs[m.op].pending.Whole? then
              MendMoves(s, s', d, s.lock, m.(spool := d.dirs[m.op].pending.value, isPending := true, pc := MendTakeLock))
            else if m.op in d.dirs && d.dirs[m.op].pending.Absent? && d.dirs[m.op].committed.Whole? then
              MendMoves(s, s', d, s.lock, m.(spool := d.dirs[m.op].committed.value, isPending := false, pc := MendTakeLock))
            else MendEnds(s, s', d, None)
  {
  }

  lemma MendLockMoves(s: Sys)
    requires Mending(s) && s.menders[RECONCILER].pc.MendTakeLock? && s.lock.Free?
    ensures MendMoves(s, Apply(s, StepMend(RECONCILER)), s.disk, MenderHolds(RECONCILER), s.menders[RECONCILER].(pc := Judge))
  {
  }

  lemma JudgeMoves(s: Sys)
    requires Mending(s) && s.menders[RECONCILER].pc.Judge?
    ensures var (f, m, s') := (s.disk.file, s.menders[RECONCILER], Apply(s, StepMend(RECONCILER)));
            MendMoves(s, s', s.disk, s.lock,
                      if m.original.Some? || Sha256(f.text) == m.spool.after then m.(seen := f, pc := Recheck)
                      else m.(pc := if Sha256(f.text) == m.spool.before then MendMarkFailed else MendMarkUnknown))
  {
  }

  function AfterRecheck(m: Mender): MendPc {
    var h := Sha256(m.seen.text);
    if m.original.None? then MendRecord
    else if h == m.original.value.before then UnwindTombstone else if h == m.row.before then MendMarkFailed else MendMarkUnknown
  }

  lemma RecheckMoves(s: Sys)
    requires Mending(s) && s.menders[RECONCILER].pc.Recheck?
    ensures var (m, s') := (s.menders[RECONCILER], Apply(s, StepMend(RECONCILER)));
            MendMoves(s, s', s.disk, s.lock, m.(pc := if s.disk.file != m.seen then MendMarkStale else AfterRecheck(m)))
  {
  }

  lemma MendRecordMoves(s: Sys)
    requires Mending(s) && s.menders[RECONCILER].pc.MendRecord?
    ensures var (d, m, s') := (s.disk, s.menders[RECONCILER], Apply(s, StepMend(RECONCILER)));
            var r := Record(d.events, m.op, m.spool.removed, m.spool.before, d.clock, 0);
            if r.Some? then MendMoves(s, s', d.(events := r.value), s.lock, m.(pc := MendRename))
            else MendEnds(s, s', d, Some(Inserted(d.events, m.op, m.spool.removed, m.spool.before, d.clock, 0)))
  {
  }

  lemma MendRenameMoves(s: Sys)
    requires Mending(s) && s.menders[RECONCILER].pc.MendRename?
    ensures var (d, m, s') := (s.disk, s.menders[RECONCILER], Apply(s, StepMend(RECONCILER)));
            if !m.isPending then MendMoves(s, s', d, s.lock, m.(pc := MendMarkFinal))
            else if m.op in d.dirs && !d.dirs[m.op].pending.Absent? then
              MendMoves(s, s', WithFiles(d, m.op, Renamed(d.dirs[m.op])), s.lock, m.(pc := MendMarkFinal))
            else MendEnds(s, s', d, None)
  {
  }

  lemma MendFinalMoves(s: Sys)
    requires Mending(s)
    ensures var (d, m, s') := (s.disk, s.menders[RECONCILER], Apply(s, StepMend(RECONCILER)));
            && (m.pc.MendMarkFinal? ==>
                  MendMoves(s, s', Marked(d, m.op,
                    Change(FinalState(m.spool.reached), error := Set(FinalError(m.spool.reached)), after := Set(m.spool.after),
                                                          evidence := Set(Committed), audit := Set(AuditCommitted))), s.lock,
                                                            m.(pc := MendDropRecovery)))
            && (m.pc.MendDropRecovery? ==>
                  MendEnds(s, s', if m.op in d.dirs then WithFiles(d, m.op, d.dirs[m.op].(recoveryAuth := false)) else d, None))
  {
  }

  lemma UnwindMoves(s: Sys)
    requires Mending(s) && s.menders[RECONCILER].row.proposal.Some?
    ensures var (d, m, s') := (s.disk, s.menders[RECONCILER], Apply(s, StepMend(RECONCILER)));
            var original := m.row.proposal.value;
            && (m.pc.UnwindTombstone? ==> MendMoves(s, s', d.(events := Tombstone(d.events, original)), s.lock, m.(pc := UnwindMarkSelf)))
            && (m.pc.UnwindMarkSelf? ==>
                  MendMoves(s, s', Marked(d, m.op,
                    Change(RolledBack, after := Set(Sha256(m.seen.text)), evidence := Set(Reconciled), audit := Set(AuditCommitted))),
                            s.lock, m.(pc := UnwindMarkOriginal)))
            && (m.pc.UnwindMarkOriginal? ==> MendEnds(s, s', if original in d.ops then Marked(d, original, ORIGINAL_UNDONE) else d, None))
  {
  }

  lemma MendStartMoves(s: Sys, op: OpId)
    requires s.menders == map[] && Mendable(s.disk, op)
    ensures var row := s.disk.ops[op];
            MendMovesFrom(Flushed(s), Apply(s, StartMend(RECONCILER, op)),
                          Mender(op, row, if row.kind == Rollback then Some(s.disk.ops[row.proposal.value]) else None,
                                 if row.kind == Rollback then MendTakeLock else LoadSpool, NO_SPOOL, false, NO_FILE))
  {
  }

  ghost predicate MendMovesFrom(s: Sys, s': Sys, m: Mender) {
    s' == s.(menders := s.menders[RECONCILER := m])
  }
}
