// The writeback protocol of live_overflow.py as a step machine. One step is one durable
// effect or one observation of shared state; processes may be killed, or may raise,
// between any two steps. The target file can be edited from outside at any time.
module Writeback {
  import opened Options
  import opened Trim
  import opened Blocks

  // SHA-256, taken to be injective.
  datatype Digest = Sha256(text: string)

  type OpId = string
  type AuthId = string
  type Pid = nat

  // ---- Durable state -------------------------------------------------------------

  datatype Kind = LiveOverflowTrim | Rollback

  // Row of writeback_authorizations; operation_id is unique there.
  datatype Auth = Auth(op: OpId, kind: Kind, before: Digest, proposal: Option<OpId>, consumed: bool)

  datatype State =
    | Authorized | Locked | BackupDurable | EvidencePending | FileReplaced | ReadbackVerified
    | Completed | CompletedPartial | BlockedTargetUnreachable
    | ConcurrentEditDetected | FailedBeforeMutation | RecoveryRequired
    | RollbackLocked | RollbackFileReplaced | RollbackEvidenceReconciled | RolledBack

  datatype Error =
    | ExpectedHashMismatch | ImmediateCasMismatch | RollbackCasMismatch | TargetUnreachable
    | UnknownTargetHash | ReconcileCasMismatch | RollbackReconcileCasMismatch | Raised

  datatype EvidenceState = NoEvidence | Pending | Committed | Reconciled
  datatype AuditState = AuditPending | AuditCommitted

  // Row of writeback_operations.
  datatype OpRow = OpRow(auth: AuthId, kind: Kind, proposal: Option<OpId>, before: Digest, after: Option<Digest>,
                         state: State, error: Option<Error>, backupRef: bool, spoolRef: bool,
                         evidence: EvidenceState, audit: AuditState, rollbackAvailable: bool, parentBound: bool)

  // The keyword arguments of _state: a column that is not named keeps its value.
  datatype Field<+T> = Keep | Set(value: T)
  datatype Change = Change(state: State, nameonly after: Field<Digest> := Keep, nameonly error: Field<Option<Error>> := Keep,
                           nameonly backupRef: Field<bool> := Keep, nameonly spoolRef: Field<bool> := Keep,
                           nameonly evidence: Field<EvidenceState> := Keep, nameonly audit: Field<AuditState> := Keep,
                           nameonly rollbackAvailable: Field<bool> := Keep)

  function Pick<T>(f: Field<T>, current: T): T {
    if f.Set? then f.value else current
  }

  function Altered(row: OpRow, c: Change): OpRow {
    row.(state := c.state,
         after := if c.after.Set? then Some(c.after.value) else row.after,
         error := Pick(c.error, row.error),
         backupRef := Pick(c.backupRef, row.backupRef),
         spoolRef := Pick(c.spoolRef, row.spoolRef),
         evidence := Pick(c.evidence, row.evidence),
         audit := Pick(c.audit, row.audit),
         rollbackAvailable := Pick(c.rollbackAvailable, row.rollbackAvailable))
  }

  datatype Spool = Spool(before: Digest, after: Digest, removed: seq<string>, reached: bool)

  // A file of the private directory: a crash during the write leaves a torn one.
  datatype Artifact<+T> = Absent | Torn | Whole(value: T)
  datatype OpDir = OpDir(recoveryAuth: bool, backup: Artifact<string>, pending: Artifact<Spool>, committed: Artifact<Spool>)
  const FRESH_DIR := OpDir(true, Absent, Absent, Absent)

  // Evidence ids are made of the block hash, its index and the hash of the file before the
  // trim, and not of the operation id. A row of raw_events and its evidence item are
  // inserted together, so one entry stands for both.
  datatype EventKey = EventKey(block: Digest, index: nat, before: Digest)
  datatype WriteStatus = Standing | Tombstoned
  datatype RawEvent = RawEvent(content: string, op: OpId, at: nat, status: WriteStatus)
  type Events = map<EventKey, RawEvent>

  datatype File = File(text: string, inode: nat)

  datatype Disk = Disk(target: string, file: File, clock: nat, auths: map<AuthId, Auth>, ops: map<OpId, OpRow>,
                       dirs: map<OpId, OpDir>, events: Events)

  // ---- Evidence rows -------------------------------------------------------------

  function Key(block: string, index: nat, before: Digest): EventKey {
    EventKey(Sha256(block), index, before)
  }

  // UNIQUE(source_id, content_hash, occurred_at) of raw_events.
  predicate Clash(events: Events, block: string, now: nat) {
    exists k :: k in events && events[k].content == block && events[k].at == now
  }

  // INSERT OR IGNORE of the raw event and of its evidence item. When the raw event is
  // ignored for a clash, the evidence item refers to a row that does not exist, and a
  // foreign key violation is not ignored: the whole transaction fails.
  function Record(events: Events, op: OpId, removed: seq<string>, before: Digest, now: nat, from: nat): Option<Events>
    requires from <= |removed|
    decreases |removed| - from
  {
    if from == |removed| then Some(events)
    else
      var k := Key(removed[from], from + 1, before);
      if k in events then Record(events, op, removed, before, now, from + 1)
      else if Clash(events, removed[from], now) then None
      else Record(events[k := RawEvent(removed[from], op, now, Standing)], op, removed, before, now, from + 1)
  }

  // What such a transaction has inserted when it fails, or when it is through.
  function Inserted(events: Events, op: OpId, removed: seq<string>, before: Digest, now: nat, from: nat): Events
    requires from <= |removed|
    decreases |removed| - from
  {
    if from == |removed| then events
    else
      var k := Key(removed[from], from + 1, before);
      if k in events then Inserted(events, op, removed, before, now, from + 1)
      else if Clash(events, removed[from], now) then events
      else Inserted(events[k := RawEvent(removed[from], op, now, Standing)], op, removed, before, now, from + 1)
  }

  function Tombstone(events: Events, op: OpId): Events {
    map k | k in events :: if events[k].op == op && events[k].status == Standing then events[k].(status := Tombstoned) else events[k]
  }

  // ---- Processes -----------------------------------------------------------------

  // The next thing that execute_writeback does.
  datatype TrimPc =
    | BindParent | TakeLock | MarkLocked | ReadTarget | MarkEdited(error: Error) | MarkUnchanged
    | MakeDir | WriteBackup | MarkBackup | WriteSpool | MarkSpool | Replace | MarkReplaced | ReadBack
    | MarkVerified | RecordEvidence | RenameSpool | MarkFinal | DropRecovery

  // The next thing that rollback_writeback does.
  datatype UndoPc =
    | UndoBindParent | ReadBackup | UndoTakeLock | UndoMarkLocked | UndoReadTarget | UndoMarkEdited
    | UndoReplace | UndoMarkReplaced | UndoReadBack | UndoTombstone | UndoMarkReconciled | UndoMarkSelf | UndoMarkOriginal

  datatype Main =
    | TrimRun(policy: Policy, pc: TrimPc, seen: File, plan: Plan)
    | UndoRun(original: OpId, snap: OpRow, upc: UndoPc, data: string, seen: File)
    // The exception handler: it reads the state of the row, then writes a terminal one.
    | Handler(undo: bool, read: Option<State>)

  // The next thing that reconcile_writeback does.
  datatype MendPc =
    | LoadSpool | MendTakeLock | Judge | Recheck | MendRecord | MendRename | MendMarkFinal | MendDropRecovery
    | MendMarkFailed | MendMarkUnknown | MendMarkStale
    | UnwindTombstone | UnwindMarkSelf | UnwindMarkOriginal

  datatype Mender = Mender(op: OpId, row: OpRow, original: Option<OpRow>, pc: MendPc, spool: Spool, isPending: bool, seen: File)

  datatype Holder = Free | MainHolds(op: OpId) | MenderHolds(pid: Pid)

  // History of an operation: which program ran it, under which policy, and whether it
  // has replaced the target.
  datatype Hist = Hist(trim: bool, policy: Policy, replaced: bool)

  // The trim that execute_writeback calls: PlanTrim in every system that Init builds.
  type Planner = (string, string, Policy) -> Result<Plan>

  // A reconciliation whose evidence transaction fails leaves the transaction open on its
  // connection: `held` is the evidence as that connection sees it. As long as it is open,
  // no other connection can write to the database.
  datatype Sys = Sys(planner: Planner, disk: Disk, mains: map<OpId, Main>, menders: map<Pid, Mender>, lock: Holder,
                     hist: map<OpId, Hist>, held: Option<Events>)

  function Init(target: string, file: File): Sys {
    Sys(PlanTrim, Disk(target, file, 0, map[], map[], map[], map[]), map[], map[], Free, map[], None)
  }

  const NO_FILE := File("", 0)
  const NO_PLAN := Plan("", [], BelowTrigger, false)
  const NO_SPOOL := Spool(Sha256(""), Sha256(""), [], false)

  // ---- Helpers -------------------------------------------------------------------

  function WithRow(s: Sys, op: OpId, row: OpRow): Sys {
    s.(disk := s.disk.(ops := s.disk.ops[op := row]))
  }

  function WithDir(s: Sys, op: OpId, dir: OpDir): Sys {
    s.(disk := s.disk.(dirs := s.disk.dirs[op := dir]))
  }

  function WithMain(s: Sys, op: OpId, m: Main): Sys {
    s.(mains := s.mains[op := m])
  }

  function Unlock(s: Sys, h: Holder): Sys {
    if s.lock == h then s.(lock := Free) else s
  }

  // The process ends; the operating system drops its lock.
  function EndMain(s: Sys, op: OpId): Sys {
    Unlock(s.(mains := s.mains - {op}), MainHolds(op))
  }

  function EndMender(s: Sys, pid: Pid): Sys {
    Unlock(s.(menders := s.menders - {pid}), MenderHolds(pid))
  }

  function Mark(s: Sys, op: OpId, c: Change): Sys
    requires op in s.disk.ops
  {
    WithRow(s, op, Altered(s.disk.ops[op], c))
  }

  // An exception: the with block releases the lock, then the handler runs. The binding of
  // the parent directory happens before the try block, so nothing catches it there.
  function Raise(s: Sys, op: OpId): Sys
    requires op in s.mains
  {
    var m := s.mains[op];
    if (m.TrimRun? && m.pc.BindParent?) || (m.UndoRun? && m.upc.UndoBindParent?) || m.Handler? then EndMain(s, op)
    else WithMain(Unlock(s, MainHolds(op)), op, Handler(m.UndoRun?, None))
  }

  // A transaction is left open.
  function Held(s: Sys, events: Events): Sys {
    s.(held := Some(events))
  }

  // Its connection commits.
  function Flushed(s: Sys): Sys {
    if s.held.None? then s else s.(disk := s.disk.(events := s.held.value), held := None)
  }

  function FinalState(reached: bool): State {
    if reached then Completed else CompletedPartial
  }

  function FinalError(reached: bool): Option<Error> {
    if reached then None else Some(Error.TargetUnreachable)
  }

  function SpoolOf(before: string, p: Plan): Spool {
    Spool(Sha256(before), Sha256(p.after), p.removed, p.reached)
  }

  function ReplaceFile(s: Sys, op: OpId, text: string): Sys
    requires op in s.hist
  {
    s.(disk := s.disk.(file := File(text, s.disk.file.inode + 1)), hist := s.hist[op := s.hist[op].(replaced := true)])
  }

  predicate Running(s: Sys, op: OpId) {
    op in s.mains && op in s.disk.ops && op in s.hist
  }

  // ---- execute_writeback ---------------------------------------------------------

  function TrimStep(s: Sys, op: OpId): Sys
    requires Running(s, op) && s.mains[op].TrimRun?
  {
    var m := s.mains[op];
    var row := s.disk.ops[op];
    match m.pc
    case BindParent =>
      WithMain(WithRow(s, op, row.(parentBound := true)), op, m.(pc := TakeLock))
    case TakeLock =>
      if s.lock != Free then s else WithMain(s.(lock := MainHolds(op)), op, m.(pc := MarkLocked))
    case MarkLocked =>
      WithMain(Mark(s, op, Change(Locked)), op, m.(pc := ReadTarget))
    case ReadTarget =>
      var f := s.disk.file;
      if Sha256(f.text) != row.before then WithMain(s, op, m.(pc := MarkEdited(ExpectedHashMismatch)))
      else (
        match s.planner(f.text, s.disk.target, m.policy)
        case Err(_) => Raise(s, op)
        case Ok(p) => WithMain(s, op, m.(seen := f, plan := p, pc := if p.after == f.text then MarkUnchanged else MakeDir))
      )
    case MarkEdited(e) =>
      EndMain(Mark(s, op, Change(ConcurrentEditDetected, error := Set(Some(e)))), op)
    case MarkUnchanged =>
      var blocked := m.plan.reason == Reason.TargetUnreachable;
      EndMain(Mark(s, op, Change(if blocked then BlockedTargetUnreachable else Completed, after := Set(row.before),
        error := Set(if blocked then Some(Error.TargetUnreachable) else None), evidence := Set(NoEvidence),
          audit := Set(AuditCommitted))), op)
    case MakeDir =>
      if op in s.disk.dirs then Raise(s, op)
      else WithMain(WithDir(s, op, FRESH_DIR), op, m.(pc := WriteBackup))
    case WriteBackup =>
      if op !in s.disk.dirs || !s.disk.dirs[op].backup.Absent? then Raise(s, op)
      else WithMain(WithDir(s, op, s.disk.dirs[op].(backup := Whole(m.seen.text))), op, m.(pc := MarkBackup))
    case MarkBackup =>
      WithMain(Mark(s, op, Change(BackupDurable, backupRef := Set(true), rollbackAvailable := Set(true))), op, m.(pc := WriteSpool))
    case WriteSpool =>
      if op !in s.disk.dirs || !s.disk.dirs[op].pending.Absent? then Raise(s, op)
      else WithMain(WithDir(s, op, s.disk.dirs[op].(pending := Whole(SpoolOf(m.seen.text, m.plan)))), op, m.(pc := MarkSpool))
    case MarkSpool =>
      WithMain(Mark(s, op, Change(EvidencePending, spoolRef := Set(true), evidence := Set(Pending))), op, m.(pc := Replace))
    case Replace =>
      if s.disk.file != m.seen then WithMain(s, op, m.(pc := MarkEdited(ImmediateCasMismatch)))
      else WithMain(ReplaceFile(s, op, m.plan.after), op, m.(pc := MarkReplaced))
    case MarkReplaced =>
      WithMain(Mark(s, op, Change(FileReplaced, after := Set(Sha256(m.plan.after)))), op, m.(pc := ReadBack))
    case ReadBack =>
      if s.disk.file.text != m.plan.after then Raise(s, op) else WithMain(s, op, m.(pc := MarkVerified))
    case MarkVerified =>
      WithMain(Mark(s, op, Change(ReadbackVerified)), op, m.(pc := RecordEvidence))
    case RecordEvidence =>
      if op !in s.disk.dirs || !s.disk.dirs[op].pending.Whole? then Raise(s, op)
      else (
        match Record(s.disk.events, op, s.disk.dirs[op].pending.value.removed, Sha256(m.seen.text), s.disk.clock, 0)
        case None => Raise(s, op)
        case Some(events) => WithMain(s.(disk := s.disk.(events := events)), op, m.(pc := RenameSpool))
      )
    case RenameSpool =>
      if op !in s.disk.dirs || s.disk.dirs[op].pending.Absent? then Raise(s, op)
      else WithMain(WithDir(s, op, Renamed(s.disk.dirs[op])), op, m.(pc := MarkFinal))
    case MarkFinal =>
      WithMain(Mark(s, op, Change(FinalState(m.plan.reached), error := Set(FinalError(m.plan.reached)),
        evidence := Set(Committed), audit := Set(AuditCommitted))), op, m.(pc := DropRecovery))
    case DropRecovery =>
      EndMain(if op in s.disk.dirs then WithDir(s, op, s.disk.dirs[op].(recoveryAuth := false)) else s, op)
  }

  function Renamed(dir: OpDir): OpDir {
    dir.(pending := Absent, committed := dir.pending)
  }

  // ---- rollback_writeback --------------------------------------------------------

  const CAS_FAILED := Change(ConcurrentEditDetected, error := Set(Some(RollbackCasMismatch)))
  const ORIGINAL_UNDONE := Change(RolledBack, evidence := Set(Reconciled), audit := Set(AuditCommitted), rollbackAvailable := Set(false))

  function UndoStep(s: Sys, op: OpId): Sys
    requires Running(s, op) && s.mains[op].UndoRun?
  {
    var m := s.mains[op];
    var row := s.disk.ops[op];
    match m.upc
    case UndoBindParent =>
      WithMain(WithRow(s, op, row.(parentBound := true)), op, m.(upc := ReadBackup))
    case ReadBackup =>
      if m.original !in s.disk.dirs || !m.snap.backupRef || !s.disk.dirs[m.original].backup.Whole? then Raise(s, op)
      else
        var data := s.disk.dirs[m.original].backup.value;
        if Sha256(data) != m.snap.before then Raise(s, op) else WithMain(s, op, m.(data := data, upc := UndoTakeLock))
    case UndoTakeLock =>
      if s.lock != Free then s else WithMain(s.(lock := MainHolds(op)), op, m.(upc := UndoMarkLocked))
    case UndoMarkLocked =>
      WithMain(Mark(s, op, Change(RollbackLocked)), op, m.(upc := UndoReadTarget))
    case UndoReadTarget =>
      if Sha256(s.disk.file.text) != row.before then WithMain(s, op, m.(upc := UndoMarkEdited))
      else WithMain(s, op, m.(seen := s.disk.file, upc := UndoReplace))
    case UndoMarkEdited =>
      EndMain(Mark(s, op, CAS_FAILED), op)
    case UndoReplace =>
      if s.disk.file != m.seen then WithMain(s, op, m.(upc := UndoMarkEdited))
      else WithMain(ReplaceFile(s, op, m.data), op, m.(upc := UndoMarkReplaced))
    case UndoMarkReplaced =>
      WithMain(Mark(s, op, Change(RollbackFileReplaced, after := Set(Sha256(m.data)))), op, m.(upc := UndoReadBack))
    case UndoReadBack =>
      if Sha256(s.disk.file.text) != m.snap.before then Raise(s, op)
      else WithMain(Unlock(s, MainHolds(op)), op, m.(upc := UndoTombstone))
    case UndoTombstone =>
      WithMain(s.(disk := s.disk.(events := Tombstone(s.disk.events, m.original))), op, m.(upc := UndoMarkReconciled))
    case UndoMarkReconciled =>
      WithMain(Mark(s, op, Change(RollbackEvidenceReconciled, after := Set(Sha256(m.data)), evidence := Set(Reconciled))), op,
        m.(upc := UndoMarkSelf))
    case UndoMarkSelf =>
      WithMain(Mark(s, op, Change(RolledBack, audit := Set(AuditCommitted))), op, m.(upc := UndoMarkOriginal))
    case UndoMarkOriginal =>
      EndMain(if m.original in s.disk.ops then Mark(s, m.original, ORIGINAL_UNDONE) else s, op)
  }

  // ---- The exception handlers of both ----------------------------------------------

  function TerminalState(undo: bool, read: State): State {
    if read == Authorized || read == (if undo then RollbackLocked else Locked) then FailedBeforeMutation else RecoveryRequired
  }

  function HandlerStep(s: Sys, op: OpId): Sys
    requires Running(s, op) && s.mains[op].Handler?
  {
    var m := s.mains[op];
    match m.read
    case None => WithMain(s, op, m.(read := Some(s.disk.ops[op].state)))
    case Some(st) => EndMain(Mark(s, op, Change(TerminalState(m.undo, st), error := Set(Some(Raised)))), op)
  }

  // ---- reconcile_writeback ---------------------------------------------------------

  predicate Terminal(st: State) {
    st in {Completed, CompletedPartial, BlockedTargetUnreachable, RolledBack, FailedBeforeMutation}
  }

  // The calls that return at once, before anything is written.
  predicate Over(d: Disk, op: OpId) {
    op in d.ops ==> Terminal(d.ops[op].state)
  }

  // The calls that get past the first checks. All others change nothing.
  predicate Mendable(d: Disk, op: OpId) {
    && op in d.ops && !Terminal(d.ops[op].state) && d.ops[op].parentBound
    && (if d.ops[op].kind == Rollback then
          var r := d.ops[op];
          r.proposal.Some? && r.proposal.value in d.ops && d.ops[r.proposal.value].after == Some(r.before)
        else op in d.dirs && d.ops[op].spoolRef)
  }

  function StartMender(s: Sys, pid: Pid, op: OpId): Sys {
    if pid in s.menders || !Mendable(s.disk, op) then s
    else
      var row := s.disk.ops[op];
      var undo := row.kind == Rollback;
      s.(menders := s.menders[pid := Mender(op, row, if undo then Some(s.disk.ops[row.proposal.value]) else None,
                                            if undo then MendTakeLock else LoadSpool, NO_SPOOL, false, NO_FILE)])
  }

  function WithMender(s: Sys, pid: Pid, m: Mender): Sys {
    s.(menders := s.menders[pid := m])
  }

  function MendStep(s: Sys, pid: Pid): Sys
    requires pid in s.menders && s.menders[pid].op in s.disk.ops
  {
    var m := s.menders[pid];
    var op := m.op;
    match m.pc
    case LoadSpool =>
      if op !in s.disk.dirs then EndMender(s, pid)
      else
        var dir := s.disk.dirs[op];
        if dir.pending.Whole? then WithMender(s, pid, m.(spool := dir.pending.value, isPending := true, pc := MendTakeLock))
        else if dir.pending.Absent? && dir.committed.Whole? then
          WithMender(s, pid, m.(spool := dir.committed.value, isPending := false, pc := MendTakeLock))
        else EndMender(s, pid)
    case MendTakeLock =>
      if s.lock != Free then s else WithMender(s.(lock := MenderHolds(pid)), pid, m.(pc := Judge))
    case Judge =>
      var (f, h) := (s.disk.file, Sha256(s.disk.file.text));
      if m.original.Some? || h == m.spool.after then WithMender(s, pid, m.(seen := f, pc := Recheck))
      else WithMender(s, pid, m.(pc := if h == m.spool.before then MendMarkFailed else MendMarkUnknown))
    case Recheck =>
      var h := Sha256(m.seen.text);
      if s.disk.file != m.seen then WithMender(s, pid, m.(pc := MendMarkStale))
      else if m.original.None? then WithMender(s, pid, m.(pc := MendRecord))
      else WithMender(s, pid, m.(pc := if h == m.original.value.before then UnwindTombstone
                                       else if h == m.row.before then MendMarkFailed else MendMarkUnknown))
    case MendRecord =>
      (match Record(s.disk.events, op, m.spool.removed, m.spool.before, s.disk.clock, 0)
       case None => EndMender(Held(s, Inserted(s.disk.events, op, m.spool.removed, m.spool.before, s.disk.clock, 0)), pid)
       case Some(events) => WithMender(s.(disk := s.disk.(events := events)), pid, m.(pc := MendRename)))
    case MendRename =>
      if !m.isPending then WithMender(s, pid, m.(pc := MendMarkFinal))
      else if op !in s.disk.dirs || s.disk.dirs[op].pending.Absent? then EndMender(s, pid)
      else WithMender(WithDir(s, op, Renamed(s.disk.dirs[op])), pid, m.(pc := MendMarkFinal))
    case MendMarkFinal =>
      WithMender(Mark(s, op, Change(FinalState(m.spool.reached), error := Set(FinalError(m.spool.reached)), after := Set(m.spool.after),
        evidence := Set(Committed), audit := Set(AuditCommitted))), pid, m.(pc := MendDropRecovery))
    case MendDropRecovery =>
      EndMender(if op in s.disk.dirs then WithDir(s, op, s.disk.dirs[op].(recoveryAuth := false)) else s, pid)
    case MendMarkFailed =>
      EndMender(Mark(s, op, if m.original.Some? then Change(FailedBeforeMutation, audit := Set(AuditCommitted))
                            else Change(FailedBeforeMutation, evidence := Set(Pending), audit := Set(AuditCommitted))), pid)
    case MendMarkUnknown =>
      EndMender(Mark(s, op, Change(RecoveryRequired, error := Set(Some(UnknownTargetHash)))), pid)
    case MendMarkStale =>
      EndMender(Mark(s, op, Change(RecoveryRequired,
        error := Set(Some(if m.original.Some? then RollbackReconcileCasMismatch else ReconcileCasMismatch)))), pid)
    case UnwindTombstone =>
      (match m.row.proposal
       case None => EndMender(s, pid)
       case Some(original) =>
         WithMender(s.(disk := s.disk.(events := Tombstone(s.disk.events, original))), pid, m.(pc := UnwindMarkSelf)))
    case UnwindMarkSelf =>
      WithMender(Mark(s, op, Change(RolledBack, after := Set(Sha256(m.seen.text)), evidence := Set(Reconciled),
        audit := Set(AuditCommitted))),
                 pid, m.(pc := UnwindMarkOriginal))
    case UnwindMarkOriginal =>
      EndMender(if m.row.proposal.Some? && m.row.proposal.value in s.disk.ops
                then Mark(s, m.row.proposal.value, ORIGINAL_UNDONE) else s, pid)
  }

  // ---- All moves -------------------------------------------------------------------

  datatype Label =
    | Tick
    | Edit(file: File)
    | Issue(id: AuthId, op: OpId, kind: Kind, before: Digest, proposal: Option<OpId>)
    | StartTrim(auth: AuthId, policy: Policy)
    | StartUndo(auth: AuthId, original: OpId)
    | Step(op: OpId)
    | Fault(op: OpId)
    | Kill(op: OpId)
    // A private write that is cut short, by an exception or by the end of the process.
    | Tear(op: OpId, caught: bool)
    | StartMend(pid: Pid, op: OpId)
    | StepMend(pid: Pid)
    | KillMend(pid: Pid)
    // The connection with the open transaction commits, or it is rolled back or closed.
    | Commit
    | Discard

  function IssueAuth(d: Disk, id: AuthId, a: Auth): Disk {
    if id in d.auths || exists i :: i in d.auths && d.auths[i].op == a.op then d else d.(auths := d.auths[id := a])
  }

  predicate Consumable(d: Disk, id: AuthId) {
    id in d.auths && !d.auths[id].consumed
  }

  // _validate_and_consume: one transaction consumes the authorization and inserts the operation.
  function Consume(d: Disk, id: AuthId): Disk
    requires Consumable(d, id)
  {
    var a := d.auths[id];
    d.(auths := d.auths[id := a.(consumed := true)],
       ops := d.ops[a.op := OpRow(id, a.kind, a.proposal, a.before, None, Authorized, None, false, false, NoEvidence,
         AuditPending, false, false)])
  }

  predicate Undoable(d: Disk, id: AuthId, original: OpId) {
    && Consumable(d, id) && d.auths[id].kind == Rollback
    && original in d.ops && d.ops[original].rollbackAvailable
    && d.auths[id].proposal == Some(original) && Some(d.auths[id].before) == d.ops[original].after
  }

  function Begin(s: Sys, id: AuthId, m: Main, h: Hist): Sys
    requires Consumable(s.disk, id)
  {
    var op := s.disk.auths[id].op;
    s.(disk := Consume(s.disk, id), mains := s.mains[op := m], hist := s.hist[op := h])
  }

  predicate Tearable(s: Sys, op: OpId) {
    && Running(s, op) && s.mains[op].TrimRun? && op in s.disk.dirs
    && ((s.mains[op].pc.WriteBackup? && s.disk.dirs[op].backup.Absent?) || (s.mains[op].pc.WriteSpool? && s.disk.dirs[op].pending.Absent?))
  }

  function TearFile(s: Sys, op: OpId): Sys
    requires Tearable(s, op)
  {
    WithDir(s, op, if s.mains[op].pc.WriteBackup? then s.disk.dirs[op].(backup := Torn) else s.disk.dirs[op].(pending := Torn))
  }

  // The statements that write to the database, or begin to: they wait while another connection
  // has a transaction open. Reading rows, files and the lock goes on.
  predicate MainWrites(m: Main) {
    match m
    case TrimRun(_, pc, _, _) =>
      pc !in {TakeLock, ReadTarget, MakeDir, WriteBackup, WriteSpool, Replace, ReadBack, RenameSpool, DropRecovery}
    case UndoRun(_, _, upc, _, _) => upc !in {ReadBackup, UndoTakeLock, UndoReadTarget, UndoReplace, UndoReadBack}
    case Handler(_, read) => read.Some?
  }

  predicate MendWrites(pc: MendPc) {
    pc !in {LoadSpool, MendTakeLock, Judge, Recheck, MendRename, MendDropRecovery}
  }

  predicate Waits(s: Sys, op: OpId) {
    s.held.Some? && op in s.mains && MainWrites(s.mains[op])
  }

  predicate MendWaits(s: Sys, pid: Pid) {
    s.held.Some? && pid in s.menders && MendWrites(s.menders[pid].pc)
  }

  // A call on the connection that has left a transaction open commits it first: when it creates an
  // authorization, trims or reconciles. A rollback does not, and fails to begin a transaction.
  function Apply(s: Sys, l: Label): Sys {
    match l
    case Tick => s.(disk := s.disk.(clock := s.disk.clock + 1))
    case Edit(f) => s.(disk := s.disk.(file := f))
    case Issue(id, op, kind, before, proposal) =>
      var d := IssueAuth(Flushed(s).disk, id, Auth(op, kind, before, proposal, false));
      if d == Flushed(s).disk then s else Flushed(s).(disk := d)
    case StartTrim(id, policy) =>
      if Consumable(s.disk, id) then Begin(Flushed(s), id, TrimRun(policy, BindParent, NO_FILE, NO_PLAN), Hist(true, policy, false))
      else Flushed(s)
    case StartUndo(id, original) =>
      if s.held.None? && Undoable(s.disk, id, original)
      then Begin(s, id, UndoRun(original, s.disk.ops[original], UndoBindParent, "", NO_FILE), Hist(false, DEFAULT_POLICY, false)) else s
    case Step(op) =>
      if !Running(s, op) || Waits(s, op) then s
      else if s.mains[op].TrimRun? then TrimStep(s, op)
      else if s.mains[op].UndoRun? then UndoStep(s, op)
      else HandlerStep(s, op)
    case Fault(op) => if Running(s, op) then Raise(s, op) else s
    case Kill(op) => EndMain(s, op)
    case Tear(op, caught) =>
      if !Tearable(s, op) then s
      else if caught then Raise(TearFile(s, op), op) else EndMain(TearFile(s, op), op)
    case StartMend(pid, op) => if Over(s.disk, op) then s else StartMender(Flushed(s), pid, op)
    case StepMend(pid) => if pid in s.menders && s.menders[pid].op in s.disk.ops && !MendWaits(s, pid) then MendStep(s, pid) else s
    case KillMend(pid) => EndMender(s, pid)
    case Commit => Flushed(s)
    case Discard => s.(held := None)
  }

  function Run(s: Sys, ls: seq<Label>): Sys
    decreases |ls|
  {
    if ls == [] then s else Run(Apply(s, ls[0]), ls[1..])
  }

  lemma {:induction false} RunConcat(s: Sys, ls: seq<Label>, more: seq<Label>)
    ensures Run(s, ls + more) == Run(Run(s, ls), more)
    decreases |ls|
  {
    if ls == [] {
      assert ls + more == more;
    } else {
      assert (ls + more)[1..] == ls[1..] + more;
      RunConcat(Apply(s, ls[0]), ls[1..], more);
    }
  }
}
