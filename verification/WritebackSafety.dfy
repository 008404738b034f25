// What every run of the writeback protocol keeps: any number of trims, rollbacks and
// reconciliations, interleaved, killed or raising anywhere, with outside edits.
module WritebackSafety {
  import opened Options
  import opened Trim
  import opened Blocks
  import opened Writeback

  // ---- Evidence ------------------------------------------------------------------

  predicate Recorded(events: Events, sp: Spool) {
    forall i {:trigger sp.removed[i]} | 0 <= i < |sp.removed| ::
      Key(sp.removed[i], i + 1, sp.before) in events && events[Key(sp.removed[i], i + 1, sp.before)].content == sp.removed[i]
  }

  predicate EventsGrow(e: Events, e': Events) {
    forall k | k in e :: k in e' && e'[k].content == e[k].content && e'[k].op == e[k].op && e'[k].at == e[k].at
  }

  predicate EventsOk(d: Disk) {
    forall k | k in d.events ::
      && k.block == Sha256(d.events[k].content) && d.events[k].at <= d.clock
      && d.events[k].op in d.ops && d.ops[d.events[k].op].before == k.before
  }

  // A transaction that goes through leaves a row for every removed block, keeps the rows
  // that were there (tombstoned ones too), and adds no other row.
  lemma {:induction false} RecordEffect(events: Events, op: OpId, removed: seq<string>, before: Digest, now: nat, from: nat)
    requires from <= |removed|
    requires forall k | k in events :: k.block == Sha256(events[k].content)
    ensures var r := Record(events, op, removed, before, now, from);
            r.Some? ==>
              && (forall k | k in events :: k in r.value && r.value[k] == events[k])
              && (forall i {:trigger removed[i]} | from <= i < |removed| ::
                    Key(removed[i], i + 1, before) in r.value && r.value[Key(removed[i], i + 1, before)].content == removed[i])
              && (forall k | k in r.value && k !in events :: r.value[k] == RawEvent(r.value[k].content, op, now, Standing)
                    && k.before == before && k.block == Sha256(r.value[k].content))
    decreases |removed| - from
  {
    if from < |removed| {
      var k := Key(removed[from], from + 1, before);
      if k in events {
        RecordEffect(events, op, removed, before, now, from + 1);
      } else if !Clash(events, removed[from], now) {
        var events' := events[k := RawEvent(removed[from], op, now, Standing)];
        RecordEffect(events', op, removed, before, now, from + 1);
        var r := Record(events', op, removed, before, now, from + 1);
        if r.Some? {
          assert k in events' && r.value[k] == events'[k];
          forall j | j in events ensures j in r.value && r.value[j] == events[j] {
            assert j in events' && events'[j] == events[j];
          }
        }
      }
    }
  }

  // ---- The invariant ----------------------------------------------------------------

  predicate HasPlan(s: Sys, op: OpId)
    requires op in s.disk.ops && op in s.hist
  {
    s.planner(s.disk.ops[op].before.text, s.disk.target, s.hist[op].policy).Ok?
  }

  function PlanOf(s: Sys, op: OpId): Plan
    requires op in s.disk.ops && op in s.hist && HasPlan(s, op)
  {
    s.planner(s.disk.ops[op].before.text, s.disk.target, s.hist[op].policy).value
  }

  function ExactSpool(s: Sys, op: OpId): Spool
    requires op in s.disk.ops && op in s.hist && HasPlan(s, op)
  {
    SpoolOf(s.disk.ops[op].before.text, PlanOf(s, op))
  }

  // The spool of a trim is durable, pending or committed, and holds exactly what the trim
  // removes; it is committed only when the evidence is.
  predicate SpoolOk(s: Sys, op: OpId)
    requires op in s.disk.ops && op in s.hist
  {
    && HasPlan(s, op) && PlanOf(s, op).after != s.disk.ops[op].before.text
    && op in s.disk.dirs
    && var (dir, sp) := (s.disk.dirs[op], ExactSpool(s, op));
    && ((dir.pending == Whole(sp) && dir.committed == Absent) || (dir.pending == Absent && dir.committed == Whole(sp)))
    && (dir.committed.Whole? ==> Recorded(s.disk.events, sp))
  }

  predicate CommittedSpool(s: Sys, op: OpId) {
    op in s.disk.dirs && s.disk.dirs[op].committed.Whole?
  }

  predicate AfterOk(s: Sys, op: OpId)
    requires op in s.disk.ops && op in s.hist
  {
    var row := s.disk.ops[op];
    row.after.Some? ==>
      if !s.hist[op].trim then row.proposal.Some? && row.proposal.value in s.disk.ops
        && row.after.value == s.disk.ops[row.proposal.value].before
      else if row.kind == Rollback then true
      else if row.spoolRef then HasPlan(s, op) && row.after.value == Sha256(PlanOf(s, op).after)
      else row.after.value == row.before && op !in s.disk.dirs && op !in s.mains
  }

  // What the journal says of a trim that is over: whether it reached its target, or was stopped
  // because nothing could be removed. A trim with a spool has changed the text.
  predicate Outcome(planner: Planner, target: string, row: OpRow, h: Hist) {
    h.trim && row.state in {Completed, CompletedPartial, BlockedTargetUnreachable} ==>
      var r := planner(row.before.text, target, h.policy);
      && r.Ok? && row.error == (if row.state == Completed then None else Some(Error.TargetUnreachable))
      && (row.spoolRef <==> r.value.after != row.before.text)
      && row.state == (if row.spoolRef then (if r.value.reached then Completed else CompletedPartial)
                       else if r.value.reason == Reason.TargetUnreachable then BlockedTargetUnreachable else Completed)
  }

  predicate OpOk(s: Sys, op: OpId)
    requires op in s.disk.ops
  {
    && op in s.hist
    && var (row, h) := (s.disk.ops[op], s.hist[op]);
    && row.auth in s.disk.auths && s.disk.auths[row.auth] == Auth(op, row.kind, row.before, row.proposal, true)
    && (op in s.disk.dirs ==> h.trim)
    && (row.backupRef ==> op in s.disk.dirs && s.disk.dirs[op].backup == Whole(row.before.text))
    && (row.spoolRef ==> row.backupRef && SpoolOk(s, op) && row.state !in {Authorized, Locked, BackupDurable})
    && (op in s.disk.dirs && !row.spoolRef ==> s.disk.dirs[op].committed.Absent?)
    && (h.trim && h.replaced ==> row.spoolRef)
    && (row.rollbackAvailable ==> row.backupRef)
    && (row.spoolRef && row.state in {Completed, CompletedPartial} ==> CommittedSpool(s, op))
    && AfterOk(s, op) && Outcome(s.planner, s.disk.target, row, h)
  }

  predicate AuthOk(d: Disk, id: AuthId)
    requires id in d.auths
  {
    var a := d.auths[id];
    && (if a.consumed then a.op in d.ops && d.ops[a.op].auth == id else a.op !in d.ops)
    && forall j | j in d.auths && d.auths[j].op == a.op :: j == id
  }

  // Rank of the point in a trim. A conflict is met either at the first read or at the replacement.
  function TrimRank(pc: TrimPc): nat {
    match pc
    case BindParent => 0 case TakeLock => 1 case MarkLocked => 2 case ReadTarget => 3 case MarkUnchanged => 4
    case MakeDir => 5 case WriteBackup => 6 case MarkBackup => 7 case WriteSpool => 8 case MarkSpool => 9
    case Replace => 10 case MarkReplaced => 11 case ReadBack => 12 case MarkVerified => 13
    case RecordEvidence => 14 case RenameSpool => 15 case MarkFinal => 16 case DropRecovery => 17
    case MarkEdited(e) => if e == ExpectedHashMismatch then 3 else 10
  }

  // The private directory while the backup and the spool are being written.
  predicate DirAt(s: Sys, op: OpId, r: nat)
    requires op in s.disk.ops && op in s.hist && HasPlan(s, op)
  {
    && (5 < r ==> op in s.disk.dirs)
    && (r == 6 ==> s.disk.dirs[op] == FRESH_DIR)
    && (r == 7 ==> s.disk.dirs[op] == FRESH_DIR.(backup := Whole(s.disk.ops[op].before.text)))
    && (r == 8 ==> s.disk.dirs[op].pending.Absent?)
    && (r == 9 ==> s.disk.dirs[op].pending == Whole(ExactSpool(s, op)))
    && (r == 15 ==> Recorded(s.disk.events, ExactSpool(s, op)))
    && (r >= 16 ==> s.disk.dirs[op].committed.Whole?)
  }

  predicate TrimOk(s: Sys, op: OpId, m: Main)
    requires op in s.disk.ops && op in s.hist && m.TrimRun?
  {
    var (row, h, r) := (s.disk.ops[op], s.hist[op], TrimRank(m.pc));
    && h.trim && h.policy == m.policy
    && (r >= 2 ==> s.lock == MainHolds(op))
    && (r <= 5 ==> op !in s.disk.dirs)
    && (row.backupRef <==> r >= 8)
    && (row.spoolRef <==> r >= 10)
    && (h.replaced <==> r >= 11)
    && (r <= 11 && row.kind == LiveOverflowTrim ==> row.after.None?)
    && (r == 4 ==> HasPlan(s, op) && m.plan == PlanOf(s, op) && m.plan.after == row.before.text)
    && (r >= 5 && !m.pc.MarkEdited? ==>
          && HasPlan(s, op) && m.plan == PlanOf(s, op) && m.plan.after != row.before.text && m.seen.text == row.before.text
          && DirAt(s, op, r))
  }

  // Rank of the point in a rollback, for "before" and "after" the replacement.
  function UndoRank(pc: UndoPc): nat {
    match pc
    case UndoBindParent => 0 case ReadBackup => 1 case UndoTakeLock => 2 case UndoMarkLocked => 3 case UndoReadTarget => 4
    case UndoMarkEdited => 5 case UndoReplace => 6 case UndoMarkReplaced => 7 case UndoReadBack => 8 case UndoTombstone => 9
    case UndoMarkReconciled => 10 case UndoMarkSelf => 11 case UndoMarkOriginal => 12
  }

  predicate UndoOk(s: Sys, op: OpId, m: Main)
    requires op in s.disk.ops && op in s.hist && m.UndoRun?
  {
    var (row, r) := (s.disk.ops[op], UndoRank(m.upc));
    && !s.hist[op].trim && row.kind == Rollback && row.proposal == Some(m.original)
    && m.original in s.disk.ops && m.original != op
    && var original := s.disk.ops[m.original];
    && original.backupRef && m.snap.before == original.before
    && (original.kind == LiveOverflowTrim ==> original.after == Some(row.before))
    && (r >= 2 ==> m.data == original.before.text)
    && (3 <= r <= 8 ==> s.lock == MainHolds(op))
    && (r >= 6 ==> m.seen.text == row.before.text)
    && (s.hist[op].replaced <==> r >= 7)
    && (r == 4 || 6 <= r <= 7 ==> row.state == RollbackLocked) && (r == 8 ==> row.state == RollbackFileReplaced)
    && (r >= 9 ==> row.state !in {Authorized, RollbackLocked})
  }

  predicate MainOk(s: Sys, op: OpId)
    requires op in s.mains
  {
    && op in s.disk.ops && op in s.hist
    && match s.mains[op]
       case TrimRun(_, _, _, _) => TrimOk(s, op, s.mains[op])
       case UndoRun(_, _, _, _, _) => UndoOk(s, op, s.mains[op])
       case Handler(undo, read) =>
         && undo == !s.hist[op].trim && s.lock != MainHolds(op)
         && (read == Some(Authorized) || read == Some(Locked) ==> !s.disk.ops[op].spoolRef)
  }

  predicate MendInLock(pc: MendPc) {
    !pc.LoadSpool? && !pc.MendTakeLock?
  }

  predicate MenderOk(s: Sys, pid: Pid)
    requires pid in s.menders
  {
    var m := s.menders[pid];
    && m.op in s.disk.ops && m.op in s.hist
    && var row := s.disk.ops[m.op];
    && m.row.auth == row.auth && m.row.before == row.before && m.row.kind == row.kind && m.row.proposal == row.proposal
    && (MendInLock(m.pc) ==> s.lock == MenderHolds(pid))
    && (m.original.Some? <==> row.kind == Rollback)
    && (if m.original.Some? then
          && row.proposal.Some? && row.proposal.value in s.disk.ops
          && m.original.value.before == s.disk.ops[row.proposal.value].before
          && !m.pc.LoadSpool? && !m.pc.MendRecord? && !m.pc.MendRename? && !m.pc.MendMarkFinal? && !m.pc.MendDropRecovery?
          && (m.pc.UnwindMarkSelf? || m.pc.UnwindTombstone? ==> Sha256(m.seen.text) == m.original.value.before)
        else
          && row.spoolRef && SpoolOk(s, m.op)
          && !m.pc.UnwindTombstone? && !m.pc.UnwindMarkSelf? && !m.pc.UnwindMarkOriginal?
          && (!m.pc.LoadSpool? ==> m.spool == ExactSpool(s, m.op) && (!m.isPending ==> CommittedSpool(s, m.op)))
          && (m.pc.MendRename? ==> Recorded(s.disk.events, m.spool))
          && (m.pc.MendMarkFinal? || m.pc.MendDropRecovery? ==> CommittedSpool(s, m.op)))
  }

  ghost predicate OpsOk(s: Sys) {
    forall op {:trigger OpOk(s, op)} | op in s.disk.ops :: OpOk(s, op)
  }

  ghost predicate MainsOk(s: Sys) {
    forall op {:trigger MainOk(s, op)} | op in s.mains :: MainOk(s, op)
  }

  ghost predicate MendersOk(s: Sys) {
    forall pid {:trigger MenderOk(s, pid)} | pid in s.menders :: MenderOk(s, pid)
  }

  ghost predicate AuthsOk(d: Disk) {
    forall id {:trigger AuthOk(d, id)} | id in d.auths :: AuthOk(d, id)
  }

  predicate ShapeOk(s: Sys) {
    && s.hist.Keys == s.disk.ops.Keys
    && s.disk.dirs.Keys <= s.disk.ops.Keys && s.mains.Keys <= s.disk.ops.Keys
    && (s.lock.MainHolds? ==> s.lock.op in s.mains)
    && (s.lock.MenderHolds? ==> s.lock.pid in s.menders)
  }

  // What an open transaction would leave when it is committed.
  predicate HeldOk(s: Sys) {
    s.held.Some? ==> EventsGrow(s.disk.events, s.held.value) && EventsOk(s.disk.(events := s.held.value))
  }

  ghost predicate Inv(s: Sys) {
    ShapeOk(s) && OpsOk(s) && AuthsOk(s.disk) && MainsOk(s) && MendersOk(s) && EventsOk(s.disk) && HeldOk(s)
  }

  // ---- Frames ------------------------------------------------------------------------

  predicate RowGrows(r: OpRow, r': OpRow) {
    && r'.auth == r.auth && r'.kind == r.kind && r'.proposal == r.proposal && r'.before == r.before
    && (r.backupRef ==> r'.backupRef) && (r.spoolRef ==> r'.spoolRef)
    && (r.kind == LiveOverflowTrim && r.after.Some? ==> r'.after == r.after)
    && (r.backupRef && !r.rollbackAvailable ==> !r'.rollbackAvailable)
  }

  predicate HistGrows(h: Hist, h': Hist) {
    h'.trim == h.trim && h'.policy == h.policy && (h.replaced ==> h'.replaced)
  }

  // What no move ever takes back.
  ghost predicate Grows(s: Sys, s': Sys) {
    && s'.planner == s.planner && s'.disk.target == s.disk.target && s.disk.clock <= s'.disk.clock
    && (forall op | op in s.disk.ops :: op in s'.disk.ops && RowGrows(s.disk.ops[op], s'.disk.ops[op]))
    && (forall op | op in s.hist :: op in s'.hist && HistGrows(s.hist[op], s'.hist[op]))
    && (forall op | CommittedSpool(s, op) :: CommittedSpool(s', op))
    && EventsGrow(s.disk.events, s'.disk.events)
    && (forall id | id in s.disk.auths && s.disk.auths[id].consumed :: id in s'.disk.auths && s'.disk.auths[id] == s.disk.auths[id])
  }

  lemma GrowsTrans(s: Sys, mid: Sys, s': Sys)
    requires Grows(s, mid) && Grows(mid, s')
    ensures Grows(s, s')
  {
    forall op | op in s.disk.ops ensures op in s'.disk.ops && RowGrows(s.disk.ops[op], s'.disk.ops[op]) {
      assert RowGrows(s.disk.ops[op], mid.disk.ops[op]);
    }
    forall op | op in s.hist ensures op in s'.hist && HistGrows(s.hist[op], s'.hist[op]) {
      assert HistGrows(s.hist[op], mid.hist[op]);
    }
  }

  predicate SameOp(s: Sys, s': Sys, op: OpId)
    requires op in s.disk.ops && op in s.hist && op in s'.disk.ops && op in s'.hist
  {
    && s'.disk.ops[op] == s.disk.ops[op] && s'.hist[op] == s.hist[op]
    && (op in s'.disk.dirs <==> op in s.disk.dirs) && (op in s.disk.dirs ==> s'.disk.dirs[op] == s.disk.dirs[op])
    && (op in s'.mains <==> op in s.mains) && (op in s.mains ==> s'.mains[op] == s.mains[op])
  }

  predicate SameMender(s: Sys, s': Sys, pid: Pid) {
    (pid in s'.menders <==> pid in s.menders) && (pid in s.menders ==> s'.menders[pid] == s.menders[pid])
  }

  // A move of the operations X and the menders P.
  ghost predicate Move(s: Sys, s': Sys, X: set<OpId>, P: set<Pid>) {
    && Grows(s, s')
    && s'.disk.auths == s.disk.auths && s'.disk.ops.Keys == s.disk.ops.Keys && s'.hist.Keys == s.hist.Keys
    && s'.disk.dirs.Keys <= s'.disk.ops.Keys
    && (forall op {:trigger SameOp(s, s', op)} | op in s.disk.ops && op !in X && op in s.hist :: SameOp(s, s', op))
    && s'.mains.Keys <= s.mains.Keys
    && (forall pid {:trigger SameMender(s, s', pid)} | pid !in P :: SameMender(s, s', pid))
    && (s'.lock == s.lock
        || (s'.lock.Free? && Mover(s.lock, X, P))
        || (s.lock.Free? && Mover(s'.lock, X, P)))
  }

  predicate Mover(h: Holder, X: set<OpId>, P: set<Pid>) {
    match h
    case Free => false
    case MainHolds(op) => op in X
    case MenderHolds(pid) => pid in P
  }

  lemma FrameOp(s: Sys, s': Sys, op: OpId)
    requires op in s.disk.ops && OpOk(s, op) && Grows(s, s')
    requires s'.disk.auths == s.disk.auths
    requires SameOp(s, s', op)
    ensures OpOk(s', op)
  {
  }

  lemma FrameMain(s: Sys, s': Sys, op: OpId)
    requires op in s.mains && MainOk(s, op) && Grows(s, s')
    requires op in s.disk.ops && op in s.hist && SameOp(s, s', op)
    requires s'.lock == MainHolds(op) <==> s.lock == MainHolds(op)
    ensures MainOk(s', op)
  {
  }

  lemma FrameMender(s: Sys, s': Sys, pid: Pid)
    requires pid in s.menders && MenderOk(s, pid) && Grows(s, s') && SameMender(s, s', pid)
    requires OpOk(s', s.menders[pid].op)
    requires s'.lock == MenderHolds(pid) <==> s.lock == MenderHolds(pid)
    ensures MenderOk(s', pid)
  {
  }

  lemma MoveOps(s: Sys, s': Sys, X: set<OpId>, P: set<Pid>)
    requires OpsOk(s) && Move(s, s', X, P) && s.hist.Keys == s.disk.ops.Keys
    requires forall x | x in X && x in s'.disk.ops :: OpOk(s', x)
    ensures OpsOk(s')
  {
    forall op | op in s'.disk.ops ensures OpOk(s', op) {
      if op !in X {
        assert OpOk(s, op) && SameOp(s, s', op);
        FrameOp(s, s', op);
      }
    }
  }

  lemma MoveMains(s: Sys, s': Sys, X: set<OpId>, P: set<Pid>)
    requires MainsOk(s) && Move(s, s', X, P)
    requires forall x | x in X && x in s'.mains :: MainOk(s', x)
    ensures MainsOk(s')
  {
    forall op | op in s'.mains ensures MainOk(s', op) {
      if op !in X {
        assert MainOk(s, op) && SameOp(s, s', op);
        FrameMain(s, s', op);
      }
    }
  }

  lemma MoveMenders(s: Sys, s': Sys, X: set<OpId>, P: set<Pid>)
    requires MendersOk(s) && OpsOk(s') && Move(s, s', X, P)
    requires forall p | p in P && p in s'.menders :: MenderOk(s', p)
    ensures MendersOk(s')
  {
    forall pid | pid in s'.menders ensures MenderOk(s', pid) {
      if pid !in P {
        assert SameMender(s, s', pid) && MenderOk(s, pid) && OpOk(s', s.menders[pid].op);
        FrameMender(s, s', pid);
      }
    }
  }

  lemma MoveAuths(s: Sys, s': Sys, X: set<OpId>, P: set<Pid>)
    requires AuthsOk(s.disk) && Move(s, s', X, P)
    ensures AuthsOk(s'.disk)
  {
    forall id | id in s'.disk.auths ensures AuthOk(s'.disk, id) {
      assert AuthOk(s.disk, id);
    }
  }

  lemma MoveKeeps(s: Sys, s': Sys, X: set<OpId>, P: set<Pid>)
    requires Inv(s) && Move(s, s', X, P)
    requires forall x | x in X && x in s'.disk.ops :: OpOk(s', x)
    requires forall x | x in X && x in s'.mains :: MainOk(s', x)
    requires forall p | p in P && p in s'.menders :: MenderOk(s', p)
    requires EventsOk(s'.disk) && HeldOk(s') && ShapeOk(s')
    ensures Inv(s') && Grows(s, s')
  {
    MoveOps(s, s', X, P);
    MoveMains(s, s', X, P);
    MoveMenders(s, s', X, P);
    MoveAuths(s, s', X, P);
  }

  // A move that changes the row, directory and history of one operation only.
  ghost predicate DiskTouch(s: Sys, s': Sys, op: OpId)
    requires op in s.disk.ops && op in s.hist
  {
    && s'.planner == s.planner && s'.disk.target == s.disk.target && s.disk.clock <= s'.disk.clock && s'.disk.auths == s.disk.auths
    && op in s'.disk.ops && (s'.disk.ops == s.disk.ops || s'.disk.ops == s.disk.ops[op := s'.disk.ops[op]])
    && RowGrows(s.disk.ops[op], s'.disk.ops[op])
    && op in s'.hist && (s'.hist == s.hist || s'.hist == s.hist[op := s'.hist[op]])
    && HistGrows(s.hist[op], s'.hist[op])
    && (s'.disk.dirs == s.disk.dirs
        || (op in s'.disk.dirs && s'.disk.dirs == s.disk.dirs[op := s'.disk.dirs[op]]
            && (CommittedSpool(s, op) ==> CommittedSpool(s', op))))
    && s'.held == s.held && (s'.disk.events == s.disk.events || (s.held.None? && EventsGrow(s.disk.events, s'.disk.events)))
  }

  ghost predicate Touches(s: Sys, s': Sys, op: OpId)
    requires op in s.disk.ops && op in s.hist
  {
    && DiskTouch(s, s', op) && s'.menders == s.menders
    && (s'.mains == s.mains || (op in s.mains && op in s'.mains && s'.mains == s.mains[op := s'.mains[op]]) || s'.mains == s.mains - {op})
    && (s'.lock == s.lock || (s'.lock.Free? && s.lock == MainHolds(op)) || (s.lock.Free? && s'.lock == MainHolds(op)))
  }

  ghost predicate MenderTouches(s: Sys, s': Sys, op: OpId, pid: Pid)
    requires op in s.disk.ops && op in s.hist
  {
    && DiskTouch(s, s', op) && s'.mains == s.mains
    && (s'.menders == s.menders || (pid in s'.menders && s'.menders == s.menders[pid := s'.menders[pid]])
      || s'.menders == s.menders - {pid})
    && (s'.lock == s.lock || (s'.lock.Free? && s.lock == MenderHolds(pid)) || (s.lock.Free? && s'.lock == MenderHolds(pid)))
  }

  lemma TouchGrows(s: Sys, s': Sys, op: OpId)
    requires op in s.disk.ops && op in s.hist && DiskTouch(s, s', op)
    ensures Grows(s, s')
  {
    forall x | x in s.disk.ops ensures x in s'.disk.ops && RowGrows(s.disk.ops[x], s'.disk.ops[x]) {
      if x != op { assert s'.disk.ops[x] == s.disk.ops[x]; }
    }
    forall x | x in s.hist ensures x in s'.hist && HistGrows(s.hist[x], s'.hist[x]) {
      if x != op { assert s'.hist[x] == s.hist[x]; }
    }
    forall x | CommittedSpool(s, x) ensures CommittedSpool(s', x) {
      if x != op { assert s'.disk.dirs[x] == s.disk.dirs[x]; }
    }
  }

  lemma TouchSame(s: Sys, s': Sys, op: OpId, x: OpId)
    requires op in s.disk.ops && op in s.hist && DiskTouch(s, s', op)
    requires s'.mains == s.mains || (op in s'.mains && s'.mains == s.mains[op := s'.mains[op]]) || s'.mains == s.mains - {op}
    requires x in s.disk.ops && x in s.hist && x != op
    ensures x in s'.disk.ops && x in s'.hist && SameOp(s, s', x)
  {
  }

  lemma TouchMove(s: Sys, s': Sys, op: OpId)
    requires op in s.disk.ops && op in s.hist && Touches(s, s', op) && s.disk.dirs.Keys <= s.disk.ops.Keys
    ensures Move(s, s', {op}, {})
  {
    TouchGrows(s, s', op);
    assert s'.disk.ops.Keys == s.disk.ops.Keys && s'.hist.Keys == s.hist.Keys;
    forall x | x in s.disk.ops && x !in {op} && x in s.hist ensures SameOp(s, s', x) {
      TouchSame(s, s', op, x);
    }
  }

  lemma MenderTouchMove(s: Sys, s': Sys, op: OpId, pid: Pid)
    requires op in s.disk.ops && op in s.hist && MenderTouches(s, s', op, pid) && s.disk.dirs.Keys <= s.disk.ops.Keys
    ensures Move(s, s', {op}, {pid})
  {
    TouchGrows(s, s', op);
    assert s'.disk.ops.Keys == s.disk.ops.Keys && s'.hist.Keys == s.hist.Keys;
    forall x | x in s.disk.ops && x !in {op} && x in s.hist ensures SameOp(s, s', x) {
      TouchSame(s, s', op, x);
    }
  }

  // ---- Moves of one main process ---------------------------------------------------

  predicate Ready(s: Sys, op: OpId) {
    ShapeOk(s) && EventsOk(s.disk) && Running(s, op) && OpOk(s, op) && MainOk(s, op)
  }

  ghost predicate Local(s: Sys, s': Sys, op: OpId)
    requires op in s.disk.ops && op in s.hist
  {
    && Touches(s, s', op) && OpOk(s', op) && (op in s'.mains ==> MainOk(s', op)) && EventsOk(s'.disk) && ShapeOk(s')
  }

  lemma HeldStays(s: Sys, s': Sys, op: OpId)
    requires op in s.disk.ops && op in s.hist && DiskTouch(s, s', op) && HeldOk(s)
    ensures HeldOk(s')
  {
    if s.held.Some? {
      forall k | k in s.held.value ensures s.held.value[k].op in s'.disk.ops && s'.disk.ops[s.held.value[k].op].before == k.before {
        assert s.held.value[k].op in s.disk.ops;
      }
    }
  }

  lemma LocalKeeps(s: Sys, s': Sys, op: OpId)
    requires Inv(s) && op in s.disk.ops && op in s.hist && Local(s, s', op)
    ensures Inv(s') && Grows(s, s')
  {
    hide OpOk, MainOk, MenderOk, EventsGrow, RowGrows;
    TouchMove(s, s', op);
    assert HeldOk(s') by { HeldStays(s, s', op); }
    MoveKeeps(s, s', {op}, {});
  }

  lemma RaiseLocal(s: Sys, op: OpId)
    requires Ready(s, op)
    ensures Local(s, Raise(s, op), op)
  {
    hide Local, OpOk, MainOk, ShapeOk, EventsOk;
    if Raise(s, op) == EndMain(s, op) { EndLocal(s, op); } else { HandoverLocal(s, op); }
  }

  // A raise that a handler catches.
  lemma HandoverLocal(s: Sys, op: OpId)
    requires Ready(s, op) && Raise(s, op) != EndMain(s, op)
    ensures Local(s, Raise(s, op), op)
  {
    hide EventsOk;
  }

  lemma EndLocal(s: Sys, op: OpId)
    requires Ready(s, op)
    ensures Local(s, EndMain(s, op), op)
  {
  }

  // A move that changes nothing but the process's own place.
  lemma MainMoves(s: Sys, s': Sys, op: OpId)
    requires Ready(s, op) && op in s'.mains && s' == WithMain(s, op, s'.mains[op]) && MainOk(s', op)
    ensures Local(s, s', op)
  {
    assert OpOk(s', op);
  }

  // A move that takes the lock.
  lemma LockLocal(s: Sys, s': Sys, op: OpId)
    requires Ready(s, op) && s.lock.Free? && op in s.mains && op in s'.mains
    requires s' == WithMain(s.(lock := MainHolds(op)), op, s'.mains[op]) && MainOk(s', op)
    ensures Local(s, s', op)
  {
    assert OpOk(s', op);
  }

  // A move that changes the row, and goes on or ends.
  lemma RowLocal(s: Sys, s': Sys, op: OpId)
    requires Ready(s, op) && op in s'.mains && op in s'.disk.ops
    requires s' == WithMain(WithRow(s, op, s'.disk.ops[op]), op, s'.mains[op]) && RowGrows(s.disk.ops[op], s'.disk.ops[op])
    requires OpOk(s', op) && MainOk(s', op)
    ensures Local(s, s', op)
  {
    hide OpOk, MainOk;
  }

  lemma RowEndLocal(s: Sys, s': Sys, op: OpId)
    requires Ready(s, op) && op in s'.disk.ops
    requires s' == EndMain(WithRow(s, op, s'.disk.ops[op]), op) && RowGrows(s.disk.ops[op], s'.disk.ops[op]) && OpOk(s', op)
    ensures Local(s, s', op)
  {
    hide OpOk, MainOk;
  }

  // A move that changes the private directory of the operation.
  lemma DirLocal(s: Sys, s': Sys, op: OpId)
    requires Ready(s, op) && op in s'.mains && op in s'.disk.dirs
    requires s' == WithMain(WithDir(s, op, s'.disk.dirs[op]), op, s'.mains[op]) && (CommittedSpool(s, op) ==> CommittedSpool(s', op))
    requires OpOk(s', op) && MainOk(s', op)
    ensures Local(s, s', op)
  {
    hide OpOk, MainOk;
  }

  lemma TrimStartLocal(s: Sys, op: OpId)
    requires Ready(s, op) && s.mains[op].TrimRun?
    requires s.mains[op].pc in {BindParent, TakeLock, MarkLocked, MarkUnchanged}
    ensures Local(s, TrimStep(s, op), op)
  {
    var s' := TrimStep(s, op);
    match s.mains[op].pc
    case TakeLock => if s.lock.Free? { LockLocal(s, s', op); } else { MainMoves(s, s', op); }
    case MarkUnchanged => RowEndLocal(s, s', op);
    case _ => RowLocal(s, s', op);
  }

  lemma TrimEditedLocal(s: Sys, op: OpId)
    requires Ready(s, op) && s.mains[op].TrimRun? && s.mains[op].pc.MarkEdited?
    ensures Local(s, TrimStep(s, op), op)
  {
    RowEndLocal(s, TrimStep(s, op), op);
  }

  lemma TrimReadLocal(s: Sys, op: OpId)
    requires Ready(s, op) && s.mains[op].TrimRun? && s.mains[op].pc.ReadTarget?
    ensures Local(s, TrimStep(s, op), op)
  {
    hide OpOk, ShapeOk, EventsOk, Local, MainOk, TrimStep;
    RaiseLocal(s, op);
    TrimReadOk(s, op);
    var s' := TrimStep(s, op);
    if s' != Raise(s, op) { MainMoves(s, s', op); }
  }

  lemma TrimReadOk(s: Sys, op: OpId)
    requires Ready(s, op) && s.mains[op].TrimRun? && s.mains[op].pc.ReadTarget?
    ensures var s' := TrimStep(s, op); s' == Raise(s, op) || (op in s'.mains && s' == WithMain(s, op, s'.mains[op]) && MainOk(s', op))
  {
    hide Raise, SpoolOk, AfterOk, EventsOk;
  }

  lemma TrimMakeDirLocal(s: Sys, op: OpId)
    requires Ready(s, op) && s.mains[op].TrimRun? && s.mains[op].pc.MakeDir?
    ensures Local(s, TrimStep(s, op), op)
  {
  }

  lemma TrimWriteBackupLocal(s: Sys, op: OpId)
    requires Ready(s, op) && s.mains[op].TrimRun? && s.mains[op].pc.WriteBackup?
    ensures Local(s, TrimStep(s, op), op)
  {
  }

  lemma TrimMarkBackupLocal(s: Sys, op: OpId)
    requires Ready(s, op) && s.mains[op].TrimRun? && s.mains[op].pc.MarkBackup?
    ensures Local(s, TrimStep(s, op), op)
  {
    RowLocal(s, TrimStep(s, op), op);
  }

  lemma TrimWriteSpoolLocal(s: Sys, op: OpId)
    requires Ready(s, op) && s.mains[op].TrimRun? && s.mains[op].pc.WriteSpool?
    ensures Local(s, TrimStep(s, op), op)
  {
  }

  lemma TrimMarkSpoolLocal(s: Sys, op: OpId)
    requires Ready(s, op) && s.mains[op].TrimRun? && s.mains[op].pc.MarkSpool?
    ensures Local(s, TrimStep(s, op), op)
  {
    RowLocal(s, TrimStep(s, op), op);
  }

  lemma ReplaceStale(s: Sys, op: OpId)
    requires Running(s, op) && MainOk(s, op) && s.mains[op].TrimRun? && s.mains[op].pc.Replace? && s.disk.file != s.mains[op].seen
    ensures var s' := TrimStep(s, op); op in s'.mains && s' == WithMain(s, op, s'.mains[op]) && MainOk(s', op)
  {
  }

  lemma ReplaceOk(s: Sys, op: OpId)
    requires Ready(s, op) && s.mains[op].TrimRun? && s.mains[op].pc.Replace? && s.disk.file == s.mains[op].seen
    ensures var s' := TrimStep(s, op); op in s'.mains && op in s'.disk.ops && OpOk(s', op) && MainOk(s', op)
  {
  }

  lemma TrimReplaceLocal(s: Sys, op: OpId)
    requires Ready(s, op) && s.mains[op].TrimRun? && s.mains[op].pc.Replace?
    ensures Local(s, TrimStep(s, op), op)
  {
    var s' := TrimStep(s, op);
    if s.disk.file != s.mains[op].seen {
      ReplaceStale(s, op);
      MainMoves(s, s', op);
    } else {
      ReplaceOk(s, op);
      assert s'.hist[op] == s.hist[op].(replaced := true);
    }
  }

  lemma TrimMarkReplacedLocal(s: Sys, op: OpId)
    requires Ready(s, op) && s.mains[op].TrimRun? && s.mains[op].pc.MarkReplaced?
    ensures Local(s, TrimStep(s, op), op)
  {
    RowLocal(s, TrimStep(s, op), op);
  }

  lemma TrimMarkVerifiedLocal(s: Sys, op: OpId)
    requires Ready(s, op) && s.mains[op].TrimRun? && s.mains[op].pc.MarkVerified?
    ensures Local(s, TrimStep(s, op), op)
  {
    RowLocal(s, TrimStep(s, op), op);
  }

  lemma TrimReadBackLocal(s: Sys, op: OpId)
    requires Ready(s, op) && s.mains[op].TrimRun? && s.mains[op].pc.ReadBack?
    ensures Local(s, TrimStep(s, op), op)
  {
    RaiseLocal(s, op);
  }

  lemma TrimRecordLocal(s: Sys, op: OpId)
    requires s.held.None? && Ready(s, op) && s.mains[op].TrimRun? && s.mains[op].pc.RecordEvidence?
    ensures Local(s, TrimStep(s, op), op)
  {
    RaiseLocal(s, op);
    if op in s.disk.dirs && s.disk.dirs[op].pending.Whole? {
      var sp := ExactSpool(s, op);
      assert s.disk.dirs[op].pending == Whole(sp) && sp.before == Sha256(s.mains[op].seen.text);
      RecordGrows(s.disk, op, sp);
      var r := Record(s.disk.events, op, sp.removed, sp.before, s.disk.clock, 0);
      if r.Some? { RecordedLocal(s, op, r.value); }
    }
  }

  lemma RecordedLocal(s: Sys, op: OpId, events: Events)
    requires s.held.None? && Ready(s, op) && s.mains[op].TrimRun? && s.mains[op].pc.RecordEvidence?
    requires EventsGrow(s.disk.events, events) && EventsOk(s.disk.(events := events)) && Recorded(events, ExactSpool(s, op))
    ensures Local(s, WithMain(s.(disk := s.disk.(events := events)), op, s.mains[op].(pc := RenameSpool)), op)
  {
  }

  lemma RecordGrows(d: Disk, op: OpId, sp: Spool)
    requires EventsOk(d) && op in d.ops && d.ops[op].before == sp.before
    ensures var r := Record(d.events, op, sp.removed, sp.before, d.clock, 0);
            r.Some? ==> EventsGrow(d.events, r.value) && EventsOk(d.(events := r.value)) && Recorded(r.value, sp)
  {
    RecordEffect(d.events, op, sp.removed, sp.before, d.clock, 0);
  }

  lemma TrimRenameLocal(s: Sys, op: OpId)
    requires Ready(s, op) && s.mains[op].TrimRun? && s.mains[op].pc.RenameSpool?
    ensures Local(s, TrimStep(s, op), op)
  {
    if s.disk.dirs[op].pending.Absent? {
      RaiseLocal(s, op);
    } else {
      RenameOk(s, op, WithDir(s, op, Renamed(s.disk.dirs[op])));
      TrimRenamed(s, op);
      DirLocal(s, TrimStep(s, op), op);
    }
  }

  // The rename commits a spool whose blocks are all in evidence.
  lemma RenameOk(s: Sys, op: OpId, mid: Sys)
    requires op in s.disk.ops && OpOk(s, op) && s.disk.ops[op].spoolRef && !s.disk.dirs[op].pending.Absent?
    requires Recorded(s.disk.events, ExactSpool(s, op)) && mid == WithDir(s, op, Renamed(s.disk.dirs[op]))
    ensures OpOk(mid, op) && CommittedSpool(mid, op)
  {
  }

  lemma RenameTouches(s: Sys, op: OpId, mid: Sys)
    requires op in s.disk.ops && OpOk(s, op) && s.disk.ops[op].spoolRef && !s.disk.dirs[op].pending.Absent?
    requires Recorded(s.disk.events, ExactSpool(s, op)) && mid == WithDir(s, op, Renamed(s.disk.dirs[op]))
    ensures DiskTouch(s, mid, op) && OpOk(mid, op) && CommittedSpool(mid, op)
  {
    RenameOk(s, op, mid);
  }

  lemma TrimRenamed(s: Sys, op: OpId)
    requires Ready(s, op) && s.mains[op].TrimRun? && s.mains[op].pc.RenameSpool? && !s.disk.dirs[op].pending.Absent?
    requires OpOk(WithDir(s, op, Renamed(s.disk.dirs[op])), op)
    ensures var s' := TrimStep(s, op);
            && op in s'.mains && op in s'.disk.dirs && s' == WithMain(WithDir(s, op, s'.disk.dirs[op]), op, s'.mains[op])
            && CommittedSpool(s', op) && OpOk(s', op) && MainOk(s', op)
  {
  }

  lemma TrimMarkFinalLocal(s: Sys, op: OpId)
    requires Ready(s, op) && s.mains[op].TrimRun? && s.mains[op].pc.MarkFinal?
    ensures Local(s, TrimStep(s, op), op)
  {
    RowLocal(s, TrimStep(s, op), op);
  }

  lemma TrimDropLocal(s: Sys, op: OpId)
    requires Ready(s, op) && s.mains[op].TrimRun? && s.mains[op].pc.DropRecovery?
    ensures Local(s, TrimStep(s, op), op)
  {
  }

  lemma TrimLocal(s: Sys, op: OpId)
    requires !Waits(s, op) && Ready(s, op) && s.mains[op].TrimRun?
    ensures Local(s, TrimStep(s, op), op)
  {
    match s.mains[op].pc
    case BindParent | TakeLock | MarkLocked | MarkUnchanged => TrimStartLocal(s, op);
    case MarkEdited(_) => TrimEditedLocal(s, op);
    case ReadTarget => TrimReadLocal(s, op);
    case MakeDir => TrimMakeDirLocal(s, op);
    case WriteBackup => TrimWriteBackupLocal(s, op);
    case MarkBackup => TrimMarkBackupLocal(s, op);
    case WriteSpool => TrimWriteSpoolLocal(s, op);
    case MarkSpool => TrimMarkSpoolLocal(s, op);
    case Replace => TrimReplaceLocal(s, op);
    case MarkReplaced => TrimMarkReplacedLocal(s, op);
    case ReadBack => TrimReadBackLocal(s, op);
    case MarkVerified => TrimMarkVerifiedLocal(s, op);
    case RecordEvidence => TrimRecordLocal(s, op);
    case RenameSpool => TrimRenameLocal(s, op);
    case MarkFinal => TrimMarkFinalLocal(s, op);
    case DropRecovery => TrimDropLocal(s, op);
  }

  lemma TearEndLocal(s: Sys, op: OpId)
    requires Ready(s, op) && Tearable(s, op)
    ensures Local(s, EndMain(TearFile(s, op), op), op)
  {
  }

  lemma TearRaiseLocal(s: Sys, op: OpId)
    requires Ready(s, op) && Tearable(s, op)
    ensures Local(s, Raise(TearFile(s, op), op), op)
  {
  }

  lemma HandlerLocal(s: Sys, op: OpId)
    requires Ready(s, op) && s.mains[op].Handler?
    ensures Local(s, HandlerStep(s, op), op)
  {
    var s' := HandlerStep(s, op);
    if s.mains[op].read.None? { MainMoves(s, s', op); } else { RowEndLocal(s, s', op); }
  }

  lemma UndoBindLocal(s: Sys, op: OpId)
    requires Ready(s, op) && s.mains[op].UndoRun? && s.mains[op].upc in {UndoBindParent, UndoTakeLock}
    ensures Local(s, UndoStep(s, op), op)
  {
  }

  lemma UndoLockedLocal(s: Sys, op: OpId)
    requires Ready(s, op) && s.mains[op].UndoRun? && s.mains[op].upc.UndoMarkLocked?
    ensures Local(s, UndoStep(s, op), op)
  {
    RowLocal(s, UndoStep(s, op), op);
  }

  lemma UndoReadLocal(s: Sys, op: OpId)
    requires Ready(s, op) && s.mains[op].UndoRun? && s.mains[op].upc.UndoReadTarget?
    ensures Local(s, UndoStep(s, op), op)
  {
    UndoReadOk(s, op);
    MainMoves(s, UndoStep(s, op), op);
  }

  lemma UndoReadOk(s: Sys, op: OpId)
    requires Running(s, op) && MainOk(s, op) && s.mains[op].UndoRun? && s.mains[op].upc.UndoReadTarget?
    ensures var s' := UndoStep(s, op); op in s'.mains && s' == WithMain(s, op, s'.mains[op]) && MainOk(s', op)
  {
  }

  lemma UndoEditedLocal(s: Sys, op: OpId)
    requires Ready(s, op) && s.mains[op].UndoRun? && s.mains[op].upc.UndoMarkEdited?
    ensures Local(s, UndoStep(s, op), op)
  {
    RowEndLocal(s, UndoStep(s, op), op);
  }

  lemma UndoBackupLocal(s: Sys, op: OpId)
    requires Ready(s, op) && s.mains[op].UndoRun? && s.mains[op].upc.ReadBackup?
    requires OpsOk(s)
    ensures Local(s, UndoStep(s, op), op)
  {
    assert OpOk(s, s.mains[op].original);
    RaiseLocal(s, op);
  }

  lemma UndoStale(s: Sys, op: OpId)
    requires Running(s, op) && MainOk(s, op) && s.mains[op].UndoRun? && s.mains[op].upc.UndoReplace? && s.disk.file != s.mains[op].seen
    ensures var s' := UndoStep(s, op); op in s'.mains && s' == WithMain(s, op, s'.mains[op]) && MainOk(s', op)
  {
  }

  lemma UndoReplaceOk(s: Sys, op: OpId)
    requires Ready(s, op) && s.mains[op].UndoRun? && s.mains[op].upc.UndoReplace? && s.disk.file == s.mains[op].seen
    ensures var s' := UndoStep(s, op); op in s'.mains && op in s'.disk.ops && OpOk(s', op) && MainOk(s', op)
  {
  }

  lemma UndoReplaceLocal(s: Sys, op: OpId)
    requires Ready(s, op) && s.mains[op].UndoRun? && s.mains[op].upc.UndoReplace?
    ensures Local(s, UndoStep(s, op), op)
  {
    var s' := UndoStep(s, op);
    if s.disk.file != s.mains[op].seen {
      UndoStale(s, op);
      MainMoves(s, s', op);
    } else {
      UndoReplaceOk(s, op);
      assert s'.hist[op] == s.hist[op].(replaced := true);
    }
  }

  lemma UndoMarkReplacedLocal(s: Sys, op: OpId)
    requires Ready(s, op) && s.mains[op].UndoRun? && s.mains[op].upc.UndoMarkReplaced?
    ensures Local(s, UndoStep(s, op), op)
  {
    RowLocal(s, UndoStep(s, op), op);
  }

  lemma UndoReadBackLocal(s: Sys, op: OpId)
    requires Ready(s, op) && s.mains[op].UndoRun? && s.mains[op].upc.UndoReadBack?
    ensures Local(s, UndoStep(s, op), op)
  {
    if Sha256(s.disk.file.text) != s.mains[op].snap.before { RaiseLocal(s, op); } else { UnlockLocal(s, op); }
  }

  lemma UnlockLocal(s: Sys, op: OpId)
    requires Ready(s, op) && s.mains[op].UndoRun? && s.mains[op].upc.UndoReadBack?
    requires Sha256(s.disk.file.text) == s.mains[op].snap.before
    ensures Local(s, UndoStep(s, op), op)
  {
    hide SpoolOk, EventsOk;
  }

  lemma TombstoneGrows(d: Disk, op: OpId)
    requires EventsOk(d)
    ensures EventsGrow(d.events, Tombstone(d.events, op)) && EventsOk(d.(events := Tombstone(d.events, op)))
  {
  }

  lemma UndoTombstoneLocal(s: Sys, op: OpId)
    requires s.held.None? && Ready(s, op) && s.mains[op].UndoRun? && s.mains[op].upc.UndoTombstone?
    ensures Local(s, UndoStep(s, op), op)
  {
    TombstoneGrows(s.disk, s.mains[op].original);
  }

  lemma UndoMarksLocal(s: Sys, op: OpId)
    requires Ready(s, op) && s.mains[op].UndoRun? && s.mains[op].upc in {UndoMarkReconciled, UndoMarkSelf}
    ensures Local(s, UndoStep(s, op), op)
  {
    RowLocal(s, UndoStep(s, op), op);
  }

  lemma UndoLocal(s: Sys, op: OpId)
    requires !Waits(s, op) && Ready(s, op) && s.mains[op].UndoRun? && OpsOk(s) && !s.mains[op].upc.UndoMarkOriginal?
    ensures Local(s, UndoStep(s, op), op)
  {
    match s.mains[op].upc
    case UndoBindParent | UndoTakeLock => UndoBindLocal(s, op);
    case ReadBackup => UndoBackupLocal(s, op);
    case UndoMarkLocked => UndoLockedLocal(s, op);
    case UndoReadTarget => UndoReadLocal(s, op);
    case UndoMarkEdited => UndoEditedLocal(s, op);
    case UndoReplace => UndoReplaceLocal(s, op);
    case UndoMarkReplaced => UndoMarkReplacedLocal(s, op);
    case UndoReadBack => UndoReadBackLocal(s, op);
    case UndoTombstone => UndoTombstoneLocal(s, op);
    case UndoMarkReconciled | UndoMarkSelf => UndoMarksLocal(s, op);
  }

  // Marking the original operation leaves its process, if any, where it is.
  lemma MarkUndoneLocal(s: Sys, original: OpId)
    requires ShapeOk(s) && EventsOk(s.disk) && original in s.disk.ops && original in s.hist && OpOk(s, original)
    requires original in s.mains ==> MainOk(s, original) && !(s.mains[original].UndoRun? && s.lock == MainHolds(original))
    ensures Local(s, Mark(s, original, ORIGINAL_UNDONE), original)
  {
  }

  lemma MarkUndoneKeeps(s: Sys, original: OpId)
    requires Inv(s) && original in s.disk.ops
    requires original in s.mains ==> !(s.mains[original].UndoRun? && s.lock == MainHolds(original))
    ensures var mid := Mark(s, original, ORIGINAL_UNDONE); Inv(mid) && Grows(s, mid)
  {
    assert OpOk(s, original) && (original in s.mains ==> MainOk(s, original));
    MarkUndoneLocal(s, original);
    LocalKeeps(s, Mark(s, original, ORIGINAL_UNDONE), original);
  }

  lemma MarkThenEndKeeps(s: Sys, original: OpId, op: OpId)
    requires Inv(s) && original in s.disk.ops
    requires original in s.mains ==> !(s.mains[original].UndoRun? && s.lock == MainHolds(original))
    ensures var s' := EndMain(Mark(s, original, ORIGINAL_UNDONE), op); Inv(s') && Grows(s, s')
  {
    hide Inv, Grows, Altered;
    var mid := Mark(s, original, ORIGINAL_UNDONE);
    MarkUndoneKeeps(s, original);
    MainEndKeeps(mid, op, Kill(op));
    GrowsTrans(s, mid, EndMain(mid, op));
  }

  lemma UndoMarkOriginalKeeps(s: Sys, op: OpId)
    requires Inv(s) && Running(s, op) && s.mains[op].UndoRun? && s.mains[op].upc.UndoMarkOriginal?
    ensures Inv(UndoStep(s, op)) && Grows(s, UndoStep(s, op))
  {
    var original := s.mains[op].original;
    OriginalIdle(s, op);
    MarkThenEndKeeps(s, original, op);
  }

  // The operation that a rollback undoes was run as a trim.
  lemma OriginalIdle(s: Sys, op: OpId)
    requires MainsOk(s) && OpsOk(s) && op in s.mains && s.mains[op].UndoRun?
    ensures s.mains[op].original in s.disk.ops
    ensures s.mains[op].original in s.mains ==> !s.mains[s.mains[op].original].UndoRun?
  {
    var original := s.mains[op].original;
    assert MainOk(s, op) && OpOk(s, original);
    assert original in s.mains ==> MainOk(s, original);
  }

  lemma MainStepKeeps(s: Sys, op: OpId)
    requires Inv(s) && !Waits(s, op) && Running(s, op)
    ensures Inv(Apply(s, Step(op))) && Grows(s, Apply(s, Step(op)))
  {
    hide Grows, Local, OpOk, MainOk;
    assert OpOk(s, op) && MainOk(s, op);
    if s.mains[op].TrimRun? {
      TrimLocal(s, op);
      LocalKeeps(s, TrimStep(s, op), op);
    } else if s.mains[op].Handler? {
      HandlerLocal(s, op);
      LocalKeeps(s, HandlerStep(s, op), op);
    } else if s.mains[op].upc.UndoMarkOriginal? {
      UndoMarkOriginalKeeps(s, op);
    } else {
      UndoLocal(s, op);
      LocalKeeps(s, UndoStep(s, op), op);
    }
  }

  lemma ReadyAt(s: Sys, op: OpId)
    requires Inv(s) && Running(s, op)
    ensures Ready(s, op)
  {
    assert OpOk(s, op) && MainOk(s, op);
  }

  lemma NotRunning(s: Sys, op: OpId)
    requires Inv(s) && !Running(s, op)
    ensures EndMain(s, op) == s && Grows(s, s)
  {
    hide OpsOk, AuthsOk, MainsOk, MendersOk, EventsOk, HeldOk;
    assert s.mains - {op} == s.mains && s.lock != MainHolds(op);
  }

  lemma MainEndKeeps(s: Sys, op: OpId, l: Label)
    requires Inv(s) && (l == Fault(op) || l == Kill(op) || l == Tear(op, true) || l == Tear(op, false))
    ensures Inv(Apply(s, l)) && Grows(s, Apply(s, l))
  {
    hide Ready, Local, Inv, Grows;
    Same(s);
    if Running(s, op) {
      ReadyAt(s, op);
      match l
      case Fault(_) => RaiseLocal(s, op); LocalKeeps(s, Raise(s, op), op);
      case Kill(_) => EndLocal(s, op); LocalKeeps(s, EndMain(s, op), op);
      case Tear(_, caught) =>
        if Tearable(s, op) {
          if caught {
            TearRaiseLocal(s, op);
            LocalKeeps(s, Raise(TearFile(s, op), op), op);
          } else {
            TearEndLocal(s, op);
            LocalKeeps(s, EndMain(TearFile(s, op), op), op);
          }
        }
    } else if l.Kill? {
      NotRunning(s, op);
    }
  }

  // ---- Moves of one reconciliation -------------------------------------------------

  predicate MenderReady(s: Sys, pid: Pid) {
    && ShapeOk(s) && EventsOk(s.disk) && pid in s.menders && MenderOk(s, pid) && OpOk(s, s.menders[pid].op)
    && (s.menders[pid].op in s.mains ==> MainOk(s, s.menders[pid].op))
  }

  ghost predicate MenderLocal(s: Sys, s': Sys, op: OpId, pid: Pid)
    requires op in s.disk.ops && op in s.hist
  {
    && MenderTouches(s, s', op, pid) && OpOk(s', op) && (op in s'.mains ==> MainOk(s', op))
    && (pid in s'.menders ==> MenderOk(s', pid)) && EventsOk(s'.disk) && ShapeOk(s')
  }

  lemma MenderLocalKeeps(s: Sys, s': Sys, op: OpId, pid: Pid)
    requires Inv(s) && op in s.disk.ops && op in s.hist && MenderLocal(s, s', op, pid)
    ensures Inv(s') && Grows(s, s')
  {
    hide OpOk, MainOk, MenderOk, EventsGrow, RowGrows;
    MenderTouchMove(s, s', op, pid);
    assert HeldOk(s') by { HeldStays(s, s', op); }
    MoveKeeps(s, s', {op}, {pid});
  }

  lemma EndMenderLocal(s: Sys, pid: Pid)
    requires MenderReady(s, pid)
    ensures MenderLocal(s, EndMender(s, pid), s.menders[pid].op, pid)
  {
  }

  // A move that changes nothing but the reconciliation's own place.
  lemma MenderMoves(s: Sys, s': Sys, pid: Pid)
    requires MenderReady(s, pid) && pid in s'.menders && s' == WithMender(s, pid, s'.menders[pid]) && MenderOk(s', pid)
    ensures MenderLocal(s, s', s.menders[pid].op, pid)
  {
    var op := s.menders[pid].op;
    assert OpOk(s', op);
    assert op in s'.mains ==> MainOk(s', op);
  }

  lemma MenderLocks(s: Sys, s': Sys, pid: Pid)
    requires MenderReady(s, pid) && s.lock.Free? && pid in s'.menders
    requires s' == WithMender(s.(lock := MenderHolds(pid)), pid, s'.menders[pid]) && MenderOk(s', pid)
    ensures MenderLocal(s, s', s.menders[pid].op, pid)
  {
    var op := s.menders[pid].op;
    assert OpOk(s', op);
    assert op in s'.mains ==> MainOk(s', op);
  }

  // A move that changes the row of its operation, and goes on or ends.
  ghost predicate MenderRow(s: Sys, mid: Sys, pid: Pid)
    requires MenderReady(s, pid)
  {
    var op := s.menders[pid].op;
    && op in mid.disk.ops && mid == WithRow(s, op, mid.disk.ops[op]) && RowGrows(s.disk.ops[op], mid.disk.ops[op])
    && OpOk(mid, op) && (op in mid.mains ==> MainOk(mid, op))
  }

  lemma MenderRowLocal(s: Sys, s': Sys, pid: Pid)
    requires MenderReady(s, pid) && s.menders[pid].op in s'.disk.ops && pid in s'.menders && MenderOk(s', pid)
    requires var mid := WithRow(s, s.menders[pid].op, s'.disk.ops[s.menders[pid].op]);
             MenderRow(s, mid, pid) && s' == WithMender(mid, pid, s'.menders[pid])
    ensures MenderLocal(s, s', s.menders[pid].op, pid)
  {
    hide MenderOk;
  }

  lemma MenderRowEndLocal(s: Sys, s': Sys, pid: Pid)
    requires MenderReady(s, pid) && s.menders[pid].op in s'.disk.ops
    requires var mid := WithRow(s, s.menders[pid].op, s'.disk.ops[s.menders[pid].op]);
             MenderRow(s, mid, pid) && s' == EndMender(mid, pid)
    ensures MenderLocal(s, s', s.menders[pid].op, pid)
  {
    hide MenderOk, MainOk, SpoolOk, AfterOk;
    EndKeepsRow(WithRow(s, s.menders[pid].op, s'.disk.ops[s.menders[pid].op]), s.menders[pid].op, pid);
  }

  lemma EndKeepsRow(s: Sys, op: OpId, pid: Pid)
    requires op in s.disk.ops && OpOk(s, op) && (op in s.mains ==> MainOk(s, op))
    ensures var s' := EndMender(s, pid); OpOk(s', op) && (op in s'.mains ==> MainOk(s', op))
  {
    hide Recorded;
  }

  lemma MendLoadOk(s: Sys, pid: Pid)
    requires pid in s.menders && MenderOk(s, pid) && s.menders[pid].pc.LoadSpool?
    ensures var s' := MendStep(s, pid);
            if pid in s'.menders then s' == WithMender(s, pid, s'.menders[pid]) && MenderOk(s', pid) else s' == EndMender(s, pid)
  {
  }

  lemma MendLoadLocal(s: Sys, pid: Pid)
    requires MenderReady(s, pid) && s.menders[pid].pc.LoadSpool?
    ensures MenderLocal(s, MendStep(s, pid), s.menders[pid].op, pid)
  {
    hide MendStep;
    EndMenderLocal(s, pid);
    MendLoadOk(s, pid);
    var s' := MendStep(s, pid);
    if pid in s'.menders { MenderMoves(s, s', pid); }
  }

  lemma MendTakeLockLocal(s: Sys, pid: Pid)
    requires MenderReady(s, pid) && s.menders[pid].pc.MendTakeLock?
    ensures MenderLocal(s, MendStep(s, pid), s.menders[pid].op, pid)
  {
    var s' := MendStep(s, pid);
    if s.lock.Free? { MenderLocks(s, s', pid); } else { MenderMoves(s, s', pid); }
  }

  lemma MendJudgeOk(s: Sys, pid: Pid)
    requires pid in s.menders && MenderOk(s, pid) && s.menders[pid].pc.Judge?
    ensures var s' := MendStep(s, pid); pid in s'.menders && s' == WithMender(s, pid, s'.menders[pid]) && MenderOk(s', pid)
  {
  }

  lemma MendJudgeLocal(s: Sys, pid: Pid)
    requires MenderReady(s, pid) && s.menders[pid].pc.Judge?
    ensures MenderLocal(s, MendStep(s, pid), s.menders[pid].op, pid)
  {
    MendJudgeOk(s, pid);
    MenderMoves(s, MendStep(s, pid), pid);
  }

  lemma MendRecheckOk(s: Sys, pid: Pid)
    requires pid in s.menders && MenderOk(s, pid) && s.menders[pid].pc.Recheck?
    ensures var s' := MendStep(s, pid); pid in s'.menders && s' == WithMender(s, pid, s'.menders[pid]) && MenderOk(s', pid)
  {
    hide Recorded, Altered, Renamed, Record;
  }

  lemma MendRecheckLocal(s: Sys, pid: Pid)
    requires MenderReady(s, pid) && s.menders[pid].pc.Recheck?
    ensures MenderLocal(s, MendStep(s, pid), s.menders[pid].op, pid)
  {
    MendRecheckOk(s, pid);
    MenderMoves(s, MendStep(s, pid), pid);
  }

  lemma MendRecordLocal(s: Sys, pid: Pid)
    requires s.held.None? && MenderReady(s, pid) && s.menders[pid].pc.MendRecord? && !Refused(s, pid)
    ensures MenderLocal(s, MendStep(s, pid), s.menders[pid].op, pid)
  {
    var m := s.menders[pid];
    RecordGrows(s.disk, m.op, m.spool);
    MendRecordedLocal(s, pid, Record(s.disk.events, m.op, m.spool.removed, m.spool.before, s.disk.clock, 0).value);
  }

  // The evidence transaction of the reconciliation fails.
  predicate Refused(s: Sys, pid: Pid)
    requires pid in s.menders
  {
    var m := s.menders[pid];
    m.pc.MendRecord? && Record(s.disk.events, m.op, m.spool.removed, m.spool.before, s.disk.clock, 0).None?
  }

  // A transaction that goes through has inserted what it records.
  lemma {:induction false} RecordIsInserted(events: Events, op: OpId, removed: seq<string>, before: Digest, now: nat, from: nat)
    requires from <= |removed|
    ensures var r := Record(events, op, removed, before, now, from); r.Some? ==> r.value == Inserted(events, op, removed, before, now, from)
    decreases |removed| - from
  {
    if from < |removed| {
      var k := Key(removed[from], from + 1, before);
      if k in events {
        RecordIsInserted(events, op, removed, before, now, from + 1);
      } else if !Clash(events, removed[from], now) {
        RecordIsInserted(events[k := RawEvent(removed[from], op, now, Standing)], op, removed, before, now, from + 1);
      }
    }
  }

  lemma {:induction false} InsertedEffect(events: Events, op: OpId, removed: seq<string>, before: Digest, now: nat, from: nat)
    requires from <= |removed| && forall k | k in events :: k.block == Sha256(events[k].content)
    ensures var e := Inserted(events, op, removed, before, now, from);
            && (forall k | k in events :: k in e && e[k] == events[k])
            && (forall k | k in e && k !in events ::
                  e[k] == RawEvent(e[k].content, op, now, Standing) && k.before == before && k.block == Sha256(e[k].content))
    decreases |removed| - from
  {
    if from < |removed| {
      var k := Key(removed[from], from + 1, before);
      if k in events {
        InsertedEffect(events, op, removed, before, now, from + 1);
      } else if !Clash(events, removed[from], now) {
        InsertedEffect(events[k := RawEvent(removed[from], op, now, Standing)], op, removed, before, now, from + 1);
      }
    }
  }

  // Opening, committing and dropping a transaction.
  lemma HeldKeeps(s: Sys, held: Option<Events>)
    requires Inv(s) && HeldOk(s.(held := held))
    ensures Inv(s.(held := held)) && Grows(s, s.(held := held))
  {
    var s' := s.(held := held);
    assert OpsOk(s') by { forall op | op in s'.disk.ops ensures OpOk(s', op) { assert OpOk(s, op); } }
    assert MainsOk(s') by { forall op | op in s'.mains ensures MainOk(s', op) { assert MainOk(s, op); } }
    assert MendersOk(s') by { forall pid | pid in s'.menders ensures MenderOk(s', pid) { assert MenderOk(s, pid); } }
  }

  lemma FlushKeeps(s: Sys)
    requires Inv(s)
    ensures Inv(Flushed(s)) && Grows(s, Flushed(s))
  {
    if s.held.Some? {
      hide OpOk, MainOk, MenderOk;
      FlushMove(s);
      MoveKeeps(s, Flushed(s), {}, {});
    }
  }

  lemma FlushMove(s: Sys)
    requires ShapeOk(s) && HeldOk(s)
    ensures Move(s, Flushed(s), {}, {})
  {
  }

  lemma RefusedKeeps(s: Sys, pid: Pid)
    requires Inv(s) && s.held.None? && pid in s.menders && s.menders[pid].op in s.disk.ops && Refused(s, pid)
    ensures Inv(MendStep(s, pid)) && Grows(s, MendStep(s, pid))
  {
    hide Inv, Grows, HeldOk, Inserted;
    var m := s.menders[pid];
    var events := Inserted(s.disk.events, m.op, m.spool.removed, m.spool.before, s.disk.clock, 0);
    RefusedHolds(s, pid);
    RefusedStep(s, pid);
    HeldAndEnded(s, pid, events);
  }

  lemma RefusedStep(s: Sys, pid: Pid)
    requires pid in s.menders && s.menders[pid].op in s.disk.ops && Refused(s, pid)
    ensures var m := s.menders[pid];
            MendStep(s, pid) == EndMender(Held(s, Inserted(s.disk.events, m.op, m.spool.removed, m.spool.before, s.disk.clock, 0)), pid)
  {
    hide Inserted, Record;
  }

  lemma RefusedHolds(s: Sys, pid: Pid)
    requires Inv(s) && pid in s.menders && s.menders[pid].op in s.disk.ops && Refused(s, pid)
    ensures var m := s.menders[pid]; HeldOk(Held(s, Inserted(s.disk.events, m.op, m.spool.removed, m.spool.before, s.disk.clock, 0)))
  {
    hide Inserted, Record;
    assert MenderOk(s, pid);
    var m := s.menders[pid];
    InsertedEffect(s.disk.events, m.op, m.spool.removed, m.spool.before, s.disk.clock, 0);
  }

  lemma HeldAndEnded(s: Sys, pid: Pid, events: Events)
    requires Inv(s) && HeldOk(Held(s, events))
    ensures var s' := EndMender(Held(s, events), pid); Inv(s') && Grows(s, s')
  {
    hide Inv, Grows;
    HeldKeeps(s, Some(events));
    MenderEndKeeps(Held(s, events), pid);
    GrowsTrans(s, Held(s, events), EndMender(Held(s, events), pid));
  }

  lemma MendRecordedLocal(s: Sys, pid: Pid, events: Events)
    requires s.held.None? && MenderReady(s, pid) && s.menders[pid].pc.MendRecord?
    requires EventsGrow(s.disk.events, events) && EventsOk(s.disk.(events := events)) && Recorded(events, s.menders[pid].spool)
    ensures MenderLocal(s, WithMender(s.(disk := s.disk.(events := events)), pid, s.menders[pid].(pc := MendRename)),
      s.menders[pid].op, pid)
  {
  }

  lemma MendRenameLocal(s: Sys, pid: Pid)
    requires MenderReady(s, pid) && s.menders[pid].pc.MendRename?
    ensures MenderLocal(s, MendStep(s, pid), s.menders[pid].op, pid)
  {
    var m := s.menders[pid];
    if m.isPending {
      if m.op !in s.disk.dirs || s.disk.dirs[m.op].pending.Absent? {
        EndMenderLocal(s, pid);
      } else {
        RenameTouches(s, m.op, WithDir(s, m.op, Renamed(s.disk.dirs[m.op])));
      }
    }
  }

  lemma MendFinalLocal(s: Sys, pid: Pid)
    requires MenderReady(s, pid) && s.menders[pid].pc.MendMarkFinal?
    ensures MenderLocal(s, MendStep(s, pid), s.menders[pid].op, pid)
  {
    MenderRowLocal(s, MendStep(s, pid), pid);
  }

  lemma MendDropLocal(s: Sys, pid: Pid)
    requires MenderReady(s, pid) && s.menders[pid].pc.MendDropRecovery?
    ensures MenderLocal(s, MendStep(s, pid), s.menders[pid].op, pid)
  {
  }

  lemma MendFailedLocal(s: Sys, pid: Pid)
    requires MenderReady(s, pid) && s.menders[pid].pc.MendMarkFailed?
    ensures MenderLocal(s, MendStep(s, pid), s.menders[pid].op, pid)
  {
    MenderRowEndLocal(s, MendStep(s, pid), pid);
  }

  lemma MendStaleLocal(s: Sys, pid: Pid)
    requires MenderReady(s, pid) && s.menders[pid].pc.MendMarkStale?
    ensures MenderLocal(s, MendStep(s, pid), s.menders[pid].op, pid)
  {
    MenderRowEndLocal(s, MendStep(s, pid), pid);
  }

  lemma MendUnknownLocal(s: Sys, pid: Pid)
    requires MenderReady(s, pid) && s.menders[pid].pc.MendMarkUnknown?
    ensures MenderLocal(s, MendStep(s, pid), s.menders[pid].op, pid)
  {
    MenderRowEndLocal(s, MendStep(s, pid), pid);
  }

  lemma UnwindTombstoneLocal(s: Sys, pid: Pid)
    requires s.held.None? && MenderReady(s, pid) && s.menders[pid].pc.UnwindTombstone?
    ensures MenderLocal(s, MendStep(s, pid), s.menders[pid].op, pid)
  {
    if s.menders[pid].row.proposal.Some? { TombstoneGrows(s.disk, s.menders[pid].row.proposal.value); }
  }

  lemma UnwindMarkLocal(s: Sys, pid: Pid)
    requires MenderReady(s, pid) && s.menders[pid].pc.UnwindMarkSelf?
    ensures MenderLocal(s, MendStep(s, pid), s.menders[pid].op, pid)
  {
    MenderRowLocal(s, MendStep(s, pid), pid);
  }

  lemma MarkThenEndMenderKeeps(s: Sys, original: OpId, pid: Pid)
    requires Inv(s) && original in s.disk.ops
    requires original in s.mains ==> !(s.mains[original].UndoRun? && s.lock == MainHolds(original))
    ensures var s' := EndMender(Mark(s, original, ORIGINAL_UNDONE), pid); Inv(s') && Grows(s, s')
  {
    hide Inv, Grows, Altered;
    var mid := Mark(s, original, ORIGINAL_UNDONE);
    MarkUndoneKeeps(s, original);
    MenderEndKeeps(mid, pid);
    GrowsTrans(s, mid, EndMender(mid, pid));
  }

  lemma MenderFact(s: Sys, pid: Pid)
    requires Inv(s) && pid in s.menders
    ensures MenderOk(s, pid)
  {
  }

  lemma UnwindMarkOriginalKeeps(s: Sys, pid: Pid)
    requires Inv(s) && pid in s.menders && s.menders[pid].pc.UnwindMarkOriginal? && s.menders[pid].op in s.disk.ops
    ensures Inv(MendStep(s, pid)) && Grows(s, MendStep(s, pid))
  {
    hide Inv, Grows, Altered;
    MenderFact(s, pid);
    MarkThenEndMenderKeeps(s, s.menders[pid].row.proposal.value, pid);
  }

  lemma MendLocal(s: Sys, pid: Pid)
    requires !MendWaits(s, pid) && MenderReady(s, pid) && !s.menders[pid].pc.UnwindMarkOriginal? && !Refused(s, pid)
    ensures MenderLocal(s, MendStep(s, pid), s.menders[pid].op, pid)
  {
    match s.menders[pid].pc
    case LoadSpool => MendLoadLocal(s, pid);
    case MendTakeLock => MendTakeLockLocal(s, pid);
    case Judge => MendJudgeLocal(s, pid);
    case Recheck => MendRecheckLocal(s, pid);
    case MendRecord => MendRecordLocal(s, pid);
    case MendRename => MendRenameLocal(s, pid);
    case MendMarkFinal => MendFinalLocal(s, pid);
    case MendDropRecovery => MendDropLocal(s, pid);
    case MendMarkFailed => MendFailedLocal(s, pid);
    case MendMarkUnknown => MendUnknownLocal(s, pid);
    case MendMarkStale => MendStaleLocal(s, pid);
    case UnwindTombstone => UnwindTombstoneLocal(s, pid);
    case UnwindMarkSelf => UnwindMarkLocal(s, pid);
  }

  lemma MendStepKeeps(s: Sys, pid: Pid)
    requires Inv(s) && !MendWaits(s, pid) && pid in s.menders
    ensures Inv(Apply(s, StepMend(pid))) && Grows(s, Apply(s, StepMend(pid)))
  {
    hide Grows, MenderLocal, OpOk, MainOk;
    assert MenderOk(s, pid);
    var op := s.menders[pid].op;
    if s.menders[pid].pc.UnwindMarkOriginal? {
      UnwindMarkOriginalKeeps(s, pid);
    } else if Refused(s, pid) {
      RefusedKeeps(s, pid);
    } else {
      assert OpOk(s, op) && (op in s.mains ==> MainOk(s, op));
      MendLocal(s, pid);
      MenderLocalKeeps(s, MendStep(s, pid), op, pid);
    }
  }

  // ---- The other moves ---------------------------------------------------------------

  lemma ConsumeKeeps(s: Sys, id: AuthId, m: Main, h: Hist)
    requires Inv(s) && s.held.None? && Consumable(s.disk, id) && !h.replaced
    requires var (s', op) := (Begin(s, id, m, h), s.disk.auths[id].op);
             MainOk(s', op) && (h.trim || s.disk.auths[id].kind == Rollback)
    ensures Inv(Begin(s, id, m, h)) && Grows(s, Begin(s, id, m, h))
  {
    var s' := Begin(s, id, m, h);
    var op := s.disk.auths[id].op;
    assert AuthOk(s.disk, id);
    assert op !in s.disk.ops && op !in s.hist && op !in s.disk.dirs && op !in s.mains;
    BeginFrames(s, s', id, op);
    FreshGrows(s, s', id, op);
    assert s'.hist.Keys == s'.disk.ops.Keys;
  }

  ghost predicate Fresh(s: Sys, s': Sys, id: AuthId, op: OpId) {
    && s'.planner == s.planner && s'.disk.target == s.disk.target && s'.disk.clock == s.disk.clock
    && s'.disk.events == s.disk.events && s'.disk.dirs == s.disk.dirs && s'.menders == s.menders && s'.lock == s.lock
    && s'.held == s.held
    && op !in s.disk.ops && op !in s.hist && op !in s.disk.dirs && op !in s.mains
    && op in s'.disk.ops && op in s'.hist && op in s'.mains
    && s'.disk.ops == s.disk.ops[op := s'.disk.ops[op]] && s'.hist == s.hist[op := s'.hist[op]] && s'.mains == s.mains[op := s'.mains[op]]
    && id in s.disk.auths && s.disk.auths[id].op == op && !s.disk.auths[id].consumed
    && s'.disk.auths == s.disk.auths[id := s.disk.auths[id].(consumed := true)]
    && s'.disk.ops[op].auth == id
  }

  lemma FreshGrows(s: Sys, s': Sys, id: AuthId, op: OpId)
    requires Fresh(s, s', id, op)
    ensures Grows(s, s')
  {
  }

  lemma BeginFrames(s: Sys, s': Sys, id: AuthId, op: OpId)
    requires Inv(s) && Fresh(s, s', id, op) && OpOk(s', op) && MainOk(s', op)
    ensures OpsOk(s') && MainsOk(s') && MendersOk(s') && AuthsOk(s'.disk) && EventsOk(s'.disk)
  {
    FreshGrows(s, s', id, op);
    forall x | x in s'.disk.ops ensures OpOk(s', x) {
      if x != op {
        assert OpOk(s, x);
        FreshOp(s, s', id, op, x);
      }
    }
    forall x | x in s'.mains ensures MainOk(s', x) {
      if x != op {
        assert MainOk(s, x);
        FrameMain(s, s', x);
      }
    }
    forall pid | pid in s'.menders ensures MenderOk(s', pid) {
      assert MenderOk(s, pid);
      assert OpOk(s', s.menders[pid].op);
      FrameMender(s, s', pid);
    }
    forall i | i in s'.disk.auths ensures AuthOk(s'.disk, i) {
      assert AuthOk(s.disk, i) && AuthOk(s.disk, id);
      FreshAuth(s, s', id, op, i);
    }
  }

  lemma FreshOp(s: Sys, s': Sys, id: AuthId, op: OpId, x: OpId)
    requires Fresh(s, s', id, op) && Grows(s, s') && x != op && x in s.disk.ops && OpOk(s, x)
    ensures OpOk(s', x)
  {
  }

  lemma FreshAuth(s: Sys, s': Sys, id: AuthId, op: OpId, i: AuthId)
    requires Fresh(s, s', id, op) && i in s.disk.auths && AuthOk(s.disk, i) && AuthOk(s.disk, id)
    ensures AuthOk(s'.disk, i)
  {
    forall j | j in s'.disk.auths && s'.disk.auths[j].op == s'.disk.auths[i].op ensures j == i {
      assert s.disk.auths[j].op == s.disk.auths[i].op;
    }
  }

  lemma StartTrimKeeps(s: Sys, id: AuthId, policy: Policy)
    requires Inv(s)
    ensures Inv(Apply(s, StartTrim(id, policy))) && Grows(s, Apply(s, StartTrim(id, policy)))
  {
    hide Inv, Grows, Begin;
    var f := Flushed(s);
    FlushKeeps(s);
    if Consumable(s.disk, id) {
      BeginTrimKeeps(f, id, policy);
      GrowsTrans(s, f, Apply(s, StartTrim(id, policy)));
    }
  }

  lemma BeginTrimKeeps(s: Sys, id: AuthId, policy: Policy)
    requires Inv(s) && s.held.None? && Consumable(s.disk, id)
    ensures var s' := Begin(s, id, TrimRun(policy, BindParent, NO_FILE, NO_PLAN), Hist(true, policy, false)); Inv(s') && Grows(s, s')
  {
    assert AuthOk(s.disk, id);
    ConsumeKeeps(s, id, TrimRun(policy, BindParent, NO_FILE, NO_PLAN), Hist(true, policy, false));
  }

  lemma StartUndoKeeps(s: Sys, id: AuthId, original: OpId)
    requires Inv(s)
    ensures Inv(Apply(s, StartUndo(id, original))) && Grows(s, Apply(s, StartUndo(id, original)))
  {
    if s.held.None? && Undoable(s.disk, id, original) {
      assert AuthOk(s.disk, id) && OpOk(s, original);
      ConsumeKeeps(s, id, UndoRun(original, s.disk.ops[original], UndoBindParent, "", NO_FILE), Hist(false, DEFAULT_POLICY, false));
    }
  }

  lemma StartMendKeeps(s: Sys, pid: Pid, op: OpId)
    requires Inv(s)
    ensures Inv(Apply(s, StartMend(pid, op))) && Grows(s, Apply(s, StartMend(pid, op)))
  {
    if !Over(s.disk, op) {
      hide Inv, Grows;
      FlushKeeps(s);
      NewMenderKeeps(Flushed(s), pid, op);
      GrowsTrans(s, Flushed(s), StartMender(Flushed(s), pid, op));
    } else {
      GrowsItself(s);
    }
  }

  lemma GrowsItself(s: Sys)
    ensures Grows(s, s)
  {
  }

  lemma NewMenderKeeps(s: Sys, pid: Pid, op: OpId)
    requires Inv(s)
    ensures Inv(StartMender(s, pid, op)) && Grows(s, StartMender(s, pid, op))
  {
    if pid !in s.menders && Mendable(s.disk, op) {
      assert OpOk(s, op);
      var s' := StartMender(s, pid, op);
      NewMenderOk(s, pid, op);
      QuietMove(s, s', {pid});
      MoveKeeps(s, s', {}, {pid});
    }
  }

  lemma NewMenderOk(s: Sys, pid: Pid, op: OpId)
    requires pid !in s.menders && Mendable(s.disk, op) && OpOk(s, op)
    ensures MenderOk(StartMender(s, pid, op), pid)
  {
  }

  // A move that leaves all rows, directories, processes and evidence as they are.
  lemma QuietMove(s: Sys, s': Sys, P: set<Pid>)
    requires s'.planner == s.planner && s'.disk.target == s.disk.target && s.disk.clock <= s'.disk.clock
    requires s'.disk.auths == s.disk.auths && s'.disk.ops == s.disk.ops && s'.disk.dirs == s.disk.dirs && s'.disk.events == s.disk.events
    requires s'.mains == s.mains && s'.hist == s.hist && s'.lock == s.lock && s'.held == s.held && ShapeOk(s)
    requires forall pid | pid !in P :: SameMender(s, s', pid)
    ensures Move(s, s', {}, P)
  {
  }

  lemma IssuedOp(s: Sys, op: OpId)
    requires OpsOk(s) && op in s.disk.ops
    ensures exists i :: i in s.disk.auths && s.disk.auths[i].op == op
  {
    assert OpOk(s, op);
  }

  lemma IssueGrows(s: Sys, id: AuthId, a: Auth)
    ensures Grows(s, s.(disk := IssueAuth(s.disk, id, a)))
  {
  }

  // A new authorization concerns no operation that runs.
  lemma IssueFrames(s: Sys, id: AuthId, a: Auth, op: OpId)
    requires Inv(s) && id !in s.disk.auths && op in s.disk.ops
    ensures var s' := s.(disk := s.disk.(auths := s.disk.auths[id := a]));
            OpOk(s', op) && (op in s'.mains ==> MainOk(s', op))
  {
    assert OpOk(s, op) && (op in s.mains ==> MainOk(s, op));
  }

  lemma IssueMenders(s: Sys, id: AuthId, a: Auth)
    requires Inv(s) && id !in s.disk.auths
    ensures MendersOk(s.(disk := s.disk.(auths := s.disk.auths[id := a])))
  {
    var s' := s.(disk := s.disk.(auths := s.disk.auths[id := a]));
    forall pid | pid in s'.menders ensures MenderOk(s', pid) { assert MenderOk(s, pid); }
  }

  lemma IssueAuths(s: Sys, id: AuthId, a: Auth)
    requires Inv(s) && !a.consumed && id !in s.disk.auths && forall i | i in s.disk.auths :: s.disk.auths[i].op != a.op
    ensures AuthsOk(s.disk.(auths := s.disk.auths[id := a]))
  {
    var d := s.disk.(auths := s.disk.auths[id := a]);
    if a.op in s.disk.ops { IssuedOp(s, a.op); assert false; }
    forall i | i in d.auths ensures AuthOk(d, i) {
      if i != id { assert AuthOk(s.disk, i); }
    }
  }

  lemma IssueKeeps(s: Sys, id: AuthId, a: Auth)
    requires Inv(s) && !a.consumed
    ensures Inv(s.(disk := IssueAuth(s.disk, id, a))) && Grows(s, s.(disk := IssueAuth(s.disk, id, a)))
  {
    hide OpOk, MainOk, MenderOk, AuthOk, MendersOk, AuthsOk, Grows;
    var s' := s.(disk := IssueAuth(s.disk, id, a));
    IssueGrows(s, id, a);
    if s'.disk != s.disk {
      forall op | op in s'.disk.ops ensures OpOk(s', op) && (op in s'.mains ==> MainOk(s', op)) { IssueFrames(s, id, a, op); }
      IssueMenders(s, id, a);
      IssueAuths(s, id, a);
    }
  }

  lemma IssueCommits(s: Sys, id: AuthId, a: Auth)
    requires Inv(s) && !a.consumed
    ensures var s' := Apply(s, Issue(id, a.op, a.kind, a.before, a.proposal)); Inv(s') && Grows(s, s')
  {
    hide Inv, Grows, IssueAuth;
    GrowsItself(s);
    FlushKeeps(s);
    var t := Flushed(s).(disk := IssueAuth(Flushed(s).disk, id, a));
    IssueKeeps(Flushed(s), id, a);
    GrowsTrans(s, Flushed(s), t);
  }

  lemma MenderEndKeeps(s: Sys, pid: Pid)
    requires Inv(s)
    ensures Inv(EndMender(s, pid)) && Grows(s, EndMender(s, pid))
  {
    if pid in s.menders {
      assert MenderOk(s, pid);
      var op := s.menders[pid].op;
      assert OpOk(s, op) && (op in s.mains ==> MainOk(s, op));
      EndMenderLocal(s, pid);
      MenderLocalKeeps(s, EndMender(s, pid), op, pid);
    } else {
      assert s.menders - {pid} == s.menders && s.lock != MenderHolds(pid);
      assert EndMender(s, pid) == s;
    }
  }

  lemma QuietKeeps(s: Sys, l: Label)
    requires Inv(s) && (l.Tick? || l.Edit?)
    ensures Inv(Apply(s, l)) && Grows(s, Apply(s, l))
  {
    hide OpsOk, MainsOk, MendersOk, AuthsOk;
    QuietMove(s, Apply(s, l), {});
    MoveKeeps(s, Apply(s, l), {}, {});
  }

  lemma Same(s: Sys)
    ensures Grows(s, s)
  {
  }

  lemma StepKeeps(s: Sys, l: Label)
    requires Inv(s)
    ensures Inv(Apply(s, l)) && Grows(s, Apply(s, l))
  {
    hide Inv, Grows, TrimStep, UndoStep, HandlerStep, MendStep;
    Same(s);
    match l
    case Tick | Edit(_) => QuietKeeps(s, l);
    case Issue(id, op, kind, before, proposal) => IssueCommits(s, id, Auth(op, kind, before, proposal, false));
    case StartTrim(id, policy) => StartTrimKeeps(s, id, policy);
    case StartUndo(id, original) => StartUndoKeeps(s, id, original);
    case Step(op) => if Running(s, op) && !Waits(s, op) { MainStepKeeps(s, op); }
    case Fault(op) => MainEndKeeps(s, op, l);
    case Kill(op) => MainEndKeeps(s, op, l);
    case Tear(op, _) => MainEndKeeps(s, op, l);
    case StartMend(pid, op) => StartMendKeeps(s, pid, op);
    case StepMend(pid) =>
      if pid in s.menders && !MendWaits(s, pid) { MendStepKeeps(s, pid); }
    case KillMend(pid) => MenderEndKeeps(s, pid);
    case Commit => FlushKeeps(s);
    case Discard => HeldKeeps(s, None);
  }

  lemma {:induction false} RunKeeps(s: Sys, ls: seq<Label>)
    requires Inv(s)
    ensures Inv(Run(s, ls)) && Grows(s, Run(s, ls))
    decreases |ls|
  {
    if ls != [] {
      StepKeeps(s, ls[0]);
      RunKeeps(Apply(s, ls[0]), ls[1..]);
      GrowsTrans(s, Apply(s, ls[0]), Run(s, ls));
    }
  }

  lemma InitOk(target: string, file: File)
    ensures Inv(Init(target, file))
  {
  }
}
