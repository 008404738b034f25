// What a reconciliation does that nothing disturbs, told by the file that it finds.
module WritebackMends {
  import opened Options
  import opened Trim
  import opened Blocks
  import opened Writeback
  import opened WritebackSafety
  import opened WritebackMoves
  import opened WritebackRecovery
  import opened WritebackTheorems

  // ---- The outcome -------------------------------------------------------------------

  // The spool that a reconciliation reads: the pending one, or the committed one.
  function SpoolIn(dir: OpDir): Option<Spool> {
    if dir.pending.Whole? then Some(dir.pending.value)
    else if dir.pending.Absent? && dir.committed.Whole? then Some(dir.committed.value) else None
  }

  // A rollback whose process is gone. When the file is what it was before the trim, the
  // rollback has happened: both operations are closed, and the evidence of the original is
  // tombstoned. When it is what the rollback began with, nothing has happened. Otherwise
  // somebody must look. The file itself is left alone.
  predicate UnwindDone(d: Disk, d': Disk, op: OpId)
    requires Mendable(d, op) && d.ops[op].kind == Rollback
  {
    var (row, original) := (d.ops[op], d.ops[op].proposal.value);
    var (restored, expected) := (d.ops[original].before.text, row.before.text);
    && d'.file == d.file && d'.target == d.target && d'.clock == d.clock && d'.auths == d.auths && d'.dirs == d.dirs
    && (if d.file.text == restored then
          && Buried(d.events, d'.events, original)
          && var self := row.(state := RolledBack, after := Some(Sha256(restored)), evidence := Reconciled, audit := AuditCommitted);
          var ops := d.ops[op := self];
          d'.ops == ops[original := ops[original].(state := RolledBack, evidence := Reconciled, audit := AuditCommitted, rollbackAvailable := false)]
        else
          && d'.events == d.events
          && d'.ops == d.ops[op := if d.file.text == expected then row.(state := FailedBeforeMutation, audit := AuditCommitted)
                                   else row.(state := RecoveryRequired, error := Some(UnknownTargetHash))])
  }

  // A trim whose process is gone, by its spool: when the file is what the trim writes, the
  // evidence is recorded and the trim is finished, or the transaction stays open; when it is
  // what the trim began with, nothing has happened; otherwise somebody must look.
  predicate MendDone(d: Disk, d': Disk, held: Option<Events>, op: OpId)
    requires Mendable(d, op) && d.ops[op].kind == LiveOverflowTrim
  {
    var (row, dir) := (d.ops[op], d.dirs[op]);
    && d'.file == d.file && d'.target == d.target && d'.clock == d.clock && d'.auths == d.auths
    && match SpoolIn(dir)
       case None => d' == d && held.None?
       case Some(sp) =>
         var record := Record(d.events, op, sp.removed, sp.before, d.clock, 0);
         if Sha256(d.file.text) == sp.after && record.None? then
           d' == d && held == Some(Inserted(d.events, op, sp.removed, sp.before, d.clock, 0))
         else if Sha256(d.file.text) == sp.after then
           && held.None? && d'.events == record.value
           && d'.dirs == d.dirs[op := if dir.pending.Whole? then OpDir(false, dir.backup, Absent, Whole(sp)) else dir.(recoveryAuth := false)]
           && d'.ops == d.ops[op := row.(state := if sp.reached then Completed else CompletedPartial,
                                         error := if sp.reached then None else Some(Error.TargetUnreachable),
                                         after := Some(sp.after), evidence := Committed, audit := AuditCommitted)]
         else
           && held.None? && d'.events == d.events && d'.dirs == d.dirs
           && d'.ops == d.ops[op := if Sha256(d.file.text) == sp.before
                                    then row.(state := FailedBeforeMutation, evidence := Pending, audit := AuditCommitted)
                                    else row.(state := RecoveryRequired, error := Some(UnknownTargetHash))]
  }

  // ---- One statement after the other ---------------------------------------------------

  // The reconciliation, alone at m, over the journal d.
  function At(f: Sys, pid: Pid, m: Mender, d: Disk): Sys {
    f.(disk := d, menders := map[pid := m], lock := if MendInLock(m.pc) then MenderHolds(pid) else Free)
  }

  predicate Still(f: Sys) {
    f.menders == map[] && f.lock == Free && f.held.None? && f.mains == map[]
  }

  lemma MendEndsAt(f: Sys, pid: Pid, m: Mender, d: Disk)
    requires Still(f)
    ensures EndMender(At(f, pid, m, d), pid) == f.(disk := d)
  {
    assert map[pid := m] - {pid} == map[];
  }

  lemma BeginsAt(s: Sys, op: OpId, pid: Pid)
    requires Still(Flushed(s)) && Mendable(Flushed(s).disk, op)
    ensures var (f, row) := (Flushed(s), s.disk.ops[op]);
            Apply(s, StartMend(pid, op)) ==
            At(f, pid, Mender(op, row, if row.kind == Rollback then Some(s.disk.ops[row.proposal.value]) else None,
                              if row.kind == Rollback then MendTakeLock else LoadSpool, NO_SPOOL, false, NO_FILE), f.disk)
  {
  }

  lemma LooksAt(f: Sys, pid: Pid, m: Mender, d: Disk)
    requires Still(f) && m.op in d.ops
    ensures var s' := Apply(At(f, pid, m, d), StepMend(pid));
            && (m.pc.MendTakeLock? ==> s' == At(f, pid, m.(pc := Judge), d))
            && (m.pc.Judge? ==> s' == At(f, pid, if m.original.Some? || Sha256(d.file.text) == m.spool.after then m.(seen := d.file, pc := Recheck)
                                                 else m.(pc := if Sha256(d.file.text) == m.spool.before then MendMarkFailed else MendMarkUnknown), d))
  {
  }

  lemma LoadsAt(f: Sys, pid: Pid, m: Mender, d: Disk)
    requires Still(f) && m.op in d.ops && m.op in d.dirs && m.pc.LoadSpool?
    ensures var (s', dir) := (Apply(At(f, pid, m, d), StepMend(pid)), d.dirs[m.op]);
            s' == match SpoolIn(dir)
                  case None => f.(disk := d)
                  case Some(sp) => At(f, pid, m.(spool := sp, isPending := dir.pending.Whole?, pc := MendTakeLock), d)
  {
    MendEndsAt(f, pid, m, d);
  }

  lemma RechecksAt(f: Sys, pid: Pid, m: Mender, d: Disk)
    requires Still(f) && m.op in d.ops && m.pc.Recheck? && m.seen == d.file
    ensures Apply(At(f, pid, m, d), StepMend(pid)) ==
            At(f, pid, m.(pc := if m.original.None? then MendRecord
                                else if Sha256(d.file.text) == m.original.value.before then UnwindTombstone
                                else if Sha256(d.file.text) == m.row.before then MendMarkFailed else MendMarkUnknown), d)
  {
  }

  lemma MarksAt(f: Sys, pid: Pid, m: Mender, d: Disk)
    requires Still(f) && m.op in d.ops && (m.pc.MendMarkFailed? || m.pc.MendMarkUnknown?)
    ensures var row := d.ops[m.op];
            Apply(At(f, pid, m, d), StepMend(pid)) ==
            f.(disk := d.(ops := d.ops[m.op := if m.pc.MendMarkUnknown? then row.(state := RecoveryRequired, error := Some(UnknownTargetHash))
                                               else if m.original.Some? then row.(state := FailedBeforeMutation, audit := AuditCommitted)
                                               else row.(state := FailedBeforeMutation, evidence := Pending, audit := AuditCommitted)]))
  {
    MendEndsAt(f, pid, m, Mark(At(f, pid, m, d), m.op, if m.pc.MendMarkUnknown? then Change(RecoveryRequired, error := Set(Some(UnknownTargetHash)))
      else if m.original.Some? then Change(FailedBeforeMutation, audit := Set(AuditCommitted))
      else Change(FailedBeforeMutation, evidence := Set(Pending), audit := Set(AuditCommitted))).disk);
  }

  lemma BuriesAt(f: Sys, pid: Pid, m: Mender, d: Disk)
    requires Still(f) && m.op in d.ops && m.pc.UnwindTombstone? && m.row.proposal.Some?
    ensures var s' := Apply(At(f, pid, m, d), StepMend(pid));
            && Buried(d.events, s'.disk.events, m.row.proposal.value)
            && s' == At(f, pid, m.(pc := UnwindMarkSelf), d.(events := s'.disk.events))
  {
    hide Buried, Tombstone;
    var e := Tombstone(d.events, m.row.proposal.value);
    TombstoneExactly(d.events, e, m.row.proposal.value);
  }

  lemma MarksSelfAt(f: Sys, pid: Pid, m: Mender, d: Disk)
    requires Still(f) && m.op in d.ops && m.pc.UnwindMarkSelf?
    ensures Apply(At(f, pid, m, d), StepMend(pid)) ==
            At(f, pid, m.(pc := UnwindMarkOriginal),
               d.(ops := d.ops[m.op := d.ops[m.op].(state := RolledBack, after := Some(Sha256(m.seen.text)), evidence := Reconciled, audit := AuditCommitted)]))
  {
  }

  lemma MarksOriginalAt(f: Sys, pid: Pid, m: Mender, d: Disk)
    requires Still(f) && m.op in d.ops && m.pc.UnwindMarkOriginal? && m.row.proposal.Some? && m.row.proposal.value in d.ops
    ensures var original := m.row.proposal.value;
            Apply(At(f, pid, m, d), StepMend(pid)) ==
            f.(disk := d.(ops := d.ops[original := d.ops[original].(state := RolledBack, evidence := Reconciled, audit := AuditCommitted,
                                                                    rollbackAvailable := false)]))
  {
    MendEndsAt(f, pid, m, Mark(At(f, pid, m, d), m.row.proposal.value, ORIGINAL_UNDONE).disk);
  }

  lemma RecordsAt(f: Sys, pid: Pid, m: Mender, d: Disk)
    requires Still(f) && m.op in d.ops && m.pc.MendRecord?
    ensures var r := Record(d.events, m.op, m.spool.removed, m.spool.before, d.clock, 0);
            Apply(At(f, pid, m, d), StepMend(pid)) ==
            if r.Some? then At(f, pid, m.(pc := MendRename), d.(events := r.value))
            else f.(disk := d, held := Some(Inserted(d.events, m.op, m.spool.removed, m.spool.before, d.clock, 0)))
  {
    hide Record, Inserted;
    assert map[pid := m] - {pid} == map[];
  }

  lemma RenamesAt(f: Sys, pid: Pid, m: Mender, d: Disk)
    requires Still(f) && m.op in d.ops && m.op in d.dirs && m.pc.MendRename? && m.isPending == d.dirs[m.op].pending.Whole?
    ensures var dir := d.dirs[m.op];
            Apply(At(f, pid, m, d), StepMend(pid)) ==
            At(f, pid, m.(pc := MendMarkFinal), if m.isPending then d.(dirs := d.dirs[m.op := dir.(pending := Absent, committed := dir.pending)]) else d)
  {
  }

  lemma FinishesAt(f: Sys, pid: Pid, m: Mender, d: Disk)
    requires Still(f) && m.op in d.ops && m.pc.MendMarkFinal?
    ensures Apply(At(f, pid, m, d), StepMend(pid)) ==
            At(f, pid, m.(pc := MendDropRecovery),
               d.(ops := d.ops[m.op := d.ops[m.op].(state := if m.spool.reached then Completed else CompletedPartial,
                                                    error := if m.spool.reached then None else Some(Error.TargetUnreachable),
                                                    after := Some(m.spool.after), evidence := Committed, audit := AuditCommitted)]))
  {
  }

  lemma DropsAt(f: Sys, pid: Pid, m: Mender, d: Disk)
    requires Still(f) && m.op in d.ops && m.op in d.dirs && m.pc.MendDropRecovery?
    ensures Apply(At(f, pid, m, d), StepMend(pid)) == f.(disk := d.(dirs := d.dirs[m.op := d.dirs[m.op].(recoveryAuth := false)]))
  {
    MendEndsAt(f, pid, m, d.(dirs := d.dirs[m.op := d.dirs[m.op].(recoveryAuth := false)]));
  }

  // ---- The whole call ------------------------------------------------------------------

  // n more statements from s come to t.
  ghost predicate Comes(s: Sys, pid: Pid, n: nat, t: Sys) {
    Run(s, Repeat(StepMend(pid), n)) == t
  }

  lemma ComesOver(s: Sys, pid: Pid, n: nat)
    requires pid !in s.menders
    ensures Comes(s, pid, n, s)
  {
    NoMenders(s, pid, n);
  }

  lemma ComesNext(s: Sys, pid: Pid, n: nat, t: Sys)
    requires n > 0 && Comes(Apply(s, StepMend(pid)), pid, n - 1, t)
    ensures Comes(s, pid, n, t)
  {
    RunNext(s, StepMend(pid), n);
  }

  lemma MarksComes(f: Sys, pid: Pid, m: Mender, n: nat) returns (t: Sys)
    requires Still(f) && m.op in f.disk.ops && (m.pc.MendMarkFailed? || m.pc.MendMarkUnknown?) && n > 0
    ensures var row := f.disk.ops[m.op];
            && Comes(At(f, pid, m, f.disk), pid, n, t)
            && t == f.(disk := f.disk.(ops := f.disk.ops[m.op :=
                 if m.pc.MendMarkUnknown? then row.(state := RecoveryRequired, error := Some(UnknownTargetHash))
                 else if m.original.Some? then row.(state := FailedBeforeMutation, audit := AuditCommitted)
                 else row.(state := FailedBeforeMutation, evidence := Pending, audit := AuditCommitted)]))
  {
    hide Apply, At, Comes;
    t := Apply(At(f, pid, m, f.disk), StepMend(pid));
    MarksAt(f, pid, m, f.disk);
    ComesOver(t, pid, n - 1);
    ComesNext(At(f, pid, m, f.disk), pid, n, t);
  }

  lemma BuriesComes(f: Sys, pid: Pid, m: Mender, n: nat) returns (t: Sys)
    requires Still(f) && m.op in f.disk.ops && m.pc.UnwindTombstone? && m.row.proposal.Some? && m.row.proposal.value in f.disk.ops && n >= 3
    ensures var original := m.row.proposal.value;
            var self := f.disk.ops[m.op].(state := RolledBack, after := Some(Sha256(m.seen.text)), evidence := Reconciled, audit := AuditCommitted);
            var ops := f.disk.ops[m.op := self];
            && Comes(At(f, pid, m, f.disk), pid, n, t) && Buried(f.disk.events, t.disk.events, original)
            && t == f.(disk := f.disk.(events := t.disk.events, ops := ops[original :=
                 ops[original].(state := RolledBack, evidence := Reconciled, audit := AuditCommitted, rollbackAvailable := false)]))
  {
    hide Apply, At, Comes, Buried;
    var d := f.disk;
    BuriesAt(f, pid, m, d);
    var d1 := d.(events := Apply(At(f, pid, m, d), StepMend(pid)).disk.events);
    var m1 := m.(pc := UnwindMarkSelf);
    MarksSelfAt(f, pid, m1, d1);
    var d2 := d1.(ops := d1.ops[m.op := d1.ops[m.op].(state := RolledBack, after := Some(Sha256(m.seen.text)), evidence := Reconciled,
                                                      audit := AuditCommitted)]);
    var m2 := m.(pc := UnwindMarkOriginal);
    MarksOriginalAt(f, pid, m2, d2);
    t := Apply(At(f, pid, m2, d2), StepMend(pid));
    ComesOver(t, pid, n - 3);
    ComesNext(At(f, pid, m2, d2), pid, n - 2, t);
    ComesNext(At(f, pid, m1, d1), pid, n - 1, t);
    ComesNext(At(f, pid, m, d), pid, n, t);
  }

  // One undisturbed reconciliation of a rollback, by the text of the file alone.
  lemma UnwindsExactly(s: Sys, op: OpId, pid: Pid)
    requires Still(Flushed(s)) && Mendable(Flushed(s).disk, op) && s.disk.ops[op].kind == Rollback
    ensures var (f, s') := (Flushed(s), Mended(s, op, pid)); UnwindDone(f.disk, s'.disk, op) && s' == f.(disk := s'.disk)
  {
    hide Apply, At, Comes, Buried;
    var f := Flushed(s);
    var (row, original) := (s.disk.ops[op], s.disk.ops[op].proposal.value);
    var m := Mender(op, row, Some(s.disk.ops[original]), MendTakeLock, NO_SPOOL, false, NO_FILE);
    BeginsAt(s, op, pid);
    LooksAt(f, pid, m, f.disk);
    var m1 := m.(pc := Judge);
    LooksAt(f, pid, m1, f.disk);
    var m2 := m.(seen := f.disk.file, pc := Recheck);
    RechecksAt(f, pid, m2, f.disk);
    var h := Sha256(f.disk.file.text);
    var t;
    if h == s.disk.ops[original].before {
      t := BuriesComes(f, pid, m2.(pc := UnwindTombstone), 5);
      ComesNext(At(f, pid, m2, f.disk), pid, 6, t);
    } else {
      t := MarksComes(f, pid, m2.(pc := if h == row.before then MendMarkFailed else MendMarkUnknown), 5);
      ComesNext(At(f, pid, m2, f.disk), pid, 6, t);
    }
    ComesNext(At(f, pid, m1, f.disk), pid, 7, t);
    ComesNext(At(f, pid, m, f.disk), pid, 8, t);
    assert Mended(s, op, pid) == t by { Unfold(s, op, pid, t); }
  }

  lemma Unfold(s: Sys, op: OpId, pid: Pid, t: Sys)
    requires Comes(Apply(s, StartMend(pid, op)), pid, 8, t)
    ensures Mended(s, op, pid) == t
  {
  }

  lemma FinishComes(f: Sys, pid: Pid, m: Mender, d: Disk, n: nat) returns (t: Sys)
    requires Still(f) && m.op in d.ops && m.op in d.dirs && m.pc.MendRename? && m.isPending == d.dirs[m.op].pending.Whole? && n >= 3
    ensures var (row, dir) := (d.ops[m.op], d.dirs[m.op]);
            && Comes(At(f, pid, m, d), pid, n, t)
            && t == f.(disk := d.(
                 dirs := d.dirs[m.op := if m.isPending then dir.(pending := Absent, committed := dir.pending, recoveryAuth := false)
                                        else dir.(recoveryAuth := false)],
                 ops := d.ops[m.op := row.(state := if m.spool.reached then Completed else CompletedPartial,
                                           error := if m.spool.reached then None else Some(Error.TargetUnreachable),
                                           after := Some(m.spool.after), evidence := Committed, audit := AuditCommitted)]))
  {
    hide Apply, At, Comes;
    var (row, dir) := (d.ops[m.op], d.dirs[m.op]);
    RenamesAt(f, pid, m, d);
    var d1 := if m.isPending then d.(dirs := d.dirs[m.op := dir.(pending := Absent, committed := dir.pending)]) else d;
    var m1 := m.(pc := MendMarkFinal);
    FinishesAt(f, pid, m1, d1);
    var d2 := d1.(ops := d1.ops[m.op := row.(state := if m.spool.reached then Completed else CompletedPartial,
                                             error := if m.spool.reached then None else Some(Error.TargetUnreachable),
                                             after := Some(m.spool.after), evidence := Committed, audit := AuditCommitted)]);
    var m2 := m.(pc := MendDropRecovery);
    DropsAt(f, pid, m2, d2);
    t := Apply(At(f, pid, m2, d2), StepMend(pid));
    ComesOver(t, pid, n - 3);
    ComesNext(At(f, pid, m2, d2), pid, n - 2, t);
    ComesNext(At(f, pid, m1, d1), pid, n - 1, t);
    ComesNext(At(f, pid, m, d), pid, n, t);
  }

  // A trim whose file is what it writes.
  lemma WrittenComes(f: Sys, pid: Pid, m: Mender, n: nat) returns (t: Sys)
    requires Still(f) && m.op in f.disk.ops && m.op in f.disk.dirs && f.disk.ops[m.op].kind == LiveOverflowTrim && Mendable(f.disk, m.op)
    requires m.pc.MendRecord? && m.isPending == f.disk.dirs[m.op].pending.Whole? && n >= 4
    requires SpoolIn(f.disk.dirs[m.op]) == Some(m.spool) && Sha256(f.disk.file.text) == m.spool.after
    ensures Comes(At(f, pid, m, f.disk), pid, n, t) && MendDone(f.disk, t.disk, t.held, m.op)
    ensures t == f.(disk := t.disk, held := t.held)
  {
    hide Apply, At, Comes, Record, Inserted;
    RecordsAt(f, pid, m, f.disk);
    var r := Record(f.disk.events, m.op, m.spool.removed, m.spool.before, f.disk.clock, 0);
    if r.Some? {
      t := FinishComes(f, pid, m.(pc := MendRename), f.disk.(events := r.value), n - 1);
    } else {
      t := Apply(At(f, pid, m, f.disk), StepMend(pid));
      ComesOver(t, pid, n - 1);
    }
    ComesNext(At(f, pid, m, f.disk), pid, n, t);
  }

  // One undisturbed reconciliation of a trim, by the file and the spool.
  lemma MendsExactly(s: Sys, op: OpId, pid: Pid)
    requires Still(Flushed(s)) && Mendable(Flushed(s).disk, op) && s.disk.ops[op].kind == LiveOverflowTrim
    ensures var (f, s') := (Flushed(s), Mended(s, op, pid)); MendDone(f.disk, s'.disk, s'.held, op) && s' == f.(disk := s'.disk, held := s'.held)
  {
    hide Apply, At, Comes, Record, Inserted, MendDone;
    var f := Flushed(s);
    var m := Mender(op, s.disk.ops[op], None, LoadSpool, NO_SPOOL, false, NO_FILE);
    BeginsAt(s, op, pid);
    LoadsAt(f, pid, m, f.disk);
    var t;
    match SpoolIn(f.disk.dirs[op]) {
      case None =>
        t := f;
        ComesOver(t, pid, 7);
        NothingDone(f.disk, op);
      case Some(sp) => t := LoadedComes(f, pid, m.(spool := sp, isPending := f.disk.dirs[op].pending.Whole?, pc := MendTakeLock));
    }
    ComesNext(At(f, pid, m, f.disk), pid, 8, t);
    Unfold(s, op, pid, t);
  }

  lemma NothingDone(d: Disk, op: OpId)
    requires Mendable(d, op) && d.ops[op].kind == LiveOverflowTrim && SpoolIn(d.dirs[op]).None?
    ensures MendDone(d, d, None, op)
  {
  }

  lemma LoadedComes(f: Sys, pid: Pid, m: Mender) returns (t: Sys)
    requires Still(f) && Mendable(f.disk, m.op) && f.disk.ops[m.op].kind == LiveOverflowTrim && m.original.None?
    requires m.pc.MendTakeLock? && m.isPending == f.disk.dirs[m.op].pending.Whole? && SpoolIn(f.disk.dirs[m.op]) == Some(m.spool)
    ensures Comes(At(f, pid, m, f.disk), pid, 7, t) && MendDone(f.disk, t.disk, t.held, m.op)
    ensures t == f.(disk := t.disk, held := t.held)
  {
    hide Apply, At, Comes, Record, Inserted;
    LooksAt(f, pid, m, f.disk);
    var m1 := m.(pc := Judge);
    LooksAt(f, pid, m1, f.disk);
    var h := Sha256(f.disk.file.text);
    if h == m.spool.after {
      var m2 := m.(seen := f.disk.file, pc := Recheck);
      RechecksAt(f, pid, m2, f.disk);
      t := WrittenComes(f, pid, m2.(pc := MendRecord), 4);
      ComesNext(At(f, pid, m2, f.disk), pid, 5, t);
    } else {
      t := MarksComes(f, pid, m.(pc := if h == m.spool.before then MendMarkFailed else MendMarkUnknown), 5);
    }
    ComesNext(At(f, pid, m1, f.disk), pid, 6, t);
    ComesNext(At(f, pid, m, f.disk), pid, 7, t);
  }

  // ---- However it is told ----------------------------------------------------------------

  // Moves of one reconciliation, alone and undisturbed, are steps of it, or nothing.
  lemma {:induction false} OnlyItsSteps(s: Sys, ls: seq<Label>, op: OpId, edits: seq<Option<File>>) returns (n: nat)
    requires s.mains == map[] && (forall l | l in ls :: Owned(l, op, edits, Never)) && forall e | e in edits :: e.None?
    ensures Run(s, ls) == Run(s, Repeat(StepMend(RECONCILER), n))
    decreases |ls|
  {
    hide Run, Apply;
    if ls == [] {
      n := 0;
      RunNothing(s);
    } else {
      assert ls[0] in ls;
      RunFirst(s, ls);
      var t := Apply(s, ls[0]);
      OneMove(s, ls[0], op, edits);
      n := OnlyItsSteps(t, ls[1..], op, edits);
      if ls[0].StepMend? {
        RunNext(s, StepMend(RECONCILER), n + 1);
        n := n + 1;
      }
    }
  }

  lemma OneMove(s: Sys, l: Label, op: OpId, edits: seq<Option<File>>)
    requires s.mains == map[] && Owned(l, op, edits, Never) && forall e | e in edits :: e.None?
    ensures Apply(s, l).mains == map[] && (l == StepMend(RECONCILER) || Apply(s, l) == s)
  {
    hide TrimStep, UndoStep, HandlerStep, MendStep, StartMender;
    if l.StepMend? { MainsStay(s); }
  }

  lemma MainsStay(s: Sys)
    ensures Apply(s, StepMend(RECONCILER)).mains == s.mains
  {
    if RECONCILER in s.menders && s.menders[RECONCILER].op in s.disk.ops { MendMains(s); }
  }

  lemma MendMains(s: Sys)
    requires RECONCILER in s.menders && s.menders[RECONCILER].op in s.disk.ops
    ensures MendStep(s, RECONCILER).mains == s.mains
  {
    hide Altered, Tombstone, Record, Inserted, Renamed, FinalState, FinalError;
  }

  lemma RunNothing(s: Sys)
    ensures Run(s, Repeat(StepMend(RECONCILER), 0)) == s && Run(s, []) == s
  {
  }

  lemma RunFirst(s: Sys, ls: seq<Label>)
    requires ls != []
    ensures Run(s, ls) == Run(Apply(s, ls[0]), ls[1..])
  {
  }

  // Once it is over, further steps change nothing.
  lemma {:induction false} OverEither(s: Sys, m: nat, n: nat)
    requires Run(s, Repeat(StepMend(RECONCILER), m)).menders == map[] && Run(s, Repeat(StepMend(RECONCILER), n)).menders == map[] && m <= n
    ensures Run(s, Repeat(StepMend(RECONCILER), m)) == Run(s, Repeat(StepMend(RECONCILER), n))
    decreases m
  {
    hide Run, Apply;
    if m == 0 {
      RunNothing(s);
      NoMenders(s, RECONCILER, n);
    } else {
      RunNext(s, StepMend(RECONCILER), m);
      RunNext(s, StepMend(RECONCILER), n);
      OverEither(Apply(s, StepMend(RECONCILER)), m - 1, n - 1);
    }
  }

  // A call that nothing has disturbed and that is over is the whole reconciliation.
  lemma MendEnded(s: Sys, op: OpId, ls: seq<Label>, edits: seq<Option<File>>)
    requires Still(Flushed(s)) && Mendable(Flushed(s).disk, op) && Run(s, ls).menders == map[]
    requires ls != [] && OwnMoves(ls, StartMend(RECONCILER, op), op, edits, Never) && forall e | e in edits :: e.None?
    ensures Run(s, ls) == Mended(s, op, RECONCILER)
  {
    hide Run, Apply;
    var s1 := Apply(s, ls[0]);
    RunFirst(s, ls);
    StartHasNoMains(s, op);
    var n := OnlyItsSteps(s1, ls[1..], op, edits);
    if s.disk.ops[op].kind == Rollback { UnwindsExactly(s, op, RECONCILER); } else { MendsExactly(s, op, RECONCILER); }
    if n <= 8 { OverEither(s1, n, 8); } else { OverEither(s1, 8, n); }
  }

  lemma StartHasNoMains(s: Sys, op: OpId)
    requires Still(Flushed(s)) && Mendable(Flushed(s).disk, op)
    ensures Apply(s, StartMend(RECONCILER, op)).mains == map[]
  {
    BeginsAt(s, op, RECONCILER);
  }
}
