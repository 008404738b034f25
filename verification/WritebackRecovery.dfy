// Recovery equivalence: an interrupted trim that has its spool in the journal ends, after
// reconciliation, exactly as the uninterrupted one, or as if it had not happened.
module WritebackRecovery {
  import opened Options
  import opened Trim
  import opened Blocks
  import opened Writeback
  import opened WritebackSafety

  // ---- When the evidence transaction goes through -----------------------------------

  // Every block that is not on record yet differs from the blocks that the transaction
  // inserts before it, and from all rows of this second.
  predicate Recordable(events: Events, removed: seq<string>, before: Digest, now: nat, from: nat) {
    forall i | from <= i < |removed| && Key(removed[i], i + 1, before) !in events ::
      && !Clash(events, removed[i], now)
      && forall j | from <= j < i && removed[j] == removed[i] :: Key(removed[j], j + 1, before) in events
  }

  lemma {:induction false} RecordSucceeds(events: Events, op: OpId, removed: seq<string>, before: Digest, now: nat, from: nat)
    requires from <= |removed|
    ensures Record(events, op, removed, before, now, from).Some? <==> Recordable(events, removed, before, now, from)
    decreases |removed| - from
  {
    if from < |removed| {
      var k := Key(removed[from], from + 1, before);
      if k in events {
        RecordSucceeds(events, op, removed, before, now, from + 1);
        RecordableSkip(events, removed, before, now, from);
      } else if !Clash(events, removed[from], now) {
        var events' := events[k := RawEvent(removed[from], op, now, Standing)];
        RecordSucceeds(events', op, removed, before, now, from + 1);
        RecordableInsert(events, events', op, removed, before, now, from);
      }
    }
  }

  lemma RecordableSkip(events: Events, removed: seq<string>, before: Digest, now: nat, from: nat)
    requires from < |removed| && Key(removed[from], from + 1, before) in events
    ensures Recordable(events, removed, before, now, from) <==> Recordable(events, removed, before, now, from + 1)
  {
  }

  lemma ClashInsert(events: Events, k: EventKey, e: RawEvent, block: string, now: nat)
    requires k !in events && e.at == now
    ensures Clash(events[k := e], block, now) <==> Clash(events, block, now) || e.content == block
  {
    var events' := events[k := e];
    if Clash(events, block, now) {
      var j :| j in events && events[j].content == block && events[j].at == now;
      assert j in events' && events'[j] == events[j];
    }
    if e.content == block {
      assert k in events' && events'[k] == e;
    }
  }

  lemma RecordableInsert(events: Events, events': Events, op: OpId, removed: seq<string>, before: Digest, now: nat, from: nat)
    requires from < |removed| && Key(removed[from], from + 1, before) !in events && !Clash(events, removed[from], now)
    requires events' == events[Key(removed[from], from + 1, before) := RawEvent(removed[from], op, now, Standing)]
    ensures Recordable(events, removed, before, now, from) <==> Recordable(events', removed, before, now, from + 1)
  {
    var k := Key(removed[from], from + 1, before);
    forall i | from < i < |removed|
      ensures Key(removed[i], i + 1, before) in events' <==> Key(removed[i], i + 1, before) in events
      ensures Clash(events', removed[i], now) <==> Clash(events, removed[i], now) || removed[i] == removed[from]
    {
      ClashInsert(events, k, RawEvent(removed[from], op, now, Standing), removed[i], now);
    }
    if Recordable(events, removed, before, now, from) {
      forall i | from < i < |removed| && Key(removed[i], i + 1, before) !in events'
        ensures !Clash(events', removed[i], now)
      {
        if removed[i] == removed[from] { assert false; }
      }
    }
    if Recordable(events', removed, before, now, from + 1) {
      forall i, j | from <= i < |removed| && Key(removed[i], i + 1, before) !in events && from <= j < i && removed[j] == removed[i]
        ensures Key(removed[j], j + 1, before) in events
      {
        assert i > from && !Clash(events', removed[i], now);
        assert j != from;
        assert Key(removed[j], j + 1, before) in events';
      }
    }
  }

  // Two equal blocks, none of them on record, are refused by every single transaction,
  // whenever it runs.
  lemma DuplicateBlocksFail(events: Events, op: OpId, removed: seq<string>, before: Digest, now: nat, i: nat, j: nat)
    requires j < i < |removed| && removed[j] == removed[i]
    requires Key(removed[i], i + 1, before) !in events && Key(removed[j], j + 1, before) !in events
    ensures Record(events, op, removed, before, now, 0).None?
  {
    RecordSucceeds(events, op, removed, before, now, 0);
  }

  predicate Distinct(bs: seq<string>) {
    forall i, j | 0 <= i < j < |bs| :: bs[i] != bs[j]
  }

  // No row of this second, and none of the future, holds one of the blocks.
  predicate Unclashed(events: Events, bs: seq<string>, now: nat) {
    forall k | k in events && events[k].content in bs :: events[k].at < now
  }

  // ---- The evidence after a trim ------------------------------------------------------

  datatype EvidenceRow = EvidenceRow(content: string, op: OpId, status: WriteStatus)

  // The evidence without its time stamps.
  function EvidenceView(events: Events): map<EventKey, EvidenceRow> {
    map k | k in events :: EvidenceRow(events[k].content, events[k].op, events[k].status)
  }

  predicate IsKeyOf(k: EventKey, sp: Spool) {
    exists i {:trigger sp.removed[i]} :: 0 <= i < |sp.removed| && k == Key(sp.removed[i], i + 1, sp.before)
  }

  // The rows e0, unchanged, and standing rows of this operation for some of the blocks that
  // were not on record.
  predicate Enriching(e0: Events, e: Events, sp: Spool, op: OpId) {
    && (forall k | k in e0 :: k in e && e[k] == e0[k])
    && (forall k | k in e && k !in e0 :: IsKeyOf(k, sp) && e[k].op == op && e[k].status == Standing && k.block == Sha256(e[k].content))
  }

  // The same for all of the blocks.
  predicate Enriched(e0: Events, e: Events, sp: Spool, op: OpId) {
    Enriching(e0, e, sp, op) && Recorded(e, sp)
  }

  lemma EnrichedView(e0: Events, e: Events, e': Events, sp: Spool, op: OpId)
    requires Enriched(e0, e, sp, op) && Enriched(e0, e', sp, op)
    ensures EvidenceView(e) == EvidenceView(e')
  {
    EnrichedSubset(e0, e, e', sp, op);
    EnrichedSubset(e0, e', e, sp, op);
    forall k | k in e ensures EvidenceView(e)[k] == EvidenceView(e')[k] {
      if k !in e0 { assert k in e'; }
    }
  }

  lemma EnrichedSubset(e0: Events, e: Events, e': Events, sp: Spool, op: OpId)
    requires Enriched(e0, e, sp, op) && Enriched(e0, e', sp, op)
    ensures forall k | k in e :: k in e'
  {
    forall k | k in e ensures k in e' {
      if k !in e0 {
        var i :| 0 <= i < |sp.removed| && k == Key(sp.removed[i], i + 1, sp.before);
        assert sp.removed[i] == sp.removed[i];
      }
    }
  }

  lemma {:induction false} InsertedKeys(events: Events, op: OpId, sp: Spool, now: nat, from: nat)
    requires from <= |sp.removed|
    ensures forall k | k in Inserted(events, op, sp.removed, sp.before, now, from) && k !in events :: IsKeyOf(k, sp)
    decreases |sp.removed| - from
  {
    if from < |sp.removed| {
      var k := Key(sp.removed[from], from + 1, sp.before);
      if k in events {
        InsertedKeys(events, op, sp, now, from + 1);
      } else if !Clash(events, sp.removed[from], now) {
        InsertedKeys(events[k := RawEvent(sp.removed[from], op, now, Standing)], op, sp, now, from + 1);
        assert sp.removed[from] == sp.removed[from] && IsKeyOf(k, sp);
      }
    }
  }

  // Whatever is on record, a transaction adds rows of this trim only, and all of them when
  // it goes through.
  lemma RecordEnriches(e0: Events, e: Events, op: OpId, sp: Spool, now: nat)
    requires (forall k | k in e0 :: k.block == Sha256(e0[k].content)) && Enriching(e0, e, sp, op)
    ensures var r := Record(e, op, sp.removed, sp.before, now, 0); r.Some? ==> Enriched(e0, r.value, sp, op)
    ensures Enriching(e0, Inserted(e, op, sp.removed, sp.before, now, 0), sp, op)
  {
    hide Record, Inserted;
    assert forall k | k in e :: k.block == Sha256(e[k].content);
    InsertedEffect(e, op, sp.removed, sp.before, now, 0);
    InsertedKeys(e, op, sp, now, 0);
    RecordEffect(e, op, sp.removed, sp.before, now, 0);
    RecordIsInserted(e, op, sp.removed, sp.before, now, 0);
  }

  // Different blocks, none of which has a row of this second, are recorded.
  lemma DistinctRecords(e: Events, op: OpId, removed: seq<string>, before: Digest, now: nat)
    requires Distinct(removed) && Unclashed(e, removed, now)
    ensures Record(e, op, removed, before, now, 0).Some?
  {
    forall i | 0 <= i < |removed| ensures !Clash(e, removed[i], now) { assert removed[i] in removed; }
    RecordSucceeds(e, op, removed, before, now, 0);
  }

  // ---- One interrupted trim -------------------------------------------------------------

  // The trim of `op` has journalled its spool and is about to replace the file, which is
  // still the file that it read. No other process is alive.
  ghost predicate Armed(s: Sys, op: OpId) {
    && Inv(s) && s.mains.Keys == {op} && s.menders == map[] && MainOk(s, op) && OpOk(s, op)
    && s.mains[op].TrimRun? && s.mains[op].pc.Replace? && s.disk.file == s.mains[op].seen
    && s.disk.ops[op].kind == LiveOverflowTrim && s.disk.ops[op].parentBound && s.disk.ops[op].state == EvidencePending
    && s.disk.dirs[op].pending.Whole? && s.held.None?
  }

  // The moves of this trim, of its reconciliations and their connections, and of the clock.
  predicate About(l: Label, op: OpId) {
    match l
    case Tick => true
    case Step(o) => o == op
    case Fault(o) => o == op
    case Kill(o) => o == op
    case StartMend(_, o) => o == op
    case StepMend(_) => true
    case KillMend(_) => true
    case Commit => true
    case Discard => true
    case _ => false
  }

  function FinalRow(row: OpRow, sp: Spool): OpRow {
    row.(state := if sp.reached then Completed else CompletedPartial, error := if sp.reached then None else Some(Error.TargetUnreachable),
         after := Some(sp.after), evidence := Committed, audit := AuditCommitted)
  }

  // The columns that no later step of this operation touches.
  predicate SameTerms(row: OpRow, row': OpRow) {
    && row'.auth == row.auth && row'.kind == row.kind && row'.proposal == row.proposal && row'.before == row.before
    && row'.backupRef == row.backupRef && row'.spoolRef == row.spoolRef
    && row'.rollbackAvailable == row.rollbackAvailable && row'.parentBound == row.parentBound
  }

  predicate Done(st: State) {
    st in {Completed, CompletedPartial}
  }

  // The row and the evidence while the trim is on its way; `sp` is its spool.
  predicate RowOnTrack(s0: Sys, s: Sys, op: OpId, sp: Spool)
    requires op in s0.disk.ops && op in s0.disk.dirs && op in s.disk.ops && op in s.hist && op in s.disk.dirs
  {
    var (row0, row) := (s0.disk.ops[op], s.disk.ops[op]);
    && SameTerms(row0, row)
    && (if s.hist[op].replaced then
          && s.disk.file.text == sp.after.text
          && row.state in {EvidencePending, FileReplaced, ReadbackVerified, RecoveryRequired, Completed, CompletedPartial}
          && Enriching(s0.disk.events, s.disk.events, sp, op)
          && (s.disk.dirs[op].committed.Whole? ==> Enriched(s0.disk.events, s.disk.events, sp, op))
          && (Done(row.state) ==> row == FinalRow(row0, sp) && s.disk.dirs[op].committed.Whole?)
        else
          && s.disk.file == s0.disk.file && s.disk.events == s0.disk.events && s.disk.dirs[op] == s0.disk.dirs[op]
          && row.after == row0.after
          && row.state in {EvidencePending, RecoveryRequired, FailedBeforeMutation})
  }

  predicate MainOnTrack(s0: Sys, s: Sys, op: OpId, sp: Spool, m: Main)
    requires op in s.disk.ops && op in s.hist && op in s.disk.dirs
  {
    var row := s.disk.ops[op];
    match m
    case TrimRun(_, pc, seen, _) =>
      && TrimRank(pc) >= 10 && !pc.MarkEdited? && (TrimRank(pc) <= 15 ==> s.disk.dirs[op].pending.Whole?)
        && (pc.Replace? ==> s.disk.file == seen && row.state == EvidencePending)
      && (TrimRank(pc) >= 12 ==> row.after == Some(sp.after))
      && (pc.RenameSpool? || pc.MarkFinal? || pc.DropRecovery? ==> Enriched(s0.disk.events, s.disk.events, sp, op))
      && (pc.DropRecovery? ==> Done(row.state))
    case Handler(undo, read) => !undo
    case UndoRun(_, _, _, _, _) => false
  }

  predicate MenderOnTrack(s0: Sys, s: Sys, op: OpId, sp: Spool, m: Mender)
    requires op in s.disk.ops && op in s.hist && op in s.disk.dirs
  {
    && m.op == op && m.original.None?
    && (match m.pc
        case Recheck => s.hist[op].replaced && s.disk.file == m.seen
        case MendRecord => s.hist[op].replaced
        case MendRename | MendMarkFinal => s.hist[op].replaced && Enriched(s0.disk.events, s.disk.events, sp, op)
        case MendDropRecovery => s.hist[op].replaced
        case MendMarkFailed => !s.hist[op].replaced
        case MendMarkUnknown | MendMarkStale => false
        case _ => true)
  }

  ghost predicate OnTrack(s0: Sys, s: Sys, op: OpId) {
    && op in s0.disk.ops && op in s.disk.ops && op in s.hist && op in s0.disk.dirs && op in s.disk.dirs && op in s0.hist
    && s.disk.clock >= s0.disk.clock && HasPlan(s, op) && HasPlan(s0, op) && ExactSpool(s, op) == ExactSpool(s0, op)
    && var sp := ExactSpool(s0, op);
    && RowOnTrack(s0, s, op, sp)
    && (s.held.Some? ==> s.hist[op].replaced && Enriching(s0.disk.events, s.held.value, sp, op))
    && (forall x | x in s.mains :: x == op) && (op in s.mains ==> MainOnTrack(s0, s, op, sp, s.mains[op]))
    && (forall pid | pid in s.menders :: MenderOnTrack(s0, s, op, sp, s.menders[pid]))
  }

  ghost predicate Calm(s0: Sys, op: OpId) {
    && op in s0.disk.ops && op in s0.hist && HasPlan(s0, op) && EventsOk(s0.disk)
    && var (p, row) := (PlanOf(s0, op), s0.disk.ops[op]);
    && p.after != row.before.text && s0.disk.file.text == row.before.text
    && row.kind == LiveOverflowTrim && row.after.None? && row.spoolRef && row.parentBound
    && op in s0.disk.dirs && s0.disk.dirs[op].backup == Whole(row.before.text) && s0.disk.dirs[op].pending.Whole?
  }

  lemma ArmedOnTrack(s: Sys, op: OpId)
    requires Armed(s, op)
    ensures OnTrack(s, s, op) && Calm(s, op)
  {
  }

  // The evidence transaction of this trim goes through.
  predicate CanRecord(s0: Sys, events: Events, now: nat, op: OpId)
    requires op in s0.disk.ops && op in s0.hist && HasPlan(s0, op)
  {
    Record(events, op, ExactSpool(s0, op).removed, ExactSpool(s0, op).before, now, 0).Some?
  }

  lemma OnTrackRecord(s0: Sys, s: Sys, op: OpId)
    requires Calm(s0, op) && OnTrack(s0, s, op) && s.hist[op].replaced
    ensures var (sp, e0, e, now) := (ExactSpool(s0, op), s0.disk.events, s.disk.events, s.disk.clock);
            && (CanRecord(s0, e, now, op) ==> Enriched(e0, Record(e, op, sp.removed, sp.before, now, 0).value, sp, op))
            && Enriching(e0, Inserted(e, op, sp.removed, sp.before, now, 0), sp, op)
  {
    hide Record, Inserted, Enriched;
    RecordEnriches(s0.disk.events, s.disk.events, op, ExactSpool(s0, op), s.disk.clock);
  }

  // While the main process holds the lock, no reconciliation is past it.
  predicate LockedOut(s: Sys) {
    forall pid | pid in s.menders :: !MendInLock(s.menders[pid].pc)
  }

  lemma MainLocksOut(s: Sys, op: OpId)
    requires MendersOk(s) && s.lock == MainHolds(op)
    ensures LockedOut(s)
  {
    forall pid | pid in s.menders ensures !MendInLock(s.menders[pid].pc) {
      assert MenderOk(s, pid);
    }
  }

  predicate TrimReady(s: Sys, op: OpId) {
    Running(s, op) && s.mains[op].TrimRun? && MainOk(s, op) && OpOk(s, op) && LockedOut(s)
  }

  lemma NothingAdded(e0: Events, sp: Spool, op: OpId)
    ensures Enriching(e0, e0, sp, op)
  {
  }

  lemma ReplaceOnTrack(s0: Sys, s: Sys, op: OpId)
    requires Calm(s0, op) && OnTrack(s0, s, op) && TrimReady(s, op) && s.mains[op].pc.Replace?
    ensures OnTrack(s0, TrimStep(s, op), op)
  {
    hide OnTrack, Calm, TrimStep;
    NotStale(s0, s, op);
    ReplacedOnTrack(s0, s, op);
  }

  lemma NotStale(s0: Sys, s: Sys, op: OpId)
    requires Calm(s0, op) && OnTrack(s0, s, op) && TrimReady(s, op) && s.mains[op].pc.Replace?
    ensures s.disk.file == s.mains[op].seen
  {
    hide Enriching, Recorded, Record;
  }

  lemma ReplacedOnTrack(s0: Sys, s: Sys, op: OpId)
    requires Calm(s0, op) && OnTrack(s0, s, op) && TrimReady(s, op) && s.mains[op].pc.Replace? && s.disk.file == s.mains[op].seen
    ensures OnTrack(s0, TrimStep(s, op), op)
  {
    hide Enriching, Recorded;
    NothingAdded(s0.disk.events, ExactSpool(s0, op), op);
  }

  lemma MarkReplacedOnTrack(s0: Sys, s: Sys, op: OpId)
    requires Calm(s0, op) && OnTrack(s0, s, op) && TrimReady(s, op) && s.mains[op].pc.MarkReplaced?
    ensures OnTrack(s0, TrimStep(s, op), op)
  {
    hide Enriching, Recorded;
  }

  lemma ReadBackOnTrack(s0: Sys, s: Sys, op: OpId)
    requires Calm(s0, op) && OnTrack(s0, s, op) && TrimReady(s, op) && s.mains[op].pc.ReadBack?
    ensures OnTrack(s0, TrimStep(s, op), op)
  {
    hide Enriching, Recorded;
  }

  lemma MarkVerifiedOnTrack(s0: Sys, s: Sys, op: OpId)
    requires Calm(s0, op) && OnTrack(s0, s, op) && TrimReady(s, op) && s.mains[op].pc.MarkVerified?
    ensures OnTrack(s0, TrimStep(s, op), op)
  {
    hide Enriching, Recorded;
  }

  lemma RecordEvidenceOnTrack(s0: Sys, s: Sys, op: OpId)
    requires s.held.None? && Calm(s0, op) && OnTrack(s0, s, op) && TrimReady(s, op) && s.mains[op].pc.RecordEvidence?
    ensures OnTrack(s0, TrimStep(s, op), op)
  {
    var sp := ExactSpool(s0, op);
    OnTrackRecord(s0, s, op);
    RaiseOnTrack(s0, s, op);
    assert s.disk.dirs[op].pending == Whole(sp) && sp.before == Sha256(s.mains[op].seen.text);
    if CanRecord(s0, s.disk.events, s.disk.clock, op) {
      RecordedOnTrack(s0, s, op, Record(s.disk.events, op, sp.removed, sp.before, s.disk.clock, 0).value);
    }
  }

  lemma RecordedOnTrack(s0: Sys, s: Sys, op: OpId, events: Events)
    requires OnTrack(s0, s, op) && Running(s, op) && s.mains[op].TrimRun? && LockedOut(s) && s.mains[op].pc.RecordEvidence?
    requires Enriched(s0.disk.events, events, ExactSpool(s0, op), op) && s.hist[op].replaced && s.held.None?
    ensures OnTrack(s0, WithMain(s.(disk := s.disk.(events := events)), op, s.mains[op].(pc := RenameSpool)), op)
  {
    hide Enriching, Recorded;
  }

  lemma RaiseOnTrack(s0: Sys, s: Sys, op: OpId)
    requires OnTrack(s0, s, op) && Running(s, op)
    ensures OnTrack(s0, Raise(s, op), op)
  {
    if s.mains[op].Handler? {
      EndOnTrack(s0, s, op);
    } else {
      assert s.mains[op].TrimRun? && !s.mains[op].pc.BindParent?;
      HandedOver(s0, s, op);
    }
  }

  lemma HandedOver(s0: Sys, s: Sys, op: OpId)
    requires OnTrack(s0, s, op)
    ensures OnTrack(s0, WithMain(Unlock(s, MainHolds(op)), op, Handler(false, None)), op)
  {
    hide Enriched, FinalRow, Recorded;
  }

  lemma RenameSpoolOnTrack(s0: Sys, s: Sys, op: OpId)
    requires Calm(s0, op) && OnTrack(s0, s, op) && TrimReady(s, op) && s.mains[op].pc.RenameSpool?
    ensures OnTrack(s0, TrimStep(s, op), op)
  {
    RaiseOnTrack(s0, s, op);
    if !s.disk.dirs[op].pending.Absent? {
      RenamedOnTrack(s0, s, op);
    }
  }

  lemma RenamedOnTrack(s0: Sys, s: Sys, op: OpId)
    requires OnTrack(s0, s, op) && Running(s, op) && s.mains[op].TrimRun? && s.mains[op].pc.RenameSpool? && LockedOut(s)
    requires s.hist[op].replaced && s.disk.dirs[op].pending.Whole?
    ensures OnTrack(s0, WithMain(WithDir(s, op, Renamed(s.disk.dirs[op])), op, s.mains[op].(pc := MarkFinal)), op)
  {
    hide Enriching, Recorded;
  }

  lemma MarkFinalOnTrack(s0: Sys, s: Sys, op: OpId)
    requires Calm(s0, op) && OnTrack(s0, s, op) && TrimReady(s, op) && s.mains[op].pc.MarkFinal?
    ensures OnTrack(s0, TrimStep(s, op), op)
  {
    hide Enriching, Recorded;
  }

  lemma DropRecoveryOnTrack(s0: Sys, s: Sys, op: OpId)
    requires Calm(s0, op) && OnTrack(s0, s, op) && TrimReady(s, op) && s.mains[op].pc.DropRecovery?
    ensures OnTrack(s0, TrimStep(s, op), op)
  {
    hide Enriching, Recorded;
  }

  lemma TrimStepOnTrack(s0: Sys, s: Sys, op: OpId)
    requires !Waits(s, op) && Calm(s0, op) && OnTrack(s0, s, op) && TrimReady(s, op)
    ensures OnTrack(s0, TrimStep(s, op), op)
  {
    match s.mains[op].pc
    case Replace => ReplaceOnTrack(s0, s, op);
    case MarkReplaced => MarkReplacedOnTrack(s0, s, op);
    case ReadBack => ReadBackOnTrack(s0, s, op);
    case MarkVerified => MarkVerifiedOnTrack(s0, s, op);
    case RecordEvidence => RecordEvidenceOnTrack(s0, s, op);
    case RenameSpool => RenameSpoolOnTrack(s0, s, op);
    case MarkFinal => MarkFinalOnTrack(s0, s, op);
    case DropRecovery => DropRecoveryOnTrack(s0, s, op);
    case _ =>
  }

  lemma HandlerOnTrack(s0: Sys, s: Sys, op: OpId)
    requires OnTrack(s0, s, op) && Running(s, op) && s.mains[op].Handler? && MainOk(s, op) && OpOk(s, op) && s.disk.ops[op].spoolRef
    ensures OnTrack(s0, HandlerStep(s, op), op)
  {
    var m := s.mains[op];
    if m.read.Some? {
      FaultMarked(s0, s, op);
      EndOnTrack(s0, Mark(s, op, Change(RecoveryRequired, error := Set(Some(Raised)))), op);
    }
  }

  lemma FaultMarked(s0: Sys, s: Sys, op: OpId)
    requires OnTrack(s0, s, op) && Running(s, op) && s.mains[op].Handler?
    ensures OnTrack(s0, Mark(s, op, Change(RecoveryRequired, error := Set(Some(Raised)))), op)
  {
    hide Enriching, Recorded;
  }

  lemma EndOnTrack(s0: Sys, s: Sys, op: OpId)
    requires OnTrack(s0, s, op)
    ensures OnTrack(s0, EndMain(s, op), op)
  {
    hide Enriching, Recorded;
  }

  // ---- The reconciliations --------------------------------------------------------

  predicate MendReady(s: Sys, op: OpId, pid: Pid) {
    && pid in s.menders && s.menders[pid].op == op && op in s.disk.ops && MenderOk(s, pid)
    && (MendInLock(s.menders[pid].pc) ==> Alone(s, op, pid))
  }

  // The process in the lock is the only one there.
  predicate Alone(s: Sys, op: OpId, pid: Pid) {
    && (op in s.mains ==> s.mains[op].Handler?)
    && forall p | p in s.menders && p != pid :: !MendInLock(s.menders[p].pc)
  }

  lemma MenderLocksOut(s: Sys, op: OpId, pid: Pid)
    requires MendersOk(s) && MainsOk(s) && s.lock == MenderHolds(pid)
    requires op in s.mains ==> !s.mains[op].UndoRun? && (s.mains[op].TrimRun? ==> TrimRank(s.mains[op].pc) >= 2)
    ensures Alone(s, op, pid)
  {
    if op in s.mains { assert MainOk(s, op); }
    forall p | p in s.menders && p != pid ensures !MendInLock(s.menders[p].pc) {
      assert MenderOk(s, p);
    }
  }

  lemma LoadSpoolOnTrack(s0: Sys, s: Sys, op: OpId, pid: Pid)
    requires Calm(s0, op) && OnTrack(s0, s, op) && MendReady(s, op, pid) && s.menders[pid].pc.LoadSpool?
    ensures OnTrack(s0, MendStep(s, pid), op)
  {
    hide Enriching, Recorded;
  }

  lemma MendTakeLockOnTrack(s0: Sys, s: Sys, op: OpId, pid: Pid)
    requires Calm(s0, op) && OnTrack(s0, s, op) && MendReady(s, op, pid) && s.menders[pid].pc.MendTakeLock?
    ensures OnTrack(s0, MendStep(s, pid), op)
  {
    hide Enriching, Recorded;
  }

  lemma JudgeOnTrack(s0: Sys, s: Sys, op: OpId, pid: Pid)
    requires Calm(s0, op) && OnTrack(s0, s, op) && MendReady(s, op, pid) && s.menders[pid].pc.Judge?
    ensures OnTrack(s0, MendStep(s, pid), op)
  {
    hide Enriching, Recorded;
  }

  lemma RecheckOnTrack(s0: Sys, s: Sys, op: OpId, pid: Pid)
    requires Calm(s0, op) && OnTrack(s0, s, op) && MendReady(s, op, pid) && s.menders[pid].pc.Recheck?
    ensures OnTrack(s0, MendStep(s, pid), op)
  {
    hide Enriching, Recorded;
  }

  lemma MendRecordOnTrack(s0: Sys, s: Sys, op: OpId, pid: Pid)
    requires s.held.None? && Calm(s0, op) && OnTrack(s0, s, op) && MendReady(s, op, pid) && s.menders[pid].pc.MendRecord?
    ensures OnTrack(s0, MendStep(s, pid), op)
  {
    OnTrackRecord(s0, s, op);
  }

  lemma MendRenameOnTrack(s0: Sys, s: Sys, op: OpId, pid: Pid)
    requires Calm(s0, op) && OnTrack(s0, s, op) && MendReady(s, op, pid) && s.menders[pid].pc.MendRename?
    ensures OnTrack(s0, MendStep(s, pid), op)
  {
    hide Enriching, Recorded;
  }

  lemma MendMarkFinalOnTrack(s0: Sys, s: Sys, op: OpId, pid: Pid)
    requires Calm(s0, op) && OnTrack(s0, s, op) && MendReady(s, op, pid) && s.menders[pid].pc.MendMarkFinal?
    ensures OnTrack(s0, MendStep(s, pid), op)
  {
    hide Enriching, Recorded;
  }

  lemma MendDropRecoveryOnTrack(s0: Sys, s: Sys, op: OpId, pid: Pid)
    requires Calm(s0, op) && OnTrack(s0, s, op) && MendReady(s, op, pid) && s.menders[pid].pc.MendDropRecovery?
    ensures OnTrack(s0, MendStep(s, pid), op)
  {
    hide Enriching, Recorded;
  }

  lemma MendMarkFailedOnTrack(s0: Sys, s: Sys, op: OpId, pid: Pid)
    requires Calm(s0, op) && OnTrack(s0, s, op) && MendReady(s, op, pid) && s.menders[pid].pc.MendMarkFailed?
    ensures OnTrack(s0, MendStep(s, pid), op)
  {
    hide Enriching, Recorded;
  }

  lemma MendStepOnTrack(s0: Sys, s: Sys, op: OpId, pid: Pid)
    requires !MendWaits(s, pid) && Calm(s0, op) && OnTrack(s0, s, op) && MendReady(s, op, pid)
    ensures OnTrack(s0, MendStep(s, pid), op)
  {
    match s.menders[pid].pc
    case LoadSpool => LoadSpoolOnTrack(s0, s, op, pid);
    case MendTakeLock => MendTakeLockOnTrack(s0, s, op, pid);
    case Judge => JudgeOnTrack(s0, s, op, pid);
    case Recheck => RecheckOnTrack(s0, s, op, pid);
    case MendRecord => MendRecordOnTrack(s0, s, op, pid);
    case MendRename => MendRenameOnTrack(s0, s, op, pid);
    case MendMarkFinal => MendMarkFinalOnTrack(s0, s, op, pid);
    case MendDropRecovery => MendDropRecoveryOnTrack(s0, s, op, pid);
    case MendMarkFailed => MendMarkFailedOnTrack(s0, s, op, pid);
    case _ =>
  }

  lemma MainMoveOnTrack(s0: Sys, s: Sys, op: OpId)
    requires !Waits(s, op) && Calm(s0, op) && OnTrack(s0, s, op) && Inv(s) && Running(s, op)
    ensures OnTrack(s0, Apply(s, Step(op)), op)
  {
    hide OnTrack, Calm, TrimStep, UndoStep, HandlerStep, Inv, TrimReady;
    MainFacts(s0, s, op);
    if s.mains[op].TrimRun? { TrimStepOnTrack(s0, s, op); } else { HandlerOnTrack(s0, s, op); }
  }

  lemma MainFacts(s0: Sys, s: Sys, op: OpId)
    requires Calm(s0, op) && OnTrack(s0, s, op) && Inv(s) && Running(s, op)
    ensures MainOk(s, op) && OpOk(s, op) && !s.mains[op].UndoRun? && s.disk.ops[op].spoolRef
    ensures s.mains[op].TrimRun? ==>
              && TrimReady(s, op)
              && s.mains[op].pc in {TrimPc.Replace, MarkReplaced, TrimPc.ReadBack, MarkVerified, RecordEvidence, TrimPc.RenameSpool,
                                    TrimPc.MarkFinal, TrimPc.DropRecovery}
  {
    hide Enriching, Recorded;
    assert MainOk(s, op) && OpOk(s, op);
    if s.mains[op].TrimRun? { MainLocksOut(s, op); }
  }

  lemma MenderMoveOnTrack(s0: Sys, s: Sys, op: OpId, pid: Pid)
    requires !MendWaits(s, pid) && Calm(s0, op) && OnTrack(s0, s, op) && Inv(s) && pid in s.menders
    ensures OnTrack(s0, Apply(s, StepMend(pid)), op)
  {
    assert MenderOk(s, pid);
    if MendInLock(s.menders[pid].pc) { MenderLocksOut(s, op, pid); }
    MendStepOnTrack(s0, s, op, pid);
  }

  lemma NewMenderOnTrack(s0: Sys, s: Sys, op: OpId, pid: Pid)
    requires Calm(s0, op) && OnTrack(s0, s, op)
    ensures OnTrack(s0, StartMender(s, pid, op), op)
  {
    hide Enriching, Recorded;
  }

  lemma EndMenderOnTrack(s0: Sys, s: Sys, op: OpId, pid: Pid)
    requires OnTrack(s0, s, op)
    ensures OnTrack(s0, EndMender(s, pid), op)
  {
    hide Enriching, Recorded;
  }

  // A commit of what a failed reconciliation left open.
  lemma FlushOnTrack(s0: Sys, s: Sys, op: OpId)
    requires OnTrack(s0, s, op) && HeldOk(s)
    ensures OnTrack(s0, Flushed(s), op)
  {
    hide EventsOk, IsKeyOf, FinalRow;
    if s.held.Some? { assert forall k | k in s.disk.events :: k in s.held.value; }
  }

  lemma DiscardOnTrack(s0: Sys, s: Sys, op: OpId)
    requires OnTrack(s0, s, op)
    ensures OnTrack(s0, s.(held := None), op)
  {
    hide Enriching, Recorded, FinalRow;
  }

  lemma TickOnTrack(s0: Sys, s: Sys, op: OpId)
    requires OnTrack(s0, s, op)
    ensures OnTrack(s0, Apply(s, Tick), op)
  {
    hide Enriching, Recorded, FinalRow;
  }

  lemma StartOnTrack(s0: Sys, s: Sys, op: OpId, pid: Pid)
    requires Calm(s0, op) && OnTrack(s0, s, op) && HeldOk(s)
    ensures OnTrack(s0, Apply(s, StartMend(pid, op)), op)
  {
    hide OnTrack, Calm, HeldOk, Flushed;
    if !Over(s.disk, op) {
      FlushOnTrack(s0, s, op);
      NewMenderOnTrack(s0, Flushed(s), op, pid);
    }
  }

  lemma StepOnTrack(s0: Sys, s: Sys, op: OpId, l: Label)
    requires Calm(s0, op) && OnTrack(s0, s, op) && Inv(s) && About(l, op)
    ensures OnTrack(s0, Apply(s, l), op)
  {
    hide OnTrack, Calm, TrimStep, UndoStep, HandlerStep, MendStep, HeldOk, Raise;
    match l
    case Tick => TickOnTrack(s0, s, op);
    case Step(_) => if Running(s, op) && !Waits(s, op) { MainMoveOnTrack(s0, s, op); }
    case Fault(_) => if Running(s, op) { RaiseOnTrack(s0, s, op); }
    case Kill(_) => EndOnTrack(s0, s, op);
    case StartMend(pid, _) => StartOnTrack(s0, s, op, pid);
    case StepMend(pid) => if pid in s.menders && !MendWaits(s, pid) { MenderMoveOnTrack(s0, s, op, pid); }
    case KillMend(pid) => EndMenderOnTrack(s0, s, op, pid);
    case Commit => FlushOnTrack(s0, s, op);
    case Discard => DiscardOnTrack(s0, s, op);
  }

  lemma {:induction false} RunOnTrack(s0: Sys, s: Sys, op: OpId, ls: seq<Label>)
    requires Calm(s0, op) && OnTrack(s0, s, op) && Inv(s) && forall l | l in ls :: About(l, op)
    ensures OnTrack(s0, Run(s, ls), op) && Inv(Run(s, ls))
    decreases |ls|
  {
    if ls != [] {
      assert ls[0] in ls;
      StepOnTrack(s0, s, op, ls[0]);
      StepKeeps(s, ls[0]);
      RunOnTrack(s0, Apply(s, ls[0]), op, ls[1..]);
    }
  }

  // ---- Where it ends -------------------------------------------------------------------

  // What counts of the outcome: the text of the target, the journal row, the artifacts apart
  // from the recovery capability, and the evidence without its time stamps.
  datatype Core = Core(text: string, row: OpRow, dir: OpDir, evidence: map<EventKey, EvidenceRow>)

  function CoreOf(d: Disk, op: OpId): Core
    requires op in d.ops && op in d.dirs
  {
    Core(d.file.text, d.ops[op], d.dirs[op].(recoveryAuth := false), EvidenceView(d.events))
  }

  function Repeat(l: Label, n: nat): seq<Label> {
    if n == 0 then [] else [l] + Repeat(l, n - 1)
  }

  // A call of reconcile_writeback that nothing interrupts.
  function Mended(s: Sys, op: OpId, pid: Pid): Sys {
    Run(Apply(s, StartMend(pid, op)), Repeat(StepMend(pid), 8))
  }

  // The trim, run to its end without interruption.
  function Uninterrupted(s: Sys, op: OpId): Sys {
    Run(s, Repeat(Step(op), 8))
  }

  lemma RunNext(s: Sys, l: Label, n: nat)
    requires n > 0
    ensures Run(s, Repeat(l, n)) == Run(Apply(s, l), Repeat(l, n - 1))
  {
    assert Repeat(l, n)[1..] == Repeat(l, n - 1);
  }

  predicate Idle(s: Sys) {
    s.mains == map[] && s.menders == map[] && s.lock == Free
  }

  // The trim is over and has replaced the file.
  predicate Finished(s0: Sys, d: Disk, op: OpId)
    requires op in s0.disk.ops && op in s0.hist && HasPlan(s0, op) && op in s0.disk.dirs
  {
    var sp := ExactSpool(s0, op);
    && op in d.ops && op in d.dirs && d.file.text == sp.after.text && d.ops[op] == FinalRow(s0.disk.ops[op], sp)
    && d.dirs[op].(recoveryAuth := false) == OpDir(false, s0.disk.dirs[op].backup, Absent, Whole(sp))
    && Enriched(s0.disk.events, d.events, sp, op)
  }

  // The trim is over and the file is as it was.
  predicate Abandoned(s0: Sys, d: Disk, op: OpId)
    requires op in s0.disk.ops && op in s0.disk.dirs
  {
    && op in d.ops && op in d.dirs && d.file == s0.disk.file && d.events == s0.disk.events && d.dirs[op] == s0.disk.dirs[op]
    && d.ops[op].state == FailedBeforeMutation && SameTerms(s0.disk.ops[op], d.ops[op]) && d.ops[op].after == s0.disk.ops[op].after
  }

  lemma FinishedCore(s0: Sys, d: Disk, d': Disk, op: OpId)
    requires op in s0.disk.ops && op in s0.hist && HasPlan(s0, op) && op in s0.disk.dirs
    requires Finished(s0, d, op) && Finished(s0, d', op)
    ensures CoreOf(d, op) == CoreOf(d', op)
  {
    EnrichedView(s0.disk.events, d.events, d'.events, ExactSpool(s0, op), op);
  }

  lemma TerminalOutcome(s0: Sys, s: Sys, op: OpId)
    requires Calm(s0, op) && OnTrack(s0, s, op) && Inv(s) && Idle(s) && Terminal(s.disk.ops[op].state)
    ensures if s.hist[op].replaced then Finished(s0, s.disk, op) else Abandoned(s0, s.disk, op)
  {
    assert OpOk(s, op);
  }

  // Once terminal, an operation is not reconciled again.
  lemma TerminalMend(s: Sys, op: OpId, pid: Pid)
    requires op in s.disk.ops && Terminal(s.disk.ops[op].state) && s.menders == map[]
    ensures Mended(s, op, pid) == s
  {
    assert Apply(s, StartMend(pid, op)) == s;
    NoMenders(s, pid, 8);
  }

  lemma {:induction false} NoMenders(s: Sys, pid: Pid, n: nat)
    requires pid !in s.menders
    ensures Run(s, Repeat(StepMend(pid), n)) == s
  {
    if n > 0 {
      RunNext(s, StepMend(pid), n);
      NoMenders(s, pid, n - 1);
    }
  }

  function StepsLeft(pc: MendPc): nat {
    match pc
    case LoadSpool => 8 case MendTakeLock => 7 case Judge => 6 case Recheck => 5 case MendRecord => 4
    case MendRename => 3 case MendMarkFinal => 2 case MendDropRecovery => 1 case _ => 1
  }

  // A reconciliation that began at f and has the system to itself.
  ghost predicate OnlyMender(f: Sys, s: Sys, op: OpId, pid: Pid) {
    && s.mains == map[] && pid in s.menders && s.menders == map[pid := s.menders[pid]] && op in s.disk.dirs && op in s.disk.ops
    && s.held.None? && s.hist == f.hist
    && var m := s.menders[pid];
    && s.lock == (if MendInLock(m.pc) then MenderHolds(pid) else Free)
    && (m.pc in {MendTakeLock, Judge, Recheck, MendRecord, MendRename} ==> m.isPending == s.disk.dirs[op].pending.Whole?)
    && (m.pc.MendDropRecovery? ==> Done(s.disk.ops[op].state))
    && (StepsLeft(m.pc) >= 4 || m.pc.MendMarkFailed? ==> s == f.(menders := s.menders, lock := s.lock))
  }

  // Where it ends: in a terminal state, or with its evidence transaction open.
  ghost predicate MendOutcome(s0: Sys, f: Sys, s': Sys, op: OpId)
    requires op in s0.disk.ops && op in s0.hist && HasPlan(s0, op) && op in f.hist
  {
    if f.hist[op].replaced && !CanRecord(s0, f.disk.events, f.disk.clock, op) then s' == LeftOpen(s0, f, op)
    else op in s'.disk.ops && Terminal(s'.disk.ops[op].state) && Idle(s') && s'.held.None? && s'.hist == f.hist
  }

  function LeftOpen(s0: Sys, f: Sys, op: OpId): Sys
    requires op in s0.disk.ops && op in s0.hist && HasPlan(s0, op)
  {
    var sp := ExactSpool(s0, op);
    Held(f, Inserted(f.disk.events, op, sp.removed, sp.before, f.disk.clock, 0))
  }

  // One step of it.
  ghost predicate MendAdvances(s0: Sys, f: Sys, s: Sys, s': Sys, op: OpId, pid: Pid)
    requires op in s0.disk.ops && op in s0.hist && HasPlan(s0, op) && op in f.hist
  {
    && pid in s.menders
    && if pid in s'.menders then
         && OnlyMender(f, s', op, pid) && StepsLeft(s'.menders[pid].pc) < StepsLeft(s.menders[pid].pc)
         && Justified(s0, f, s', op, pid)
       else MendOutcome(s0, f, s', op)
  }

  // What lies behind it.
  ghost predicate Justified(s0: Sys, f: Sys, s: Sys, op: OpId, pid: Pid)
    requires op in s0.disk.ops && op in s0.hist && HasPlan(s0, op)
  {
    pid in s.menders && s.menders[pid].pc in {MendRename, MendMarkFinal, MendDropRecovery} ==>
      CanRecord(s0, f.disk.events, f.disk.clock, op)
  }

  ghost predicate MendSetting(s0: Sys, f: Sys, s: Sys, op: OpId, pid: Pid) {
    && Calm(s0, op) && OnTrack(s0, s, op) && op in f.hist && OnlyMender(f, s, op, pid) && OpOk(s, op) && MenderOk(s, pid)
    && Justified(s0, f, s, op, pid)
  }

  lemma LoadAdvances(s0: Sys, f: Sys, s: Sys, op: OpId, pid: Pid)
    requires Idle(f) && f.held.None? && MendSetting(s0, f, s, op, pid)
    requires s.menders[pid].pc.LoadSpool? || s.menders[pid].pc.MendTakeLock?
    ensures MendAdvances(s0, f, s, Apply(s, StepMend(pid)), op, pid)
  {
    hide Enriching, Recorded;
  }

  lemma JudgeAdvances(s0: Sys, f: Sys, s: Sys, op: OpId, pid: Pid)
    requires Idle(f) && f.held.None? && MendSetting(s0, f, s, op, pid) && s.menders[pid].pc.Judge?
    ensures MendAdvances(s0, f, s, Apply(s, StepMend(pid)), op, pid)
  {
    hide Enriching, Recorded;
  }

  lemma RecheckAdvances(s0: Sys, f: Sys, s: Sys, op: OpId, pid: Pid)
    requires Idle(f) && f.held.None? && MendSetting(s0, f, s, op, pid) && s.menders[pid].pc.Recheck?
    ensures MendAdvances(s0, f, s, Apply(s, StepMend(pid)), op, pid)
  {
    hide Enriching, Recorded;
  }

  lemma RecordAdvances(s0: Sys, f: Sys, s: Sys, op: OpId, pid: Pid)
    requires Idle(f) && f.held.None? && MendSetting(s0, f, s, op, pid) && s.menders[pid].pc.MendRecord?
    ensures MendAdvances(s0, f, s, Apply(s, StepMend(pid)), op, pid)
  {
    hide Enriching, Recorded, Record, Inserted;
    assert s.menders - {pid} == map[] && s.menders[pid].spool == ExactSpool(s0, op);
  }

  lemma RenameAdvances(s0: Sys, f: Sys, s: Sys, op: OpId, pid: Pid)
    requires Idle(f) && f.held.None? && MendSetting(s0, f, s, op, pid) && s.menders[pid].pc.MendRename?
    ensures MendAdvances(s0, f, s, Apply(s, StepMend(pid)), op, pid)
  {
    hide Enriching, Recorded;
  }

  lemma FinalAdvances(s0: Sys, f: Sys, s: Sys, op: OpId, pid: Pid)
    requires Idle(f) && f.held.None? && MendSetting(s0, f, s, op, pid) && s.menders[pid].pc.MendMarkFinal?
    ensures MendAdvances(s0, f, s, Apply(s, StepMend(pid)), op, pid)
  {
    hide Enriching, Recorded;
  }

  lemma LastAdvances(s0: Sys, f: Sys, s: Sys, op: OpId, pid: Pid)
    requires Idle(f) && f.held.None? && MendSetting(s0, f, s, op, pid)
    requires s.menders[pid].pc.MendDropRecovery? || s.menders[pid].pc.MendMarkFailed?
    ensures MendAdvances(s0, f, s, Apply(s, StepMend(pid)), op, pid)
  {
    hide Enriching, Recorded;
    assert s.menders - {pid} == map[];
  }

  // What a reconciliation of this trim can be about to do.
  lemma MendFacts(s0: Sys, s: Sys, op: OpId, pid: Pid)
    requires Calm(s0, op) && OnTrack(s0, s, op) && Inv(s) && pid in s.menders
    ensures MenderOk(s, pid) && op in s.disk.ops && OpOk(s, op)
    ensures s.menders[pid].pc in {LoadSpool, MendTakeLock, Judge, Recheck, MendRecord, MendRename, MendMarkFinal,
      MendDropRecovery, MendMarkFailed}
  {
    assert MenderOk(s, pid) && OpOk(s, op);
  }

  lemma PresentMender(f: Sys, s: Sys, op: OpId, pid: Pid)
    requires OnlyMender(f, s, op, pid)
    ensures pid in s.menders
  {
  }

  lemma MendOnce(s0: Sys, f: Sys, s: Sys, op: OpId, pid: Pid)
    requires Idle(f) && f.held.None? && MendSetting(s0, f, s, op, pid) && Inv(s)
    ensures var s' := Apply(s, StepMend(pid)); MendAdvances(s0, f, s, s', op, pid) && OnTrack(s0, s', op) && Inv(s')
  {
    hide OnTrack, Calm, Inv, Apply, MendAdvances, OpOk, MenderOk, Justified, OnlyMender, Idle;
    assert pid in s.menders by { PresentMender(f, s, op, pid); }
    MendFacts(s0, s, op, pid);
    StepOnTrack(s0, s, op, StepMend(pid));
    StepKeeps(s, StepMend(pid));
    match s.menders[pid].pc
    case LoadSpool | MendTakeLock => LoadAdvances(s0, f, s, op, pid);
    case Judge => JudgeAdvances(s0, f, s, op, pid);
    case Recheck => RecheckAdvances(s0, f, s, op, pid);
    case MendRecord => RecordAdvances(s0, f, s, op, pid);
    case MendRename => RenameAdvances(s0, f, s, op, pid);
    case MendMarkFinal => FinalAdvances(s0, f, s, op, pid);
    case MendDropRecovery | MendMarkFailed => LastAdvances(s0, f, s, op, pid);
    case _ =>
  }

  lemma {:induction false} ReconciliationEnds(s0: Sys, f: Sys, s: Sys, op: OpId, pid: Pid, n: nat)
    requires Idle(f) && f.held.None? && Calm(s0, op) && OnTrack(s0, s, op) && Inv(s) && op in f.hist
    requires if pid in s.menders then OnlyMender(f, s, op, pid) && Justified(s0, f, s, op, pid) && StepsLeft(s.menders[pid].pc) <= n
             else MendOutcome(s0, f, s, op)
    ensures var s' := Run(s, Repeat(StepMend(pid), n)); OnTrack(s0, s', op) && Inv(s') && MendOutcome(s0, f, s', op)
    decreases n
  {
    hide OnTrack, Inv, Apply, OpOk, MenderOk, MendOutcome, Calm, OnlyMender, Justified;
    if pid !in s.menders {
      NoMenders(s, pid, n);
    } else {
      MendFacts(s0, s, op, pid);
      MendOnce(s0, f, s, op, pid);
      RunNext(s, StepMend(pid), n);
      ReconciliationEnds(s0, f, Apply(s, StepMend(pid)), op, pid, n - 1);
    }
  }

  lemma MendStarts(s0: Sys, s: Sys, op: OpId, pid: Pid)
    requires Calm(s0, op) && OnTrack(s0, s, op) && Inv(s) && Idle(s) && !Terminal(s.disk.ops[op].state)
    ensures var s' := Apply(s, StartMend(pid, op));
            pid in s'.menders && OnlyMender(Flushed(s), s', op, pid) && StepsLeft(s'.menders[pid].pc) <= 8 && Justified(s0, Flushed(s), s', op, pid)
  {
    hide Enriching, Recorded;
    assert OpOk(s, op);
  }

  // One reconciliation of an operation that is not over.
  lemma MendSettles(s0: Sys, s: Sys, op: OpId, pid: Pid)
    requires Calm(s0, op) && OnTrack(s0, s, op) && Inv(s) && Idle(s) && !Terminal(s.disk.ops[op].state)
    ensures var s' := Mended(s, op, pid); OnTrack(s0, s', op) && Inv(s') && MendOutcome(s0, Flushed(s), s', op)
  {
    hide Calm, Inv, Apply, OnlyMender, Justified, MendOutcome;
    MendStarts(s0, s, op, pid);
    StepOnTrack(s0, s, op, StartMend(pid, op));
    StepKeeps(s, StartMend(pid, op));
    ReconciliationEnds(s0, Flushed(s), Apply(s, StartMend(pid, op)), op, pid, 8);
  }

  // ---- The uninterrupted trim --------------------------------------------------------------

  // The trim alone, on its way; nothing is on record before the evidence transaction.
  predicate OnlyTrim(s0: Sys, s: Sys, op: OpId) {
    && s.menders == map[] && s.mains.Keys == {op} && s.mains[op].TrimRun? && s.held.None?
    && (TrimRank(s.mains[op].pc) <= 14 ==> s.disk.events == s0.disk.events && s.disk.clock == s0.disk.clock)
  }

  predicate TrimAdvances(s0: Sys, s: Sys, s': Sys, op: OpId) {
    && op in s.mains && s.mains[op].TrimRun? && op in s'.hist && s'.hist[op].replaced
    && if op in s'.mains then OnlyTrim(s0, s', op) && TrimRank(s'.mains[op].pc) == TrimRank(s.mains[op].pc) + 1
       else s.mains[op].pc.DropRecovery? && Idle(s') && op in s'.disk.ops && Terminal(s'.disk.ops[op].state)
  }

  lemma ReplaceAdvances(s0: Sys, s: Sys, op: OpId)
    requires Calm(s0, op) && OnTrack(s0, s, op) && TrimReady(s, op) && OnlyTrim(s0, s, op)
    requires s.mains[op].pc.Replace? || s.mains[op].pc.MarkReplaced?
    ensures TrimAdvances(s0, s, Apply(s, Step(op)), op)
  {
    hide Enriching, Recorded;
  }

  lemma VerifyAdvances(s0: Sys, s: Sys, op: OpId)
    requires Calm(s0, op) && OnTrack(s0, s, op) && TrimReady(s, op) && OnlyTrim(s0, s, op)
    requires s.mains[op].pc.ReadBack? || s.mains[op].pc.MarkVerified?
    ensures TrimAdvances(s0, s, Apply(s, Step(op)), op)
  {
    hide Enriching, Recorded;
  }

  lemma EvidenceAdvances(s0: Sys, s: Sys, op: OpId)
    requires Calm(s0, op) && OnTrack(s0, s, op) && TrimReady(s, op) && OnlyTrim(s0, s, op)
    requires s.mains[op].pc.RecordEvidence? && CanRecord(s0, s0.disk.events, s0.disk.clock, op)
    ensures TrimAdvances(s0, s, Apply(s, Step(op)), op)
  {
    hide Enriching, Recorded, Record;
    var sp := ExactSpool(s0, op);
    assert s.disk.dirs[op].pending == Whole(sp) && sp.before == Sha256(s.mains[op].seen.text);
  }

  lemma SpoolAdvances(s0: Sys, s: Sys, op: OpId)
    requires Calm(s0, op) && OnTrack(s0, s, op) && TrimReady(s, op) && OnlyTrim(s0, s, op) && s.mains[op].pc.RenameSpool?
    ensures TrimAdvances(s0, s, Apply(s, Step(op)), op)
  {
    hide Enriching, Recorded;
  }

  lemma FinishAdvances(s0: Sys, s: Sys, op: OpId)
    requires Calm(s0, op) && OnTrack(s0, s, op) && TrimReady(s, op) && OnlyTrim(s0, s, op) && s.mains[op].pc.MarkFinal?
    ensures TrimAdvances(s0, s, Apply(s, Step(op)), op)
  {
    hide Enriching, Recorded;
  }

  lemma DropAdvances(s0: Sys, s: Sys, op: OpId)
    requires Calm(s0, op) && OnTrack(s0, s, op) && TrimReady(s, op) && OnlyTrim(s0, s, op)
    requires s.mains[op].pc.DropRecovery?
    ensures TrimAdvances(s0, s, Apply(s, Step(op)), op)
  {
    hide Enriching, Recorded;
    assert s.mains - {op} == map[];
  }

  lemma TrimFacts(s0: Sys, s: Sys, op: OpId)
    requires OnTrack(s0, s, op) && Inv(s) && OnlyTrim(s0, s, op)
    ensures Running(s, op) && s.mains[op].TrimRun?
  {
    hide Enriching, Recorded;
    assert MainOk(s, op);
  }

  lemma TrimOnce(s0: Sys, s: Sys, op: OpId)
    requires Calm(s0, op) && OnTrack(s0, s, op) && Inv(s) && OnlyTrim(s0, s, op) && CanRecord(s0, s0.disk.events, s0.disk.clock, op)
    ensures var s' := Apply(s, Step(op)); TrimAdvances(s0, s, s', op) && OnTrack(s0, s', op) && Inv(s')
  {
    hide Apply, TrimAdvances, OnTrack, Inv, Calm, CanRecord, TrimReady;
    TrimFacts(s0, s, op);
    MainFacts(s0, s, op);
    StepOnTrack(s0, s, op, Step(op));
    StepKeeps(s, Step(op));
    match s.mains[op].pc
    case Replace | MarkReplaced => ReplaceAdvances(s0, s, op);
    case ReadBack | MarkVerified => VerifyAdvances(s0, s, op);
    case RecordEvidence => EvidenceAdvances(s0, s, op);
    case RenameSpool => SpoolAdvances(s0, s, op);
    case MarkFinal => FinishAdvances(s0, s, op);
    case DropRecovery => DropAdvances(s0, s, op);
    case _ =>
  }

  lemma {:induction false} TrimEnds(s0: Sys, s: Sys, op: OpId, n: nat)
    requires Calm(s0, op) && OnTrack(s0, s, op) && Inv(s) && OnlyTrim(s0, s, op) && CanRecord(s0, s0.disk.events, s0.disk.clock, op)
    requires TrimRank(s.mains[op].pc) + n == 18
    ensures var s' := Run(s, Repeat(Step(op), n));
            && OnTrack(s0, s', op) && Inv(s') && Idle(s') && s'.hist[op].replaced && Terminal(s'.disk.ops[op].state)
    decreases n
  {
    hide OnTrack, Inv, Apply, Calm, CanRecord;
    TrimOnce(s0, s, op);
    RunNext(s, Step(op), n);
    var s' := Apply(s, Step(op));
    if op in s'.mains {
      TrimEnds(s0, s', op, n - 1);
    } else {
      assert Run(s', Repeat(Step(op), 0)) == s';
    }
  }

  // ---- The theorem ---------------------------------------------------------------------

  // Crash, raise, reconcile, commit, roll back and let time pass in any way; then, with no
  // process left, one reconciliation. When the file was not replaced it ends as a failure
  // without effect. When it was, the operation is settled exactly if it was before or its
  // evidence can be recorded at that time, and then like the uninterrupted trim; otherwise
  // nothing but the open transaction changes. Once it is settled, another one changes nothing.
  lemma RecoveryEquivalence(s0: Sys, op: OpId, ls: seq<Label>, pid: Pid)
    requires Armed(s0, op) && (forall l | l in ls :: About(l, op)) && Idle(Run(s0, ls))
    ensures var (s, s') := (Run(s0, ls), Mended(Run(s0, ls), op, pid));
            && op in s.hist && op in s.disk.ops && op in s'.disk.ops && op in s'.disk.dirs
            && var (f, over) := (Flushed(s), Terminal(s.disk.ops[op].state));
            && (!s.hist[op].replaced ==> Abandoned(s0, s'.disk, op))
            && (s.hist[op].replaced ==>
                  (Finished(s0, s'.disk, op) <==> over || CanRecord(s0, f.disk.events, f.disk.clock, op))
                  && (!Finished(s0, s'.disk, op) ==> s' == LeftOpen(s0, f, op)))
            && (!s.hist[op].replaced || Finished(s0, s'.disk, op) ==> forall again :: Mended(s', op, again) == s')
    ensures CanRecord(s0, s0.disk.events, s0.disk.clock, op) ==>
              var (s', full) := (Mended(Run(s0, ls), op, pid), Uninterrupted(s0, op));
              && op in full.disk.ops && op in full.disk.dirs && full.disk.ops[op].state == FinalState(PlanOf(s0, op).reached)
              && (Finished(s0, s'.disk, op) ==> CoreOf(s'.disk, op) == CoreOf(full.disk, op))
  {
    hide Apply, Run, CanRecord, OnTrack, Calm, Inv;
    ArmedOnTrack(s0, op);
    RunOnTrack(s0, s0, op, ls);
    RecoverySettles(s0, Run(s0, ls), op, pid);
    if CanRecord(s0, s0.disk.events, s0.disk.clock, op) { FullOutcome(s0, Mended(Run(s0, ls), op, pid), op); }
  }

  lemma FullOutcome(s0: Sys, s': Sys, op: OpId)
    requires Armed(s0, op) && CanRecord(s0, s0.disk.events, s0.disk.clock, op)
    ensures var full := Uninterrupted(s0, op);
            && op in full.disk.ops && op in full.disk.dirs && full.disk.ops[op].state == FinalState(PlanOf(s0, op).reached)
            && Finished(s0, full.disk, op) && (Finished(s0, s'.disk, op) ==> CoreOf(s'.disk, op) == CoreOf(full.disk, op))
  {
    hide Apply, Run, CanRecord, OnTrack, Calm, Inv, Enriched;
    ArmedOnTrack(s0, op);
    ArmedAlone(s0, op);
    TrimEnds(s0, s0, op, 8);
    TerminalOutcome(s0, Uninterrupted(s0, op), op);
    if Finished(s0, s'.disk, op) { FinishedCore(s0, s'.disk, Uninterrupted(s0, op).disk, op); }
  }

  lemma ArmedAlone(s0: Sys, op: OpId)
    requires Armed(s0, op)
    ensures OnlyTrim(s0, s0, op) && TrimRank(s0.mains[op].pc) == 10 && Inv(s0)
  {
    hide Inv;
  }

  lemma RecoverySettles(s0: Sys, s: Sys, op: OpId, pid: Pid)
    requires Calm(s0, op) && OnTrack(s0, s, op) && Inv(s) && Idle(s)
    ensures var s' := Mended(s, op, pid);
            && op in s.hist && op in s.disk.ops && op in s'.disk.ops && op in s'.disk.dirs
            && var (f, over) := (Flushed(s), Terminal(s.disk.ops[op].state));
            && (!s.hist[op].replaced ==> Abandoned(s0, s'.disk, op))
            && (s.hist[op].replaced ==>
                  (Finished(s0, s'.disk, op) <==> over || CanRecord(s0, f.disk.events, f.disk.clock, op))
                  && (!Finished(s0, s'.disk, op) ==> s' == LeftOpen(s0, f, op)))
            && (!s.hist[op].replaced || Finished(s0, s'.disk, op) ==> forall again :: Mended(s', op, again) == s')
  {
    hide Inv, Abandoned, CanRecord, Mended, Enriching, Enriched;
    if Terminal(s.disk.ops[op].state) {
      TerminalMend(s, op, pid);
      TerminalOutcome(s0, s, op);
      forall again ensures Mended(s, op, again) == s { TerminalMend(s, op, again); }
    } else {
      MendSettles(s0, s, op, pid);
      var s' := Mended(s, op, pid);
      if s.hist[op].replaced && !CanRecord(s0, Flushed(s).disk.events, s.disk.clock, op) {
        assert s'.disk.ops == s.disk.ops;
      } else {
        TerminalOutcome(s0, s', op);
        forall again ensures Mended(s', op, again) == s' { TerminalMend(s', op, again); }
      }
    }
  }
}
