// The properties of the writeback protocol, for every run from an initial state.
module WritebackTheorems {
  import opened Options
  import opened Trim
  import opened Blocks
  import opened Writeback
  import opened WritebackSafety

  function Reached(target: string, file: File, ls: seq<Label>): Sys {
    Run(Init(target, file), ls)
  }

  lemma ReachedOk(target: string, file: File, ls: seq<Label>)
    ensures Inv(Reached(target, file, ls)) && Grows(Init(target, file), Reached(target, file, ls))
  {
    InitOk(target, file);
    RunKeeps(Init(target, file), ls);
  }

  // ---- Write-ahead safety ------------------------------------------------------------

  // The durable recovery data of a trim: the backup is the exact file before the trim, and
  // one spool, pending or committed, holds exactly the blocks that the trim takes out.
  predicate WrittenAhead(s: Sys, op: OpId, p: Plan) {
    && op in s.disk.ops && op in s.disk.dirs
    && var (before, dir) := (s.disk.ops[op].before.text, s.disk.dirs[op]);
    && dir.backup == Whole(before)
    && var spool := Spool(Sha256(before), Sha256(p.after), p.removed, p.reached);
    && (dir.pending == Whole(spool) || dir.committed == Whole(spool))
    && multiset(Split(p.after)) + multiset(p.removed) == multiset(Split(before))
    && Interleaves(Split(p.after), p.removed, Split(before)) && p.removed != []
  }

  // Once a trim has replaced the file, nothing of the old file is lost, whatever else has
  // happened: other trims, rollbacks, reconciliations, crashes, exceptions and edits.
  lemma WriteAhead(target: string, file: File, ls: seq<Label>, op: OpId)
    ensures var s := Reached(target, file, ls);
            op in s.hist && s.hist[op].trim && s.hist[op].replaced ==>
              && op in s.disk.ops
              && var r := PlanTrim(s.disk.ops[op].before.text, target, s.hist[op].policy);
              && r.Ok? && WrittenAhead(s, op, r.value)
              && (s.disk.ops[op].state in {Completed, CompletedPartial} ==>
                    Recorded(s.disk.events, SpoolOf(s.disk.ops[op].before.text, r.value)))
  {
    var s := Reached(target, file, ls);
    ReachedOk(target, file, ls);
    if op in s.hist && s.hist[op].trim && s.hist[op].replaced {
      assert OpOk(s, op);
      TrimPartition(s.disk.ops[op].before.text, target, s.hist[op].policy);
    }
  }

  // The states from which a caller may retry: the operation has not replaced the file.
  // A failure that reconciliation reports is told apart by its spool reference.
  lemma NotMutated(target: string, file: File, ls: seq<Label>, op: OpId)
    ensures var s := Reached(target, file, ls);
            op in s.disk.ops && op in s.hist && s.hist[op].trim
            && (s.disk.ops[op].state in {Authorized, Locked, BackupDurable}
                || (s.disk.ops[op].state == FailedBeforeMutation && !s.disk.ops[op].spoolRef))
            ==> !s.hist[op].replaced
  {
    ReachedOk(target, file, ls);
    var s := Reached(target, file, ls);
    if op in s.disk.ops { assert OpOk(s, op); }
  }

  // ---- Verdicts ------------------------------------------------------------------------

  // What a finished trim says, in lengths: completed with no error when the new file has at
  // most the share of its limit that the policy aims at, completed in part when it has more;
  // and when the trim changes nothing, blocked exactly if the file is over its limit or at the
  // trigger.
  predicate Verdict(target: string, policy: Policy, row: OpRow) {
    var (text, limit, r) := (row.before.text, LimitFor(policy, target), PlanTrim(row.before.text, target, policy));
    && limit.Ok? && r.Ok?
    && (r.value.after != text ==>
          var fits := |r.value.after| * policy.trimTarget.den <= limit.value * policy.trimTarget.num;
          row.state == (if fits then Completed else CompletedPartial) && row.error == (if fits then None else Some(Error.TargetUnreachable)))
    && (r.value.after == text ==>
          var full := |text| > limit.value || |text| * policy.trigger.den >= policy.trigger.num * limit.value;
          row.state == (if full then BlockedTargetUnreachable else Completed) && row.error == (if full then Some(Error.TargetUnreachable) else None))
  }

  predicate Concluded(st: State) {
    st in {Completed, CompletedPartial, BlockedTargetUnreachable}
  }

  lemma VerdictHolds(s: Sys, op: OpId)
    requires Inv(s) && s.planner == PlanTrim && op in s.disk.ops && op in s.hist && s.hist[op].trim && Concluded(s.disk.ops[op].state)
    ensures Verdict(s.disk.target, s.hist[op].policy, s.disk.ops[op])
  {
    hide PlanTrim;
    assert OpOk(s, op);
    var (text, policy) := (s.disk.ops[op].before.text, s.hist[op].policy);
    BelowTriggerExactly(text, s.disk.target, policy);
    RefusedExactly(text, s.disk.target, policy);
    TrimPartition(text, s.disk.target, policy);
    if PlanTrim(text, s.disk.target, policy).value.reason != BelowTrigger { VerdictExactly(text, s.disk.target, policy); }
  }

  lemma VerdictOfEveryRun(target: string, file: File, ls: seq<Label>, op: OpId)
    ensures var s := Reached(target, file, ls);
            op in s.disk.ops && op in s.hist && s.hist[op].trim && s.disk.ops[op].state in {Completed, CompletedPartial, BlockedTargetUnreachable}
            ==> Verdict(target, s.hist[op].policy, s.disk.ops[op])
  {
    ReachedOk(target, file, ls);
    var s := Reached(target, file, ls);
    if op in s.disk.ops && op in s.hist && s.hist[op].trim && Concluded(s.disk.ops[op].state) { VerdictHolds(s, op); }
  }

  // ---- Authorizations ------------------------------------------------------------------

  // Consumed authorizations and operations are in bijection, and an operation carries the
  // terms of its authorization.
  lemma OneOperationPerAuthorization(target: string, file: File, ls: seq<Label>)
    ensures var d := Reached(target, file, ls).disk;
            && (forall op | op in d.ops ::
                  && d.ops[op].auth in d.auths && d.auths[d.ops[op].auth].consumed && d.auths[d.ops[op].auth].op == op
                  && d.ops[op].before == d.auths[d.ops[op].auth].before)
            && (forall id | id in d.auths && d.auths[id].consumed :: d.auths[id].op in d.ops && d.ops[d.auths[id].op].auth == id)
            && (forall x, y | x in d.ops && y in d.ops && d.ops[x].auth == d.ops[y].auth :: x == y)
            && (forall id | id in d.auths && !d.auths[id].consumed :: d.auths[id].op !in d.ops)
  {
    ReachedOk(target, file, ls);
    var s := Reached(target, file, ls);
    forall op | op in s.disk.ops
      ensures s.disk.ops[op].auth in s.disk.auths && s.disk.auths[s.disk.ops[op].auth].consumed
              && s.disk.auths[s.disk.ops[op].auth].op == op
      ensures s.disk.ops[op].before == s.disk.auths[s.disk.ops[op].auth].before
    {
      assert OpOk(s, op);
    }
    forall id | id in s.disk.auths
      ensures if s.disk.auths[id].consumed then s.disk.auths[id].op in s.disk.ops && s.disk.ops[s.disk.auths[id].op].auth == id
              else s.disk.auths[id].op !in s.disk.ops
    {
      assert AuthOk(s.disk, id);
    }
  }

  // An authorization that was consumed stays consumed. A rollback that presents it again does
  // nothing, and a trim nothing but commit what an earlier call on its connection left open.
  lemma ConsumedForGood(s: Sys, ls: seq<Label>, id: AuthId, policy: Policy, original: OpId)
    requires Inv(s) && id in s.disk.auths && s.disk.auths[id].consumed
    ensures var s' := Run(s, ls);
            && id in s'.disk.auths && s'.disk.auths[id] == s.disk.auths[id]
            && Apply(s', StartTrim(id, policy)) == Flushed(s') && Apply(s', StartUndo(id, original)) == s'
  {
    RunKeeps(s, ls);
  }

  // ---- Who changes the file ------------------------------------------------------------

  // The file changes by an outside edit, by the trim of content that hashes to the expected
  // value, whose backup and spool are already durable, or by a rollback from the expected
  // content to the exact bytes before the trim that it undoes.
  lemma FileChanges(s: Sys, l: Label)
    requires Inv(s) && Apply(s, l).disk.file != s.disk.file
    ensures l.Edit? || (l.Step? && Running(s, l.op))
    ensures l.Step? && s.mains[l.op].TrimRun? ==>
              && s.disk.ops[l.op].spoolRef && SpoolOk(s, l.op) && s.disk.dirs[l.op].backup == Whole(s.disk.file.text)
              && Sha256(s.disk.file.text) == s.disk.ops[l.op].before && s.disk.file == s.mains[l.op].seen
              && Apply(s, l).disk.file.text == PlanOf(s, l.op).after
    ensures l.Step? && !s.mains[l.op].TrimRun? ==>
              && s.mains[l.op].UndoRun? && s.mains[l.op].original in s.disk.ops
              && Sha256(s.disk.file.text) == s.disk.ops[l.op].before
              && Apply(s, l).disk.file.text == s.disk.ops[s.mains[l.op].original].before.text
              && (s.disk.ops[s.mains[l.op].original].kind == LiveOverflowTrim ==>
                    s.disk.ops[s.mains[l.op].original].after == Some(Sha256(s.disk.file.text)))
  {
    FileMover(s, l);
    if l.Step? {
      assert MainOk(s, l.op) && OpOk(s, l.op);
    }
  }

  lemma FileMover(s: Sys, l: Label)
    requires Apply(s, l).disk.file != s.disk.file
    ensures l.Edit? || (l.Step? && Running(s, l.op)
              && ((s.mains[l.op].TrimRun? && s.mains[l.op].pc.Replace? && s.disk.file == s.mains[l.op].seen)
                  || (s.mains[l.op].UndoRun? && s.mains[l.op].upc.UndoReplace? && s.disk.file == s.mains[l.op].seen)))
  {
    hide MendStep, MainWrites, MendWrites;
    match l
    case Step(op) =>
      if Running(s, op) {
        if s.mains[op].TrimRun? && !s.mains[op].pc.Replace? { TrimFile(s, op); }
        else if s.mains[op].UndoRun? && !s.mains[op].upc.UndoReplace? { UndoFile(s, op); }
      }
    case StepMend(pid) =>
      if pid in s.menders && s.menders[pid].op in s.disk.ops { MendFile(s, pid); }
    case _ =>
  }

  lemma TrimFile(s: Sys, op: OpId)
    requires Running(s, op) && s.mains[op].TrimRun? && !s.mains[op].pc.Replace?
    ensures TrimStep(s, op).disk.file == s.disk.file
  {
    hide TrimStep;
    var r := TrimRank(s.mains[op].pc);
    if r <= 7 { TrimFileEarly(s, op); } else if r <= 12 { TrimFileMiddle(s, op); } else { TrimFileLate(s, op); }
  }

  lemma TrimFileEarly(s: Sys, op: OpId)
    requires Running(s, op) && s.mains[op].TrimRun? && TrimRank(s.mains[op].pc) <= 7
    ensures TrimStep(s, op).disk.file == s.disk.file
  {
    hide Record, SpoolOf, Renamed, Altered, FinalState, FinalError;
  }

  lemma TrimFileMiddle(s: Sys, op: OpId)
    requires Running(s, op) && s.mains[op].TrimRun? && !s.mains[op].pc.Replace? && 7 < TrimRank(s.mains[op].pc) <= 12
    ensures TrimStep(s, op).disk.file == s.disk.file
  {
    hide Record, SpoolOf, Renamed, Altered, FinalState, FinalError;
  }

  lemma TrimFileLate(s: Sys, op: OpId)
    requires Running(s, op) && s.mains[op].TrimRun? && TrimRank(s.mains[op].pc) > 12
    ensures TrimStep(s, op).disk.file == s.disk.file
  {
    hide Record, SpoolOf, Renamed, Altered, FinalState, FinalError;
  }

  lemma UndoFile(s: Sys, op: OpId)
    requires Running(s, op) && s.mains[op].UndoRun? && !s.mains[op].upc.UndoReplace?
    ensures UndoStep(s, op).disk.file == s.disk.file
  {
    if UndoRank(s.mains[op].upc) <= 6 { UndoFileEarly(s, op); } else { UndoFileLate(s, op); }
  }

  lemma UndoFileEarly(s: Sys, op: OpId)
    requires Running(s, op) && s.mains[op].UndoRun? && UndoRank(s.mains[op].upc) < 6
    ensures UndoStep(s, op).disk.file == s.disk.file
  {
  }

  lemma UndoFileLate(s: Sys, op: OpId)
    requires Running(s, op) && s.mains[op].UndoRun? && UndoRank(s.mains[op].upc) > 6
    ensures UndoStep(s, op).disk.file == s.disk.file
  {
  }

  lemma MendFile(s: Sys, pid: Pid)
    requires pid in s.menders && s.menders[pid].op in s.disk.ops
    ensures MendStep(s, pid).disk.file == s.disk.file
  {
    if s.menders[pid].pc in {LoadSpool, MendTakeLock, Judge, Recheck, MendRecord} { MendFileEarly(s, pid); } else { MendFileLate(s, pid); }
  }

  lemma MendFileEarly(s: Sys, pid: Pid)
    requires pid in s.menders && s.menders[pid].op in s.disk.ops
    requires s.menders[pid].pc in {LoadSpool, MendTakeLock, Judge, Recheck, MendRecord}
    ensures MendStep(s, pid).disk.file == s.disk.file
  {
  }

  lemma MendFileLate(s: Sys, pid: Pid)
    requires pid in s.menders && s.menders[pid].op in s.disk.ops
    requires s.menders[pid].pc !in {LoadSpool, MendTakeLock, Judge, Recheck, MendRecord}
    ensures MendStep(s, pid).disk.file == s.disk.file
  {
    hide MendStep;
    if s.menders[pid].pc in {MendRename, MendMarkFinal, MendDropRecovery, MendMarkFailed} {
      MendFileMarks(s, pid);
    } else {
      MendFileLast(s, pid);
    }
  }

  lemma MendFileLast(s: Sys, pid: Pid)
    requires pid in s.menders && s.menders[pid].op in s.disk.ops
    requires s.menders[pid].pc !in {LoadSpool, MendTakeLock, Judge, Recheck, MendRecord}
    requires s.menders[pid].pc !in {MendRename, MendMarkFinal, MendDropRecovery, MendMarkFailed}
    ensures MendStep(s, pid).disk.file == s.disk.file
  {
    hide Altered, Tombstone;
  }

  lemma MendFileMarks(s: Sys, pid: Pid)
    requires pid in s.menders && s.menders[pid].op in s.disk.ops
    requires s.menders[pid].pc in {MendRename, MendMarkFinal, MendDropRecovery, MendMarkFailed}
    ensures MendStep(s, pid).disk.file == s.disk.file
  {
  }

  // ---- Evidence that is rolled back ------------------------------------------------------

  // No row is lost, none changes its content, its operation or its time, and the tombstoned
  // ones are those that were, and all of this operation.
  predicate Buried(e: Events, e': Events, op: OpId) {
    && e'.Keys == e.Keys
    && forall k | k in e ::
         && e'[k].content == e[k].content && e'[k].op == e[k].op && e'[k].at == e[k].at
         && (e'[k].status == Tombstoned <==> e[k].status == Tombstoned || e[k].op == op)
  }

  lemma TombstoneExactly(e: Events, e': Events, op: OpId)
    ensures Buried(e, e', op) <==> e' == Tombstone(e, op)
  {
    if Buried(e, e', op) {
      forall k | k in e ensures e'[k] == Tombstone(e, op)[k] {
        if e[k].op != op { assert e'[k].status == Tombstoned <==> e[k].status == Tombstoned; }
      }
    }
  }

  // ---- Rollback ----------------------------------------------------------------------

  // An operation that was rolled back cannot be rolled back again, in any continuation.
  lemma UndoneForGood(s: Sys, ls: seq<Label>, original: OpId, id: AuthId)
    requires Inv(s) && original in s.disk.ops && s.disk.ops[original].backupRef && !s.disk.ops[original].rollbackAvailable
    ensures var s' := Run(s, ls);
            && original in s'.disk.ops && !s'.disk.ops[original].rollbackAvailable
            && Apply(s', StartUndo(id, original)) == s'
  {
    RunKeeps(s, ls);
    assert RowGrows(s.disk.ops[original], Run(s, ls).disk.ops[original]);
  }

  // The last mark of a rollback closes the operation that it undoes.
  lemma RollbackEnds(s: Sys, op: OpId)
    requires Inv(s) && s.held.None? && Running(s, op) && s.mains[op].UndoRun? && s.mains[op].upc.UndoMarkOriginal?
    ensures var original := s.mains[op].original;
            var s' := Apply(s, Step(op));
            && original in s'.disk.ops && s'.disk.ops[original].backupRef && !s'.disk.ops[original].rollbackAvailable
            && s'.disk.ops[original].state == RolledBack
            && original in s'.disk.dirs && s'.disk.dirs[original].backup == Whole(s'.disk.ops[original].before.text)
  {
    assert MainOk(s, op);
    assert OpOk(s, s.mains[op].original);
  }

  // When an exception strikes a rollback, wherever it is, the state that it leaves says
  // "failed before mutation" although the file has been replaced in exactly one case:
  // between the replacement and the journal mark that follows it.
  lemma RollbackMisreport(s: Sys, op: OpId)
    requires Inv(s) && s.held.None? && Running(s, op) && s.mains[op].UndoRun?
    ensures var s' := Run(s, [Fault(op), Step(op), Step(op)]);
            && op in s'.disk.ops && op in s'.hist
            && (s'.disk.ops[op].state == FailedBeforeMutation && s'.hist[op].replaced <==> s.mains[op].upc.UndoMarkReplaced?)
  {
    hide TrimStep, HandlerStep, SpoolOk, TrimOk, TerminalState;
    assert MainOk(s, op);
    RunThree(s, Fault(op), Step(op), Step(op));
    if s.mains[op].upc.UndoBindParent? {
      assert op !in Apply(s, Fault(op)).mains;
    } else {
      HandlerRuns(s, op);
      UndoVerdict(s, op);
    }
  }

  lemma UndoVerdict(s: Sys, op: OpId)
    requires Inv(s) && Running(s, op) && s.mains[op].UndoRun?
    ensures s.hist[op].replaced && TerminalState(true, s.disk.ops[op].state) == FailedBeforeMutation <==> s.mains[op].upc.UndoMarkReplaced?
  {
    assert MainOk(s, op);
  }

  // What an exception leaves behind: the handler judges by the state that it reads.
  lemma HandlerRuns(s: Sys, op: OpId)
    requires s.held.None? && Running(s, op) && !s.mains[op].Handler?
    requires s.mains[op].TrimRun? ==> !s.mains[op].pc.BindParent?
    requires s.mains[op].UndoRun? ==> !s.mains[op].upc.UndoBindParent?
    ensures var s' := Apply(Apply(Apply(s, Fault(op)), Step(op)), Step(op));
            && s'.hist == s.hist && op in s'.disk.ops && s'.disk.file == s.disk.file
            && s'.disk.ops[op].state == TerminalState(s.mains[op].UndoRun?, s.disk.ops[op].state)
  {
    hide TrimStep, UndoStep;
    var m := Handler(s.mains[op].UndoRun?, None);
    var s1 := Apply(s, Fault(op));
    assert s1.mains[op] == m && s1.disk == s.disk && s1.hist == s.hist && s1.held.None?;
    var s2 := Apply(s1, Step(op));
    assert s2.mains[op] == m.(read := Some(s.disk.ops[op].state)) && s2.disk == s.disk && s2.hist == s.hist && s2.held.None?;
  }

  lemma RunThree(s: Sys, a: Label, b: Label, c: Label)
    ensures Run(s, [a, b, c]) == Apply(Apply(Apply(s, a), b), c)
  {
    assert [a, b, c][1..] == [b, c] && [b, c][1..] == [c] && [c][1..] == [];
    assert Run(Apply(Apply(s, a), b), [c]) == Run(Apply(Apply(Apply(s, a), b), c), []);
  }

  // The last two marks of a rollback are separate commits. A crash between them leaves the
  // rolled back operation available for rollback, and reconciling the rollback, which
  // is finished, does not repair it.
  lemma CrashBetweenMarks(s: Sys, op: OpId, pid: Pid)
    requires Inv(s) && s.held.None? && Running(s, op) && s.mains[op].UndoRun? && s.mains[op].upc.UndoMarkSelf?
    ensures var original := s.mains[op].original;
            var s' := Run(s, [Step(op), Kill(op), StartMend(pid, op)]);
            && original in s.disk.ops && original in s'.disk.ops && s'.disk.ops[original] == s.disk.ops[original]
            && op in s'.disk.ops && s'.disk.ops[op].state == RolledBack && op !in s'.mains && s'.menders == s.menders
  {
    hide Apply, Inv;
    assert s.mains[op].original in s.disk.ops && s.mains[op].original != op by { UndoneIsOther(s, op); }
    MarkSelf(s, op);
    OverAndOut(Apply(s, Step(op)), op, pid);
    RunThree(s, Step(op), Kill(op), StartMend(pid, op));
  }

  lemma UndoneIsOther(s: Sys, op: OpId)
    requires Inv(s) && Running(s, op) && s.mains[op].UndoRun?
    ensures s.mains[op].original in s.disk.ops && s.mains[op].original != op
  {
    assert MainOk(s, op);
  }

  lemma OverAndOut(s: Sys, op: OpId, pid: Pid)
    requires op in s.disk.ops && Terminal(s.disk.ops[op].state)
    ensures Apply(Apply(s, Kill(op)), StartMend(pid, op)) == EndMain(s, op)
  {
    hide TrimStep, UndoStep, HandlerStep, MendStep, StartMender;
  }

  lemma MarkSelf(s: Sys, op: OpId)
    requires s.held.None? && Running(s, op) && s.mains[op].UndoRun? && s.mains[op].upc.UndoMarkSelf?
    ensures Apply(s, Step(op)) ==
            WithMain(Mark(s, op, Change(RolledBack, audit := Set(AuditCommitted))), op, s.mains[op].(upc := UndoMarkOriginal))
  {
    hide TrimStep, HandlerStep;
  }
}
