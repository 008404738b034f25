// The calls of live_overflow.py as they work on the journal, the private directory and the
// target. A call may raise, or its process may die, before any of its statements, and the
// target may be edited from outside there. Whatever happens, the call is a run of the step
// machine, so that all properties of runs hold of it.
module WritebackStore {
  import opened Options
  import opened Trim
  import opened Blocks
  import opened Writeback
  import opened WritebackSafety
  import opened WritebackMoves
  import opened WritebackRuns
  import opened WritebackRecovery
  import opened WritebackTheorems
  import opened WritebackMends
  import opened WritebackStops

  // How a statement ends: the next one follows, an exception is raised, the process is
  // dead, or the call returns, with mutation_performed.
  datatype Flow = Go | Raises | Dead | Returned(mutated: bool) {
    predicate IsFailure() { !Go? }
    function PropagateFailure(): Flow { this }
  }

  // What the caller sees. Denied: nothing was consumed. Uncaught: an exception outside the handler.
  datatype Outcome = Denied | Report(row: OpRow, mutated: bool) | Told(row: OpRow, next: Advice) | Uncaught | Crashed

  // The same for a reconciliation, which returns its next action.
  datatype Advice = NoAction | RetryWithNewAuthorization | RollbackFirst | ManualRecovery
  datatype MendFlow = Proceed | Broke | Died | Advised(next: Advice) {
    predicate IsFailure() { !Proceed? }
    function PropagateFailure(): MendFlow { this }
  }

  // What a next action says about the state that it leaves.
  predicate Conclusive(next: Advice, st: State) {
    match next
    case NoAction => st in {Completed, CompletedPartial, RolledBack}
    case RetryWithNewAuthorization => st == FailedBeforeMutation
    case ManualRecovery => st == RecoveryRequired
    case RollbackFirst => false
  }

  // The operation that was rolled back cannot be rolled back again.
  predicate Shut(ops: map<OpId, OpRow>, original: OpId) {
    original in ops ==> ops[original].state == RolledBack && !ops[original].rollbackAvailable
  }

  // What a call of execute_writeback has done, from s to s'. First it commits what an earlier
  // call has left open on the connection. Unless it is denied then, it consumes the
  // authorization, runs the trim with what strikes it, and reports the journal row. When nothing
  // strikes it, the trim is carried out if it can be, and stops otherwise.
  ghost predicate Executed(s: Sys, s': Sys, ls: seq<Label>, id: AuthId, policy: Policy, edits: seq<Option<File>>, strike: Strike, r: Outcome) {
    var (d, d') := (Flushed(s).disk, s'.disk);
    var usable := id in d.auths && !d.auths[id].consumed;
    if r.Denied? then !usable && s' == Flushed(s)
    else
      && usable && id in d'.auths && d'.auths[id].consumed
      && var op := d.auths[id].op;
      && op in d'.ops && d'.ops[op].auth == id && OwnMoves(ls, StartTrim(id, policy), op, edits, strike)
      && (r.Report? ==> r.row == d'.ops[op] && (r.mutated <==> Settled(r.row)) && (Concluded(r.row.state) ==> Verdict(d.target, policy, r.row)))
      && (strike.Never? && Undisturbed(edits) ==>
            r.Report? && if CanTrim(d, id, policy) then r.mutated && TrimDone(d, d', id, policy) else !r.mutated && TrimStopped(d, d', id, policy))
  }

  // The same for rollback_writeback. When it reports a mutation, exactly the evidence of the
  // original is tombstoned, besides what was; and if nobody else has edited the file, the text
  // is the one before the trim.
  ghost predicate RolledBackBy(s: Sys, s': Sys, ls: seq<Label>, id: AuthId, original: OpId, edits: seq<Option<File>>, strike: Strike, r: Outcome) {
    var (d, d') := (s.disk, s'.disk);
    if r.Denied? then (s.held.Some? || !MayUndo(d, id, original)) && d' == d && s'.held == s.held
    else
      && s.held.None? && MayUndo(d, id, original) && id in d'.auths && d'.auths[id].consumed
      && var op := d.auths[id].op;
      && op in d'.ops && d'.ops[op].auth == id && OwnMoves(ls, StartUndo(id, original), op, edits, strike)
      && (r.Report? ==> r.row == d'.ops[op] && (r.mutated <==> r.row.state == RolledBack) && (r.mutated ==> Shut(d'.ops, original)))
      && (r.Report? && r.mutated ==> Buried(d.events, d'.events, original))
      && (r.Report? && r.mutated && Undisturbed(edits) ==> d'.file.text == d.ops[original].before.text)
      && (strike.Never? && Undisturbed(edits) ==>
            r.Report? && if CanUndo(d, id, original) then r.mutated && UndoDone(d, d', id, original) else !r.mutated && UndoStopped(d, d', id))
  }

  predicate NoSpool(dir: OpDir) {
    dir.pending.Absent? && dir.committed.Absent?
  }

  // What an undisturbed reconciliation answers, by the file and the spool that it finds.
  predicate Advises(d: Disk, op: OpId, r: Outcome)
    requires Mendable(d, op)
  {
    var (row, h) := (d.ops[op], Sha256(d.file.text));
    if row.kind == Rollback then
      r.Told? && r.next == (if h == d.ops[row.proposal.value].before then NoAction
                            else if h == row.before then RetryWithNewAuthorization else ManualRecovery)
    else match SpoolIn(d.dirs[op])
      case None => r == (if NoSpool(d.dirs[op]) then Told(row, if row.rollbackAvailable then RollbackFirst else ManualRecovery) else Uncaught)
      case Some(sp) =>
        if h == sp.after && Record(d.events, op, sp.removed, sp.before, d.clock, 0).None? then r == Uncaught
        else r.Told? && r.next == (if h == sp.after then NoAction else if h == sp.before then RetryWithNewAuthorization else ManualRecovery)
  }

  // The checks of a reconciliation: a rollback must belong to an operation that has left what it
  // expects, and a trim must have its spool in the journal.
  predicate Passes(d: Disk, op: OpId)
    requires op in d.ops
  {
    var row := d.ops[op];
    && row.parentBound
    && if row.kind == Rollback then row.proposal.Some? && row.proposal.value in d.ops && d.ops[row.proposal.value].after == Some(row.before)
       else op in d.dirs && row.spoolRef
  }

  // What a call of reconcile_writeback has done. An operation that is over is left alone. Any
  // other call first commits what an earlier one has left open. What the checks let through is
  // reconciled; a trim without a spool in the journal gets an advice, the rest is refused.
  ghost predicate ReconciledBy(s: Sys, s': Sys, ls: seq<Label>, op: OpId, edits: seq<Option<File>>, strike: Strike, r: Outcome) {
    var (d, f) := (s.disk, Flushed(s));
    if op !in d.ops then r == Denied && s' == s
    else if d.ops[op].state in {Completed, CompletedPartial, BlockedTargetUnreachable, RolledBack, FailedBeforeMutation} then
      r == Told(d.ops[op], NoAction) && s' == s
    else if !Passes(d, op) then
      var row := d.ops[op];
      && s' == f
      && r == (if row.parentBound && row.kind == LiveOverflowTrim && op in d.dirs
               then Told(row, if row.rollbackAvailable then RollbackFirst else ManualRecovery) else Denied)
    else
      && OwnMoves(ls, StartMend(RECONCILER, op), op, edits, strike)
      && (r.Told? ==> op in s'.disk.ops && r.row == s'.disk.ops[op] && (Conclusive(r.next, r.row.state) || r.row == d.ops[op]))
      && (r.Told? && op in s'.hist && s'.hist[op].trim && Concluded(r.row.state) ==> Verdict(d.target, s'.hist[op].policy, r.row))
      && (strike.Never? && Undisturbed(edits) ==>
            && s' == Mended(s, op, RECONCILER) && Advises(f.disk, op, r)
            && (if d.ops[op].kind == Rollback then UnwindDone(f.disk, s'.disk, op) else MendDone(f.disk, s'.disk, s'.held, op)))
  }

  class Store {
    const target: string
    var file: File
    var clock: nat
    var auths: map<AuthId, Auth>
    var ops: map<OpId, OpRow>
    var dirs: map<OpId, OpDir>
    var events: Events
    var held: Option<Events>
    var lock: Holder

    // What will strike the call in progress, and the edits that others make meanwhile.
    var strike: Strike
    var edits: seq<Option<File>>

    // The state of the step machine, and how the call in progress got there.
    ghost var sys: Sys
    ghost var base: Sys
    ghost var trace: seq<Label>
    ghost var owner: OpId
    ghost var start: Label
    ghost var visits: seq<Option<File>>
    ghost var fate: Strike

    function Journal(): Disk
      reads this
    {
      Disk(target, file, clock, auths, ops, dirs, events)
    }

    ghost predicate Agrees()
      reads this
    {
      sys.disk == Journal() && sys.lock == lock && sys.held == held
    }

    // Between two calls.
    ghost predicate Valid()
      reads this
    {
      Inv(sys) && Agrees() && sys.planner == PlanTrim && sys.mains == map[] && sys.menders == map[] && lock == Free
    }

    constructor (target: string, file: File)
      ensures Valid() && sys == Init(target, file)
    {
      this.target := target;
      this.file := file;
      clock := 0;
      auths, ops, dirs, events := map[], map[], map[], map[];
      lock, held := Free, None;
      strike, edits := Never, [];
      sys, base, trace := Init(target, file), Init(target, file), [];
      owner, start, visits, fate := "", Tick, [], Never;
      new;
      InitOk(target, file);
    }

    // ---- Moves of the call in progress -------------------------------------------------

    ghost predicate Mine(l: Label)
      reads `owner, `visits, `fate
    {
      Owned(l, owner, visits, fate)
    }

    ghost predicate Ran()
      reads `sys, `base, `trace, `owner, `start, `visits, `edits, `fate
    {
      && Run(base, trace) == sys && OwnMoves(trace, start, owner, visits, fate)
      && |edits| <= |visits| && edits == visits[|visits| - |edits|..]
    }

    // What is left of the strike that the call began with.
    ghost predicate Fated()
      reads `strike, `fate
    {
      (strike.RaiseAfter? ==> fate.RaiseAfter?) && (strike.DieAfter? ==> fate.DieAfter?)
    }

    // The call has made its first move.
    ghost predicate Begun()
      reads `sys, `base, `trace, `owner, `start, `visits, `edits, `fate
    {
      Ran() && trace != []
    }

    ghost method TookStart()
      requires Ran() && trace == []
      modifies `sys, `trace
      ensures Begun() && sys == Apply(old(sys), start) && trace == [start]
    {
      RunLast(base, trace, start);
      sys, trace := Apply(sys, start), [start];
    }

    ghost method Took(l: Label)
      requires Begun() && Mine(l)
      modifies `sys, `trace
      ensures Begun() && sys == Apply(old(sys), l) && trace == old(trace) + [l]
    {
      RunLast(base, trace, l);
      assert (trace + [l])[1..] == trace[1..] + [l];
      sys, trace := Apply(sys, l), trace + [l];
    }

    // The process of `op`, alone, is at m.
    ghost predicate Busy(op: OpId, m: Main)
      reads this
    {
      && Begun() && Fated() && Agrees() && owner == op && sys.planner == base.planner && sys.menders == map[] && sys.mains.Keys == {op}
        && Running(sys, op) && sys.mains[op] == m
      && (lock == Free || lock == MainHolds(op)) && held.None?
    }

    ghost predicate Ended(op: OpId)
      reads this
    {
      Begun() && Agrees() && sys.planner == base.planner && sys.menders == map[] && sys.mains.Keys == {} && lock == Free
        && op in ops && op in sys.hist
    }

    // How guarded code leaves off when it does not go on.
    ghost predicate Failed(op: OpId, undo: bool, r: Flow)
      reads this
    {
      if r.Raises? then Busy(op, Handler(undo, None)) && lock == Free else Ended(op) && (r.Dead? ==> !fate.Never?)
    }

    // Somebody may edit the target before the next statement.
    method VisitTarget()
      requires Begun() && Agrees()
      modifies `file, `edits, `sys, `trace
      ensures Begun() && Agrees() && sys == old(sys).(disk := old(sys).disk.(file := file))
    {
      hide Apply, Run, OwnMoves;
      if edits != [] {
        if edits[0].Some? {
          file := edits[0].value;
          EditMoves(sys, file);
          assert Some(file) == visits[|visits| - |edits|];
          Took(Edit(file));
        }
        edits := edits[1..];
      }
    }

    // What the fault hook does now.
    method Fate() returns (r: Flow)
      modifies `strike
      requires Fated()
      ensures !r.Returned? && Fated() && (r.Raises? ==> fate.RaiseAfter?) && (r.Dead? ==> fate.DieAfter?)
    {
      match strike
      case Never => r := Go;
      case RaiseAfter(n) => if n == 0 { r, strike := Raises, Never; } else { r, strike := Go, RaiseAfter(n - 1); }
      case DieAfter(n) => if n == 0 { r, strike := Dead, Never; } else { r, strike := Go, DieAfter(n - 1); }
    }

    // The place before a statement, where the strike may come.
    method Hook(op: OpId, ghost m: Main) returns (r: Flow)
      requires Busy(op, m) && !Unguarded(m)
      modifies `file, `strike, `edits, `lock, `sys, `trace
      ensures !r.Returned? && if r.Go? then Busy(op, m) && lock == old(lock) else Failed(op, m.UndoRun?, r)
    {
      hide Apply, Ran, Run, Failed;
      VisitTarget();
      r := Fate();
      if !r.Go? { Struck(op, m, r); }
    }

    method Struck(op: OpId, ghost m: Main, r: Flow)
      requires Busy(op, m) && !Unguarded(m) && (r.Raises? || r.Dead?) && (r.Raises? ==> fate.RaiseAfter?) && (r.Dead? ==> fate.DieAfter?)
      modifies `lock, `sys, `trace
      ensures Failed(op, m.UndoRun?, r)
    {
      hide Apply, Ran, Run;
      StrikeMoves(sys, op);
      Took(if r.Dead? then Kill(op) else Fault(op));
      lock := Free;
    }

    // The same where no handler is in sight.
    method BareHook(op: OpId, ghost m: Main) returns (r: Flow)
      requires Busy(op, m) && Unguarded(m)
      modifies `file, `strike, `edits, `lock, `sys, `trace
      ensures !r.Returned? && if r.Go? then Busy(op, m) && lock == old(lock) else Ended(op) && !fate.Never?
    {
      hide Apply, Ran, Run;
      VisitTarget();
      r := Fate();
      if !r.Go? {
        StrikeMoves(sys, op);
        Took(if r.Dead? then Kill(op) else Fault(op));
        lock := Free;
      }
    }

    // The statement of `op` has had its effect.
    ghost method Stepped(op: OpId, m: Main)
      requires Begun() && Fated() && owner == op && sys.planner == base.planner && sys.menders == map[] && sys.mains.Keys == {op}
               && (lock == Free || lock == MainHolds(op))
      requires sys.held.None? && held.None? && Running(sys, op) && Moves(sys, Apply(sys, Step(op)), op, Journal(), lock, m)
      modifies `sys, `trace
      ensures Busy(op, m)
    {
      hide Apply, Ran, Run;
      Took(Step(op));
    }

    // _state: one UPDATE of the row, and commit.
    method SetState(op: OpId, c: Change)
      requires op in ops
      modifies `ops
      ensures Journal() == Marked(old(Journal()), op, c)
    {
      ops := ops[op := Altered(ops[op], c)];
    }

    // The statement of `op` raises inside the locked block.
    method Throw(op: OpId, ghost undo: bool) returns (r: Flow)
      requires Begun() && Fated() && owner == op && sys.planner == base.planner && sys.menders == map[] && sys.mains.Keys == {op}
               && (lock == Free || lock == MainHolds(op))
      requires sys.held.None? && held.None? && Running(sys, op) && sys.lock == lock
               && Moves(sys, Apply(sys, Step(op)), op, Journal(), Released(sys, op), Handler(undo, None))
      modifies `lock, `sys, `trace
      ensures r == Raises && Failed(op, undo, r)
    {
      hide Apply, Ran, Run;
      lock := Free;
      Stepped(op, Handler(undo, None));
      r := Raises;
    }

    // The last statement of `op` has had its effect.
    ghost method SteppedOut(op: OpId)
      requires Begun() && Fated() && owner == op && sys.planner == base.planner && sys.menders == map[] && sys.mains.Keys == {op} && lock == Free
      requires sys.held.None? && held.None? && Running(sys, op) && (sys.lock == Free || sys.lock == MainHolds(op))
               && Ends(sys, Apply(sys, Step(op)), op, Journal())
      modifies `sys, `trace
      ensures Ended(op)
    {
      hide Apply, Ran, Run;
      Took(Step(op));
    }

    // ---- Statements of both calls ------------------------------------------------------

    method BindParent(op: OpId, ghost m: Main) returns (r: Flow)
      requires Busy(op, m) && ((m.TrimRun? && m.pc.BindParent?) || (m.UndoRun? && m.upc.UndoBindParent?))
      modifies `file, `strike, `edits, `lock, `sys, `trace, `ops
      ensures !r.Returned? && if r.Go? then Busy(op, Next(m)) && lock == old(lock) else Ended(op) && !fate.Never?
    {
      hide Apply, Ran, Run, Next;
      :- BareHook(op, m);
      LockMoves(sys, op);
      ops := ops[op := ops[op].(parentBound := true)];
      Stepped(op, Next(m));
      r := Go;
    }

    method TakeLock(op: OpId, ghost m: Main) returns (r: Flow)
      requires Busy(op, m) && ((m.TrimRun? && m.pc.TakeLock?) || (m.UndoRun? && m.upc.UndoTakeLock?)) && lock == Free
      modifies `file, `strike, `edits, `lock, `sys, `trace
      ensures !r.Returned? && if r.Go? then Busy(op, Next(m)) && lock == MainHolds(op) else Failed(op, m.UndoRun?, r)
    {
      hide Apply, Ran, Run, Next, Failed;
      :- Hook(op, m);
      LockMoves(sys, op);
      lock := MainHolds(op);
      Stepped(op, Next(m));
      r := Go;
    }

    // _state at a place where the call goes on.
    method MarkState(op: OpId, c: Change, ghost m: Main) returns (r: Flow)
      requires Busy(op, m) && !Unguarded(m) && MarkOf(m) == Some(c)
      modifies `file, `strike, `edits, `lock, `sys, `trace, `ops
      ensures !r.Returned? && if r.Go? then Busy(op, Next(m)) && lock == old(lock) else Failed(op, m.UndoRun?, r)
      ensures r.Go? ==> ops[op] == Altered(old(ops[op]), c)
    {
      hide Apply, Ran, Run, Next, Failed, Altered, MarkOf;
      :- Hook(op, m);
      if m.TrimRun? { TrimMarkMoves(sys, op); } else { UndoMarkMoves(sys, op); }
      SetState(op, c);
      Stepped(op, Next(m));
      r := Go;
    }

    // _state where it returns, mutation_performed being false.
    method EndState(op: OpId, c: Change, ghost m: Main) returns (r: Flow)
      requires Busy(op, m) && !Unguarded(m) && EndOf(ops[op], m) == Some(c)
      modifies `file, `strike, `edits, `lock, `sys, `trace, `ops
      ensures !r.Go? && (r.Returned? ==> r == Returned(false) && Ended(op) && ops[op] == Altered(old(ops[op]), c))
      ensures !r.Returned? ==> Failed(op, m.UndoRun?, r)
    {
      hide Apply, Ran, Run, Failed, Altered, EndOf;
      :- Hook(op, m);
      EndMoves(sys, op);
      SetState(op, c);
      lock := Free;
      SteppedOut(op);
      r := Returned(false);
    }

    // The exception handler: it judges by the state of the row, writes a terminal one, and returns.
    method HandleException(op: OpId, undo: bool) returns (r: Flow)
      requires Busy(op, Handler(undo, None)) && lock == Free
      modifies `file, `strike, `edits, `lock, `sys, `trace, `ops
      ensures !r.Go? && Ended(op) && (!r.Returned? ==> !fate.Never?)
      ensures r.Returned? ==> r == Returned(false) && ops[op] == old(ops[op]).(error := Some(Error.Raised), state :=
                if old(ops[op].state) in {Authorized, if undo then RollbackLocked else Locked} then FailedBeforeMutation else RecoveryRequired)
    {
      hide Apply, Ran, Run;
      :- BareHook(op, Handler(undo, None));
      HandlerMoves(sys, op);
      var state := ops[op].state;
      Stepped(op, Handler(undo, Some(state)));
      r := Conclude(op, undo, state);
    }

    method Conclude(op: OpId, undo: bool, state: State) returns (r: Flow)
      requires Busy(op, Handler(undo, Some(state))) && lock == Free
      modifies `file, `strike, `edits, `lock, `sys, `trace, `ops
      ensures !r.Go? && Ended(op) && (!r.Returned? ==> !fate.Never?)
      ensures r.Returned? ==> r == Returned(false) && ops[op] == old(ops[op]).(error := Some(Error.Raised), state :=
                if state in {Authorized, if undo then RollbackLocked else Locked} then FailedBeforeMutation else RecoveryRequired)
    {
      hide Apply, Ran, Run;
      :- BareHook(op, Handler(undo, Some(state)));
      EndMoves(sys, op);
      SetState(op, Change(TerminalState(undo, state), error := Set(Some(Error.Raised))));
      SteppedOut(op);
      r := Returned(false);
    }

    // ---- execute_writeback -----------------------------------------------------------

    // Read the target, check the expected hash, and plan.
    method ReadAndPlan(op: OpId, policy: Policy) returns (r: Flow, before: File, plan: Plan)
      requires Busy(op, TrimRun(policy, ReadTarget, NO_FILE, NO_PLAN)) && base.planner == PlanTrim
      modifies `file, `strike, `edits, `lock, `sys, `trace, `ops
      ensures r.Go? ==> Busy(op, TrimRun(policy, MakeDir, before, plan)) && lock == old(lock)
      ensures r.Returned? ==> r == Returned(false) && Ended(op) && !Settled(ops[op])
      ensures r.Raises? || r.Dead? ==> Failed(op, false, r)
    {
      hide Apply, Ran, Run, Failed, PlanTrim, Altered;
      before, plan := NO_FILE, NO_PLAN;
      ghost var m := TrimRun(policy, ReadTarget, NO_FILE, NO_PLAN);
      :- Hook(op, m);
      before := file;
      if Sha256(before.text) != ops[op].before {
        ReadMoves(sys, op);
        Stepped(op, m.(pc := MarkEdited(ExpectedHashMismatch)));
        r := ReturnEdited(op, ExpectedHashMismatch, m.(pc := MarkEdited(ExpectedHashMismatch)));
      } else {
        r, plan := PlanRead(op, policy, before);
      }
    }

    method ReturnEdited(op: OpId, error: Error, ghost m: Main) returns (r: Flow)
      requires Busy(op, m) && m.TrimRun? && m.pc == MarkEdited(error)
      modifies `file, `strike, `edits, `lock, `sys, `trace, `ops
      ensures !r.Go? && (r.Returned? ==> r == Returned(false) && Ended(op) && !Settled(ops[op]))
      ensures !r.Returned? ==> Failed(op, false, r)
    {
      hide Apply, Ran, Run, Failed;
      r := EndState(op, Change(ConcurrentEditDetected, error := Set(Some(error))), m);
    }

    method PlanRead(op: OpId, policy: Policy, before: File) returns (r: Flow, plan: Plan)
      requires Busy(op, TrimRun(policy, ReadTarget, NO_FILE, NO_PLAN)) && base.planner == PlanTrim
      requires before == file && Sha256(before.text) == ops[op].before
      modifies `file, `strike, `edits, `lock, `sys, `trace, `ops
      ensures r.Go? ==> Busy(op, TrimRun(policy, MakeDir, before, plan)) && lock == old(lock)
      ensures r.Returned? ==> r == Returned(false) && Ended(op) && !Settled(ops[op])
      ensures r.Raises? || r.Dead? ==> Failed(op, false, r)
    {
      hide Apply, Ran, Run, PlanTrim, Altered;
      plan := NO_PLAN;
      ReadMoves(sys, op);
      var trimmed := TrimBlocks(before.text, target, policy);
      if trimmed.Err? {
        r := Throw(op, false);
      } else {
        plan := trimmed.value;
        if plan.after == before.text {
          Stepped(op, TrimRun(policy, MarkUnchanged, before, plan));
          r := ReturnUnchanged(op, policy, before, plan);
        } else {
          Stepped(op, TrimRun(policy, MakeDir, before, plan));
          r := Go;
        }
      }
    }

    method ReturnUnchanged(op: OpId, policy: Policy, before: File, plan: Plan) returns (r: Flow)
      requires Busy(op, TrimRun(policy, MarkUnchanged, before, plan))
      modifies `file, `strike, `edits, `lock, `sys, `trace, `ops
      ensures !r.Go? && (r.Returned? ==> r == Returned(false) && Ended(op) && !Settled(ops[op]))
      ensures !r.Returned? ==> Failed(op, false, r)
    {
      hide Apply, Ran, Run, Failed;
      var blocked := plan.reason == Reason.TargetUnreachable;
      r := EndState(op, Change(if blocked then BlockedTargetUnreachable else Completed, after := Set(ops[op].before),
                               error := Set(if blocked then Some(Error.TargetUnreachable) else None),
                               evidence := Set(NoEvidence), audit := Set(AuditCommitted)),
                    TrimRun(policy, MarkUnchanged, before, plan));
    }

    // The directory of the operation, with the recovery authorization in it.
    method CreateDir(op: OpId, ghost m: Main) returns (r: Flow)
      requires Busy(op, m) && m.TrimRun? && m.pc.MakeDir?
      modifies `file, `strike, `edits, `lock, `sys, `trace, `dirs
      ensures !r.Returned? && if r.Go? then Busy(op, Next(m)) && lock == old(lock) else Failed(op, false, r)
    {
      hide Apply, Ran, Run, Failed, Moves, Next;
      :- Hook(op, m);
      WriteMoves(sys, op);
      if op in dirs {
        r := Throw(op, false);
        return;
      }
      dirs := dirs[op := FRESH_DIR];
      Stepped(op, Next(m));
      r := Go;
    }

    method WriteBackup(op: OpId, text: string, ghost m: Main) returns (r: Flow)
      requires Busy(op, m) && m.TrimRun? && m.pc.WriteBackup? && text == m.seen.text
      modifies `file, `strike, `edits, `lock, `sys, `trace, `dirs
      ensures !r.Returned? && if r.Go? then Busy(op, Next(m)) && lock == old(lock) else Failed(op, false, r)
    {
      hide Apply, Ran, Run, Failed, Moves, Next;
      :- Hook(op, m);
      WriteMoves(sys, op);
      if op !in dirs || !dirs[op].backup.Absent? {
        r := Throw(op, false);
        return;
      }
      dirs := dirs[op := dirs[op].(backup := Whole(text))];
      Stepped(op, Next(m));
      r := Go;
    }

    method WriteSpool(op: OpId, spool: Spool, ghost m: Main) returns (r: Flow)
      requires Busy(op, m) && m.TrimRun? && m.pc.WriteSpool? && spool == SpoolOf(m.seen.text, m.plan)
      modifies `file, `strike, `edits, `lock, `sys, `trace, `dirs
      ensures !r.Returned? && if r.Go? then Busy(op, Next(m)) && lock == old(lock) else Failed(op, false, r)
    {
      hide Apply, Ran, Run, Failed, Moves, Next;
      :- Hook(op, m);
      WriteMoves(sys, op);
      if op !in dirs || !dirs[op].pending.Absent? {
        r := Throw(op, false);
        return;
      }
      dirs := dirs[op := dirs[op].(pending := Whole(spool))];
      Stepped(op, Next(m));
      r := Go;
    }

    method RenameSpool(op: OpId, ghost m: Main) returns (r: Flow)
      requires Busy(op, m) && m.TrimRun? && m.pc.RenameSpool?
      modifies `file, `strike, `edits, `lock, `sys, `trace, `dirs
      ensures !r.Returned? && if r.Go? then Busy(op, Next(m)) && lock == old(lock) else Failed(op, false, r)
    {
      hide Apply, Ran, Run, Failed, Moves, Next;
      :- Hook(op, m);
      WriteMoves(sys, op);
      if op !in dirs || dirs[op].pending.Absent? {
        r := Throw(op, false);
        return;
      }
      dirs := dirs[op := dirs[op].(pending := Absent, committed := dirs[op].pending)];
      Stepped(op, Next(m));
      r := Go;
    }

    // The final recheck and os.replace.
    method ReplaceTarget(op: OpId, seen: File, text: string, ghost m: Main) returns (r: Flow)
      requires Busy(op, m) && m.TrimRun? && m.pc.Replace? && seen == m.seen && text == m.plan.after
      modifies `file, `strike, `edits, `lock, `sys, `trace, `ops
      ensures if r.Go? then Busy(op, Next(m)) && lock == old(lock) else if r.Returned? then r == Returned(false) && Ended(op)
              && !Settled(ops[op]) else Failed(op, false, r)
    {
      hide Apply, Ran, Run, Failed, Moves, Next;
      :- Hook(op, m);
      ReplaceMoves(sys, op);
      if file != seen {
        Stepped(op, m.(pc := MarkEdited(ImmediateCasMismatch)));
        r := ReturnEdited(op, ImmediateCasMismatch, m.(pc := MarkEdited(ImmediateCasMismatch)));
      } else {
        file := File(text, file.inode + 1);
        Stepped(op, Next(m));
        r := Go;
      }
    }

    method ReadBack(op: OpId, text: string, ghost m: Main) returns (r: Flow)
      requires Busy(op, m) && m.TrimRun? && m.pc.ReadBack? && text == m.plan.after
      modifies `file, `strike, `edits, `lock, `sys, `trace
      ensures !r.Returned? && if r.Go? then Busy(op, Next(m)) && lock == old(lock) else Failed(op, false, r)
    {
      hide Apply, Ran, Run, Failed, Moves, Next;
      :- Hook(op, m);
      ReadBackMoves(sys, op);
      if file.text != text {
        r := Throw(op, false);
        return;
      }
      Stepped(op, Next(m));
      r := Go;
    }

    // The loop of _record_removed_blocks, inside the open transaction of its caller.
    method RecordRemovedBlocks(op: OpId, removed: seq<string>, before: Digest) returns (ok: bool)
      requires held.Some?
      modifies `held
      ensures ok == Record(old(held).value, op, removed, before, clock, 0).Some?
      ensures held == Some(Inserted(old(held).value, op, removed, before, clock, 0))
    {
      var i := 0;
      ghost var saved := held.value;
      while i < |removed|
        invariant i <= |removed| && held.Some?
        invariant Record(saved, op, removed, before, clock, 0).Some? <==> Record(held.value, op, removed, before, clock, i).Some?
        invariant Inserted(saved, op, removed, before, clock, 0) == Inserted(held.value, op, removed, before, clock, i)
      {
        var key := Key(removed[i], i + 1, before);
        if key !in held.value {
          if Clash(held.value, removed[i], clock) { return false; }
          held := Some(held.value[key := RawEvent(removed[i], op, clock, Standing)]);
        }
        i := i + 1;
      }
      return true;
    }

    // The transaction of a reconciliation. Nothing there rolls back: when the loop raises, it stays open.
    method RecordOrLeaveOpen(op: OpId, removed: seq<string>, before: Digest) returns (ok: bool)
      requires held.None?
      modifies `events, `held
      ensures ok == Record(old(events), op, removed, before, clock, 0).Some?
      ensures events == if ok then Record(old(events), op, removed, before, clock, 0).value else old(events)
      ensures held == if ok then None else Some(Inserted(events, op, removed, before, clock, 0))
    {
      RecordIsInserted(events, op, removed, before, clock, 0);
      held := Some(events);
      ok := RecordRemovedBlocks(op, removed, before);
      if ok { events, held := held.value, None; }
    }

    // The transaction of execute_writeback, with the rollback that its handler begins with.
    method RecordOrRollBack(op: OpId, removed: seq<string>, before: Digest) returns (ok: bool)
      requires held.None?
      modifies `events, `held
      ensures ok == Record(old(events), op, removed, before, clock, 0).Some? && held.None?
      ensures events == if ok then Record(old(events), op, removed, before, clock, 0).value else old(events)
    {
      ok := RecordOrLeaveOpen(op, removed, before);
      held := None;
    }

    // The evidence transaction over the blocks of the spool that was written.
    method CommitEvidence(op: OpId, before: Digest, ghost m: Main) returns (r: Flow)
      requires Busy(op, m) && m.TrimRun? && m.pc.RecordEvidence? && before == Sha256(m.seen.text)
      modifies `file, `strike, `edits, `lock, `sys, `trace, `events, `held
      ensures !r.Returned? && if r.Go? then Busy(op, Next(m)) && lock == old(lock) else Failed(op, false, r)
    {
      hide Apply, Ran, Run, Failed, Moves, Next, Record;
      :- Hook(op, m);
      EvidenceMoves(sys, op);
      var ok := op in dirs && dirs[op].pending.Whole?;
      if ok { ok := RecordOrRollBack(op, dirs[op].pending.value.removed, before); }
      if !ok {
        r := Throw(op, false);
        return;
      }
      Stepped(op, Next(m));
      r := Go;
    }

    // The recovery authorization is of no use any more.
    method DropRecovery(op: OpId, ghost m: Main) returns (r: Flow)
      requires Busy(op, m) && m.TrimRun? && m.pc.DropRecovery?
      modifies `file, `strike, `edits, `lock, `sys, `trace, `dirs
      ensures !r.Go? && if r.Returned? then r == Returned(true) && Ended(op) else Failed(op, false, r)
    {
      hide Apply, Ran, Run, Failed, Moves, Next;
      :- Hook(op, m);
      DropMoves(sys, op);
      if op in dirs { dirs := dirs[op := dirs[op].(recoveryAuth := false)]; }
      lock := Free;
      SteppedOut(op);
      r := Returned(true);
    }

    // From the private directory to the spool: nothing of the target has changed yet.
    method WriteAhead(op: OpId, policy: Policy, before: File, plan: Plan) returns (r: Flow)
      requires Busy(op, TrimRun(policy, MakeDir, before, plan))
      modifies `file, `strike, `edits, `lock, `sys, `trace, `ops, `dirs
      ensures !r.Returned? && if r.Go? then Busy(op, TrimRun(policy, Replace, before, plan)) && lock == old(lock) else Failed(op, false, r)
    {
      hide Apply, Ran, Run, Busy, Failed;
      ghost var m := TrimRun(policy, MakeDir, before, plan);
      :- CreateDir(op, m);
      :- WriteBackup(op, before.text, m.(pc := TrimPc.WriteBackup));
      :- MarkState(op, Change(BackupDurable, backupRef := Set(true), rollbackAvailable := Set(true)), m.(pc := MarkBackup));
      :- WriteSpool(op, SpoolOf(before.text, plan), m.(pc := TrimPc.WriteSpool));
      :- MarkState(op, Change(EvidencePending, spoolRef := Set(true), evidence := Set(Pending)), m.(pc := MarkSpool));
      r := Go;
    }

    method ReplaceAndVerify(op: OpId, policy: Policy, before: File, plan: Plan) returns (r: Flow)
      requires Busy(op, TrimRun(policy, Replace, before, plan))
      modifies `file, `strike, `edits, `lock, `sys, `trace, `ops
      ensures if r.Go? then Busy(op, TrimRun(policy, RecordEvidence, before, plan)) && lock == old(lock)
              else if r.Returned? then r == Returned(false) && Ended(op) && !Settled(ops[op]) else Failed(op, false, r)
    {
      hide Apply, Ran, Run, Busy, Failed, Ended;
      ghost var m := TrimRun(policy, Replace, before, plan);
      :- ReplaceTarget(op, before, plan.after, m);
      :- MarkState(op, Change(FileReplaced, after := Set(Sha256(plan.after))), m.(pc := MarkReplaced));
      :- ReadBack(op, plan.after, m.(pc := TrimPc.ReadBack));
      :- MarkState(op, Change(ReadbackVerified), m.(pc := MarkVerified));
      r := Go;
    }

    method MarkFinal(op: OpId, reached: bool, ghost m: Main) returns (r: Flow)
      requires Busy(op, m) && m.TrimRun? && m.pc.MarkFinal? && reached == m.plan.reached
      modifies `file, `strike, `edits, `lock, `sys, `trace, `ops
      ensures !r.Returned? && if r.Go? then Busy(op, Next(m)) && lock == old(lock) && Settled(ops[op]) else Failed(op, false, r)
    {
      hide Apply, Ran, Run, Failed;
      r := MarkState(op, Change(FinalState(reached), error := Set(FinalError(reached)), evidence := Set(Committed),
        audit := Set(AuditCommitted)), m);
    }

    method Finish(op: OpId, policy: Policy, before: File, plan: Plan) returns (r: Flow)
      requires Busy(op, TrimRun(policy, RecordEvidence, before, plan))
      modifies `file, `strike, `edits, `lock, `sys, `trace, `ops, `dirs, `events, `held
      ensures !r.Go? && if r.Returned? then r == Returned(true) && Ended(op) && Settled(ops[op]) else Failed(op, false, r)
    {
      hide Apply, Ran, Run, Failed, Settled, Busy, Ended;
      ghost var m := TrimRun(policy, RecordEvidence, before, plan);
      :- CommitEvidence(op, Sha256(before.text), m);
      :- RenameSpool(op, m.(pc := TrimPc.RenameSpool));
      :- MarkFinal(op, plan.reached, m.(pc := TrimPc.MarkFinal));
      r := DropRecovery(op, m.(pc := TrimPc.DropRecovery));
    }

    // The body of the try block.
    method TrimTarget(op: OpId, policy: Policy) returns (r: Flow)
      requires Busy(op, TrimRun(policy, TrimPc.TakeLock, NO_FILE, NO_PLAN)) && lock == Free && base.planner == PlanTrim
      modifies `file, `strike, `edits, `lock, `sys, `trace, `ops, `dirs, `events, `held
      ensures !r.Go? && if r.Returned? then Ended(op) && (r.mutated <==> Settled(ops[op])) else Failed(op, false, r)
    {
      hide Apply, Ran, Run, Failed, Settled, Busy, Ended;
      ghost var m := TrimRun(policy, TrimPc.TakeLock, NO_FILE, NO_PLAN);
      :- TakeLock(op, m);
      :- MarkState(op, Change(Locked), m.(pc := MarkLocked));
      var before, plan :- ReadAndPlan(op, policy);
      :- WriteAhead(op, policy, before, plan);
      :- ReplaceAndVerify(op, policy, before, plan);
      r := Finish(op, policy, before, plan);
    }

    // _validate_and_consume: one transaction consumes the authorization and inserts the row.
    method ValidateAndConsume(id: AuthId, ghost m: Main, ghost h: Hist)
      requires Poised(id)
      requires (start.StartTrim? || start.StartUndo?) && Apply(sys, start) == Begin(Flushed(sys), id, m, h)
      modifies `auths, `ops, `sys, `trace
      ensures Busy(owner, m) && Journal() == Consume(old(Journal()), id)
    {
      hide Apply, Ran, Run;
      var a := auths[id];
      auths := auths[id := a.(consumed := true)];
      ops := ops[a.op := OpRow(id, a.kind, a.proposal, a.before, None, Authorized, None, false, false, NoEvidence,
        AuditPending, false, false)];
      TookStart();
    }

    // A call has begun, and nothing is open on the connection any more.
    ghost predicate Opened()
      reads this
    {
      && Ran() && trace == [] && Fated() && Journal() == Flushed(sys).disk && held.None? && lock == sys.lock == Free
      && sys == base && Inv(base) && base.planner == PlanTrim && sys.mains == map[] && sys.menders == map[]
    }

    // It is about to consume this authorization.
    ghost predicate Poised(id: AuthId)
      reads this
    {
      Opened() && Startable(Flushed(base), id) && owner == auths[id].op
    }

    // A call begins: who it is, and what will happen to it.
    method Enter(strike: Strike, edits: seq<Option<File>>, ghost owner: OpId, ghost start: Label)
      modifies `strike, `edits, `base, `trace, `visits, `owner, `start, `fate
      ensures Ran() && Fated() && base == sys && trace == [] && this.owner == owner && this.start == start && visits == edits
              && fate == strike == this.strike
    {
      this.strike, this.edits := strike, edits;
      base, trace, visits, fate := sys, [], edits, strike;
      this.owner, this.start := owner, start;
    }

    // When the call is over, everything that holds of runs holds again.
    lemma Leave(op: OpId)
      requires Ended(op) && Inv(base) && base.planner == PlanTrim
      ensures trace != [] && Valid() && sys == Run(base, trace) && OwnMoves(trace, start, owner, visits, fate)
    {
      RunKeeps(base, trace);
      assert sys.mains == map[];
    }

    // The trim that this call has begun is the one that the history tells of.
    lemma TrimHistory(s: Sys, id: AuthId, policy: Policy, ls: seq<Label>)
      requires Inv(s) && Consumable(s.disk, id) && ls != [] && ls[0] == StartTrim(id, policy)
      ensures var (t, op) := (Run(s, ls), s.disk.auths[id].op); op in t.hist && t.hist[op].trim && t.hist[op].policy == policy && t.planner == s.planner
    {
      hide Inv;
      var s1 := Apply(s, ls[0]);
      StepKeeps(s, ls[0]);
      RunKeeps(s1, ls[1..]);
      assert HistGrows(s1.hist[s.disk.auths[id].op], Run(s, ls).hist[s.disk.auths[id].op]);
    }

    lemma ExecuteLeaves(s: Sys, id: AuthId, policy: Policy, ls: seq<Label>, edits: seq<Option<File>>, strike: Strike, r: Outcome)
      requires ls != [] && Inv(s) && Startable(Flushed(s), id) && s.planner == PlanTrim && OwnMoves(ls, StartTrim(id, policy), s.disk.auths[id].op, edits, strike)
      requires var (t, op) := (Run(s, ls), s.disk.auths[id].op);
               && t.mains == map[] && id in t.disk.auths && t.disk.auths[id].consumed && t.disk.auths[id].op == op && op in t.disk.ops
               && !r.Denied? && (r.Report? ==> r.row == t.disk.ops[op] && (r.mutated <==> Settled(r.row)))
               && (strike.Never? ==> r.Report?)
      ensures Executed(s, Run(s, ls), ls, id, policy, edits, strike, r)
    {
      hide Run, CanTrim, TrimDone, TrimStopped, Inv, Verdict, Settled;
      assert Inv(Run(s, ls)) && Grows(s, Run(s, ls)) by { RunKeeps(s, ls); }
      AuthRow(Run(s, ls), id);
      TrimHistory(s, id, policy, ls);
      if Concluded(Run(s, ls).disk.ops[s.disk.auths[id].op].state) { VerdictHolds(Run(s, ls), s.disk.auths[id].op); }
      if strike.Never? && Undisturbed(edits) { ExecutesAlone(s, id, policy, ls, edits); }
    }

    lemma DoneIsSettled(d: Disk, d': Disk, id: AuthId, policy: Policy)
      requires CanTrim(d, id, policy) && TrimDone(d, d', id, policy)
      ensures d.auths[id].op in d'.ops && Settled(d'.ops[d.auths[id].op])
    {
      hide PlanTrim, Record;
    }

    lemma StoppedIsNot(d: Disk, d': Disk, id: AuthId, policy: Policy)
      requires Consumable(d, id) && !CanTrim(d, id, policy) && TrimStopped(d, d', id, policy)
      ensures d.auths[id].op in d'.ops && !Settled(d'.ops[d.auths[id].op])
    {
      hide PlanTrim, Record;
    }

    lemma ExecutesAlone(s: Sys, id: AuthId, policy: Policy, ls: seq<Label>, edits: seq<Option<File>>)
      requires Startable(Flushed(s), id) && s.planner == PlanTrim && ls != []
      requires OwnMoves(ls, StartTrim(id, policy), s.disk.auths[id].op, edits, Never) && Undisturbed(edits) && Run(s, ls).mains == map[]
      ensures var (d, d', op) := (Flushed(s).disk, Run(s, ls).disk, s.disk.auths[id].op);
              && op in d'.ops && (Settled(d'.ops[op]) <==> CanTrim(d, id, policy))
              && if CanTrim(d, id, policy) then TrimDone(d, d', id, policy) else TrimStopped(d, d', id, policy)
    {
      hide Run, OwnMoves, PlanTrim, Record, TrimDone, TrimStopped, CanTrim;
      var (d, d') := (Flushed(s).disk, Run(s, ls).disk);
      if CanTrim(d, id, policy) {
        TrimSucceeds(s, id, policy, ls, edits);
        DoneIsSettled(d, d', id, policy);
      } else {
        TrimStops(s, id, policy, ls, edits);
        StoppedIsNot(d, d', id, policy);
      }
    }

    method ExecuteWriteback(id: AuthId, policy: Policy, strike: Strike, edits: seq<Option<File>>) returns (r: Outcome)
      requires Valid()
      modifies this
      ensures Valid() && sys == Run(old(sys), trace) && Executed(old(sys), sys, trace, id, policy, edits, strike, r)
    {
      hide Apply, Run, Inv, Ran, OwnMoves, CanTrim, TrimDone, Startable;
      OpenTrim(id, policy, strike, edits);
      if id !in auths || auths[id].consumed {
        Replayed(id, policy);
        return Denied;
      }
      hide Executed;
      NewOperation(sys, id);
      r := Execute(id, policy);
    }

    // The scope of the profile is committed before the authorization is looked at.
    method OpenTrim(id: AuthId, policy: Policy, strike: Strike, edits: seq<Option<File>>)
      requires Valid()
      modifies `strike, `edits, `base, `trace, `visits, `owner, `start, `fate, `events, `held
      ensures Opened() && base == old(sys) && start == StartTrim(id, policy) && visits == edits && fate == strike
      ensures id in auths ==> owner == auths[id].op
    {
      hide Apply, Run, Inv, Ran, OwnMoves, PlanTrim;
      Enter(strike, edits, if id in auths then auths[id].op else "", StartTrim(id, policy));
      EnsureScope();
    }

    // The authorization is rejected.
    ghost method Replayed(id: AuthId, policy: Policy)
      requires Opened() && start == StartTrim(id, policy) && !Consumable(Journal(), id)
      modifies `sys, `trace
      ensures Valid() && sys == Run(base, trace) == Flushed(base)
    {
      hide Inv, Run;
      FlushKeeps(sys);
      TookStart();
    }

    method Execute(id: AuthId, policy: Policy) returns (r: Outcome)
      requires Poised(id) && start == StartTrim(id, policy)
      modifies `file, `strike, `edits, `lock, `sys, `trace, `ops, `dirs, `events, `held, `auths
      ensures Valid() && sys == Run(base, trace) && Executed(base, sys, trace, id, policy, visits, fate, r)
    {
      hide Apply, Ran, Run, Inv, OwnMoves, Executed;
      var op := auths[id].op;
      var flow := ConsumeAndTrim(id, op, policy);
      r := match flow
           case Returned(mutated) => Report(ops[op], mutated)
           case Dead => Crashed
           case _ => Uncaught;
      Leave(op);
      ExecuteLeaves(base, id, policy, trace, visits, fate, r);
    }

    method ConsumeAndBind(id: AuthId, op: OpId, policy: Policy) returns (r: Flow)
      requires Poised(id) && start == StartTrim(id, policy) && owner == op
      modifies `file, `strike, `edits, `lock, `sys, `trace, `ops, `auths
      ensures auths == old(auths)[id := old(auths)[id].(consumed := true)] && lock == Free && !r.Returned?
      ensures if r.Go? then Busy(op, TrimRun(policy, TrimPc.TakeLock, NO_FILE, NO_PLAN)) else Ended(op) && !fate.Never?
    {
      hide Apply, Ran, Run, Inv, Failed, Begin, Settled, PlanTrim;
      StartMoves(sys, id, policy, "");
      ghost var m := TrimRun(policy, TrimPc.BindParent, NO_FILE, NO_PLAN);
      ValidateAndConsume(id, m, Hist(true, policy, false));
      r := BindParent(op, m);
    }

    method ConsumeAndTrim(id: AuthId, op: OpId, policy: Policy) returns (r: Flow)
      requires Poised(id) && start == StartTrim(id, policy) && owner == op
      modifies `file, `strike, `edits, `lock, `sys, `trace, `ops, `dirs, `events, `held, `auths
      ensures !r.Go? && Ended(op) && auths == old(auths)[id := old(auths)[id].(consumed := true)]
      ensures if r.Returned? then r.mutated <==> Settled(ops[op]) else !fate.Never?
    {
      hide Apply, Ran, Run, Inv, Failed, Begin, Settled, PlanTrim, Busy;
      r := ConsumeAndBind(id, op, policy);
      if r.Go? { r := Guard(op, policy); }
    }

    // The try block with its handler.
    method Guard(op: OpId, policy: Policy) returns (r: Flow)
      requires Busy(op, TrimRun(policy, TrimPc.TakeLock, NO_FILE, NO_PLAN)) && lock == Free && base.planner == PlanTrim
      modifies `file, `strike, `edits, `lock, `sys, `trace, `ops, `dirs, `events, `held
      ensures !r.Go? && Ended(op) && (r.Returned? ==> (r.mutated <==> Settled(ops[op]))) && (!r.Returned? ==> !fate.Never?)
    {
      hide Apply, Ran, Run, Busy;
      r := TrimTarget(op, policy);
      if r.Raises? { r := HandleException(op, false); }
    }

    // ---- rollback_writeback ------------------------------------------------------------

    method OpenBackup(op: OpId, original: OpId, snap: OpRow, ghost m: Main) returns (r: Flow, data: string)
      requires Busy(op, m) && m == UndoRun(original, snap, ReadBackup, "", NO_FILE)
      modifies `file, `strike, `edits, `lock, `sys, `trace
      ensures !r.Returned? && if r.Go? then Busy(op, m.(data := data, upc := UndoTakeLock)) && lock == old(lock) else Failed(op, true, r)
    {
      hide Apply, Ran, Run, Failed, Moves, Next;
      data := "";
      :- Hook(op, m);
      BackupMoves(sys, op);
      if original !in dirs || !snap.backupRef || !dirs[original].backup.Whole? || Sha256(dirs[original].backup.value) != snap.before {
        r := Throw(op, true);
        return;
      }
      data := dirs[original].backup.value;
      Stepped(op, m.(data := data, upc := UndoTakeLock));
      r := Go;
    }

    method UndoEdited(op: OpId, ghost m: Main) returns (r: Flow)
      requires Busy(op, m) && m.UndoRun? && m.upc.UndoMarkEdited?
      modifies `file, `strike, `edits, `lock, `sys, `trace, `ops
      ensures !r.Go? && if r.Returned? then r == Returned(false) && Ended(op) && ops[op].state != RolledBack else Failed(op, true, r)
    {
      hide Apply, Ran, Run, Failed;
      r := EndState(op, Change(ConcurrentEditDetected, error := Set(Some(RollbackCasMismatch))), m);
    }

    method UndoReadTarget(op: OpId, ghost m: Main) returns (r: Flow, seen: File)
      requires Busy(op, m) && m.UndoRun? && m.upc.UndoReadTarget?
      modifies `file, `strike, `edits, `lock, `sys, `trace, `ops
      ensures if r.Go? then Busy(op, m.(seen := seen, upc := UndoPc.UndoReplace)) && lock == old(lock)
              else if r.Returned? then r == Returned(false) && Ended(op) && ops[op].state != RolledBack else Failed(op, true, r)
    {
      hide Apply, Ran, Run, Failed, Moves, Next;
      seen := NO_FILE;
      :- Hook(op, m);
      UndoReplaceMoves(sys, op);
      if Sha256(file.text) != ops[op].before {
        Stepped(op, m.(upc := UndoMarkEdited));
        r := UndoEdited(op, m.(upc := UndoMarkEdited));
      } else {
        seen := file;
        Stepped(op, m.(seen := seen, upc := UndoPc.UndoReplace));
        r := Go;
      }
    }

    method UndoReplace(op: OpId, seen: File, data: string, ghost m: Main) returns (r: Flow)
      requires Busy(op, m) && m.UndoRun? && m.upc.UndoReplace? && seen == m.seen && data == m.data
      modifies `file, `strike, `edits, `lock, `sys, `trace, `ops
      ensures if r.Go? then Busy(op, Next(m)) && lock == old(lock)
              else if r.Returned? then r == Returned(false) && Ended(op) && ops[op].state != RolledBack else Failed(op, true, r)
    {
      hide Apply, Ran, Run, Failed, Moves, Next;
      :- Hook(op, m);
      UndoReplaceMoves(sys, op);
      if file != seen {
        Stepped(op, m.(upc := UndoMarkEdited));
        r := UndoEdited(op, m.(upc := UndoMarkEdited));
      } else {
        file := File(data, file.inode + 1);
        Stepped(op, Next(m));
        r := Go;
      }
    }

    // The read-back, and the end of the locked block.
    method UndoReadBack(op: OpId, expected: Digest, ghost m: Main) returns (r: Flow)
      requires Busy(op, m) && m.UndoRun? && m.upc.UndoReadBack? && expected == m.snap.before
      modifies `file, `strike, `edits, `lock, `sys, `trace
      ensures !r.Returned? && if r.Go? then Busy(op, Next(m)) && lock == Free else Failed(op, true, r)
    {
      hide Apply, Ran, Run;
      :- Hook(op, m);
      UndoReadBackMoves(sys, op);
      lock := Free;
      if Sha256(file.text) != expected {
        Stepped(op, Handler(true, None));
        r := Raises;
      } else {
        Stepped(op, Next(m));
        r := Go;
      }
    }

    method TombstoneEvidence(op: OpId, original: OpId, ghost m: Main) returns (r: Flow)
      requires Busy(op, m) && m.UndoRun? && m.upc.UndoTombstone? && original == m.original
      modifies `file, `strike, `edits, `lock, `sys, `trace, `events
      ensures !r.Returned? && if r.Go? then Busy(op, Next(m)) && lock == old(lock) else Failed(op, true, r)
    {
      hide Apply, Ran, Run, Failed, Moves, Next, Tombstone;
      :- Hook(op, m);
      TombstoneMoves(sys, op);
      events := Tombstone(events, original);
      Stepped(op, Next(m));
      r := Go;
    }

    method CloseOriginal(op: OpId, original: OpId, ghost m: Main) returns (r: Flow)
      requires Busy(op, m) && m.UndoRun? && m.upc.UndoMarkOriginal? && original == m.original && original != op
      modifies `file, `strike, `edits, `lock, `sys, `trace, `ops
      ensures !r.Go? && if r.Returned? then r == Returned(true) && Ended(op) && ops[op] == old(ops[op])
              && Shut(ops, original) else Failed(op, true, r)
    {
      hide Apply, Ran, Run, Failed, Next;
      :- Hook(op, m);
      UndoEnds(sys, op);
      if original in ops {
        SetState(original, Change(RolledBack, evidence := Set(Reconciled), audit := Set(AuditCommitted), rollbackAvailable := Set(false)));
      }
      lock := Free;
      SteppedOut(op);
      r := Returned(true);
    }

    method UndoMarkSelf(op: OpId, ghost m: Main) returns (r: Flow)
      requires Busy(op, m) && m.UndoRun? && m.upc.UndoMarkSelf?
      modifies `file, `strike, `edits, `lock, `sys, `trace, `ops
      ensures !r.Returned? && if r.Go? then Busy(op, Next(m)) && lock == old(lock) && ops[op].state == RolledBack else Failed(op, true, r)
    {
      hide Apply, Ran, Run, Failed;
      r := MarkState(op, Change(RolledBack, audit := Set(AuditCommitted)), m);
    }

    // The body of the try block, up to the end of the locked part, and after it.
    method RestoreTarget(op: OpId, original: OpId, snap: OpRow) returns (r: Flow, data: string, ghost m: Main)
      requires Busy(op, UndoRun(original, snap, ReadBackup, "", NO_FILE)) && lock == Free
      modifies `file, `strike, `edits, `lock, `sys, `trace, `ops
      ensures if r.Go? then Busy(op, m) && m.UndoRun? && m.upc.UndoTombstone? && m.original == original && m.data == data && lock == Free
              else if r.Returned? then r == Returned(false) && Ended(op) && ops[op].state != RolledBack else Failed(op, true, r)
    {
      hide Apply, Ran, Run, Failed, Busy, Ended;
      m := UndoRun(original, snap, ReadBackup, "", NO_FILE);
      data :- OpenBackup(op, original, snap, m);
      m := m.(data := data, upc := UndoTakeLock);
      :- TakeLock(op, m);
      :- MarkState(op, Change(RollbackLocked), m.(upc := UndoMarkLocked));
      var seen :- UndoReadTarget(op, m.(upc := UndoPc.UndoReadTarget));
      m := UndoRun(original, snap, UndoPc.UndoReplace, data, seen);
      :- UndoReplace(op, seen, data, m);
      :- MarkState(op, Change(RollbackFileReplaced, after := Set(Sha256(data))), m.(upc := UndoMarkReplaced));
      :- UndoReadBack(op, snap.before, m.(upc := UndoPc.UndoReadBack));
      m := m.(upc := UndoTombstone);
      r := Go;
    }

    method ReconcileEvidence(op: OpId, original: OpId, data: string, ghost m: Main) returns (r: Flow)
      requires Busy(op, m) && m.UndoRun? && m.upc.UndoTombstone? && m.original == original && m.data == data && original != op
      modifies `file, `strike, `edits, `lock, `sys, `trace, `ops, `events
      ensures !r.Go? && if r.Returned? then r == Returned(true) && Ended(op) && ops[op].state == RolledBack
              && Shut(ops, original) else Failed(op, true, r)
    {
      hide Apply, Ran, Run, Failed, Busy, Ended;
      :- TombstoneEvidence(op, original, m);
      :- MarkState(op, Change(RollbackEvidenceReconciled, after := Set(Sha256(data)), evidence := Set(Reconciled)),
        m.(upc := UndoMarkReconciled));
      :- UndoMarkSelf(op, m.(upc := UndoPc.UndoMarkSelf));
      r := CloseOriginal(op, original, m.(upc := UndoMarkOriginal));
    }

    method UndoGuard(op: OpId, original: OpId, snap: OpRow) returns (r: Flow)
      requires Busy(op, UndoRun(original, snap, ReadBackup, "", NO_FILE)) && lock == Free && original != op
      modifies `file, `strike, `edits, `lock, `sys, `trace, `ops, `events
      ensures !r.Go? && Ended(op) && (r.Returned? ==> (r.mutated <==> ops[op].state == RolledBack) && (r.mutated ==> Shut(ops, original)))
      ensures !r.Returned? ==> !fate.Never?
    {
      hide Apply, Ran, Run, Busy;
      ghost var m;
      var data;
      r, data, m := RestoreTarget(op, original, snap);
      if r.Go? { r := ReconcileEvidence(op, original, data, m); }
      if r.Raises? { r := HandleException(op, true); }
    }

    lemma RollbackLeaves(s: Sys, id: AuthId, original: OpId, ls: seq<Label>, edits: seq<Option<File>>, strike: Strike, r: Outcome)
      requires Inv(s) && Startable(s, id) && Undoable(s.disk, id, original)
      requires ls != [] && OwnMoves(ls, StartUndo(id, original), s.disk.auths[id].op, edits, strike)
      requires var (t, op) := (Run(s, ls), s.disk.auths[id].op);
               && t.mains == map[] && id in t.disk.auths && t.disk.auths[id].consumed && t.disk.auths[id].op == op && op in t.disk.ops
               && !r.Denied? && (strike.Never? ==> r.Report?)
               && (r.Report? ==> r.row == t.disk.ops[op] && (r.mutated <==> r.row.state == RolledBack) && (r.mutated ==> Shut(t.disk.ops, original)))
      ensures RolledBackBy(s, Run(s, ls), ls, id, original, edits, strike, r)
    {
      hide Run, OwnMoves, Inv;
      assert Inv(Run(s, ls)) by { RunKeeps(s, ls); }
      AuthRow(Run(s, ls), id);
      RollbackRestores(s, id, original, ls, edits, strike);
      if strike.Never? && Undisturbed(edits) {
        HasBackup(s, original);
        if CanUndo(s.disk, id, original) { UndoSucceeds(s, id, original, ls, edits); } else { UndoStops(s, id, original, ls, edits); }
      }
    }

    method RollbackWriteback(id: AuthId, original: OpId, strike: Strike, edits: seq<Option<File>>) returns (r: Outcome)
      requires Valid()
      modifies this
      ensures Valid() && sys == Run(old(sys), trace) && RolledBackBy(old(sys), sys, trace, id, original, edits, strike, r)
    {
      hide Apply, Run, Inv, Ran, OwnMoves, CanUndo, UndoDone, Startable;
      if held.Some? || !Undoable(Journal(), id, original) {
        Enter(strike, edits, "", Tick);
        return Denied;
      }
      hide RolledBackBy;
      NewOperation(sys, id);
      Enter(strike, edits, auths[id].op, StartUndo(id, original));
      r := Rollback(id, original);
    }

    method Rollback(id: AuthId, original: OpId) returns (r: Outcome)
      requires Poised(id) && sys.held.None? && Undoable(Journal(), id, original) && start == StartUndo(id, original)
      modifies `file, `strike, `edits, `lock, `sys, `trace, `ops, `events, `auths
      ensures Valid() && sys == Run(base, trace) && RolledBackBy(base, sys, trace, id, original, visits, fate, r)
    {
      hide Apply, Ran, Run, Inv, OwnMoves, RolledBackBy;
      var op := auths[id].op;
      var flow := ConsumeAndUndo(id, op, original);
      r := match flow
           case Returned(mutated) => Report(ops[op], mutated)
           case Dead => Crashed
           case _ => Uncaught;
      Leave(op);
      RollbackLeaves(base, id, original, trace, visits, fate, r);
    }

    method ConsumeAndUndo(id: AuthId, op: OpId, original: OpId) returns (r: Flow)
      requires Poised(id) && sys.held.None? && Undoable(Journal(), id, original) && start == StartUndo(id, original) && owner == op
      modifies `file, `strike, `edits, `lock, `sys, `trace, `ops, `events, `auths
      ensures !r.Go? && Ended(op) && auths == old(auths)[id := old(auths)[id].(consumed := true)]
      ensures if r.Returned? then (r.mutated <==> ops[op].state == RolledBack) && (r.mutated ==> Shut(ops, original)) else !fate.Never?
    {
      hide Apply, Ran, Run, Inv, Failed, Begin, Busy;
      StartMoves(sys, id, DEFAULT_POLICY, original);
      var snap := ops[original];
      ghost var m := UndoRun(original, snap, UndoBindParent, "", NO_FILE);
      ValidateAndConsume(id, m, Hist(false, DEFAULT_POLICY, false));
      r := BindParent(op, m);
      if r.Go? { r := UndoGuard(op, original, snap); }
    }

    // ---- reconcile_writeback -----------------------------------------------------------

    // The reconciliation, alone, is at m.
    ghost predicate Mends(m: Mender)
      reads this
    {
      && Begun() && Fated() && Agrees() && owner == m.op && sys.planner == base.planner && sys.mains == map[] && sys.menders.Keys == {RECONCILER}
      && Mending(sys) && held.None? && m.op in sys.hist && sys.menders[RECONCILER] == m && (lock == Free || lock == MenderHolds(RECONCILER))
    }

    method MendHook(ghost m: Mender) returns (r: MendFlow)
      requires Mends(m)
      modifies `file, `strike, `edits, `lock, `sys, `trace
      ensures !r.Advised? && if r.Proceed? then Mends(m) && lock == old(lock) else Ended(m.op) && !fate.Never?
    {
      hide Apply, Ran, Run;
      VisitTarget();
      var struck := Fate();
      if struck.Go? { return Proceed; }
      MendKillMoves(sys);
      Took(KillMend(RECONCILER));
      lock := Free;
      r := if struck.Dead? then Died else Broke;
    }

    ghost method MendStepped(m: Mender)
      requires Begun() && Fated() && owner == m.op && sys.planner == base.planner && sys.mains == map[]
               && sys.menders.Keys == {RECONCILER} && Mending(sys) && held.None?
      requires sys.menders[RECONCILER].op == m.op && m.op in sys.hist && m.op in ops && (lock == Free || lock == MenderHolds(RECONCILER))
      requires MendMoves(sys, Apply(sys, StepMend(RECONCILER)), Journal(), lock, m)
      modifies `sys, `trace
      ensures Mends(m)
    {
      hide Apply, Ran, Run;
      Took(StepMend(RECONCILER));
    }

    // The reconciliation returns or raises; the lock is released.
    method MendLeaves(op: OpId)
      requires Begun() && owner == op && sys.planner == base.planner && sys.mains == map[] && sys.menders.Keys == {RECONCILER}
      requires op in sys.hist && op in ops && sys.lock == lock && (lock == Free || lock == MenderHolds(RECONCILER))
      requires MendEnds(sys, Apply(sys, StepMend(RECONCILER)), Journal(), held)
      modifies `lock, `sys, `trace
      ensures Ended(op)
    {
      hide Apply, Ran, Run;
      lock := Free;
      Took(StepMend(RECONCILER));
      assert sys.menders == map[];
    }

    method MendEndState(c: Change, next: Advice, ghost m: Mender, op: OpId) returns (r: MendFlow)
      requires Mends(m) && op == m.op && MendEndOf(m) == Some(c)
      modifies `file, `strike, `edits, `lock, `sys, `trace, `ops
      ensures !r.Proceed? && Ended(op) && if r.Advised? then r.next == next && ops[op].state == c.state else !fate.Never?
    {
      hide Apply, Ran, Run, MendEndOf;
      :- MendHook(m);
      MendEndMoves(sys);
      SetState(op, c);
      MendLeaves(op);
      r := Advised(next);
    }

    method LoadSpool(op: OpId, ghost m: Mender) returns (r: MendFlow, spool: Spool, isPending: bool)
      requires Mends(m) && op == m.op && m.pc.LoadSpool? && op in dirs
      modifies `file, `strike, `edits, `lock, `sys, `trace
      ensures if r.Proceed? then Mends(m.(spool := spool, isPending := isPending, pc := MendPc.MendTakeLock)) && lock == old(lock)
                && SpoolIn(dirs[op]) == Some(spool) && isPending == dirs[op].pending.Whole?
              else Ended(op) && (r.Advised? ==> r.next == (if ops[op].rollbackAvailable then RollbackFirst else ManualRecovery))
      ensures fate.Never? && !r.Proceed? ==> SpoolIn(dirs[op]).None? && !r.Died?
      ensures (r.Advised? ==> NoSpool(dirs[op])) && (fate.Never? && NoSpool(dirs[op]) ==> r.Advised?)
    {
      hide Apply, Ran, Run;
      spool, isPending := NO_SPOOL, false;
      :- MendHook(m);
      LoadMoves(sys);
      if dirs[op].pending.Whole? {
        spool, isPending := dirs[op].pending.value, true;
      } else if dirs[op].pending.Absent? && dirs[op].committed.Whole? {
        spool, isPending := dirs[op].committed.value, false;
      } else {
        MendLeaves(op);
        r := if dirs[op].pending.Absent? && dirs[op].committed.Absent?
             then Advised(if ops[op].rollbackAvailable then RollbackFirst else ManualRecovery) else Broke;
        return;
      }
      MendStepped(m.(spool := spool, isPending := isPending, pc := MendPc.MendTakeLock));
      r := Proceed;
    }

    method MendTakeLock(ghost m: Mender) returns (r: MendFlow)
      requires Mends(m) && m.pc.MendTakeLock? && lock == Free
      modifies `file, `strike, `edits, `lock, `sys, `trace
      ensures !r.Advised? && if r.Proceed? then Mends(m.(pc := MendPc.Judge)) && lock == MenderHolds(RECONCILER) else Ended(m.op) && !fate.Never?
    {
      hide Apply, Ran, Run;
      :- MendHook(m);
      MendLockMoves(sys);
      lock := MenderHolds(RECONCILER);
      MendStepped(m.(pc := MendPc.Judge));
      r := Proceed;
    }

    // The first read. For a trim it must find the file before or after the replacement.
    method Judge(op: OpId, undo: bool, spool: Spool, ghost m: Mender) returns (r: MendFlow, seen: File)
      requires Mends(m) && op == m.op && m.pc.Judge? && undo == m.original.Some? && spool == m.spool
      modifies `file, `strike, `edits, `lock, `sys, `trace, `ops
      ensures if r.Proceed? then Mends(m.(seen := seen, pc := MendPc.Recheck)) && lock == old(lock)
              else Ended(op) && if r.Advised? then !r.next.NoAction? && Conclusive(r.next, ops[op].state) else !fate.Never?
    {
      hide Apply, Ran, Run, Mends;
      seen := NO_FILE;
      :- MendHook(m);
      r, seen := JudgeNow(op, undo, spool, m);
    }

    method JudgeNow(op: OpId, undo: bool, spool: Spool, ghost m: Mender) returns (r: MendFlow, seen: File)
      requires Mends(m) && op == m.op && m.pc.Judge? && undo == m.original.Some? && spool == m.spool
      modifies `file, `strike, `edits, `lock, `sys, `trace, `ops
      ensures if r.Proceed? then Mends(m.(seen := seen, pc := MendPc.Recheck)) && lock == old(lock)
              else Ended(op) && if r.Advised? then !r.next.NoAction? && Conclusive(r.next, ops[op].state) else !fate.Never?
    {
      hide Apply, Ran, Run, Ended;
      JudgeMoves(sys);
      seen := file;
      var hash := Sha256(seen.text);
      if undo || hash == spool.after {
        MendStepped(m.(seen := seen, pc := MendPc.Recheck));
        r := Proceed;
      } else if hash == spool.before {
        MendStepped(m.(pc := MendMarkFailed));
        r := MendEndState(Change(FailedBeforeMutation, evidence := Set(Pending), audit := Set(AuditCommitted)), RetryWithNewAuthorization,
                          m.(pc := MendMarkFailed), op);
      } else {
        MendStepped(m.(pc := MendMarkUnknown));
        r := MendEndState(Change(RecoveryRequired, error := Set(Some(UnknownTargetHash))), ManualRecovery, m.(pc := MendMarkUnknown), op);
      }
    }

    // The second read, which must find what the first one found.
    method Recheck(op: OpId, undo: bool, seen: File, ghost m: Mender) returns (r: MendFlow)
      requires Mends(m) && op == m.op && m.pc.Recheck? && undo == m.original.Some? && seen == m.seen
      modifies `file, `strike, `edits, `lock, `sys, `trace, `ops
      ensures if r.Proceed? then Mends(m.(pc := AfterRecheck(m))) && lock == old(lock)
              else Ended(op) && if r.Advised? then !r.next.NoAction? && Conclusive(r.next, ops[op].state) else !fate.Never?
    {
      hide Apply, Ran, Run, Ended, AfterRecheck;
      :- MendHook(m);
      RecheckMoves(sys);
      if file != seen {
        MendStepped(m.(pc := MendMarkStale));
        r := MendEndState(Change(RecoveryRequired,
          error := Set(Some(if undo then RollbackReconcileCasMismatch else ReconcileCasMismatch))), ManualRecovery,
                          m.(pc := MendMarkStale), op);
      } else {
        MendStepped(m.(pc := AfterRecheck(m)));
        r := Proceed;
      }
    }

    method MendEvidence(op: OpId, spool: Spool, ghost m: Mender) returns (r: MendFlow)
      requires Mends(m) && op == m.op && m.pc.MendRecord? && spool == m.spool
      modifies `file, `strike, `edits, `lock, `sys, `trace, `events, `held
      ensures !r.Advised? && if r.Proceed? then Mends(m.(pc := MendPc.MendRename)) && lock == old(lock) else Ended(op)
      ensures r.Proceed? ==> held.None?
      ensures fate.Never? && !r.Proceed? ==> held.Some? && !r.Died?
    {
      hide Apply, Ran, Run, Record, Inserted;
      :- MendHook(m);
      MendRecordMoves(sys);
      var ok := RecordOrLeaveOpen(op, spool.removed, spool.before);
      if ok {
        MendStepped(m.(pc := MendPc.MendRename));
        r := Proceed;
      } else {
        MendLeaves(op);
        r := Broke;
      }
    }

    method MendRename(op: OpId, isPending: bool, ghost m: Mender) returns (r: MendFlow)
      requires Mends(m) && op == m.op && m.pc.MendRename? && isPending == m.isPending
      modifies `file, `strike, `edits, `lock, `sys, `trace, `dirs
      ensures !r.Advised? && if r.Proceed? then Mends(m.(pc := MendMarkFinal)) && lock == old(lock) else Ended(op)
      ensures fate.Never? && !r.Proceed? ==> !r.Died? && isPending && (op !in old(dirs) || old(dirs)[op].pending.Absent?)
    {
      hide Apply, Ran, Run;
      :- MendHook(m);
      MendRenameMoves(sys);
      if isPending {
        if op !in dirs || dirs[op].pending.Absent? {
          MendLeaves(op);
          return Broke;
        }
        dirs := dirs[op := dirs[op].(pending := Absent, committed := dirs[op].pending)];
      }
      MendStepped(m.(pc := MendMarkFinal));
      r := Proceed;
    }

    method MendFinal(op: OpId, spool: Spool, ghost m: Mender) returns (r: MendFlow)
      requires Mends(m) && op == m.op && m.pc.MendMarkFinal? && spool == m.spool
      modifies `file, `strike, `edits, `lock, `sys, `trace, `ops
      ensures !r.Advised? && if r.Proceed? then Mends(m.(pc := MendDropRecovery)) && Settled(ops[op]) else Ended(op) && !fate.Never?
    {
      hide Apply, Ran, Run;
      :- MendHook(m);
      MendFinalMoves(sys);
      SetState(op, Change(FinalState(spool.reached), error := Set(FinalError(spool.reached)), after := Set(spool.after),
                          evidence := Set(Committed), audit := Set(AuditCommitted)));
      MendStepped(m.(pc := MendDropRecovery));
      r := Proceed;
    }

    method MendDrop(op: OpId, ghost m: Mender) returns (r: MendFlow)
      requires Mends(m) && op == m.op && m.pc.MendDropRecovery?
      modifies `file, `strike, `edits, `lock, `sys, `trace, `dirs
      ensures !r.Proceed? && Ended(op) && if r.Advised? then r.next == NoAction else !fate.Never?
    {
      hide Apply, Ran, Run;
      :- MendHook(m);
      MendFinalMoves(sys);
      if op in dirs { dirs := dirs[op := dirs[op].(recoveryAuth := false)]; }
      MendLeaves(op);
      r := Advised(NoAction);
    }

    // A trim whose spool is in the journal.
    method MendTrim(op: OpId, ghost m: Mender) returns (r: MendFlow)
      requires Mends(m) && op == m.op && m.pc.LoadSpool? && m.original.None? && lock == Free && op in dirs && held.None?
      modifies `file, `strike, `edits, `lock, `sys, `trace, `ops, `dirs, `events, `held
      ensures !r.Proceed? && Ended(op) && (r.Advised? ==> if NoSpool(old(dirs)[op]) then
                ops[op] == old(ops[op]) && r.next == (if ops[op].rollbackAvailable then RollbackFirst else ManualRecovery)
              else SpoolIn(old(dirs)[op]).Some? && Conclusive(r.next, ops[op].state))
      ensures fate.Never? ==> if r.Advised? then held.None? else r.Broke? && (held.Some? || (SpoolIn(old(dirs)[op]).None? && !NoSpool(old(dirs)[op])))
    {
      hide Apply, Ran, Run, Mends, Ended;
      var spool, isPending :- LoadSpool(op, m);
      ghost var k := m.(spool := spool, isPending := isPending, pc := MendPc.MendTakeLock);
      :- MendTakeLock(k);
      var seen :- Judge(op, false, spool, k.(pc := MendPc.Judge));
      k := k.(seen := seen, pc := MendPc.Recheck);
      :- Recheck(op, false, seen, k);
      :- MendEvidence(op, spool, k.(pc := MendRecord));
      :- MendRename(op, isPending, k.(pc := MendPc.MendRename));
      :- MendFinal(op, spool, k.(pc := MendMarkFinal));
      r := MendDrop(op, k.(pc := MendDropRecovery));
    }

    method UnwindEvidence(op: OpId, original: OpId, ghost m: Mender) returns (r: MendFlow)
      requires Mends(m) && op == m.op && m.pc.UnwindTombstone? && m.row.proposal == Some(original)
      modifies `file, `strike, `edits, `lock, `sys, `trace, `events
      ensures !r.Advised? && if r.Proceed? then Mends(m.(pc := UnwindMarkSelf)) && lock == old(lock) else Ended(op) && !fate.Never?
    {
      hide Apply, Ran, Run, Tombstone;
      :- MendHook(m);
      UnwindMoves(sys);
      events := Tombstone(events, original);
      MendStepped(m.(pc := UnwindMarkSelf));
      r := Proceed;
    }

    method UnwindSelf(op: OpId, current: Digest, ghost m: Mender) returns (r: MendFlow)
      requires Mends(m) && op == m.op && m.pc.UnwindMarkSelf? && m.row.proposal.Some? && current == Sha256(m.seen.text)
      modifies `file, `strike, `edits, `lock, `sys, `trace, `ops
      ensures !r.Advised? && if r.Proceed? then Mends(m.(pc := UnwindMarkOriginal)) && ops[op].state == RolledBack else Ended(op) && !fate.Never?
    {
      hide Apply, Ran, Run;
      :- MendHook(m);
      UnwindMoves(sys);
      SetState(op, Change(RolledBack, after := Set(current), evidence := Set(Reconciled), audit := Set(AuditCommitted)));
      MendStepped(m.(pc := UnwindMarkOriginal));
      r := Proceed;
    }

    method UnwindOriginal(op: OpId, original: OpId, ghost m: Mender) returns (r: MendFlow)
      requires Mends(m) && op == m.op && m.pc.UnwindMarkOriginal? && m.row.proposal == Some(original) && ops[op].state == RolledBack
      modifies `file, `strike, `edits, `lock, `sys, `trace, `ops
      ensures !r.Proceed? && Ended(op)
      ensures if r.Advised? then r.next == NoAction && ops[op].state == RolledBack && Shut(ops, original) else !fate.Never?
    {
      hide Apply, Ran, Run;
      :- MendHook(m);
      UnwindMoves(sys);
      if original in ops {
        SetState(original, Change(RolledBack, evidence := Set(Reconciled), audit := Set(AuditCommitted), rollbackAvailable := Set(false)));
      }
      MendLeaves(op);
      r := Advised(NoAction);
    }

    // A rollback: the file tells whether it happened.
    method MendUndo(op: OpId, original: OpId, restored: Digest, expected: Digest, ghost m: Mender) returns (r: MendFlow)
      requires Mends(m) && op == m.op && m.pc.MendTakeLock? && lock == Free && m.row.proposal == Some(original) && m.spool == NO_SPOOL
      requires m.original.Some? && restored == m.original.value.before && expected == m.row.before
      modifies `file, `strike, `edits, `lock, `sys, `trace, `ops, `events
      ensures !r.Proceed? && Ended(op)
      ensures if r.Advised? then Conclusive(r.next, ops[op].state) && (r.next == NoAction ==> Shut(ops, original)) else !fate.Never?
    {
      hide Apply, Ran, Run, Mends, Ended, Shut;
      :- MendTakeLock(m);
      var seen :- Judge(op, true, NO_SPOOL, m.(pc := MendPc.Judge));
      ghost var k := m.(seen := seen, pc := MendPc.Recheck);
      :- Recheck(op, true, seen, k);
      if Sha256(seen.text) == restored {
        k := k.(pc := UnwindTombstone);
        :- UnwindEvidence(op, original, k);
        :- UnwindSelf(op, restored, k.(pc := UnwindMarkSelf));
        r := UnwindOriginal(op, original, k.(pc := UnwindMarkOriginal));
      } else if Sha256(seen.text) == expected {
        r := MendEndState(Change(FailedBeforeMutation, audit := Set(AuditCommitted)), RetryWithNewAuthorization,
          k.(pc := MendMarkFailed), op);
      } else {
        r := MendEndState(Change(RecoveryRequired, error := Set(Some(UnknownTargetHash))), ManualRecovery, k.(pc := MendMarkUnknown), op);
      }
    }

    method Reconcile(op: OpId, row: OpRow) returns (r: Outcome)
      requires Ran() && trace == [] && Fated() && sys == base && owner == op && start == StartMend(RECONCILER, op) && Mendable(Journal(), op) && row == ops[op]
      requires Journal() == Flushed(sys).disk && held.None? && sys.lock == lock && !Terminal(row.state)
      requires sys.mains == map[] && sys.menders == map[] && lock == Free && op in sys.hist
      modifies `file, `strike, `edits, `lock, `sys, `trace, `ops, `dirs, `events, `held
      ensures Ended(op) && !r.Report? && !r.Denied? && (r.Told? ==> r.row == ops[op])
      ensures r.Told? ==> if row.kind == LiveOverflowTrim && NoSpool(old(dirs)[op]) then
                r.row == row && r.next == (if row.rollbackAvailable then RollbackFirst else ManualRecovery)
              else (row.kind == LiveOverflowTrim ==> SpoolIn(old(dirs)[op]).Some?) && Conclusive(r.next, r.row.state)
      ensures fate.Never? && !r.Told? ==>
                r == Uncaught && row.kind == LiveOverflowTrim && (held.Some? || (SpoolIn(old(dirs)[op]).None? && !NoSpool(old(dirs)[op])))
      ensures fate.Never? && r.Told? ==> held.None?
    {
      hide Apply, Ran, Run, Ended, Conclusive;
      var flow := MendRow(op, row);
      r := match flow
           case Advised(next) => Told(ops[op], next)
           case Died => Crashed
           case _ => Uncaught;
    }

    ghost method BeginMend(op: OpId, row: OpRow)
      requires Ran() && trace == [] && Fated() && sys == base && owner == op && start == StartMend(RECONCILER, op) && Mendable(Journal(), op) && row == ops[op]
      requires Journal() == Flushed(sys).disk && held.None? && sys.lock == lock && !Terminal(row.state)
      requires sys.mains == map[] && sys.menders == map[] && lock == Free && op in sys.hist
      modifies `sys, `trace
      ensures Mends(Mender(op, row, if row.kind == Kind.Rollback then Some(ops[row.proposal.value]) else None,
                           if row.kind == Kind.Rollback then MendPc.MendTakeLock else MendPc.LoadSpool, NO_SPOOL, false, NO_FILE))
    {
      hide Apply, Ran, Run;
      MendStartMoves(sys, op);
      TookStart();
    }

    method MendRow(op: OpId, row: OpRow) returns (flow: MendFlow)
      requires Ran() && trace == [] && Fated() && sys == base && owner == op && start == StartMend(RECONCILER, op) && Mendable(Journal(), op) && row == ops[op]
      requires Journal() == Flushed(sys).disk && held.None? && sys.lock == lock && !Terminal(row.state)
      requires sys.mains == map[] && sys.menders == map[] && lock == Free && op in sys.hist
      modifies `file, `strike, `edits, `lock, `sys, `trace, `ops, `dirs, `events, `held
      ensures Ended(op) && !flow.Proceed? && op in ops
      ensures flow.Advised? ==> if row.kind == LiveOverflowTrim && NoSpool(old(dirs)[op]) then
                ops[op] == row && flow.next == (if row.rollbackAvailable then RollbackFirst else ManualRecovery)
              else (row.kind == LiveOverflowTrim ==> SpoolIn(old(dirs)[op]).Some?) && Conclusive(flow.next, ops[op].state)
      ensures fate.Never? && !flow.Advised? ==>
                flow.Broke? && row.kind == LiveOverflowTrim && (held.Some? || (SpoolIn(old(dirs)[op]).None? && !NoSpool(old(dirs)[op])))
      ensures fate.Never? && flow.Advised? ==> held.None?
    {
      hide Apply, Ran, Run, Mends, Conclusive, SpoolIn, NoSpool;
      BeginMend(op, row);
      if row.kind == Kind.Rollback {
        var original := ops[row.proposal.value];
        flow := MendUndo(op, row.proposal.value, original.before, row.before,
          Mender(op, row, Some(original), MendPc.MendTakeLock, NO_SPOOL, false, NO_FILE));
      } else {
        flow := MendTrim(op, Mender(op, row, None, MendPc.LoadSpool, NO_SPOOL, false, NO_FILE));
      }
    }

    // The commit with which every call ends that has looked at the scope of the profile.
    method EnsureScope()
      modifies `events, `held
      ensures held.None? && events == if old(held).Some? then old(held).value else old(events)
    {
      if held.Some? { events, held := held.value, None; }
    }

    // A reconciliation that gets no further than its checks.
    ghost method Passed(op: OpId)
      requires Ran() && trace == [] && owner == op && start == StartMend(RECONCILER, op) && sys == base && sys.lock == lock && held.None?
      requires sys.mains == map[] && sys.menders == map[] && lock == Free && op in sys.hist && op in ops && sys.planner == base.planner
      requires Journal() == Flushed(sys).disk && !Mendable(Journal(), op) && !Terminal(ops[op].state)
      modifies `sys, `trace
      ensures Ended(op) && sys == Flushed(old(sys))
    {
      hide Ran, Run;
      TookStart();
    }

    method ReconcileWriteback(op: OpId, strike: Strike, edits: seq<Option<File>>) returns (r: Outcome)
      requires Valid()
      modifies this
      ensures Valid() && sys == Run(old(sys), trace) && !r.Report?
      ensures ReconciledBy(old(sys), sys, trace, op, edits, strike, r)
    {
      hide Apply, Run, Inv, Ran, OwnMoves;
      Enter(strike, edits, op, StartMend(RECONCILER, op));
      if op !in ops { return Denied; }
      HistRow(sys, op);
      var row := ops[op];
      if row.state in {Completed, CompletedPartial, BlockedTargetUnreachable, RolledBack,
        FailedBeforeMutation} { return Told(row, NoAction); }
      EnsureScope();
      r := ReconcileRow(op, row);
    }

    // An operation that is not over.
    method ReconcileRow(op: OpId, row: OpRow) returns (r: Outcome)
      requires Opened() && owner == op && start == StartMend(RECONCILER, op)
      requires op in ops && row == ops[op] && !Terminal(row.state) && op in sys.hist
      modifies `file, `strike, `edits, `lock, `sys, `trace, `ops, `dirs, `events, `held
      ensures Valid() && sys == Run(base, trace) && !r.Report?
      ensures ReconciledBy(base, sys, trace, op, visits, fate, r)
    {
      hide Apply, Run, Inv, Ran, OwnMoves;
      hide ReconciledBy;
      ghost var mendable := Mendable(Journal(), op);
      ghost var dir := if op in dirs then Some(dirs[op]) else None;
      r := Told(row, ManualRecovery);
      if !row.parentBound {
        r := Denied;
      } else if row.kind == Kind.Rollback {
        if row.proposal.None? || row.proposal.value !in ops || ops[row.proposal.value].after != Some(row.before) {
          r := Denied;
        } else {
          r := Reconcile(op, row);
        }
      } else if op !in dirs {
        r := Denied;
      } else if !row.spoolRef {
        r := Told(row, if row.rollbackAvailable then RollbackFirst else ManualRecovery);
      } else {
        r := Reconcile(op, row);
      }
      if !mendable {
        Passed(op);
        Leave(op);
        RefusalIsReconciled(base, op, trace, visits, fate, r);
      } else {
        Leave(op);
        ReconcileLeaves(base, op, trace, visits, fate, r);
      }
    }

    lemma RefusalIsReconciled(s: Sys, op: OpId, ls: seq<Label>, edits: seq<Option<File>>, strike: Strike, r: Outcome)
      requires op in s.disk.ops && !Terminal(s.disk.ops[op].state) && !Mendable(s.disk, op)
      requires var row := s.disk.ops[op];
               r == (if row.parentBound && row.kind == LiveOverflowTrim && op in s.disk.dirs
                     then Told(row, if row.rollbackAvailable then RollbackFirst else ManualRecovery) else Denied)
      ensures ReconciledBy(s, Flushed(s), ls, op, edits, strike, r)
    {
    }

    lemma ReconcileLeaves(s: Sys, op: OpId, ls: seq<Label>, edits: seq<Option<File>>, strike: Strike, r: Outcome)
      requires Inv(s) && s.planner == PlanTrim && Still(Flushed(s)) && Mendable(s.disk, op) && !Terminal(s.disk.ops[op].state)
      requires ls != [] && OwnMoves(ls, StartMend(RECONCILER, op), op, edits, strike)
      requires var (t, row) := (Run(s, ls), s.disk.ops[op]);
               && t.menders == map[] && op in t.disk.ops && (r.Told? ==> r.row == t.disk.ops[op])
               && (r.Told? ==> if row.kind == LiveOverflowTrim && NoSpool(s.disk.dirs[op]) then
                     r.row == row && r.next == (if row.rollbackAvailable then RollbackFirst else ManualRecovery)
                   else (row.kind == LiveOverflowTrim ==> SpoolIn(s.disk.dirs[op]).Some?) && Conclusive(r.next, r.row.state))
               && (strike.Never? && r.Told? ==> t.held.None?)
               && (strike.Never? && !r.Told? ==> r == Uncaught && row.kind == LiveOverflowTrim)
               && (strike.Never? && !r.Told? ==> t.held.Some? || (SpoolIn(s.disk.dirs[op]).None? && !NoSpool(s.disk.dirs[op])))
      ensures ReconciledBy(s, Run(s, ls), ls, op, edits, strike, r)
    {
      hide Run, Inv, Verdict, Mended, UnwindDone, MendDone, Advises, Conclusive, SpoolIn, NoSpool, OwnMoves;
      var t := Run(s, ls);
      assert Inv(t) && Grows(s, t) by { RunKeeps(s, ls); }
      if r.Told? && op in t.hist && t.hist[op].trim && Concluded(r.row.state) { VerdictHolds(t, op); }
      if strike.Never? && Undisturbed(edits) {
        MendEnded(s, op, ls, edits);
        if s.disk.ops[op].kind == Kind.Rollback {
          UnwindsExactly(s, op, RECONCILER);
          UnwindAdvises(Flushed(s).disk, t.disk, op, r);
        } else {
          MendsExactly(s, op, RECONCILER);
          MendAdvises(Flushed(s).disk, t.disk, t.held, op, r);
        }
      }
    }

    // What an answer says follows from the state that it leaves.
    lemma UnwindAdvises(d: Disk, d': Disk, op: OpId, r: Outcome)
      requires Mendable(d, op) && d.ops[op].kind == Kind.Rollback && UnwindDone(d, d', op) && op in d'.ops
      requires r.Told? && r.row == d'.ops[op] && Conclusive(r.next, r.row.state)
      ensures Advises(d, op, r)
    {
      hide Buried;
    }

    lemma MendAdvises(d: Disk, d': Disk, held: Option<Events>, op: OpId, r: Outcome)
      requires Mendable(d, op) && d.ops[op].kind == LiveOverflowTrim && MendDone(d, d', held, op) && op in d'.ops
      requires var (row, dir) := (d.ops[op], d.dirs[op]);
               && (r.Told? ==> r.row == d'.ops[op] && held.None?)
               && (r.Told? ==> if NoSpool(dir) then r.row == row && r.next == (if row.rollbackAvailable then RollbackFirst else ManualRecovery)
                               else SpoolIn(dir).Some? && Conclusive(r.next, r.row.state))
               && (!r.Told? ==> r == Uncaught) && (!r.Told? ==> held.Some? || (SpoolIn(dir).None? && !NoSpool(dir)))
      ensures Advises(d, op, r)
    {
      hide Record, Inserted;
    }

    // ---- Other calls on the connection ---------------------------------------------------

    lemma OneMove(s: Sys, l: Label)
      requires Inv(s)
      ensures Run(s, [l]) == Apply(s, l) && Inv(Apply(s, l))
    {
      hide Apply;
      StepKeeps(s, l);
      assert Run(s, [l]) == Run(Apply(s, l), []);
    }

    // create_writeback_authorization; its commit takes along what is open.
    method CreateAuthorization(id: AuthId, op: OpId, kind: Kind, before: Digest, proposal: Option<OpId>) returns (ok: bool)
      requires Valid()
      modifies this
      ensures Valid() && sys == Run(old(sys), [Issue(id, op, kind, before, proposal)])
      ensures ok <==> id !in old(auths) && forall i | i in old(auths) :: old(auths)[i].op != op
      ensures ok ==> auths == old(auths)[id := Auth(op, kind, before, proposal, false)]
    {
      hide Inv;
      ghost var l := Issue(id, op, kind, before, proposal);
      OneMove(sys, l);
      ok := id !in auths && forall i | i in auths :: auths[i].op != op;
      if ok {
        auths := auths[id := Auth(op, kind, before, proposal, false)];
        if held.Some? { events, held := held.value, None; }
      }
      sys := Apply(sys, l);
    }

    // conn.commit(), from whatever call.
    method CommitAll()
      requires Valid()
      modifies this
      ensures Valid() && sys == Run(old(sys), [Commit])
    {
      hide Inv;
      OneMove(sys, Commit);
      if held.Some? { events, held := held.value, None; }
      sys := Apply(sys, Commit);
    }

    // conn.rollback(), or the end of the connection.
    method DiscardAll()
      requires Valid()
      modifies this
      ensures Valid() && sys == Run(old(sys), [Discard])
    {
      hide Inv;
      OneMove(sys, Discard);
      held := None;
      sys := Apply(sys, Discard);
    }
  }
}
