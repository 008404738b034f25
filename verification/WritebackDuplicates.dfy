// Trims that take out the same block more than once. The rows of equal blocks need different
// seconds, so that one evidence transaction cannot hold them all. It fails, and what becomes
// of the trim depends on what becomes of the transaction that is left open.
module WritebackDuplicates {
  import opened Options
  import opened Trim
  import opened Blocks
  import opened Writeback
  import opened WritebackSafety
  import opened WritebackRecovery

  // ---- One transaction ---------------------------------------------------------------------

  // The blocks that are not on record yet, in order.
  function Unrecorded(events: Events, sp: Spool, from: nat): seq<string>
    requires from <= |sp.removed|
    decreases |sp.removed| - from
  {
    if from == |sp.removed| then []
    else if Key(sp.removed[from], from + 1, sp.before) in events then Unrecorded(events, sp, from + 1)
    else [sp.removed[from]] + Unrecorded(events, sp, from + 1)
  }

  // How many of them come before the first that has been seen already.
  function Leading(u: seq<string>, seen: set<string>): (n: nat)
    ensures n <= |u|
  {
    if u == [] || u[0] in seen then 0 else 1 + Leading(u[1..], seen + {u[0]})
  }

  // How often one must begin anew.
  function Rounds(u: seq<string>): nat
    decreases |u|
  {
    if u == [] then 0 else 1 + Rounds(u[Leading(u, {})..])
  }

  lemma ClashMore(events: Events, k: EventKey, e: RawEvent, b: string, now: nat)
    requires k !in events && e.at == now
    ensures Clash(events[k := e], b, now) <==> Clash(events, b, now) || e.content == b
  {
    var more := events[k := e];
    if Clash(events, b, now) {
      var x :| x in events && events[x].content == b && events[x].at == now;
      assert x in more && more[x] == events[x];
    }
    if e.content == b { assert k in more && more[k] == e; }
  }

  lemma {:induction false} UnrecordedStays(events: Events, k: EventKey, e: RawEvent, sp: Spool, from: nat)
    requires from <= |sp.removed| && k.index <= from
    ensures Unrecorded(events[k := e], sp, from) == Unrecorded(events, sp, from)
    decreases |sp.removed| - from
  {
    if from < |sp.removed| { UnrecordedStays(events, k, e, sp, from + 1); }
  }

  // What clashes is what has been seen.
  predicate Seen(events: Events, sp: Spool, now: nat, from: nat, seen: set<string>) {
    forall i | from <= i < |sp.removed| :: Clash(events, sp.removed[i], now) <==> sp.removed[i] in seen
  }

  lemma {:induction false} InsertionLaw(events: Events, op: OpId, sp: Spool, now: nat, from: nat, seen: set<string>)
    requires from <= |sp.removed| && Seen(events, sp, now, from, seen)
    ensures var u := Unrecorded(events, sp, from);
            && (Record(events, op, sp.removed, sp.before, now, from).Some? <==> Leading(u, seen) == |u|)
            && Unrecorded(Inserted(events, op, sp.removed, sp.before, now, from), sp, from) == u[Leading(u, seen)..]
            && (forall k | k in events :: k in Inserted(events, op, sp.removed, sp.before, now, from))
    decreases |sp.removed| - from
  {
    if from < |sp.removed| {
      var (b, k) := (sp.removed[from], Key(sp.removed[from], from + 1, sp.before));
      if k in events {
        InsertionLaw(events, op, sp, now, from + 1, seen);
      } else if b !in seen {
        InsertionNext(events, op, sp, now, from, seen);
      }
    }
  }

  lemma {:induction false} InsertionNext(events: Events, op: OpId, sp: Spool, now: nat, from: nat, seen: set<string>)
    requires from < |sp.removed| && Seen(events, sp, now, from, seen)
    requires Key(sp.removed[from], from + 1, sp.before) !in events && sp.removed[from] !in seen
    ensures var u := Unrecorded(events, sp, from);
            && (Record(events, op, sp.removed, sp.before, now, from).Some? <==> Leading(u, seen) == |u|)
            && Unrecorded(Inserted(events, op, sp.removed, sp.before, now, from), sp, from) == u[Leading(u, seen)..]
            && (forall k | k in events :: k in Inserted(events, op, sp.removed, sp.before, now, from))
    decreases |sp.removed| - from, 0
  {
    var (b, k) := (sp.removed[from], Key(sp.removed[from], from + 1, sp.before));
    var (e, more) := (RawEvent(b, op, now, Standing), seen + {b});
    var events' := events[k := e];
    assert Seen(events', sp, now, from + 1, more) by {
      forall i | from + 1 <= i < |sp.removed| ensures Clash(events', sp.removed[i], now) <==> sp.removed[i] in more {
        ClashMore(events, k, e, sp.removed[i], now);
      }
    }
    InsertionLaw(events', op, sp, now, from + 1, more);
    UnrecordedStays(events, k, e, sp, from + 1);
    var rest := Unrecorded(events, sp, from + 1);
    assert Unrecorded(events, sp, from) == [b] + rest && ([b] + rest)[1..] == rest;
    assert Leading([b] + rest, seen) == 1 + Leading(rest, more);
    assert k in events' && ([b] + rest)[1 + Leading(rest, more)..] == rest[Leading(rest, more)..];
  }

  // In a second of its own a transaction records the blocks up to the first repetition, and
  // goes through when there is none.
  lemma FreshTransaction(events: Events, op: OpId, sp: Spool, now: nat)
    requires Unclashed(events, sp.removed, now)
    ensures var u := Unrecorded(events, sp, 0);
            && (Record(events, op, sp.removed, sp.before, now, 0).Some? <==> Rounds(u) <= 1) && (Rounds(u) <= 1 <==> Distinct(u))
            && Rounds(Unrecorded(Inserted(events, op, sp.removed, sp.before, now, 0), sp, 0)) == (if Rounds(u) == 0 then 0 else Rounds(u) - 1)
  {
    forall i | 0 <= i < |sp.removed| ensures !Clash(events, sp.removed[i], now) { assert sp.removed[i] in sp.removed; }
    InsertionLaw(events, op, sp, now, 0, {});
    var u := Unrecorded(events, sp, 0);
    OneRound(u);
    if u != [] {
      assert Leading(u, {}) > 0;
      var rest := u[Leading(u, {})..];
      assert rest == [] <==> Leading(u, {}) == |u|;
      assert Rounds(rest) == 0 <==> rest == [];
    }
  }

  lemma DistinctNext(u: seq<string>)
    requires u != []
    ensures Distinct(u) <==> Distinct(u[1..]) && u[0] !in u[1..]
  {
    var rest := u[1..];
    if Distinct(u) { assert forall i | 0 <= i < |rest| :: rest[i] == u[i + 1]; }
    if Distinct(rest) && u[0] !in rest {
      forall i, j | 0 <= i < j < |u| ensures u[i] != u[j] {
        assert u[j] == rest[j - 1] && u[j] in rest;
        if i > 0 { assert u[i] == rest[i - 1]; }
      }
    }
  }

  lemma {:induction false} LeadingAll(u: seq<string>, seen: set<string>)
    ensures Leading(u, seen) == |u| <==> Distinct(u) && forall b | b in u :: b !in seen
  {
    if u != [] {
      var rest := u[1..];
      LeadingAll(rest, seen + {u[0]});
      assert u == [u[0]] + rest;
      assert Distinct(u) <==> Distinct(rest) && u[0] !in rest by { DistinctNext(u); }
    }
  }

  // Different blocks take one round, and equal ones a round each.
  lemma OneRound(u: seq<string>)
    ensures Rounds(u) <= 1 <==> Distinct(u)
  {
    LeadingAll(u, {});
    if u != [] {
      var rest := u[Leading(u, {})..];
      assert Rounds(rest) == 0 <==> rest == [];
    }
  }

  lemma {:induction false} LeadingOnce(u: seq<string>, seen: set<string>, b: string)
    ensures multiset(u[..Leading(u, seen)])[b] <= (if b in seen then 0 else 1)
  {
    if u != [] && u[0] !in seen {
      var (rest, n) := (u[1..], Leading(u[1..], seen + {u[0]}));
      LeadingOnce(rest, seen + {u[0]}, b);
      assert u[..n + 1] == [u[0]] + rest[..n];
    }
  }

  lemma {:induction false} EqualBlocksCount(u: seq<string>, b: string)
    ensures multiset(u)[b] <= Rounds(u) <= |u|
    decreases |u|
  {
    if u != [] {
      var n := Leading(u, {});
      LeadingOnce(u, {}, b);
      EqualBlocksCount(u[n..], b);
      assert u == u[..n] + u[n..];
    }
  }

  // No transaction holds two equal blocks, at any time.
  lemma {:induction false} RecordIsDistinct(events: Events, op: OpId, sp: Spool, now: nat, from: nat, seen: set<string>)
    requires from <= |sp.removed| && forall b | b in seen :: Clash(events, b, now)
    ensures Record(events, op, sp.removed, sp.before, now, from).Some? ==>
              var u := Unrecorded(events, sp, from); Leading(u, seen) == |u|
    decreases |sp.removed| - from
  {
    if from < |sp.removed| {
      var (b, k) := (sp.removed[from], Key(sp.removed[from], from + 1, sp.before));
      if k in events {
        RecordIsDistinct(events, op, sp, now, from + 1, seen);
      } else if b !in seen && !Clash(events, b, now) {
        var e := RawEvent(b, op, now, Standing);
        forall x | x in seen + {b} ensures Clash(events[k := e], x, now) { ClashMore(events, k, e, x, now); }
        RecordIsDistinct(events[k := e], op, sp, now, from + 1, seen + {b});
        UnrecordedStays(events, k, e, sp, from + 1);
        var rest := Unrecorded(events, sp, from + 1);
        assert Unrecorded(events, sp, from) == [b] + rest && ([b] + rest)[1..] == rest;
      }
    }
  }

  lemma {:induction false} RecordedAll(events: Events, sp: Spool, from: nat)
    requires from <= |sp.removed| && Recorded(events, sp)
    ensures Unrecorded(events, sp, from) == []
    decreases |sp.removed| - from
  {
    if from < |sp.removed| {
      assert sp.removed[from] == sp.removed[from];
      RecordedAll(events, sp, from + 1);
    }
  }

  // ---- On one connection ---------------------------------------------------------------------

  // Reconciliations, each in a second of its own.
  function Again(op: OpId, pid: Pid, n: nat): seq<Label> {
    if n == 0 then [] else [Tick, StartMend(pid, op)] + Repeat(StepMend(pid), 8) + Again(op, pid, n - 1)
  }

  lemma TwoSteps(s: Sys, l: Label, l': Label)
    ensures Run(s, [l, l']) == Apply(Apply(s, l), l')
  {
    hide Apply;
    assert [l, l'][1..] == [l'] && [l'][1..] == [];
    assert Run(Apply(s, l), [l']) == Run(Apply(Apply(s, l), l'), []);
  }

  lemma AgainNext(s: Sys, op: OpId, pid: Pid, n: nat)
    requires n > 0
    ensures Run(s, Again(op, pid, n)) == Run(Mended(Apply(s, Tick), op, pid), Again(op, pid, n - 1))
  {
    hide Apply;
    var (two, eight, rest) := ([Tick, StartMend(pid, op)], Repeat(StepMend(pid), 8), Again(op, pid, n - 1));
    assert Again(op, pid, n) == two + (eight + rest);
    RunConcat(s, two, eight + rest);
    RunConcat(Run(s, two), eight, rest);
    TwoSteps(s, Tick, StartMend(pid, op));
  }

  // Nothing on record is younger than the clock.
  lemma NextSecond(s: Sys, sp: Spool)
    requires Inv(s)
    ensures var f := Flushed(Apply(s, Tick)); f.disk.events == Flushed(s).disk.events && Unclashed(f.disk.events, sp.removed, f.disk.clock)
  {
    hide OpsOk, MainsOk, MendersOk, AuthsOk;
  }

  lemma {:induction false} StaysFinished(s0: Sys, s: Sys, op: OpId, pid: Pid, n: nat)
    requires op in s0.disk.ops && op in s0.hist && HasPlan(s0, op) && op in s0.disk.dirs && Idle(s) && Finished(s0, s.disk, op)
    ensures var s' := Run(s, Again(op, pid, n)); Idle(s') && Finished(s0, s'.disk, op)
    decreases n
  {
    hide Enriched;
    if n > 0 {
      var t := Apply(s, Tick);
      TerminalMend(t, op, pid);
      AgainNext(s, op, pid, n);
      StaysFinished(s0, t, op, pid, n - 1);
    }
  }

  // The blocks that would not be on record if the open transaction were committed.
  function Missing(s0: Sys, s: Sys, op: OpId): seq<string>
    requires op in s0.disk.ops && op in s0.hist && HasPlan(s0, op)
  {
    Unrecorded(Flushed(s).disk.events, ExactSpool(s0, op), 0)
  }

  ghost predicate Unsettled(s0: Sys, s: Sys, op: OpId) {
    OnTrack(s0, s, op) && Inv(s) && Idle(s) && s.hist[op].replaced && !Terminal(s.disk.ops[op].state)
  }

  lemma OneReconciliation(s0: Sys, s: Sys, op: OpId, pid: Pid)
    requires Calm(s0, op) && Unsettled(s0, s, op)
    ensures op in s0.disk.ops && op in s0.hist && HasPlan(s0, op) && op in s0.disk.dirs
    ensures var (s', rounds) := (Mended(Apply(s, Tick), op, pid), Rounds(Missing(s0, s, op)));
            if rounds <= 1 then Idle(s') && Finished(s0, s'.disk, op)
            else Unsettled(s0, s', op) && Rounds(Missing(s0, s', op)) == rounds - 1
  {
    hide Calm, OnTrack, Inv, Finished, Mended, Record, Inserted, Rounds, Unrecorded, Abandoned;
    var t := Apply(s, Tick);
    StepOnTrack(s0, s, op, Tick);
    StepKeeps(s, Tick);
    OnTrackFacts(s0, s, op);
    NextSecond(s, ExactSpool(s0, op));
    RecoverySettles(s0, t, op, pid);
    MendSettles(s0, t, op, pid);
    FreshTransaction(Flushed(t).disk.events, op, ExactSpool(s0, op), t.disk.clock);
    assert Unrecorded(Flushed(t).disk.events, ExactSpool(s0, op), 0) == Missing(s0, s, op);
    if !CanRecord(s0, Flushed(t).disk.events, t.disk.clock, op) {
      assert Mended(t, op, pid) == LeftOpen(s0, Flushed(t), op);
    }
  }

  // As long as the connection lives and nobody rolls it back, every reconciliation commits the
  // rows that the one before left open, and adds those up to the next repetition. So the trim
  // is completed by the n-th one exactly when n rounds are enough for what is not on record.
  lemma {:induction false} ReconciliationsNeeded(s0: Sys, s: Sys, op: OpId, pid: Pid, n: nat)
    requires Calm(s0, op) && Unsettled(s0, s, op)
    ensures op in s0.disk.ops && op in s0.hist && HasPlan(s0, op) && op in s0.disk.dirs
    ensures var s' := Run(s, Again(op, pid, n)); Idle(s') && (Finished(s0, s'.disk, op) <==> n > 0 && Rounds(Missing(s0, s, op)) <= n)
    decreases n
  {
    hide Calm, OnTrack, Inv, Finished, Mended, Again, Rounds, Missing, Apply, Run;
    OneReconciliation(s0, s, op, pid);
    if n == 0 {
      NotFinished(s0, s, op);
      NoRounds(s, op, pid);
    } else {
      AgainNext(s, op, pid, n);
      var s' := Mended(Apply(s, Tick), op, pid);
      if Rounds(Missing(s0, s, op)) <= 1 {
        StaysFinished(s0, s', op, pid, n - 1);
      } else {
        ReconciliationsNeeded(s0, s', op, pid, n - 1);
      }
    }
  }

  lemma OnTrackFacts(s0: Sys, s: Sys, op: OpId)
    requires OnTrack(s0, s, op)
    ensures op in s0.disk.ops && op in s0.hist && HasPlan(s0, op) && op in s0.disk.dirs && op in s.disk.ops && op in s.hist
  {
    hide Enriching;
  }

  lemma NotFinished(s0: Sys, s: Sys, op: OpId)
    requires OnTrack(s0, s, op) && !Terminal(s.disk.ops[op].state)
    ensures !Finished(s0, s.disk, op)
  {
    hide Enriching;
  }

  lemma NoRounds(s: Sys, op: OpId, pid: Pid)
    ensures Run(s, Again(op, pid, 0)) == s
  {
  }

  // ---- When the connection is rolled back or closed --------------------------------------------

  // A trim that has journalled its spool, in which blocks that are not on record are equal.
  // Only it and its reconciliations are alive.
  predicate Doomed(s: Sys, op: OpId) {
    && op in s.disk.ops && op in s.hist && HasPlan(s, op) && !Distinct(Unrecorded(s.disk.events, ExactSpool(s, op), 0))
    && s.hist[op].trim && s.disk.ops[op].spoolRef && s.disk.ops[op].kind == LiveOverflowTrim
    && (forall x | x in s.mains :: x == op)
    && forall pid | pid in s.menders :: s.menders[pid].op == op
  }

  // An open transaction is never committed: its connection is rolled back or closed first.
  predicate RolledBackFirst(s: Sys, op: OpId, ls: seq<Label>)
    decreases |ls|
  {
    ls != [] ==>
      && (About(ls[0], op) || ls[0].Edit?) && !ls[0].Commit? && (ls[0].StartMend? ==> s.held.None?)
      && RolledBackFirst(Apply(s, ls[0]), op, ls[1..])
  }

  lemma DoomedFails(events: Events, op: OpId, sp: Spool, now: nat)
    requires !Distinct(Unrecorded(events, sp, 0))
    ensures Record(events, op, sp.removed, sp.before, now, 0).None? && !Recorded(events, sp)
  {
    RecordIsDistinct(events, op, sp, now, 0, {});
    LeadingAll(Unrecorded(events, sp, 0), {});
    if Recorded(events, sp) { RecordedAll(events, sp, 0); }
  }

  // Nothing new on record, and no other process.
  predicate Bare(s: Sys, s': Sys, op: OpId) {
    && s'.disk.events == s.disk.events && s'.mains.Keys <= s.mains.Keys
    && forall pid | pid in s'.menders :: s'.menders[pid].op == op || (pid in s.menders && s'.menders[pid].op == s.menders[pid].op)
  }

  lemma TrimStepBare(s: Sys, op: OpId)
    requires Running(s, op) && s.mains[op].TrimRun? && TrimRank(s.mains[op].pc) >= 10 && !s.mains[op].pc.RecordEvidence?
    ensures Bare(s, TrimStep(s, op), op)
  {
    hide TrimStep;
    if TrimRank(s.mains[op].pc) < 12 { ReplaceStepBare(s, op); } else { LateStepBare(s, op); }
  }

  lemma ReplaceStepBare(s: Sys, op: OpId)
    requires Running(s, op) && s.mains[op].TrimRun? && 10 <= TrimRank(s.mains[op].pc) < 12
    ensures Bare(s, TrimStep(s, op), op)
  {
    hide Altered;
  }

  lemma LateStepBare(s: Sys, op: OpId)
    requires Running(s, op) && s.mains[op].TrimRun? && TrimRank(s.mains[op].pc) >= 12 && !s.mains[op].pc.RecordEvidence?
    ensures Bare(s, TrimStep(s, op), op)
  {
    hide Altered, SpoolOf, Renamed, FinalState, FinalError, Record;
  }

  lemma RecordStepBare(s: Sys, op: OpId)
    requires Inv(s) && Doomed(s, op) && Running(s, op) && s.mains[op].TrimRun? && s.mains[op].pc.RecordEvidence?
    ensures Bare(s, TrimStep(s, op), op)
  {
    assert MainOk(s, op) && OpOk(s, op);
    DoomedFails(s.disk.events, op, ExactSpool(s, op), s.disk.clock);
  }

  // A transaction that is left open is the only change.
  lemma MendStepBare(s: Sys, pid: Pid)
    requires Inv(s) && pid in s.menders && Doomed(s, s.menders[pid].op)
    ensures Bare(s, MendStep(s, pid), s.menders[pid].op)
  {
    hide MendStep, Unrecorded, Distinct, ExactSpool, Record, SpoolOk, HasPlan;
    assert MenderOk(s, pid);
    if s.menders[pid].pc.MendRecord? {
      DoomedFails(s.disk.events, s.menders[pid].op, ExactSpool(s, s.menders[pid].op), s.disk.clock);
      MendRecordBare(s, pid);
    } else if Looks(s.menders[pid].pc) {
      MendLookBare(s, pid);
    } else if Marks(s.menders[pid].pc) {
      MendMarkBare(s, pid);
    } else {
      MendFinishBare(s, pid);
    }
  }

  lemma MendRecordBare(s: Sys, pid: Pid)
    requires pid in s.menders && s.menders[pid].op in s.disk.ops && s.menders[pid].pc.MendRecord?
    requires Record(s.disk.events, s.menders[pid].op, s.menders[pid].spool.removed, s.menders[pid].spool.before, s.disk.clock, 0).None?
    ensures Bare(s, MendStep(s, pid), s.menders[pid].op)
  {
    hide Altered, Renamed, FinalState, FinalError, Record;
  }

  predicate Looks(pc: MendPc) {
    pc.LoadSpool? || pc.MendTakeLock? || pc.Judge? || pc.Recheck?
  }

  predicate Marks(pc: MendPc) {
    pc.MendMarkFailed? || pc.MendMarkUnknown? || pc.MendMarkStale?
  }

  lemma MendLookBare(s: Sys, pid: Pid)
    requires pid in s.menders && s.menders[pid].op in s.disk.ops && Looks(s.menders[pid].pc)
    ensures Bare(s, MendStep(s, pid), s.menders[pid].op)
  {
    hide MendStep, Bare;
    if s.menders[pid].pc.LoadSpool? {
      LoadBare(s, pid);
    } else if s.menders[pid].pc.Recheck? {
      RecheckBare(s, pid);
    } else {
      JudgeBare(s, pid);
    }
  }

  lemma LoadBare(s: Sys, pid: Pid)
    requires pid in s.menders && s.menders[pid].op in s.disk.ops && s.menders[pid].pc.LoadSpool?
    ensures Bare(s, MendStep(s, pid), s.menders[pid].op)
  {
  }

  lemma RecheckBare(s: Sys, pid: Pid)
    requires pid in s.menders && s.menders[pid].op in s.disk.ops && s.menders[pid].pc.Recheck?
    ensures Bare(s, MendStep(s, pid), s.menders[pid].op)
  {
  }

  lemma JudgeBare(s: Sys, pid: Pid)
    requires pid in s.menders && s.menders[pid].op in s.disk.ops && (s.menders[pid].pc.MendTakeLock? || s.menders[pid].pc.Judge?)
    ensures Bare(s, MendStep(s, pid), s.menders[pid].op)
  {
  }

  lemma MendMarkBare(s: Sys, pid: Pid)
    requires pid in s.menders && s.menders[pid].op in s.disk.ops && Marks(s.menders[pid].pc)
    ensures Bare(s, MendStep(s, pid), s.menders[pid].op)
  {
    hide Altered;
  }

  lemma MendFinishBare(s: Sys, pid: Pid)
    requires pid in s.menders && s.menders[pid].op in s.disk.ops
    requires s.menders[pid].pc.MendRename? || s.menders[pid].pc.MendMarkFinal? || s.menders[pid].pc.MendDropRecovery?
    ensures Bare(s, MendStep(s, pid), s.menders[pid].op)
  {
    hide Altered, FinalState, FinalError, Renamed;
  }

  lemma StepBare(s: Sys, op: OpId, l: Label)
    requires Inv(s) && Doomed(s, op) && RolledBackFirst(s, op, [l])
    ensures Bare(s, Apply(s, l), op)
  {
    hide Inv, Doomed;
    if l.Step? && Running(s, op) && !Waits(s, op) {
      MainStepBare(s, op);
    } else if l.StepMend? && l.pid in s.menders && s.menders[l.pid].op in s.disk.ops && !MendWaits(s, l.pid) {
      assert s.menders[l.pid].op == op by { DoomedFacts(s, op); }
      MendStepBare(s, l.pid);
    }
  }

  lemma DoomedFacts(s: Sys, op: OpId)
    requires Doomed(s, op)
    ensures forall pid | pid in s.menders :: s.menders[pid].op == op
  {
  }

  lemma MainStepBare(s: Sys, op: OpId)
    requires Inv(s) && Doomed(s, op) && Running(s, op) && !Waits(s, op)
    ensures Bare(s, Apply(s, Step(op)), op)
  {
    hide Unrecorded, Distinct;
    assert MainOk(s, op);
    if s.mains[op].TrimRun? {
      if s.mains[op].pc.RecordEvidence? { RecordStepBare(s, op); } else { TrimStepBare(s, op); }
    }
  }

  lemma {:induction false} DoomedForGood(s: Sys, op: OpId, ls: seq<Label>)
    requires Inv(s) && Doomed(s, op) && RolledBackFirst(s, op, ls)
    ensures var s' := Run(s, ls); Inv(s') && Doomed(s', op) && s'.disk.events == s.disk.events
    decreases |ls|
  {
    hide Inv, Unrecorded, Distinct;
    if ls != [] {
      StepBare(s, op, ls[0]);
      StepKeeps(s, ls[0]);
      DoomedForGood(Apply(s, ls[0]), op, ls[1..]);
    }
  }

  // Whatever happens to the trim, crashes, exceptions, outside edits and any number of
  // reconciliations: if each transaction that is left open is rolled back before the next
  // one begins, the trim is never completed, and none of its removed blocks gets on record.
  lemma NeverCompleted(s: Sys, op: OpId, ls: seq<Label>)
    requires Inv(s) && Doomed(s, op) && RolledBackFirst(s, op, ls)
    ensures var s' := Run(s, ls);
            op in s'.disk.ops && s'.disk.ops[op].state !in {Completed, CompletedPartial} && s'.disk.events == s.disk.events
  {
    DoomedForGood(s, op, ls);
    var s' := Run(s, ls);
    assert OpOk(s', op);
    DoomedFails(s'.disk.events, op, ExactSpool(s', op), 0);
  }
}
