// Trimming again what a rollback has restored: the evidence of the second trim is on record
// already, as tombstones.
module WritebackRetrims {
  import opened Options
  import opened Trim
  import opened Writeback
  import opened WritebackSafety
  import opened WritebackTheorems
  import opened WritebackRuns

  // A transaction all of whose rows are on record goes through and changes none of them.
  lemma {:induction false} AllOnRecord(events: Events, op: OpId, removed: seq<string>, before: Digest, now: nat, from: nat)
    requires from <= |removed| && forall i {:trigger removed[i]} | from <= i < |removed| :: Key(removed[i], i + 1, before) in events
    ensures Record(events, op, removed, before, now, from) == Some(events)
    decreases |removed| - from
  {
    if from < |removed| {
      assert Key(removed[from], from + 1, before) in events;
      AllOnRecord(events, op, removed, before, now, from + 1);
    }
  }

  // After a transaction that goes through, the row of a removed block stands if and only if it
  // is new or stood before: a tombstone stays one. A new row belongs to the operation, and
  // any other one to the operation it belonged to.
  lemma StandsExactly(events: Events, op: OpId, removed: seq<string>, before: Digest, now: nat, i: nat)
    requires i < |removed| && forall k | k in events :: k.block == Sha256(events[k].content)
    ensures var (r, k) := (Record(events, op, removed, before, now, 0), Key(removed[i], i + 1, before));
            r.Some? ==>
              && k in r.value && r.value[k].content == removed[i]
              && (r.value[k].status == Standing <==> k in events ==> events[k].status == Standing)
              && r.value[k].op == if k in events then events[k].op else op
  {
    hide Record;
    RecordEffect(events, op, removed, before, now, 0);
    var k := Key(removed[i], i + 1, before);
    assert removed[i] == removed[i];
  }

  // Another authorization to trim, of an operation of its own.
  predicate Fresh(s: Sys, id: AuthId, undoId: AuthId, undoOp: OpId, nextId: AuthId, nextOp: OpId)
    requires id in s.disk.auths
  {
    && nextId != undoId && nextId !in s.disk.auths && nextOp != undoOp && (forall i | i in s.disk.auths :: s.disk.auths[i].op != nextOp)
    && nextOp !in s.disk.ops && nextOp !in s.disk.dirs
  }

  // The system after the trim and its rollback.
  function RoundTripped(s: Sys, id: AuthId, policy: Policy, undoId: AuthId, undoOp: OpId): Sys
    requires Trimmable(s, id, policy) && Evidence(s, id, policy).Some? && UndoIssuable(s, id, undoId, undoOp)
  {
    UndoReady(s, id, policy, undoId, undoOp);
    var (t, op, p) := (TrimAt(s, id, policy, 17), s.disk.auths[id].op, Planned(s, policy));
    UndoAt(Apply(t, Issue(undoId, undoOp, Rollback, Sha256(p.after), Some(op))), undoId, op, 12)
  }

  lemma RoundTripIs(s: Sys, id: AuthId, policy: Policy, undoId: AuthId, undoOp: OpId)
    requires Trimmable(s, id, policy) && Evidence(s, id, policy).Some? && UndoIssuable(s, id, undoId, undoOp)
    ensures Run(s, RoundTripOf(id, policy, s.disk.auths[id].op, Planned(s, policy), undoId, undoOp))
            == RoundTripped(s, id, policy, undoId, undoOp)
  {
    hide Apply, Evidence, Restorable, Undoing, Trimming, TrimAt, UndoAt;
    var (op, p) := (s.disk.auths[id].op, Planned(s, policy));
    var issue := Issue(undoId, undoOp, Rollback, Sha256(p.after), Some(op));
    var (t, more) := (TrimAt(s, id, policy, 17), Undoing(undoId, op, undoOp));
    TrimOutcome(s, id, policy, 17);
    UndoReady(s, id, policy, undoId, undoOp);
    RunConcat(s, Trimming(id, policy, op, 17), [issue] + more);
    assert ([issue] + more)[1..] == more;
    UndoOutcome(Apply(t, issue), undoId, op);
  }

  lemma AfterRoundTrip(s: Sys, id: AuthId, policy: Policy, undoId: AuthId, undoOp: OpId)
    requires Trimmable(s, id, policy) && Evidence(s, id, policy).Some? && UndoIssuable(s, id, undoId, undoOp)
    ensures var (w, op) := (RoundTripped(s, id, policy, undoId, undoOp), s.disk.auths[id].op);
            && w.planner == s.planner && w.disk.target == s.disk.target && w.disk.file.text == s.disk.file.text
            && w.mains == map[] && w.menders == map[] && w.lock == Free && w.held == None
            && w.disk.auths.Keys == s.disk.auths.Keys + {undoId} && (forall i | i in s.disk.auths :: w.disk.auths[i].op == s.disk.auths[i].op)
            && w.disk.auths[undoId].op == undoOp && w.disk.ops.Keys == s.disk.ops.Keys + {op, undoOp} && w.disk.dirs.Keys == s.disk.dirs.Keys + {op}
            && Buried(Evidence(s, id, policy).value, w.disk.events, op)
  {
    hide Evidence;
    UndoReady(s, id, policy, undoId, undoOp);
    var (op, p) := (s.disk.auths[id].op, Planned(s, policy));
    var v := Apply(TrimAt(s, id, policy, 17), Issue(undoId, undoOp, Rollback, Sha256(p.after), Some(op)));
    TombstoneExactly(v.disk.events, UndoAt(v, undoId, op, 12).disk.events, op);
  }

  // The file can be trimmed again, and by the same plan.
  lemma TrimmableAgain(s: Sys, id: AuthId, policy: Policy, undoId: AuthId, undoOp: OpId, nextId: AuthId, nextOp: OpId)
    requires Trimmable(s, id, policy) && Evidence(s, id, policy).Some? && UndoIssuable(s, id, undoId, undoOp)
    requires Fresh(s, id, undoId, undoOp, nextId, nextOp)
    ensures var w := RoundTripped(s, id, policy, undoId, undoOp);
            var u := Apply(w, Issue(nextId, nextOp, LiveOverflowTrim, Sha256(s.disk.file.text), None));
            && Trimmable(u, nextId, policy) && Planned(u, policy) == Planned(s, policy)
            && u.disk.auths[nextId].op == nextOp && u.disk.file.text == s.disk.file.text && u.disk.events == w.disk.events
  {
    hide Evidence, RoundTripped, TrimStep, UndoStep, HandlerStep, MendStep;
    AfterRoundTrip(s, id, policy, undoId, undoOp);
    var w := RoundTripped(s, id, policy, undoId, undoOp);
    assert forall i | i in w.disk.auths :: w.disk.auths[i].op != nextOp;
  }

  // A trim, its rollback, and a second trim of the restored file, which nothing disturbs: the
  // second trim cuts the file again and is closed with its evidence committed, but its
  // transaction inserts nothing. The rows are those of the first trim, and all of them that
  // were new then are tombstones: no standing evidence holds the blocks that are cut out.
  lemma RetrimStaysBuried(s: Sys, id: AuthId, policy: Policy, undoId: AuthId, undoOp: OpId, nextId: AuthId, nextOp: OpId)
    requires EventsOk(s.disk) && Trimmable(s, id, policy) && Evidence(s, id, policy).Some? && UndoIssuable(s, id, undoId, undoOp)
    requires Fresh(s, id, undoId, undoOp, nextId, nextOp)
    ensures var (op, p, before) := (s.disk.auths[id].op, Planned(s, policy), Sha256(s.disk.file.text));
            var w := Run(s, RoundTripOf(id, policy, op, p, undoId, undoOp));
            var u := Run(Apply(w, Issue(nextId, nextOp, LiveOverflowTrim, before, None)), Trimming(nextId, policy, nextOp, 17));
            && w.disk.file.text == s.disk.file.text && u.disk.file.text == p.after && u.disk.events == w.disk.events
            && nextOp in u.disk.ops && u.disk.ops[nextOp].state in {Completed, CompletedPartial}
            && u.disk.ops[nextOp].evidence == Committed
            && forall i {:trigger p.removed[i]} | 0 <= i < |p.removed| ::
                 var k := Key(p.removed[i], i + 1, before);
                 && k in u.disk.events && u.disk.events[k].content == p.removed[i]
                 && (k !in s.disk.events ==> u.disk.events[k].op == op && u.disk.events[k].status == Tombstoned)
  {
    hide Apply, Record, RoundTripped, UndoAt, Trimming, RoundTripOf;
    var (op, p, before) := (s.disk.auths[id].op, Planned(s, policy), Sha256(s.disk.file.text));
    var w := RoundTripped(s, id, policy, undoId, undoOp);
    var u := Apply(w, Issue(nextId, nextOp, LiveOverflowTrim, before, None));
    RoundTripIs(s, id, policy, undoId, undoOp);
    AfterRoundTrip(s, id, policy, undoId, undoOp);
    TrimmableAgain(s, id, policy, undoId, undoOp, nextId, nextOp);
    var first := Evidence(s, id, policy).value;
    forall i {:trigger p.removed[i]} | 0 <= i < |p.removed|
      ensures var k := Key(p.removed[i], i + 1, before);
        && k in w.disk.events && w.disk.events[k].content == p.removed[i]
        && (k !in s.disk.events ==> w.disk.events[k].op == op && w.disk.events[k].status == Tombstoned)
    {
      StandsExactly(s.disk.events, op, p.removed, before, s.disk.clock, i);
      assert first == Record(s.disk.events, op, p.removed, before, s.disk.clock, 0).value;
    }
    AllOnRecord(u.disk.events, nextOp, p.removed, before, u.disk.clock, 0);
    assert Evidence(u, nextId, policy) == Some(u.disk.events);
    TrimOutcome(u, nextId, policy, 17);
    AgainDone(u, nextId, policy);
  }

  lemma AgainDone(u: Sys, id: AuthId, policy: Policy)
    requires Trimmable(u, id, policy) && Evidence(u, id, policy) == Some(u.disk.events)
    ensures var (d, op) := (TrimAt(u, id, policy, 17).disk, u.disk.auths[id].op);
            && d.file.text == Planned(u, policy).after && d.events == u.disk.events
            && op in d.ops && d.ops[op].state in {Completed, CompletedPartial} && d.ops[op].evidence == Committed
  {
    hide Evidence;
  }
}
