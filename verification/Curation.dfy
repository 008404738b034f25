// Curation of memories: proposals, their review, and the versions that approved proposals
// write (curation.py), over a connection whose transaction stays open after an error.
module Curation {
  import opened Options

  type ProposalId = string
  datatype Text = Text(title: string, summary: string, body: string)

  // Content hashes and memory ids are taken to be injective. The hash of an edited
  // proposal covers its text only.
  datatype Content = Created(text: Text, memory: Option<MemoryId>) | EditedTo(text: Text)
  datatype MemoryId = MemoryOf(proposal: ProposalId, content: Content)
  datatype VersionHash = VersionHash(memory: MemoryId, version: nat, text: Text)

  datatype Status = Proposed | Approved | Rejected | Edited | Written
  datatype Proposal = Proposal(status: Status, memory: Option<MemoryId>, text: Text, content: Content)

  // Row (memory_id, version) of memory_versions; the metadata names the proposal.
  datatype Key = Key(memory: MemoryId, version: nat)
  datatype Version = Version(text: Text, hash: VersionHash, previous: Option<VersionHash>, proposal: ProposalId)

  datatype MemoryStatus = Active | Tombstoned
  datatype Memory = Memory(current: nat, status: MemoryStatus)

  // Primary keys of memory_lifecycle_events.
  datatype LifecycleId = Wrote(memory: MemoryId, version: nat, at: nat) | Buried(memory: MemoryId, at: nat)
    | Restored(memory: MemoryId, version: nat, at: nat)

  datatype Tables = Tables(proposals: map<ProposalId, Proposal>, memories: map<MemoryId, Memory>, versions: map<Key, Version>,
    lifecycle: set<LifecycleId>)

  // What is committed, and what the connection sees.
  datatype Session = Session(committed: Tables, working: Tables)

  const NO_TABLES := Tables(map[], map[], map[], {})
  const NEW_SESSION := Session(NO_TABLES, NO_TABLES)

  datatype Action = Approve | Reject | Edit(title: Option<string>, summary: Option<string>, body: Option<string>)

  // ---- Statements ------------------------------------------------------------------------

  function SetProposal(t: Tables, p: ProposalId, row: Proposal): Tables {
    t.(proposals := t.proposals[p := row])
  }

  function Merged(text: Text, a: Action): Text
    requires a.Edit?
  {
    Text(if a.title.Some? then a.title.value else text.title, if a.summary.Some? then a.summary.value else text.summary,
         if a.body.Some? then a.body.value else text.body)
  }

  predicate Reviewable(t: Tables, p: ProposalId) {
    p in t.proposals && t.proposals[p].status !in {Written, Rejected}
  }

  function Reviewed(row: Proposal, a: Action): Proposal {
    match a
    case Approve => row.(status := Approved)
    case Reject => row.(status := Rejected)
    case Edit(_, _, _) => row.(status := Edited, text := Merged(row.text, a), content := EditedTo(Merged(row.text, a)))
  }

  function NewVersion(m: MemoryId, v: nat, p: ProposalId, text: Text, previous: Option<VersionHash>): Version {
    Version(text, VersionHash(m, v, text), previous, p)
  }

  function HashAt(t: Tables, k: Key): Option<VersionHash> {
    if k in t.versions then Some(t.versions[k].hash) else None
  }

  // The result of a call: what the connection sees afterwards, and whether the call
  // reached its commit.
  datatype Effect = Effect(tables: Tables, done: bool)

  // The statements of write_memory after its checks: the memory row, the version row, the
  // lifecycle row and the proposal row, in this order. A duplicate key stops it there.
  function Write(t: Tables, p: ProposalId, at: nat): Effect
    requires p in t.proposals
  {
    var row := t.proposals[p];
    match row.memory
    case Some(m) => if m in t.memories then Revise(t, p, m, at) else Effect(t, false)
    case None => CreateMemory(t, p, MemoryOf(p, row.content), at)
  }

  function Revise(t: Tables, p: ProposalId, m: MemoryId, at: nat): Effect
    requires p in t.proposals && m in t.memories
  {
    var v := t.memories[m].current + 1;
    var t1 := t.(memories := t.memories[m := Memory(v, Active)]);
    Finish(t1, p, m, v, HashAt(t, Key(m, v - 1)), at)
  }

  function CreateMemory(t: Tables, p: ProposalId, m: MemoryId, at: nat): Effect
    requires p in t.proposals
  {
    if m in t.memories then Effect(t, false)
    else Finish(t.(memories := t.memories[m := Memory(1, Active)]), p, m, 1, None, at)
  }

  function Finish(t: Tables, p: ProposalId, m: MemoryId, v: nat, previous: Option<VersionHash>, at: nat): Effect
    requires p in t.proposals
  {
    if Key(m, v) in t.versions then Effect(t, false)
    else
      var t1 := t.(versions := t.versions[Key(m, v) := NewVersion(m, v, p, t.proposals[p].text, previous)]);
      if Wrote(m, v, at) in t1.lifecycle then Effect(t1, false)
      else
        var t2 := t1.(lifecycle := t1.lifecycle + {Wrote(m, v, at)});
        Effect(SetProposal(t2, p, t.proposals[p].(status := Written, memory := Some(m))), true)
  }

  // Tombstone and rollback update the memory row, then insert the lifecycle row.
  function Change(t: Tables, m: MemoryId, row: Memory, event: LifecycleId): Effect {
    var t1 := t.(memories := t.memories[m := row]);
    if event in t.lifecycle then Effect(t1, false) else Effect(t1.(lifecycle := t.lifecycle + {event}), true)
  }

  // ---- Calls -----------------------------------------------------------------------------

  datatype Label =
    | Propose(p: ProposalId, memory: Option<MemoryId>, text: Text)
    | Review(p: ProposalId, action: Action)
    // `allowed`: the target and the references pass their checks. Some callers commit later.
    | WriteMemory(p: ProposalId, allowed: bool, at: nat, commits: bool)
    | TombstoneMemory(m: MemoryId, at: nat)
    | RollbackMemory(m: MemoryId, version: nat, at: nat)
    | Commit
    | Discard

  function Call(t: Tables, l: Label): Effect {
    match l
    case Propose(p, memory, text) =>
      if p in t.proposals then Effect(t, false)
      else if memory.Some? && memory.value !in t.memories then Effect(t, false)
      else Effect(SetProposal(t, p, Proposal(Proposed, memory, text, Created(text, memory))), true)
    case Review(p, a) =>
      if !Reviewable(t, p) then Effect(t, false) else Effect(SetProposal(t, p, Reviewed(t.proposals[p], a)), true)
    case WriteMemory(p, allowed, at, _) =>
      if p !in t.proposals then Effect(t, false)
      else if t.proposals[p].status == Written then Effect(t, false)
      else if t.proposals[p].status != Approved || !allowed then Effect(t, false)
      else Write(t, p, at)
    case TombstoneMemory(m, at) =>
      if m !in t.memories || t.memories[m].status == Tombstoned then Effect(t, false)
      else Change(t, m, t.memories[m].(status := Tombstoned), Buried(m, at))
    case RollbackMemory(m, v, at) =>
      if m !in t.memories || Key(m, v) !in t.versions then Effect(t, false)
      else Change(t, m, Memory(v, Active), Restored(m, v, at))
    case _ => Effect(t, true)
  }

  predicate Commits(l: Label, e: Effect) {
    e.done && (l.WriteMemory? ==> l.commits)
  }

  function Apply(s: Session, l: Label): Session {
    if l.Discard? then Session(s.committed, s.committed)
    else
      var e := Call(s.working, l);
      Session(if Commits(l, e) then e.tables else s.committed, e.tables)
  }

  function Run(s: Session, ls: seq<Label>): Session
    decreases |ls|
  {
    if ls == [] then s else Run(Apply(s, ls[0]), ls[1..])
  }

  // ---- What every run keeps ----------------------------------------------------------------

  // The version rows of a memory are exactly 1..n.
  ghost predicate RowsUpTo(t: Tables, m: MemoryId, n: nat) {
    forall v: nat {:trigger Key(m, v)} :: Key(m, v) in t.versions <==> 1 <= v <= n
  }

  ghost predicate MemoryOk(t: Tables, m: MemoryId)
    requires m in t.memories
  {
    && (exists n :: RowsUpTo(t, m, n) && 1 <= t.memories[m].current <= n)
    && m.proposal in t.proposals && t.proposals[m.proposal].status == Written
  }

  // A version is the text of its proposal, which is written, chained to the version before.
  predicate VersionOk(t: Tables, k: Key)
    requires k in t.versions
  {
    var v := t.versions[k];
    && k.memory in t.memories && k.version >= 1
    && v.hash == VersionHash(k.memory, k.version, v.text)
    && v.previous == (if k.version == 1 then None else HashAt(t, Key(k.memory, k.version - 1)))
    && v.proposal in t.proposals
    && var p := t.proposals[v.proposal];
    p.status == Written && p.text == v.text && p.memory == Some(k.memory)
  }

  // A written proposal has exactly one version.
  ghost predicate ProposalOk(t: Tables, p: ProposalId)
    requires p in t.proposals
  {
    && (t.proposals[p].status == Written <==> exists k :: k in t.versions && t.versions[k].proposal == p)
    && (t.proposals[p].memory.Some? ==> t.proposals[p].memory.value in t.memories)
  }

  predicate OneVersionEach(t: Tables) {
    forall k, k' :: k in t.versions && k' in t.versions && t.versions[k].proposal == t.versions[k'].proposal ==> k == k'
  }

  predicate LifecycleOk(t: Tables) {
    forall e :: e in t.lifecycle && e.Wrote? ==> Key(e.memory, e.version) in t.versions
  }

  ghost predicate Good(t: Tables) {
    && (forall m {:trigger MemoryOk(t, m)} | m in t.memories :: MemoryOk(t, m))
    && (forall k {:trigger VersionOk(t, k)} | k in t.versions :: VersionOk(t, k))
    && (forall p {:trigger ProposalOk(t, p)} | p in t.proposals :: ProposalOk(t, p))
    && OneVersionEach(t) && LifecycleOk(t)
  }

  predicate Extends(t: Tables, t': Tables) {
    forall k :: k in t.versions ==> k in t'.versions && t'.versions[k] == t.versions[k]
  }

  ghost predicate Inv(s: Session) {
    Good(s.committed) && Good(s.working) && Extends(s.committed, s.working)
  }

  lemma OwnedRow(t: Tables, k: Key)
    requires Good(t) && k in t.versions
    ensures k.memory in t.memories && k.version >= 1
  {
    assert VersionOk(t, k);
  }

  // The newest version row of a memory.
  lemma TopRow(t: Tables, m: MemoryId) returns (n: nat)
    requires Good(t) && m in t.memories
    ensures RowsUpTo(t, m, n) && 1 <= t.memories[m].current <= n
  {
    assert MemoryOk(t, m);
    n :| RowsUpTo(t, m, n) && 1 <= t.memories[m].current <= n;
  }

  lemma NoGap(t: Tables, m: MemoryId, v: nat)
    requires Good(t) && v >= 1 && Key(m, v) !in t.versions
    ensures Key(m, v + 1) !in t.versions
  {
    if Key(m, v + 1) in t.versions {
      OwnedRow(t, Key(m, v + 1));
      var n := TopRow(t, m);
      assert false;
    }
  }

  // A change of one memory row that keeps to the existing versions.
  ghost predicate MemoryChange(t: Tables, t': Tables, m: MemoryId) {
    && m in t.memories && m in t'.memories && Key(m, t'.memories[m].current) in t.versions
    && t'.memories == t.memories[m := t'.memories[m]] && t'.versions == t.versions && t'.proposals == t.proposals
    && forall e :: e in t'.lifecycle && e.Wrote? ==> e in t.lifecycle
  }

  lemma MemoryChangeRow(t: Tables, t': Tables, m: MemoryId, x: MemoryId)
    requires Good(t) && MemoryChange(t, t', m) && x in t'.memories
    ensures MemoryOk(t', x)
  {
    assert MemoryOk(t, x);
    var n := TopRow(t, x);
    assert RowsUpTo(t', x, n);
  }

  lemma MemoryChangeKeeps(t: Tables, t': Tables, m: MemoryId)
    requires Good(t) && MemoryChange(t, t', m)
    ensures Good(t')
  {
    hide MemoryOk, RowsUpTo, VersionOk, ProposalOk;
    forall x | x in t'.memories ensures MemoryOk(t', x) { MemoryChangeRow(t, t', m, x); }
    forall k | k in t'.versions ensures VersionOk(t', k) { assert VersionOk(t, k); MemoryChangeVersion(t, t', m, k); }
    forall p | p in t'.proposals ensures ProposalOk(t', p) { assert ProposalOk(t, p); MemoryChangeProposal(t, t', m, p); }
  }

  lemma MemoryChangeVersion(t: Tables, t': Tables, m: MemoryId, k: Key)
    requires MemoryChange(t, t', m) && k in t.versions && VersionOk(t, k)
    ensures k in t'.versions && VersionOk(t', k)
  {
  }

  lemma MemoryChangeProposal(t: Tables, t': Tables, m: MemoryId, p: ProposalId)
    requires MemoryChange(t, t', m) && p in t.proposals && ProposalOk(t, p)
    ensures p in t'.proposals && ProposalOk(t', p)
  {
  }

  // A change of a proposal that is not written, and stays so.
  ghost predicate ProposalChange(t: Tables, t': Tables, p: ProposalId) {
    && p in t'.proposals && t'.proposals[p].status != Written
    && (t'.proposals[p].memory.Some? ==> t'.proposals[p].memory.value in t.memories)
    && (p in t.proposals ==> t.proposals[p].status != Written)
    && t' == SetProposal(t, p, t'.proposals[p])
  }

  lemma ProposalChangeMemory(t: Tables, t': Tables, p: ProposalId, m: MemoryId)
    requires Good(t) && ProposalChange(t, t', p) && m in t'.memories
    ensures MemoryOk(t', m)
  {
    assert MemoryOk(t, m);
    var n := TopRow(t, m);
    assert RowsUpTo(t', m, n);
  }

  lemma ProposalChangeRow(t: Tables, t': Tables, p: ProposalId, x: ProposalId)
    requires Good(t) && ProposalChange(t, t', p) && x in t'.proposals
    ensures ProposalOk(t', x)
  {
    if x in t.proposals {
      assert ProposalOk(t, x);
    } else {
      forall k | k in t.versions ensures t.versions[k].proposal != x { assert VersionOk(t, k); }
    }
  }

  lemma ProposalChangeKeeps(t: Tables, t': Tables, p: ProposalId)
    requires Good(t) && ProposalChange(t, t', p)
    ensures Good(t')
  {
    hide MemoryOk, ProposalOk;
    forall m | m in t'.memories ensures MemoryOk(t', m) { ProposalChangeMemory(t, t', p, m); }
    forall k | k in t'.versions ensures VersionOk(t', k) { assert VersionOk(t, k); }
    forall x | x in t'.proposals ensures ProposalOk(t', x) { ProposalChangeRow(t, t', p, x); }
  }

  // The memory and version rows that a write adds, for a proposal that is approved.
  ghost predicate Writes(t: Tables, t': Tables, p: ProposalId, m: MemoryId, v: nat, at: nat) {
    && p in t.proposals && t.proposals[p].status == Approved && v >= 1 && Key(m, v) !in t.versions
    && t'.memories == t.memories[m := Memory(v, Active)]
    && t'.versions == t.versions[Key(m, v) := NewVersion(m, v, p, t.proposals[p].text, if v == 1 then None else HashAt(t, Key(m, v - 1)))]
    && t'.lifecycle == t.lifecycle + {Wrote(m, v, at)}
    && t'.proposals == t.proposals[p := t.proposals[p].(status := Written, memory := Some(m))]
    && (if m in t.memories then v == t.memories[m].current + 1 else v == 1 && m.proposal == p)
  }

  lemma WritesMemories(t: Tables, t': Tables, p: ProposalId, m: MemoryId, v: nat, at: nat, x: MemoryId)
    requires Good(t) && Writes(t, t', p, m, v, at) && x in t'.memories
    ensures MemoryOk(t', x)
  {
    if x in t.memories {
      assert MemoryOk(t, x);
      var n := TopRow(t, x);
      if x == m {
        assert Key(m, n) in t.versions && Key(m, v) !in t.versions && v == n + 1;
        assert RowsUpTo(t', m, v);
      } else {
        assert RowsUpTo(t', x, n);
      }
    } else {
      forall w: nat ensures Key(m, w) in t'.versions <==> 1 <= w <= 1 {
        if Key(m, w) in t.versions {
          OwnedRow(t, Key(m, w));
          assert false;
        }
      }
      assert RowsUpTo(t', m, 1);
    }
  }

  lemma WritesVersions(t: Tables, t': Tables, p: ProposalId, m: MemoryId, v: nat, at: nat, k: Key)
    requires Good(t) && Writes(t, t', p, m, v, at) && k in t'.versions
    ensures VersionOk(t', k) && (k in t.versions ==> t.versions[k].proposal != p)
  {
    if k in t.versions {
      assert VersionOk(t, k);
      NoGap(t, m, v);
    }
  }

  lemma WritesKeep(t: Tables, t': Tables, p: ProposalId, m: MemoryId, v: nat, at: nat)
    requires Good(t) && Writes(t, t', p, m, v, at)
    ensures Good(t')
  {
    hide VersionOk, MemoryOk;
    forall x | x in t'.memories ensures MemoryOk(t', x) { WritesMemories(t, t', p, m, v, at, x); }
    forall k | k in t'.versions ensures VersionOk(t', k) && (k in t.versions ==> t.versions[k].proposal != p) {
      WritesVersions(t, t', p, m, v, at, k);
    }
    assert Key(m, v) in t'.versions && t'.versions[Key(m, v)].proposal == p;
    forall x | x in t'.proposals ensures ProposalOk(t', x) {
      assert ProposalOk(t, x);
      if x != p && t.proposals[x].status == Written {
        var k :| k in t.versions && t.versions[k].proposal == x;
        assert k in t'.versions && t'.versions[k] == t.versions[k];
      }
    }
  }

  // The keys of an approved proposal's rows are free, but for a revision below the top.
  lemma WriteSucceeds(t: Tables, p: ProposalId, at: nat)
    requires Good(t) && p in t.proposals && t.proposals[p].status == Approved
    ensures var (e, row) := (Write(t, p, at), t.proposals[p]);
            match row.memory
            case None => e.done && Writes(t, e.tables, p, MemoryOf(p, row.content), 1, at)
            case Some(m) =>
              && m in t.memories
              && (e.done <==> Key(m, t.memories[m].current + 1) !in t.versions)
              && (if e.done then Writes(t, e.tables, p, m, t.memories[m].current + 1, at)
                  else e.tables == t.(memories := t.memories[m := Memory(t.memories[m].current + 1, Active)]))
  {
    var row := t.proposals[p];
    assert ProposalOk(t, p);
    if row.memory.None? {
      var m := MemoryOf(p, row.content);
      if m in t.memories {
        NotWrittenYet(t, m);
        assert false;
      }
      if Key(m, 1) in t.versions {
        OwnedRow(t, Key(m, 1));
        assert false;
      }
    } else {
      var n := TopRow(t, row.memory.value);
    }
  }

  lemma NotWrittenYet(t: Tables, m: MemoryId)
    requires Good(t) && m in t.memories
    ensures m.proposal in t.proposals && t.proposals[m.proposal].status == Written
  {
    assert MemoryOk(t, m);
  }

  lemma CallKeeps(t: Tables, l: Label)
    requires Good(t)
    ensures Good(Call(t, l).tables)
  {
    var t' := Call(t, l).tables;
    match l
    case Propose(p, memory, text) =>
      if t' != t { ProposalChangeKeeps(t, t', p); }
    case Review(p, a) =>
      if Reviewable(t, p) {
        assert ProposalOk(t, p);
        ProposalChangeKeeps(t, t', p);
      }
    case WriteMemory(p, allowed, at, _) => WriteKeeps(t, l);
    case TombstoneMemory(m, at) =>
      if m in t.memories && t.memories[m].status != Tombstoned {
        var n := TopRow(t, m);
        MemoryChangeKeeps(t, t', m);
      }
    case RollbackMemory(m, v, at) =>
      if m in t.memories && Key(m, v) in t.versions { MemoryChangeKeeps(t, t', m); }
    case _ =>
  }

  lemma WriteKeeps(t: Tables, l: Label)
    requires Good(t) && l.WriteMemory?
    ensures Good(Call(t, l).tables)
  {
    hide Good, Writes, Write;
    var (p, t') := (l.p, Call(t, l).tables);
    if p in t.proposals && t.proposals[p].status == Approved && l.allowed {
      WriteSucceeds(t, p, l.at);
      var row := t.proposals[p];
      if row.memory.None? {
        WritesKeep(t, t', p, MemoryOf(p, row.content), 1, l.at);
      } else {
        var m := row.memory.value;
        if Key(m, t.memories[m].current + 1) !in t.versions {
          WritesKeep(t, t', p, m, t.memories[m].current + 1, l.at);
        } else {
          MemoryChangeKeeps(t, t', m);
        }
      }
    }
  }

  lemma CallExtends(t: Tables, l: Label)
    ensures Extends(t, Call(t, l).tables)
  {
  }

  lemma StepKeeps(s: Session, l: Label)
    requires Inv(s)
    ensures Inv(Apply(s, l)) && Extends(s.committed, Apply(s, l).committed)
  {
    hide Good, Call;
    CallKeeps(s.working, l);
    CallExtends(s.working, l);
  }

  // Committed version rows are never altered and never deleted.
  lemma {:induction false} RunKeeps(s: Session, ls: seq<Label>)
    requires Inv(s)
    ensures Inv(Run(s, ls)) && Extends(s.committed, Run(s, ls).committed)
    decreases |ls|
  {
    if ls != [] {
      StepKeeps(s, ls[0]);
      RunKeeps(Apply(s, ls[0]), ls[1..]);
    }
  }

  lemma {:induction false} RunConcat(s: Session, ls: seq<Label>, more: seq<Label>)
    ensures Run(s, ls + more) == Run(Run(s, ls), more)
    decreases |ls|
  {
    if ls == [] {
      assert ls + more == more;
    } else {
      assert (ls + more)[1..] == ls[1..] + more;
      RunConcat(Apply(s, ls[0]), ls[1..], more);
    }
  }

  lemma RunLast(s: Session, ls: seq<Label>)
    requires ls != []
    ensures Run(s, ls) == Apply(Run(s, ls[..|ls| - 1]), ls[|ls| - 1])
  {
    var (init, l) := (ls[..|ls| - 1], ls[|ls| - 1]);
    RunConcat(s, init, [l]);
    assert init + [l] == ls && Run(Run(s, init), [l]) == Run(Apply(Run(s, init), l), []);
  }

  function Reached(ls: seq<Label>): Session {
    Run(NEW_SESSION, ls)
  }

  lemma ReachedGood(ls: seq<Label>)
    ensures Inv(Reached(ls))
  {
    RunKeeps(NEW_SESSION, ls);
  }

  // ---- The theorems --------------------------------------------------------------------------

  predicate Chained(t: Tables, m: MemoryId, v: nat) {
    && v >= 1 && Key(m, v) in t.versions
    && var row := t.versions[Key(m, v)];
    && row.hash == VersionHash(m, v, row.text)
    && (if v == 1 then row.previous.None? else Key(m, v - 1) in t.versions && row.previous == Some(t.versions[Key(m, v - 1)].hash))
  }

  // The version rows of a memory are exactly 1..n, every one chained to the hash of the one
  // before it, and the current version is one of them.
  lemma VersionsAreAChain(ls: seq<Label>, m: MemoryId) returns (n: nat)
    requires m in Reached(ls).working.memories
    ensures var t := Reached(ls).working;
            RowsUpTo(t, m, n) && 1 <= t.memories[m].current <= n && forall v: nat | 1 <= v <= n :: Chained(t, m, v)
  {
    ReachedGood(ls);
    var t := Reached(ls).working;
    n := TopRow(t, m);
    forall v: nat | 1 <= v <= n ensures Chained(t, m, v) {
      assert VersionOk(t, Key(m, v));
      if v > 1 { assert Key(m, v - 1) in t.versions; }
    }
  }

  // A proposal yields at most one version, exactly one when it is written.
  lemma OneVersionPerProposal(ls: seq<Label>, p: ProposalId)
    ensures var t := Reached(ls).working;
            && (forall k, k' :: k in t.versions && k' in t.versions && t.versions[k].proposal == p && t.versions[k'].proposal == p ==> k == k')
            && (p in t.proposals ==> (t.proposals[p].status == Written <==> exists k :: k in t.versions && t.versions[k].proposal == p))
  {
    ReachedGood(ls);
    var t := Reached(ls).working;
    if p in t.proposals { assert ProposalOk(t, p); }
  }

  // ---- The text that was approved --------------------------------------------------------------

  predicate ReviewsIt(t: Tables, l: Label, p: ProposalId) {
    l.Review? && l.p == p && Reviewable(t, p)
  }

  // Move j is the last review of the proposal, and approves this text.
  predicate LastApproval(ls: seq<Label>, j: nat, p: ProposalId, text: Text) {
    && j < |ls| && ls[j] == Review(p, Approve)
    && ReviewsIt(Reached(ls[..j]).working, ls[j], p) && Reached(ls[..j]).working.proposals[p].text == text
    && forall i {:trigger ls[i]} | j < i < |ls| :: !ReviewsIt(Reached(ls[..i]).working, ls[i], p)
  }

  predicate SaysApproved(t: Tables, p: ProposalId) {
    p in t.proposals && t.proposals[p].status in {Approved, Written}
  }

  // Where an approval comes from, in one step.
  lemma ApprovalStep(s: Session, l: Label, p: ProposalId)
    ensures var s' := Apply(s, l);
            if ReviewsIt(s.working, l, p) then
              && s'.committed == s'.working && (SaysApproved(s'.working, p) ==> l.action == Approve)
              && p in s'.working.proposals && (l.action == Approve ==> s'.working.proposals[p].text == s.working.proposals[p].text)
            else
              && (SaysApproved(s'.working, p) ==> FromApproval(s, s'.working, p))
              && (SaysApproved(s'.committed, p) ==> FromApproval(s, s'.committed, p))
  {
  }

  predicate FromApproval(s: Session, t: Tables, p: ProposalId)
    requires SaysApproved(t, p)
  {
    || (SaysApproved(s.working, p) && s.working.proposals[p].text == t.proposals[p].text)
    || (SaysApproved(s.committed, p) && s.committed.proposals[p].text == t.proposals[p].text)
  }

  lemma {:induction false} ApprovedText(ls: seq<Label>, p: ProposalId) returns (j: nat)
    ensures SaysApproved(Reached(ls).working, p) ==> LastApproval(ls, j, p, Reached(ls).working.proposals[p].text)
    ensures SaysApproved(Reached(ls).committed, p) ==> LastApproval(ls, j, p, Reached(ls).committed.proposals[p].text)
    decreases |ls|
  {
    hide Apply;
    j := 0;
    if ls != [] {
      var n := |ls| - 1;
      var (init, l) := (ls[..n], ls[n]);
      var s := Reached(init);
      RunLast(NEW_SESSION, ls);
      ApprovalStep(s, l, p);
      if ReviewsIt(s.working, l, p) {
        j := n;
      } else {
        j := ApprovedText(init, p);
        LaterApproval(ls, j, p);
      }
    }
  }

  lemma LaterApproval(ls: seq<Label>, j: nat, p: ProposalId)
    requires ls != [] && !ReviewsIt(Reached(ls[..|ls| - 1]).working, ls[|ls| - 1], p)
    ensures forall text :: LastApproval(ls[..|ls| - 1], j, p, text) ==> LastApproval(ls, j, p, text)
  {
    hide Reviewable, Run;
    var init := ls[..|ls| - 1];
    forall i | 0 <= i < |init| ensures init[..i] == ls[..i] && init[i] == ls[i] {}
  }

  // Every version, in every reachable state, has the text of its proposal as it stood at
  // the last review, which approved it.
  lemma VersionsAreApproved(ls: seq<Label>, k: Key) returns (j: nat)
    requires k in Reached(ls).working.versions
    ensures var v := Reached(ls).working.versions[k]; LastApproval(ls, j, v.proposal, v.text)
  {
    ReachedGood(ls);
    var t := Reached(ls).working;
    assert VersionOk(t, k);
    j := ApprovedText(ls, t.versions[k].proposal);
  }

  // ---- Revising after a rollback ------------------------------------------------------------------

  // A revision goes through if and only if the current version is the newest one. Otherwise
  // it leaves every version row as it was, and moves the current version one row on in the
  // open transaction.
  lemma ReviseBelowTop(t: Tables, p: ProposalId, m: MemoryId, n: nat, at: nat)
    requires Good(t) && p in t.proposals && t.proposals[p].status == Approved && t.proposals[p].memory == Some(m)
    requires RowsUpTo(t, m, n)
    ensures m in t.memories && 1 <= t.memories[m].current <= n
    ensures var e := Write(t, p, at);
            && (e.done <==> t.memories[m].current == n)
            && (if e.done then e.tables.versions.Keys == t.versions.Keys + {Key(m, n + 1)} && e.tables.memories[m].current == n + 1
                else e.tables == t.(memories := t.memories[m := Memory(t.memories[m].current + 1, Active)]))
            && Extends(t, e.tables)
  {
    WriteSucceeds(t, p, at);
    var top := TopRow(t, m);
    SameTop(t, m, n, top);
  }

  lemma SameTop(t: Tables, m: MemoryId, n: nat, n': nat)
    requires RowsUpTo(t, m, n) && RowsUpTo(t, m, n')
    ensures n == n'
  {
    assert Key(m, n) in t.versions <==> 1 <= n <= n;
    assert Key(m, n') in t.versions <==> 1 <= n' <= n';
    assert Key(m, n + 1) !in t.versions && Key(m, n' + 1) !in t.versions;
  }

  function Attempts(p: ProposalId, at: nat, n: nat): seq<Label> {
    if n == 0 then [] else [WriteMemory(p, true, at, true)] + Attempts(p, at, n - 1)
  }

  // Waiting for the revision of m, whose newest row is n.
  ghost predicate Waiting(s: Session, p: ProposalId, m: MemoryId, n: nat) {
    && Inv(s) && p in s.working.proposals && s.working.proposals[p].status == Approved && s.working.proposals[p].memory == Some(m)
    && RowsUpTo(s.working, m, n) && m in s.working.memories
  }

  lemma OneAttempt(s: Session, p: ProposalId, m: MemoryId, n: nat, at: nat)
    requires Waiting(s, p, m, n)
    ensures var s' := Apply(s, WriteMemory(p, true, at, true));
            && s.working.memories[m].current <= n && m in s'.working.memories
              && s'.working.memories[m].current == s.working.memories[m].current + 1
            && if s.working.memories[m].current < n then Waiting(s', p, m, n)
               else s'.committed == s'.working && Key(m, n + 1) in s'.working.versions && s'.working.versions[Key(m, n + 1)].proposal == p
  {
    ReviseBelowTop(s.working, p, m, n, at);
    StepKeeps(s, WriteMemory(p, true, at, true));
    WriteSucceeds(s.working, p, at);
    if s.working.memories[m].current < n { assert RowsUpTo(Apply(s, WriteMemory(p, true, at, true)).working, m, n); }
  }

  // Attempts that fail on one connection move the current version up row by row, so that
  // the attempt after them goes through, as version n + 1.
  lemma {:induction false} RetriesClimb(s: Session, p: ProposalId, m: MemoryId, n: nat, at: nat)
    requires Waiting(s, p, m, n)
    ensures s.working.memories[m].current <= n
    ensures var s' := Run(s, Attempts(p, at, n - s.working.memories[m].current + 1));
            && s'.committed == s'.working && m in s'.working.memories && s'.working.memories[m].current == n + 1
            && Key(m, n + 1) in s'.working.versions && s'.working.versions[Key(m, n + 1)].proposal == p
    decreases n - s.working.memories[m].current
  {
    hide Inv, Apply;
    OneAttempt(s, p, m, n, at);
    var k := n - s.working.memories[m].current;
    assert Attempts(p, at, k + 1)[1..] == Attempts(p, at, k);
    var s1 := Apply(s, WriteMemory(p, true, at, true));
    if k > 0 {
      RetriesClimb(s1, p, m, n, at);
    } else {
      assert Run(s1, Attempts(p, at, 0)) == s1;
    }
  }

  // When the connection is rolled back after a failed attempt, nothing has changed.
  lemma DiscardForgets(s: Session, p: ProposalId, m: MemoryId, n: nat, at: nat)
    requires Inv(s) && s.committed == s.working && p in s.working.proposals && s.working.proposals[p].status == Approved
    requires s.working.proposals[p].memory == Some(m) && RowsUpTo(s.working, m, n) && m in s.working.memories
             && s.working.memories[m].current < n
    ensures Run(s, [WriteMemory(p, true, at, true), Discard]) == s
  {
    ReviseBelowTop(s.working, p, m, n, at);
    var (l, d) := (WriteMemory(p, true, at, true), Discard);
    assert [l, d][1..] == [d] && [d][1..] == [];
    assert Run(Apply(s, l), [d]) == Run(Apply(Apply(s, l), d), []);
  }

  // ---- A run from a new session --------------------------------------------------------------

  const TEXT := Text("title", "summary", "body")
  const SUBJECT := MemoryOf("first", Created(TEXT, None))

  function Writing(p: ProposalId, memory: Option<MemoryId>, at: nat): seq<Label> {
    [Propose(p, memory, TEXT), Review(p, Approve), WriteMemory(p, true, at, true)]
  }

  // Two versions, a rollback to the first, and an approved revision.
  function BelowTop(): seq<Label> {
    Writing("first", None, 0) + (Writing("second", Some(SUBJECT), 1)
      + [RollbackMemory(SUBJECT, 1, 2), Propose("third", Some(SUBJECT), TEXT), Review("third", Approve)])
  }

  lemma RunThree(s: Session, a: Label, b: Label, c: Label)
    ensures Run(s, [a, b, c]) == Apply(Apply(Apply(s, a), b), c)
  {
    hide Apply;
    assert [a, b, c][1..] == [b, c] && [b, c][1..] == [c] && [c][1..] == [];
    assert Run(Apply(Apply(s, a), b), [c]) == Run(Apply(Apply(Apply(s, a), b), c), []);
  }

  function FirstVersion(): Version {
    NewVersion(SUBJECT, 1, "first", TEXT, None)
  }

  function OneWritten(): Tables {
    Tables(map["first" := Proposal(Written, Some(SUBJECT), TEXT, Created(TEXT, None))], map[SUBJECT := Memory(1, Active)],
           map[Key(SUBJECT, 1) := FirstVersion()], {Wrote(SUBJECT, 1, 0)})
  }

  function TwoWritten(): Tables {
    var t := OneWritten();
    Tables(t.proposals["second" := Proposal(Written, Some(SUBJECT), TEXT, Created(TEXT, Some(SUBJECT)))], map[SUBJECT := Memory(2, Active)],
           t.versions[Key(SUBJECT, 2) := NewVersion(SUBJECT, 2, "second", TEXT, Some(FirstVersion().hash))],
           t.lifecycle + {Wrote(SUBJECT, 2, 1)})
  }

  lemma FirstIsWritten()
    ensures Run(NEW_SESSION, Writing("first", None, 0)) == Session(OneWritten(), OneWritten())
  {
    RunThree(NEW_SESSION, Propose("first", None, TEXT), Review("first", Approve), WriteMemory("first", true, 0, true));
  }

  lemma SecondIsWritten()
    ensures Run(Session(OneWritten(), OneWritten()), Writing("second", Some(SUBJECT), 1)) == Session(TwoWritten(), TwoWritten())
  {
    RunThree(Session(OneWritten(), OneWritten()), Propose("second", Some(SUBJECT), TEXT), Review("second", Approve),
             WriteMemory("second", true, 1, true));
  }

  function BelowTopTables(): Tables {
    var t := TwoWritten();
    Tables(t.proposals["third" := Proposal(Approved, Some(SUBJECT), TEXT, Created(TEXT, Some(SUBJECT)))], map[SUBJECT := Memory(1, Active)],
           t.versions, t.lifecycle + {Restored(SUBJECT, 1, 2)})
  }

  lemma ThirdIsApproved()
    ensures Run(Session(TwoWritten(), TwoWritten()), [RollbackMemory(SUBJECT, 1, 2), Propose("third", Some(SUBJECT), TEXT), Review("third", Approve)])
         == Session(BelowTopTables(), BelowTopTables())
  {
    RunThree(Session(TwoWritten(), TwoWritten()), RollbackMemory(SUBJECT, 1, 2), Propose("third", Some(SUBJECT), TEXT), Review("third", Approve));
  }

  lemma BelowTopRuns()
    ensures Reached(BelowTop()) == Session(BelowTopTables(), BelowTopTables())
  {
    hide Apply, OneWritten, TwoWritten, BelowTopTables;
    FirstIsWritten();
    SecondIsWritten();
    ThirdIsApproved();
    var more := [RollbackMemory(SUBJECT, 1, 2), Propose("third", Some(SUBJECT), TEXT), Review("third", Approve)];
    RunConcat(NEW_SESSION, Writing("first", None, 0), Writing("second", Some(SUBJECT), 1) + more);
    RunConcat(Session(OneWritten(), OneWritten()), Writing("second", Some(SUBJECT), 1), more);
  }

  // The revision fails once and then becomes version 3.
  lemma ClimbIsReached(at: nat)
    ensures var s := Reached(BelowTop());
            && Waiting(s, "third", SUBJECT, 2) && s.committed == s.working && s.working.memories[SUBJECT].current == 1
            && var s' := Run(s, Attempts("third", at, 2));
            SUBJECT in s'.working.memories && s'.working.memories[SUBJECT].current == 3 && s'.committed == s'.working
  {
    hide Inv, Apply;
    BelowTopRuns();
    ReachedGood(BelowTop());
    RetriesClimb(Reached(BelowTop()), "third", SUBJECT, 2, at);
  }
}
