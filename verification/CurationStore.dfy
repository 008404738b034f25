// The calls of curation.py, statement by statement, over one connection.
module CurationStore {
  import opened Options
  import opened Curation

  datatype Error =
    | ProposalNotFound | MemoryNotFound | VersionNotFound | AlreadyWritten | AlreadyRejected | NotApproved | TargetDenied
    | AlreadyTombstoned | DuplicateKey

  lemma KeysAreFree(t: Tables, p: ProposalId)
    requires Good(t) && p in t.proposals && t.proposals[p].status == Approved
    ensures if t.proposals[p].memory.Some? then t.proposals[p].memory.value in t.memories
      else MemoryOf(p, t.proposals[p].content) !in t.memories
  {
    WriteSucceeds(t, p, 0);
  }

  // A proposal after its review. Editing replaces the parts of the text that are given, asks
  // for another review, and makes the hash that of the text alone.
  function After(row: Proposal, action: Action): Proposal {
    match action
    case Approve => row.(status := Approved)
    case Reject => row.(status := Rejected)
    case Edit(title, summary, body) =>
      var text := Text(if title.Some? then title.value else row.text.title, if summary.Some? then summary.value else row.text.summary,
                       if body.Some? then body.value else row.text.body);
      row.(status := Edited, text := text, content := EditedTo(text))
  }

  class Connection {
    // What is committed, and the tables with the open transaction in them.
    var committed: Tables
    var proposals: map<ProposalId, Proposal>
    var memories: map<MemoryId, Memory>
    var versions: map<Key, Version>
    var lifecycle: set<LifecycleId>

    function Working(): Tables
      reads this
    {
      Tables(proposals, memories, versions, lifecycle)
    }

    function View(): Session
      reads this
    {
      Session(committed, Working())
    }

    ghost predicate Valid()
      reads this
    {
      Inv(View())
    }

    constructor ()
      ensures Valid() && View() == NEW_SESSION
    {
      committed := NO_TABLES;
      proposals, memories, versions, lifecycle := map[], map[], map[], {};
    }

    method CommitAll()
      modifies `committed
      ensures View() == Session(old(Working()), old(Working()))
    {
      committed := Working();
    }

    // conn.rollback()
    method DiscardAll()
      requires Valid()
      modifies this
      ensures Valid() && View() == Apply(old(View()), Discard)
    {
      StepKeeps(View(), Discard);
      proposals, memories, versions, lifecycle := committed.proposals, committed.memories, committed.versions, committed.lifecycle;
    }

    method CreateProposal(p: ProposalId, memory: Option<MemoryId>, text: Text) returns (error: Option<Error>)
      requires Valid()
      modifies this
      ensures Valid() && View() == Apply(old(View()), Propose(p, memory, text))
      ensures error.Some? <==> p !in old(proposals) && memory.Some? && memory.value !in memories
      ensures if error.Some? || p in old(proposals) then View() == old(View())
              else View() == Session(Working(), old(Working()).(proposals :=
                old(proposals)[p := Proposal(Proposed, memory, text, Created(text, memory))]))
    {
      StepKeeps(View(), Propose(p, memory, text));
      if memory.Some? && memory.value !in memories && p !in proposals { return Some(MemoryNotFound); }
      if p in proposals { return None; }
      proposals := proposals[p := Proposal(Proposed, memory, text, Created(text, memory))];
      CommitAll();
      return None;
    }

    method ReviewProposal(p: ProposalId, action: Action) returns (error: Option<Error>)
      requires Valid()
      modifies this
      ensures Valid() && View() == Apply(old(View()), Review(p, action))
      ensures error.None? <==> p in old(proposals) && old(proposals)[p].status !in {Written, Rejected}
      ensures error.None? ==> View() == Session(Working(), old(Working()).(proposals := old(proposals)[p := After(old(proposals)[p], action)]))
      ensures error.Some? ==> View() == old(View())
    {
      StepKeeps(View(), Review(p, action));
      if p !in proposals { return Some(ProposalNotFound); }
      var row := proposals[p];
      if row.status == Written { return Some(AlreadyWritten); }
      if row.status == Rejected { return Some(AlreadyRejected); }
      match action {
        case Approve => row := row.(status := Approved);
        case Reject => row := row.(status := Rejected);
        case Edit(title, summary, body) =>
          var text := row.text;
          if title.Some? { text := text.(title := title.value); }
          if summary.Some? { text := text.(summary := summary.value); }
          if body.Some? { text := text.(body := body.value); }
          row := row.(status := Edited, text := text, content := EditedTo(text));
      }
      proposals := proposals[p := row];
      CommitAll();
      return None;
    }

    // UPDATE or INSERT of the memory row: which memory, which version, chained to what. The
    // foreign key of the proposal guarantees that the memory to revise exists.
    method PutMemory(p: ProposalId) returns (m: MemoryId, v: nat, previous: Option<VersionHash>)
      requires p in proposals && (proposals[p].memory.Some? ==> proposals[p].memory.value in memories)
      modifies `memories
      ensures match proposals[p].memory
              case None => m == MemoryOf(p, proposals[p].content) && v == 1 && previous == None
                && memories == old(memories)[m := Memory(1, Active)]
              case Some(x) =>
                && m == x && v == old(memories)[m].current + 1 && previous == HashAt(Working(), Key(m, v - 1))
                && memories == old(memories)[m := Memory(v, Active)]
    {
      var row := proposals[p];
      if row.memory.Some? {
        m := row.memory.value;
        var current := memories[m].current;
        v := current + 1;
        previous := if Key(m, current) in versions then Some(versions[Key(m, current)].hash) else None;
        memories := memories[m := Memory(v, Active)];
      } else {
        m, v, previous := MemoryOf(p, row.content), 1, None;
        memories := memories[m := Memory(1, Active)];
      }
    }

    // INSERT of the version and of its lifecycle row, and UPDATE of the proposal.
    method PutVersion(p: ProposalId, m: MemoryId, v: nat, previous: Option<VersionHash>, at: nat) returns (ok: bool)
      requires p in proposals
      modifies `versions, `lifecycle, `proposals
      ensures var e := Finish(old(Working()), p, m, v, previous, at); Working() == e.tables && ok == e.done
      ensures ok ==>
                var row := old(proposals)[p];
                && Key(m, v) !in old(versions) && versions == old(versions)[Key(m, v) := Version(row.text, VersionHash(m, v, row.text), previous, p)]
                && lifecycle == old(lifecycle) + {Wrote(m, v, at)} && proposals == old(proposals)[p := row.(status := Written, memory := Some(m))]
    {
      var row := proposals[p];
      if Key(m, v) in versions { return false; }
      versions := versions[Key(m, v) := Version(row.text, VersionHash(m, v, row.text), previous, p)];
      if Wrote(m, v, at) in lifecycle { return false; }
      lifecycle := lifecycle + {Wrote(m, v, at)};
      proposals := proposals[p := row.(status := Written, memory := Some(m))];
      return true;
    }

    method PutRows(p: ProposalId, at: nat) returns (ok: bool)
      requires p in proposals
      requires if proposals[p].memory.Some? then proposals[p].memory.value in memories else MemoryOf(p, proposals[p].content) !in memories
      modifies `memories, `versions, `lifecycle, `proposals
      ensures var e := Write(old(Working()), p, at); Working() == e.tables && ok == e.done
      ensures ok ==>
                var row := old(proposals)[p];
                var m := if row.memory.Some? then row.memory.value else MemoryOf(p, row.content);
                var v := if row.memory.Some? then old(memories)[m].current + 1 else 1;
                var previous := if row.memory.Some? && Key(m, v - 1) in old(versions) then Some(old(versions)[Key(m, v - 1)].hash) else None;
                && Key(m, v) !in old(versions) && versions == old(versions)[Key(m, v) := Version(row.text, VersionHash(m, v, row.text), previous, p)]
                && memories == old(memories)[m := Memory(v, Active)] && lifecycle == old(lifecycle) + {Wrote(m, v, at)}
                && proposals == old(proposals)[p := row.(status := Written, memory := Some(m))]
    {
      hide Finish;
      var m, v, previous := PutMemory(p);
      ok := PutVersion(p, m, v, previous, at);
    }

    // write_memory. A duplicate key leaves the statements before it in the open transaction,
    // and no version row is overwritten.
    method WriteMemory(p: ProposalId, allowed: bool, at: nat, commits: bool) returns (error: Option<Error>)
      requires Valid()
      modifies this
      ensures Valid() && View() == Apply(old(View()), Label.WriteMemory(p, allowed, at, commits))
      ensures error == Some(DuplicateKey) ==> versions == old(versions) && proposals == old(proposals)
      ensures error.None? ==> p in proposals && proposals[p].status == Written
      ensures error == Some(DuplicateKey) || (error.None? && View() != old(View())) ==>
                p in old(proposals) && old(proposals)[p].status == Approved && allowed
      ensures error.None? ==> if old(proposals)[p].status == Written then View() == old(View()) else
                var row := old(proposals)[p];
                var m := if row.memory.Some? then row.memory.value else MemoryOf(p, row.content);
                var v := if row.memory.Some? then old(memories)[m].current + 1 else 1;
                var previous := if row.memory.Some? && Key(m, v - 1) in old(versions) then Some(old(versions)[Key(m, v - 1)].hash) else None;
                && Key(m, v) !in old(versions) && versions == old(versions)[Key(m, v) := Version(row.text, VersionHash(m, v, row.text), previous, p)]
                && memories == old(memories)[m := Memory(v, Active)] && lifecycle == old(lifecycle) + {Wrote(m, v, at)}
                && proposals == old(proposals)[p := row.(status := Written, memory := Some(m))]
                && committed == (if commits then Working() else old(committed))
    {
      hide Good, Extends, Write;
      StepKeeps(View(), Label.WriteMemory(p, allowed, at, commits));
      if p !in proposals { return Some(ProposalNotFound); }
      var row := proposals[p];
      if row.status == Written { return None; }
      if row.status != Approved { return Some(NotApproved); }
      if !allowed { return Some(TargetDenied); }
      KeysAreFree(Working(), p);
      WriteSucceeds(Working(), p, at);
      var ok := PutRows(p, at);
      if !ok { return Some(DuplicateKey); }
      if commits { CommitAll(); }
      return None;
    }

    method TombstoneMemory(m: MemoryId, at: nat) returns (error: Option<Error>)
      requires Valid()
      modifies this
      ensures Valid() && View() == Apply(old(View()), Label.TombstoneMemory(m, at))
      ensures error.None? || error == Some(DuplicateKey) <==> m in old(memories) && old(memories)[m].status == Active
      ensures error.None? || error == Some(DuplicateKey) ==> memories == old(memories)[m := old(memories)[m].(status := Tombstoned)]
      ensures error.None? ==> committed == Working() && lifecycle == old(lifecycle) + {Buried(m, at)}
      ensures versions == old(versions) && proposals == old(proposals) && (error.Some? ==> committed == old(committed))
    {
      StepKeeps(View(), Label.TombstoneMemory(m, at));
      if m !in memories { return Some(MemoryNotFound); }
      if memories[m].status == Tombstoned { return Some(AlreadyTombstoned); }
      memories := memories[m := memories[m].(status := Tombstoned)];
      if Buried(m, at) in lifecycle { return Some(DuplicateKey); }
      lifecycle := lifecycle + {Buried(m, at)};
      CommitAll();
      return None;
    }

    method RollbackMemory(m: MemoryId, version: nat, at: nat) returns (error: Option<Error>)
      requires Valid()
      modifies this
      ensures Valid() && View() == Apply(old(View()), Label.RollbackMemory(m, version, at))
      ensures error.None? || error == Some(DuplicateKey) <==> m in old(memories) && Key(m, version) in old(versions)
      ensures error.None? || error == Some(DuplicateKey) ==> memories == old(memories)[m := Memory(version, Active)]
      ensures error.None? ==> committed == Working() && lifecycle == old(lifecycle) + {Restored(m, version, at)}
      ensures versions == old(versions) && proposals == old(proposals) && (error.Some? ==> committed == old(committed))
    {
      StepKeeps(View(), Label.RollbackMemory(m, version, at));
      if m !in memories { return Some(MemoryNotFound); }
      if Key(m, version) !in versions { return Some(VersionNotFound); }
      memories := memories[m := Memory(version, Active)];
      if Restored(m, version, at) in lifecycle { return Some(DuplicateKey); }
      lifecycle := lifecycle + {Restored(m, version, at)};
      CommitAll();
      return None;
    }
  }
}
