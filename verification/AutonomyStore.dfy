// The calls of autonomy.py as they update the tick, job and record tables.
module AutonomyStore {
  import opened Options
  import opened Autonomy

  datatype Outcome =
    | Created | Existing | Invalid | NotFound | Blocked | AlreadySucceeded | TerminalTick | DedupedTick | FailedTick | NeedsApproval
    | Executed(record: RecordId) | Raised | Died | Done

  // The tick and its job have come to these statuses; no other row has changed.
  ghost predicate Left(t: Tables, t': Tables, id: TickId, status: TickStatus, job: JobStatus)
    requires id in t.ticks
  {
    var j := t.ticks[id].job;
    && t'.ticks == t.ticks[id := t.ticks[id].(status := status)]
    && j in t.jobs && t'.jobs == t.jobs[j := t.jobs[j].(status := job)] && t'.objectives == t.objectives
  }

  // What a run of a tick comes to that is planned or running. An action that needs approval, or
  // is not allowed, fails; a record that cannot be created, or a crash, leaves the tick running;
  // otherwise it succeeds with one more record, which is its own.
  ghost predicate Dispatched(t: Tables, t': Tables, id: TickId, at: nat, actor: bool, crash: Crash, r: Outcome)
    requires id in t.ticks
  {
    var plan := t.ticks[id].job.plan;
    var record := RecordId(plan.objective, plan.title, at);
    if plan.action in {"memory_proposal", "wiki_draft", "file_write", "tool_execution", "external_send"} then
      r == NeedsApproval && Left(t, t', id, Failed, JobBlocked) && t'.records == t.records
    else if plan.action != "council_record_create" || plan.objective !in t.objectives then
      r == FailedTick && Left(t, t', id, Failed, JobFailed) && t'.records == t.records
    else if !actor || record in t.records || crash.BeforeRecord? then
      r in {Raised, Died} && Left(t, t', id, Running, JobRunning) && t'.records == t.records
    else if crash.AfterRecord? then
      r == Died && Left(t, t', id, Running, JobRunning) && t'.records == t.records[record := Some(id)]
    else
      r == Executed(record) && Left(t, t', id, Succeeded, JobSucceeded) && t'.records == t.records[record := Some(id)]
  }

  class Runtime {
    var objectives: set<ObjectiveId>
    var ticks: map<TickId, Tick>
    var jobs: map<JobId, Job>
    var records: map<RecordId, Option<TickId>>
    ghost var lost: map<TickId, nat>

    ghost function View(): Tables
      reads this
    {
      Tables(objectives, ticks, jobs, records, lost)
    }

    ghost predicate Valid()
      reads this
    {
      Good(View())
    }

    constructor ()
      ensures Valid() && View() == NO_TABLES
    {
      objectives, ticks, jobs, records, lost := {}, map[], map[], map[], map[];
    }

    method AddObjective(objective: ObjectiveId)
      requires Valid()
      modifies `objectives
      ensures Valid() && View() == Apply(old(View()), CreateObjective(objective))
    {
      StepKeeps(View(), CreateObjective(objective));
      objectives := objectives + {objective};
    }

    // A record that somebody else creates.
    method AddRecord(record: RecordId)
      requires Valid()
      modifies `records
      ensures Valid() && View() == Apply(old(View()), CreateRecord(record))
    {
      StepKeeps(View(), CreateRecord(record));
      if record !in records && record.objective in objectives { records := records[record := None]; }
    }

    // Update of a tick and of its job.
    method SetRows(id: TickId, status: TickStatus, job: JobStatus)
      requires id in ticks
      modifies `ticks, `jobs
      ensures View() == SetBoth(old(View()), id, status, job)
    {
      var j := ticks[id].job;
      ticks := ticks[id := ticks[id].(status := status)];
      if j in jobs { jobs := jobs[j := jobs[j].(status := job)]; }
    }

    method PlanTick(key: string, plan: ActionPlan, budget: Budget) returns (r: Outcome)
      requires Valid()
      modifies `ticks, `jobs, `lost
      ensures Valid() && View() == Apply(old(View()), Plan(key, plan, budget))
      ensures r == Created <==> View() != old(View())
      ensures r == Created || r == Existing ==> KeyTaken(View(), key)
      ensures r == Invalid <==> key == "" || budget.seconds <= 0 || budget.cost < 0 || plan.objective !in objectives
      ensures r == Created ==>
                && ticks == old(ticks)[TickId(key, plan.objective, plan.action) := Tick(key, JobId(key, plan), Planned, budget)]
                && jobs == old(jobs)[JobId(key, plan) := Job(plan, JobQueued)]
      ensures r == Existing ==> exists id :: id in old(ticks) && old(ticks)[id].key == key
      ensures r in {Created, Existing, Invalid}
    {
      StepKeeps(View(), Plan(key, plan, budget));
      if key == "" || budget.seconds <= 0 || budget.cost < 0 || plan.objective !in objectives { return Invalid; }
      if exists id :: id in ticks && ticks[id].key == key { return Existing; }
      FreshIds(View(), key, plan);
      var (id, job) := (TickId(key, plan.objective, plan.action), JobId(key, plan));
      jobs := jobs[job := Job(plan, JobQueued)];
      ticks := ticks[id := Tick(key, job, Planned, budget)];
      lost := lost[id := 0];
      assert id in ticks && ticks[id].key == key;
      return Created;
    }

    // run_tick. The branches for a duplicate and for an exhausted budget are those of
    // Autonomy.RunTick; no reachable state takes them, by AtMostOneTickPerKey and RunFacts.
    method RunIt(id: TickId, at: nat, actor: bool, crash: Crash) returns (r: Outcome)
      requires Valid()
      modifies `ticks, `jobs, `records, `lost
      ensures Valid() && View() == Apply(old(View()), Label.RunIt(id, at, actor, crash))
      ensures r.Executed? ==> r.record in records && r.record !in old(records) && records[r.record] == Some(id) && id in ticks && ticks[id].status == Succeeded
      ensures r == NotFound <==> id !in old(ticks)
      ensures id !in old(ticks) ==> View() == old(View())
      ensures id in old(ticks) && old(ticks)[id].status !in {Planned, Running} ==> View() == old(View())
      ensures id in old(ticks) && old(ticks)[id].status in {Planned, Running} ==> Dispatched(old(View()), View(), id, at, actor, crash, r)
    {
      hide Good;
      StepKeeps(View(), Label.RunIt(id, at, actor, crash));
      if id !in ticks { return NotFound; }
      var tick := ticks[id];
      if tick.status in {Paused, Cancelled} { return Blocked; }
      if tick.status == Succeeded { return AlreadySucceeded; }
      if tick.status in {Failed, Deduped} { return TerminalTick; }
      hide Dispatched;
      RunFacts(View(), id);
      r := Dispatch(id, at, actor, crash);
    }

    // By the class of the action.
    method Dispatch(id: TickId, at: nat, actor: bool, crash: Crash) returns (r: Outcome)
      requires id in ticks && ticks[id].job in jobs && ticks[id].status in {Planned, Running} && ticks[id].job.plan == jobs[ticks[id].job].plan
      requires !Duplicated(View(), id) && ticks[id].budget.seconds > 0 && ticks[id].budget.cost >= 0
      modifies `ticks, `jobs, `records, `lost
      ensures View() == RunTick(old(View()), id, at, actor, crash) && Dispatched(old(View()), View(), id, at, actor, crash, r)
      ensures r.Executed? ==> r.record in records && r.record !in old(records) && records[r.record] == Some(id) && id in ticks && ticks[id].status == Succeeded
    {
      hide Duplicated;
      var tick := ticks[id];
      var plan := jobs[tick.job].plan;
      var kind := Classify(plan.action);
      if kind.ApprovalRequired? {
        SetRows(id, Failed, JobBlocked);
        return NeedsApproval;
      }
      if kind.Denied? || plan.action != CREATE_RECORD || plan.objective !in objectives {
        SetRows(id, Failed, JobFailed);
        return FailedTick;
      }
      SetRows(id, Running, JobRunning);
      r := Act(id, RecordId(plan.objective, plan.title, at), actor, crash);
    }

    // create_record, and the update of the tick after it.
    method Act(id: TickId, record: RecordId, actor: bool, crash: Crash) returns (r: Outcome)
      requires id in ticks
      modifies `ticks, `jobs, `records, `lost
      ensures View() == Execute(old(View()), id, record, actor, crash)
      ensures r == (if !actor || record in old(records) then Raised else if crash.NoCrash? then Executed(record) else Died)
      ensures r.Executed? ==> r.record in records && r.record !in old(records) && records[r.record] == Some(id) && id in ticks && ticks[id].status == Succeeded
    {
      if !actor || record in records { return Raised; }
      if crash.BeforeRecord? { return Died; }
      records := records[record := Some(id)];
      if crash.AfterRecord? {
        lost := lost[id := LostRuns(View(), id) + 1];
        return Died;
      }
      SetRows(id, Succeeded, JobSucceeded);
      return Executed(record);
    }

    method PauseTick(id: TickId) returns (r: Outcome)
      requires Valid()
      modifies `ticks
      ensures Valid() && View() == Apply(old(View()), Pause(id))
      ensures r == Done <==> id in old(ticks) && old(ticks)[id].status !in {Succeeded, Failed, Cancelled, Deduped}
      ensures ticks == if r == Done then old(ticks)[id := old(ticks)[id].(status := Paused)] else old(ticks)
    {
      StepKeeps(View(), Pause(id));
      if id !in ticks { return NotFound; }
      if ticks[id].status in {Succeeded, Failed, Cancelled, Deduped} { return TerminalTick; }
      ticks := ticks[id := ticks[id].(status := Paused)];
      return Done;
    }

    method ResumeTick(id: TickId) returns (r: Outcome)
      requires Valid()
      modifies `ticks
      ensures Valid() && View() == Apply(old(View()), Resume(id))
      ensures r == Done <==> id in old(ticks) && old(ticks)[id].status == Paused
      ensures ticks == if r == Done then old(ticks)[id := old(ticks)[id].(status := Planned)] else old(ticks)
    {
      StepKeeps(View(), Resume(id));
      if id !in ticks { return NotFound; }
      if ticks[id].status != Paused { return Blocked; }
      ticks := ticks[id := ticks[id].(status := Planned)];
      return Done;
    }

    method KillTick(id: TickId) returns (r: Outcome)
      requires Valid()
      modifies `ticks, `jobs
      ensures Valid() && View() == Apply(old(View()), Kill(id))
      ensures r == Done <==> id in old(ticks) && old(ticks)[id].status !in {Succeeded, Deduped}
      ensures if r == Done then Left(old(View()), View(), id, Cancelled, JobCancelled) else View() == old(View())
    {
      StepKeeps(View(), Kill(id));
      if id !in ticks { return NotFound; }
      JobKept(View(), id);
      if ticks[id].status in {Succeeded, Deduped} { return AlreadySucceeded; }
      SetRows(id, Cancelled, JobCancelled);
      return Done;
    }
  }
}
