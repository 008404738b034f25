// Bounded autonomy ticks (autonomy.py). create_record commits twice inside run_tick: once
// before it inserts the record, through ensure_council_runtime, and once after it.
module Autonomy {
  import opened Options

  type ObjectiveId = string
  const CREATE_RECORD := "council_record_create"
  const ALLOWED: set<string> := {"read_only_recall", "council_record_create"}
  const APPROVAL_REQUIRED: set<string> := {"memory_proposal", "wiki_draft", "file_write", "tool_execution", "external_send"}

  datatype Class = Allowed | ApprovalRequired | Denied

  function Classify(action: string): Class {
    if action in ALLOWED then Allowed else if action in APPROVAL_REQUIRED then ApprovalRequired else Denied
  }

  // Ids are hashes of their arguments, taken to be injective. The clock has a resolution
  // of one second.
  datatype TickId = TickId(key: string, objective: ObjectiveId, action: string)
  datatype JobId = JobId(key: string, plan: ActionPlan)
  datatype RecordId = RecordId(objective: ObjectiveId, title: string, at: nat)

  datatype ActionPlan = ActionPlan(action: string, objective: ObjectiveId, title: string)
  datatype Budget = Budget(seconds: int, cost: int)

  datatype TickStatus = Planned | Running | Succeeded | Failed | Cancelled | Deduped | Paused
  datatype JobStatus = JobQueued | JobRunning | JobSucceeded | JobFailed | JobCancelled | JobBlocked

  datatype Tick = Tick(key: string, job: JobId, status: TickStatus, budget: Budget)
  datatype Job = Job(plan: ActionPlan, status: JobStatus)

  // A record remembers the tick whose run inserted it, and `lost` counts, for a tick, the
  // runs that died after their record was committed and before the tick was finished.
  datatype Tables = Tables(objectives: set<ObjectiveId>, ticks: map<TickId, Tick>, jobs: map<JobId, Job>,
                           records: map<RecordId, Option<TickId>>, lost: map<TickId, nat>)

  const NO_TABLES := Tables({}, map[], map[], map[], map[])

  // ---- Calls ---------------------------------------------------------------------------

  function SetStatus(t: Tables, id: TickId, status: TickStatus): Tables
    requires id in t.ticks
  {
    t.(ticks := t.ticks[id := t.ticks[id].(status := status)])
  }

  function SetJob(t: Tables, j: JobId, status: JobStatus): Tables {
    if j in t.jobs then t.(jobs := t.jobs[j := t.jobs[j].(status := status)]) else t
  }

  function SetBoth(t: Tables, id: TickId, status: TickStatus, job: JobStatus): Tables
    requires id in t.ticks
  {
    SetJob(SetStatus(t, id, status), t.ticks[id].job, job)
  }

  predicate KeyTaken(t: Tables, key: string) {
    exists id :: id in t.ticks && t.ticks[id].key == key
  }

  function PlanTick(t: Tables, key: string, plan: ActionPlan, budget: Budget): Tables {
    if key == "" || budget.seconds <= 0 || budget.cost < 0 || plan.objective !in t.objectives || KeyTaken(t, key) then t
    else
      var (id, job) := (TickId(key, plan.objective, plan.action), JobId(key, plan));
      t.(jobs := t.jobs[job := Job(plan, if job in t.jobs then t.jobs[job].status else JobQueued)],
         ticks := t.ticks[id := Tick(key, job, Planned, budget)], lost := t.lost[id := 0])
  }

  // Another tick with the same key has succeeded.
  predicate Duplicated(t: Tables, id: TickId)
    requires id in t.ticks
  {
    exists other :: other in t.ticks && other != id && t.ticks[other].key == t.ticks[id].key && t.ticks[other].status == Succeeded
  }

  datatype Crash = NoCrash | BeforeRecord | AfterRecord

  // `actor`: the actor of the call exists. Without it, or when the key of the record
  // exists already, create_record raises, and the tick stays running.
  function RunTick(t: Tables, id: TickId, at: nat, actor: bool, crash: Crash): Tables {
    if id !in t.ticks || t.ticks[id].status !in {Planned, Running} then t
    else if Duplicated(t, id) then SetBoth(t, id, Deduped, JobSucceeded)
    else
      var tick := t.ticks[id];
      if tick.budget.seconds <= 0 || tick.budget.cost < 0 then SetBoth(t, id, Failed, JobFailed)
      else if tick.job !in t.jobs then t
      else
        var plan := t.jobs[tick.job].plan;
        match Classify(plan.action)
        case ApprovalRequired => SetBoth(t, id, Failed, JobBlocked)
        case Denied => SetBoth(t, id, Failed, JobFailed)
        case Allowed =>
          if plan.action != CREATE_RECORD || plan.objective !in t.objectives then SetBoth(t, id, Failed, JobFailed)
          else Execute(SetBoth(t, id, Running, JobRunning), id, RecordId(plan.objective, plan.title, at), actor, crash)
  }

  function Execute(t: Tables, id: TickId, record: RecordId, actor: bool, crash: Crash): Tables
    requires id in t.ticks
  {
    if !actor || crash.BeforeRecord? || record in t.records then t
    else
      var t' := t.(records := t.records[record := Some(id)]);
      if crash.AfterRecord? then t'.(lost := t.lost[id := LostRuns(t, id) + 1]) else SetBoth(t', id, Succeeded, JobSucceeded)
  }

  function LostRuns(t: Tables, id: TickId): nat {
    if id in t.lost then t.lost[id] else 0
  }

  datatype Label =
    | CreateObjective(objective: ObjectiveId)
    | CreateRecord(record: RecordId)
    | Plan(key: string, plan: ActionPlan, budget: Budget)
    | RunIt(id: TickId, at: nat, actor: bool, crash: Crash)
    | Pause(id: TickId)
    | Resume(id: TickId)
    | Kill(id: TickId)

  function Apply(t: Tables, l: Label): Tables {
    match l
    case CreateObjective(o) => t.(objectives := t.objectives + {o})
    case CreateRecord(r) => if r in t.records || r.objective !in t.objectives then t else t.(records := t.records[r := None])
    case Plan(key, plan, budget) => PlanTick(t, key, plan, budget)
    case RunIt(id, at, actor, crash) => RunTick(t, id, at, actor, crash)
    case Pause(id) =>
      if id !in t.ticks || t.ticks[id].status in {Succeeded, Failed, Cancelled, Deduped} then t else SetStatus(t, id, Paused)
    case Resume(id) => if id !in t.ticks || t.ticks[id].status != Paused then t else SetStatus(t, id, Planned)
    case Kill(id) =>
      if id !in t.ticks || t.ticks[id].status in {Succeeded, Deduped} then t else SetBoth(t, id, Cancelled, JobCancelled)
  }

  function Run(t: Tables, ls: seq<Label>): Tables
    decreases |ls|
  {
    if ls == [] then t else Run(Apply(t, ls[0]), ls[1..])
  }

  // ---- What every run keeps ---------------------------------------------------------------

  // The status of the job agrees with the status of the tick.
  predicate Agree(tick: TickStatus, job: JobStatus, kind: Class) {
    match tick
    case Planned | Paused => job in {JobQueued, JobRunning}
    case Running => job == JobRunning
    case Succeeded => job == JobSucceeded
    case Failed => job == if kind.ApprovalRequired? then JobBlocked else JobFailed
    case Cancelled => job == JobCancelled
    case Deduped => false
  }

  function RecordsOf(t: Tables, id: TickId): set<RecordId> {
    set r | r in t.records && t.records[r] == Some(id)
  }

  // The record law: one record for every lost run, and one for the run that succeeded.
  predicate TickOk(t: Tables, id: TickId)
    requires id in t.ticks
  {
    var tick := t.ticks[id];
    && id.key == tick.key == tick.job.key && tick.job.plan.action == id.action && tick.budget.seconds > 0 && tick.budget.cost >= 0
    && tick.job in t.jobs && t.jobs[tick.job].plan == tick.job.plan && tick.job.plan.objective in t.objectives && id in t.lost
    && Agree(tick.status, t.jobs[tick.job].status, Classify(id.action))
    && |RecordsOf(t, id)| == t.lost[id] + (if tick.status == Succeeded then 1 else 0)
    && (id.action != CREATE_RECORD ==> t.lost[id] == 0 && tick.status !in {Running, Succeeded} && t.jobs[tick.job].status != JobRunning)
  }

  predicate OneTickPerKey(t: Tables) {
    forall x, y :: x in t.ticks && y in t.ticks && t.ticks[x].key == t.ticks[y].key ==> x == y
  }

  predicate RecordsOwned(t: Tables) {
    && (forall r :: r in t.records && t.records[r].Some? ==> t.records[r].value in t.ticks)
    && (forall j :: j in t.jobs ==> exists id :: id in t.ticks && t.ticks[id].job == j)
  }

  ghost predicate Good(t: Tables) {
    && OneTickPerKey(t) && RecordsOwned(t)
    && forall id {:trigger TickOk(t, id)} | id in t.ticks :: TickOk(t, id)
  }

  // A move of one tick, its job, and perhaps a record of it.
  ghost predicate TickMove(t: Tables, t': Tables, id: TickId) {
    && id in t.ticks && id in t'.ticks
    && t'.ticks == t.ticks[id := t'.ticks[id]] && t'.ticks[id] == t.ticks[id].(status := t'.ticks[id].status)
    && t.ticks[id].job in t.jobs && t.ticks[id].job in t'.jobs && t'.jobs == t.jobs[t.ticks[id].job := t'.jobs[t.ticks[id].job]]
    && t'.jobs[t.ticks[id].job].plan == t.jobs[t.ticks[id].job].plan
    && t'.objectives == t.objectives
    && (t'.lost == t.lost || (id in t'.lost && t'.lost == t.lost[id := t'.lost[id]]))
    && (t'.records == t.records || exists r :: r !in t.records && t'.records == t.records[r := Some(id)])
  }

  lemma OtherTick(t: Tables, t': Tables, id: TickId, x: TickId)
    requires Good(t) && TickMove(t, t', id) && x in t.ticks && x != id
    ensures TickOk(t', x)
  {
    assert TickOk(t, x) && TickOk(t, id);
    assert t.ticks[x].job != t.ticks[id].job;
    assert RecordsOf(t', x) == RecordsOf(t, x);
  }

  lemma TickMoveKeeps(t: Tables, t': Tables, id: TickId)
    requires Good(t) && TickMove(t, t', id) && TickOk(t', id)
    ensures Good(t')
  {
    forall x | x in t'.ticks ensures TickOk(t', x) {
      if x != id { OtherTick(t, t', id, x); }
    }
    forall j | j in t'.jobs ensures exists x :: x in t'.ticks && t'.ticks[x].job == j {
      var x :| x in t.ticks && t.ticks[x].job == j;
      assert x in t'.ticks && t'.ticks[x].job == j;
    }
  }

  lemma StatusMove(t: Tables, id: TickId, status: TickStatus, job: JobStatus)
    requires Good(t) && id in t.ticks && (t.ticks[id].status != Succeeded || status == Succeeded)
    requires Agree(status, job, Classify(id.action)) && (status == Succeeded ==> t.ticks[id].status == Succeeded)
    requires id.action != CREATE_RECORD ==> status !in {Running, Succeeded} && job != JobRunning
    ensures Good(SetBoth(t, id, status, job))
  {
    assert TickOk(t, id);
    var t' := SetBoth(t, id, status, job);
    assert RecordsOf(t', id) == RecordsOf(t, id);
    TickMoveKeeps(t, t', id);
  }

  lemma PauseMove(t: Tables, id: TickId, status: TickStatus)
    requires Good(t) && id in t.ticks && t.ticks[id].status !in {Succeeded, Failed, Cancelled, Deduped} && status in {Planned, Paused}
    ensures Good(SetStatus(t, id, status))
  {
    assert TickOk(t, id);
    var t' := SetStatus(t, id, status);
    assert RecordsOf(t', id) == RecordsOf(t, id);
    assert t'.jobs == t.jobs[t.ticks[id].job := t.jobs[t.ticks[id].job]];
    TickMoveKeeps(t, t', id);
  }

  // No two ticks share a key, so that no tick is ever found to be a duplicate.
  lemma NeverDuplicated(t: Tables, id: TickId)
    requires OneTickPerKey(t) && id in t.ticks
    ensures !Duplicated(t, id)
  {
  }

  lemma ExecuteMove(t: Tables, id: TickId, record: RecordId, actor: bool, crash: Crash)
    requires Good(t) && id in t.ticks && t.ticks[id].status == Running
    ensures Good(Execute(t, id, record, actor, crash))
  {
    assert TickOk(t, id);
    var t' := Execute(t, id, record, actor, crash);
    if actor && !crash.BeforeRecord? && record !in t.records {
      assert RecordsOf(t', id) == RecordsOf(t, id) + {record} && record !in RecordsOf(t, id);
      assert t'.records == t.records[record := Some(id)];
      if crash.AfterRecord? { assert t'.jobs == t.jobs[t.ticks[id].job := t.jobs[t.ticks[id].job]]; }
      TickMoveKeeps(t, t', id);
    }
  }

  lemma RunMove(t: Tables, id: TickId, at: nat, actor: bool, crash: Crash)
    requires Good(t)
    ensures Good(RunTick(t, id, at, actor, crash))
  {
    hide Good, Execute, SetBoth;
    if id in t.ticks && t.ticks[id].status in {Planned, Running} {
      RunFacts(t, id);
      var plan := t.jobs[t.ticks[id].job].plan;
      match Classify(plan.action) {
        case ApprovalRequired => StatusMove(t, id, Failed, JobBlocked);
        case Denied => StatusMove(t, id, Failed, JobFailed);
        case Allowed =>
          if plan.action != CREATE_RECORD {
            StatusMove(t, id, Failed, JobFailed);
          } else {
            StatusMove(t, id, Running, JobRunning);
            SetIt(t, id, Running, JobRunning);
            ExecuteMove(SetBoth(t, id, Running, JobRunning), id, RecordId(plan.objective, plan.title, at), actor, crash);
          }
      }
    }
  }

  lemma SetIt(t: Tables, id: TickId, status: TickStatus, job: JobStatus)
    requires id in t.ticks
    ensures id in SetBoth(t, id, status, job).ticks && SetBoth(t, id, status, job).ticks[id].status == status
  {
  }

  // What a run can count on: the checks of the budget, of the job and of the objective pass.
  lemma RunFacts(t: Tables, id: TickId)
    requires Good(t) && id in t.ticks
    ensures !Duplicated(t, id) && t.ticks[id].budget.seconds > 0 && t.ticks[id].budget.cost >= 0 && t.ticks[id].job in t.jobs
    ensures var plan := t.jobs[t.ticks[id].job].plan; plan.action == id.action && plan.objective in t.objectives && plan == t.ticks[id].job.plan
  {
    NeverDuplicated(t, id);
    assert TickOk(t, id);
  }

  lemma FreshIds(t: Tables, key: string, plan: ActionPlan)
    requires Good(t) && !KeyTaken(t, key)
    ensures TickId(key, plan.objective, plan.action) !in t.ticks && JobId(key, plan) !in t.jobs
    ensures forall x :: x in t.ticks ==> t.ticks[x].job != JobId(key, plan)
  {
    var (id, job) := (TickId(key, plan.objective, plan.action), JobId(key, plan));
    forall x | x in t.ticks ensures x.key != key && t.ticks[x].job.key != key { assert TickOk(t, x); }
  }

  lemma PlannedTick(t: Tables, t': Tables, key: string, plan: ActionPlan, budget: Budget, x: TickId)
    requires Good(t) && !KeyTaken(t, key) && t' == PlanTick(t, key, plan, budget) && t' != t && x in t'.ticks
    ensures TickOk(t', x)
  {
    FreshIds(t, key, plan);
    if x in t.ticks {
      assert TickOk(t, x);
      assert RecordsOf(t', x) == RecordsOf(t, x);
    } else {
      assert RecordsOf(t', x) == {};
    }
  }

  lemma PlanMove(t: Tables, key: string, plan: ActionPlan, budget: Budget)
    requires Good(t)
    ensures Good(PlanTick(t, key, plan, budget))
  {
    hide TickOk;
    var t' := PlanTick(t, key, plan, budget);
    if t' != t {
      FreshIds(t, key, plan);
      var (id, job) := (TickId(key, plan.objective, plan.action), JobId(key, plan));
      forall x | x in t'.ticks ensures TickOk(t', x) { PlannedTick(t, t', key, plan, budget, x); }
      forall j | j in t'.jobs ensures exists x :: x in t'.ticks && t'.ticks[x].job == j {
        if j == job {
          assert id in t'.ticks && t'.ticks[id].job == job;
        } else {
          var x :| x in t.ticks && t.ticks[x].job == j;
          assert x in t'.ticks && t'.ticks[x].job == j;
        }
      }
    }
  }

  lemma QuietMove(t: Tables, t': Tables)
    requires Good(t) && t'.ticks == t.ticks && t'.jobs == t.jobs && t'.lost == t.lost && t.objectives <= t'.objectives
    requires t'.records == t.records || exists r :: r !in t.records && t'.records == t.records[r := None]
    ensures Good(t')
  {
    forall x | x in t'.ticks ensures TickOk(t', x) {
      assert TickOk(t, x);
      assert RecordsOf(t', x) == RecordsOf(t, x);
    }
  }

  lemma StepKeeps(t: Tables, l: Label)
    requires Good(t)
    ensures Good(Apply(t, l))
  {
    hide Good, RunTick, PlanTick, SetBoth, SetStatus;
    match l
    case CreateObjective(_) => QuietMove(t, Apply(t, l));
    case CreateRecord(_) => QuietMove(t, Apply(t, l));
    case Plan(key, plan, budget) => PlanMove(t, key, plan, budget);
    case RunIt(id, at, actor, crash) => RunMove(t, id, at, actor, crash);
    case Pause(id) =>
      if id in t.ticks && t.ticks[id].status !in {Succeeded, Failed, Cancelled, Deduped} { PauseMove(t, id, Paused); }
    case Resume(id) =>
      if id in t.ticks && t.ticks[id].status == Paused { PauseMove(t, id, Planned); }
    case Kill(id) =>
      if id in t.ticks && t.ticks[id].status !in {Succeeded, Deduped} { StatusMove(t, id, Cancelled, JobCancelled); }
  }

  lemma {:induction false} RunKeeps(t: Tables, ls: seq<Label>)
    requires Good(t)
    ensures Good(Run(t, ls))
    decreases |ls|
  {
    if ls != [] {
      StepKeeps(t, ls[0]);
      RunKeeps(Apply(t, ls[0]), ls[1..]);
    }
  }

  function Reached(ls: seq<Label>): Tables {
    Run(NO_TABLES, ls)
  }

  lemma ReachedGood(ls: seq<Label>)
    ensures Good(Reached(ls))
  {
    RunKeeps(NO_TABLES, ls);
  }

  // ---- The theorems --------------------------------------------------------------------------

  // At most one tick per idempotency key. So no run ever finds a duplicate, and planning
  // under a key that is taken changes nothing, whatever else it asks for.
  lemma AtMostOneTickPerKey(ls: seq<Label>, id: TickId, plan: ActionPlan, budget: Budget)
    requires id in Reached(ls).ticks
    ensures var t := Reached(ls);
            && (forall x :: x in t.ticks && t.ticks[x].key == t.ticks[id].key ==> x == id)
            && !Duplicated(t, id) && t.ticks[id].status != Deduped && PlanTick(t, t.ticks[id].key, plan, budget) == t
  {
    ReachedGood(ls);
    assert TickOk(Reached(ls), id);
  }

  // No run of the tick died between the record and the final update.
  predicate CrashFree(ls: seq<Label>, id: TickId) {
    forall l | l in ls :: !(l.RunIt? && l.id == id && l.crash.AfterRecord?)
  }

  lemma LostStep(t: Tables, l: Label, id: TickId)
    requires LostRuns(t, id) == 0 && !(l.RunIt? && l.id == id && l.crash.AfterRecord?)
    ensures LostRuns(Apply(t, l), id) == 0
  {
  }

  lemma {:induction false} NothingLost(t: Tables, ls: seq<Label>, id: TickId)
    requires LostRuns(t, id) == 0 && CrashFree(ls, id)
    ensures LostRuns(Run(t, ls), id) == 0
    decreases |ls|
  {
    if ls != [] {
      assert ls[0] in ls;
      LostStep(t, ls[0], id);
      NothingLost(Apply(t, ls[0]), ls[1..], id);
    }
  }

  // Records are conserved over every run, crashes included: a tick has one record for each
  // of its lost runs, and one more exactly when it succeeded. Without a crash in that
  // window it has exactly one record if it succeeded, and none otherwise.
  lemma RecordLaw(ls: seq<Label>, id: TickId)
    requires id in Reached(ls).ticks
    ensures var t := Reached(ls);
            && |RecordsOf(t, id)| == LostRuns(t, id) + (if t.ticks[id].status == Succeeded then 1 else 0)
            && (CrashFree(ls, id) ==> LostRuns(t, id) == 0)
            && (id.action != CREATE_RECORD ==> RecordsOf(t, id) == {})
  {
    ReachedGood(ls);
    assert TickOk(Reached(ls), id);
    if CrashFree(ls, id) { NothingLost(NO_TABLES, ls, id); }
  }

  // The job agrees with its tick, and an action that needs approval, is denied or is not
  // supported never succeeds and never leaves a record.
  lemma JobAgrees(ls: seq<Label>, id: TickId)
    requires id in Reached(ls).ticks
    ensures var (t, tick) := (Reached(ls), Reached(ls).ticks[id]);
            && tick.job in t.jobs && Agree(tick.status, t.jobs[tick.job].status, Classify(id.action))
            && (id.action != CREATE_RECORD ==> tick.status !in {Running, Succeeded} && RecordsOf(t, id) == {})
  {
    ReachedGood(ls);
    assert TickOk(Reached(ls), id);
  }

  // Moves after which no tick is left running: the actor exists, nothing crashes, and the
  // key of the record is new.
  predicate Smooth(t: Tables, l: Label) {
    l.RunIt? && l.id in t.ticks && t.ticks[l.id].job in t.jobs ==>
      var plan := t.jobs[t.ticks[l.id].job].plan;
      l.actor && l.crash.NoCrash? && RecordId(plan.objective, plan.title, l.at) !in t.records
  }

  // Strict agreement: nothing is running between two calls.
  predicate Settled(t: Tables, id: TickId)
    requires id in t.ticks
  {
    var tick := t.ticks[id];
    tick.status != Running && (tick.job in t.jobs ==> t.jobs[tick.job].status != JobRunning)
  }

  predicate AllSettled(t: Tables) {
    forall id :: id in t.ticks ==> Settled(t, id)
  }

  // A move leaves everything settled if and only if it is no run that gets to create_record
  // and fails there.
  lemma StaysSettled(t: Tables, l: Label)
    requires Good(t) && AllSettled(t)
    ensures AllSettled(Apply(t, l)) <==>
              (l.RunIt? && l.id in t.ticks && t.ticks[l.id].status == Planned && l.id.action == CREATE_RECORD ==> Smooth(t, l))
  {
    var t' := Apply(t, l);
    if l.RunIt? && l.id in t.ticks && t.ticks[l.id].status == Planned && l.id.action == CREATE_RECORD {
      RunFacts(t, l.id);
      if !Smooth(t, l) { assert !Settled(t', l.id); }
    }
    forall id | id in t'.ticks && (l.RunIt? && l.id in t.ticks && t.ticks[l.id].status == Planned && l.id.action == CREATE_RECORD ==> Smooth(t, l))
      ensures Settled(t', id)
    {
      SettledOne(t, l, id);
    }
  }

  lemma SettledOne(t: Tables, l: Label, id: TickId)
    requires Good(t) && AllSettled(t) && id in Apply(t, l).ticks
    requires l.RunIt? && l.id in t.ticks && t.ticks[l.id].status == Planned && l.id.action == CREATE_RECORD ==> Smooth(t, l)
    ensures Settled(Apply(t, l), id)
  {
    hide Good, RunTick;
    if id in t.ticks { assert Settled(t, id); }
    match l
    case RunIt(x, at, actor, crash) => SettledRun(t, l, id);
    case Plan(key, plan, budget) => SettledPlan(t, key, plan, budget, id);
    case _ => if id in t.ticks { JobKept(t, id); }
  }

  lemma JobKept(t: Tables, id: TickId)
    requires Good(t) && id in t.ticks
    ensures t.ticks[id].job in t.jobs && t.ticks[id].job.key == id.key
  {
    assert TickOk(t, id);
  }

  lemma SettledPlan(t: Tables, key: string, plan: ActionPlan, budget: Budget, id: TickId)
    requires Good(t) && AllSettled(t) && id in PlanTick(t, key, plan, budget).ticks
    ensures Settled(PlanTick(t, key, plan, budget), id)
  {
    if !KeyTaken(t, key) { FreshIds(t, key, plan); }
    if id in t.ticks { assert Settled(t, id); }
  }

  lemma SettledRun(t: Tables, l: Label, id: TickId)
    requires Good(t) && AllSettled(t) && l.RunIt? && id in Apply(t, l).ticks
    requires l.id in t.ticks && t.ticks[l.id].status == Planned && l.id.action == CREATE_RECORD ==> Smooth(t, l)
    ensures Settled(Apply(t, l), id)
  {
    if l.id in t.ticks && t.ticks[l.id].status in {Planned, Running} {
      RunFacts(t, l.id);
      JobKept(t, l.id);
      assert Settled(t, l.id);
      if id in t.ticks {
        JobKept(t, id);
        assert Settled(t, id);
        if id != l.id { KeysDiffer(t, id, l.id); }
        SettledAfter(t, l, id);
      }
    } else {
      assert Settled(t, id);
    }
  }

  lemma KeysDiffer(t: Tables, x: TickId, y: TickId)
    requires Good(t) && x in t.ticks && y in t.ticks && x != y
    ensures t.ticks[x].job != t.ticks[y].job
  {
    assert TickOk(t, x) && TickOk(t, y);
  }

  lemma SettledAfter(t: Tables, l: Label, id: TickId)
    requires l.RunIt? && l.id in t.ticks && t.ticks[l.id].status == Planned && t.ticks[l.id].job in t.jobs && !Duplicated(t, l.id)
    requires t.jobs[t.ticks[l.id].job].plan.action == l.id.action && (l.id.action == CREATE_RECORD ==> Smooth(t, l))
    requires id in t.ticks && t.ticks[id].job in t.jobs && Settled(t, id) && (id != l.id ==> t.ticks[id].job != t.ticks[l.id].job)
    ensures id in Apply(t, l).ticks && Settled(Apply(t, l), id)
  {
    hide Duplicated, RunTick, Smooth;
    if id == l.id { SettledItself(t, l); } else { OtherSettled(t, l, id); }
  }

  lemma SettledItself(t: Tables, l: Label)
    requires l.RunIt? && l.id in t.ticks && t.ticks[l.id].status == Planned && t.ticks[l.id].job in t.jobs && !Duplicated(t, l.id)
    requires t.jobs[t.ticks[l.id].job].plan.action == l.id.action && (l.id.action == CREATE_RECORD ==> Smooth(t, l)) && Settled(t, l.id)
    ensures l.id in Apply(t, l).ticks && Settled(Apply(t, l), l.id)
  {
    hide Duplicated;
  }

  lemma OtherSettled(t: Tables, l: Label, id: TickId)
    requires l.RunIt? && l.id in t.ticks && t.ticks[l.id].job in t.jobs
    requires id in t.ticks && t.ticks[id].job in t.jobs && Settled(t, id) && id != l.id && t.ticks[id].job != t.ticks[l.id].job
    ensures id in Apply(t, l).ticks && Settled(Apply(t, l), id)
  {
    hide RunTick;
    RunTouches(t, l.id, l.at, l.actor, l.crash, id);
  }

  // Success and cancellation are for good; a failed tick can only be cancelled.
  predicate Later(status: TickStatus, status': TickStatus) {
    match status
    case Succeeded => status' == Succeeded
    case Cancelled => status' == Cancelled
    case Failed => status' in {Failed, Cancelled}
    case _ => true
  }

  lemma {:induction false} Absorbing(t: Tables, ls: seq<Label>, id: TickId)
    requires Good(t) && id in t.ticks
    ensures id in Run(t, ls).ticks && Later(t.ticks[id].status, Run(t, ls).ticks[id].status)
    decreases |ls|
  {
    if ls != [] {
      StepKeeps(t, ls[0]);
      AbsorbingStep(t, ls[0], id);
      Absorbing(Apply(t, ls[0]), ls[1..], id);
    }
  }

  predicate OtherJobs(t: Tables, t': Tables, job: JobId) {
    forall j | j in t.jobs && j != job :: j in t'.jobs && t'.jobs[j] == t.jobs[j]
  }

  lemma ExecuteTouches(t: Tables, id: TickId, record: RecordId, actor: bool, crash: Crash, x: TickId)
    requires id in t.ticks && x in t.ticks
    ensures var t' := Execute(t, id, record, actor, crash); x in t'.ticks && (x != id ==> t'.ticks[x] == t.ticks[x])
    ensures OtherJobs(t, Execute(t, id, record, actor, crash), t.ticks[id].job)
  {
  }

  lemma BothTouches(t: Tables, id: TickId, status: TickStatus, job: JobStatus, x: TickId)
    requires id in t.ticks && x in t.ticks
    ensures var t' := SetBoth(t, id, status, job); x in t'.ticks && (x != id ==> t'.ticks[x] == t.ticks[x])
    ensures OtherJobs(t, SetBoth(t, id, status, job), t.ticks[id].job) && SetBoth(t, id, status, job).ticks[id].job == t.ticks[id].job
  {
  }

  // A run changes one tick, and only when it is planned or running.
  lemma RunTouches(t: Tables, id: TickId, at: nat, actor: bool, crash: Crash, x: TickId)
    requires x in t.ticks
    ensures var t' := RunTick(t, id, at, actor, crash);
            x in t'.ticks && (x != id || t.ticks[x].status !in {Planned, Running} ==> t'.ticks[x] == t.ticks[x])
    ensures id in t.ticks ==> OtherJobs(t, RunTick(t, id, at, actor, crash), t.ticks[id].job)
  {
    hide Classify, Duplicated, Execute, SetBoth;
    if id in t.ticks && t.ticks[id].status in {Planned, Running} {
      BothTouches(t, id, Deduped, JobSucceeded, x);
      BothTouches(t, id, Failed, JobFailed, x);
      BothTouches(t, id, Failed, JobBlocked, x);
      BothTouches(t, id, Running, JobRunning, x);
      BothTouches(t, id, Running, JobRunning, id);
      if t.ticks[id].job in t.jobs {
        var plan := t.jobs[t.ticks[id].job].plan;
        ExecuteTouches(SetBoth(t, id, Running, JobRunning), id, RecordId(plan.objective, plan.title, at), actor, crash, x);
      }
    }
  }

  lemma AbsorbingStep(t: Tables, l: Label, id: TickId)
    requires Good(t) && id in t.ticks
    ensures id in Apply(t, l).ticks && Later(t.ticks[id].status, Apply(t, l).ticks[id].status)
  {
    hide Good, RunTick;
    match l
    case Plan(key, plan, _) => if !KeyTaken(t, key) { FreshIds(t, key, plan); }
    case RunIt(x, at, actor, crash) => RunTouches(t, x, at, actor, crash, id);
    case _ =>
  }

  // A crash after the commit of the record lets the tick run again: it succeeds with two
  // records of its own.
  lemma CrashRunsTwice(t: Tables, id: TickId, at: nat, at': nat)
    requires Good(t) && id in t.ticks && t.ticks[id].status == Planned && id.action == CREATE_RECORD && at != at'
    requires var plan := t.ticks[id].job.plan; RecordId(plan.objective, plan.title, at) !in t.records && RecordId(plan.objective, plan.title, at') !in t.records
    ensures var t' := Apply(Apply(t, RunIt(id, at, true, AfterRecord)), RunIt(id, at', true, NoCrash));
            id in t'.ticks && t'.ticks[id].status == Succeeded && |RecordsOf(t', id)| == |RecordsOf(t, id)| + 2
  {
    assert TickOk(t, id);
    var (l, l') := (RunIt(id, at, true, AfterRecord), RunIt(id, at', true, NoCrash));
    CrashOnce(t, id, at);
    var t1 := Apply(t, l);
    StepKeeps(t, l);
    RunFacts(t1, id);
    StepKeeps(t1, l');
    var t2 := Apply(t1, l');
    assert t2.ticks[id].status == Succeeded && t2.lost[id] == t.lost[id] + 1;
    assert TickOk(t2, id);
  }

  lemma CrashOnce(t: Tables, id: TickId, at: nat)
    requires Good(t) && id in t.ticks && t.ticks[id].status == Planned && id.action == CREATE_RECORD
    requires RecordId(t.ticks[id].job.plan.objective, t.ticks[id].job.plan.title, at) !in t.records
    ensures var t' := Apply(t, RunIt(id, at, true, AfterRecord));
            && id in t'.ticks && t'.ticks[id] == t.ticks[id].(status := Running) && id in t.lost && id in t'.lost
              && t'.lost[id] == t.lost[id] + 1
            && t'.records == t.records[RecordId(t.ticks[id].job.plan.objective, t.ticks[id].job.plan.title, at) := Some(id)]
            && t.ticks[id].job in t'.jobs && t'.jobs[t.ticks[id].job].plan == t.ticks[id].job.plan && t'.objectives == t.objectives
  {
    RunFacts(t, id);
    assert TickOk(t, id);
  }

  // A planned tick, from empty tables; so a crash does run it twice.
  lemma CrashIsReached(at: nat, at': nat)
    requires at != at'
    ensures var plan := ActionPlan(CREATE_RECORD, "objective", "title");
            var id := TickId("key", "objective", CREATE_RECORD);
            var t := Reached([CreateObjective("objective"), Plan("key", plan, Budget(1, 0)), RunIt(id, at, true, AfterRecord),
              RunIt(id, at', true, NoCrash)]);
            id in t.ticks && t.ticks[id].status == Succeeded && |RecordsOf(t, id)| == 2
  {
    hide Good, RecordsOf, RunTick;
    var plan := ActionPlan(CREATE_RECORD, "objective", "title");
    var id := TickId("key", "objective", CREATE_RECORD);
    var (l1, l2, l3, l4) := (CreateObjective("objective"), Plan("key", plan, Budget(1, 0)), RunIt(id, at, true, AfterRecord),
      RunIt(id, at', true, NoCrash));
    var t := Apply(Apply(NO_TABLES, l1), l2);
    assert Good(NO_TABLES) by { NothingPlanned(); }
    StepKeeps(NO_TABLES, l1);
    StepKeeps(Apply(NO_TABLES, l1), l2);
    assert RecordsOf(t, id) == {} by { NoRecords(t, id); }
    CrashRunsTwice(t, id, at, at');
    RunFour(NO_TABLES, l1, l2, l3, l4);
  }

  lemma NothingPlanned()
    ensures Good(NO_TABLES)
  {
  }

  lemma NoRecords(t: Tables, id: TickId)
    requires t.records == map[]
    ensures RecordsOf(t, id) == {}
  {
  }

  lemma RunFour(t: Tables, a: Label, b: Label, c: Label, d: Label)
    ensures Run(t, [a, b, c, d]) == Apply(Apply(Apply(Apply(t, a), b), c), d)
  {
    hide Apply;
    assert [a, b, c, d][1..] == [b, c, d] && [b, c, d][1..] == [c, d] && [c, d][1..] == [d] && [d][1..] == [];
    var t2 := Apply(Apply(t, a), b);
    assert Run(t2, [c, d]) == Run(Apply(t2, c), [d]);
    assert Run(Apply(t2, c), [d]) == Run(Apply(Apply(t2, c), d), []);
  }
}
