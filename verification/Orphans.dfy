/** Jobs that stay in the map without a worker: what makes them, and what becomes
    of them. */
module Orphans {
  import opened Options
  import opened Jobs
  import opened Retention
  import opened Machine
  import opened Invariants
  import opened Execution
  import opened History
  import opened Runs

  predicate Attends(t: Task, id: Id) {
    t.Live() && t.job.id == id
  }

  /** Every active record is the job of a live task. */
  ghost predicate AttendedIn(jobs: map<Id, Job>, tasks: map<Tid, Task>) {
    forall id :: id in jobs && !jobs[id].Terminal() ==> exists tid: Tid :: tid in tasks && Attends(tasks[tid], id)
  }

  ghost predicate Attended(s: State) {
    AttendedIn(s.store.jobs, s.tasks)
  }

  /** A retained active job that no worker will ever work on. */
  ghost predicate Orphan(s: State, id: Id, key: Option<Key>) {
    && id in s.store.jobs && s.store.jobs[id].key == key && !s.store.jobs[id].Terminal()
    && forall tid :: tid in s.tasks ==> !Attends(s.tasks[tid], id)
  }

  lemma OrphansAreUnattended(s: State)
    ensures Attended(s) <==> forall id, key :: !Orphan(s, id, key)
  {
    if !Attended(s) {
      var id :| id in s.store.jobs && !s.store.jobs[id].Terminal() &&
                forall tid: Tid :: !(tid in s.tasks && Attends(s.tasks[tid], id));
      assert Orphan(s, id, s.store.jobs[id].key);
    }
  }

  /** The two steps that leave a job without a worker: an admission whose save
      fails, and a live task that is dropped or panics. */
  ghost predicate Orphaning(s: State, step: Step)
    requires Sound(s) && Enabled(s, step)
  {
    || (step.Admit? && s.store.durable && !step.saveOk &&
        Retention.Admit(s.store.jobs, s.tasks[step.tid].job, s.store.limit).Admitted?)
    || (step.Abandon? && s.tasks[step.tid].Live())
  }

  // ---------------------------------------------------------------- the two causes

  /** When the save at admission fails, the caller gets an error but the record
      stays in the map without a worker. */
  lemma FailedSaveOrphansTheJob(s: State, tid: Tid)
    requires Inv(s) && At(s, tid, Planned) && s.store.durable
    requires Retention.Admit(s.store.jobs, s.tasks[tid].job, s.store.limit).Admitted?
    ensures Orphan(AfterAdmit(s, tid, false), s.tasks[tid].job.id, s.tasks[tid].job.key)
  {
    hide StoreInv, TasksOk, WorkInv, LogInv, Save, Retention.Admit, AfterAdmit, GoodTask;
    AdmittedIsNew(s, tid);
    NewJobIsActive(s, tid);
    StoreIsKeyed(s.store);
    NewJobIsInserted(s.store, s.tasks[tid].job);
    var a := Retention.Admit(s.store.jobs, s.tasks[tid].job, s.store.limit);
    var after := if a.evicted.Some? then s.log + [Evicted(a.evicted.value)] else s.log;
    AdmittedLog(s, tid, false, after, Save(s.store, a.jobs, false));
  }

  lemma NewJobIsInserted(store: Store, job: Job)
    requires StoreInv(store) && job.id !in store.jobs
    requires WellKeyed(store.jobs) && Retention.Admit(store.jobs, job, store.limit).Admitted?
    ensures var jobs := Retention.Admit(store.jobs, job, store.limit).jobs;
            WellKeyed(jobs) && job.id in jobs && jobs[job.id] == job
  {
    AdmissionKeepsHistory(store.jobs, job, store.limit);
  }

  lemma NewJobIsActive(s: State, tid: Tid)
    requires TaskInv(s) && tid in s.tasks && s.tasks[tid].job.id !in s.store.jobs
    ensures !s.tasks[tid].job.Terminal()
    ensures forall other :: other in s.tasks ==> !Attends(s.tasks[other], s.tasks[tid].job.id)
  {
    assert GoodTask(s.store, s.tasks[tid]);
    forall other | other in s.tasks ensures !Attends(s.tasks[other], s.tasks[tid].job.id) {
      assert GoodTask(s.store, s.tasks[other]);
    }
  }

  /** When a submission is dropped after its job was inserted, or its worker
      panics, the record stays in the map without a worker. */
  lemma AbandoningOrphansTheJob(s: State, tid: Tid)
    requires Inv(s) && tid in s.tasks && s.tasks[tid].Live()
    ensures Orphan(s.(tasks := s.tasks - {tid}), s.tasks[tid].job.id, s.tasks[tid].job.key)
  {
    hide StoreInv, WorkInv, LogInv;
    var t := s.tasks[tid];
    assert GoodTask(s.store, t);
    forall other | other in s.tasks && other != tid ensures !Attends(s.tasks[other], t.job.id) {
      assert Apart(s.store, t, s.tasks[other]);
    }
  }

  // ---------------------------------------------------------------- nothing else makes an orphan

  /** Live tasks go on, and no record becomes active. */
  lemma StaysAttended(jobs: map<Id, Job>, tasks: map<Tid, Task>, after: map<Id, Job>, rest: map<Tid, Task>)
    requires AttendedIn(jobs, tasks)
    requires forall id :: id in after && !after[id].Terminal() ==> id in jobs && !jobs[id].Terminal()
    requires forall tid :: tid in tasks && tasks[tid].Live() ==>
               tid in rest && rest[tid].Live() && rest[tid].job.id == tasks[tid].job.id
    ensures AttendedIn(after, rest)
  {
    forall id | id in after && !after[id].Terminal()
      ensures exists tid: Tid :: tid in rest && Attends(rest[tid], id)
    {
      var tid: Tid :| tid in tasks && Attends(tasks[tid], id);
      assert Attends(rest[tid], id);
    }
  }

  lemma AdmissionAddsOne(store: Store, job: Job)
    requires StoreInv(store) && job.id !in store.jobs
    requires WellKeyed(store.jobs) && Retention.Admit(store.jobs, job, store.limit).Admitted?
    ensures var jobs := Retention.Admit(store.jobs, job, store.limit).jobs;
            WellKeyed(jobs) && forall id :: id in jobs && id != job.id ==> id in store.jobs && jobs[id] == store.jobs[id]
  {
    AdmissionKeepsHistory(store.jobs, job, store.limit);
  }

  lemma AdmissionAttends(s: State, tid: Tid, saveOk: bool)
    requires StoreInv(s.store) && TaskInv(s) && Attended(s) && At(s, tid, Planned)
    requires Retention.Admit(s.store.jobs, s.tasks[tid].job, s.store.limit).Admitted?
    requires s.store.durable ==> saveOk
    ensures Attended(AfterAdmit(s, tid, saveOk))
  {
    hide StoreInv, TasksOk, Save, Retention.Admit, AfterAdmit;
    var t := s.tasks[tid];
    AdmittedIsNew(s, tid);
    StoreIsKeyed(s.store);
    AdmissionAddsOne(s.store, t.job);
    var a := Retention.Admit(s.store.jobs, t.job, s.store.limit);
    var after := if a.evicted.Some? then s.log + [Evicted(a.evicted.value)] else s.log;
    AdmittedLog(s, tid, saveOk, after, Save(s.store, a.jobs, saveOk));
    var r := AfterAdmit(s, tid, saveOk);
    assert r.store.jobs == a.jobs && r.tasks == s.tasks[tid := t.(pc := Pc.Admitted)];
    assert Attends(r.tasks[tid], t.job.id);
    forall id | id in a.jobs && !a.jobs[id].Terminal()
      ensures exists other: Tid :: other in r.tasks && Attends(r.tasks[other], id)
    {
      if id != t.job.id {
        var other: Tid :| other in s.tasks && Attends(s.tasks[other], id);
        assert Attends(r.tasks[other], id);
      }
    }
  }

  lemma AdmitAttends(s: State, tid: Tid, saveOk: bool)
    requires StoreInv(s.store) && TaskInv(s) && Attended(s) && At(s, tid, Planned) && WellKeyed(s.store.jobs)
    requires Retention.Admit(s.store.jobs, s.tasks[tid].job, s.store.limit).Admitted? && s.store.durable ==> saveOk
    ensures Attended(AfterAdmit(s, tid, saveOk))
  {
    hide StoreInv, TasksOk, AfterAdmit, AttendedIn, Retention.Admit;
    if Retention.Admit(s.store.jobs, s.tasks[tid].job, s.store.limit).Admitted? {
      AdmissionAttends(s, tid, saveOk);
    } else {
      TurnedAway(s, tid, saveOk);
      StaysAttended(s.store.jobs, s.tasks, s.store.jobs, s.tasks - {tid});
    }
  }

  lemma ArriveAttends(s: State, step: Step)
    requires Attended(s) && step.Arrive? && s.nextTid !in s.tasks
    ensures Attended(AfterArrive(s, step.key, step.hash, step.id, step.connection, step.route, step.now))
  {
    hide AttendedIn, EarlyReply;
    var r := AfterArrive(s, step.key, step.hash, step.id, step.connection, step.route, step.now);
    StaysAttended(s.store.jobs, s.tasks, s.store.jobs, r.tasks);
  }

  lemma RecordAttends(s: State, tid: Tid, saveOk: bool)
    requires TaskInv(s) && Attended(s) && AtEnd(s, tid) && Sound(s)
    ensures Attended(AfterRecord(s, tid, saveOk))
  {
    hide Save;
    var t := s.tasks[tid];
    assert GoodTask(s.store, t);
    var r := AfterRecord(s, tid, saveOk);
    forall id | id in r.store.jobs && !r.store.jobs[id].Terminal()
      ensures exists other: Tid :: other in r.tasks && Attends(r.tasks[other], id)
    {
      var other: Tid :| other in s.tasks && Attends(s.tasks[other], id);
      assert Attends(r.tasks[other], id);
    }
  }

  lemma GlobalAttends(s: State, step: Step)
    requires StoreInv(s.store) && TaskInv(s) && Attended(s) && s.nextTid !in s.tasks
    requires Sound(s) && Enabled(s, step) && Global(step) && !Orphaning(s, step)
    ensures Attended(Apply(s, step))
  {
    hide Apply, Enabled, AfterArrive, AfterAdmit, AfterRecord, AfterRestart, Mark, AttendedIn, StoreInv, TasksOk;
    GlobalSteps(s, step);
    match step {
      case Arrive(key, hash, id, connection, route, now) => ArriveAttends(s, step);
      case Admit(tid, saveOk) => AdmitAttends(s, tid, saveOk);
      case Record(tid, saveOk) => RecordAttends(s, tid, saveOk);
      case MarkCancelled(id, now, saveOk) => MarkAttends(s, id, now, saveOk);
      case Restart(readable) => RestartAttends(s, readable);
    }
  }

  lemma MarkAttends(s: State, id: Id, now: Time, saveOk: bool)
    requires Attended(s) && id in s.store.jobs && WellKeyed(s.store.jobs)
    ensures Attended(s.(store := Mark(s.store, id, now, saveOk)))
  {
    hide AttendedIn, Save;
    StaysAttended(s.store.jobs, s.tasks, Mark(s.store, id, now, saveOk).jobs, s.tasks);
  }

  /** After a restart there is no active record at all. */
  lemma RestartAttends(s: State, readable: bool)
    requires StoreInv(s.store)
    ensures Attended(AfterRestart(s, readable))
  {
    ReloadRestores(s.store);
  }

  lemma OwnAttends(s: State, step: Step)
    requires Attended(s) && Sound(s) && Enabled(s, step) && Own(step)
    ensures Attended(Apply(s, step))
  {
    hide Apply, Enabled, Advance, AttendedIn;
    OwnStepOnTask(s, step);
    OwnKeepsLife(s.tasks[step.tid], step);
    StaysAttended(s.store.jobs, s.tasks, s.store.jobs, Apply(s, step).tasks);
  }

  lemma OwnKeepsLife(t: Task, step: Step)
    requires Own(step) && Ready(t, step)
    ensures Advance(t, step).job == t.job && t.Live() && Advance(t, step).Live()
  {
  }

  lemma BetweenAttends(s: State, step: Step)
    requires Attended(s) && Sound(s) && Enabled(s, step) && !Global(step) && !Own(step) && !Orphaning(s, step)
    ensures Attended(Apply(s, step))
  {
    hide AttendedIn;
    BetweenKeepsTasks(s, step);
    StaysAttended(s.store.jobs, s.tasks, s.store.jobs, Apply(s, step).tasks);
  }

  /** The live tasks of `rest` are those of `tasks`, except perhaps `gone`. */
  ghost predicate SameLives(tasks: map<Tid, Task>, rest: map<Tid, Task>, gone: Option<Tid>) {
    && (forall tid :: tid in tasks && tasks[tid].Live() && Some(tid) != gone ==>
          tid in rest && rest[tid].Live() && rest[tid].job == tasks[tid].job)
    && (forall tid :: tid in rest && rest[tid].Live() ==>
          tid in tasks && tasks[tid].Live() && rest[tid].job == tasks[tid].job)
  }

  lemma OneMoves(tasks: map<Tid, Task>, tid: Tid, t: Task)
    requires tid in tasks && t.job == tasks[tid].job && t.Live() == tasks[tid].Live()
    ensures SameLives(tasks, tasks[tid := t], None)
  {
  }

  lemma OneGoes(tasks: map<Tid, Task>, tid: Tid)
    ensures SameLives(tasks, tasks - {tid}, Some(tid))
  {
  }

  lemma BetweenKeepsTasks(s: State, step: Step)
    requires Sound(s) && Enabled(s, step) && !Global(step) && !Own(step)
    ensures Apply(s, step).store == s.store
    ensures SameLives(s.tasks, Apply(s, step).tasks, if step.Abandon? then Some(step.tid) else None)
  {
    hide Apply, Enabled, Sound, SameLives;
    BetweenSteps(s, step);
    match step {
      case Register(tid) => OneMoves(s.tasks, tid, s.tasks[tid].(pc := Registered));
      case Locate(tid) => OneMoves(s.tasks, tid, AfterLocate(s, tid).tasks[tid]);
      case Spawn(tid) => OneMoves(s.tasks, tid, s.tasks[tid].(pc := Waiting));
      case Abandon(tid) => OneGoes(s.tasks, tid);
      case RaiseFlag(id) => RaiseKeepsTasks(s, s.flags[id]);
    }
  }

  lemma RaiseKeepsTasks(s: State, tid: Tid)
    ensures SameLives(s.tasks, (if tid in s.tasks then Put(s, tid, s.tasks[tid].(cancelled := true)) else s).tasks, None)
  {
    if tid in s.tasks {
      OneMoves(s.tasks, tid, s.tasks[tid].(cancelled := true));
    }
  }

  // ---------------------------------------------------------------- an orphan stays one

  lemma OrphanAdmit(s: State, tid: Tid, saveOk: bool, id: Id, key: Option<Key>)
    requires StoreInv(s.store) && TaskInv(s) && Orphan(s, id, key) && At(s, tid, Planned) && WellKeyed(s.store.jobs)
    ensures Orphan(AfterAdmit(s, tid, saveOk), id, key)
  {
    hide TasksOk, AfterAdmit;
    var t := s.tasks[tid];
    var a := Retention.Admit(s.store.jobs, t.job, s.store.limit);
    if a.Admitted? {
      AdmittedIsNew(s, tid);
      AdmissionKeepsHistory(s.store.jobs, t.job, s.store.limit);
      hide StoreInv, Save, Retention.Admit;
      var after := if a.evicted.Some? then s.log + [Evicted(a.evicted.value)] else s.log;
      AdmittedLog(s, tid, saveOk, after, Save(s.store, a.jobs, saveOk));
    } else {
      TurnedAway(s, tid, saveOk);
    }
  }

  lemma OrphanArrive(s: State, step: Step, id: Id, key: Option<Key>)
    requires Orphan(s, id, key) && step.Arrive?
    ensures Orphan(AfterArrive(s, step.key, step.hash, step.id, step.connection, step.route, step.now), id, key)
  {
  }

  lemma OrphanRecord(s: State, tid: Tid, saveOk: bool, id: Id, key: Option<Key>)
    requires Orphan(s, id, key) && AtEnd(s, tid) && Sound(s)
    ensures Orphan(AfterRecord(s, tid, saveOk), id, key)
  {
    hide Save;
    assert !Attends(s.tasks[tid], id);
  }

  lemma OrphanGlobal(s: State, step: Step, id: Id, key: Option<Key>)
    requires StoreInv(s.store) && TaskInv(s) && Orphan(s, id, key)
    requires Enabled(s, step) && Sound(s) && Global(step) && !step.Restart?
    ensures Orphan(Apply(s, step), id, key)
  {
    hide Apply, Enabled, AfterArrive, AfterAdmit, AfterRecord, StoreInv, TasksOk;
    GlobalSteps(s, step);
    match step {
      case Arrive(k, hash, newId, connection, route, now) => OrphanArrive(s, step, id, key);
      case Admit(tid, saveOk) => OrphanAdmit(s, tid, saveOk, id, key);
      case Record(tid, saveOk) => OrphanRecord(s, tid, saveOk, id, key);
      case MarkCancelled(other, now, saveOk) =>
    }
  }

  lemma OrphanOther(s: State, step: Step, id: Id, key: Option<Key>)
    requires Orphan(s, id, key) && Enabled(s, step) && Sound(s) && !Global(step)
    ensures Orphan(Apply(s, step), id, key)
  {
    hide Apply, Enabled, Sound;
    if Own(step) {
      hide Advance;
      OwnStepOnTask(s, step);
      OwnKeepsLife(s.tasks[step.tid], step);
      assert !Attends(s.tasks[step.tid], id);
    } else {
      BetweenKeepsTasks(s, step);
      assert forall tid :: tid in s.tasks && s.tasks[tid].Live() ==> !Attends(s.tasks[tid], id);
    }
  }

  lemma OrphanStep(s: State, step: Step, id: Id, key: Option<Key>)
    requires Inv(s) && Orphan(s, id, key) && Enabled(s, step) && Sound(s) && !step.Restart?
    ensures Orphan(Apply(s, step), id, key)
  {
    hide Orphan, Apply, Enabled, StoreInv, TasksOk, WorkInv, LogInv;
    if Global(step) {
      OrphanGlobal(s, step, id, key);
    } else {
      OrphanOther(s, step, id, key);
    }
  }

  // ---------------------------------------------------------------- an orphan is never executed

  /** From `start` on, no worker starts for the id or, if there is one, the key. */
  predicate NoStart(log: seq<Event>, start: nat, id: Id, key: Option<Key>) {
    forall i :: start <= i < |log| && log[i].Started? ==> log[i].id != id && (key.Some? ==> log[i].key != key)
  }

  ghost predicate Extends(before: seq<Event>, after: seq<Event>, id: Id, key: Option<Key>) {
    before <= after && NoStart(after, |before|, id, key)
  }

  lemma LogOfAdmit(s: State, tid: Tid, saveOk: bool, id: Id, key: Option<Key>)
    requires At(s, tid, Planned) && WellKeyed(s.store.jobs)
    ensures Extends(s.log, AfterAdmit(s, tid, saveOk).log, id, key)
  {
    hide Save, Retention.Admit, AfterAdmit, WellKeyed;
    var a := Retention.Admit(s.store.jobs, s.tasks[tid].job, s.store.limit);
    if a.Admitted? {
      AdmittedIsKeyed(s.store.jobs, s.tasks[tid].job, s.store.limit);
      var after := if a.evicted.Some? then s.log + [Evicted(a.evicted.value)] else s.log;
      AdmittedLog(s, tid, saveOk, after, Save(s.store, a.jobs, saveOk));
    } else {
      TurnedAway(s, tid, saveOk);
    }
  }

  lemma LogOfGlobal(s: State, step: Step, id: Id, key: Option<Key>)
    requires Enabled(s, step) && Sound(s) && Global(step)
    ensures Extends(s.log, Apply(s, step).log, id, key)
  {
    hide Apply, Enabled, AfterAdmit, Save, Load;
    GlobalSteps(s, step);
    if step.Admit? {
      LogOfAdmit(s, step.tid, step.saveOk, id, key);
    }
  }

  /** A live task for the key of a record is a task for that record. */
  lemma SameKeySameJob(s: State, tid: Tid, id: Id)
    requires StoreInv(s.store) && TaskInv(s) && tid in s.tasks && s.tasks[tid].Live()
    requires id in s.store.jobs && s.store.jobs[id].key.Some? && s.tasks[tid].job.key == s.store.jobs[id].key
    ensures s.tasks[tid].job.id == id
  {
    assert GoodTask(s.store, s.tasks[tid]);
  }

  lemma LogOfOther(s: State, step: Step, id: Id, key: Option<Key>)
    requires StoreInv(s.store) && TaskInv(s) && Orphan(s, id, key)
    requires Enabled(s, step) && Sound(s) && !Global(step)
    ensures Extends(s.log, Apply(s, step).log, id, key)
  {
    hide StoreInv, TasksOk, Advance;
    if step.Spawn? {
      assert !Attends(s.tasks[step.tid], id);
      if key.Some? && s.tasks[step.tid].job.key == key {
        SameKeySameJob(s, step.tid, id);
      }
    }
  }

  lemma LogOfStep(s: State, step: Step, id: Id, key: Option<Key>)
    requires Inv(s) && Orphan(s, id, key) && Enabled(s, step) && Sound(s)
    ensures Extends(s.log, Apply(s, step).log, id, key)
  {
    hide Apply, Enabled, Orphan, Extends, StoreInv, TasksOk, WorkInv, LogInv;
    if Global(step) {
      LogOfGlobal(s, step, id, key);
    } else {
      LogOfOther(s, step, id, key);
    }
  }

  ghost predicate OneProcess(steps: seq<Step>) {
    forall i :: 0 <= i < |steps| ==> !steps[i].Restart?
  }

  /** Until the service restarts, an orphan is never executed, never terminal and
      never evicted, and its key, if it has one, starts no other worker. */
  lemma {:induction false} OrphansNeverExecute(s: State, steps: seq<Step>, t: State, id: Id, key: Option<Key>)
    requires Inv(s) && Orphan(s, id, key) && Reaches(s, steps, t) && OneProcess(steps)
    ensures Orphan(t, id, key) && Extends(s.log, t.log, id, key)
    decreases |steps|
  {
    hide Inv, Orphan, Apply, Enabled;
    if steps != [] {
      var next := Apply(s, steps[0]);
      InvKept(s, steps[0]);
      OrphanStep(s, steps[0], id, key);
      LogOfStep(s, steps[0], id, key);
      OrphansNeverExecute(next, steps[1..], t, id, key);
      assert forall i :: |s.log| <= i < |next.log| ==> t.log[i] == next.log[i];
    }
  }

  // ---------------------------------------------------------------- exactly when there is an orphan

  lemma AttendedStep(s: State, step: Step)
    requires Inv(s) && Attended(s) && Sound(s) && Enabled(s, step) && !Orphaning(s, step)
    ensures Attended(Apply(s, step))
  {
    assert s.nextTid !in s.tasks;
    hide Apply, Enabled, AttendedIn, Orphaning, StoreInv, TasksOk, WorkInv, LogInv;
    if Global(step) {
      GlobalAttends(s, step);
    } else if Own(step) {
      OwnAttends(s, step);
    } else {
      BetweenAttends(s, step);
    }
  }

  lemma OrphaningStep(s: State, step: Step) returns (id: Id, key: Option<Key>)
    requires Inv(s) && Sound(s) && Enabled(s, step) && Orphaning(s, step)
    ensures Orphan(Apply(s, step), id, key)
  {
    id, key := s.tasks[step.tid].job.id, s.tasks[step.tid].job.key;
    hide Inv, Orphan, AfterAdmit;
    if step.Admit? {
      FailedSaveOrphansTheJob(s, step.tid);
    } else {
      AbandoningOrphansTheJob(s, step.tid);
    }
  }

  /** No step of the run makes an orphan. */
  ghost predicate Faultless(s: State, steps: seq<Step>)
    decreases |steps|
  {
    steps != [] ==>
      && Sound(s) && Enabled(s, steps[0]) && !Orphaning(s, steps[0])
      && Faultless(Apply(s, steps[0]), steps[1..])
  }

  /** Over all runs: where every admission of a durable service saves and no live
      task is abandoned, every active record is the job of a live task. */
  lemma {:induction false} FaultlessRunsAreAttended(s: State, steps: seq<Step>, t: State)
    requires Inv(s) && Attended(s) && Reaches(s, steps, t) && Faultless(s, steps)
    ensures Attended(t)
    decreases |steps|
  {
    hide Inv, Attended, Apply, Enabled, Orphaning;
    if steps != [] {
      InvKept(s, steps[0]);
      AttendedStep(s, steps[0]);
      FaultlessRunsAreAttended(Apply(s, steps[0]), steps[1..], t);
    }
  }

  /** Within one process every active record is the job of a live task exactly when
      no admission failed to save and no live task was abandoned. */
  lemma {:induction false} AttendedExactlyWhenFaultless(s: State, steps: seq<Step>, t: State)
    requires Inv(s) && Attended(s) && Reaches(s, steps, t) && OneProcess(steps)
    ensures Attended(t) <==> Faultless(s, steps)
    decreases |steps|
  {
    hide Inv, Attended, Orphan, Apply, Enabled, Orphaning;
    if steps != [] {
      var next := Apply(s, steps[0]);
      InvKept(s, steps[0]);
      if Orphaning(s, steps[0]) {
        var id, key := OrphaningStep(s, steps[0]);
        OrphansNeverExecute(next, steps[1..], t, id, key);
        OrphansAreUnattended(t);
      } else {
        AttendedStep(s, steps[0]);
        AttendedExactlyWhenFaultless(next, steps[1..], t);
      }
    }
  }

  /** The service starts attended. */
  lemma AttendedInitially(s: State)
    requires Initial(s)
    ensures Inv(s) && Attended(s)
  {
    InvInitially(s);
  }
}
