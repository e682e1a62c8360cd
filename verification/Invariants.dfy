/** What every step of the executor keeps. */
module Invariants {
  import opened Options
  import opened Jobs
  import opened Retention
  import opened Machine

  // ---------------------------------------------------------------- the job map and the snapshot

  /** A cloud job carries its own id as key; every other job has a generated id. */
  predicate Owned(store: Store, job: Job) {
    if job.key.Some? && job.key.value.Cloud? then job.key.value.id == job.id && job.id in store.clouds
    else job.id in store.locals
  }

  ghost predicate GoodMap(store: Store, jobs: map<Id, Job>) {
    && WellKeyed(jobs) && UniqueKeys(jobs)
    && |jobs| <= store.limit
    && (forall id :: id in jobs ==> jobs[id].state != Running && Owned(store, jobs[id]))
  }

  ghost predicate StoreInv(store: Store) {
    && store.locals !! store.clouds
    && GoodMap(store, store.jobs)
    && GoodMap(store, store.saved)
    && (store.disk.Some? ==> store.disk.value == Snapshot(store.saved, store.limit))
    && (store.disk.None? ==> store.saved == map[])
  }

  lemma StoreIsKeyed(store: Store)
    requires StoreInv(store)
    ensures WellKeyed(store.jobs)
  {
  }

  lemma GoodMapUpdate(store: Store, jobs: map<Id, Job>, job: Job)
    requires GoodMap(store, jobs) && job.id in jobs
    requires job.key == jobs[job.id].key && job.state != Running
    ensures GoodMap(store, jobs[job.id := job])
  {
  }

  lemma SaveKeepsStore(store: Store, jobs: map<Id, Job>, saveOk: bool)
    requires StoreInv(store) && GoodMap(store, jobs)
    ensures StoreInv(Save(store, jobs, saveOk))
  {
  }

  lemma UseIdKeepsStore(store: Store, id: Id, key: Option<Key>)
    requires StoreInv(store) && id !in store.locals
    requires key.Some? && key.value.Cloud? ==> key.value.id == id
    requires id in store.clouds ==> key == Some(Cloud(id))
    ensures StoreInv(UseId(store, id, key))
  {
  }

  lemma InterruptedIsGood(store: Store, jobs: map<Id, Job>, restored: map<Id, Job>)
    requires GoodMap(store, jobs)
    requires restored == map id | id in jobs :: Interrupted(jobs[id])
    ensures GoodMap(store, restored)
  {
    assert restored.Keys == jobs.Keys;
    forall id | id in restored ensures Owned(store, restored[id]) {
      assert Owned(store, jobs[id]);
    }
    forall a, b | a in restored && b in restored && restored[a].key.Some? && restored[a].key == restored[b].key ensures a == b {
      assert jobs[a].key == jobs[b].key;
    }
  }

  /** A restart that can read the snapshot gets back what was saved. */
  lemma ReloadRestores(store: Store)
    requires StoreInv(store)
    ensures store.disk.Some? ==> Reload(store, true).jobs == map id | id in store.saved :: Interrupted(store.saved[id])
    ensures store.disk.None? ==> store.saved == map[]
  {
    RestartKeepsEverything(store.saved, store.limit);
  }

  lemma ReloadKeepsStore(store: Store, readable: bool)
    requires StoreInv(store)
    ensures StoreInv(Reload(store, readable))
  {
    var after := Reload(store, readable);
    if readable && store.disk.Some? {
      ReloadRestores(store);
      InterruptedIsGood(store, store.saved, after.jobs);
    }
    assert GoodMap(after, store.saved) && GoodMap(after, after.jobs);
  }

  lemma AdmissionKeepsStore(store: Store, job: Job, saveOk: bool)
    requires StoreInv(store) && job.id !in store.jobs && Owned(store, job) && job.state != Running
    requires Retention.Admit(store.jobs, job, store.limit).Admitted?
    ensures StoreInv(Save(store, Retention.Admit(store.jobs, job, store.limit).jobs, saveOk))
  {
    AdmissionKeepsHistory(store.jobs, job, store.limit);
    var after := Retention.Admit(store.jobs, job, store.limit).jobs;
    assert GoodMap(store, after);
    SaveKeepsStore(store, after, saveOk);
  }

  // ---------------------------------------------------------------- tasks

  ghost predicate Present(jobs: map<Id, Job>, job: Job) {
    job.id in jobs && jobs[job.id].key == job.key && jobs[job.id].requestHash == job.requestHash
  }

  ghost predicate Active(store: Store, job: Job) {
    && Present(store.jobs, job) && !store.jobs[job.id].Terminal()
    && (store.durable ==> Present(store.saved, job))
  }

  ghost predicate GoodTask(store: Store, t: Task) {
    && Owned(store, t.job) && t.job.state == Queued
    && t.running.id == t.job.id && t.running.key == t.job.key && t.running.requestHash == t.job.requestHash
    && (t.pc.Planned? && t.job.id in store.locals ==> t.job.id !in store.jobs)
    && (t.Live() ==> Active(store, t.job))
    && (t.pc.Decided? ==> t.running.Terminal())
  }

  ghost predicate Apart(store: Store, a: Task, b: Task) {
    && (a.Live() && b.Live() ==> a.job.id != b.job.id)
    && (a.job.id == b.job.id ==> a.job.id in store.clouds)
  }

  ghost predicate TasksOk(store: Store, tasks: map<Tid, Task>, nextTid: Tid) {
    && (forall tid :: tid in tasks ==> tid < nextTid && GoodTask(store, tasks[tid]))
    && (forall a, b :: a in tasks && b in tasks && a != b ==> Apart(store, tasks[a], tasks[b]))
  }

  /** Every live worker's job is in the shared map and not terminal there, and
      no two live tasks share a job. */
  ghost predicate TaskInv(s: State) {
    TasksOk(s.store, s.tasks, s.nextTid)
  }

  /** A change of one task that leaves its job alone. */
  lemma PutKeepsTasks(store: Store, tasks: map<Tid, Task>, next: Tid, tid: Tid, t: Task)
    requires TasksOk(store, tasks, next) && tid in tasks
    requires t.job == tasks[tid].job && (t.Live() ==> tasks[tid].Live()) && GoodTask(store, t)
    ensures TasksOk(store, tasks[tid := t], next)
  {
  }

  /** A change of the store that every task survives. */
  lemma StoreKeepsTasks(store: Store, tasks: map<Tid, Task>, next: Tid, after: Store)
    requires TasksOk(store, tasks, next) && store.clouds <= after.clouds
    requires forall tid :: tid in tasks ==> GoodTask(after, tasks[tid])
    ensures TasksOk(after, tasks, next)
  {
  }

  lemma DropKeepsTasks(store: Store, tasks: map<Tid, Task>, next: Tid, tid: Tid)
    requires TasksOk(store, tasks, next)
    ensures TasksOk(store, tasks - {tid}, next)
  {
  }

  lemma AddKeepsTasks(store: Store, tasks: map<Tid, Task>, next: Tid, tid: Tid, t: Task)
    requires TasksOk(store, tasks, next) && tid !in tasks && tid < next && GoodTask(store, t)
    requires forall other :: other in tasks ==> Apart(store, t, tasks[other])
    ensures TasksOk(store, tasks[tid := t], next)
  {
  }

  lemma NewIdIsNowhere(store: Store, id: Id, key: Option<Key>, t: Task)
    requires StoreInv(store) && GoodTask(store, t) && id !in store.locals
    requires key.Some? && key.value.Cloud? ==> key.value.id == id
    requires id in store.clouds ==> key == Some(Cloud(id))
    ensures GoodTask(UseId(store, id, key), t)
    ensures t.job.id == id ==> id in UseId(store, id, key).clouds
  {
  }

  lemma NewTaskIsGood(store: Store, id: Id, key: Option<Key>, t: Task)
    requires StoreInv(store) && id !in store.locals
    requires key.Some? && key.value.Cloud? ==> key.value.id == id
    requires id in store.clouds ==> key == Some(Cloud(id))
    requires t.job.id == id && t.job.key == key && t.job.state == Queued && t.running == t.job && t.pc.Planned?
    ensures GoodTask(UseId(store, id, key), t)
  {
  }

  lemma ArriveKeepsTasks(store: Store, tasks: map<Tid, Task>, next: Tid, id: Id, key: Option<Key>, t: Task)
    requires StoreInv(store) && TasksOk(store, tasks, next) && id !in store.locals
    requires key.Some? && key.value.Cloud? ==> key.value.id == id
    requires id in store.clouds ==> key == Some(Cloud(id))
    requires t.job.id == id && t.job.key == key && t.job.state == Queued && t.running == t.job && t.pc.Planned?
    ensures TasksOk(UseId(store, id, key), tasks, next + 1)
    ensures TasksOk(UseId(store, id, key), tasks[next := t], next + 1)
  {
    var after := UseId(store, id, key);
    NewTaskIsGood(store, id, key, t);
    forall tid | tid in tasks ensures GoodTask(after, tasks[tid]) && Apart(after, t, tasks[tid]) {
      NewIdIsNowhere(store, id, key, tasks[tid]);
    }
    StoreKeepsTasks(store, tasks, next + 1, after);
    AddKeepsTasks(after, tasks, next + 1, next, t);
  }

  lemma ArriveKept(s: State, step: Step)
    requires StoreInv(s.store) && TaskInv(s) && step.Arrive? && Enabled(s, step)
    ensures var r := AfterArrive(s, step.key, step.hash, step.id, step.connection, step.route, step.now);
      StoreInv(r.store) && TaskInv(r)
  {
    UseIdKeepsStore(s.store, step.id, step.key);
    var job := NewJob(step.id, step.key, if step.key.Some? then Some(step.hash) else None, step.now);
    var t := NewTask(job, step.connection, step.route);
    ArriveKeepsTasks(s.store, s.tasks, s.nextTid, step.id, step.key, t);
    var r := AfterArrive(s, step.key, step.hash, step.id, step.connection, step.route, step.now);
    assert r.store == UseId(s.store, step.id, step.key) && r.nextTid == s.nextTid + 1;
    assert r.tasks == s.tasks || r.tasks == s.tasks[s.nextTid := t];
  }

  lemma PlannedIsNew(store: Store, t: Task)
    requires StoreInv(store) && GoodTask(store, t) && t.pc.Planned?
    requires t.job.key.Some? ==> !HasKey(store.jobs, t.job.key.value)
    ensures t.job.id !in store.jobs
  {
  }

  lemma AdmittedIsNew(s: State, tid: Tid)
    requires StoreInv(s.store) && TaskInv(s) && At(s, tid, Planned)
    requires Retention.Admit(s.store.jobs, s.tasks[tid].job, s.store.limit).Admitted?
    ensures s.tasks[tid].job.id !in s.store.jobs
  {
  }

  lemma TurnedAway(s: State, tid: Tid, saveOk: bool)
    requires At(s, tid, Planned) && WellKeyed(s.store.jobs)
    requires !Retention.Admit(s.store.jobs, s.tasks[tid].job, s.store.limit).Admitted?
    ensures var r := AfterAdmit(s, tid, saveOk);
      && |r.log| == |s.log| + 1 && r.log[|s.log|].Answered? && r.log[|s.log|].key == s.tasks[tid].job.key
      && (r.log[|s.log|].answer.Conflicted? ==> Retention.Admit(s.store.jobs, s.tasks[tid].job, s.store.limit).Conflict?)
      && r == s.(tasks := s.tasks - {tid}, log := s.log + [r.log[|s.log|]])
  {
  }

  lemma AdmittedLog(s: State, tid: Tid, saveOk: bool, after: seq<Event>, store: Store)
    requires WellKeyed(s.store.jobs) && At(s, tid, Planned)
    requires var a := Retention.Admit(s.store.jobs, s.tasks[tid].job, s.store.limit);
      && a.Admitted? && WellKeyed(a.jobs) && store == Save(s.store, a.jobs, saveOk)
      && after == if a.evicted.Some? then s.log + [Evicted(a.evicted.value)] else s.log
    ensures AfterAdmit(s, tid, saveOk).store == store
    ensures s.store.durable && !saveOk ==>
      && AfterAdmit(s, tid, saveOk).tasks == s.tasks - {tid}
      && AfterAdmit(s, tid, saveOk).log == after + [Answered(tid, s.tasks[tid].job.key, s.tasks[tid].job.requestHash, SaveFailed)]
    ensures (s.store.durable ==> saveOk) ==>
      && AfterAdmit(s, tid, saveOk).tasks == s.tasks[tid := s.tasks[tid].(pc := Pc.Admitted)]
      && AfterAdmit(s, tid, saveOk).log == after
  {
  }

  lemma AdmittedIsKeyed(jobs: map<Id, Job>, job: Job, limit: nat)
    requires WellKeyed(jobs) && Retention.Admit(jobs, job, limit).Admitted?
    ensures WellKeyed(Retention.Admit(jobs, job, limit).jobs)
  {
  }

  lemma AdmitKeepsTask(store: Store, job: Job, saveOk: bool, t: Task)
    requires StoreInv(store) && Owned(store, job) && job.id !in store.jobs
    requires Retention.Admit(store.jobs, job, store.limit).Admitted?
    requires GoodTask(store, t) && (t.job.id == job.id ==> t.job.id in store.clouds)
    ensures GoodTask(Save(store, Retention.Admit(store.jobs, job, store.limit).jobs, saveOk), t)
  {
  }

  lemma AdmittedIsGood(store: Store, t: Task, saveOk: bool)
    requires StoreInv(store) && GoodTask(store, t) && t.pc.Planned? && t.job.id !in store.jobs
    requires Retention.Admit(store.jobs, t.job, store.limit).Admitted? && (store.durable ==> saveOk)
    ensures GoodTask(Save(store, Retention.Admit(store.jobs, t.job, store.limit).jobs, saveOk), t.(pc := Pc.Admitted))
  {
  }

  lemma AdmitKeepsOthers(store: Store, tasks: map<Tid, Task>, next: Tid, tid: Tid, saveOk: bool)
    requires StoreInv(store) && TasksOk(store, tasks, next) && tid in tasks && tasks[tid].pc.Planned?
    requires tasks[tid].job.id !in store.jobs
    requires Retention.Admit(store.jobs, tasks[tid].job, store.limit).Admitted?
    ensures TasksOk(Save(store, Retention.Admit(store.jobs, tasks[tid].job, store.limit).jobs, saveOk), tasks - {tid}, next)
  {
    var t := tasks[tid];
    var after := Save(store, Retention.Admit(store.jobs, t.job, store.limit).jobs, saveOk);
    var rest := tasks - {tid};
    DropKeepsTasks(store, tasks, next, tid);
    forall other | other in rest ensures GoodTask(after, rest[other]) {
      assert Apart(store, t, tasks[other]);
      AdmitKeepsTask(store, t.job, saveOk, tasks[other]);
    }
    StoreKeepsTasks(store, rest, next, after);
  }

  lemma AdmittedIsAlone(store: Store, tasks: map<Tid, Task>, next: Tid, tid: Tid, after: Store)
    requires TasksOk(store, tasks, next) && tid in tasks && tasks[tid].pc.Planned? && tasks[tid].job.id !in store.jobs
    requires store.clouds <= after.clouds
    ensures forall other | other in tasks - {tid} :: Apart(after, tasks[tid].(pc := Pc.Admitted), (tasks - {tid})[other])
  {
    forall other | other in tasks - {tid} ensures Apart(after, tasks[tid].(pc := Pc.Admitted), tasks[other]) {
      assert Apart(store, tasks[tid], tasks[other]);
      AdmittedIsApart(store, after, tasks[tid], tasks[other]);
    }
  }

  lemma TasksAreGood(store: Store, tasks: map<Tid, Task>, next: Tid, tid: Tid)
    requires TasksOk(store, tasks, next) && tid in tasks
    ensures GoodTask(store, tasks[tid])
  {
  }

  lemma PutAdmitted(store: Store, tasks: map<Tid, Task>, next: Tid, tid: Tid, after: Store)
    requires TasksOk(store, tasks, next) && tid in tasks && tasks[tid].pc.Planned? && tasks[tid].job.id !in store.jobs
    requires store.clouds <= after.clouds && TasksOk(after, tasks - {tid}, next)
    requires GoodTask(after, tasks[tid].(pc := Pc.Admitted))
    ensures TasksOk(after, tasks[tid := tasks[tid].(pc := Pc.Admitted)], next)
  {
    hide GoodTask, Apart;
    var live := tasks[tid].(pc := Pc.Admitted);
    AdmittedIsAlone(store, tasks, next, tid, after);
    AddKeepsTasks(after, tasks - {tid}, next, tid, live);
    assert tasks[tid := live] == (tasks - {tid})[tid := live];
  }

  lemma AdmitKeepsTasks(store: Store, tasks: map<Tid, Task>, next: Tid, tid: Tid, saveOk: bool)
    requires StoreInv(store) && TasksOk(store, tasks, next) && tid in tasks && tasks[tid].pc.Planned?
    requires tasks[tid].job.id !in store.jobs && (store.durable ==> saveOk)
    requires Retention.Admit(store.jobs, tasks[tid].job, store.limit).Admitted?
    ensures TasksOk(Save(store, Retention.Admit(store.jobs, tasks[tid].job, store.limit).jobs, saveOk),
                    tasks[tid := tasks[tid].(pc := Pc.Admitted)], next)
  {
    var t := tasks[tid];
    var after := Save(store, Retention.Admit(store.jobs, t.job, store.limit).jobs, saveOk);
    hide StoreInv, TasksOk, Save, Retention.Admit, GoodTask;
    AdmitKeepsOthers(store, tasks, next, tid, saveOk);
    assert GoodTask(store, t) by { TasksAreGood(store, tasks, next, tid); }
    AdmittedIsGood(store, t, saveOk);
    PutAdmitted(store, tasks, next, tid, after);
  }

  lemma AdmitKept(s: State, tid: Tid, saveOk: bool)
    requires StoreInv(s.store) && TaskInv(s) && At(s, tid, Planned)
    ensures StoreInv(AfterAdmit(s, tid, saveOk).store) && TaskInv(AfterAdmit(s, tid, saveOk))
  {
    hide StoreInv, TasksOk, GoodTask, Save, Retention.Admit, AfterAdmit;
    var t := s.tasks[tid];
    StoreIsKeyed(s.store);
    var a := Retention.Admit(s.store.jobs, t.job, s.store.limit);
    if a.Admitted? {
      AdmittedIsNew(s, tid);
      PlannedIsOwned(s, tid);
      AdmissionKeepsStore(s.store, t.job, saveOk);
      AdmittedIsKeyed(s.store.jobs, t.job, s.store.limit);
      var after := if a.evicted.Some? then s.log + [Evicted(a.evicted.value)] else s.log;
      AdmittedLog(s, tid, saveOk, after, Save(s.store, a.jobs, saveOk));
      AdmitKeepsOthers(s.store, s.tasks, s.nextTid, tid, saveOk);
      if s.store.durable ==> saveOk {
        AdmitKeepsTasks(s.store, s.tasks, s.nextTid, tid, saveOk);
      }
    } else {
      TurnedAway(s, tid, saveOk);
      DropKeepsTasks(s.store, s.tasks, s.nextTid, tid);
    }
  }

  lemma PlannedIsOwned(s: State, tid: Tid)
    requires TaskInv(s) && At(s, tid, Planned)
    ensures Owned(s.store, s.tasks[tid].job) && s.tasks[tid].job.state == Queued
  {
    assert GoodTask(s.store, s.tasks[tid]);
  }

  lemma AdmittedIsApart(store: Store, after: Store, t: Task, other: Task)
    requires GoodTask(store, other) && Apart(store, t, other) && t.job.id !in store.jobs && store.clouds <= after.clouds
    ensures Apart(after, t.(pc := Pc.Admitted), other)
  {
  }

  lemma RecordKeepsTasks(s: State, tid: Tid, saveOk: bool)
    requires StoreInv(s.store) && TaskInv(s) && AtEnd(s, tid)
    ensures s.tasks[tid].running.id == s.tasks[tid].job.id
    ensures StoreInv(AfterRecord(s, tid, saveOk).store) && TaskInv(AfterRecord(s, tid, saveOk))
  {
    var t := s.tasks[tid];
    assert GoodTask(s.store, t);
    var jobs := s.store.jobs[t.job.id := t.running];
    GoodMapUpdate(s.store, s.store.jobs, t.running);
    SaveKeepsStore(s.store, jobs, saveOk);
    var store := Save(s.store, jobs, saveOk);
    var done := t.(pc := Recorded);
    PutKeepsTasks(s.store, s.tasks, s.nextTid, tid, done);
    var tasks := s.tasks[tid := done];
    forall other | other in tasks ensures GoodTask(store, tasks[other]) {
      assert other != tid ==> GoodTask(s.store, s.tasks[other]) && Apart(s.store, t, s.tasks[other]);
    }
    StoreKeepsTasks(s.store, tasks, s.nextTid, store);
  }

  lemma MarkKeepsTasks(s: State, id: Id, now: Time, saveOk: bool)
    requires StoreInv(s.store) && TaskInv(s) && id in s.store.jobs
    ensures StoreInv(Mark(s.store, id, now, saveOk)) && TasksOk(Mark(s.store, id, now, saveOk), s.tasks, s.nextTid)
  {
    var jobs := s.store.jobs[id := s.store.jobs[id].RequestCancel(now)];
    GoodMapUpdate(s.store, s.store.jobs, s.store.jobs[id].RequestCancel(now));
    SaveKeepsStore(s.store, jobs, saveOk);
    var store := Save(s.store, jobs, saveOk);
    forall tid | tid in s.tasks ensures GoodTask(store, s.tasks[tid]) {
      assert GoodTask(s.store, s.tasks[tid]);
    }
    StoreKeepsTasks(s.store, s.tasks, s.nextTid, store);
  }

  lemma AdvanceKeepsTask(store: Store, t: Task, step: Step)
    requires GoodTask(store, t) && Own(step) && Ready(t, step)
    ensures var r := Advance(t, step); r.job == t.job && (r.Live() ==> t.Live()) && GoodTask(store, r)
  {
  }

  lemma InvSound(s: State)
    requires StoreInv(s.store) && TaskInv(s)
    ensures Sound(s)
  {
  }

  /** Steps that change the store. */
  predicate Global(step: Step) {
    step.Arrive? || step.Admit? || step.Record? || step.MarkCancelled? || step.Restart?
  }

  /** What a step that changes the store amounts to. */
  lemma GlobalSteps(s: State, step: Step)
    requires Enabled(s, step) && Global(step) && Sound(s)
    ensures match step
      case Arrive(key, hash, id, connection, route, now) =>
        Apply(s, step) == AfterArrive(s, key, hash, id, connection, route, now)
      case Admit(tid, saveOk) => At(s, tid, Planned) && Apply(s, step) == AfterAdmit(s, tid, saveOk)
      case Record(tid, saveOk) => AtEnd(s, tid) && Apply(s, step) == AfterRecord(s, tid, saveOk)
      case MarkCancelled(id, now, saveOk) =>
        id in s.store.jobs && Apply(s, step) == s.(store := Mark(s.store, id, now, saveOk))
      case Restart(readable) => Apply(s, step) == AfterRestart(s, readable)
      case _ => true
  {
    hide AfterArrive, AfterAdmit, AfterRecord, Mark, AfterRestart;
  }

  /** A step that a worker takes on its own changes its task and nothing else. */
  lemma OwnStepOnTask(s: State, step: Step)
    requires Enabled(s, step) && Sound(s) && Own(step)
    ensures step.tid in s.tasks && Ready(s.tasks[step.tid], step)
    ensures Apply(s, step) == Put(s, step.tid, Advance(s.tasks[step.tid], step))
  {
    hide AfterArrive, AfterAdmit, AfterRegister, AfterLocate, AfterSpawn, AfterRecord, AfterRestart, Mark, Advance, Ready;
  }

  /** What a step that neither changes the store nor is a worker's own amounts to. */
  lemma BetweenSteps(s: State, step: Step)
    requires Sound(s) && Enabled(s, step) && !Global(step) && !Own(step)
    ensures match step
      case Register(tid) => At(s, tid, Pc.Admitted) && Apply(s, step) == AfterRegister(s, tid)
      case Locate(tid) => At(s, tid, Registered) && Apply(s, step) == AfterLocate(s, tid)
      case Spawn(tid) => At(s, tid, Located) && Apply(s, step) == AfterSpawn(s, tid)
      case Abandon(tid) => Apply(s, step) == s.(tasks := s.tasks - {tid})
      case RaiseFlag(id) =>
        id in s.flags &&
        var tid := s.flags[id];
        Apply(s, step) == if tid in s.tasks then Put(s, tid, s.tasks[tid].(cancelled := true)) else s
      case _ => false
  {
    hide AfterRegister, AfterLocate, AfterSpawn;
  }

  lemma NoTasks(store: Store, next: Tid)
    ensures TasksOk(store, map[], next)
  {
  }

  lemma GlobalStepKept(s: State, step: Step)
    requires StoreInv(s.store) && TaskInv(s) && Enabled(s, step) && Global(step) && Sound(s)
    ensures StoreInv(Apply(s, step).store) && TaskInv(Apply(s, step))
  {
    hide Apply, Enabled, AfterArrive, AfterAdmit, AfterRecord, Mark, Reload, StoreInv, TasksOk;
    GlobalSteps(s, step);
    match step {
      case Arrive(key, hash, id, connection, route, now) => ArriveKept(s, step);
      case Admit(tid, saveOk) => AdmitKept(s, tid, saveOk);
      case Record(tid, saveOk) => RecordKeepsTasks(s, tid, saveOk);
      case MarkCancelled(id, now, saveOk) => MarkKeepsTasks(s, id, now, saveOk);
      case Restart(readable) =>
        ReloadKeepsStore(s.store, readable);
        NoTasks(Reload(s.store, readable), s.nextTid);
    }
  }

  lemma OwnStepKept(s: State, step: Step)
    requires TaskInv(s) && Enabled(s, step) && Own(step) && Sound(s)
    ensures Apply(s, step).store == s.store && TaskInv(Apply(s, step))
  {
    hide Apply, Enabled, Advance, Ready, TasksOk, GoodTask;
    OwnStepOnTask(s, step);
    TasksAreGood(s.store, s.tasks, s.nextTid, step.tid);
    AdvanceKeepsTask(s.store, s.tasks[step.tid], step);
    PutKeepsTasks(s.store, s.tasks, s.nextTid, step.tid, Advance(s.tasks[step.tid], step));
  }

  /** A submission moves on towards its worker. */
  lemma MoveKeepsTasks(s: State, tid: Tid, t: Task)
    requires TaskInv(s) && tid in s.tasks && s.tasks[tid].Live()
    requires t == s.tasks[tid].(pc := t.pc, lock := t.lock, cancelled := t.cancelled)
    requires t.pc == s.tasks[tid].pc || t.pc.Registered? || t.pc.Located? || t.pc.Waiting?
    ensures TasksOk(s.store, s.tasks[tid := t], s.nextTid)
  {
  }

  lemma FlagKeepsTasks(s: State, tid: Tid)
    requires TaskInv(s) && tid in s.tasks
    ensures TasksOk(s.store, s.tasks[tid := s.tasks[tid].(cancelled := true)], s.nextTid)
  {
  }

  lemma TaskStepKept(s: State, step: Step)
    requires TaskInv(s) && Enabled(s, step) && !Global(step) && !Own(step) && Sound(s)
    ensures Apply(s, step).store == s.store && TaskInv(Apply(s, step))
  {
    hide Apply, Enabled, StoreInv, TasksOk;
    BetweenSteps(s, step);
    match step {
      case Abandon(tid) => DropKeepsTasks(s.store, s.tasks, s.nextTid, tid);
      case RaiseFlag(id) =>
        if s.flags[id] in s.tasks {
          FlagKeepsTasks(s, s.flags[id]);
        }
      case Register(tid) => MoveKeepsTasks(s, tid, AfterRegister(s, tid).tasks[tid]);
      case Locate(tid) => MoveKeepsTasks(s, tid, AfterLocate(s, tid).tasks[tid]);
      case Spawn(tid) => MoveKeepsTasks(s, tid, AfterSpawn(s, tid).tasks[tid]);
    }
  }

  /** Every step keeps the job map, the snapshot and the tasks consistent. */
  lemma StoreAndTasksKept(s: State, step: Step)
    requires StoreInv(s.store) && TaskInv(s) && Enabled(s, step)
    ensures Sound(s) && StoreInv(Apply(s, step).store) && TaskInv(Apply(s, step))
  {
    InvSound(s);
    if Global(step) {
      GlobalStepKept(s, step);
    } else if Own(step) {
      OwnStepKept(s, step);
    } else {
      TaskStepKept(s, step);
    }
  }
}
