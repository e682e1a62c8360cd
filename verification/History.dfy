/** At most one execution for each idempotency key, over every run. */
module History {
  import opened Options
  import opened Jobs
  import opened Retention
  import opened Machine
  import opened Invariants
  import opened Execution

  /** The record of the job started at `i` is evicted, as terminal, before `end`. */
  ghost predicate EvictedBefore(log: seq<Event>, i: nat, end: nat)
    requires i < |log| && log[i].Started? && end <= |log|
  {
    exists m :: i < m < end && log[m].Evicted? && log[m].victim.Terminal()
      && log[m].victim.id == log[i].id && log[m].victim.key == log[i].key
  }

  ghost predicate StartedWith(log: seq<Event>, i: nat, key: Option<Key>) {
    i < |log| && log[i].Started? && log[i].key == key && key.Some?
  }

  /** Between two executions for one key, the record of the first was terminal
      and was evicted. */
  ghost predicate AtMostOnce(log: seq<Event>) {
    forall i, j :: 0 <= i < j < |log| && log[i].Started? && log[i].key.Some? && StartedWith(log, j, log[i].key)
      ==> EvictedBefore(log, i, j)
  }

  ghost predicate Kept(store: Store, id: Id, key: Option<Key>) {
    && id in store.jobs && store.jobs[id].key == key
    && (store.durable ==> id in store.saved && store.saved[id].key == key)
  }

  /** Every execution's record is still known, in memory and on disk, or it was
      evicted as terminal after the execution started. */
  ghost predicate Remembered(store: Store, log: seq<Event>) {
    forall i :: 0 <= i < |log| && log[i].Started? && log[i].key.Some?
      ==> Kept(store, log[i].id, log[i].key) || EvictedBefore(log, i, |log|)
  }

  /** The earlier executions for the key of a submission that has not started
      its worker yet are all past. */
  ghost predicate Cleared(log: seq<Event>, key: Option<Key>) {
    forall i :: StartedWith(log, i, key) ==> EvictedBefore(log, i, |log|)
  }

  ghost predicate Unstarted(t: Task) {
    t.Live() && !t.Working()
  }

  ghost predicate ClearedTasks(log: seq<Event>, tasks: map<Tid, Task>) {
    forall tid :: tid in tasks && Unstarted(tasks[tid]) ==> Cleared(log, tasks[tid].job.key)
  }

  /** What the log says of finished workers: the final record is what the result,
      the flag and the reported progress call for, and a job recorded as cancelled
      before sending, or as failed, sent no byte of its document. */
  ghost predicate TruthfulEvent(e: Event) {
    e.Finished? ==>
      && Settles(e.final, e.decision) && Unworked(e.decision.job)
      && (Unsent(e.final.state) ==> Document(e.device) == [])
  }

  ghost predicate Truthful(log: seq<Event>) {
    forall i :: 0 <= i < |log| ==> TruthfulEvent(log[i])
  }

  ghost predicate LogOk(store: Store, tasks: map<Tid, Task>, log: seq<Event>) {
    AtMostOnce(log) && Remembered(store, log) && ClearedTasks(log, tasks)
  }

  ghost predicate LogInv(s: State) {
    Truthful(s.log) && (s.intact ==> LogOk(s.store, s.tasks, s.log))
  }

  // ---------------------------------------------------------------- appending to the log

  lemma EvictionStays(log: seq<Event>, e: Event, i: nat, end: nat)
    requires i < |log| && log[i].Started? && end <= |log| && EvictedBefore(log, i, end)
    ensures EvictedBefore(log + [e], i, end) && EvictedBefore(log + [e], i, end + 1)
  {
    var m :| i < m < end && log[m].Evicted? && log[m].victim.Terminal()
      && log[m].victim.id == log[i].id && log[m].victim.key == log[i].key;
    assert (log + [e])[m] == log[m] && (log + [e])[i] == log[i];
  }

  lemma OnceStays(log: seq<Event>, e: Event)
    requires AtMostOnce(log)
    requires e.Started? && e.key.Some? ==> Cleared(log, e.key)
    ensures AtMostOnce(log + [e])
  {
    var r := log + [e];
    forall i, j | 0 <= i < j < |r| && r[i].Started? && r[i].key.Some? && StartedWith(r, j, r[i].key) ensures EvictedBefore(r, i, j) {
      if j < |log| {
        assert StartedWith(log, j, log[i].key);
        EvictionStays(log, e, i, j);
      } else {
        assert StartedWith(log, i, e.key);
        EvictionStays(log, e, i, |log|);
      }
    }
  }

  lemma ClearedStays(log: seq<Event>, e: Event, key: Option<Key>)
    requires Cleared(log, key) && !(e.Started? && e.key == key)
    ensures Cleared(log + [e], key)
  {
    forall i | StartedWith(log + [e], i, key) ensures EvictedBefore(log + [e], i, |log| + 1) {
      assert StartedWith(log, i, key);
      EvictionStays(log, e, i, |log|);
    }
  }

  lemma RememberedStays(store: Store, log: seq<Event>, e: Event)
    requires Remembered(store, log)
    requires e.Started? && e.key.Some? ==> Kept(store, e.id, e.key)
    ensures Remembered(store, log + [e])
  {
    var r := log + [e];
    forall i | 0 <= i < |r| && r[i].Started? && r[i].key.Some?
      ensures Kept(store, r[i].id, r[i].key) || EvictedBefore(r, i, |r|) {
      if i < |log| && !Kept(store, log[i].id, log[i].key) {
        EvictionStays(log, e, i, |log|);
      }
    }
  }

  /** An event other than a start changes nothing in the argument. */
  lemma OtherEventKept(store: Store, tasks: map<Tid, Task>, log: seq<Event>, e: Event)
    requires LogOk(store, tasks, log) && !e.Started?
    ensures LogOk(store, tasks, log + [e])
  {
    OnceStays(log, e);
    RememberedStays(store, log, e);
    forall tid | tid in tasks && Unstarted(tasks[tid]) ensures Cleared(log + [e], tasks[tid].job.key) {
      ClearedStays(log, e, tasks[tid].job.key);
    }
  }

  lemma TruthStays(log: seq<Event>, e: Event)
    requires Truthful(log) && TruthfulEvent(e)
    ensures Truthful(log + [e])
  {
  }

  // ---------------------------------------------------------------- the store under the log

  /** A new map that has every remembered record, and a snapshot that is either
      the old one or that map. */
  lemma SaveRemembers(store: Store, jobs: map<Id, Job>, saveOk: bool, log: seq<Event>)
    requires Remembered(store, log) && WellKeyed(jobs)
    requires forall i :: 0 <= i < |log| && log[i].Started? && log[i].key.Some? && Kept(store, log[i].id, log[i].key) ==>
      (log[i].id in jobs && jobs[log[i].id].key == log[i].key) || EvictedBefore(log, i, |log|)
    ensures Remembered(Save(store, jobs, saveOk), log)
  {
  }

  lemma UpdateRemembers(store: Store, job: Job, saveOk: bool, log: seq<Event>)
    requires Remembered(store, log) && WellKeyed(store.jobs)
    requires job.id in store.jobs && store.jobs[job.id].key == job.key
    ensures Remembered(Save(store, store.jobs[job.id := job], saveOk), log)
  {
  }

  lemma AdmissionRemembers(store: Store, job: Job, saveOk: bool, log: seq<Event>)
    requires StoreInv(store) && Remembered(store, log) && job.id !in store.jobs
    requires Retention.Admit(store.jobs, job, store.limit).Admitted?
    ensures var a := Retention.Admit(store.jobs, job, store.limit);
      var after := if a.evicted.Some? then log + [Evicted(a.evicted.value)] else log;
      Remembered(Save(store, a.jobs, saveOk), after)
  {
    AdmissionKeepsHistory(store.jobs, job, store.limit);
    var a := Retention.Admit(store.jobs, job, store.limit);
    var after := if a.evicted.Some? then log + [Evicted(a.evicted.value)] else log;
    if a.evicted.Some? {
      RememberedStays(store, log, Evicted(a.evicted.value));
    }
    forall i | 0 <= i < |after| && after[i].Started? && after[i].key.Some? && Kept(store, after[i].id, after[i].key)
      ensures (after[i].id in a.jobs && a.jobs[after[i].id].key == after[i].key) || EvictedBefore(after, i, |after|) {
      if a.evicted.Some? && a.evicted.value.id == after[i].id {
        assert after[|log|] == Evicted(a.evicted.value);
      }
    }
    SaveRemembers(store, a.jobs, saveOk, after);
  }

  /** When a key is not in the map, all executions for it are past. */
  lemma AbsentIsCleared(store: Store, log: seq<Event>, key: Option<Key>)
    requires Remembered(store, log) && key.Some? && !HasKey(store.jobs, key.value)
    ensures Cleared(log, key)
  {
  }

  // ---------------------------------------------------------------- every step keeps the log's story

  lemma MoveKeepsCleared(log: seq<Event>, tasks: map<Tid, Task>, tid: Tid, t: Task)
    requires ClearedTasks(log, tasks)
    requires Unstarted(t) ==> Cleared(log, t.job.key)
    ensures ClearedTasks(log, tasks[tid := t])
  {
  }

  lemma ArriveKeepsLog(s: State, step: Step)
    requires LogInv(s) && step.Arrive?
    ensures LogInv(AfterArrive(s, step.key, step.hash, step.id, step.connection, step.route, step.now))
  {
    var r := AfterArrive(s, step.key, step.hash, step.id, step.connection, step.route, step.now);
    if s.intact {
      assert Remembered(r.store, s.log);
      if r.log != s.log {
        OtherEventKept(r.store, s.tasks, s.log, r.log[|s.log|]);
      }
    }
  }

  /** Admission logs the eviction, then leaves a task whose key is clear. */
  lemma AdmittedKeepsLog(store: Store, tasks: map<Tid, Task>, log: seq<Event>, tid: Tid, saveOk: bool)
    requires StoreInv(store) && LogOk(store, tasks, log)
    requires tid in tasks && tasks[tid].pc.Planned? && tasks[tid].job.id !in store.jobs
    requires Retention.Admit(store.jobs, tasks[tid].job, store.limit).Admitted?
    ensures var a := Retention.Admit(store.jobs, tasks[tid].job, store.limit);
      var after := if a.evicted.Some? then log + [Evicted(a.evicted.value)] else log;
      && LogOk(Save(store, a.jobs, saveOk), tasks[tid := tasks[tid].(pc := Pc.Admitted)], after)
      && LogOk(Save(store, a.jobs, saveOk), tasks - {tid}, after)
  {
    var t := tasks[tid];
    var a := Retention.Admit(store.jobs, t.job, store.limit);
    var after := if a.evicted.Some? then log + [Evicted(a.evicted.value)] else log;
    AdmissionRemembers(store, t.job, saveOk, log);
    if t.job.key.Some? {
      AbsentIsCleared(store, log, t.job.key);
    }
    if a.evicted.Some? {
      OtherEventKept(store, tasks, log, Evicted(a.evicted.value));
      ClearedStays(log, Evicted(a.evicted.value), t.job.key);
    }
    MoveKeepsCleared(after, tasks, tid, t.(pc := Pc.Admitted));
  }

  lemma TurnedAwayKeepsLog(s: State, tid: Tid, saveOk: bool)
    requires LogInv(s) && At(s, tid, Planned) && WellKeyed(s.store.jobs)
    requires !Retention.Admit(s.store.jobs, s.tasks[tid].job, s.store.limit).Admitted?
    ensures LogInv(AfterAdmit(s, tid, saveOk))
  {
    var r := AfterAdmit(s, tid, saveOk);
    var e := r.log[|s.log|];
    assert r.store == s.store && r.tasks == s.tasks - {tid} && r.log == s.log + [e] && e.Answered?;
    TruthStays(s.log, e);
    if s.intact {
      OtherEventKept(s.store, s.tasks - {tid}, s.log, e);
    }
  }

  lemma AdmitKeepsLog(s: State, tid: Tid, saveOk: bool)
    requires StoreInv(s.store) && TaskInv(s) && LogInv(s) && At(s, tid, Planned)
    ensures LogInv(AfterAdmit(s, tid, saveOk))
  {
    var t := s.tasks[tid];
    var a := Retention.Admit(s.store.jobs, t.job, s.store.limit);
    if a.Admitted? {
      PlannedIsNew(s.store, t);
      var after := if a.evicted.Some? then s.log + [Evicted(a.evicted.value)] else s.log;
      var store := Save(s.store, a.jobs, saveOk);
      assert Truthful(after);
      TruthStays(after, Answered(tid, t.job.key, t.job.requestHash, SaveFailed));
      if s.intact {
        AdmittedKeepsLog(s.store, s.tasks, s.log, tid, saveOk);
        OtherEventKept(store, s.tasks - {tid}, after, Answered(tid, t.job.key, t.job.requestHash, SaveFailed));
      }
      AdmittedLog(s, tid, saveOk, after, store);
    } else {
      TurnedAwayKeepsLog(s, tid, saveOk);
    }
  }

  lemma SpawnKeepsLog(s: State, tid: Tid)
    requires StoreInv(s.store) && TaskInv(s) && LogInv(s) && At(s, tid, Located)
    ensures LogInv(AfterSpawn(s, tid))
  {
    var t := s.tasks[tid];
    var start := Event.Started(t.job.id, t.job.key);
    var log := s.log + [start];
    TruthStays(s.log, start);
    TruthStays(log, Answered(tid, t.job.key, t.job.requestHash, Accepted(t.job)));
    if s.intact {
      var tasks := s.tasks[tid := t.(pc := Waiting)];
      assert GoodTask(s.store, t);
      OnceStays(s.log, start);
      RememberedStays(s.store, s.log, start);
      forall other | other in tasks && Unstarted(tasks[other]) ensures Cleared(log, tasks[other].job.key) {
        SameKeySameTask(s, tid, other);
        if tasks[other].job.key.Some? {
          ClearedStays(s.log, start, tasks[other].job.key);
        }
      }
      OtherEventKept(s.store, tasks, log, Answered(tid, t.job.key, t.job.requestHash, Accepted(t.job)));
    }
  }

  lemma SameKeySameTask(s: State, a: Tid, b: Tid)
    requires StoreInv(s.store) && TaskInv(s) && a in s.tasks && b in s.tasks
    requires s.tasks[a].Live() && s.tasks[b].Live()
    ensures s.tasks[a].job.key.Some? && s.tasks[a].job.key == s.tasks[b].job.key ==> a == b
  {
  }

  lemma RecordKeepsLog(s: State, tid: Tid, saveOk: bool)
    requires StoreInv(s.store) && TaskInv(s) && WorkInv(s) && LogInv(s) && AtEnd(s, tid)
    requires s.tasks[tid].running.id == s.tasks[tid].job.id
    ensures LogInv(AfterRecord(s, tid, saveOk))
  {
    var t := s.tasks[tid];
    assert GoodTask(s.store, t) && Accounted(t);
    TruthStays(s.log, Finished(t.running, t.device, t.pc.decision));
    if s.intact {
      var store := Save(s.store, s.store.jobs[t.job.id := t.running], saveOk);
      UpdateRemembers(s.store, t.running, saveOk, s.log);
      MoveKeepsCleared(s.log, s.tasks, tid, t.(pc := Recorded));
      OtherEventKept(store, s.tasks[tid := t.(pc := Recorded)], s.log, Finished(t.running, t.device, t.pc.decision));
    }
  }

  lemma RestartKeepsLog(s: State, readable: bool)
    requires StoreInv(s.store) && LogInv(s)
    ensures LogInv(AfterRestart(s, readable))
  {
    if AfterRestart(s, readable).intact {
      ReloadRestores(s.store);
    }
  }

  lemma GlobalLogKept(s: State, step: Step)
    requires StoreInv(s.store) && TaskInv(s) && WorkInv(s) && LogInv(s) && Enabled(s, step) && Global(step) && Sound(s)
    ensures LogInv(Apply(s, step))
  {
    hide AfterAdmit, AfterArrive, AfterRecord, AfterRestart, Mark, LogOk, Truthful, StoreInv, TasksOk, WorkOk, Apply, Enabled;
    GlobalSteps(s, step);
    match step {
      case Arrive(key, hash, id, connection, route, now) => ArriveKeepsLog(s, step);
      case Admit(tid, saveOk) => AdmitKeepsLog(s, tid, saveOk);
      case Record(tid, saveOk) => RecordKeepsLog(s, tid, saveOk);
      case MarkCancelled(id, now, saveOk) => MarkKeepsLog(s, id, now, saveOk);
      case Restart(readable) => RestartKeepsLog(s, readable);
    }
  }

  lemma MarkKeepsLog(s: State, id: Id, now: Time, saveOk: bool)
    requires StoreInv(s.store) && LogInv(s) && id in s.store.jobs
    ensures LogInv(s.(store := Mark(s.store, id, now, saveOk)))
  {
  }

  lemma TaskLogKept(s: State, step: Step)
    requires StoreInv(s.store) && TaskInv(s) && LogInv(s) && Enabled(s, step) && !Global(step) && !Own(step) && Sound(s)
    ensures LogInv(Apply(s, step))
  {
    hide AfterSpawn, LogOk, Truthful, StoreInv, TasksOk;
    match step {
      case Spawn(tid) => SpawnKeepsLog(s, tid);
      case Register(tid) => MoveKeepsLog(s, tid, s.tasks[tid].(pc := Registered));
      case Locate(tid) => MoveKeepsLog(s, tid, AfterLocate(s, tid).tasks[tid]);
      case Abandon(tid) => DropKeepsLog(s, tid);
      case RaiseFlag(id) =>
        if s.flags[id] in s.tasks {
          MoveKeepsLog(s, s.flags[id], s.tasks[s.flags[id]].(cancelled := true));
        }
    }
  }

  lemma AdvanceKeepsLog(s: State, step: Step)
    requires LogInv(s) && Own(step) && step.tid in s.tasks && Ready(s.tasks[step.tid], step)
    ensures LogInv(Put(s, step.tid, Advance(s.tasks[step.tid], step)))
  {
  }

  lemma MoveKeepsLog(s: State, tid: Tid, t: Task)
    requires LogInv(s) && tid in s.tasks && t.job == s.tasks[tid].job && (Unstarted(t) ==> Unstarted(s.tasks[tid]))
    ensures s.intact ==> LogOk(s.store, s.tasks[tid := t], s.log)
  {
  }

  lemma DropKeepsLog(s: State, tid: Tid)
    requires LogInv(s)
    ensures s.intact ==> LogOk(s.store, s.tasks - {tid}, s.log)
  {
  }

  lemma LogKept(s: State, step: Step)
    requires StoreInv(s.store) && TaskInv(s) && WorkInv(s) && LogInv(s) && Enabled(s, step) && Sound(s)
    ensures LogInv(Apply(s, step))
  {
    if Global(step) {
      GlobalLogKept(s, step);
    } else if Own(step) {
      AdvanceKeepsLog(s, step);
    } else {
      TaskLogKept(s, step);
    }
  }
}
