/** The guarantees of the executor over every run of its steps. */
module Runs {
  import opened Options
  import opened Jobs
  import opened Retention
  import opened Machine
  import opened Invariants
  import opened Execution
  import opened History

  /** `t` is reached from `s` by taking `steps` one after the other. */
  ghost predicate Reaches(s: State, steps: seq<Step>, t: State)
    decreases |steps|
  {
    if steps == [] then s == t
    else Sound(s) && Enabled(s, steps[0]) && Reaches(Apply(s, steps[0]), steps[1..], t)
  }

  ghost predicate Inv(s: State) {
    StoreInv(s.store) && TaskInv(s) && WorkInv(s) && LogInv(s)
  }

  lemma InvInitially(s: State)
    requires Initial(s)
    ensures Inv(s)
  {
  }

  lemma InvKept(s: State, step: Step)
    requires Inv(s) && Enabled(s, step)
    ensures Sound(s) && Inv(Apply(s, step))
  {
    StoreAndTasksKept(s, step);
    assert s.nextTid !in s.tasks;
    WorkKept(s, step);
    LogKept(s, step);
  }

  lemma {:induction false} InvAlways(s: State, steps: seq<Step>, t: State)
    requires Inv(s) && Reaches(s, steps, t)
    ensures Inv(t)
    decreases |steps|
  {
    hide Inv, Apply, Enabled;
    if steps != [] {
      InvKept(s, steps[0]);
      InvAlways(Apply(s, steps[0]), steps[1..], t);
    }
  }

  /** At most one execution per idempotency key.  In every interleaving of
      submissions, cancellations, workers, failed saves and restarts, as long as
      each restart found the snapshot that was written, a second worker for a key
      starts only after the record of the first was terminal and was evicted. */
  lemma AtMostOneExecutionPerKey(s: State, steps: seq<Step>, t: State)
    requires Initial(s) && Reaches(s, steps, t) && t.intact
    ensures AtMostOnce(t.log)
  {
    InvInitially(s);
    InvAlways(s, steps, t);
  }

  /** A job recorded as cancelled before sending, or as failed, sent no byte of
      its document, on either route and whatever the driver did. */
  lemma UnsentMeansNoBytes(s: State, steps: seq<Step>, t: State, i: nat)
    requires Initial(s) && Reaches(s, steps, t)
    requires i < |t.log| && t.log[i].Finished? && Unsent(t.log[i].final.state)
    ensures Document(t.log[i].device) == []
  {
    InvInitially(s);
    InvAlways(s, steps, t);
    assert TruthfulEvent(t.log[i]);
  }

  /** Every final record is terminal and truthful: it is completed, cancelled, failed
      or of unknown outcome exactly when the result, the flag and the possibly
      accepted bytes call for that, its error is that of the failure, and its
      progress is what was reported last. */
  lemma FinalRecordsAreTruthful(s: State, steps: seq<Step>, t: State, i: nat)
    requires Initial(s) && Reaches(s, steps, t)
    requires i < |t.log| && t.log[i].Finished?
    ensures t.log[i].final.Terminal()
    ensures t.log[i].final.state != Completed ==>
              (Unsent(t.log[i].final.state) <==> !t.log[i].final.potentiallyAcceptedWrite)
    ensures Settles(t.log[i].final, t.log[i].decision) && Unworked(t.log[i].decision.job)
  {
    InvInitially(s);
    InvAlways(s, steps, t);
    assert TruthfulEvent(t.log[i]);
  }

  /** Retention never costs a live worker its record: its job is in the shared
      map and not terminal there, the map is within its limit, and it never
      shows a job as running. */
  lemma LiveWorkIsRetained(s: State, steps: seq<Step>, t: State)
    requires Initial(s) && Reaches(s, steps, t)
    ensures |t.store.jobs| <= t.store.limit
    ensures forall id :: id in t.store.jobs ==> t.store.jobs[id].id == id && t.store.jobs[id].state != Running
    ensures forall tid :: tid in t.tasks && t.tasks[tid].Live() ==>
      t.tasks[tid].job.id in t.store.jobs && !t.store.jobs[t.tasks[tid].job.id].Terminal()
  {
    InvInitially(s);
    InvAlways(s, steps, t);
    forall tid | tid in t.tasks && t.tasks[tid].Live() ensures Active(t.store, t.tasks[tid].job) {
      assert GoodTask(t.store, t.tasks[tid]);
    }
  }

  /** Two workers for one connection are never inside the guarded section together. */
  lemma ConnectionsAreSerialized(s: State, steps: seq<Step>, t: State, a: Tid, b: Tid)
    requires Initial(s) && Reaches(s, steps, t)
    requires a in t.tasks && b in t.tasks && t.tasks[a].Holding() && t.tasks[b].Holding()
    requires t.tasks[a].connection.Some? && t.tasks[a].connection == t.tasks[b].connection
    ensures a == b
  {
    InvInitially(s);
    InvAlways(s, steps, t);
    assert Locked(t.locks, t.tasks[a]) && Locked(t.locks, t.tasks[b]);
    assert a != b ==> Exclusive(t.tasks[a], t.tasks[b]);
  }

  // ---------------------------------------------------------------- how a retained record moves

  function Rank(state: JobState): nat {
    match state
    case Queued => 0
    case Running => 1
    case CancelRequested => 2
    case _ => 3
  }

  /** Forward only, and a terminal record is final. */
  ghost predicate Forward(a: Job, b: Job) {
    Rank(a.state) <= Rank(b.state) && a.key == b.key && a.requestHash == b.requestHash && (a.Terminal() ==> b == a)
  }

  lemma AdmitForward(s: State, tid: Tid, saveOk: bool, id: Id)
    requires StoreInv(s.store) && TaskInv(s) && At(s, tid, Planned)
    requires id in s.store.jobs && id in AfterAdmit(s, tid, saveOk).store.jobs
    ensures AfterAdmit(s, tid, saveOk).store.jobs[id] == s.store.jobs[id]
  {
    hide StoreInv, TasksOk, GoodTask, Save, AfterAdmit;
    var t := s.tasks[tid];
    StoreIsKeyed(s.store);
    var a := Retention.Admit(s.store.jobs, t.job, s.store.limit);
    if a.Admitted? {
      AdmittedIsNew(s, tid);
      var after := if a.evicted.Some? then s.log + [Evicted(a.evicted.value)] else s.log;
      AdmittedLog(s, tid, saveOk, after, Save(s.store, a.jobs, saveOk));
    } else {
      TurnedAway(s, tid, saveOk);
    }
  }

  lemma GlobalForward(s: State, step: Step, id: Id)
    requires StoreInv(s.store) && TaskInv(s) && Enabled(s, step) && Sound(s) && Global(step) && !step.Restart?
    requires id in s.store.jobs && id in Apply(s, step).store.jobs
    ensures Forward(s.store.jobs[id], Apply(s, step).store.jobs[id])
  {
    hide Apply, Enabled, AfterAdmit, AfterArrive, Mark, StoreInv, TasksOk, Save, Forward;
    GlobalSteps(s, step);
    match step {
      case Arrive(key, hash, newId, connection, route, now) =>
        ArriveKeepsJobs(s, step);
        Unmoved(s.store.jobs[id]);
      case Admit(tid, saveOk) =>
        AdmitForward(s, tid, saveOk, id);
        Unmoved(s.store.jobs[id]);
      case Record(tid, saveOk) =>
        RecordForward(s, tid);
        Unmoved(s.store.jobs[id]);
      case MarkCancelled(other, now, saveOk) =>
        MarkForward(s.store, other, now, saveOk, id);
    }
  }

  lemma Unmoved(job: Job)
    ensures Forward(job, job)
  {
  }

  lemma MarkForward(store: Store, id: Id, now: Time, saveOk: bool, other: Id)
    requires id in store.jobs && WellKeyed(store.jobs) && other in store.jobs
    ensures other in Mark(store, id, now, saveOk).jobs
    ensures Forward(store.jobs[other], Mark(store, id, now, saveOk).jobs[other])
  {
  }

  lemma RecordForward(s: State, tid: Tid)
    requires TaskInv(s) && AtEnd(s, tid)
    ensures var t := s.tasks[tid]; t.job.id in s.store.jobs && Forward(s.store.jobs[t.job.id], t.running)
  {
  }

  lemma ArriveKeepsJobs(s: State, step: Step)
    requires step.Arrive?
    ensures AfterArrive(s, step.key, step.hash, step.id, step.connection, step.route, step.now).store.jobs == s.store.jobs
  {
  }

  lemma StoreUntouched(s: State, step: Step)
    requires Sound(s) && Enabled(s, step) && !Global(step)
    ensures Apply(s, step).store == s.store
  {
  }

  lemma ForwardStep(s: State, step: Step, id: Id)
    requires Inv(s) && Enabled(s, step) && Sound(s) && !step.Restart?
    requires id in s.store.jobs && id in Apply(s, step).store.jobs
    ensures Forward(s.store.jobs[id], Apply(s, step).store.jobs[id])
  {
    hide Enabled, StoreInv, Apply;
    if Global(step) {
      GlobalForward(s, step, id);
    } else {
      StoreUntouched(s, step);
    }
  }

  ghost predicate Throughout(s: State, steps: seq<Step>, id: Id)
    decreases |steps|
  {
    && id in s.store.jobs
    && (steps != [] ==> Sound(s) && Enabled(s, steps[0]) && !steps[0].Restart? && Throughout(Apply(s, steps[0]), steps[1..], id))
  }

  /** Within one process, while an id stays retained, its record goes from
      queued to cancel-requested to one terminal state that never changes. */
  lemma {:induction false} RecordsOnlyMoveForward(s: State, steps: seq<Step>, t: State, id: Id)
    requires Inv(s) && Reaches(s, steps, t) && Throughout(s, steps, id)
    ensures id in t.store.jobs && Forward(s.store.jobs[id], t.store.jobs[id])
    decreases |steps|
  {
    hide Inv, Apply, Enabled;
    if steps != [] {
      InvKept(s, steps[0]);
      ForwardStep(s, steps[0], id);
      RecordsOnlyMoveForward(Apply(s, steps[0]), steps[1..], t, id);
    }
  }

  /** What marking a job as cancelled does: an active record becomes cancel-requested,
      with nothing but its state and time changed, a terminal one stays, every other
      record stays, and the map is saved if it can be. */
  lemma MarkingTouchesOneRecord(s: State, id: Id, now: Time, saveOk: bool)
    requires StoreInv(s.store) && id in s.store.jobs
    ensures var before, after := s.store.jobs, Mark(s.store, id, now, saveOk).jobs;
      && after.Keys == before.Keys && (forall other :: other in before && other != id ==> after[other] == before[other])
      && (before[id].Terminal() ==> after[id] == before[id])
      && (!before[id].Terminal() ==>
            after[id].state == CancelRequested && after[id].updatedAt == now
            && after[id] == before[id].(state := after[id].state, updatedAt := now))
    ensures s.store.durable && saveOk ==> Mark(s.store, id, now, saveOk).saved == Mark(s.store, id, now, saveOk).jobs
  {
  }

  /** A worker's final record replaces that of its job and no other, and the map is saved
      if it can be. */
  lemma RecordingTouchesOneRecord(s: State, tid: Tid, saveOk: bool)
    requires Inv(s) && AtEnd(s, tid) && Sound(s)
    ensures var r, t := AfterRecord(s, tid, saveOk), s.tasks[tid];
      && r.store.jobs == s.store.jobs[t.job.id := t.running]
      && t.job.id in s.store.jobs && t.running.id == t.job.id && Settles(t.running, t.pc.decision)
      && r.store.saved == (if s.store.durable && saveOk then r.store.jobs else s.store.saved)
      && r.log == s.log + [Finished(t.running, t.device, t.pc.decision)]
  {
    hide Settles, Save;
    assert GoodTask(s.store, s.tasks[tid]) && Accounted(s.tasks[tid]);
  }

  /** A cancellation that was recorded stays on record: within one process, while the
      job is retained, it is cancel-requested until it has ended. */
  lemma CancellationStaysOnRecord(s: State, id: Id, now: Time, saveOk: bool, steps: seq<Step>, t: State)
    requires Inv(s) && Sound(s) && Enabled(s, MarkCancelled(id, now, saveOk))
    requires var next := Apply(s, MarkCancelled(id, now, saveOk)); Reaches(next, steps, t) && Throughout(next, steps, id)
    ensures id in t.store.jobs && (t.store.jobs[id].state == CancelRequested || t.store.jobs[id].Terminal())
    ensures id in s.store.jobs && (s.store.jobs[id].Terminal() ==> t.store.jobs[id] == s.store.jobs[id])
  {
    hide Inv, Throughout, Reaches, Apply, Enabled, Sound;
    var step := MarkCancelled(id, now, saveOk);
    InvKept(s, step);
    MarkedForCancelling(s, id, now, saveOk);
    RecordsOnlyMoveForward(Apply(s, step), steps, t, id);
  }

  lemma MarkedForCancelling(s: State, id: Id, now: Time, saveOk: bool)
    requires Inv(s) && Sound(s) && Enabled(s, MarkCancelled(id, now, saveOk))
    ensures var next := Apply(s, MarkCancelled(id, now, saveOk)).store.jobs;
      && id in s.store.jobs && id in next && next[id] == s.store.jobs[id].RequestCancel(now)
  {
    hide Inv, Apply, Enabled, Mark, Save;
    GlobalSteps(s, MarkCancelled(id, now, saveOk));
    MarkedRecord(s.store, id, now, saveOk);
  }

  lemma MarkedRecord(store: Store, id: Id, now: Time, saveOk: bool)
    requires id in store.jobs && WellKeyed(store.jobs)
    ensures id in Mark(store, id, now, saveOk).jobs
    ensures Mark(store, id, now, saveOk).jobs[id] == store.jobs[id].RequestCancel(now)
  {
  }

  /** What a restart makes of a record: what was last saved of it, if the snapshot
      can be read. */
  lemma RecordsAfterRestart(s: State, readable: bool, id: Id)
    requires Inv(s)
    ensures var jobs := AfterRestart(s, readable).store.jobs;
      && (id in jobs <==> readable && id in s.store.saved)
      && (id in jobs ==> jobs[id] == Interrupted(s.store.saved[id]))
  {
    hide WorkInv, LogInv, TaskInv;
    ReloadRestores(s.store);
  }

  /** A terminal record survives a restart unchanged exactly when the snapshot can be
      read and what was saved of the job reads back as that record; a record that was
      last saved as active comes back as of unknown outcome. */
  lemma TerminalRecordSurvivesExactlyWhen(s: State, readable: bool, id: Id)
    requires Inv(s) && id in s.store.jobs && s.store.jobs[id].Terminal()
    ensures var jobs := AfterRestart(s, readable).store.jobs;
      && (id in jobs && jobs[id] == s.store.jobs[id] <==>
            readable && id in s.store.saved && Interrupted(s.store.saved[id]) == s.store.jobs[id])
      && (readable && id in s.store.saved && s.store.saved[id] == s.store.jobs[id] ==>
            id in jobs && jobs[id] == s.store.jobs[id])
      && (readable && id in s.store.saved && !s.store.saved[id].Terminal() ==>
            id in jobs && jobs[id].state == OutcomeUnknown)
  {
    hide Inv;
    RecordsAfterRestart(s, readable, id);
  }

  // ---------------------------------------------------------------- cancellation

  /** What a cancelled worker's device can still hold in the end: the calls it
      has had, and the one that was under way when the flag was set. */
  ghost predicate AtMostTheCallUnderWay(before: Task, after: Task) {
    && after.cancelled && after.pc != Sending
    && ((after.device == before.device && (after.pending == None || after.pending == before.pending))
        || (before.pending.Some? && after.pending == None && after.device == before.device + [before.pending.value]))
  }

  lemma CancelledAdvance(t: Task, step: Step)
    requires Accounted(t) && Own(step) && Ready(t, step) && t.cancelled && t.pc != Sending
    ensures AtMostTheCallUnderWay(t, Advance(t, step))
  {
  }

  /** The same device and call, and no flag taken back. */
  predicate SameWork(t: Task, r: Task) {
    r.device == t.device && r.pending == t.pending && (t.cancelled ==> r.cancelled)
    && (r.pc == t.pc || (r.pc != Sending && !r.pc.Decided?))
  }

  lemma AdmitOnTask(s: State, tid: Tid, saveOk: bool, other: Tid)
    requires At(s, tid, Planned) && WellKeyed(s.store.jobs) && other in s.tasks
    ensures other in AfterAdmit(s, tid, saveOk).tasks ==> SameWork(s.tasks[other], AfterAdmit(s, tid, saveOk).tasks[other])
  {
    hide AfterAdmit;
  }

  lemma SameWorkItself(t: Task)
    ensures SameWork(t, t)
  {
  }

  lemma ArriveOnTask(s: State, step: Step, tid: Tid)
    requires step.Arrive? && tid in s.tasks && s.nextTid !in s.tasks
    ensures var r := AfterArrive(s, step.key, step.hash, step.id, step.connection, step.route, step.now);
            tid in r.tasks ==> SameWork(s.tasks[tid], r.tasks[tid])
  {
    hide AfterArrive, UseId;
  }

  lemma RecordOnTask(s: State, tid: Tid, saveOk: bool, other: Tid)
    requires AtEnd(s, tid) && Sound(s) && other in s.tasks
    ensures other in AfterRecord(s, tid, saveOk).tasks
    ensures SameWork(s.tasks[other], AfterRecord(s, tid, saveOk).tasks[other])
  {
    hide Save;
  }

  lemma RecordStepOnTask(s: State, step: Step, tid: Tid)
    requires Enabled(s, step) && Sound(s) && (step.Record? || step.Admit?) && tid in s.tasks
    ensures tid in Apply(s, step).tasks ==> SameWork(s.tasks[tid], Apply(s, step).tasks[tid])
  {
    hide Apply, Enabled, AfterAdmit, AfterRecord, SameWork;
    GlobalSteps(s, step);
    if step.Record? {
      RecordOnTask(s, step.tid, step.saveOk, tid);
    } else {
      AdmitOnTask(s, step.tid, step.saveOk, tid);
    }
  }

  lemma GlobalOnTask(s: State, step: Step, tid: Tid)
    requires Enabled(s, step) && Sound(s) && Global(step) && tid in s.tasks && s.nextTid !in s.tasks
    ensures tid in Apply(s, step).tasks ==> SameWork(s.tasks[tid], Apply(s, step).tasks[tid])
  {
    hide Apply, Enabled, AfterArrive, Mark, AfterRestart, SameWork, Sound;
    if step.Record? || step.Admit? {
      RecordStepOnTask(s, step, tid);
    } else {
      GlobalSteps(s, step);
      SameWorkItself(s.tasks[tid]);
      if step.Arrive? {
        ArriveOnTask(s, step, tid);
      } else if step.Restart? {
        NothingAfterRestart(s, step.readable);
      }
    }
  }

  lemma NothingAfterRestart(s: State, readable: bool)
    ensures AfterRestart(s, readable).tasks == map[]
  {
  }

  lemma BetweenOnTask(s: State, step: Step, tid: Tid)
    requires Enabled(s, step) && Sound(s) && !Global(step) && !Own(step) && tid in s.tasks
    ensures tid in Apply(s, step).tasks ==> SameWork(s.tasks[tid], Apply(s, step).tasks[tid])
  {
    hide Apply, Enabled, Sound;
    BetweenSteps(s, step);
  }

  /** The steps a worker does not take itself leave its device and its call alone. */
  lemma OtherStepOnTask(s: State, step: Step, tid: Tid)
    requires Enabled(s, step) && Sound(s) && !Own(step) && tid in s.tasks && s.nextTid !in s.tasks
    ensures tid in Apply(s, step).tasks ==> SameWork(s.tasks[tid], Apply(s, step).tasks[tid])
  {
    hide Apply, Enabled, Sound, SameWork;
    if Global(step) {
      GlobalOnTask(s, step, tid);
    } else {
      BetweenOnTask(s, step, tid);
    }
  }

  lemma CancelledStep(s: State, step: Step, tid: Tid)
    requires Inv(s) && Enabled(s, step) && Sound(s)
    requires tid in s.tasks && s.tasks[tid].cancelled && s.tasks[tid].pc != Sending
    requires tid in Apply(s, step).tasks
    ensures AtMostTheCallUnderWay(s.tasks[tid], Apply(s, step).tasks[tid])
  {
    hide StoreInv, LogInv, GoodTask, Apart, Apply, Enabled, LocksOk, Settles, Advance, Ready;
    assert s.nextTid !in s.tasks;
    if Own(step) {
      OwnStepOnTask(s, step);
      if step.tid == tid {
        CancelledAdvance(s.tasks[tid], step);
      }
    } else {
      OtherStepOnTask(s, step, tid);
    }
  }

  /** Task ids only grow: one that is gone does not come back. */
  ghost predicate IdsGrow(s: State, t: State) {
    s.nextTid <= t.nextTid && forall tid :: tid < s.nextTid && tid !in s.tasks ==> tid !in t.tasks
  }

  lemma GlobalIdsGrow(s: State, step: Step)
    requires Enabled(s, step) && Sound(s) && Global(step)
    ensures IdsGrow(s, Apply(s, step))
  {
    hide Apply, Enabled, AfterAdmit, AfterArrive, Mark, Reload, Save;
    GlobalSteps(s, step);
  }

  lemma BetweenIdsGrow(s: State, step: Step)
    requires Enabled(s, step) && Sound(s) && !Global(step) && !Own(step)
    ensures IdsGrow(s, Apply(s, step))
  {
    hide Apply, Enabled, Sound;
    BetweenSteps(s, step);
  }

  lemma TaskIdsAreNotReused(s: State, step: Step, tid: Tid)
    requires Enabled(s, step) && Sound(s)
    ensures s.nextTid <= Apply(s, step).nextTid
    ensures tid < s.nextTid && tid !in s.tasks ==> tid !in Apply(s, step).tasks
  {
    hide Apply, Enabled, Sound, Advance;
    if Global(step) {
      GlobalIdsGrow(s, step);
    } else if Own(step) {
      OwnStepOnTask(s, step);
    } else {
      BetweenIdsGrow(s, step);
    }
  }

  lemma {:induction false} GoneForGood(s: State, steps: seq<Step>, t: State, tid: Tid)
    requires Inv(s) && Reaches(s, steps, t) && tid < s.nextTid && tid !in s.tasks
    ensures tid !in t.tasks
    decreases |steps|
  {
    hide Inv, Apply, Enabled;
    if steps != [] {
      InvKept(s, steps[0]);
      TaskIdsAreNotReused(s, steps[0], tid);
      GoneForGood(Apply(s, steps[0]), steps[1..], t, tid);
    }
  }

  /** Cancellation stops the device.  Once a worker's flag is set, and unless an
      IPP document is already being sent, at most the one call that had passed
      its check still reaches the device, over every continuation of the run. */
  lemma {:induction false} CancellationStopsTheDevice(s: State, steps: seq<Step>, t: State, tid: Tid)
    requires Inv(s) && Reaches(s, steps, t)
    requires tid in s.tasks && s.tasks[tid].cancelled && s.tasks[tid].pc != Sending && tid in t.tasks
    ensures AtMostTheCallUnderWay(s.tasks[tid], t.tasks[tid])
    decreases |steps|
  {
    hide Inv, Apply, Enabled;
    if steps != [] {
      InvKept(s, steps[0]);
      var next := Apply(s, steps[0]);
      if tid in next.tasks {
        CancelledStep(s, steps[0], tid);
        CancellationStopsTheDevice(next, steps[1..], t, tid);
      } else {
        assert tid < s.nextTid by { TaskIdsAreBelow(s, tid); }
        TaskIdsAreNotReused(s, steps[0], tid);
        GoneForGood(next, steps[1..], t, tid);
        assert false;
      }
    }
  }

  lemma TaskIdsAreBelow(s: State, tid: Tid)
    requires Inv(s) && tid in s.tasks
    ensures tid < s.nextTid
  {
  }
}
