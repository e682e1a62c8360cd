/** A cancellation finds its worker, in every reachable state. */
module Cancellations {
  import opened Jobs
  import opened Retention
  import opened Machine
  import opened Invariants
  import opened Execution
  import opened History
  import opened Runs

  /** Registered, and its final record not yet in the shared map. */
  predicate Cancellable(t: Task) {
    t.Live() && !t.pc.Admitted?
  }

  /** The flag under a job's id is that of its worker. */
  ghost predicate FlagsFind(flags: map<Id, Tid>, tasks: map<Tid, Task>) {
    forall tid :: tid in tasks && Cancellable(tasks[tid]) ==>
      tasks[tid].job.id in flags && flags[tasks[tid].job.id] == tid
  }

  lemma ChangedTask(flags: map<Id, Tid>, tasks: map<Tid, Task>, tid: Tid, t: Task)
    requires FlagsFind(flags, tasks)
    requires Cancellable(t) ==> tid in tasks && Cancellable(tasks[tid]) && t.job == tasks[tid].job
    ensures FlagsFind(flags, tasks[tid := t]) && FlagsFind(flags, tasks - {tid})
  {
  }

  lemma DroppedTask(flags: map<Id, Tid>, tasks: map<Tid, Task>, tid: Tid)
    requires FlagsFind(flags, tasks)
    ensures FlagsFind(flags, tasks - {tid})
  {
  }

  lemma RegisterFinds(s: State, tid: Tid)
    requires TaskInv(s) && FlagsFind(s.flags, s.tasks) && At(s, tid, Pc.Admitted)
    ensures var r := AfterRegister(s, tid); FlagsFind(r.flags, r.tasks)
  {
    hide GoodTask;
    forall other | other in s.tasks && other != tid && Cancellable(s.tasks[other])
      ensures s.tasks[other].job.id != s.tasks[tid].job.id
    {
      assert Apart(s.store, s.tasks[other], s.tasks[tid]);
    }
  }

  lemma ArriveFinds(s: State, step: Step)
    requires step.Arrive? && FlagsFind(s.flags, s.tasks)
    ensures var r := AfterArrive(s, step.key, step.hash, step.id, step.connection, step.route, step.now);
            FlagsFind(r.flags, r.tasks)
  {
    hide AfterArrive, UseId;
  }

  lemma AdmitFinds(s: State, tid: Tid, saveOk: bool)
    requires At(s, tid, Planned) && WellKeyed(s.store.jobs) && FlagsFind(s.flags, s.tasks)
    ensures FlagsFind(AfterAdmit(s, tid, saveOk).flags, AfterAdmit(s, tid, saveOk).tasks)
  {
    hide AfterAdmit, FlagsFind;
    ChangedTask(s.flags, s.tasks, tid, s.tasks[tid].(pc := Pc.Admitted));
  }

  lemma RecordFinds(s: State, tid: Tid, saveOk: bool)
    requires AtEnd(s, tid) && Sound(s) && FlagsFind(s.flags, s.tasks)
    ensures FlagsFind(AfterRecord(s, tid, saveOk).flags, AfterRecord(s, tid, saveOk).tasks)
  {
    hide Save, FlagsFind;
    ChangedTask(s.flags, s.tasks, tid, s.tasks[tid].(pc := Recorded));
  }

  lemma NoTaskIsFound()
    ensures FlagsFind(map[], map[])
  {
  }

  lemma GlobalFinds(s: State, step: Step)
    requires Enabled(s, step) && Sound(s) && Global(step) && FlagsFind(s.flags, s.tasks)
    ensures FlagsFind(Apply(s, step).flags, Apply(s, step).tasks)
  {
    hide Apply, Enabled, AfterAdmit, AfterArrive, AfterRecord, Mark, Reload, FlagsFind;
    GlobalSteps(s, step);
    match step {
      case Arrive(key, hash, id, connection, route, now) => ArriveFinds(s, step);
      case Admit(tid, saveOk) => AdmitFinds(s, tid, saveOk);
      case Record(tid, saveOk) => RecordFinds(s, tid, saveOk);
      case MarkCancelled(id, now, saveOk) =>
      case Restart(readable) => NoTaskIsFound();
    }
  }

  lemma OwnKeepsJob(t: Task, step: Step)
    requires Own(step) && Ready(t, step)
    ensures Advance(t, step).job == t.job && (Cancellable(Advance(t, step)) ==> Cancellable(t))
  {
  }

  lemma BetweenFinds(s: State, step: Step)
    requires TaskInv(s) && Enabled(s, step) && Sound(s) && !Global(step) && !Own(step) && FlagsFind(s.flags, s.tasks)
    ensures FlagsFind(Apply(s, step).flags, Apply(s, step).tasks)
  {
    hide Apply, Enabled, TasksOk, FlagsFind, Sound;
    BetweenSteps(s, step);
    match step {
      case Register(tid) => RegisterFinds(s, tid);
      case Locate(tid) => ChangedTask(s.flags, s.tasks, tid, AfterLocate(s, tid).tasks[tid]);
      case Spawn(tid) => ChangedTask(s.flags, s.tasks, tid, s.tasks[tid].(pc := Waiting));
      case Abandon(tid) => DroppedTask(s.flags, s.tasks, tid);
      case RaiseFlag(id) =>
        if s.flags[id] in s.tasks {
          ChangedTask(s.flags, s.tasks, s.flags[id], s.tasks[s.flags[id]].(cancelled := true));
        }
    }
  }

  lemma FindsKept(s: State, step: Step)
    requires Inv(s) && Enabled(s, step) && Sound(s) && FlagsFind(s.flags, s.tasks)
    ensures FlagsFind(Apply(s, step).flags, Apply(s, step).tasks)
  {
    hide StoreInv, TasksOk, WorkOk, LogInv, Apply, Enabled, Sound, Advance, Ready, FlagsFind;
    if Global(step) {
      GlobalFinds(s, step);
    } else if Own(step) {
      OwnStepOnTask(s, step);
      OwnKeepsJob(s.tasks[step.tid], step);
      ChangedTask(s.flags, s.tasks, step.tid, Advance(s.tasks[step.tid], step));
    } else {
      BetweenFinds(s, step);
    }
  }

  lemma {:induction false} FindsAlways(s: State, steps: seq<Step>, t: State)
    requires Inv(s) && FlagsFind(s.flags, s.tasks) && Reaches(s, steps, t)
    ensures FlagsFind(t.flags, t.tasks)
    decreases |steps|
  {
    hide Inv, Apply, Enabled, FlagsFind;
    if steps != [] {
      InvKept(s, steps[0]);
      FindsKept(s, steps[0]);
      FindsAlways(Apply(s, steps[0]), steps[1..], t);
    }
  }

  /** In every reachable state a cancellation of a registered job raises the flag of the
      one worker of that job, and of no other. */
  lemma CancellationReachesTheWorker(s: State, steps: seq<Step>, t: State, tid: Tid)
    requires Initial(s) && Reaches(s, steps, t) && tid in t.tasks && Cancellable(t.tasks[tid]) && Sound(t)
    ensures Enabled(t, RaiseFlag(t.tasks[tid].job.id))
    ensures Apply(t, RaiseFlag(t.tasks[tid].job.id)).tasks == t.tasks[tid := t.tasks[tid].(cancelled := true)]
  {
    hide Reaches, Inv;
    InvInitially(s);
    assert FlagsFind(s.flags, s.tasks);
    FindsAlways(s, steps, t);
  }

  /** A raised flag that the worker has not overlooked. */
  predicate Flagged(t: Task) {
    t.cancelled && (t.pc.Decided? ==> t.pc.decision.flagged)
  }

  lemma AdvanceStaysFlagged(t: Task, step: Step)
    requires Own(step) && Ready(t, step) && Flagged(t)
    ensures Flagged(Advance(t, step))
  {
  }

  lemma StaysFlagged(s: State, step: Step, tid: Tid)
    requires Inv(s) && Enabled(s, step) && Sound(s) && tid in s.tasks && Flagged(s.tasks[tid]) && tid in Apply(s, step).tasks
    ensures Flagged(Apply(s, step).tasks[tid])
  {
    hide Inv, Apply, Enabled, Advance, Ready, Sound;
    assert s.nextTid !in s.tasks by {
      if s.nextTid in s.tasks {
        TaskIdsAreBelow(s, s.nextTid);
      }
    }
    if Own(step) {
      OwnStepOnTask(s, step);
      if step.tid == tid {
        AdvanceStaysFlagged(s.tasks[tid], step);
      }
    } else {
      OtherStepOnTask(s, step, tid);
    }
  }

  lemma {:induction false} FlaggedAlways(s: State, steps: seq<Step>, t: State, tid: Tid)
    requires Inv(s) && Reaches(s, steps, t) && tid in s.tasks && Flagged(s.tasks[tid]) && tid in t.tasks
    ensures Flagged(t.tasks[tid])
    decreases |steps|
  {
    hide Inv, Apply, Enabled, Flagged;
    if steps != [] {
      InvKept(s, steps[0]);
      var next := Apply(s, steps[0]);
      if tid in next.tasks {
        StaysFlagged(s, steps[0], tid);
        FlaggedAlways(next, steps[1..], t, tid);
      } else {
        assert tid < s.nextTid by { TaskIdsAreBelow(s, tid); }
        TaskIdsAreNotReused(s, steps[0], tid);
        GoneForGood(next, steps[1..], t, tid);
        assert false;
      }
    }
  }

  /** From then on at most the one call under way reaches the device, and the worker
      decides on a cancelled record. */
  lemma CancelledWorkerStops(s: State, before: seq<Step>, t: State, after: seq<Step>, u: State, tid: Tid)
    requires Initial(s) && Reaches(s, before, t) && tid in t.tasks && Cancellable(t.tasks[tid]) && Sound(t)
    requires t.tasks[tid].pc != Sending && !t.tasks[tid].pc.Decided?
    requires Enabled(t, RaiseFlag(t.tasks[tid].job.id)) && Reaches(Apply(t, RaiseFlag(t.tasks[tid].job.id)), after, u)
    requires tid in u.tasks
    ensures AtMostTheCallUnderWay(t.tasks[tid].(cancelled := true), u.tasks[tid])
    ensures u.tasks[tid].pc.Decided? ==> u.tasks[tid].running.state in {CancelledBeforeSend, CancelledPartial}
  {
    hide Inv, Initial, Reaches, Apply, Enabled, Settles, Sound;
    var step := RaiseFlag(t.tasks[tid].job.id);
    CancellationReachesTheWorker(s, before, t, tid);
    InvInitially(s);
    InvAlways(s, before, t);
    InvKept(t, step);
    CancellationStopsTheDevice(Apply(t, step), after, u, tid);
    FlaggedAlways(Apply(t, step), after, u, tid);
    InvAlways(Apply(t, step), after, u);
    if u.tasks[tid].pc.Decided? {
      DecidedIsSettled(u, tid);
    }
  }

  lemma DecidedIsSettled(s: State, tid: Tid)
    requires Inv(s) && tid in s.tasks && s.tasks[tid].pc.Decided?
    ensures s.tasks[tid].pc.decision.flagged ==> s.tasks[tid].running.state in {CancelledBeforeSend, CancelledPartial}
  {
    assert Accounted(s.tasks[tid]);
  }
}
