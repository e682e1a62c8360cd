/** Cancellation, outcomes and per-connection locking. */
module Execution {
  import opened Options
  import opened Jobs
  import opened Retention
  import opened Machine
  import opened Invariants

  // ---------------------------------------------------------------- what reached the device

  predicate Unsent(state: JobState) {
    state == CancelledBeforeSend || state == Failed
  }

  /** A job as it is submitted. */
  predicate Unworked(job: Job) {
    job.state == Queued && job.error == None && Shows(job, NOTHING)
  }

  /** The worker's record of possibly accepted bytes covers what the device got. */
  ghost predicate Accounted(t: Task) {
    && (t.pending.Some? ==> t.pc == Executing && t.route == Direct)
    && (t.pending.Some? && t.pending.value.Write? ==> t.running.potentiallyAcceptedWrite)
    && (t.route == Direct ==> t.captured == [] && t.pc != Sending)
    && (t.route == Ipp && (t.pc == Executing || t.pc == Sending) ==> t.device == [])
    && (!t.Holding() ==> t.device == [] && t.captured == [] && t.reported == NOTHING)
    && (Document(t.captured) != [] ==> t.running.potentiallyAcceptedWrite)
    && (Document(t.device) != [] ==> t.running.potentiallyAcceptedWrite)
    && (t.pc.Returned? ==> Honest(t.running, t.pc.result.Reported()))
    && Unworked(t.job)
    && t.running.id == t.job.id && t.running.key == t.job.key && t.running.requestHash == t.job.requestHash
    && (!t.pc.Decided? && !t.pc.Recorded? ==> Shows(t.running, t.reported) && t.running.error == None)
    && (t.pc.Decided? ==>
          Settles(t.running, t.pc.decision) && t.pc.decision.job == t.job && t.pc.decision.reported == t.reported)
  }

  lemma DocumentAppend(calls: seq<Call>, call: Call)
    ensures Document(calls + [call]) == Document(calls) + if call.Write? then call.bytes else []
  {
    assert (calls + [call])[..|calls|] == calls;
  }

  lemma AdvanceKeepsAccount(t: Task, step: Step)
    requires Accounted(t) && Own(step) && Ready(t, step)
    ensures Accounted(Advance(t, step))
  {
    if step.Begin? {
      DocumentAppend(t.captured, step.call);
    }
    if step.End? {
      DocumentAppend(t.device, t.pending.value);
    }
    if step.Send? {
      DocumentAppend(t.device, Write(Document(t.captured)[..step.sent]));
    }
  }

  /** Without a flag every call gets through: on a direct route the device has it when it
      ends, and on an IPP route the recorded document is sent up to where the
      connection took it. */
  lemma CallsGetThrough(t: Task, begin: Step, end: Step)
    requires begin.Begin? && Ready(t, begin) && !t.cancelled && Accounted(t) && end.End?
    ensures t.route == Direct ==>
              && Ready(Advance(t, begin), end)
              && Advance(Advance(t, begin), end) == t.(device := t.device + [begin.call])
    ensures t.route == Ipp ==> Advance(t, begin) == t.(captured := t.captured + [begin.call])
  {
  }

  /** A worker starts its job as running, and each report shows in its record. */
  lemma ProgressIsShown(t: Task, step: Step)
    requires (step.Acquire? || step.Report?) && Ready(t, step)
    ensures var r := Advance(t, step).running;
      && r.updatedAt == step.now
      && (step.Acquire? ==> r == t.job.(state := Running, updatedAt := step.now))
      && (step.Report? ==> Shows(r, step.progress) && r.state == t.running.state && r.error == t.running.error)
  {
  }

  lemma DocumentGetsThrough(t: Task, check: Step, send: Step)
    requires check.CheckSend? && Ready(t, check) && send.Send? && send.sent <= |Document(t.captured)|
    requires send.result.Reported().Some? && Honest(t.running, send.result.Reported())
    ensures !t.cancelled ==> Ready(Advance(t, check), send)
    ensures !t.cancelled ==>
              var u := Advance(Advance(t, check), send);
              && u.pc == Returned(send.result) && |u.device| == |t.device| + 1 && u.device[..|t.device|] == t.device
              && Document([u.device[|t.device|]]) == Document(t.captured)[..send.sent]
    ensures t.cancelled ==> Advance(t, check) == t.(pc := Returned(Failure("cancelled", None)))
  {
    if !t.cancelled {
      var call := Write(Document(t.captured)[..send.sent]);
      DocumentAppend([], call);
      assert [] + [call] == [call];
    }
  }

  // ---------------------------------------------------------------- locks

  ghost predicate Locked(locks: map<string, nat>, t: Task) {
    if t.connection == None then t.lock == None
    else t.connection.value in locks && t.lock == Some(locks[t.connection.value])
  }

  ghost predicate LockTable(locks: map<string, nat>) {
    && (forall c :: c in locks ==> locks[c] < |locks|)
    && (forall c, d :: c in locks && d in locks && locks[c] == locks[d] ==> c == d)
  }

  ghost predicate Exclusive(a: Task, b: Task) {
    a.Holding() && b.Holding() && a.lock.Some? ==> a.lock != b.lock
  }

  ghost predicate LocksOk(locks: map<string, nat>, tasks: map<Tid, Task>) {
    && LockTable(locks)
    && (forall tid :: tid in tasks && (tasks[tid].pc == Located || tasks[tid].Started()) ==> Locked(locks, tasks[tid]))
    && (forall a, b :: a in tasks && b in tasks && a != b ==> Exclusive(tasks[a], tasks[b]))
  }

  lemma PutKeepsLocks(locks: map<string, nat>, tasks: map<Tid, Task>, tid: Tid, t: Task)
    requires LocksOk(locks, tasks)
    requires t.pc == Located || t.Started() ==> Locked(locks, t)
    requires forall other :: other in tasks && other != tid ==> Exclusive(t, tasks[other])
    ensures LocksOk(locks, tasks[tid := t])
  {
  }

  lemma DropKeepsLocks(locks: map<string, nat>, tasks: map<Tid, Task>, tid: Tid)
    requires LocksOk(locks, tasks)
    ensures LocksOk(locks, tasks - {tid})
  {
  }

  lemma NewLock(locks: map<string, nat>, tasks: map<Tid, Task>, c: string)
    requires LocksOk(locks, tasks) && c !in locks
    ensures LocksOk(locks[c := |locks|], tasks)
  {
  }

  // ---------------------------------------------------------------- both are kept

  ghost predicate WorkOk(locks: map<string, nat>, tasks: map<Tid, Task>) {
    && (forall tid :: tid in tasks ==> Accounted(tasks[tid]))
    && LocksOk(locks, tasks)
  }

  /** What the device got is accounted for, and no two workers hold one lock. */
  ghost predicate WorkInv(s: State) {
    WorkOk(s.locks, s.tasks)
  }

  lemma AdvanceShape(t: Task, step: Step)
    requires Own(step) && Ready(t, step)
    ensures var r := Advance(t, step);
      && r.connection == t.connection && r.lock == t.lock && t.Started() && r.Started()
      && r.Holding() && (!step.Acquire? ==> t.Holding())
  {
  }

  lemma OwnKeepsWork(s: State, step: Step)
    requires WorkInv(s) && Enabled(s, step) && Own(step)
    ensures WorkOk(s.locks, s.tasks[step.tid := Advance(s.tasks[step.tid], step)])
  {
    hide Accounted, Settles;
    var t := s.tasks[step.tid];
    var r := Advance(t, step);
    AdvanceKeepsAccount(t, step);
    AdvanceShape(t, step);
    forall other | other in s.tasks && other != step.tid ensures Exclusive(r, s.tasks[other]) {
      assert Exclusive(t, s.tasks[other]);
    }
    PutKeepsLocks(s.locks, s.tasks, step.tid, r);
  }

  lemma LocatedIsAccounted(t: Task, lock: Option<nat>)
    requires Accounted(t) && t.pc == Registered
    ensures Accounted(t.(pc := Located, lock := lock))
  {
  }

  lemma LocateKeepsWork(s: State, tid: Tid)
    requires WorkInv(s) && At(s, tid, Registered)
    ensures WorkInv(AfterLocate(s, tid))
  {
    hide Accounted;
    var t := s.tasks[tid];
    var r := AfterLocate(s, tid);
    LocatedIsAccounted(t, r.tasks[tid].lock);
    if t.connection.Some? && t.connection.value !in s.locks {
      NewLock(s.locks, s.tasks, t.connection.value);
    }
    PutKeepsLocks(r.locks, s.tasks, tid, r.tasks[tid]);
  }

  /** The other steps change at most one task, and leave its device, its lock
      and its place in the lock section. */
  lemma PlainPut(locks: map<string, nat>, tasks: map<Tid, Task>, tid: Tid, t: Task)
    requires WorkOk(locks, tasks) && Accounted(t)
    requires tid in tasks ==>
      var u := tasks[tid];
      t.connection == u.connection && t.lock == u.lock && t.Holding() == u.Holding() &&
      (t.pc == Located || t.Started() ==> u.pc == Located || u.Started())
    requires tid !in tasks ==> t.pc == Planned
    ensures WorkOk(locks, tasks[tid := t])
  {
    forall other | other in tasks && other != tid ensures Exclusive(t, tasks[other]) {
      assert tid in tasks ==> Exclusive(tasks[tid], tasks[other]);
    }
    PutKeepsLocks(locks, tasks, tid, t);
  }

  lemma ArriveKeepsWork(s: State, step: Step)
    requires WorkInv(s) && step.Arrive? && s.nextTid !in s.tasks
    ensures WorkInv(AfterArrive(s, step.key, step.hash, step.id, step.connection, step.route, step.now))
  {
    var job := NewJob(step.id, step.key, if step.key.Some? then Some(step.hash) else None, step.now);
    var t := NewTask(job, step.connection, step.route);
    PlainPut(s.locks, s.tasks, s.nextTid, t);
    var r := AfterArrive(s, step.key, step.hash, step.id, step.connection, step.route, step.now);
    assert r.locks == s.locks && (r.tasks == s.tasks || r.tasks == s.tasks[s.nextTid := t]);
  }

  lemma AdmitKeepsWork(s: State, tid: Tid, saveOk: bool)
    requires WorkInv(s) && At(s, tid, Planned) && WellKeyed(s.store.jobs)
    ensures WorkInv(AfterAdmit(s, tid, saveOk))
  {
    hide AfterAdmit;
    DropKeepsLocks(s.locks, s.tasks, tid);
    PlainPut(s.locks, s.tasks, tid, s.tasks[tid].(pc := Pc.Admitted));
  }

  lemma MoveKeepsWork(s: State, tid: Tid, t: Task)
    requires WorkInv(s) && tid in s.tasks
    requires var u := s.tasks[tid];
      t == u.(cancelled := true) || (u.pc == Pc.Admitted && t == u.(pc := Registered)) ||
      (u.pc == Located && t == u.(pc := Waiting)) || (u.pc.Decided? && t == u.(pc := Recorded))
    ensures WorkOk(s.locks, s.tasks[tid := t])
  {
    hide Settles, LocksOk;
    PlainPut(s.locks, s.tasks, tid, t);
  }

  lemma DropKeepsWork(s: State, tid: Tid)
    requires WorkInv(s)
    ensures WorkOk(s.locks, s.tasks - {tid})
  {
  }

  lemma NoWork()
    ensures WorkOk(map[], map[])
  {
  }

  lemma OwnWorkKept(s: State, step: Step)
    requires WorkInv(s) && Enabled(s, step) && Own(step) && Sound(s)
    ensures WorkInv(Apply(s, step))
  {
    hide Advance, Ready, WorkOk;
    OwnKeepsWork(s, step);
  }

  lemma GlobalWorkKept(s: State, step: Step)
    requires s.nextTid !in s.tasks && WorkInv(s) && Enabled(s, step) && Global(step) && Sound(s)
    ensures WorkInv(Apply(s, step))
  {
    hide AfterAdmit, AfterArrive, AfterRecord, AfterRestart, Mark, WorkOk, Apply, Enabled;
    GlobalSteps(s, step);
    match step {
      case Arrive(key, hash, id, connection, route, now) => ArriveKeepsWork(s, step);
      case Admit(tid, saveOk) => AdmitKeepsWork(s, tid, saveOk);
      case Record(tid, saveOk) => RecordKeepsWork(s, tid, saveOk);
      case MarkCancelled(id, now, saveOk) =>
      case Restart(readable) => RestartKeepsWork(s, readable);
    }
  }

  lemma RecordKeepsWork(s: State, tid: Tid, saveOk: bool)
    requires WorkInv(s) && AtEnd(s, tid) && Sound(s)
    ensures WorkInv(AfterRecord(s, tid, saveOk))
  {
    hide WorkOk, Save;
    MoveKeepsWork(s, tid, s.tasks[tid].(pc := Recorded));
  }

  lemma RestartKeepsWork(s: State, readable: bool)
    ensures WorkInv(AfterRestart(s, readable))
  {
    NoWork();
  }

  lemma TaskWorkKept(s: State, step: Step)
    requires WorkInv(s) && Enabled(s, step) && !Global(step) && !Own(step) && Sound(s)
    ensures WorkInv(Apply(s, step))
  {
    hide AfterLocate, WorkOk;
    match step {
      case Register(tid) => MoveKeepsWork(s, tid, s.tasks[tid].(pc := Registered));
      case Locate(tid) => LocateKeepsWork(s, tid);
      case Spawn(tid) => MoveKeepsWork(s, tid, s.tasks[tid].(pc := Waiting));
      case Abandon(tid) => DropKeepsWork(s, tid);
      case RaiseFlag(id) =>
        if s.flags[id] in s.tasks {
          MoveKeepsWork(s, s.flags[id], s.tasks[s.flags[id]].(cancelled := true));
        }
    }
  }

  lemma WorkKept(s: State, step: Step)
    requires s.nextTid !in s.tasks && WorkInv(s) && Enabled(s, step) && Sound(s)
    ensures WorkInv(Apply(s, step))
  {
    if Own(step) {
      OwnWorkKept(s, step);
    } else if Global(step) {
      GlobalWorkKept(s, step);
    } else {
      TaskWorkKept(s, step);
    }
  }
}
