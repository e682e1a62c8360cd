/** The cloud agent on top of the executor: two deduplication layers under
    duplicate and conflicting deliveries (src/cloud/agent.rs). */
module CloudAgent {
  import opened Options
  import opened Jobs
  import opened Retention
  import opened Machine
  import opened Invariants
  import opened Execution
  import opened History
  import opened CloudStore
  import Runs

  datatype Message = JobReceived(id: Id, sha: string) | JobProgress(job: Job) | JobResult(job: Job)

  /** Where the agent is with the message it handles. */
  datatype Phase = Idle | Submitting(id: Id, sha: string) | Awaiting(id: Id, tid: Tid) | Down

  /** The executor, the cloud records in memory and in their file, the phase of
      the agent and everything it has sent. */
  datatype Agent = Agent(
    exec: State,
    records: map<Id, CloudJob>,
    saved: map<Id, CloudJob>,
    phase: Phase,
    sent: seq<Message>)

  datatype Move =
    | Run(step: Step)
    | Deliver(delivery: Delivery, limit: nat, now: Time, saveOk: bool)
    | Submit(connection: string, route: Route, now: Time)
    | Reject(error: string, saveOk: bool)
    | Settle(answer: nat, saveOk: bool)
    | ReportJob(id: Id, saveOk: bool)
    | Reboot(readable: bool, saveOk: bool)

  predicate IsCloudArrival(step: Step) {
    step.Arrive? && step.key.Some? && step.key.value.Cloud?
  }

  ghost predicate CanMove(a: Agent, m: Move) {
    match m
    case Run(step) => Enabled(a.exec, step) && !IsCloudArrival(step) && !step.Restart?
    case Deliver(_, _, _, _) => a.phase.Idle?
    case Submit(connection, route, now) =>
      a.phase.Submitting? && Enabled(a.exec, SubmitStep(a.phase.id, a.phase.sha, connection, route, now))
    case Reject(_, _) => a.phase.Submitting? && a.phase.id in a.records
    case Settle(i, _) =>
      && a.phase.Awaiting? && a.phase.id in a.records
      && i < |a.exec.log| && a.exec.log[i].Answered? && a.exec.log[i].tid == a.phase.tid
    case ReportJob(id, _) => id in a.records && id in a.exec.store.jobs
    case Reboot(_, _) => true
  }

  function SubmitStep(id: Id, sha: string, connection: string, route: Route, now: Time): Step {
    Arrive(Some(Cloud(id)), sha, id, Some(connection), route, now)
  }

  function SaveRecords(a: Agent, records: map<Id, CloudJob>, saveOk: bool): Agent {
    a.(records := records, saved := if saveOk then records else a.saved)
  }

  /** Receive, save, acknowledge, then answer a finished job or go on to submit. */
  function AfterDeliver(a: Agent, d: Delivery, limit: nat, now: Time, saveOk: bool): Agent {
    if d.jobId.None? || !d.configured then a
    else
      var r := Examine(a.records, d, limit, now);
      if r.Rejected? then a
      else
        var b := SaveRecords(a, Taken(a.records, r), saveOk);
        if !saveOk then b
        else
          var acknowledged := b.(sent := b.sent + [JobReceived(d.jobId.value, d.claimedSha)]);
          if r.Existing? && r.job.local.Terminal() then
            acknowledged.(sent := acknowledged.sent + [JobResult(r.job.local)])
          else acknowledged.(phase := Submitting(d.jobId.value, d.claimedSha))
  }

  function AfterFailure(a: Agent, id: Id, error: string, saveOk: bool): Agent
    requires id in a.records
  {
    var failed := a.records[id].local.(state := Failed, error := Some(error));
    var b := SaveRecords(a, a.records[id := a.records[id].(local := failed)], saveOk).(phase := Idle);
    if saveOk then b.(sent := b.sent + [JobResult(failed)]) else b
  }

  function AfterSettle(a: Agent, answer: Answer, saveOk: bool): Agent
    requires a.phase.Awaiting? && a.phase.id in a.records
  {
    var id := a.phase.id;
    match answer
    case Accepted(job) => SaveRecords(a, a.records[id := a.records[id].(local := job)], saveOk).(phase := Idle)
    case Replayed(job) => SaveRecords(a, a.records[id := a.records[id].(local := job)], saveOk).(phase := Idle)
    case Conflicted => AfterFailure(a, id, "idempotency key was used for a different request", saveOk)
    case Refused => AfterFailure(a, id, "all retained jobs are active", saveOk)
    case SaveFailed => AfterFailure(a, id, "job persistence failed", saveOk)
  }

  function AfterReport(a: Agent, id: Id, saveOk: bool): Agent
    requires id in a.records && id in a.exec.store.jobs
  {
    var job := a.exec.store.jobs[id];
    var b := SaveRecords(a, a.records[id := a.records[id].(local := job)], saveOk);
    if !saveOk then b
    else b.(sent := b.sent + [if job.Terminal() then JobResult(job) else JobProgress(job)])
  }

  /** A new process: the agent goes on only after saving the records it loaded. */
  function AfterReboot(a: Agent, readable: bool, saveOk: bool): Agent {
    SaveRecords(a, ReconciledAll(a.saved), saveOk).(
      exec := AfterRestart(a.exec, readable),
      phase := if saveOk then Idle else Down)
  }

  ghost function After(a: Agent, m: Move): Agent
    requires Sound(a.exec) && CanMove(a, m)
  {
    match m
    case Run(step) => a.(exec := Apply(a.exec, step))
    case Deliver(d, limit, now, saveOk) => AfterDeliver(a, d, limit, now, saveOk)
    case Submit(connection, route, now) =>
      a.(exec := Apply(a.exec, SubmitStep(a.phase.id, a.phase.sha, connection, route, now)),
         phase := Awaiting(a.phase.id, a.exec.nextTid))
    case Reject(error, saveOk) => AfterFailure(a, a.phase.id, error, saveOk)
    case Settle(i, saveOk) => AfterSettle(a, a.exec.log[i].answer, saveOk)
    case ReportJob(id, saveOk) => AfterReport(a, id, saveOk)
    case Reboot(readable, saveOk) => AfterReboot(a, readable, saveOk)
  }

  // ---------------------------------------------------------------- the two layers agree

  predicate Registered(saved: map<Id, CloudJob>, id: Id, sha: string) {
    id in saved && saved[id].sha == sha
  }

  /** A job that carries a cloud key carries the digest of that id's saved record. */
  predicate Agrees(saved: map<Id, CloudJob>, job: Job) {
    job.key.Some? && job.key.value.Cloud? ==>
      job.requestHash.Some? && Registered(saved, job.key.value.id, job.requestHash.value)
  }

  ghost predicate MapAgrees(saved: map<Id, CloudJob>, jobs: map<Id, Job>) {
    forall id :: id in jobs ==> Agrees(saved, jobs[id])
  }

  ghost predicate TasksAgree(saved: map<Id, CloudJob>, tasks: map<Tid, Task>) {
    forall tid :: tid in tasks ==>
      && Agrees(saved, tasks[tid].job)
      && tasks[tid].running.requestHash == tasks[tid].job.requestHash && tasks[tid].running.key == tasks[tid].job.key
  }

  /** No cloud submission was answered with the hash conflict. */
  predicate NoCloudConflict(e: Event) {
    e.Answered? && e.key.Some? && e.key.value.Cloud? ==> !e.answer.Conflicted?
  }

  ghost predicate LogAgrees(log: seq<Event>) {
    forall i :: 0 <= i < |log| ==> NoCloudConflict(log[i])
  }

  ghost predicate ExecAgrees(saved: map<Id, CloudJob>, s: State) {
    && MapAgrees(saved, s.store.jobs)
    && MapAgrees(saved, s.store.saved)
    && TasksAgree(saved, s.tasks)
    && LogAgrees(s.log)
  }

  ghost predicate RecordsKeep(saved: map<Id, CloudJob>, records: map<Id, CloudJob>) {
    forall id :: id in saved ==> id in records && records[id].sha == saved[id].sha && records[id].printer == saved[id].printer
  }

  ghost predicate Acknowledged(saved: map<Id, CloudJob>, sent: seq<Message>) {
    forall i :: 0 <= i < |sent| && sent[i].JobReceived? ==> Registered(saved, sent[i].id, sent[i].sha)
  }

  ghost predicate AgentInv(a: Agent) {
    && Runs.Inv(a.exec)
    && ExecAgrees(a.saved, a.exec)
    && RecordsKeep(a.saved, a.records)
    && Acknowledged(a.saved, a.sent)
    && (a.phase.Submitting? ==> Registered(a.saved, a.phase.id, a.phase.sha))
  }

  // ---------------------------------------------------------------- executor steps

  lemma SaveAgrees(saved: map<Id, CloudJob>, store: Store, jobs: map<Id, Job>, saveOk: bool)
    requires WellKeyed(jobs) && MapAgrees(saved, jobs) && MapAgrees(saved, store.saved)
    ensures MapAgrees(saved, Save(store, jobs, saveOk).jobs) && MapAgrees(saved, Save(store, jobs, saveOk).saved)
  {
  }

  lemma LookupAgrees(saved: map<Id, CloudJob>, jobs: map<Id, Job>, id: Id, key: Key, sha: string)
    requires MapAgrees(saved, jobs) && id in jobs && jobs[id].key == Some(key) && key.Cloud? && Registered(saved, key.id, sha)
    ensures jobs[id].requestHash == Some(sha)
  {
    assert Agrees(saved, jobs[id]);
  }

  lemma EarlyReplyAgrees(saved: map<Id, CloudJob>, jobs: map<Id, Job>, key: Key, sha: string)
    requires MapAgrees(saved, jobs) && HasKey(jobs, key) && key.Cloud? && Registered(saved, key.id, sha)
    ensures !EarlyReply(jobs, key, sha).Conflicted?
  {
    forall id | id in jobs && jobs[id].key == Some(key) ensures jobs[id].requestHash == Some(sha) {
      LookupAgrees(saved, jobs, id, key, sha);
    }
  }

  lemma ArriveAgrees(saved: map<Id, CloudJob>, s: State, step: Step)
    requires ExecAgrees(saved, s) && step.Arrive?
    requires IsCloudArrival(step) ==> Registered(saved, step.key.value.id, step.hash)
    ensures ExecAgrees(saved, AfterArrive(s, step.key, step.hash, step.id, step.connection, step.route, step.now))
  {
    hide AfterArrive, EarlyReply;
    if IsCloudArrival(step) && HasKey(s.store.jobs, step.key.value) {
      EarlyReplyAgrees(saved, s.store.jobs, step.key.value, step.hash);
    }
  }

  lemma LateReplyAgrees(saved: map<Id, CloudJob>, jobs: map<Id, Job>, job: Job, limit: nat)
    requires WellKeyed(jobs) && MapAgrees(saved, jobs) && Agrees(saved, job) && job.key.Some? && job.key.value.Cloud?
    ensures !Retention.Admit(jobs, job, limit).Conflict?
  {
    forall id | id in jobs && jobs[id].key == job.key ensures jobs[id].requestHash == job.requestHash {
      LookupAgrees(saved, jobs, id, job.key.value, job.requestHash.value);
    }
  }

  lemma AdmissionAgrees(saved: map<Id, CloudJob>, store: Store, job: Job, saveOk: bool)
    requires StoreInv(store) && job.id !in store.jobs && Agrees(saved, job)
    requires MapAgrees(saved, store.jobs) && MapAgrees(saved, store.saved)
    requires Retention.Admit(store.jobs, job, store.limit).Admitted?
    ensures WellKeyed(Retention.Admit(store.jobs, job, store.limit).jobs)
    ensures var after := Save(store, Retention.Admit(store.jobs, job, store.limit).jobs, saveOk);
      MapAgrees(saved, after.jobs) && MapAgrees(saved, after.saved)
  {
    AdmissionKeepsHistory(store.jobs, job, store.limit);
    var jobs := Retention.Admit(store.jobs, job, store.limit).jobs;
    SaveAgrees(saved, store, jobs, saveOk);
  }

  lemma AdmittedStoreAgrees(saved: map<Id, CloudJob>, s: State, tid: Tid, saveOk: bool)
    requires StoreInv(s.store) && TaskInv(s) && ExecAgrees(saved, s) && At(s, tid, Planned)
    requires Retention.Admit(s.store.jobs, s.tasks[tid].job, s.store.limit).Admitted?
    ensures WellKeyed(Retention.Admit(s.store.jobs, s.tasks[tid].job, s.store.limit).jobs)
    ensures var after := Save(s.store, Retention.Admit(s.store.jobs, s.tasks[tid].job, s.store.limit).jobs, saveOk);
      MapAgrees(saved, after.jobs) && MapAgrees(saved, after.saved)
  {
    hide StoreInv, TasksOk, Save, Retention.Admit, Agrees, MapAgrees;
    AdmittedIsNew(s, tid);
    AdmissionAgrees(saved, s.store, s.tasks[tid].job, saveOk);
  }

  lemma AdmittedTaskAgrees(saved: map<Id, CloudJob>, tasks: map<Tid, Task>, tid: Tid)
    requires TasksAgree(saved, tasks) && tid in tasks
    ensures TasksAgree(saved, tasks - {tid}) && TasksAgree(saved, tasks[tid := tasks[tid].(pc := Pc.Admitted)])
  {
  }

  lemma AdmittedAgrees(saved: map<Id, CloudJob>, s: State, tid: Tid, saveOk: bool)
    requires StoreInv(s.store) && TaskInv(s) && ExecAgrees(saved, s) && At(s, tid, Planned)
    requires Retention.Admit(s.store.jobs, s.tasks[tid].job, s.store.limit).Admitted?
    ensures ExecAgrees(saved, AfterAdmit(s, tid, saveOk))
  {
    hide AfterAdmit, StoreInv, TasksOk, Save, Retention.Admit, MapAgrees, TasksAgree;
    StoreIsKeyed(s.store);
    AdmittedTaskAgrees(saved, s.tasks, tid);
    AdmittedStoreAgrees(saved, s, tid, saveOk);
    var a := Retention.Admit(s.store.jobs, s.tasks[tid].job, s.store.limit);
    var after := if a.evicted.Some? then s.log + [Evicted(a.evicted.value)] else s.log;
    AdmittedLog(s, tid, saveOk, after, Save(s.store, a.jobs, saveOk));
  }

  lemma TurnedAwayAgrees(saved: map<Id, CloudJob>, s: State, tid: Tid, saveOk: bool)
    requires WellKeyed(s.store.jobs) && ExecAgrees(saved, s) && At(s, tid, Planned)
    requires !Retention.Admit(s.store.jobs, s.tasks[tid].job, s.store.limit).Admitted?
    ensures ExecAgrees(saved, AfterAdmit(s, tid, saveOk))
  {
    hide AfterAdmit, Retention.Admit;
    var t := s.tasks[tid];
    assert Agrees(saved, t.job);
    TurnedAway(s, tid, saveOk);
    if t.job.key.Some? && t.job.key.value.Cloud? {
      LateReplyAgrees(saved, s.store.jobs, t.job, s.store.limit);
    }
  }

  lemma AdmitAgrees(saved: map<Id, CloudJob>, s: State, tid: Tid, saveOk: bool)
    requires StoreInv(s.store) && TaskInv(s) && ExecAgrees(saved, s) && At(s, tid, Planned)
    ensures ExecAgrees(saved, AfterAdmit(s, tid, saveOk))
  {
    hide AfterAdmit, StoreInv, TasksOk, ExecAgrees, Retention.Admit;
    StoreIsKeyed(s.store);
    if Retention.Admit(s.store.jobs, s.tasks[tid].job, s.store.limit).Admitted? {
      AdmittedAgrees(saved, s, tid, saveOk);
    } else {
      TurnedAwayAgrees(saved, s, tid, saveOk);
    }
  }

  lemma RecordAgrees(saved: map<Id, CloudJob>, s: State, tid: Tid, saveOk: bool)
    requires StoreInv(s.store) && ExecAgrees(saved, s) && AtEnd(s, tid)
    requires s.tasks[tid].running.id == s.tasks[tid].job.id
    ensures ExecAgrees(saved, AfterRecord(s, tid, saveOk))
  {
    var t := s.tasks[tid];
    var jobs := s.store.jobs[t.job.id := t.running];
    assert Agrees(saved, t.job);
    assert MapAgrees(saved, jobs);
    SaveAgrees(saved, s.store, jobs, saveOk);
  }

  lemma MarkAgrees(saved: map<Id, CloudJob>, s: State, id: Id, now: Time, saveOk: bool)
    requires StoreInv(s.store) && ExecAgrees(saved, s) && id in s.store.jobs
    ensures ExecAgrees(saved, s.(store := Mark(s.store, id, now, saveOk)))
  {
    var jobs := s.store.jobs[id := s.store.jobs[id].RequestCancel(now)];
    assert Agrees(saved, s.store.jobs[id]);
    assert MapAgrees(saved, jobs);
    SaveAgrees(saved, s.store, jobs, saveOk);
  }

  lemma RestartAgrees(saved: map<Id, CloudJob>, s: State, readable: bool)
    requires StoreInv(s.store) && ExecAgrees(saved, s)
    ensures ExecAgrees(saved, AfterRestart(s, readable))
  {
    ReloadRestores(s.store);
    forall id | id in s.store.saved ensures Agrees(saved, Interrupted(s.store.saved[id])) {
      assert Agrees(saved, s.store.saved[id]);
    }
  }

  lemma GlobalAgrees(saved: map<Id, CloudJob>, s: State, step: Step)
    requires StoreInv(s.store) && TaskInv(s) && ExecAgrees(saved, s) && Enabled(s, step) && Sound(s) && Global(step)
    requires IsCloudArrival(step) ==> Registered(saved, step.key.value.id, step.hash)
    ensures ExecAgrees(saved, Apply(s, step))
  {
    hide AfterArrive, AfterAdmit, AfterRecord, AfterRestart, Mark, ExecAgrees, StoreInv, TasksOk;
    match step {
      case Arrive(key, hash, id, connection, route, now) => ArriveAgrees(saved, s, step);
      case Admit(tid, saveOk) => AdmitAgrees(saved, s, tid, saveOk);
      case Record(tid, saveOk) => RecordAgrees(saved, s, tid, saveOk);
      case MarkCancelled(id, now, saveOk) => MarkAgrees(saved, s, id, now, saveOk);
      case Restart(readable) => RestartAgrees(saved, s, readable);
    }
  }

  lemma AdvanceAgrees(t: Task, step: Step)
    requires Own(step) && Ready(t, step) && t.running.requestHash == t.job.requestHash && t.running.key == t.job.key
    ensures var r := Advance(t, step);
      r.job == t.job && r.running.requestHash == r.job.requestHash && r.running.key == r.job.key
  {
  }

  lemma PutAgrees(saved: map<Id, CloudJob>, s: State, tid: Tid, t: Task)
    requires ExecAgrees(saved, s) && tid in s.tasks && t.job == s.tasks[tid].job
    requires t.running.requestHash == t.job.requestHash && t.running.key == t.job.key
    ensures TasksAgree(saved, s.tasks[tid := t])
  {
  }

  lemma OwnAgrees(saved: map<Id, CloudJob>, s: State, step: Step)
    requires ExecAgrees(saved, s) && Enabled(s, step) && Sound(s) && Own(step)
    ensures ExecAgrees(saved, Apply(s, step))
  {
    OwnStepOnTask(s, step);
    hide Apply, Enabled, Advance, Ready;
    AdvanceAgrees(s.tasks[step.tid], step);
    PutAgrees(saved, s, step.tid, Advance(s.tasks[step.tid], step));
  }

  lemma TaskAgrees(saved: map<Id, CloudJob>, s: State, step: Step)
    requires ExecAgrees(saved, s) && Enabled(s, step) && Sound(s) && !Global(step) && !Own(step)
    ensures ExecAgrees(saved, Apply(s, step))
  {
    hide Apply, Enabled, Agrees, MapAgrees;
    BetweenSteps(s, step);
    match step {
      case Register(tid) => PutAgrees(saved, s, tid, s.tasks[tid].(pc := Pc.Registered));
      case Locate(tid) => PutAgrees(saved, s, tid, AfterLocate(s, tid).tasks[tid]);
      case Spawn(tid) => PutAgrees(saved, s, tid, s.tasks[tid].(pc := Waiting));
      case Abandon(tid) =>
      case RaiseFlag(id) =>
        if s.flags[id] in s.tasks {
          PutAgrees(saved, s, s.flags[id], s.tasks[s.flags[id]].(cancelled := true));
        }
    }
  }

  lemma ExecStepAgrees(saved: map<Id, CloudJob>, s: State, step: Step)
    requires Runs.Inv(s) && ExecAgrees(saved, s) && Enabled(s, step) && Sound(s)
    requires IsCloudArrival(step) ==> Registered(saved, step.key.value.id, step.hash)
    ensures ExecAgrees(saved, Apply(s, step))
  {
    hide StoreInv, TasksOk, WorkInv, LogInv, ExecAgrees, Apply, Enabled, Sound;
    if Global(step) {
      GlobalAgrees(saved, s, step);
    } else if Own(step) {
      OwnAgrees(saved, s, step);
    } else {
      TaskAgrees(saved, s, step);
    }
  }

  // ---------------------------------------------------------------- agent moves

  /** More records, with the digests of the old ones unchanged, keep the agreement. */
  lemma MoreRecords(saved: map<Id, CloudJob>, more: map<Id, CloudJob>, s: State, sent: seq<Message>)
    requires RecordsKeep(saved, more) && ExecAgrees(saved, s) && Acknowledged(saved, sent)
    ensures ExecAgrees(more, s) && Acknowledged(more, sent)
  {
    forall id | id in s.store.jobs ensures Agrees(more, s.store.jobs[id]) {
      assert Agrees(saved, s.store.jobs[id]);
    }
    forall id | id in s.store.saved ensures Agrees(more, s.store.saved[id]) {
      assert Agrees(saved, s.store.saved[id]);
    }
    forall tid | tid in s.tasks ensures Agrees(more, s.tasks[tid].job) {
      assert Agrees(saved, s.tasks[tid].job);
    }
  }

  lemma SaveRecordsKept(a: Agent, records: map<Id, CloudJob>, saveOk: bool)
    requires AgentInv(a) && RecordsKeep(a.records, records)
    ensures AgentInv(SaveRecords(a, records, saveOk))
  {
    assert RecordsKeep(a.saved, records);
    MoreRecords(a.saved, SaveRecords(a, records, saveOk).saved, a.exec, a.sent);
  }

  lemma DeliverKept(a: Agent, d: Delivery, limit: nat, now: Time, saveOk: bool)
    requires AgentInv(a)
    ensures AgentInv(AfterDeliver(a, d, limit, now, saveOk))
  {
    if d.jobId.Some? && d.configured {
      var r := Examine(a.records, d, limit, now);
      if !r.Rejected? {
        SaveRecordsKept(a, Taken(a.records, r), saveOk);
      }
    }
  }

  lemma RecordUpdateKept(a: Agent, id: Id, job: Job, saveOk: bool)
    requires AgentInv(a) && id in a.records
    ensures AgentInv(SaveRecords(a, a.records[id := a.records[id].(local := job)], saveOk))
  {
    SaveRecordsKept(a, a.records[id := a.records[id].(local := job)], saveOk);
  }

  lemma SendKept(a: Agent, phase: Phase, message: Message)
    requires AgentInv(a) && (phase.Submitting? ==> phase == a.phase) && !message.JobReceived?
    ensures AgentInv(a.(phase := phase)) && AgentInv(a.(phase := phase, sent := a.sent + [message]))
    ensures AgentInv(a.(sent := a.sent + [message]))
  {
  }

  lemma FailureKept(a: Agent, id: Id, error: string, saveOk: bool)
    requires AgentInv(a) && id in a.records
    ensures AgentInv(AfterFailure(a, id, error, saveOk))
  {
    var failed := a.records[id].local.(state := Failed, error := Some(error));
    RecordUpdateKept(a, id, failed, saveOk);
    SendKept(SaveRecords(a, a.records[id := a.records[id].(local := failed)], saveOk), Idle, JobResult(failed));
  }

  lemma SettleKept(a: Agent, answer: Answer, saveOk: bool)
    requires AgentInv(a) && a.phase.Awaiting? && a.phase.id in a.records
    ensures AgentInv(AfterSettle(a, answer, saveOk))
  {
    hide AgentInv, AfterFailure;
    var id := a.phase.id;
    match answer {
      case Accepted(job) =>
        RecordUpdateKept(a, id, job, saveOk);
        SendKept(SaveRecords(a, a.records[id := a.records[id].(local := job)], saveOk), Idle, JobResult(job));
      case Replayed(job) =>
        RecordUpdateKept(a, id, job, saveOk);
        SendKept(SaveRecords(a, a.records[id := a.records[id].(local := job)], saveOk), Idle, JobResult(job));
      case Conflicted => FailureKept(a, id, "idempotency key was used for a different request", saveOk);
      case Refused => FailureKept(a, id, "all retained jobs are active", saveOk);
      case SaveFailed => FailureKept(a, id, "job persistence failed", saveOk);
    }
  }

  lemma ReportKept(a: Agent, id: Id, saveOk: bool)
    requires AgentInv(a) && id in a.records && id in a.exec.store.jobs
    ensures AgentInv(AfterReport(a, id, saveOk))
  {
    var job := a.exec.store.jobs[id];
    RecordUpdateKept(a, id, job, saveOk);
    var b := SaveRecords(a, a.records[id := a.records[id].(local := job)], saveOk);
    SendKept(b, b.phase, if job.Terminal() then JobResult(job) else JobProgress(job));
  }

  lemma ExecKept(a: Agent, step: Step)
    requires AgentInv(a) && Enabled(a.exec, step)
    requires IsCloudArrival(step) ==> Registered(a.saved, step.key.value.id, step.hash)
    ensures Sound(a.exec) && AgentInv(a.(exec := Apply(a.exec, step)))
  {
    hide Apply, Enabled, ExecAgrees, Runs.Inv;
    Runs.InvKept(a.exec, step);
    ExecStepAgrees(a.saved, a.exec, step);
  }

  lemma RebootKept(a: Agent, readable: bool, saveOk: bool)
    requires AgentInv(a)
    ensures AgentInv(AfterReboot(a, readable, saveOk))
  {
    hide ExecAgrees, Runs.Inv, AfterRestart;
    RestartIsAStep(a.exec, readable);
    ExecKept(a, Restart(readable));
    var b := a.(exec := AfterRestart(a.exec, readable), records := a.saved);
    SaveRecordsKept(b, ReconciledAll(a.saved), saveOk);
  }

  lemma RestartIsAStep(s: State, readable: bool)
    requires Runs.Inv(s)
    ensures Sound(s) && Enabled(s, Restart(readable)) && Apply(s, Restart(readable)) == AfterRestart(s, readable)
  {
    InvSound(s);
  }

  lemma SubmitKept(a: Agent, m: Move)
    requires AgentInv(a) && m.Submit? && CanMove(a, m) && Sound(a.exec)
    ensures AgentInv(After(a, m))
  {
    hide Apply, Enabled, ExecAgrees, Runs.Inv;
    ExecKept(a, SubmitStep(a.phase.id, a.phase.sha, m.connection, m.route, m.now));
  }

  lemma AgentInvKept(a: Agent, m: Move)
    requires AgentInv(a) && CanMove(a, m) && Sound(a.exec)
    ensures AgentInv(After(a, m))
  {
    hide Apply, Enabled, AgentInv, AfterDeliver, AfterFailure, AfterSettle, AfterReport, AfterReboot, Sound;
    match m {
      case Run(step) => ExecKept(a, step);
      case Deliver(d, limit, now, saveOk) => DeliverKept(a, d, limit, now, saveOk);
      case Submit(connection, route, now) => SubmitKept(a, m);
      case Reject(error, saveOk) => FailureKept(a, a.phase.id, error, saveOk);
      case Settle(i, saveOk) => SettleKept(a, a.exec.log[i].answer, saveOk);
      case ReportJob(id, saveOk) => ReportKept(a, id, saveOk);
      case Reboot(readable, saveOk) => RebootKept(a, readable, saveOk);
    }
  }

  // ---------------------------------------------------------------- over every run

  ghost predicate AgentReaches(a: Agent, moves: seq<Move>, b: Agent)
    decreases |moves|
  {
    if moves == [] then a == b
    else Sound(a.exec) && CanMove(a, moves[0]) && AgentReaches(After(a, moves[0]), moves[1..], b)
  }

  ghost predicate AgentInitial(a: Agent) {
    Initial(a.exec) && a.records == map[] && a.saved == map[] && a.phase == Idle && a.sent == []
  }

  lemma AgentInvInitially(a: Agent)
    requires AgentInitial(a)
    ensures AgentInv(a)
  {
    Runs.InvInitially(a.exec);
  }

  lemma {:induction false} AgentInvAlways(a: Agent, moves: seq<Move>, b: Agent)
    requires AgentInv(a) && AgentReaches(a, moves, b)
    ensures AgentInv(b)
    decreases |moves|
  {
    hide AgentInv, After, CanMove, Sound;
    if moves != [] {
      AgentInvKept(a, moves[0]);
      AgentInvAlways(After(a, moves[0]), moves[1..], b);
    }
  }

  /** Both deduplication layers agree.  Over any sequence of new, duplicate and
      conflicting deliveries, in any number of sessions and restarts and with any
      local work in between, the executor never answers a cloud submission with
      its own hash conflict. */
  lemma ExecutorConflictIsUnreachable(a: Agent, moves: seq<Move>, b: Agent, i: nat)
    requires AgentInitial(a) && AgentReaches(a, moves, b)
    requires i < |b.exec.log| && b.exec.log[i].Answered? && b.exec.log[i].key.Some? && b.exec.log[i].key.value.Cloud?
    ensures !b.exec.log[i].answer.Conflicted?
  {
    AgentInvInitially(a);
    AgentInvAlways(a, moves, b);
    assert NoCloudConflict(b.exec.log[i]);
  }

  /** Every acknowledged delivery is in the saved records, with its digest, from
      then on and across restarts. */
  lemma AcknowledgedIsDurable(a: Agent, moves: seq<Move>, b: Agent, i: nat)
    requires AgentInitial(a) && AgentReaches(a, moves, b)
    requires i < |b.sent| && b.sent[i].JobReceived?
    ensures b.sent[i].id in b.saved && b.saved[b.sent[i].id].sha == b.sent[i].sha
  {
    AgentInvInitially(a);
    AgentInvAlways(a, moves, b);
    assert Registered(b.saved, b.sent[i].id, b.sent[i].sha);
  }

  /** A cloud job id starts at most one worker until the executor has evicted its
      terminal record, as long as the executor's restarts found their snapshot. */
  lemma OneWorkerPerCloudJob(a: Agent, moves: seq<Move>, b: Agent, i: nat, j: nat, id: Id)
    requires AgentInitial(a) && AgentReaches(a, moves, b) && b.exec.intact
    requires i < j < |b.exec.log| && b.exec.log[i].Started? && b.exec.log[i].key == Some(Cloud(id))
    requires StartedWith(b.exec.log, j, Some(Cloud(id)))
    ensures EvictedBefore(b.exec.log, i, j)
  {
    AgentInvInitially(a);
    AgentInvAlways(a, moves, b);
    assert AtMostOnce(b.exec.log);
  }

  // ---------------------------------------------------------------- what the broker is told

  /** What the agent may say of a job in `saved`: that it was received, with its digest;
      how it ended, if its record has ended; how it goes, if it has not. */
  ghost predicate Backed(saved: map<Id, CloudJob>, message: Message) {
    match message
    case JobReceived(id, sha) => Registered(saved, id, sha)
    case JobProgress(job) => !job.Terminal() && exists id :: id in saved && saved[id].local == job
    case JobResult(job) => job.Terminal() && exists id :: id in saved && saved[id].local == job
  }

  ghost predicate Tells(a: Agent, b: Agent) {
    a.sent <= b.sent && forall i :: |a.sent| <= i < |b.sent| ==> Backed(b.saved, b.sent[i])
  }

  lemma SaysNothing(a: Agent, b: Agent)
    requires b.sent == a.sent
    ensures Tells(a, b)
  {
  }

  lemma DeliverTells(a: Agent, d: Delivery, limit: nat, now: Time, saveOk: bool)
    requires AgentInv(a)
    ensures Tells(a, AfterDeliver(a, d, limit, now, saveOk))
  {
    hide AgentInv;
    if d.jobId.Some? && d.configured {
      var r := Examine(a.records, d, limit, now);
      ReceivedExactlyWhen(a.records, d, limit, now);
      hide Examine;
      if r.Existing? {
        assert a.records[d.jobId.value].local == r.job.local;
      }
    }
  }

  /** A submission that is refused ends as failed with the error as its text; the record
      is saved before the broker is told, and if it cannot be, the broker is not told. */
  lemma FailureIsTold(a: Agent, id: Id, error: string, saveOk: bool)
    requires id in a.records
    ensures var b := AfterFailure(a, id, error, saveOk);
      var job := a.records[id].local;
      && b.exec == a.exec && b.phase == Idle && b.records.Keys == a.records.Keys
      && (forall other :: other in a.records && other != id ==> b.records[other] == a.records[other])
      && b.records[id] == a.records[id].(local := b.records[id].local)
      && b.records[id].local.state == Failed && b.records[id].local.error == Some(error)
      && b.records[id].local == job.(state := Failed, error := b.records[id].local.error)
      && b.saved == (if saveOk then b.records else a.saved)
      && b.sent == (if saveOk then a.sent + [JobResult(b.records[id].local)] else a.sent)
    ensures Tells(a, AfterFailure(a, id, error, saveOk))
  {
  }

  /** A report copies the executor's record, saves it, and tells the broker: as a result
      exactly when the job has ended, as progress otherwise. */
  lemma ReportIsTold(a: Agent, id: Id, saveOk: bool)
    requires id in a.records && id in a.exec.store.jobs
    ensures var b := AfterReport(a, id, saveOk);
      var job := a.exec.store.jobs[id];
      && b.exec == a.exec && b.phase == a.phase && b.records.Keys == a.records.Keys
      && b.records[id].local == job && b.records[id] == a.records[id].(local := job)
      && (forall other :: other in a.records && other != id ==> b.records[other] == a.records[other])
      && b.saved == (if saveOk then b.records else a.saved)
      && (!saveOk ==> b.sent == a.sent)
      && (saveOk ==> |b.sent| == |a.sent| + 1 && b.sent[..|a.sent|] == a.sent)
      && (saveOk && job.Terminal() ==> b.sent[|a.sent|] == JobResult(job))
      && (saveOk && !job.Terminal() ==> b.sent[|a.sent|] == JobProgress(job))
    ensures Tells(a, AfterReport(a, id, saveOk))
  {
    var b := AfterReport(a, id, saveOk);
    if saveOk {
      assert b.saved[id].local == a.exec.store.jobs[id];
    }
  }

  /** What the executor answers is what the record becomes; an answer without a job is a
      failure with the text of the executor's error. */
  lemma SettlingFollowsTheAnswer(a: Agent, answer: Answer, saveOk: bool)
    requires a.phase.Awaiting? && a.phase.id in a.records
    ensures var b := AfterSettle(a, answer, saveOk);
      && b.exec == a.exec && b.phase == Idle && a.phase.id in b.records
      && (answer.Accepted? ==> b.records[a.phase.id].local == answer.job && b.sent == a.sent)
      && (answer.Replayed? ==> b.records[a.phase.id].local == answer.existing && b.sent == a.sent)
      && (!answer.Accepted? && !answer.Replayed? ==> b.records[a.phase.id].local.state == Failed)
    ensures Tells(a, AfterSettle(a, answer, saveOk))
  {
    hide Tells, AfterFailure;
    FailureIsTold(a, a.phase.id, "idempotency key was used for a different request", saveOk);
    FailureIsTold(a, a.phase.id, "all retained jobs are active", saveOk);
    FailureIsTold(a, a.phase.id, "job persistence failed", saveOk);
    if answer.Accepted? || answer.Replayed? {
      SaysNothing(a, AfterSettle(a, answer, saveOk));
    }
  }

  lemma MoveTells(a: Agent, m: Move)
    requires AgentInv(a) && CanMove(a, m) && Sound(a.exec)
    ensures Tells(a, After(a, m))
  {
    hide Apply, Enabled, AgentInv, AfterDeliver, AfterFailure, AfterSettle, AfterReport, Sound, Tells;
    match m {
      case Deliver(d, limit, now, saveOk) => DeliverTells(a, d, limit, now, saveOk);
      case Reject(error, saveOk) => FailureIsTold(a, a.phase.id, error, saveOk);
      case Settle(i, saveOk) => SettlingFollowsTheAnswer(a, a.exec.log[i].answer, saveOk);
      case ReportJob(id, saveOk) => ReportIsTold(a, id, saveOk);
      case _ => SaysNothing(a, After(a, m));
    }
  }

  /** Nothing is told before it is saved.  Over every run, each message rests on the
      records that were in the file when it was sent. */
  lemma {:induction false} EveryMessageIsBacked(a: Agent, moves: seq<Move>, b: Agent, i: nat) returns (k: nat, c: Agent)
    requires AgentInv(a) && AgentReaches(a, moves, b) && |a.sent| <= i < |b.sent|
    ensures 0 < k <= |moves| && AgentReaches(a, moves[..k], c) && i < |c.sent| && c.sent[i] == b.sent[i] && Backed(c.saved, b.sent[i])
    decreases |moves|
  {
    hide AgentInv, After, CanMove, Sound, Backed;
    var next := After(a, moves[0]);
    AgentInvKept(a, moves[0]);
    MoveTells(a, moves[0]);
    SentStays(next, moves[1..], b);
    if i < |next.sent| {
      k, c := 1, next;
      assert moves[..1][1..] == [] && moves[..1][0] == moves[0];
    } else {
      var j;
      j, c := EveryMessageIsBacked(next, moves[1..], b, i);
      k := j + 1;
      assert moves[..k][0] == moves[0] && moves[..k][1..] == moves[1..][..j];
    }
  }

  lemma {:induction false} SentStays(a: Agent, moves: seq<Move>, b: Agent)
    requires AgentInv(a) && AgentReaches(a, moves, b)
    ensures a.sent <= b.sent
    decreases |moves|
  {
    hide AgentInv, After, CanMove, Sound, Backed;
    if moves != [] {
      AgentInvKept(a, moves[0]);
      MoveTells(a, moves[0]);
      SentStays(After(a, moves[0]), moves[1..], b);
    }
  }

  /** A submission hands the executor a job of the cloud id with the digest as its hash, on
      the connection of the printer, unless the key is retained. */
  lemma SubmissionCarriesTheDelivery(a: Agent, connection: string, route: Route, now: Time)
    requires AgentInv(a) && CanMove(a, Submit(connection, route, now)) && Sound(a.exec)
    ensures var b := After(a, Submit(connection, route, now));
      var held := HasKey(a.exec.store.jobs, Cloud(a.phase.id));
      && b.phase == Awaiting(a.phase.id, a.exec.nextTid) && b.records == a.records && b.saved == a.saved && b.sent == a.sent
      && (held ==> b.exec.tasks == a.exec.tasks && |b.exec.log| == |a.exec.log| + 1)
      && (!held ==>
            && b.exec.nextTid == a.exec.nextTid + 1 && a.exec.nextTid in b.exec.tasks
            && var t := b.exec.tasks[a.exec.nextTid];
               && t.job.id == a.phase.id && t.job.key == Some(Cloud(a.phase.id)) && t.job.requestHash == Some(a.phase.sha)
               && t.connection == Some(connection) && t.route == route)
  {
  }

  /** A new process starts from the saved records, reconciled, and goes on only if it could
      save them; nothing is sent. */
  lemma RebootStartsFromTheFile(a: Agent, readable: bool, saveOk: bool)
    ensures var b := AfterReboot(a, readable, saveOk);
      && b.records.Keys == a.saved.Keys && b.sent == a.sent && b.exec.tasks == map[]
      && (forall id :: id in b.records ==> b.records[id].local.state != Running && b.records[id].sha == a.saved[id].sha)
      && b.saved == (if saveOk then b.records else a.saved)
      && (b.phase.Idle? <==> saveOk) && (b.phase.Down? <==> !saveOk)
  {
  }

  /** A new delivery that is sound is saved, acknowledged and submitted with its digest;
      if it cannot be saved, nothing is acknowledged. */
  lemma NewDeliveryIsSubmitted(a: Agent, d: Delivery, limit: nat, now: Time, saveOk: bool)
    requires a.phase.Idle? && d.jobId.Some? && d.configured && Examine(a.records, d, limit, now).New?
    ensures var b := AfterDeliver(a, d, limit, now, saveOk);
      && b.exec == a.exec && d.jobId.value in b.records && b.records[d.jobId.value].sha == d.actualSha
      && b.saved == (if saveOk then b.records else a.saved)
      && b.sent == (if saveOk then a.sent + [JobReceived(d.jobId.value, d.claimedSha)] else a.sent)
      && b.phase == (if saveOk then Submitting(d.jobId.value, d.claimedSha) else Idle)
  {
  }

  /** A delivery for a printer that is not configured, that does not match the record held
      for its id, or that is malformed, changes nothing and sends nothing. */
  lemma RejectedDeliveryIsInert(a: Agent, d: Delivery, limit: nat, now: Time, saveOk: bool)
    requires
      || d.jobId.None? || !d.configured || d.size > limit || d.actualSha != d.claimedSha || !d.valid
      || (d.jobId.value in a.records &&
          (a.records[d.jobId.value].sha != d.actualSha || Some(a.records[d.jobId.value].printer) != d.printerId))
    ensures AfterDeliver(a, d, limit, now, saveOk) == a
  {
  }

  /** A repeated delivery of a record that already ended is acknowledged and
      answered again, and is not submitted again. */
  lemma RepeatedDeliveryOfFinishedJob(a: Agent, d: Delivery, limit: nat, now: Time)
    requires a.phase.Idle? && d.jobId.Some? && d.configured && d.jobId.value in a.records
    requires Examine(a.records, d, limit, now).Existing? && a.records[d.jobId.value].local.Terminal()
    ensures var b := AfterDeliver(a, d, limit, now, true);
      && b.exec == a.exec && b.records == a.records && b.phase == Idle
      && b.sent == a.sent + [JobReceived(d.jobId.value, d.claimedSha), JobResult(a.records[d.jobId.value].local)]
  {
  }
}
