/** The print-job executor as a machine over its atomic steps.

    One task is one `submit` call together with the worker it may start.  The
    tasks of a process share the job map, the snapshot file, the table of cancel
    flags and the table of connection locks.  Any step of any task may follow any
    other, a save may fail, a task may be dropped or its worker may panic, and the
    process may stop and start again between two steps. */
module Machine {
  import opened Options
  import opened Jobs
  import opened Retention

  type Tid = nat

  // ---------------------------------------------------------------- the driver's side

  /** What the SDK executor asks of a transport, apart from pauses. */
  datatype Call = Write(bytes: seq<int>) | Subscribe | Wait

  /** `Direct` passes each call through `Cancellable` to the device.  `Ipp`
      records the calls first and sends the recorded document in one request. */
  datatype Route = Direct | Ipp

  datatype Progress = Progress(lastAction: Option<nat>, bytesWritten: nat, potentiallyAcceptedWrite: bool)

  datatype Result = Done(progress: Progress) | Failure(error: string, partial: Option<Progress>)
  {
    function Reported(): Option<Progress> {
      if Done? then Some(progress) else partial
    }
  }

  const NOTHING: Progress := Progress(None, 0, false)

  function Document(calls: seq<Call>): seq<int> {
    if calls == [] then []
    else Document(calls[..|calls| - 1]) + (if calls[|calls| - 1].Write? then calls[|calls| - 1].bytes else [])
  }

  function WithProgress(job: Job, p: Progress): Job {
    job.(lastAction := p.lastAction, bytesWritten := p.bytesWritten, potentiallyAcceptedWrite := p.potentiallyAcceptedWrite)
  }

  function ProgressOf(job: Job): Progress {
    Progress(job.lastAction, job.bytesWritten, job.potentiallyAcceptedWrite)
  }

  /** The record a worker settles on when execution returns. */
  function Outcome(running: Job, result: Result, cancelled: bool, now: Time): Job {
    var job := if result.Reported().Some? then WithProgress(running, result.Reported().value) else running;
    var state :=
      if cancelled then (if job.potentiallyAcceptedWrite then CancelledPartial else CancelledBeforeSend)
      else if result.Done? then Completed
      else if job.potentiallyAcceptedWrite then OutcomeUnknown
      else Failed;
    job.(state := state, updatedAt := now, error := if result.Done? then running.error else Some(result.error))
  }

  /** What a worker decides its final record on: the job as it was submitted, the
      progress reported during execution, the result, the flag and the clock. */
  datatype Decision = Decision(job: Job, reported: Progress, result: Result, flagged: bool, at: Time)

  predicate Shows(job: Job, p: Progress) {
    && job.lastAction == p.lastAction && job.bytesWritten == p.bytesWritten
    && job.potentiallyAcceptedWrite == p.potentiallyAcceptedWrite
  }

  /** What a final record has to say, clause by clause. */
  predicate Settles(final: Job, d: Decision) {
    && final.id == d.job.id && final.key == d.job.key && final.requestHash == d.job.requestHash
    && final.updatedAt == d.at
    && (final.state == Completed <==> d.result.Done? && !d.flagged)
    && (final.state == CancelledBeforeSend <==> d.flagged && !final.potentiallyAcceptedWrite)
    && (final.state == CancelledPartial <==> d.flagged && final.potentiallyAcceptedWrite)
    && (final.state == Failed <==> d.result.Failure? && !d.flagged && !final.potentiallyAcceptedWrite)
    && (final.state == OutcomeUnknown <==> d.result.Failure? && !d.flagged && final.potentiallyAcceptedWrite)
    && final.error == (if d.result.Failure? then Some(d.result.error) else d.job.error)
    && (d.result.Done? ==> Shows(final, d.result.progress))
    && (d.result.Failure? && d.result.partial.Some? ==> Shows(final, d.result.partial.value))
    && (d.result.Failure? && d.result.partial.None? ==> Shows(final, d.reported))
  }

  // ---------------------------------------------------------------- state

  datatype Pc =
    | Planned
    | Admitted
    | Registered
    | Located
    | Waiting
    | Executing
    | Sending
    | Returned(result: Result)
    | Decided(decision: Decision)
    | Recorded

  datatype Task = Task(
    job: Job,
    connection: Option<string>,
    route: Route,
    pc: Pc,
    cancelled: bool,
    lock: Option<nat>,
    running: Job,
    reported: Progress,
    pending: Option<Call>,
    captured: seq<Call>,
    device: seq<Call>)
  {
    /** Admitted, and its final record not yet in the shared map. */
    predicate Live() {
      pc.Admitted? || pc.Registered? || pc.Located? || Working()
    }

    predicate Started() {
      Working() || pc.Recorded?
    }

    predicate Working() {
      pc.Waiting? || pc.Executing? || pc.Sending? || pc.Returned? || pc.Decided?
    }

    /** Inside the section guarded by the connection lock. */
    predicate Holding() {
      pc.Executing? || pc.Sending? || pc.Returned? || pc.Decided? || pc.Recorded?
    }
  }

  datatype Answer = Accepted(job: Job) | Replayed(existing: Job) | Conflicted | Refused | SaveFailed

  datatype Event =
    | Answered(tid: Tid, key: Option<Key>, hash: Option<string>, answer: Answer)
    | Started(id: Id, key: Option<Key>)
    | Evicted(victim: Job)
    | Finished(final: Job, device: seq<Call>, decision: Decision)

  /** The job map, the snapshot file, and what is remembered about them: the map
      the file was last written from, and the ids used so far. */
  datatype Store = Store(
    limit: nat,
    durable: bool,
    jobs: map<Id, Job>,
    disk: Option<seq<Job>>,
    saved: map<Id, Job>,
    locals: set<Id>,
    clouds: set<Id>)

  /** The state of the service.  `log` is the history of what happened, and
      `intact` says that every restart so far found the snapshot it had written. */
  datatype State = State(
    store: Store,
    flags: map<Id, Tid>,
    locks: map<string, nat>,
    tasks: map<Tid, Task>,
    nextTid: Tid,
    intact: bool,
    log: seq<Event>)

  ghost predicate Initial(s: State) {
    && s.store.jobs == map[] && s.store.disk == None && s.store.saved == map[]
    && s.store.locals == {} && s.store.clouds == {}
    && s.flags == map[] && s.locks == map[] && s.tasks == map[]
    && s.intact && s.log == []
  }

  // ---------------------------------------------------------------- steps

  datatype Step =
    | Arrive(key: Option<Key>, hash: string, id: Id, connection: Option<string>, route: Route, now: Time)
    | Admit(tid: Tid, saveOk: bool)
    | Register(tid: Tid)
    | Locate(tid: Tid)
    | Spawn(tid: Tid)
    | Acquire(tid: Tid, now: Time)
    | Report(tid: Tid, progress: Progress, now: Time)
    | Begin(tid: Tid, call: Call)
    | End(tid: Tid)
    | CheckSend(tid: Tid)
    | Send(tid: Tid, sent: nat, result: Result)
    | Return(tid: Tid, result: Result)
    | Decide(tid: Tid, now: Time)
    | Record(tid: Tid, saveOk: bool)
    | Abandon(tid: Tid)
    | RaiseFlag(id: Id)
    | MarkCancelled(id: Id, now: Time, saveOk: bool)
    | Restart(readable: bool)

  /** The driver never takes back that bytes may have been accepted. */
  predicate Honest(running: Job, p: Option<Progress>) {
    p.Some? && running.potentiallyAcceptedWrite ==> p.value.potentiallyAcceptedWrite
  }

  /** The steps a worker takes on its own. */
  predicate Own(step: Step) {
    step.Acquire? || step.Report? || step.Begin? || step.End? || step.CheckSend? || step.Send? || step.Return? || step.Decide?
  }

  predicate Ready(t: Task, step: Step)
    requires Own(step)
  {
    match step
    case Acquire(_, _) => t.pc == Waiting
    case Report(_, p, _) => t.pc == Executing && Honest(t.running, Some(p))
    case Begin(_, call) =>
      // bytes are reported as possibly accepted no later than the first write
      t.pc == Executing && t.pending == None && (call.Write? ==> t.running.potentiallyAcceptedWrite)
    case End(_) => t.pc == Executing && t.pending.Some?
    case CheckSend(_) => t.pc == Executing && t.route == Ipp
    case Send(_, sent, result) =>
      && t.pc == Sending && sent <= |Document(t.captured)|
      && result.Reported().Some? && Honest(t.running, result.Reported())
    case Return(_, result) =>
      && t.pc == Executing && t.pending == None && Honest(t.running, result.Reported())
      && (t.route == Ipp ==> result.Reported() == None)
    case Decide(_, _) => t.pc.Returned?
  }

  function Advance(t: Task, step: Step): Task
    requires Own(step) && Ready(t, step)
  {
    match step
    case Acquire(_, now) => t.(pc := Executing, running := t.job.(state := Running, updatedAt := now))
    case Report(_, p, now) => t.(running := WithProgress(t.running, p).(updatedAt := now), reported := p)
    case Begin(_, call) =>
      if t.route == Ipp then t.(captured := t.captured + [call])
      else if t.cancelled then t
      else t.(pending := Some(call))
    case End(_) => t.(pending := None, device := t.device + [t.pending.value])
    case CheckSend(_) => t.(pc := if t.cancelled then Returned(Failure("cancelled", None)) else Sending)
    case Send(_, sent, result) =>
      t.(pc := Returned(result), device := t.device + [Write(Document(t.captured)[..sent])])
    case Return(_, result) => t.(pc := Returned(result))
    case Decide(_, now) =>
      t.(pc := Decided(Decision(t.job, t.reported, t.pc.result, t.cancelled, now)),
         running := Outcome(t.running, t.pc.result, t.cancelled, now))
  }

  ghost predicate At(s: State, tid: Tid, pc: Pc) {
    tid in s.tasks && s.tasks[tid].pc == pc
  }

  ghost predicate AtEnd(s: State, tid: Tid) {
    tid in s.tasks && s.tasks[tid].pc.Decided?
  }

  ghost predicate LockFree(s: State, lock: Option<nat>) {
    forall other :: other in s.tasks && s.tasks[other].Holding() && lock.Some? ==> s.tasks[other].lock != lock
  }

  ghost predicate Enabled(s: State, step: Step) {
    match step
    case Arrive(key, _, id, _, _, _) =>
      // a generated id is new; the broker's ids never meet generated ones
      && id !in s.store.locals
      && (key.Some? && key.value.Cloud? ==> key.value.id == id)
      && (id in s.store.clouds ==> key == Some(Cloud(id)))
    case Admit(tid, _) => At(s, tid, Planned)
    case Register(tid) => At(s, tid, Pc.Admitted)
    case Locate(tid) => At(s, tid, Registered)
    case Spawn(tid) => At(s, tid, Located)
    case Record(tid, _) => AtEnd(s, tid)
    case Abandon(tid) => tid in s.tasks
    case RaiseFlag(id) => id in s.flags
    case MarkCancelled(id, _, _) => id in s.store.jobs
    case Restart(_) => true
    case _ =>
      && step.tid in s.tasks && Ready(s.tasks[step.tid], step)
      && (step.Acquire? ==> LockFree(s, s.tasks[step.tid].lock))
  }

  function Put(s: State, tid: Tid, task: Task): State {
    s.(tasks := s.tasks[tid := task])
  }

  function Note(s: State, event: Event): State {
    s.(log := s.log + [event])
  }

  /** Install a new job map and try to save it. */
  ghost function Save(store: Store, jobs: map<Id, Job>, saveOk: bool): (r: Store)
    requires WellKeyed(jobs)
    ensures r.jobs == jobs && r.saved == if store.durable && saveOk then jobs else store.saved
    ensures r == store.(jobs := r.jobs, saved := r.saved, disk := r.disk)
  {
    if store.durable && saveOk then
      store.(jobs := jobs, disk := Some(Snapshot(jobs, store.limit)), saved := jobs)
    else store.(jobs := jobs)
  }

  function UseId(store: Store, id: Id, key: Option<Key>): Store {
    if key.Some? && key.value.Cloud? then store.(clouds := store.clouds + {id})
    else store.(locals := store.locals + {id})
  }

  function NewTask(job: Job, connection: Option<string>, route: Route): Task {
    Task(job, connection, route, Planned, false, None, job, NOTHING, None, [], [])
  }

  /** The answer of the early check to a key that is retained. */
  ghost function EarlyReply(jobs: map<Id, Job>, key: Key, hash: string): Answer
    requires HasKey(jobs, key)
  {
    var id :| id in jobs && jobs[id].key == Some(key);
    if jobs[id].requestHash != Some(hash) then Conflicted else Answer.Replayed(jobs[id])
  }

  ghost function AfterArrive(s: State, key: Option<Key>, hash: string, id: Id, connection: Option<string>, route: Route, now: Time): (r: State)
    ensures r == s.(nextTid := s.nextTid + 1, store := UseId(s.store, id, key), tasks := r.tasks, log := r.log)
    ensures (key.Some? && HasKey(s.store.jobs, key.value)) ==>
      r.tasks == s.tasks && r.log == s.log + [Answered(s.nextTid, key, Some(hash), EarlyReply(s.store.jobs, key.value, hash))]
    ensures !(key.Some? && HasKey(s.store.jobs, key.value)) ==>
      var job := NewJob(id, key, if key.Some? then Some(hash) else None, now);
      r.log == s.log && r.tasks == s.tasks[s.nextTid := NewTask(job, connection, route)]
  {
    var t := s.(nextTid := s.nextTid + 1, store := UseId(s.store, id, key));
    if key.Some? && HasKey(s.store.jobs, key.value) then
      Note(t, Answered(s.nextTid, key, Some(hash), EarlyReply(s.store.jobs, key.value, hash)))
    else
      var job := NewJob(id, key, if key.Some? then Some(hash) else None, now);
      Put(t, s.nextTid, NewTask(job, connection, route))
  }

  ghost function AfterAdmit(s: State, tid: Tid, saveOk: bool): (r: State)
    requires tid in s.tasks && WellKeyed(s.store.jobs)
    ensures r.flags == s.flags && r.locks == s.locks && r.nextTid == s.nextTid && r.intact == s.intact
    ensures r.tasks == s.tasks - {tid} || r.tasks == s.tasks[tid := s.tasks[tid].(pc := Pc.Admitted)]
  {
    var task := s.tasks[tid];
    var gone := s.(tasks := s.tasks - {tid});
    match Retention.Admit(s.store.jobs, task.job, s.store.limit)
    case Replayed(existing) => Note(gone, Answered(tid, task.job.key, task.job.requestHash, Answer.Replayed(existing)))
    case Conflict => Note(gone, Answered(tid, task.job.key, task.job.requestHash, Conflicted))
    case Refused => Note(gone, Answered(tid, task.job.key, task.job.requestHash, Answer.Refused))
    case Admitted(evicted, jobs) =>
      var noted := if evicted.Some? then Note(s, Evicted(evicted.value)) else s;
      var stored := noted.(store := Save(s.store, jobs, saveOk));
      if s.store.durable && !saveOk then
        Note(stored.(tasks := s.tasks - {tid}), Answered(tid, task.job.key, task.job.requestHash, SaveFailed))
      else
        Put(stored, tid, task.(pc := Pc.Admitted))
  }

  function AfterRegister(s: State, tid: Tid): State
    requires tid in s.tasks
  {
    var task := s.tasks[tid];
    Put(s.(flags := s.flags[task.job.id := tid]), tid, task.(pc := Registered))
  }

  function AfterSpawn(s: State, tid: Tid): State
    requires tid in s.tasks
  {
    var task := s.tasks[tid];
    Note(Note(Put(s, tid, task.(pc := Waiting)), Started(task.job.id, task.job.key)),
         Answered(tid, task.job.key, task.job.requestHash, Accepted(task.job)))
  }

  function AfterLocate(s: State, tid: Tid): State
    requires tid in s.tasks
  {
    var task := s.tasks[tid];
    if task.connection == None then Put(s, tid, task.(pc := Located, lock := None))
    else
      var c := task.connection.value;
      var locks := if c in s.locks then s.locks else s.locks[c := |s.locks|];
      Put(s.(locks := locks), tid, task.(pc := Located, lock := Some(locks[c])))
  }

  ghost function AfterRecord(s: State, tid: Tid, saveOk: bool): State
    requires AtEnd(s, tid) && WellKeyed(s.store.jobs) && s.tasks[tid].running.id == s.tasks[tid].job.id
  {
    var task := s.tasks[tid];
    var store := Save(s.store, s.store.jobs[task.job.id := task.running], saveOk);
    Put(Note(s.(store := store), Finished(task.running, task.device, task.pc.decision)), tid, task.(pc := Recorded))
  }

  ghost function Mark(store: Store, id: Id, now: Time, saveOk: bool): Store
    requires id in store.jobs && WellKeyed(store.jobs)
  {
    Save(store, store.jobs[id := store.jobs[id].RequestCancel(now)], saveOk)
  }

  /** The process stops and a new one loads the snapshot. */
  function Reload(store: Store, readable: bool): Store {
    store.(jobs := if readable && store.disk.Some? then Load(store.disk.value, store.limit) else map[])
  }

  function AfterRestart(s: State, readable: bool): State {
    s.(store := Reload(s.store, readable),
       flags := map[], locks := map[], tasks := map[],
       intact := s.intact && readable && s.store.durable)
  }

  ghost predicate Sound(s: State) {
    && WellKeyed(s.store.jobs)
    && forall tid :: tid in s.tasks ==> s.tasks[tid].running.id == s.tasks[tid].job.id
  }

  ghost function Apply(s: State, step: Step): State
    requires Sound(s) && Enabled(s, step)
  {
    match step
    case Arrive(key, hash, id, connection, route, now) => AfterArrive(s, key, hash, id, connection, route, now)
    case Admit(tid, saveOk) => AfterAdmit(s, tid, saveOk)
    case Register(tid) => AfterRegister(s, tid)
    case Locate(tid) => AfterLocate(s, tid)
    case Spawn(tid) => AfterSpawn(s, tid)
    case Record(tid, saveOk) => AfterRecord(s, tid, saveOk)
    case Abandon(tid) => s.(tasks := s.tasks - {tid})
    case RaiseFlag(id) =>
      var tid := s.flags[id];
      if tid in s.tasks then Put(s, tid, s.tasks[tid].(cancelled := true)) else s
    case MarkCancelled(id, now, saveOk) => s.(store := Mark(s.store, id, now, saveOk))
    case Restart(readable) => AfterRestart(s, readable)
    case _ => Put(s, step.tid, Advance(s.tasks[step.tid], step))
  }
}
