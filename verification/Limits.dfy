/** Where the guarantees of the executor end. */
module Limits {
  import opened Options
  import opened Jobs
  import opened Retention
  import opened Machine
  import opened Invariants
  import opened History
  import opened Runs

  lemma {:induction false} ReachesThen(s: State, first: seq<Step>, t: State, second: seq<Step>, u: State)
    requires Reaches(s, first, t) && Reaches(t, second, u)
    ensures Reaches(s, first + second, u)
    decreases |first|
  {
    hide Apply, Enabled, Sound;
    if first == [] {
      assert first + second == second;
    } else {
      ReachesThen(Apply(s, first[0]), first[1..], t, second, u);
      assert (first + second)[1..] == first[1..] + second;
    }
  }

  lemma OneStep(s: State, step: Step)
    requires Sound(s) && Enabled(s, step)
    ensures Reaches(s, [step], Apply(s, step))
  {
  }

  // ---------------------------------------------------------------- one execution

  function Submitted(key: Key, id: Id): Job {
    NewJob(id, Some(key), Some("request"), 0)
  }

  ghost function Arrival(s: State, key: Key, id: Id): State {
    s.(store := UseId(s.store, id, Some(key)),
       tasks := s.tasks[s.nextTid := NewTask(Submitted(key, id), None, Direct)],
       nextTid := s.nextTid + 1)
  }

  function Evictions(evicted: Option<Job>): seq<Event> {
    if evicted.Some? then [Evicted(evicted.value)] else []
  }

  /** A submission for `key` that has been admitted and saved. */
  ghost function Admission(s: State, key: Key, id: Id, evicted: Option<Job>, jobs: map<Id, Job>): State
    requires WellKeyed(jobs)
  {
    s.(store := Save(UseId(s.store, id, Some(key)), jobs, true),
       tasks := s.tasks[s.nextTid := NewTask(Submitted(key, id), None, Direct).(pc := Pc.Admitted)],
       nextTid := s.nextTid + 1,
       log := s.log + Evictions(evicted))
  }

  /** The service would admit a submission for `key` under the new id `id`. */
  ghost predicate WouldAdmit(s: State, key: Key, id: Id, evicted: Option<Job>, jobs: map<Id, Job>) {
    && Sound(s) && s.nextTid !in s.tasks
    && key.Http? && id !in s.store.locals && id !in s.store.clouds && !HasKey(s.store.jobs, key)
    && WellKeyed(jobs)
    && Retention.Admit(s.store.jobs, Submitted(key, id), s.store.limit) == Retention.Admission.Admitted(evicted, jobs)
  }

  lemma AdmitReaches(s: State, key: Key, id: Id, evicted: Option<Job>, jobs: map<Id, Job>)
    requires WouldAdmit(s, key, id, evicted, jobs)
    ensures At(Arrival(s, key, id), s.nextTid, Planned) && Sound(Arrival(s, key, id))
    ensures AfterArrive(s, Some(key), "request", id, None, Direct, 0) == Arrival(s, key, id)
    ensures AfterAdmit(Arrival(s, key, id), s.nextTid, true) == Admission(s, key, id, evicted, jobs)
    ensures Sound(Admission(s, key, id, evicted, jobs))
  {
    hide Save, Retention.Admit, AfterAdmit;
    var a := Arrival(s, key, id);
    AdmittedLog(a, s.nextTid, true, s.log + Evictions(evicted), Save(a.store, jobs, true));
    AdmitMovesOn(a, s.nextTid);
    assert s.tasks[s.nextTid := a.tasks[s.nextTid]][s.nextTid := Admission(s, key, id, evicted, jobs).tasks[s.nextTid]]
        == Admission(s, key, id, evicted, jobs).tasks;
  }

  lemma AdmitMovesOn(s: State, tid: Tid)
    requires WellKeyed(s.store.jobs) && At(s, tid, Planned)
    ensures var r := AfterAdmit(s, tid, true);
      r.nextTid == s.nextTid && r.flags == s.flags && r.locks == s.locks && r.intact == s.intact
  {
  }

  lemma AdmissionReaches(s: State, key: Key, id: Id, evicted: Option<Job>, jobs: map<Id, Job>)
    requires WouldAdmit(s, key, id, evicted, jobs)
    ensures Sound(Admission(s, key, id, evicted, jobs))
    ensures Reaches(s, [Arrive(Some(key), "request", id, None, Direct, 0), Admit(s.nextTid, true)],
                    Admission(s, key, id, evicted, jobs))
  {
    hide AfterArrive, AfterAdmit, Admission, Arrival, Reaches, Retention.Admit;
    var arrive := Arrive(Some(key), "request", id, None, Direct, 0);
    var admit := Step.Admit(s.nextTid, true);
    AdmitReaches(s, key, id, evicted, jobs);
    OneStep(s, arrive);
    OneStep(Arrival(s, key, id), admit);
    ReachesThen(s, [arrive], Arrival(s, key, id), [admit], Admission(s, key, id, evicted, jobs));
    assert [arrive] + [admit] == [arrive, admit];
  }

  ghost function Launch(s: State, tid: Tid): State
    requires At(s, tid, Pc.Admitted)
  {
    AfterSpawn(AfterLocate(AfterRegister(s, tid), tid), tid)
  }

  lemma RegisterReaches(s: State, tid: Tid)
    requires Sound(s) && At(s, tid, Pc.Admitted)
    ensures var t := AfterRegister(s, tid);
      Sound(t) && At(t, tid, Registered) && Reaches(s, [Register(tid)], t)
  {
    OneStep(s, Register(tid));
  }

  lemma LocateReaches(s: State, tid: Tid)
    requires Sound(s) && At(s, tid, Registered)
    ensures var t := AfterLocate(s, tid);
      Sound(t) && At(t, tid, Located) && Reaches(s, [Locate(tid)], t)
  {
    OneStep(s, Locate(tid));
  }

  lemma SpawnReaches(s: State, tid: Tid)
    requires Sound(s) && At(s, tid, Located)
    ensures Sound(AfterSpawn(s, tid)) && Reaches(s, [Spawn(tid)], AfterSpawn(s, tid))
  {
    OneStep(s, Spawn(tid));
  }

  lemma LaunchReaches(s: State, tid: Tid)
    requires Sound(s) && At(s, tid, Pc.Admitted)
    ensures Sound(Launch(s, tid)) && Reaches(s, [Register(tid), Locate(tid), Spawn(tid)], Launch(s, tid))
  {
    hide Sound, AfterRegister, AfterLocate, AfterSpawn, Reaches;
    var a := AfterRegister(s, tid);
    RegisterReaches(s, tid);
    var b := AfterLocate(a, tid);
    LocateReaches(a, tid);
    SpawnReaches(b, tid);
    ReachesThen(s, [Register(tid)], a, [Locate(tid)], b);
    ReachesThen(s, [Register(tid)] + [Locate(tid)], b, [Spawn(tid)], Launch(s, tid));
    assert [Register(tid)] + [Locate(tid)] + [Spawn(tid)] == [Register(tid), Locate(tid), Spawn(tid)];
  }

  /** One execution for `key`, on a service that would admit it. */
  lemma Execute(s: State, key: Key, id: Id, evicted: Option<Job>, jobs: map<Id, Job>)
    returns (steps: seq<Step>, t: State)
    requires WouldAdmit(s, key, id, evicted, jobs)
    ensures Reaches(s, steps, t) && Sound(t) && t.intact == s.intact
    ensures t.log == s.log + Evictions(evicted) +
                     [Event.Started(id, Some(key)),
                      Answered(s.nextTid, Some(key), Submitted(key, id).requestHash, Accepted(Submitted(key, id)))]
    ensures t.store == Save(UseId(s.store, id, Some(key)), jobs, true)
  {
    hide Reaches, WouldAdmit;
    assert WellKeyed(jobs) by { AdmissionReaches(s, key, id, evicted, jobs); }
    var admit := [Arrive(Some(key), "request", id, None, Direct, 0), Admit(s.nextTid, true)];
    var launch := [Register(s.nextTid), Locate(s.nextTid), Spawn(s.nextTid)];
    var a := Admission(s, key, id, evicted, jobs);
    AdmissionReaches(s, key, id, evicted, jobs);
    LaunchReaches(a, s.nextTid);
    t := Launch(a, s.nextTid);
    ReachesThen(s, admit, a, launch, t);
    steps := admit + launch;
  }

  // ---------------------------------------------------------------- a restart that forgets

  /** A service that retains nothing admits anything. */
  lemma EmptyWouldAdmit(s: State, key: Key, id: Id)
    requires Sound(s) && s.store.jobs == map[] && s.store.limit > 0 && s.nextTid !in s.tasks
    requires key.Http? && id !in s.store.locals && id !in s.store.clouds
    ensures WouldAdmit(s, key, id, None, map[id := Submitted(key, id)])
  {
    assert !HasKey(s.store.jobs, key);
  }

  ghost function Fresh(limit: nat, durable: bool): State {
    State(Store(limit, durable, map[], None, map[], {}, {}), map[], map[], map[], 0, true, [])
  }

  lemma ForgettingRestart(a: State, limit: nat, durable: bool, readable: bool, key: Key)
    requires Sound(a) && key.Http? && !(durable && readable)
    requires a.store == Save(UseId(Fresh(limit, durable).store, 1, Some(key)), map[1 := Submitted(key, 1)], true)
    ensures var b := AfterRestart(a, readable);
      && Reaches(a, [Restart(readable)], b) && Sound(b)
      && b.store.jobs == map[] && b.store.limit == limit && b.tasks == map[] && b.log == a.log
      && 2 !in b.store.locals && 2 !in b.store.clouds
  {
    OneStep(a, Restart(readable));
  }

  /** The condition of the guarantee is needed: without a snapshot path, or when
      a restart cannot read its snapshot, one key is executed twice with nothing
      evicted in between. */
  lemma ForgettingRestartExecutesAgain(limit: nat, durable: bool, readable: bool)
    requires limit > 0 && !(durable && readable)
    ensures exists steps, t :: Initial(Fresh(limit, durable)) && Reaches(Fresh(limit, durable), steps, t) && !AtMostOnce(t.log)
  {
    hide Reaches, UseId, Save, AfterRestart;
    var key := Http("https://editor.example", "key");
    var s := Fresh(limit, durable);
    EmptyWouldAdmit(s, key, 1);
    var first, a := Execute(s, key, 1, None, map[1 := Submitted(key, 1)]);
    var b := AfterRestart(a, readable);
    ForgettingRestart(a, limit, durable, readable, key);
    ReachesThen(s, first, a, [Restart(readable)], b);
    EmptyWouldAdmit(b, key, 2);
    var second, t := Execute(b, key, 2, None, map[2 := Submitted(key, 2)]);
    ReachesThen(s, first + [Restart(readable)], b, second, t);
    assert |a.log| == 2 && t.log[..2] == a.log;
    assert t.log[0] == a.log[0] && t.log[1] == a.log[1];
    assert StartedWith(t.log, 2, t.log[0].key) && !EvictedBefore(t.log, 0, 2);
  }

  // ---------------------------------------------------------------- a key that was evicted

  /** A history of one ended job is full for a limit of one, and gives way to any other key. */
  lemma FullWouldAdmit(s: State, done: Job, key: Key, id: Id)
    requires Sound(s) && s.store.jobs == map[done.id := done] && s.store.limit == 1 && s.nextTid !in s.tasks
    requires done.Terminal() && done.key != Some(key) && done.id != id
    requires key.Http? && id !in s.store.locals && id !in s.store.clouds
    ensures WouldAdmit(s, key, id, Some(done), map[id := Submitted(key, id)])
  {
    var jobs := s.store.jobs;
    assert !HasKey(jobs, key);
    assert done.id in jobs && !AllActive(jobs);
    VictimIsUnique(jobs, Victim(jobs), done.id);
    assert jobs - {done.id} == map[];
  }

  /** A restart that reads its snapshot ends the one job that was running. */
  lemma RestartEnds(first: seq<Step>, a: State, key: Key, id: Id)
    requires Initial(Fresh(1, true)) && Reaches(Fresh(1, true), first, a) && Sound(a)
    requires a.store.saved == map[id := Submitted(key, id)] && a.store.durable && a.store.disk.Some?
    ensures var b := AfterRestart(a, true);
      && Reaches(Fresh(1, true), first + [Restart(true)], b) && Sound(b)
      && b.store.jobs == map[id := Interrupted(Submitted(key, id))] && b.tasks == map[] && b.log == a.log
      && b.store == a.store.(jobs := b.store.jobs) && b.intact == a.intact && b.nextTid == a.nextTid
  {
    hide Reaches, Inv;
    InvInitially(Fresh(1, true));
    InvAlways(Fresh(1, true), first, a);
    RestartOfOne(a, key, id);
    OneStep(a, Restart(true));
    ReachesThen(Fresh(1, true), first, a, [Restart(true)], AfterRestart(a, true));
  }

  lemma RestartOfOne(a: State, key: Key, id: Id)
    requires Inv(a) && a.store.saved == map[id := Submitted(key, id)] && a.store.disk.Some?
    ensures AfterRestart(a, true).store.jobs == map[id := Interrupted(Submitted(key, id))]
  {
    ReloadRestores(a.store);
  }

  /** A service with a limit of one that holds, in memory and on file, one job. */
  ghost predicate HoldsOne(steps: seq<Step>, s: State, key: Key, id: Id) {
    && Initial(Fresh(1, true)) && Reaches(Fresh(1, true), steps, s) && Sound(s) && s.intact
    && s.store.durable && s.store.limit == 1 && s.store.disk.Some?
    && s.store.saved == map[id := Submitted(key, id)]
    && s.store.clouds == {} && forall other :: other in s.store.locals ==> other <= id
  }

  lemma FirstExecution(key: Key) returns (steps: seq<Step>, s: State)
    requires key.Http?
    ensures HoldsOne(steps, s, key, 1)
    ensures |s.log| == 2 && s.log[0] == Event.Started(1, Some(key))
  {
    EmptyWouldAdmit(Fresh(1, true), key, 1);
    hide Reaches, WouldAdmit;
    steps, s := Execute(Fresh(1, true), key, 1, None, map[1 := Submitted(key, 1)]);
  }

  /** After a restart another key evicts the one job and is executed. */
  lemma NextExecution(first: seq<Step>, a: State, key: Key, id: Id, next: Key)
    returns (steps: seq<Step>, t: State)
    requires HoldsOne(first, a, key, id) && next.Http? && next != key
    ensures HoldsOne(steps, t, next, id + 1)
    ensures |t.log| == |a.log| + 3 && t.log[..|a.log|] == a.log
    ensures t.log[|a.log|] == Evicted(Interrupted(Submitted(key, id)))
    ensures t.log[|a.log| + 1] == Event.Started(id + 1, Some(next))
  {
    hide Reaches, AfterRestart, WouldAdmit, Inv;
    RestartEnds(first, a, key, id);
    var b := AfterRestart(a, true);
    var done := Interrupted(Submitted(key, id));
    FullWouldAdmit(b, done, next, id + 1);
    var second: seq<Step>;
    second, t := Execute(b, next, id + 1, Some(done), map[id + 1 := Submitted(next, id + 1)]);
    ReachesThen(Fresh(1, true), first + [Restart(true)], b, second, t);
    steps := first + [Restart(true)] + second;
  }

  const KEY: Key := Http("https://editor.example", "key")
  const OTHER: Key := Http("https://editor.example", "other")

  /** What the promise that a retry returns the original job comes to: once the
      record was evicted, the same key is executed again, although every restart
      read its snapshot. */
  lemma EvictedKeyExecutesAgain() returns (steps: seq<Step>, t: State)
    ensures Initial(Fresh(1, true)) && Reaches(Fresh(1, true), steps, t) && t.intact && |t.log| == 8
    ensures t.log[0] == Event.Started(1, Some(KEY)) && t.log[6] == Event.Started(3, Some(KEY))
    ensures t.log[2].Evicted? && t.log[2].victim.id == 1
  {
    hide Reaches;
    var first, a := FirstExecution(KEY);
    var second, b := NextExecution(first, a, KEY, 1, OTHER);
    steps, t := NextExecution(second, b, OTHER, 2, KEY);
  }
}
