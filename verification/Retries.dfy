/** Repeated submissions over every run: a key that is retained is answered from its
    record, and the request hash decides how. */
module Retries {
  import opened Options
  import opened Jobs
  import opened Retention
  import opened Machine
  import opened Invariants
  import opened Execution
  import opened History
  import opened Runs

  /** The answer that the record held for a key calls for. */
  function AnswerFor(held: Job, hash: Option<string>): Answer {
    if held.requestHash == hash then Answer.Replayed(held) else Conflicted
  }

  /** A submission whose key is retained is answered at once, and starts nothing. */
  lemma HeldKeyIsAnsweredEarly(s: State, step: Step, id: Id)
    requires Inv(s) && Enabled(s, step) && Sound(s) && step.Arrive? && step.key.Some?
    requires id in s.store.jobs && s.store.jobs[id].key == step.key
    ensures var after := Apply(s, step);
      && after.log == s.log + [Answered(s.nextTid, step.key, Some(step.hash), AnswerFor(s.store.jobs[id], Some(step.hash)))]
      && after.tasks == s.tasks && after.store.jobs == s.store.jobs
  {
  }

  /** So is one that passed the first check while another with its key was admitted. */
  lemma HeldKeyIsAnsweredLate(s: State, tid: Tid, saveOk: bool, id: Id)
    requires Inv(s) && Sound(s) && At(s, tid, Planned) && s.tasks[tid].job.key.Some?
    requires id in s.store.jobs && s.store.jobs[id].key == s.tasks[tid].job.key
    ensures var job := s.tasks[tid].job;
      AfterAdmit(s, tid, saveOk) ==
      s.(tasks := s.tasks - {tid},
         log := s.log + [Answered(tid, job.key, job.requestHash, AnswerFor(s.store.jobs[id], job.requestHash))])
  {
    HeldKeyIsAnsweredByHash(s.store.jobs, s.tasks[tid].job, s.store.limit, id);
  }

  /** Any other submission goes on with its own key and hash, as a new job. */
  lemma NewKeyGoesOn(s: State, step: Step)
    requires Enabled(s, step) && Sound(s) && step.Arrive? && (step.key.Some? ==> !HasKey(s.store.jobs, step.key.value))
    ensures var after := Apply(s, step);
      && after.log == s.log && s.nextTid in after.tasks
      && after.tasks[s.nextTid].connection == step.connection && after.tasks[s.nextTid].route == step.route
      && var job := after.tasks[s.nextTid].job;
         && job.id == step.id && job.key == step.key && job.updatedAt == step.now && job.state == Queued
         && job.requestHash == (if step.key.Some? then Some(step.hash) else None)
         && after.tasks == s.tasks[s.nextTid := after.tasks[s.nextTid]] && after.store.jobs == s.store.jobs
  {
  }

  /** When `e` was answered the map held a record of its key: with the hash of the
      submission if the record was the answer, with another if it was a conflict. */
  ghost predicate AnsweredFrom(jobs: map<Id, Job>, e: Event) {
    e.Answered? && (e.answer.Replayed? || e.answer.Conflicted?) ==>
      exists id :: id in jobs && e.key.Some? && jobs[id].key == e.key
                   && (e.answer.Replayed? ==> e.answer.existing == jobs[id] && jobs[id].requestHash == e.hash)
                   && (e.answer.Conflicted? ==> jobs[id].requestHash != e.hash)
  }

  /** A step only adds to the log, and what it adds is answered from the map. */
  ghost predicate Continues(s: State, t: State) {
    s.log <= t.log && forall i :: |s.log| <= i < |t.log| ==> AnsweredFrom(s.store.jobs, t.log[i])
  }

  lemma SomeHolder(jobs: map<Id, Job>, key: Key) returns (id: Id)
    requires HasKey(jobs, key)
    ensures id in jobs && jobs[id].key == Some(key)
  {
    id :| id in jobs && jobs[id].key == Some(key);
  }

  lemma ArriveContinues(s: State, step: Step)
    requires Inv(s) && Enabled(s, step) && Sound(s) && step.Arrive?
    ensures Continues(s, Apply(s, step))
  {
    hide Inv, Enabled, Apply;
    if step.key.Some? && HasKey(s.store.jobs, step.key.value) {
      var id := SomeHolder(s.store.jobs, step.key.value);
      HeldKeyIsAnsweredEarly(s, step, id);
    } else {
      NewKeyGoesOn(s, step);
    }
  }

  lemma AdmitContinues(s: State, tid: Tid, saveOk: bool)
    requires Inv(s) && Sound(s) && At(s, tid, Planned)
    ensures Continues(s, AfterAdmit(s, tid, saveOk))
  {
    hide StoreInv, TasksOk, WorkInv, LogInv, Save, AfterAdmit, AnsweredFrom;
    var job := s.tasks[tid].job;
    if job.key.Some? && HasKey(s.store.jobs, job.key.value) {
      var id := SomeHolder(s.store.jobs, job.key.value);
      HeldKeyIsAnsweredLate(s, tid, saveOk, id);
      AnswerIsFrom(s.store.jobs, id, AfterAdmit(s, tid, saveOk).log[|s.log|]);
    } else {
      NewKeyContinues(s, tid, saveOk);
    }
  }

  lemma AnswerIsFrom(jobs: map<Id, Job>, id: Id, e: Event)
    requires e.Answered? && id in jobs && e.key.Some? && jobs[id].key == e.key && e.answer == AnswerFor(jobs[id], e.hash)
    ensures AnsweredFrom(jobs, e)
  {
  }

  lemma RefusedContinues(s: State, tid: Tid, saveOk: bool)
    requires At(s, tid, Planned) && WellKeyed(s.store.jobs)
    requires Retention.Admit(s.store.jobs, s.tasks[tid].job, s.store.limit).Refused?
    ensures Continues(s, AfterAdmit(s, tid, saveOk))
  {
    hide AnsweredFrom, Retention.Admit;
    NoRepeat(s.store.jobs, Answered(tid, s.tasks[tid].job.key, s.tasks[tid].job.requestHash, Answer.Refused));
  }

  lemma NewKeyContinues(s: State, tid: Tid, saveOk: bool)
    requires At(s, tid, Planned) && WellKeyed(s.store.jobs)
    requires s.tasks[tid].job.key.Some? ==> !HasKey(s.store.jobs, s.tasks[tid].job.key.value)
    ensures Continues(s, AfterAdmit(s, tid, saveOk))
  {
    var job := s.tasks[tid].job;
    var a := Retention.Admit(s.store.jobs, job, s.store.limit);
    if a.Admitted? {
      hide Save, AnsweredFrom, Retention.Admit, AfterAdmit;
      AdmittedIsKeyed(s.store.jobs, job, s.store.limit);
      var after := if a.evicted.Some? then s.log + [Evicted(a.evicted.value)] else s.log;
      AdmittedLog(s, tid, saveOk, after, Save(s.store, a.jobs, saveOk));
      if a.evicted.Some? {
        NoRepeat(s.store.jobs, Evicted(a.evicted.value));
      }
      NoRepeat(s.store.jobs, Answered(tid, job.key, job.requestHash, SaveFailed));
    } else {
      RefusedContinues(s, tid, saveOk);
    }
  }

  lemma NoRepeat(jobs: map<Id, Job>, e: Event)
    requires !e.Answered? || !(e.answer.Replayed? || e.answer.Conflicted?)
    ensures AnsweredFrom(jobs, e)
  {
  }

  lemma StepContinues(s: State, step: Step)
    requires Inv(s) && Enabled(s, step) && Sound(s)
    ensures Continues(s, Apply(s, step))
  {
    hide Inv, Apply, Enabled, AfterAdmit, AfterArrive, Save, Mark, Reload, Advance, Ready, Sound, UseId;
    if step.Arrive? {
      ArriveContinues(s, step);
    } else if Global(step) {
      GlobalSteps(s, step);
      if step.Admit? {
        AdmitContinues(s, step.tid, step.saveOk);
      }
    } else if Own(step) {
      OwnStepOnTask(s, step);
    } else {
      BetweenSteps(s, step);
    }
  }

  /** Every answer that a run gives to a repeated key: at some state `u` on the way the
      map held a record of that key, and the answer is that record if the hashes are
      equal and a conflict if they differ. */
  lemma {:induction false} RepeatsAreAnsweredByHash(s: State, steps: seq<Step>, t: State, i: nat) returns (k: nat, u: State)
    requires Inv(s) && Reaches(s, steps, t) && |s.log| <= i < |t.log|
    ensures k < |steps| && Reaches(s, steps[..k], u) && |u.log| <= i && AnsweredFrom(u.store.jobs, t.log[i])
    decreases |steps|
  {
    hide Inv, Apply, Enabled, AnsweredFrom;
    var next := Apply(s, steps[0]);
    InvKept(s, steps[0]);
    StepContinues(s, steps[0]);
    LogOnlyGrows(next, steps[1..], t);
    if i < |next.log| {
      k, u := 0, s;
      assert steps[..0] == [];
    } else {
      var j;
      j, u := RepeatsAreAnsweredByHash(next, steps[1..], t, i);
      k := j + 1;
      assert steps[..k][0] == steps[0] && steps[..k][1..] == steps[1..][..j];
    }
  }

  lemma {:induction false} LogOnlyGrows(s: State, steps: seq<Step>, t: State)
    requires Inv(s) && Reaches(s, steps, t)
    ensures s.log <= t.log
    decreases |steps|
  {
    hide Inv, Apply, Enabled, AnsweredFrom;
    if steps != [] {
      InvKept(s, steps[0]);
      StepContinues(s, steps[0]);
      LogOnlyGrows(Apply(s, steps[0]), steps[1..], t);
    }
  }

  /** An exact retry returns the original job, and any other request with its key is a
      conflict, whatever happened since and as long as the record stayed. */
  lemma RetryReturnsTheOriginal(s: State, steps: seq<Step>, t: State, id: Id, step: Step)
    requires Inv(s) && Reaches(s, steps, t) && Throughout(s, steps, id) && s.store.jobs[id].key.Some?
    requires Sound(t) && Enabled(t, step) && step.Arrive? && step.key == s.store.jobs[id].key
    ensures id in t.store.jobs && Forward(s.store.jobs[id], t.store.jobs[id])
    ensures var answer := if s.store.jobs[id].requestHash == Some(step.hash) then Answer.Replayed(t.store.jobs[id]) else Conflicted;
            Apply(t, step).log == t.log + [Answered(t.nextTid, step.key, Some(step.hash), answer)]
    ensures Apply(t, step).tasks == t.tasks
  {
    hide Inv, Apply, Enabled;
    InvAlways(s, steps, t);
    RecordsOnlyMoveForward(s, steps, t, id);
    HeldKeyIsAnsweredEarly(t, step, id);
  }

  /** After a restart that reads its snapshot, a retry is answered from what was last
      saved of the job. */
  lemma RetryAfterRestart(s: State, id: Id, step: Step)
    requires Inv(s) && id in s.store.saved && s.store.saved[id].key.Some?
    requires var t := AfterRestart(s, true); Sound(t) && Enabled(t, step) && step.Arrive? && step.key == s.store.saved[id].key
    ensures var t := AfterRestart(s, true);
            var answer := if s.store.saved[id].requestHash == Some(step.hash)
                          then Answer.Replayed(Interrupted(s.store.saved[id])) else Conflicted;
            && Apply(t, step).log == s.log + [Answered(t.nextTid, step.key, Some(step.hash), answer)]
            && Apply(t, step).tasks == map[]
  {
    RestartKeepsInv(s);
    hide Inv, Apply, Enabled;
    RecordsAfterRestart(s, true, id);
    HeldKeyIsAnsweredEarly(AfterRestart(s, true), step, id);
  }

  lemma RestartKeepsInv(s: State)
    requires Inv(s)
    ensures Inv(AfterRestart(s, true))
  {
    hide StoreInv, TasksOk;
    InvKept(s, Restart(true));
  }
}
