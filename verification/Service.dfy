/** The shared state of the running service and the critical sections of
    submission, cancellation and completion, each one method. */
module Service {
  import opened Options
  import opened Jobs
  import opened Retention
  import Machine

  class Flag {
    var raised: bool

    constructor ()
      ensures !raised
    {
      raised := false;
    }
  }

  class Mutex {
    constructor () {}
  }

  datatype Reply = Accepted | Replayed(existing: Job) | Conflict | Refused | SaveFailed

  /** Sort the records read from a snapshot, oldest first; equal ones keep their order. */
  method SortJobs(file: seq<Job>) returns (sorted: seq<Job>)
    ensures sorted == Sort(file)
  {
    sorted := [];
    for i := |file| downto 0
      invariant sorted == Sort(file[i..])
    {
      assert file[i..][1..] == file[i + 1..];
      sorted := Insert(file[i], sorted);
    }
    assert file[0..] == file;
  }

  lemma {:induction false} CollectAppend(s: seq<Job>, job: Job)
    ensures Collect(s + [job]) == Collect(s)[job.id := Interrupted(job)]
  {
    hide Interrupted;
    if s == [] {
      assert s + [job] == [job];
    } else {
      assert (s + [job])[1..] == s[1..] + [job];
      CollectAppend(s[1..], job);
    }
  }

  /** The job map of a service that starts on `file`. */
  method LoadJobs(file: Option<seq<Job>>, limit: nat) returns (jobs: map<Id, Job>)
    ensures jobs == if file.Some? then Load(file.value, limit) else map[]
  {
    jobs := map[];
    if file.Some? {
      var restored := SortJobs(file.value);
      if |restored| > limit {
        restored := restored[|restored| - limit..];
      }
      for i := 0 to |restored|
        invariant jobs == Collect(restored[..i])
      {
        var job := restored[i];
        CollectAppend(restored[..i], job);
        assert restored[..i + 1] == restored[..i] + [job];
        jobs := jobs[job.id := Interrupted(job)];
      }
      assert restored[..|restored|] == restored;
    }
  }

  lemma {:induction false} CollectedShape(s: seq<Job>)
    ensures WellKeyed(Collect(s)) && |Collect(s)| <= |s|
  {
    if s != [] {
      CollectedShape(s[1..]);
      assert Collect(s).Keys == {s[0].id} + Collect(s[1..]).Keys;
    }
  }

  /** Whatever a file holds, loading it gives at most `limit` records, each under its id. */
  lemma LoadedShape(file: seq<Job>, limit: nat)
    ensures WellKeyed(Load(file, limit)) && |Load(file, limit)| <= limit
  {
    CollectedShape(Newest(Sort(file), limit));
  }

  /** The records of the map, oldest first. */
  method ListJobs(jobs: map<Id, Job>) returns (values: seq<Job>)
    requires WellKeyed(jobs)
    ensures values == Values(jobs)
  {
    values := [];
    var left := jobs;
    while |left| != 0
      invariant left.Keys <= jobs.Keys && forall id :: id in left ==> left[id] == jobs[id]
      invariant Lists(values, jobs - left.Keys)
      decreases |left|
    {
      SomeRecord(left);
      var id :| id in left;
      InsertLists(jobs[id], values, jobs - left.Keys);
      values := Insert(jobs[id], values);
      assert (left - {id}).Keys == left.Keys - {id};
      assert (jobs - left.Keys)[id := jobs[id]] == jobs - (left - {id}).Keys;
      left := left - {id};
    }
    assert jobs - left.Keys == jobs;
    ListingIsUnique(values, Values(jobs), jobs);
  }

  /** A retained job submitted with `key`, if there is one. */
  method FindKey(jobs: map<Id, Job>, key: Key) returns (found: Option<Job>)
    requires WellKeyed(jobs)
    ensures found.None? <==> !HasKey(jobs, key)
    ensures found.Some? ==> found.value.id in jobs && jobs[found.value.id] == found.value && found.value.key == Some(key)
  {
    var left := jobs;
    while |left| != 0
      invariant left.Keys <= jobs.Keys && forall id :: id in left ==> left[id] == jobs[id]
      invariant forall id :: id in jobs && id !in left ==> jobs[id].key != Some(key)
      decreases |left|
    {
      SomeRecord(left);
      var id :| id in left;
      if jobs[id].key == Some(key) {
        return Some(jobs[id]);
      }
      assert (left - {id}).Keys == left.Keys - {id};
      left := left - {id};
    }
    return None;
  }

  ghost predicate LeastSoFar(jobs: map<Id, Job>, left: map<Id, Job>, least: Id) {
    && least in jobs && jobs[least].Terminal()
    && forall id :: id in jobs && id !in left && jobs[id].Terminal() ==> NotAfter(jobs[least], jobs[id])
  }

  /** The terminal job that is least by (updatedAt, id), if any job is terminal. */
  method LeastTerminal(jobs: map<Id, Job>) returns (least: Option<Id>)
    requires WellKeyed(jobs)
    ensures least.None? <==> AllActive(jobs)
    ensures least.Some? ==> IsVictim(jobs, least.value)
  {
    least := None;
    var left := jobs;
    while |left| != 0
      invariant left.Keys <= jobs.Keys
      invariant least.None? ==> forall id :: id in jobs && id !in left ==> !jobs[id].Terminal()
      invariant least.Some? ==> LeastSoFar(jobs, left, least.value)
      decreases |left|
    {
      SomeRecord(left);
      var id :| id in left;
      if jobs[id].Terminal() && (least.None? || Before(jobs[id], jobs[least.value])) {
        least := Some(id);
      }
      assert (left - {id}).Keys == left.Keys - {id};
      left := left - {id};
    }
    assert forall id :: id in jobs ==> id !in left;
  }

  class Service {
    const limit: nat
    const durable: bool
    var jobs: map<Id, Job>
    var disk: Option<seq<Job>>
    var cancellations: map<Id, Flag>
    var locks: map<string, Mutex>

    ghost predicate Valid()
      reads this
    {
      && WellKeyed(jobs) && UniqueKeys(jobs) && |jobs| <= limit
      && (forall c, d :: c in locks && d in locks && locks[c] == locks[d] ==> c == d)
    }

    /** Any file can be loaded.  One that the service wrote itself holds no idempotency
        key twice. */
    constructor (limit: nat, durable: bool, file: Option<seq<Job>>)
      ensures WellKeyed(jobs) && |jobs| <= limit && (UniqueKeys(jobs) ==> Valid())
      ensures this.limit == limit && this.durable == durable && disk == file
      ensures jobs == if file.Some? then Load(file.value, limit) else map[]
      ensures cancellations == map[] && locks == map[]
    {
      this.limit := limit;
      this.durable := durable;
      this.disk := file;
      this.cancellations := map[];
      this.locks := map[];
      var loaded := LoadJobs(file, limit);
      this.jobs := loaded;
      if file.Some? {
        LoadedShape(file.value, limit);
      }
    }

    /** Write the snapshot.  `writable` tells whether the file system lets the
        new file be written and renamed over the old one. */
    method SaveJobs(writable: bool) returns (ok: bool)
      requires WellKeyed(jobs)
      modifies this`disk
      ensures ok == (!durable || writable)
      ensures disk == if durable && writable then Some(Snapshot(jobs, limit)) else old(disk)
    {
      if !durable {
        return true;
      }
      var values := ListJobs(jobs);
      if |values| > limit {
        values := values[|values| - limit..];
      }
      if !writable {
        return false;
      }
      disk := Some(values);
      return true;
    }

    /** The check under the read lock before any planning. */
    method EarlyCheck(key: Key, requestHash: string) returns (reply: Option<Reply>)
      requires Valid()
      ensures reply.None? <==> !HasKey(jobs, key)
      ensures forall id :: id in jobs && jobs[id].key == Some(key) ==>
        reply == Some(if jobs[id].requestHash == Some(requestHash) then Reply.Replayed(jobs[id]) else Reply.Conflict)
    {
      var found := FindKey(jobs, key);
      if found.None? {
        reply := None;
      } else if found.value.requestHash != Some(requestHash) {
        reply := Some(Reply.Conflict);
      } else {
        reply := Some(Reply.Replayed(found.value));
      }
    }

    /** The section under the write lock: recheck, evict, insert, save. */
    method AdmitJob(job: Job, writable: bool) returns (reply: Reply)
      requires Valid()
      modifies this`jobs, this`disk
      ensures WellKeyed(jobs)
      ensures job.id !in old(jobs) || old(job.key.Some? && HasKey(jobs, job.key.value)) ==> Valid()
      ensures forall id :: id in old(jobs) && job.key.Some? && old(jobs)[id].key == job.key ==>
        && reply == (if old(jobs)[id].requestHash == job.requestHash then Reply.Replayed(old(jobs)[id]) else Reply.Conflict)
        && jobs == old(jobs) && disk == old(disk)
      ensures match Admit(old(jobs), job, limit)
        case Replayed(existing) => reply == Reply.Replayed(existing) && jobs == old(jobs) && disk == old(disk)
        case Conflict => reply == Reply.Conflict && jobs == old(jobs) && disk == old(disk)
        case Refused => reply == Reply.Refused && jobs == old(jobs) && disk == old(disk)
        case Admitted(_, after) =>
          && jobs == after
          && reply == (if durable && !writable then SaveFailed else Accepted)
          && disk == (if durable && writable then Some(Snapshot(after, limit)) else old(disk))
    {
      if job.id !in jobs {
        AdmissionKeepsHistory(jobs, job, limit);
      }
      if job.key.Some? {
        var found := FindKey(jobs, job.key.value);
        if found.Some? {
          if found.value.requestHash != job.requestHash {
            return Reply.Conflict;
          }
          return Reply.Replayed(found.value);
        }
      }
      if |jobs| >= limit {
        var victim := LeastTerminal(jobs);
        if victim.None? {
          return Reply.Refused;
        }
        VictimIsUnique(jobs, victim.value, Victim(jobs));
        jobs := jobs - {victim.value};
      }
      jobs := jobs[job.id := job];
      var ok := SaveJobs(writable);
      reply := if ok then Accepted else SaveFailed;
    }

    method RegisterCancellation(id: Id, flag: Flag)
      requires Valid()
      modifies this`cancellations
      ensures Valid() && cancellations == old(cancellations)[id := flag]
    {
      cancellations := cancellations[id := flag];
    }

    /** The mutex of a connection: made on first use, the same one ever after,
        and never the mutex of another connection. */
    method LockFor(connection: string) returns (lock: Mutex)
      requires Valid()
      modifies this`locks
      ensures Valid() && connection in locks && locks[connection] == lock
      ensures forall c :: c in old(locks) ==> c in locks && locks[c] == old(locks)[c]
      ensures forall c :: c in locks ==> c in old(locks) || c == connection
      ensures connection !in old(locks) ==> fresh(lock)
    {
      if connection !in locks {
        var made := new Mutex();
        locks := locks[connection := made];
      }
      lock := locks[connection];
    }

    method RaiseFlag(id: Id)
      requires Valid()
      modifies cancellations.Values
      ensures Valid()
      ensures id in cancellations ==> cancellations[id].raised
      ensures forall other :: other in cancellations && (id in cancellations ==> cancellations[other] != cancellations[id]) ==>
        cancellations[other].raised == old(cancellations[other].raised)
    {
      if id in cancellations {
        cancellations[id].raised := true;
      }
    }

    /** The locked half of a cancellation. */
    method MarkCancelled(id: Id, now: Time, writable: bool) returns (marked: Option<Job>, ok: bool)
      requires Valid()
      modifies this`jobs, this`disk
      ensures Valid()
      ensures id !in old(jobs) ==> marked == None && jobs == old(jobs) && disk == old(disk)
      ensures id in old(jobs) ==>
        && marked == Some(old(jobs)[id].RequestCancel(now))
        && jobs == old(jobs)[id := old(jobs)[id].RequestCancel(now)]
        && ok == (!durable || writable)
        && disk == (if durable && writable then Some(Snapshot(jobs, limit)) else old(disk))
    {
      if id !in jobs {
        return None, false;
      }
      var job := jobs[id].RequestCancel(now);
      UpdateKeepsShape(jobs, job);
      jobs := jobs[id := job];
      ok := SaveJobs(writable);
      marked := Some(job);
    }

    /** The worker's one visit to the shared map, with its final record. */
    method RecordOutcome(job: Job, writable: bool)
      requires Valid()
      modifies this`jobs, this`disk
      ensures WellKeyed(jobs) && jobs == old(jobs)[job.id := job]
      ensures job.id in old(jobs) && old(jobs)[job.id].key == job.key ==> Valid()
      ensures disk == if durable && writable then Some(Snapshot(jobs, limit)) else old(disk)
    {
      if job.id in jobs && jobs[job.id].key == job.key {
        UpdateKeepsShape(jobs, job);
      }
      jobs := jobs[job.id := job];
      var _ := SaveJobs(writable);
    }
  }

  /** What the worker writes into its record when execution returns. */
  method FinishJob(job: Job, result: Machine.Result, cancel: Flag, now: Time) returns (running: Job)
    ensures running == Machine.Outcome(job, result, cancel.raised, now)
    ensures Machine.Settles(running, Machine.Decision(job, Machine.ProgressOf(job), result, cancel.raised, now))
  {
    running := job;
    match result {
      case Done(progress) =>
        if cancel.raised {
          running := running.(state := if progress.potentiallyAcceptedWrite then CancelledPartial else CancelledBeforeSend);
        } else {
          running := running.(state := Completed);
        }
        running := Machine.WithProgress(running, progress);
      case Failure(error, partial) =>
        if partial.Some? {
          running := Machine.WithProgress(running, partial.value);
        }
        if cancel.raised {
          running := running.(state := if running.potentiallyAcceptedWrite then CancelledPartial else CancelledBeforeSend);
        } else if running.potentiallyAcceptedWrite {
          running := running.(state := OutcomeUnknown);
        } else {
          running := running.(state := Failed);
        }
        running := running.(error := Some(error));
    }
    running := running.(updatedAt := now);
  }

  lemma UpdateKeepsShape(jobs: map<Id, Job>, job: Job)
    requires WellKeyed(jobs) && UniqueKeys(jobs) && job.id in jobs && jobs[job.id].key == job.key
    ensures var after := jobs[job.id := job]; WellKeyed(after) && UniqueKeys(after) && |after| == |jobs|
  {
  }
}
