/** Job records of the local print service (src/jobs.rs). */
module Jobs {

  import opened Options

  // Job ids are 128-bit values compared as unsigned numbers; times are milliseconds.
  type Id = int
  type Time = int

  datatype JobState =
    | Queued
    | Running
    | CancelRequested
    | CancelledBeforeSend
    | CancelledPartial
    | OutcomeUnknown
    | Completed
    | Failed

  /** A scoped idempotency key.  The service writes it as one string, either
      `origin NUL key` for an HTTP submission or `cloud NUL id` for a cloud job;
      an origin always carries an http scheme, so the two forms never meet. */
  datatype Key =
    | Http(origin: string, key: string)
    | Cloud(id: Id)

  /** The fields of a job record that execution, deduplication and retention use.
      A record is a value: every holder owns a clone. */
  datatype Job = Job(
    id: Id,
    state: JobState,
    lastAction: Option<nat>,
    bytesWritten: nat,
    potentiallyAcceptedWrite: bool,
    error: Option<string>,
    key: Option<Key>,
    requestHash: Option<string>,
    updatedAt: Time)
  {
    predicate Terminal() {
      state in {CancelledBeforeSend, CancelledPartial, OutcomeUnknown, Completed, Failed}
    }

    function RequestCancel(now: Time): Job {
      if Terminal() then this else this.(state := CancelRequested, updatedAt := now)
    }
  }

  function NewJob(id: Id, key: Option<Key>, requestHash: Option<string>, now: Time): Job {
    Job(id, Queued, None, 0, false, None, key, requestHash, now)
  }

  /** The record a restarted service keeps for a job it finds in the snapshot. */
  function Interrupted(job: Job): (r: Job)
    ensures r.Terminal() && r.id == job.id && r.key == job.key
    ensures job.Terminal() ==> r == job
    ensures !job.Terminal() ==> r.state == OutcomeUnknown && r.updatedAt == job.updatedAt
  {
    if job.Terminal() then job
    else job.(state := OutcomeUnknown, error := Some("service restarted before terminal outcome"))
  }

  /** Only the state and the error of an interrupted job change. */
  lemma InterruptedIsMarked(job: Job)
    requires !job.Terminal()
    ensures var r := Interrupted(job);
            r.state == OutcomeUnknown && r.error.Some? && r == job.(state := r.state, error := r.error)
  {
  }

  /** The order used by retention: by last update, ties broken by id. */
  predicate Before(a: Job, b: Job) {
    a.updatedAt < b.updatedAt || (a.updatedAt == b.updatedAt && a.id < b.id)
  }

  predicate NotAfter(a: Job, b: Job) {
    Before(a, b) || (a.updatedAt == b.updatedAt && a.id == b.id)
  }
}
