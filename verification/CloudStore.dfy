/** The durable record of cloud deliveries (src/cloud/store.rs). */
module CloudStore {
  import opened Options
  import opened Jobs

  datatype CloudJob = CloudJob(id: Id, printer: Id, sha: string, local: Job)

  /** A PrintJob message after its texts were parsed: the ids when they are
      well formed, the size and the digest of the payload, and whether the
      payload is a valid print request. */
  datatype Delivery = Delivery(
    jobId: Option<Id>,
    printerId: Option<Id>,
    configured: bool,
    size: nat,
    actualSha: string,
    claimedSha: string,
    valid: bool)

  datatype ReceiveError = InvalidJobId | InvalidPrinterId | TooLarge | DigestMismatch | Conflict | InvalidRequest

  datatype Receipt = New(job: CloudJob) | Existing(job: CloudJob) | Rejected(error: ReceiveError)

  /** What a delivery comes to, given the records held. */
  function Examine(jobs: map<Id, CloudJob>, d: Delivery, limit: nat, now: Time): Receipt {
    if d.jobId.None? then Rejected(InvalidJobId)
    else if d.printerId.None? then Rejected(InvalidPrinterId)
    else if d.size > limit then Rejected(TooLarge)
    else if d.actualSha != d.claimedSha then Rejected(DigestMismatch)
    else if !d.valid then Rejected(InvalidRequest)
    else if d.jobId.value in jobs then
      var held := jobs[d.jobId.value];
      if held.sha == d.actualSha && held.printer == d.printerId.value then Existing(held) else Rejected(Conflict)
    else
      New(CloudJob(d.jobId.value, d.printerId.value, d.actualSha,
                   NewJob(d.jobId.value, None, Some(d.actualSha), now)))
  }

  function Taken(jobs: map<Id, CloudJob>, r: Receipt): map<Id, CloudJob> {
    if r.New? then jobs[r.job.id := r.job] else jobs
  }

  /** A record whose worker was interrupted: work that may have written is not
      queued again. */
  function Reconciled(job: Job): Job {
    if job.state == Running then
      job.(state := if job.potentiallyAcceptedWrite then OutcomeUnknown else Queued)
    else job
  }

  function ReconciledAll(jobs: map<Id, CloudJob>): map<Id, CloudJob> {
    map id | id in jobs :: jobs[id].(local := Reconciled(jobs[id].local))
  }

  /** A delivery is refused for the first of these reasons that applies, found when its id
      is held with the same payload and printer, and otherwise recorded as a queued job
      of that id, payload and printer. */
  lemma ReceivedExactlyWhen(jobs: map<Id, CloudJob>, d: Delivery, limit: nat, now: Time)
    ensures var r := Examine(jobs, d, limit, now);
      var named := d.jobId.Some? && d.printerId.Some?;
      var sound := named && d.size <= limit && d.actualSha == d.claimedSha && d.valid;
      && (r == Rejected(InvalidJobId) <==> d.jobId.None?)
      && (r == Rejected(InvalidPrinterId) <==> d.jobId.Some? && d.printerId.None?)
      && (r == Rejected(TooLarge) <==> named && d.size > limit)
      && (r == Rejected(DigestMismatch) <==> named && d.size <= limit && d.actualSha != d.claimedSha)
      && (r == Rejected(InvalidRequest) <==> named && d.size <= limit && d.actualSha == d.claimedSha && !d.valid)
      && (r == Rejected(Conflict) <==>
            && sound && d.jobId.value in jobs
            && !(jobs[d.jobId.value].sha == d.actualSha && jobs[d.jobId.value].printer == d.printerId.value))
      && (r.Existing? <==>
            && sound && d.jobId.value in jobs
            && jobs[d.jobId.value].sha == d.actualSha && jobs[d.jobId.value].printer == d.printerId.value)
      && (r.Existing? ==> r.job == jobs[d.jobId.value])
      && (r.New? <==> sound && d.jobId.value !in jobs)
      && (r.New? ==>
            && r.job.id == d.jobId.value == r.job.local.id && r.job.printer == d.printerId.value && r.job.sha == d.actualSha
            && r.job.local.state == Queued && r.job.local.requestHash == Some(d.actualSha) && r.job.local.updatedAt == now)
  {
  }

  /** Receiving the same message again changes nothing and finds the record made
      the first time; the same id with another payload or printer is a conflict. */
  lemma ReceiveTwice(jobs: map<Id, CloudJob>, d: Delivery, e: Delivery, limit: nat, t: Time, u: Time)
    requires forall id :: id in jobs ==> jobs[id].id == id
    requires !Examine(jobs, d, limit, t).Rejected? && e.jobId == d.jobId
    ensures var r := Examine(jobs, d, limit, t);
      var again := Examine(Taken(jobs, r), e, limit, u);
      && Taken(Taken(jobs, r), again) == Taken(jobs, r)
      && (again == Existing(r.job) || again.Rejected?)
      && (again == Existing(r.job) <==>
            e.printerId == d.printerId && e.size <= limit && e.valid && e.actualSha == e.claimedSha && e.actualSha == d.actualSha)
  {
  }

  /** A restart leaves no record running, keeps every digest and printer, and
      never queues work again that may have reached the device. */
  lemma ReconcileNeverRequeuesWrites(jobs: map<Id, CloudJob>)
    ensures var r := ReconciledAll(jobs);
      && r.Keys == jobs.Keys
      && forall id :: id in jobs ==>
           && r[id].local.state != Running
           && (jobs[id].local.state == Running ==>
                 r[id].local.state == (if jobs[id].local.potentiallyAcceptedWrite then OutcomeUnknown else Queued))
           && r[id] == jobs[id].(local := jobs[id].local.(state := r[id].local.state))
           && r[id].sha == jobs[id].sha && r[id].printer == jobs[id].printer
           && (jobs[id].local.state == Running && jobs[id].local.potentiallyAcceptedWrite ==> r[id].local.Terminal())
           && (jobs[id].local.state != Running ==> r[id] == jobs[id])
  {
  }

  class CloudJobStore {
    var jobs: map<Id, CloudJob>

    constructor (jobs: map<Id, CloudJob>)
      ensures this.jobs == jobs
    {
      this.jobs := jobs;
    }

    method Receive(d: Delivery, limit: nat, now: Time) returns (r: Receipt)
      modifies this
      ensures r == Examine(old(jobs), d, limit, now)
      ensures jobs == Taken(old(jobs), r)
      ensures r.Rejected? || r.Existing? ==> jobs == old(jobs)
    {
      if d.jobId.None? {
        return Rejected(InvalidJobId);
      }
      if d.printerId.None? {
        return Rejected(InvalidPrinterId);
      }
      if d.size > limit {
        return Rejected(TooLarge);
      }
      if d.actualSha != d.claimedSha {
        return Rejected(DigestMismatch);
      }
      if !d.valid {
        return Rejected(InvalidRequest);
      }
      var id := d.jobId.value;
      if id in jobs {
        if jobs[id].sha == d.actualSha && jobs[id].printer == d.printerId.value {
          return Existing(jobs[id]);
        }
        return Rejected(Conflict);
      }
      var local := NewJob(id, None, Some(d.actualSha), now);
      var job := CloudJob(id, d.printerId.value, d.actualSha, local);
      jobs := jobs[id := job];
      return New(job);
    }

    method ReconcileInterrupted()
      modifies this
      ensures jobs == ReconciledAll(old(jobs))
    {
      var left := jobs.Keys;
      while left != {}
        invariant left <= jobs.Keys == old(jobs).Keys
        invariant forall id :: id in left ==> jobs[id] == old(jobs)[id]
        invariant forall id :: id in jobs && id !in left ==> jobs[id] == ReconciledAll(old(jobs))[id]
        decreases |left|
      {
        SomeId(left);
        var id :| id in left;
        var job := jobs[id];
        if job.local.state == Running {
          var state := if job.local.potentiallyAcceptedWrite then OutcomeUnknown else Queued;
          jobs := jobs[id := job.(local := job.local.(state := state))];
        }
        left := left - {id};
      }
      assert forall id :: id in jobs ==> jobs[id] == ReconciledAll(old(jobs))[id];
    }
  }

  lemma SomeId(ids: set<Id>)
    ensures ids == {} || exists id: Id :: id in ids
  {
    if !exists id: Id :: id in ids {
      assert ids == {};
    }
  }
}
