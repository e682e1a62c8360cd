/** The bounded job history: what a save writes, what a load restores, and which
    record admission evicts (src/api/jobs.rs). */
module Retention {
  import opened Options
  import opened Jobs

  ghost predicate WellKeyed(jobs: map<Id, Job>) {
    forall id :: id in jobs ==> jobs[id].id == id
  }

  ghost predicate UniqueKeys(jobs: map<Id, Job>) {
    forall a, b :: a in jobs && b in jobs && jobs[a].key.Some? && jobs[a].key == jobs[b].key ==> a == b
  }

  // ---------------------------------------------------------------- ordered lists

  ghost predicate Ordered(s: seq<Job>) {
    forall i, j :: 0 <= i < j < |s| ==> Before(s[i], s[j])
  }

  /** `s` lists exactly the records of `jobs`, oldest first. */
  ghost predicate Lists(s: seq<Job>, jobs: map<Id, Job>) {
    && WellKeyed(jobs)
    && Ordered(s)
    && (forall job {:trigger job in s} :: job in s ==> job.id in jobs && jobs[job.id] == job)
    && (forall id {:trigger id in jobs} :: id in jobs ==> jobs[id] in s)
  }

  function Insert(job: Job, s: seq<Job>): seq<Job> {
    if s == [] then [job]
    else if !Before(s[0], job) then [job] + s
    else [s[0]] + Insert(job, s[1..])
  }

  function Sort(s: seq<Job>): seq<Job> {
    if s == [] then [] else Insert(s[0], Sort(s[1..]))
  }

  lemma {:induction false} InsertKeepsOrder(job: Job, s: seq<Job>)
    requires Ordered(s) && forall other :: other in s ==> other.id != job.id
    ensures Ordered(Insert(job, s))
    ensures forall x :: x in Insert(job, s) <==> x == job || x in s
  {
    if s != [] {
      if !Before(s[0], job) {
        assert forall k :: 0 < k < |s| ==> Before(s[0], s[k]);
      } else {
        assert s == [s[0]] + s[1..];
        InsertKeepsOrder(job, s[1..]);
        var tail := Insert(job, s[1..]);
        forall i | 0 <= i < |tail| ensures Before(s[0], tail[i]) {
          assert tail[i] in tail;
        }
      }
    }
  }

  lemma InsertLists(job: Job, s: seq<Job>, jobs: map<Id, Job>)
    requires Lists(s, jobs) && job.id !in jobs
    ensures Lists(Insert(job, s), jobs[job.id := job])
  {
    InsertKeepsOrder(job, s);
  }

  lemma {:induction false} SortOfOrdered(s: seq<Job>)
    requires Ordered(s)
    ensures Sort(s) == s
  {
    if s != [] {
      SortOfOrdered(s[1..]);
    }
  }

  // ---------------------------------------------------------------- sorting any file

  ghost predicate Nondecreasing(s: seq<Job>) {
    forall i, j :: 0 <= i < j < |s| ==>
      s[i].updatedAt < s[j].updatedAt || (s[i].updatedAt == s[j].updatedAt && s[i].id <= s[j].id)
  }

  /** The records of `s` that sort as the given time and id, in their order. */
  function Ties(s: seq<Job>, time: Time, id: Id): seq<Job> {
    if s == [] then []
    else (if s[0].updatedAt == time && s[0].id == id then [s[0]] else []) + Ties(s[1..], time, id)
  }

  lemma {:induction false} InsertAdds(job: Job, s: seq<Job>)
    ensures multiset(Insert(job, s)) == multiset(s) + multiset{job}
  {
    if s != [] && Before(s[0], job) {
      InsertAdds(job, s[1..]);
      assert s == [s[0]] + s[1..];
    }
  }

  lemma {:induction false} InsertSorts(job: Job, s: seq<Job>)
    requires Nondecreasing(s)
    ensures Nondecreasing(Insert(job, s))
  {
    if s != [] {
      if Before(s[0], job) {
        InsertSorts(job, s[1..]);
        InsertAdds(job, s[1..]);
        AtFront(s[0], Insert(job, s[1..]), multiset(s[1..]) + multiset{job});
      } else {
        AtFront(job, s, multiset(s));
      }
    }
  }

  lemma AtFront(job: Job, tail: seq<Job>, content: multiset<Job>)
    requires Nondecreasing(tail) && multiset(tail) == content
    requires forall other :: other in content ==> NotAfter(job, other)
    ensures Nondecreasing([job] + tail)
  {
    forall i | 0 <= i < |tail| ensures NotAfter(job, tail[i]) {
      assert tail[i] in multiset(tail);
    }
  }

  lemma {:induction false} InsertKeepsTies(job: Job, s: seq<Job>, time: Time, id: Id)
    ensures Ties(Insert(job, s), time, id) == Ties([job] + s, time, id)
  {
    assert ([job] + s)[1..] == s;
    if s != [] && Before(s[0], job) {
      InsertKeepsTies(job, s[1..], time, id);
      assert Insert(job, s)[1..] == Insert(job, s[1..]);
      assert ([job] + s[1..])[1..] == s[1..];
    }
  }

  lemma {:induction false} SortKeepsTies(s: seq<Job>, time: Time, id: Id)
    ensures Ties(Sort(s), time, id) == Ties(s, time, id)
  {
    if s != [] {
      SortKeepsTies(s[1..], time, id);
      InsertKeepsTies(s[0], Sort(s[1..]), time, id);
      assert ([s[0]] + Sort(s[1..]))[1..] == Sort(s[1..]);
    }
  }

  lemma {:induction false} SortOrders(s: seq<Job>)
    ensures Nondecreasing(Sort(s)) && multiset(Sort(s)) == multiset(s)
  {
    hide Nondecreasing;
    if s == [] {
      EmptyIsOrdered();
    } else {
      SortOrders(s[1..]);
      InsertSorts(s[0], Sort(s[1..]));
      InsertAdds(s[0], Sort(s[1..]));
      assert s == [s[0]] + s[1..];
    }
  }

  lemma EmptyIsOrdered()
    ensures Nondecreasing([])
  {
  }

  /** Sorting any file, whatever ids and times it repeats, orders it, keeps every
      record, and leaves records of the same time and id in their order. */
  lemma SortIsStable(s: seq<Job>)
    ensures Nondecreasing(Sort(s)) && multiset(Sort(s)) == multiset(s)
    ensures forall time, id :: Ties(Sort(s), time, id) == Ties(s, time, id)
  {
    SortOrders(s);
    forall time, id ensures Ties(Sort(s), time, id) == Ties(s, time, id) {
      SortKeepsTies(s, time, id);
    }
  }

  lemma SomeRecord(jobs: map<Id, Job>)
    ensures jobs == map[] || exists id: Id :: id in jobs
  {
    if !exists id: Id :: id in jobs {
      assert jobs.Keys == {};
    }
  }

  /** The records of a map in retention order. */
  ghost function Values(jobs: map<Id, Job>): (s: seq<Job>)
    requires WellKeyed(jobs)
    ensures Lists(s, jobs)
    decreases |jobs|
  {
    if |jobs| == 0 then []
    else
      SomeRecord(jobs);
      var id :| id in jobs;
      InsertLists(jobs[id], Values(jobs - {id}), jobs - {id});
      assert (jobs - {id})[id := jobs[id]] == jobs;
      Insert(jobs[id], Values(jobs - {id}))
  }

  lemma ListsRest(s: seq<Job>, jobs: map<Id, Job>)
    requires Lists(s, jobs) && s != []
    ensures Lists(s[1..], jobs - {s[0].id})
  {
    assert s == [s[0]] + s[1..];
    assert s[0] in s;
    forall job | job in s[1..] ensures job.id in jobs - {s[0].id} && jobs[job.id] == job {
      assert Before(s[0], job) && job in s;
    }
  }

  // ---------------------------------------------------------------- save and load

  function Newest(s: seq<Job>, n: nat): seq<Job> {
    if |s| <= n then s else s[|s| - n..]
  }

  /** What `save_jobs` writes. */
  ghost function Snapshot(jobs: map<Id, Job>, n: nat): seq<Job>
    requires WellKeyed(jobs)
  {
    Newest(Values(jobs), n)
  }

  function Collect(s: seq<Job>): map<Id, Job> {
    if s == [] then map[] else map[s[0].id := Interrupted(s[0])] + Collect(s[1..])
  }

  /** Of several records of one id the last wins. */
  lemma {:induction false} CollectKeepsTheLast(s: seq<Job>, i: nat)
    requires i < |s| && forall j :: i < j < |s| ==> s[j].id != s[i].id
    ensures s[i].id in Collect(s) && Collect(s)[s[i].id] == Interrupted(s[i])
  {
    hide Interrupted;
    if i > 0 {
      CollectKeepsTheLast(s[1..], i - 1);
    } else {
      CollectOnlyHas(s[1..], s[0].id);
    }
  }

  lemma {:induction false} CollectOnlyHas(s: seq<Job>, id: Id)
    requires forall job <- s :: job.id != id
    ensures id !in Collect(s)
  {
    hide Interrupted;
    if s != [] {
      CollectOnlyHas(s[1..], id);
    }
  }

  /** What `load_jobs` makes of the records it reads. */
  function Load(file: seq<Job>, n: nat): map<Id, Job> {
    Collect(Newest(Sort(file), n))
  }

  /** `kept` holds the `n` most recent records of `jobs`, with work that was
      still active marked as of unknown outcome, and nothing else. */
  ghost predicate KeepsNewest(jobs: map<Id, Job>, kept: map<Id, Job>, n: nat) {
    && kept.Keys <= jobs.Keys
    && |kept| == (if |jobs| <= n then |jobs| else n)
    && (forall id :: id in kept ==> kept[id] == Interrupted(jobs[id]))
    && (forall a, b :: a in kept && b in jobs && b !in kept ==>
          jobs[b].updatedAt < jobs[a].updatedAt || (jobs[b].updatedAt == jobs[a].updatedAt && b < a))
  }

  lemma {:induction false} ListLength(s: seq<Job>, jobs: map<Id, Job>)
    requires Lists(s, jobs)
    ensures |s| == |jobs|
    decreases |s|
  {
    if s == [] {
      SomeRecord(jobs);
    } else {
      ListsRest(s, jobs);
      ListLength(s[1..], jobs - {s[0].id});
      FirstIsListed(s, jobs);
      hide Lists;
      assert jobs.Keys == (jobs - {s[0].id}).Keys + {s[0].id};
    }
  }

  lemma FirstIsListed(s: seq<Job>, jobs: map<Id, Job>)
    requires Lists(s, jobs) && s != []
    ensures s[0].id in jobs && jobs[s[0].id] == s[0]
  {
    assert s[0] in s;
  }

  lemma FirstAndRest(first: Job, rest: map<Id, Job>, jobs: map<Id, Job>)
    requires first.id in jobs && jobs[first.id] == first
    requires rest == map id | id in jobs - {first.id} :: Interrupted((jobs - {first.id})[id])
    ensures map[first.id := Interrupted(first)] + rest == map id | id in jobs :: Interrupted(jobs[id])
  {
    hide Interrupted;
  }

  lemma {:induction false} CollectLists(s: seq<Job>, jobs: map<Id, Job>)
    requires Lists(s, jobs)
    ensures Collect(s) == map id | id in jobs :: Interrupted(jobs[id])
    ensures |s| == |jobs|
    decreases |s|
  {
    hide Interrupted, Lists;
    ListLength(s, jobs);
    if s == [] {
      SomeRecord(jobs);
    } else {
      FirstIsListed(s, jobs);
      ListsRest(s, jobs);
      CollectLists(s[1..], jobs - {s[0].id});
      FirstAndRest(s[0], Collect(s[1..]), jobs);
    }
  }

  /** The records of `jobs` without the oldest `k`. */
  ghost function Suffix(s: seq<Job>, jobs: map<Id, Job>, k: nat): (kept: map<Id, Job>)
    requires Lists(s, jobs) && k <= |s|
    ensures Lists(s[k..], kept)
    ensures forall id :: id in kept ==> id in jobs && kept[id] == jobs[id]
    ensures forall a, b :: a in kept && b in jobs && b !in kept ==> Before(jobs[b], jobs[a])
    decreases k
  {
    if k == 0 then assert s[0..] == s; jobs
    else
      ListsRest(s, jobs);
      var kept := Suffix(s[1..], jobs - {s[0].id}, k - 1);
      assert s[1..][k - 1..] == s[k..];
      OldestFirst(s, jobs);
      assert forall b :: b in jobs && b != s[0].id ==> b in jobs - {s[0].id};
      kept
  }

  lemma OldestFirst(s: seq<Job>, jobs: map<Id, Job>)
    requires Lists(s, jobs) && s != []
    ensures s[0].id in jobs && jobs[s[0].id] == s[0]
    ensures forall id :: id in jobs && id != s[0].id ==> Before(s[0], jobs[id])
  {
    assert s[0] in s;
    forall id | id in jobs && id != s[0].id ensures Before(s[0], jobs[id]) {
      assert jobs[id] in s;
    }
  }

  /** A map has one listing, whatever order its values are visited in. */
  lemma {:induction false} ListingIsUnique(s: seq<Job>, t: seq<Job>, jobs: map<Id, Job>)
    requires Lists(s, jobs) && Lists(t, jobs)
    ensures s == t
    decreases |s|
  {
    hide Lists, Before;
    ListLength(s, jobs);
    ListLength(t, jobs);
    if s != [] {
      SameFirst(s, t, jobs);
      ListsRest(s, jobs);
      ListsRest(t, jobs);
      ListingIsUnique(s[1..], t[1..], jobs - {s[0].id});
      assert s == [s[0]] + s[1..] && t == [t[0]] + t[1..];
    }
  }

  lemma SameFirst(s: seq<Job>, t: seq<Job>, jobs: map<Id, Job>)
    requires Lists(s, jobs) && Lists(t, jobs) && s != [] && t != []
    ensures s[0] == t[0]
  {
    hide Lists;
    OldestFirst(s, jobs);
    OldestFirst(t, jobs);
  }

  /** Saving and loading keeps exactly the most recent records: as many as the
      smaller of the two limits allows. */
  lemma LoadOfSnapshot(jobs: map<Id, Job>, saved: nat, loaded: nat)
    requires WellKeyed(jobs)
    ensures KeepsNewest(jobs, Load(Snapshot(jobs, saved), loaded), if saved <= loaded then saved else loaded)
  {
    var s := Values(jobs);
    var n := if saved <= loaded then saved else loaded;
    var from := if |s| <= n then 0 else |s| - n;
    assert |s| == |jobs| by { CollectLists(s, jobs); }
    assert Sort(Snapshot(jobs, saved)) == Snapshot(jobs, saved) by { SortOfOrdered(Snapshot(jobs, saved)); }
    assert Newest(Snapshot(jobs, saved), loaded) == s[from..];
    SuffixIsNewest(s, jobs, from);
  }

  lemma SuffixIsNewest(s: seq<Job>, jobs: map<Id, Job>, k: nat)
    requires Lists(s, jobs) && k <= |s|
    ensures KeepsNewest(jobs, Collect(s[k..]), |s| - k)
  {
    var kept := Suffix(s, jobs, k);
    CollectLists(s, jobs);
    CollectLists(s[k..], kept);
    assert Collect(s[k..]).Keys == kept.Keys;
  }

  /** Within the limit nothing is lost: a restart sees every saved record. */
  lemma RestartKeepsEverything(jobs: map<Id, Job>, n: nat)
    requires WellKeyed(jobs) && |jobs| <= n
    ensures Load(Snapshot(jobs, n), n) == map id | id in jobs :: Interrupted(jobs[id])
  {
    CollectLists(Values(jobs), jobs);
    SortOfOrdered(Values(jobs));
  }

  // ---------------------------------------------------------------- eviction and admission

  /** The terminal record that is least by (updatedAt, id). */
  ghost predicate IsVictim(jobs: map<Id, Job>, id: Id) {
    && id in jobs && jobs[id].Terminal()
    && forall other :: other in jobs && jobs[other].Terminal() ==>
         jobs[id].updatedAt < jobs[other].updatedAt ||
         (jobs[id].updatedAt == jobs[other].updatedAt && jobs[id].id <= jobs[other].id)
  }

  ghost predicate AllActive(jobs: map<Id, Job>) {
    forall id :: id in jobs ==> !jobs[id].Terminal()
  }

  lemma {:induction false} VictimExists(jobs: map<Id, Job>)
    requires WellKeyed(jobs) && !AllActive(jobs)
    ensures exists id: Id :: IsVictim(jobs, id)
    decreases |jobs|
  {
    var id :| id in jobs && jobs[id].Terminal();
    var rest := jobs - {id};
    if AllActive(rest) {
      assert forall other :: other in jobs && jobs[other].Terminal() ==> other == id by {
        forall other | other in jobs && jobs[other].Terminal() ensures other == id {
          assert other != id ==> other in rest;
        }
      }
      assert IsVictim(jobs, id);
    } else {
      VictimExists(rest);
      var best: Id :| IsVictim(rest, best);
      var winner := if NotAfter(jobs[id], jobs[best]) then id else best;
      forall other | other in jobs && jobs[other].Terminal() ensures NotAfter(jobs[winner], jobs[other]) {
        assert other != id ==> other in rest;
      }
      assert IsVictim(jobs, winner);
    }
  }

  lemma VictimIsUnique(jobs: map<Id, Job>, a: Id, b: Id)
    requires WellKeyed(jobs) && IsVictim(jobs, a) && IsVictim(jobs, b)
    ensures a == b
  {
  }

  ghost function Victim(jobs: map<Id, Job>): (victim: Id)
    requires WellKeyed(jobs) && !AllActive(jobs)
    ensures IsVictim(jobs, victim)
  {
    VictimExists(jobs);
    var victim: Id :| IsVictim(jobs, victim);
    victim
  }

  ghost predicate HasKey(jobs: map<Id, Job>, key: Key) {
    exists id :: id in jobs && jobs[id].key == Some(key)
  }

  datatype Admission =
    | Replayed(existing: Job)
    | Conflict
    | Refused
    | Admitted(evicted: Option<Job>, jobs: map<Id, Job>)

  /** The decision taken under the write lock: recheck, evict, insert. */
  ghost function Admit(jobs: map<Id, Job>, job: Job, limit: nat): Admission
    requires WellKeyed(jobs)
  {
    if job.key.Some? && HasKey(jobs, job.key.value) then
      var id :| id in jobs && jobs[id].key == job.key;
      if jobs[id].requestHash != job.requestHash then Conflict else Replayed(jobs[id])
    else if |jobs| < limit then Admitted(None, jobs[job.id := job])
    else if AllActive(jobs) then Refused
    else
      var victim := Victim(jobs);
      Admitted(Some(jobs[victim]), (jobs - {victim})[job.id := job])
  }

  /** A key that is held is answered by comparing the request hashes: an exact repeat
      with the record, anything else as a conflict. */
  lemma HeldKeyIsAnsweredByHash(jobs: map<Id, Job>, job: Job, limit: nat, id: Id)
    requires WellKeyed(jobs) && UniqueKeys(jobs)
    requires id in jobs && job.key.Some? && jobs[id].key == job.key
    ensures Admit(jobs, job, limit) == if jobs[id].requestHash == job.requestHash then Replayed(jobs[id]) else Conflict
  {
  }

  lemma InsertKeepsKeys(jobs: map<Id, Job>, job: Job, removed: set<Id>)
    requires WellKeyed(jobs) && UniqueKeys(jobs)
    requires job.key.Some? ==> !HasKey(jobs, job.key.value)
    ensures WellKeyed((jobs - removed)[job.id := job]) && UniqueKeys((jobs - removed)[job.id := job])
  {
  }

  /** Retention at admission: the history stays within its limit, exactly one
      record leaves (only when the history is full) and it is the least terminal
      one, every other record stays as it was, and a new key is turned away only
      when every retained job is active. */
  ghost predicate AdmittedWell(jobs: map<Id, Job>, job: Job, limit: nat, evicted: Option<Job>, after: map<Id, Job>) {
    && |after| <= limit
    && WellKeyed(after) && UniqueKeys(after)
    && (evicted.Some? <==> |jobs| == limit)
    && (evicted.Some? ==> IsVictim(jobs, evicted.value.id) && jobs[evicted.value.id] == evicted.value)
    && after == (if evicted.Some? then jobs - {evicted.value.id} else jobs)[job.id := job]
  }

  lemma AdmissionKeepsHistory(jobs: map<Id, Job>, job: Job, limit: nat)
    requires WellKeyed(jobs) && UniqueKeys(jobs) && |jobs| <= limit && job.id !in jobs
    ensures var a := Admit(jobs, job, limit);
      && (a.Refused? <==> !(job.key.Some? && HasKey(jobs, job.key.value)) && |jobs| == limit && AllActive(jobs))
      && (a.Replayed? || a.Conflict? <==> job.key.Some? && HasKey(jobs, job.key.value))
      && (a.Admitted? ==> AdmittedWell(jobs, job, limit, a.evicted, a.jobs))
  {
    var a := Admit(jobs, job, limit);
    if a.Admitted? {
      var removed := if a.evicted.Some? then {a.evicted.value.id} else {};
      InsertKeepsKeys(jobs, job, removed);
      assert a.evicted.None? ==> jobs - removed == jobs;
      AdmissionKeepsSize(jobs, job, removed);
    }
  }

  lemma AdmissionKeepsSize(jobs: map<Id, Job>, job: Job, removed: set<Id>)
    requires job.id !in jobs && removed <= jobs.Keys
    ensures |(jobs - removed)[job.id := job]| == |jobs| - |removed| + 1
  {
  }
}
