/** The pipeline worker's job table, as the scheduler sees it. */
module JobTable {
  import opened Sorting

  datatype Status = Queued | Processing | Completed | Failed | Canceled

  datatype Allowance = Unlimited | AtMost(jobs: int)

  datatype Job = Job(
    id: string,
    user: string,              // empty when the request carried no user id
    priority: int,
    allowance: Allowance,      // the plan's concurrent-jobs limit, when it was sent
    status: Status,
    created: real,
    updated: real)

  const TTL := 3600.0

  /** The table in insertion order, as a Python dict keeps it: one entry per id. */
  ghost predicate DistinctIds(jobs: seq<Job>) {
    forall i, j {:trigger jobs[i], jobs[j]} | 0 <= i < j < |jobs| :: jobs[i].id != jobs[j].id
  }

  predicate Newer(a: Job, b: Job) {
    a.created >= b.created
  }

  /** The job was updated within the time to live. */
  predicate Kept(job: Job, now: real) {
    now - job.updated <= TTL
  }

  function KeptAt(now: real): Job -> bool {
    job => Kept(job, now)
  }

  function Live(jobs: seq<Job>, now: real): seq<Job> {
    Filter(jobs, KeptAt(now))
  }

  function Take<T>(s: seq<T>, n: nat): seq<T> {
    if n <= |s| then s[..n] else s
  }

  /** `list_jobs`: the newest `limit` jobs among those still kept. */
  function Listing(jobs: seq<Job>, now: real, limit: nat): seq<Job> {
    Take(Sort(Live(jobs, now), Newer), limit)
  }

  function IndexOf(jobs: seq<Job>, id: string): (i: nat)
    ensures i <= |jobs|
    ensures i < |jobs| ==> jobs[i].id == id
    ensures forall k | 0 <= k < i :: jobs[k].id != id
  {
    if jobs == [] || jobs[0].id == id then 0 else 1 + IndexOf(jobs[1..], id)
  }

  /** Assigning a dict entry: an id already there keeps its place. */
  function Stored(jobs: seq<Job>, job: Job): seq<Job> {
    var i := IndexOf(jobs, job.id);
    if i < |jobs| then jobs[i := job] else jobs + [job]
  }

  class Table {
    var jobs: seq<Job>

    constructor ()
      ensures jobs == []
    {
      jobs := [];
    }

    method CreateJob(job: Job)
      requires DistinctIds(jobs)
      modifies this
      ensures jobs == Stored(old(jobs), job) && DistinctIds(jobs)
    {
      var i := IndexOf(jobs, job.id);
      jobs := if i < |jobs| then jobs[i := job] else jobs + [job];
    }

    /** A status change made through `update_job`. */
    method UpdateStatus(id: string, status: Status, now: real) returns (found: bool)
      requires DistinctIds(jobs)
      modifies this
      ensures DistinctIds(jobs) && |jobs| == |old(jobs)|
      ensures found <==> exists j :: j in old(jobs) && j.id == id
      ensures forall i | 0 <= i < |jobs| && old(jobs)[i].id == id ::
        jobs[i] == old(jobs)[i].(status := status, updated := now)
      ensures forall i | 0 <= i < |jobs| && old(jobs)[i].id != id :: jobs[i] == old(jobs)[i]
    {
      var i := IndexOf(jobs, id);
      if i == |jobs| {
        return false;
      }
      assert jobs[i] in jobs;
      jobs := jobs[i := jobs[i].(status := status, updated := now)];
      return true;
    }

    method ListJobs(now: real, limit: nat) returns (listed: seq<Job>)
      requires DistinctIds(jobs)
      modifies this
      ensures jobs == Live(old(jobs), now) && DistinctIds(jobs)
      ensures listed == Listing(old(jobs), now, limit) && DistinctIds(listed)
    {
      LiveDistinct(jobs, now);
      jobs := Live(jobs, now);
      var sorted := Sort(jobs, Newer);
      SortDistinct(jobs, Newer);
      listed := if limit <= |sorted| then sorted[..limit] else sorted;
    }
  }

  lemma {:induction false} FilterDistinct(jobs: seq<Job>, p: Job -> bool)
    requires DistinctIds(jobs)
    ensures DistinctIds(Filter(jobs, p))
  {
    if jobs != [] {
      FilterDistinct(jobs[1..], p);
      FilterMembers(jobs[1..], p);
      var rest := Filter(jobs[1..], p);
      assert forall j | j in rest :: j.id != jobs[0].id;
    }
  }

  lemma LiveDistinct(jobs: seq<Job>, now: real)
    requires DistinctIds(jobs)
    ensures DistinctIds(Live(jobs, now))
  {
    FilterDistinct(jobs, KeptAt(now));
  }

  /** Storing a job replaces the one of the same id in its place, or adds the job at the end; the other jobs
      stay where they are. */
  lemma StoredIs(jobs: seq<Job>, job: Job)
    requires DistinctIds(jobs)
    ensures var after := Stored(jobs, job);
      && (forall j :: j in after <==> j == job || (j in jobs && j.id != job.id))
      && (forall i | 0 <= i < |jobs| :: i < |after| && after[i] == if jobs[i].id == job.id then job else jobs[i])
      && (|after| == |jobs| || (|after| == |jobs| + 1 && after[|jobs|] == job))
  {
    var i, after := IndexOf(jobs, job.id), Stored(jobs, job);
    forall j ensures j in after <==> j == job || (j in jobs && j.id != job.id) {
      StoredMember(jobs, job, i, after, j);
    }
  }

  lemma StoredMember(jobs: seq<Job>, job: Job, i: nat, after: seq<Job>, j: Job)
    requires DistinctIds(jobs) && i <= |jobs| && (forall k | 0 <= k < i :: jobs[k].id != job.id)
    requires after == if i < |jobs| then jobs[i := job] else jobs + [job]
    requires i < |jobs| ==> jobs[i].id == job.id
    ensures j in after <==> j == job || (j in jobs && j.id != job.id)
  {
    assert i < |jobs| ==> after[i] == job;
    if j in jobs && j.id != job.id {
      var k :| 0 <= k < |jobs| && jobs[k] == j;
      assert after[k] == j;
    }
  }

  /** A listing keeps in the table exactly the jobs updated within the last hour. */
  lemma KeptForAnHour(jobs: seq<Job>, now: real)
    ensures forall j :: j in Live(jobs, now) <==> j in jobs && now <= j.updated + 3600.0
  {
    FilterMembers(jobs, KeptAt(now));
    forall j ensures KeptAt(now)(j) <==> now <= j.updated + 3600.0 {
    }
  }

  lemma {:induction false} InsertDistinct(x: Job, jobs: seq<Job>, le: (Job, Job) -> bool)
    requires DistinctIds(jobs) && forall j | j in jobs :: j.id != x.id
    ensures DistinctIds(Insert(x, jobs, le))
  {
    if jobs != [] && !le(x, jobs[0]) {
      InsertDistinct(x, jobs[1..], le);
      InsertPermutes(x, jobs[1..], le);
      var rest := Insert(x, jobs[1..], le);
      forall j | j in rest ensures j.id != jobs[0].id {
        assert j in multiset(rest);
      }
    }
  }

  lemma {:induction false} SortDistinct(jobs: seq<Job>, le: (Job, Job) -> bool)
    requires DistinctIds(jobs)
    ensures DistinctIds(Sort(jobs, le))
  {
    if jobs != [] {
      SortDistinct(jobs[1..], le);
      SortMembers(jobs[1..], le);
      InsertDistinct(jobs[0], Sort(jobs[1..], le), le);
    }
  }

  /** No kept job outside the listing is newer than one inside it; and the listing is the whole
      table whenever the table is no longer than the limit. */
  lemma ListingIsNewest(jobs: seq<Job>, now: real, limit: nat, inside: Job, outside: Job)
    requires inside in Listing(jobs, now, limit)
    requires outside in jobs && now - outside.updated <= TTL && outside !in Listing(jobs, now, limit)
    ensures inside in jobs && now - inside.updated <= TTL
    ensures inside.created >= outside.created
    ensures |Listing(jobs, now, limit)| == limit
  {
    var live := Live(jobs, now);
    FilterMembers(jobs, KeptAt(now));
    SortMembers(live, Newer);
    SortSorted(live, Newer);
    var sorted := Sort(live, Newer);
    assert outside in sorted;
    var i :| 0 <= i < limit && i < |sorted| && sorted[i] == inside;
    var k :| 0 <= k < |sorted| && sorted[k] == outside;
    assert k >= limit;
    assert Newer(sorted[i], sorted[k]);
  }

  /** The listing is newest first, holds each kept job at most once, and is as long as the limit
      allows. */
  lemma ListingShape(jobs: seq<Job>, now: real, limit: nat)
    requires DistinctIds(jobs)
    ensures SortedBy(Newer, Listing(jobs, now, limit)) && DistinctIds(Listing(jobs, now, limit))
    ensures |Listing(jobs, now, limit)| == if limit <= |Live(jobs, now)| then limit else |Live(jobs, now)|
  {
    var live := Live(jobs, now);
    LiveDistinct(jobs, now);
    SortDistinct(live, Newer);
    SortSorted(live, Newer);
    SortPermutes(live, Newer);
  }

  /** How many of the kept jobs are strictly newer than `job`. */
  function NewerThan(job: Job, jobs: seq<Job>, now: real): nat {
    if jobs == [] then 0
    else (if Kept(jobs[0], now) && !Newer(job, jobs[0]) then 1 else 0) + NewerThan(job, jobs[1..], now)
  }

  /** How many kept jobs the listing puts ahead of the job at `p`: the newer ones, and those of the same time
      that entered the table before it. */
  function Ahead(jobs: seq<Job>, p: nat, now: real): nat
    requires p < |jobs|
  {
    if p == 0 then NewerThan(jobs[0], jobs[1..], now)
    else (if Kept(jobs[0], now) && Newer(jobs[0], jobs[p]) then 1 else 0) + Ahead(jobs[1..], p - 1, now)
  }

  /** Where insertion puts `x`: behind those strictly newer. */
  function InsertAt(x: Job, sorted: seq<Job>): (k: nat)
    ensures k <= |sorted|
  {
    if sorted == [] || Newer(x, sorted[0]) then 0 else 1 + InsertAt(x, sorted[1..])
  }

  lemma {:induction false} InsertSplits(x: Job, sorted: seq<Job>)
    ensures var k := InsertAt(x, sorted); Insert(x, sorted, Newer) == sorted[..k] + [x] + sorted[k..]
  {
    if sorted != [] && !Newer(x, sorted[0]) {
      InsertSplits(x, sorted[1..]);
      var k := InsertAt(x, sorted[1..]);
      assert sorted[..k + 1] == [sorted[0]] + sorted[1..][..k];
    }
  }

  lemma {:induction false} InsertAtIsFirst(x: Job, sorted: seq<Job>, r: nat)
    requires SortedBy(Newer, sorted) && r < |sorted|
    ensures InsertAt(x, sorted) <= r <==> Newer(x, sorted[r])
  {
    if Newer(x, sorted[0]) {
      assert r > 0 ==> Newer(sorted[0], sorted[r]);
    } else if r > 0 {
      InsertAtIsFirst(x, sorted[1..], r - 1);
    }
  }

  /** The jobs that are strictly newer than `x` in any sequence, all of them kept. */
  function CountNewer(x: Job, jobs: seq<Job>): nat {
    if jobs == [] then 0 else (if Newer(x, jobs[0]) then 0 else 1) + CountNewer(x, jobs[1..])
  }

  lemma {:induction false} CountInsert(x: Job, y: Job, jobs: seq<Job>)
    ensures CountNewer(x, Insert(y, jobs, Newer)) == (if Newer(x, y) then 0 else 1) + CountNewer(x, jobs)
  {
    if jobs == [] || Newer(y, jobs[0]) {
      assert ([y] + jobs)[1..] == jobs;
    } else {
      CountInsert(x, y, jobs[1..]);
      var rest := Insert(y, jobs[1..], Newer);
      assert ([jobs[0]] + rest)[1..] == rest;
    }
  }

  lemma {:induction false} CountSort(x: Job, jobs: seq<Job>)
    ensures CountNewer(x, Sort(jobs, Newer)) == CountNewer(x, jobs)
  {
    if jobs != [] {
      CountSort(x, jobs[1..]);
      CountInsert(x, jobs[0], Sort(jobs[1..], Newer));
    }
  }

  lemma {:induction false} CountLive(x: Job, jobs: seq<Job>, now: real)
    ensures CountNewer(x, Live(jobs, now)) == NewerThan(x, jobs, now)
  {
    if jobs != [] {
      CountLive(x, jobs[1..], now);
      LiveCons(jobs, now);
      if Kept(jobs[0], now) {
        assert ([jobs[0]] + Live(jobs[1..], now))[1..] == Live(jobs[1..], now);
      }
    }
  }

  lemma LiveCons(jobs: seq<Job>, now: real)
    requires jobs != []
    ensures Live(jobs, now) == (if Kept(jobs[0], now) then [jobs[0]] else []) + Live(jobs[1..], now)
  {
  }

  lemma {:induction false} InsertAtCounts(x: Job, sorted: seq<Job>)
    requires SortedBy(Newer, sorted)
    ensures InsertAt(x, sorted) == CountNewer(x, sorted)
  {
    if sorted != [] {
      InsertAtCounts(x, sorted[1..]);
      if Newer(x, sorted[0]) {
        NoneNewer(x, sorted);
      }
    }
  }

  lemma {:induction false} NoneNewer(x: Job, sorted: seq<Job>)
    requires SortedBy(Newer, sorted) && (sorted != [] ==> Newer(x, sorted[0]))
    ensures CountNewer(x, sorted) == 0
  {
    if sorted != [] {
      assert |sorted| > 1 ==> Newer(sorted[0], sorted[1]);
      NoneNewer(x, sorted[1..]);
    }
  }

  /** The kept jobs, newest first. */
  function AllListed(jobs: seq<Job>, now: real): seq<Job> {
    Sort(Live(jobs, now), Newer)
  }

  lemma AllListedStep(jobs: seq<Job>, now: real)
    requires jobs != []
    ensures SortedBy(Newer, AllListed(jobs[1..], now))
    ensures AllListed(jobs, now) ==
      if Kept(jobs[0], now) then Insert(jobs[0], AllListed(jobs[1..], now), Newer) else AllListed(jobs[1..], now)
  {
    SortSorted(Live(jobs[1..], now), Newer);
    LiveCons(jobs, now);
    if Kept(jobs[0], now) {
      assert ([jobs[0]] + Live(jobs[1..], now))[1..] == Live(jobs[1..], now);
    }
  }

  /** A kept job stands in the whole listing just behind the jobs counted ahead of it. */
  lemma {:induction false} ListedAt(jobs: seq<Job>, p: nat, now: real)
    requires p < |jobs| && Kept(jobs[p], now)
    ensures Ahead(jobs, p, now) < |AllListed(jobs, now)| && AllListed(jobs, now)[Ahead(jobs, p, now)] == jobs[p]
  {
    var x, rest := jobs[0], AllListed(jobs[1..], now);
    AllListedStep(jobs, now);
    InsertSplits(x, rest);
    if p == 0 {
      InsertAtCounts(x, rest);
      CountSort(x, Live(jobs[1..], now));
      CountLive(x, jobs[1..], now);
    } else {
      ListedAt(jobs[1..], p - 1, now);
      InsertAtIsFirst(x, rest, Ahead(jobs[1..], p - 1, now));
    }
  }

  /** A job is listed if and only if it is not stale and fewer than `limit` kept jobs are ahead of it. */
  lemma ListedIff(jobs: seq<Job>, p: nat, now: real, limit: nat)
    requires p < |jobs| && DistinctIds(jobs)
    ensures jobs[p] in Listing(jobs, now, limit) <==> Kept(jobs[p], now) && Ahead(jobs, p, now) < limit
  {
    var all := AllListed(jobs, now);
    LiveDistinct(jobs, now);
    SortDistinct(Live(jobs, now), Newer);
    SortMembers(Live(jobs, now), Newer);
    FilterMembers(jobs, KeptAt(now));
    if Kept(jobs[p], now) {
      ListedAt(jobs, p, now);
      var k := Ahead(jobs, p, now);
      assert forall i | 0 <= i < |all| && i != k :: all[i] != jobs[p];
    }
  }
}
