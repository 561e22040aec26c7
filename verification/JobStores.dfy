/** The in-memory and the Redis job store, and their agreement over whole runs. */
module JobStores {
  import opened Options
  import opened Numerals
  import opened JobCodec

  type Jobs = map<string, TtsJob>

  type Hashes = map<string, Hash>

  datatype Op =
    | Create(job: TtsJob)
    | Get(id: string)
    | Update(id: string, changes: seq<Change>, now: int)

  // ----- specification -----------------------------------------------------------------------------------

  function Touched(job: TtsJob, changes: seq<Change>, now: int): TtsJob {
    SetFields(job, changes).(updatedAt := now)
  }

  /** The in-memory store's answer to an operation, and its jobs afterwards. */
  function MemoryStep(jobs: Jobs, op: Op): (Option<TtsJob>, Jobs) {
    match op
    case Create(job) => (Some(job), jobs[job.id := job])
    case Get(id) => (if id in jobs then Some(jobs[id]) else None, jobs)
    case Update(id, changes, now) =>
      if id !in jobs then (None, jobs)
      else (Some(Touched(jobs[id], changes, now)), jobs[id := Touched(jobs[id], changes, now)])
  }

  /** `HGETALL`: a missing hash reads as an empty one. */
  function Fetch(hashes: Hashes, id: string): Hash {
    if id in hashes then hashes[id] else map[]
  }

  /** The Redis store's answer; `HSET` adds to a hash that is already there. */
  function RedisStep(hashes: Hashes, op: Op): (Option<TtsJob>, Hashes) {
    match op
    case Create(job) => (Some(job), hashes[job.id := Fetch(hashes, job.id) + Encode(job)])
    case Get(id) => (Decode(Fetch(hashes, id)), hashes)
    case Update(id, changes, _) =>
      if id !in hashes then (None, hashes)
      else (Decode(WriteFields(hashes[id], changes)), hashes[id := WriteFields(hashes[id], changes)])
  }

  // ----- the stores ----------------------------------------------------------------------------------------

  class MemoryJobStore {
    var jobs: Jobs

    constructor ()
      ensures jobs == map[]
    {
      jobs := map[];
    }

    method CreateJob(job: TtsJob) returns (created: TtsJob)
      modifies this
      ensures (Some(created), jobs) == MemoryStep(old(jobs), Create(job))
    {
      jobs := jobs[job.id := job];
      return job;
    }

    method GetJob(id: string) returns (found: Option<TtsJob>)
      ensures (found, jobs) == MemoryStep(jobs, Get(id))
    {
      found := if id in jobs then Some(jobs[id]) else None;
    }

    method UpdateJob(id: string, changes: seq<Change>, now: int) returns (updated: Option<TtsJob>)
      modifies this
      ensures (updated, jobs) == MemoryStep(old(jobs), Update(id, changes, now))
    {
      if id !in jobs {
        return None;
      }
      var job, todo := jobs[id], changes;
      while todo != []
        invariant SetFields(job, todo) == SetFields(jobs[id], changes)
        decreases |todo|
      {
        job, todo := SetField(job, todo[0]), todo[1..];
      }
      job := job.(updatedAt := now);
      jobs := jobs[id := job];
      return Some(job);
    }
  }

  class RedisJobStore {
    var hashes: Hashes

    constructor ()
      ensures hashes == map[]
    {
      hashes := map[];
    }

    method CreateJob(job: TtsJob) returns (created: TtsJob)
      modifies this
      ensures (Some(created), hashes) == RedisStep(old(hashes), Create(job))
    {
      hashes := hashes[job.id := Fetch(hashes, job.id) + Encode(job)];
      return job;
    }

    method GetJob(id: string) returns (found: Option<TtsJob>)
      ensures (found, hashes) == RedisStep(hashes, Get(id))
    {
      found := Decode(Fetch(hashes, id));
    }

    method UpdateJob(id: string, changes: seq<Change>, now: int) returns (updated: Option<TtsJob>)
      modifies this
      ensures (updated, hashes) == RedisStep(old(hashes), Update(id, changes, now))
    {
      if id !in hashes {
        return None;
      }
      var raw, todo := hashes[id], changes;
      while todo != []
        invariant WriteFields(raw, todo) == WriteFields(hashes[id], changes)
        decreases |todo|
      {
        raw, todo := raw[todo[0].key := ValueText(todo[0], PYTHON)], todo[1..];
      }
      hashes := hashes[id := raw];
      updated := GetJob(id);
    }
  }

  // ----- agreement -------------------------------------------------------------------------------------------

  /** A job as callers of either store may rely on it: normalised, and without the time of the last
      update, which only the in-memory store refreshes. */
  function Shown(job: TtsJob): TtsJob {
    Norm(job).(updatedAt := 0)
  }

  function ShownAnswer(answer: Option<TtsJob>): Option<TtsJob> {
    match answer case None => None case Some(job) => Some(Shown(job))
  }

  /** The hash decodes to the job. */
  predicate Mirrors(raw: Hash, job: TtsJob) {
    ShownAnswer(Decode(raw)) == Some(Shown(job))
  }

  ghost predicate AgreeBy(hashes: Hashes, jobs: Jobs, same: (Hash, TtsJob) -> bool) {
    && hashes.Keys == jobs.Keys
    && forall id | id in jobs :: same(hashes[id], jobs[id])
  }

  ghost predicate Agree(hashes: Hashes, jobs: Jobs) {
    AgreeBy(hashes, jobs, Mirrors)
  }

  /** What callers do: every job has an id, and every update names some fields, well typed. */
  ghost predicate Proper(op: Op) {
    match op
    case Create(job) => job.id != ""
    case Get(_) => true
    case Update(_, changes, _) => changes != [] && forall c | c in changes :: WellTyped(c)
  }

  lemma EncodeOverwrites(raw: Hash, job: TtsJob)
    ensures raw + Encode(job) == Encode(job)
  {
    assert forall key: Key :: key in Encode(job);
  }

  lemma EncodeMirrors(raw: Hash, job: TtsJob)
    requires job.id != ""
    ensures Mirrors(raw + Encode(job), job)
  {
    EncodeOverwrites(raw, job);
    DecodeEncode(job);
    assert Norm(Norm(job)) == Norm(job);
  }

  lemma ShownFields(a: TtsJob, b: TtsJob)
    requires forall key | key != UpdatedAt :: GetField(a, key) == GetField(b, key)
    ensures a.(updatedAt := 0) == b.(updatedAt := 0)
  {
    forall key ensures GetField(a.(updatedAt := 0), key) == GetField(b.(updatedAt := 0), key) {
      ForgetsUpdate(a, key);
      ForgetsUpdate(b, key);
    }
    SameFields(a.(updatedAt := 0), b.(updatedAt := 0));
  }

  lemma ForgetsUpdate(job: TtsJob, key: Key)
    ensures GetField(job.(updatedAt := 0), key) == if key == UpdatedAt then Number(0) else GetField(job, key)
  {
  }

  /** Jobs that look alike still look alike after the same change. */
  lemma ChangeAlike(a: TtsJob, b: TtsJob, c: Change)
    requires Shown(a) == Shown(b) && WellTyped(c)
    ensures Shown(SetField(a, c)) == Shown(SetField(b, c))
  {
    forall key | key != UpdatedAt
      ensures GetField(Norm(SetField(a, c)), key) == GetField(Norm(SetField(b, c)), key)
    {
      ChangeAlikeAt(a, b, c, key);
    }
    ShownFields(Norm(SetField(a, c)), Norm(SetField(b, c)));
  }

  lemma ChangeAlikeAt(a: TtsJob, b: TtsJob, c: Change, key: Key)
    requires Shown(a) == Shown(b) && WellTyped(c) && key != UpdatedAt
    ensures GetField(Norm(SetField(a, c)), key) == GetField(Norm(SetField(b, c)), key)
  {
    NormsField(SetField(a, c), key);
    NormsField(SetField(b, c), key);
    if key == c.key {
      SetsField(a, c);
      SetsField(b, c);
    } else {
      KeepsField(a, c, key);
      KeepsField(b, c, key);
      NormsField(a, key);
      NormsField(b, key);
      ForgetsUpdate(Norm(a), key);
      ForgetsUpdate(Norm(b), key);
    }
  }

  lemma {:induction false} ChangesAlike(a: TtsJob, b: TtsJob, changes: seq<Change>)
    requires Shown(a) == Shown(b) && forall c | c in changes :: WellTyped(c)
    ensures Shown(SetFields(a, changes)) == Shown(SetFields(b, changes))
    decreases changes
  {
    if changes != [] {
      ChangeAlike(a, b, changes[0]);
      ChangesAlike(SetField(a, changes[0]), SetField(b, changes[0]), changes[1..]);
    }
  }

  lemma TouchedShown(job: TtsJob, now: int)
    ensures Shown(job.(updatedAt := now)) == Shown(job)
  {
  }

  lemma UpdateMirrors(raw: Hash, job: TtsJob, changes: seq<Change>, now: int)
    requires Mirrors(raw, job) && forall c | c in changes :: WellTyped(c)
    ensures Mirrors(WriteFields(raw, changes), Touched(job, changes, now))
  {
    var decoded := Decode(raw).value;
    UpdatesCommute(raw, changes);
    ChangesAlike(decoded, job, changes);
    TouchedShown(SetFields(job, changes), now);
    ShownOfNorm(Decode(WriteFields(raw, changes)).value, SetFields(decoded, changes));
  }

  lemma ShownOfNorm(a: TtsJob, b: TtsJob)
    requires Norm(a) == Norm(b)
    ensures Shown(a) == Shown(b)
  {
  }

  lemma AgreeAfterWrite(hashes: Hashes, jobs: Jobs, id: string, raw: Hash, job: TtsJob, same: (Hash, TtsJob) -> bool)
    requires AgreeBy(hashes, jobs, same) && same(raw, job)
    ensures AgreeBy(hashes[id := raw], jobs[id := job], same)
  {
  }

  lemma CreatesAgree(hashes: Hashes, jobs: Jobs, job: TtsJob)
    requires Agree(hashes, jobs) && job.id != ""
    ensures Agree(RedisStep(hashes, Create(job)).1, MemoryStep(jobs, Create(job)).1)
  {
    EncodeMirrors(Fetch(hashes, job.id), job);
    AgreeAfterWrite(hashes, jobs, job.id, Fetch(hashes, job.id) + Encode(job), job, Mirrors);
  }

  lemma GetsAgree(hashes: Hashes, jobs: Jobs, id: string)
    requires Agree(hashes, jobs)
    ensures ShownAnswer(RedisStep(hashes, Get(id)).0) == ShownAnswer(MemoryStep(jobs, Get(id)).0)
  {
    if id in jobs {
      assert Mirrors(hashes[id], jobs[id]);
    } else {
      EmptyHashIsMissing();
    }
  }

  lemma EmptyHashIsMissing()
    ensures Decode(map[]) == None
  {
  }

  lemma UpdatesAgree(hashes: Hashes, jobs: Jobs, id: string, changes: seq<Change>, now: int)
    requires Agree(hashes, jobs) && forall c | c in changes :: WellTyped(c)
    ensures var op := Update(id, changes, now);
      && ShownAnswer(RedisStep(hashes, op).0) == ShownAnswer(MemoryStep(jobs, op).0)
      && Agree(RedisStep(hashes, op).1, MemoryStep(jobs, op).1)
  {
    if id in jobs {
      UpdateMirrors(hashes[id], jobs[id], changes, now);
      AgreeAfterWrite(hashes, jobs, id, WriteFields(hashes[id], changes), Touched(jobs[id], changes, now), Mirrors);
    }
  }

  /** One operation answers alike on both stores, and leaves them in agreement. */
  lemma StepsAgree(hashes: Hashes, jobs: Jobs, op: Op)
    requires Agree(hashes, jobs) && Proper(op)
    ensures ShownAnswer(RedisStep(hashes, op).0) == ShownAnswer(MemoryStep(jobs, op).0)
    ensures Agree(RedisStep(hashes, op).1, MemoryStep(jobs, op).1)
  {
    match op
    case Create(job) => CreatesAgree(hashes, jobs, job);
    case Get(id) => GetsAgree(hashes, jobs, id);
    case Update(id, changes, now) => UpdatesAgree(hashes, jobs, id, changes, now);
  }

  // ----- whole runs ------------------------------------------------------------------------------------------

  function JobsAt(ops: seq<Op>, n: nat): Jobs
    requires n <= |ops|
  {
    if n == 0 then map[] else MemoryStep(JobsAt(ops, n - 1), ops[n - 1]).1
  }

  function HashesAt(ops: seq<Op>, n: nat): Hashes
    requires n <= |ops|
  {
    if n == 0 then map[] else RedisStep(HashesAt(ops, n - 1), ops[n - 1]).1
  }

  lemma {:induction false} StoresAgree(ops: seq<Op>, n: nat)
    requires n <= |ops| && forall op | op in ops :: Proper(op)
    ensures Agree(HashesAt(ops, n), JobsAt(ops, n))
  {
    if n > 0 {
      StoresAgree(ops, n - 1);
      StepsAgree(HashesAt(ops, n - 1), JobsAt(ops, n - 1), ops[n - 1]);
    }
  }

  /** Over any run of creates, updates and gets the two stores answer alike, apart from the time of
      the last update. */
  lemma StoresAnswerAlike(ops: seq<Op>, n: nat)
    requires n < |ops| && forall op | op in ops :: Proper(op)
    ensures ShownAnswer(RedisStep(HashesAt(ops, n), ops[n]).0) == ShownAnswer(MemoryStep(JobsAt(ops, n), ops[n]).0)
  {
    StoresAgree(ops, n);
    StepsAgree(HashesAt(ops, n), JobsAt(ops, n), ops[n]);
  }

  lemma KeepsUpdatedAt(raw: Hash, c: Change)
    requires WellTyped(c) && Decode(raw).Some?
    ensures Decode(raw[c.key := ValueText(c, PYTHON)]).Some?
    ensures Decode(raw[c.key := ValueText(c, PYTHON)]).value.updatedAt == Decode(raw).value.updatedAt
  {
    var job := Decode(raw).value;
    UpdateCommutes(raw, c);
    KeepsField(job, c, UpdatedAt);
    NormsField(SetField(job, c), UpdatedAt);
  }

  /** The time of the last update is where they part: no update moves it in the Redis store, and
      every update sets it in memory. */
  lemma {:induction false} RedisKeepsUpdatedAt(raw: Hash, job: TtsJob, changes: seq<Change>, now: int)
    requires Decode(raw).Some? && forall c | c in changes :: WellTyped(c)
    ensures Decode(WriteFields(raw, changes)).Some?
    ensures Decode(WriteFields(raw, changes)).value.updatedAt == Decode(raw).value.updatedAt
    ensures Touched(job, changes, now).updatedAt == now
    decreases changes
  {
    if changes != [] {
      KeepsUpdatedAt(raw, changes[0]);
      RedisKeepsUpdatedAt(raw[changes[0].key := ValueText(changes[0], PYTHON)], job, changes[1..], now);
    }
  }
}
