/** What either job store says about a job: for each field, the value it was last given. */
module StoreHistory {
  import opened Options
  import Numerals
  import opened JobCodec
  import opened JobStores

  /** The value that the last of these changes gives to the field, if any names it. */
  function LastNamed(changes: seq<Change>, key: Key): Option<Value>
    decreases changes
  {
    if changes == [] then None
    else if LastNamed(changes[1..], key).Some? then LastNamed(changes[1..], key)
    else if changes[0].key == key then Some(changes[0].value)
    else None
  }

  /** The value that an operation gives to a field of the job in memory, if it gives any; every update gives
      one to the time of the last update. */
  function Gives(op: Op, id: string, key: Key): Option<Value> {
    match op
    case Create(job) => if job.id == id then Some(GetField(job, key)) else None
    case Get(_) => None
    case Update(other, changes, now) =>
      if other != id then None
      else if key == UpdatedAt then Some(Number(now))
      else LastNamed(changes, key)
  }

  function Or(given: Option<Value>, was: Value): Value {
    match given case Some(v) => v case None => was
  }

  predicate Creates(op: Op, id: string) {
    op.Create? && op.job.id == id
  }

  lemma {:induction false} SetFieldsSets(job: TtsJob, changes: seq<Change>, key: Key)
    requires forall c | c in changes :: WellTyped(c)
    ensures GetField(SetFields(job, changes), key)
      == Or(LastNamed(changes, key), GetField(job, key))
    decreases changes
  {
    if changes != [] {
      SetFieldsSets(SetField(job, changes[0]), changes[1..], key);
      if changes[0].key == key {
        SetsField(job, changes[0]);
      } else {
        KeepsField(job, changes[0], key);
      }
    }
  }

  lemma TouchedField(job: TtsJob, changes: seq<Change>, now: int, key: Key)
    ensures GetField(Touched(job, changes, now), key) ==
      if key == UpdatedAt then Number(now) else GetField(SetFields(job, changes), key)
  {
    StampedField(SetFields(job, changes), now, key);
  }

  lemma StampedField(job: TtsJob, now: int, key: Key)
    ensures GetField(job.(updatedAt := now), key) == if key == UpdatedAt then Number(now) else GetField(job, key)
  {
  }

  /** One operation: the fields it gives a value have that value, and the others stay. */
  lemma StepGives(jobs: Jobs, op: Op, id: string, key: Key)
    requires Proper(op)
    ensures var t := MemoryStep(jobs, op).1;
      && (id in t <==> id in jobs || Creates(op, id))
      && (id in t ==>
            GetField(t[id], key) == Or(Gives(op, id, key), if id in jobs then GetField(jobs[id], key) else Nothing))
  {
    if op.Update? && id in jobs {
      SetFieldsSets(jobs[id], op.changes, key);
      TouchedField(jobs[id], op.changes, op.now, key);
    }
  }

  lemma CreateGives(op: Op, id: string, key: Key)
    requires Creates(op, id)
    ensures Gives(op, id, key).Some?
  {
  }

  /** Operation `k` gave the field this value, and none of those after it, before the `n`-th, gave it one. */
  ghost predicate LastGiven(ops: seq<Op>, n: nat, id: string, key: Key, k: nat, value: Value)
    requires n <= |ops|
  {
    k < n && Gives(ops[k], id, key) == Some(value) && forall j | k < j < n :: Gives(ops[j], id, key) == None
  }

  /** In memory, over any run: a job is there if and only if it was created, and each of its fields has the
      value it was last given. */
  lemma {:induction false} FieldIsLastGiven(ops: seq<Op>, n: nat, id: string, key: Key) returns (k: nat)
    requires n <= |ops| && forall op | op in ops :: Proper(op)
    ensures id in JobsAt(ops, n) <==> exists j :: 0 <= j < n && Creates(ops[j], id)
    ensures id in JobsAt(ops, n) ==> LastGiven(ops, n, id, key, k, GetField(JobsAt(ops, n)[id], key))
  {
    k := 0;
    if n > 0 {
      var last := n - 1;
      k := FieldIsLastGiven(ops, last, id, key);
      StepGives(JobsAt(ops, last), ops[last], id, key);
      if Creates(ops[last], id) {
        CreateGives(ops[last], id, key);
      }
      if Gives(ops[last], id, key).Some? {
        k := last;
      }
    }
  }

  lemma DecodedIsNormal(raw: Hash, job: TtsJob, key: Key)
    requires Mirrors(raw, job) && key != UpdatedAt
    ensures Decode(raw).Some? && GetField(Decode(raw).value, key) == NormValue(KindOf(key), GetField(job, key))
  {
    var decoded := Decode(raw).value;
    ForgetsUpdate(Norm(decoded), key);
    ForgetsUpdate(Norm(job), key);
    NormsField(decoded, key);
    NormsField(job, key);
    ReadsField(Texts(raw), Numerals.PYTHON, key);
    ReadIsNormal(KindOf(key), Texts(raw)(key), Numerals.PYTHON);
  }

  /** The Redis store says the same, up to the normal form, of every field but the time of the last update. */
  lemma RedisFieldIsLastGiven(ops: seq<Op>, n: nat, id: string, key: Key) returns (k: nat, value: Value)
    requires n <= |ops| && (forall op | op in ops :: Proper(op)) && key != UpdatedAt
    ensures Decode(Fetch(HashesAt(ops, n), id)).Some? <==> exists j :: 0 <= j < n && Creates(ops[j], id)
    ensures Decode(Fetch(HashesAt(ops, n), id)).Some? ==>
      && LastGiven(ops, n, id, key, k, value)
      && GetField(Decode(Fetch(HashesAt(ops, n), id)).value, key) == NormValue(KindOf(key), value)
  {
    StoresAgree(ops, n);
    k := FieldIsLastGiven(ops, n, id, key);
    value := Nothing;
    if id in JobsAt(ops, n) {
      value := GetField(JobsAt(ops, n)[id], key);
      assert Mirrors(HashesAt(ops, n)[id], JobsAt(ops, n)[id]);
      DecodedIsNormal(HashesAt(ops, n)[id], JobsAt(ops, n)[id], key);
    } else {
      EmptyHashIsMissing();
    }
  }

  function Subject(op: Op): string {
    match op
    case Create(job) => job.id
    case Get(id) => id
    case Update(id, _, _) => id
  }

  lemma MemoryAnswers(jobs: Jobs, op: Op)
    ensures var t := MemoryStep(jobs, op);
      && t.0 == (if Subject(op) in t.1 then Some(t.1[Subject(op)]) else None)
      && t.1 - {Subject(op)} == jobs - {Subject(op)} && (op.Get? ==> t.1 == jobs)
  {
  }

  lemma RedisLeavesOthers(hashes: Hashes, op: Op)
    ensures var u := RedisStep(hashes, op);
      u.1 - {Subject(op)} == hashes - {Subject(op)} && (op.Get? ==> u.1 == hashes)
  {
  }

  lemma RedisAnswers(hashes: Hashes, op: Op)
    requires !op.Create?
    ensures RedisStep(hashes, op).0 == Decode(Fetch(RedisStep(hashes, op).1, Subject(op)))
  {
    EmptyHashIsMissing();
  }

  lemma RedisCreates(hashes: Hashes, job: TtsJob)
    requires job.id != ""
    ensures var u := RedisStep(hashes, Create(job));
      ShownAnswer(u.0) == ShownAnswer(Decode(Fetch(u.1, job.id)))
  {
    EncodeMirrors(Fetch(hashes, job.id), job);
  }

  /** Every operation answers with the job as the store then has it, if it has one, and leaves all other jobs
      alone; reading changes nothing. */
  lemma AnswerIsStored(jobs: Jobs, hashes: Hashes, op: Op)
    requires Proper(op)
    ensures var t := MemoryStep(jobs, op);
      && t.0 == (if Subject(op) in t.1 then Some(t.1[Subject(op)]) else None)
      && t.1 - {Subject(op)} == jobs - {Subject(op)} && (op.Get? ==> t.1 == jobs)
    ensures var u := RedisStep(hashes, op);
      && ShownAnswer(u.0) == ShownAnswer(Decode(Fetch(u.1, Subject(op))))
      && u.1 - {Subject(op)} == hashes - {Subject(op)} && (op.Get? ==> u.1 == hashes)
  {
    MemoryAnswers(jobs, op);
    RedisLeavesOthers(hashes, op);
    if op.Create? {
      RedisCreates(hashes, op.job);
    } else {
      RedisAnswers(hashes, op);
    }
  }
}
