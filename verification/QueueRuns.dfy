/** Both work queues over whole runs: what they serve, and in which order. */
module QueueRuns {
  import opened ScoreQueue

  datatype Op = Enqueue(id: string, priority: int) | Dequeue

  function Arrivals(ops: seq<Op>, n: nat): nat
    requires n <= |ops|
  {
    if n == 0 then 0 else Arrivals(ops, n - 1) + (if ops[n - 1].Enqueue? then 1 else 0)
  }

  // ----- the specification: a plain list in arrival order --------------------------------------------

  function Waiting(ops: seq<Op>, n: nat): seq<Item>
    requires n <= |ops|
  {
    if n == 0 then [] else WaitingStep(Waiting(ops, n - 1), ops[n - 1], Arrivals(ops, n))
  }

  function WaitingStep(waiting: seq<Item>, op: Op, arrival: nat): seq<Item> {
    match op
    case Enqueue(id, priority) => waiting + [Item(id, priority, arrival)]
    case Dequeue => if waiting == [] then [] else Without(waiting, Best(waiting))
  }

  /** Highest priority first, first come first served among equals. */
  function Serves(waiting: seq<Item>): Answer {
    if waiting == [] then Empty else Next(waiting[Best(waiting)].id)
  }

  // ----- runs of the two stores ------------------------------------------------------------------------

  /** The in-memory queue's contract, operation by operation. */
  ghost predicate MemoryMoves(op: Op, before: seq<Item>, after: seq<Item>, answer: Answer, arrival: nat) {
    match op
    case Enqueue(id, priority) => after == before + [Item(id, priority, arrival)]
    case Dequeue =>
      if before == [] then answer == Empty && after == []
      else answer.Next? && exists i :: Leaves(before, after, answer.id, i)
  }

  /** Redis: ZADD, and ZPOPMAX. */
  ghost predicate RedisMoves(op: Op, before: map<string, int>, after: map<string, int>, answer: Answer, arrival: nat) {
    match op
    case Enqueue(id, priority) => after == before[id := Score(priority, arrival)]
    case Dequeue =>
      if before == map[] then answer == Empty && after == map[]
      else answer.Next? && PopsMax(before, answer.id) && after == before - {answer.id}
  }

  ghost predicate MemoryRun(ops: seq<Op>, pendings: seq<seq<Item>>, answers: seq<Answer>) {
    && |pendings| == |ops| + 1 && |answers| == |ops| && pendings[0] == []
    && forall n: nat | n < |ops| :: MemoryMoves(ops[n], pendings[n], pendings[n + 1], answers[n], Arrivals(ops, n + 1))
  }

  ghost predicate RedisRun(ops: seq<Op>, zsets: seq<map<string, int>>, answers: seq<Answer>) {
    && |zsets| == |ops| + 1 && |answers| == |ops| && zsets[0] == map[]
    && forall n: nat | n < |ops| :: RedisMoves(ops[n], zsets[n], zsets[n + 1], answers[n], Arrivals(ops, n + 1))
  }

  /** No id is enqueued twice. */
  ghost predicate EnqueuedOnce(ops: seq<Op>) {
    forall i, j | 0 <= i < j < |ops| && ops[i].Enqueue? && ops[j].Enqueue? :: ops[i].id != ops[j].id
  }

  lemma {:induction false} WaitingIsNumbered(ops: seq<Op>, n: nat)
    requires n <= |ops|
    ensures Numbered(Waiting(ops, n), Arrivals(ops, n))
  {
    if n > 0 {
      WaitingIsNumbered(ops, n - 1);
      var waiting := Waiting(ops, n - 1);
      if ops[n - 1].Dequeue? && waiting != [] {
        WithoutNumbered(waiting, Arrivals(ops, n - 1), Best(waiting));
      }
    }
  }

  /** Every waiting job was enqueued before, and no two share an id. */
  ghost predicate CameFrom(waiting: seq<Item>, ops: seq<Op>, n: nat)
    requires n <= |ops|
  {
    && DistinctItems(waiting)
    && forall item | item in waiting :: exists i :: 0 <= i < n && ops[i] == Enqueue(item.id, item.priority)
  }

  lemma {:induction false} WaitingCameFrom(ops: seq<Op>, n: nat)
    requires n <= |ops| && EnqueuedOnce(ops)
    ensures CameFrom(Waiting(ops, n), ops, n)
  {
    if n > 0 {
      var waiting := Waiting(ops, n - 1);
      WaitingCameFrom(ops, n - 1);
      if ops[n - 1].Enqueue? {
        assert ops[n - 1] == Enqueue(ops[n - 1].id, ops[n - 1].priority);
      } else if waiting != [] {
        WithoutKeepsOthers(waiting, Best(waiting));
      }
    }
  }

  lemma {:induction false} FewerThan(ops: seq<Op>, n: nat)
    requires n <= |ops|
    ensures Arrivals(ops, n) <= Arrivals(ops, |ops|)
    decreases |ops| - n
  {
    if n < |ops| {
      FewerThan(ops, n + 1);
    }
  }

  lemma MemoryStep(op: Op, before: seq<Item>, after: seq<Item>, answer: Answer, arrival: nat)
    requires MemoryMoves(op, before, after, answer, arrival) && Windowed(before)
    ensures after == WaitingStep(before, op, arrival)
    ensures op.Dequeue? ==> answer == Serves(before)
  {
  }

  lemma {:induction false} MemoryWaits(ops: seq<Op>, pendings: seq<seq<Item>>, answers: seq<Answer>, n: nat)
    requires MemoryRun(ops, pendings, answers) && n <= |ops| && Arrivals(ops, |ops|) <= SCALE
    ensures pendings[n] == Waiting(ops, n) && Windowed(pendings[n])
  {
    if n > 0 {
      MemoryWaits(ops, pendings, answers, n - 1);
      MemoryStep(ops[n - 1], pendings[n - 1], pendings[n], answers[n - 1], Arrivals(ops, n));
    }
    WaitingIsNumbered(ops, n);
    FewerThan(ops, n);
    FewArrivalsAreWindowed(Waiting(ops, n), Arrivals(ops, n));
  }

  lemma RedisStep(op: Op, before: map<string, int>, after: map<string, int>, answer: Answer, arrival: nat,
        waiting: seq<Item>, last: nat)
    requires RedisMoves(op, before, after, answer, arrival) && Mirrors(before, waiting)
    requires Windowed(waiting) && Numbered(waiting, last) && DistinctItems(waiting)
    requires op.Enqueue? ==> forall other | other in waiting :: other.id != op.id
    ensures Mirrors(after, WaitingStep(waiting, op, arrival))
    ensures op.Dequeue? ==> answer == Serves(waiting)
  {
    match op
    case Enqueue(id, priority) => SortedSetAdds(before, waiting, Item(id, priority, arrival));
    case Dequeue =>
      if waiting == [] {
        assert before == map[];
      } else {
        assert Scored(before, waiting[0]);
        SortedSetPopsBest(before, waiting, last, answer.id);
        SortedSetForgets(before, waiting, Best(waiting));
      }
  }

  lemma NewToTheQueue(ops: seq<Op>, n: nat)
    requires n < |ops| && EnqueuedOnce(ops) && ops[n].Enqueue? && CameFrom(Waiting(ops, n), ops, n)
    ensures forall other | other in Waiting(ops, n) :: other.id != ops[n].id
  {
    forall other | other in Waiting(ops, n) ensures other.id != ops[n].id {
      var i :| 0 <= i < n && ops[i] == Enqueue(other.id, other.priority);
    }
  }

  lemma RedisAt(ops: seq<Op>, zsets: seq<map<string, int>>, answers: seq<Answer>, n: nat)
    requires RedisRun(ops, zsets, answers) && n < |ops| && EnqueuedOnce(ops) && Arrivals(ops, |ops|) <= SCALE
    requires Mirrors(zsets[n], Waiting(ops, n))
    ensures Mirrors(zsets[n + 1], Waiting(ops, n + 1))
    ensures ops[n].Dequeue? ==> answers[n] == Serves(Waiting(ops, n))
  {
    WaitingIsNumbered(ops, n);
    WaitingCameFrom(ops, n);
    FewerThan(ops, n);
    FewArrivalsAreWindowed(Waiting(ops, n), Arrivals(ops, n));
    if ops[n].Enqueue? {
      NewToTheQueue(ops, n);
    }
    RedisStep(ops[n], zsets[n], zsets[n + 1], answers[n], Arrivals(ops, n + 1), Waiting(ops, n), Arrivals(ops, n));
  }

  lemma {:induction false} Stepwise(holds: nat -> bool, n: nat)
    requires holds(0) && forall k: nat | k < n && holds(k) :: holds(k + 1)
    ensures holds(n)
  {
    if n > 0 {
      Stepwise(holds, n - 1);
    }
  }

  lemma RedisMirrors(ops: seq<Op>, zsets: seq<map<string, int>>, answers: seq<Answer>, n: nat)
    requires RedisRun(ops, zsets, answers) && n <= |ops| && EnqueuedOnce(ops) && Arrivals(ops, |ops|) <= SCALE
    ensures Mirrors(zsets[n], Waiting(ops, n))
  {
    ghost var holds := (k: nat) => k <= |ops| && Mirrors(zsets[k], Waiting(ops, k));
    forall k: nat | k < n && holds(k) ensures holds(k + 1) {
      RedisAt(ops, zsets, answers, k);
    }
    Stepwise(holds, n);
  }

  /** Over every run of at most `SCALE` arrivals, each id enqueued once, both stores serve the same
      jobs in the same order: the highest priority first, the oldest first among equals. */
  lemma BothServeInOrder(ops: seq<Op>, pendings: seq<seq<Item>>, memory: seq<Answer>, zsets: seq<map<string, int>>,
        redis: seq<Answer>, n: nat)
    requires MemoryRun(ops, pendings, memory) && RedisRun(ops, zsets, redis) && n < |ops| && ops[n].Dequeue?
    requires EnqueuedOnce(ops) && Arrivals(ops, |ops|) <= SCALE
    ensures memory[n] == redis[n] == Serves(Waiting(ops, n))
  {
    MemoryWaits(ops, pendings, memory, n);
    MemoryStep(ops[n], pendings[n], pendings[n + 1], memory[n], Arrivals(ops, n + 1));
    RedisMirrors(ops, zsets, redis, n);
    RedisAt(ops, zsets, redis, n);
  }
}
