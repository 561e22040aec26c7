/** The free pool over whole runs: the bound, the pruning, and what the active sets hold. */
module PoolRuns {
  import opened Counting
  import opened JobCore
  import JobRuns
  import opened FreePool

  ghost predicate PoolRun(moves: seq<Move>, states: seq<State>, cfg: Config) {
    && |states| == |moves| + 1 && Start(states[0])
    && forall n: nat | n < |moves| :: MoveAt(moves, states, cfg, n)
  }

  ghost predicate MoveAt(moves: seq<Move>, states: seq<State>, cfg: Config, n: nat)
    requires n < |moves| && |states| == |moves| + 1
  {
    CanMove(states[n], moves[n], cfg) && states[n + 1] == Outcome(states[n], moves[n], cfg)
  }

  lemma {:induction false} RunKeepsPool(moves: seq<Move>, states: seq<State>, cfg: Config, n: nat)
    requires PoolRun(moves, states, cfg) && n <= |moves|
    ensures PoolInv(states[n], cfg)
  {
    if n == 0 {
      StartInv(states[0], cfg);
    } else {
      RunKeepsPool(moves, states, cfg, n - 1);
      assert MoveAt(moves, states, cfg, n - 1);
      MoveKeepsInv(states[n - 1], moves[n - 1], cfg);
    }
  }

  /** Submitters and consumers together, in every interleaving: a submitted job is in exactly one of
      the queue, one consumer's hands and the finished jobs; its synthesis has started at most once;
      and a job marked as processing is in exactly one consumer's hands. */
  lemma SubmittedJobsHaveOnePlace(moves: seq<Move>, states: seq<State>, cfg: Config, n: nat, id: Id)
    requires PoolRun(moves, states, cfg) && n <= |moves|
    ensures AtStage(states[n], id, Submitted) ==> JobRuns.InOnePlace(states[n].core, id)
    ensures states[n].core.starts[id] <= 1
    ensures StatusIs(states[n].core, id, Processing) ==> JobRuns.HeldByOne(states[n].core, id)
  {
    var s := states[n];
    RunKeepsPool(moves, states, cfg, n);
    assert BooksOk(s, id) && JobOk(s.core, id);
    if AtStage(s, id, Submitted) {
      JobRuns.PlacedInOnePlace(s.core, id);
    }
    if StatusIs(s.core, id, Processing) {
      JobRuns.ProcessingIsHeld(s.core, id);
    }
  }

  lemma OutcomeKeepsTerminal(s: State, m: Move, cfg: Config, id: Id)
    requires PoolInv(s, cfg) && CanMove(s, m, cfg) && IsTerminal(s.core, id)
    ensures StatusIs(Outcome(s, m, cfg).core, id, s.core.jobs[id].status)
  {
    match m
    case Store(x) => StepKeepsTerminal(s.core, Create(x, s.subs[x].tier), id);
    case Submit(x) => StepKeepsTerminal(s.core, Enqueue(x), id);
    case Work(e) => StepKeepsTerminal(s.core, e, id);
    case GiveBack(c) => StepKeepsTerminal(s.core, Release(c), id);
    case _ =>
  }

  /** A job that has completed or failed keeps that status through the rest of the run. */
  lemma {:induction false} FinishedForEver(moves: seq<Move>, states: seq<State>, cfg: Config, n: nat, m: nat, id: Id)
    requires PoolRun(moves, states, cfg) && n <= m <= |moves| && IsTerminal(states[n].core, id)
    ensures StatusIs(states[m].core, id, states[n].core.jobs[id].status)
  {
    if n < m {
      FinishedForEver(moves, states, cfg, n, m - 1, id);
      RunKeepsPool(moves, states, cfg, m - 1);
      assert MoveAt(moves, states, cfg, m - 1);
      OutcomeKeepsTerminal(states[m - 1], moves[m - 1], cfg, id);
    }
  }

  // ----- the bound ---------------------------------------------------------------------------------------------

  /** Free jobs admitted and not finished, whether or not they are in the active set yet. */
  function LiveFree(s: State): set<Id> {
    set id | id in s.subs && s.subs[id].tier == Free && s.subs[id].stage in {Admitted, Stored, Active, Submitted}
      && !IsTerminal(s.core, id)
  }

  lemma {:induction false} Latest(s: State, ids: set<Id>) returns (latest: Id)
    requires ids != {} && forall id | id in ids :: id in s.subs
    ensures latest in ids && forall id | id in ids :: s.subs[id].order <= s.subs[latest].order
    decreases ids
  {
    var id :| id in ids;
    if ids == {id} {
      latest := id;
    } else {
      var other := Latest(s, ids - {id});
      latest := if s.subs[id].order <= s.subs[other].order then other else id;
      assert ids == (ids - {id}) + {id};
    }
  }

  lemma LatestSawTheRest(s: State, cfg: Config, latest: Id, id: Id)
    requires PoolInv(s, cfg) && latest in LiveFree(s) && id in LiveFree(s) && id != latest
    requires s.subs[id].order <= s.subs[latest].order
    ensures id in s.subs[latest].overlap || id in s.subs[latest].members - s.subs[latest].finished
  {
    assert Seen(s, id, latest) && CountOk(s, latest, cfg);
  }

  /** The last live submission saw all the others: it counted fewer than the limit, and fewer than
      `overlap` were under way beside it. */
  lemma LiveBound(s: State, cfg: Config)
    requires PoolInv(s, cfg) && LiveFree(s) != {}
    ensures |LiveFree(s)| <= cfg.limit + cfg.overlap - 1
  {
    var live := LiveFree(s);
    var latest := Latest(s, live);
    var sub := s.subs[latest];
    assert CountOk(s, latest, cfg);
    forall id | id in live - {latest} ensures id in sub.overlap + (sub.members - sub.finished) {
      LatestSawTheRest(s, cfg, latest, id);
    }
    UnionBound(live - {latest}, sub.overlap, sub.members - sub.finished);
    assert |sub.members - sub.finished| == |sub.members| - |sub.finished|;
  }

  /** In every interleaving with at most `overlap` free submissions under way at a time, even though
      Redis reads the members and their statuses one by one, no more than `limit + overlap - 1` free
      jobs are ever admitted and unfinished; with no overlap the limit itself holds. */
  lemma FreePoolIsBounded(moves: seq<Move>, states: seq<State>, cfg: Config, n: nat)
    requires PoolRun(moves, states, cfg) && n <= |moves|
    ensures LiveFree(states[n]) != {} ==> |LiveFree(states[n])| <= cfg.limit + cfg.overlap - 1
    ensures cfg.overlap <= 1 && LiveFree(states[n]) != {} ==> |LiveFree(states[n])| <= cfg.limit
  {
    RunKeepsPool(moves, states, cfg, n);
    if LiveFree(states[n]) != {} {
      LiveBound(states[n], cfg);
    }
  }

  // ----- pruning and the active sets ------------------------------------------------------------------------------

  /** Whatever a count prunes is a finished job, in every interleaving. */
  lemma PruningTakesOnlyFinished(moves: seq<Move>, states: seq<State>, cfg: Config, n: nat, id: Id)
    requires PoolRun(moves, states, cfg) && n < |moves| && moves[n] == Decide(id)
    ensures forall m | m in states[n].free && m !in states[n + 1].free :: IsTerminal(states[n].core, m)
    ensures states[n + 1].paid == states[n].paid
  {
    RunKeepsPool(moves, states, cfg, n);
    assert MoveAt(moves, states, cfg, n);
    assert CountOk(states[n], id, cfg) && BooksOk(states[n], id);
  }

  /** An active set holds every unfinished job that was added to it, and nothing that was not added
      or has been released. */
  lemma ActiveSetsAreExact(moves: seq<Move>, states: seq<State>, cfg: Config, n: nat, id: Id, tier: Tier)
    requires PoolRun(moves, states, cfg) && n <= |moves| && tier != Untiered
    ensures var s := states[n];
      && (id in ActiveOf(s, tier) ==>
            Entered(s, id) && s.subs[id].tier == tier && (IsTerminal(s.core, id) ==> Held(s.core, id)))
      && (Entered(s, id) && s.subs[id].tier == tier && !IsTerminal(s.core, id) ==> id in ActiveOf(s, tier))
  {
    RunKeepsPool(moves, states, cfg, n);
    assert BooksOk(states[n], id);
  }

  // ----- the in-memory store ----------------------------------------------------------------------------------------

  /** In memory nothing is pruned: a job stays in its set until its consumer gives the slot back. */
  ghost predicate Unpruned(s: State) {
    forall id :: UnprunedAt(s, id)
  }

  ghost predicate UnprunedAt(s: State, id: Id) {
    && !AtStage(s, id, Counting)
    && (Entered(s, id) && s.subs[id].tier != Untiered && Held(s.core, id) ==> id in ActiveOf(s, s.subs[id].tier))
  }

  /** Together the active set and the submissions under way stay below the bound. */
  ghost predicate MemoryBound(s: State, cfg: Config) {
    s.free + AllUnderWay(s) != {} ==> |s.free| + |AllUnderWay(s)| <= cfg.limit + cfg.overlap - 1
  }

  lemma OthersUnderWay(s: State, t: State, id: Id)
    requires id in t.subs && t.subs == s.subs[id := t.subs[id]]
    ensures AllUnderWay(t) - {id} == AllUnderWay(s) - {id}
    ensures id in AllUnderWay(t) <==> UnderWay(t, id)
    ensures id in AllUnderWay(s) <==> UnderWay(s, id)
  {
  }

  /** One submission changed; `before` and `after` tell whether it is under way. */
  lemma UnderWayCount(s: State, t: State, id: Id)
    requires id in t.subs && t.subs == s.subs[id := t.subs[id]]
    ensures |AllUnderWay(t)| ==
      |AllUnderWay(s)| - (if UnderWay(s, id) then 1 else 0) + (if UnderWay(t, id) then 1 else 0)
  {
    OthersUnderWay(s, t, id);
    SwapCount(AllUnderWay(s), AllUnderWay(t), id);
  }

  ghost predicate Bounded(free: nat, underWay: nat, cfg: Config) {
    free + underWay > 0 ==> free + underWay <= cfg.limit + cfg.overlap - 1
  }

  lemma BoundedMeans(s: State, cfg: Config)
    ensures MemoryBound(s, cfg) <==> Bounded(|s.free|, |AllUnderWay(s)|, cfg)
  {
    assert s.free + AllUnderWay(s) != {} <==> |s.free| > 0 || |AllUnderWay(s)| > 0;
  }

  lemma SmallerKeepsBound(s: State, t: State, cfg: Config)
    requires MemoryBound(s, cfg) && t.free <= s.free && |AllUnderWay(t)| <= |AllUnderWay(s)|
    ensures MemoryBound(t, cfg)
  {
    BoundedMeans(s, cfg);
    BoundedMeans(t, cfg);
    SubsetCount(t.free, s.free);
  }

  lemma CountNowKeepsBound(s: State, id: Id, cfg: Config)
    requires MemoryBound(s, cfg) && CanMove(s, CountNow(id), cfg)
    ensures MemoryBound(Outcome(s, CountNow(id), cfg), cfg)
  {
    var t := Outcome(s, CountNow(id), cfg);
    UnderWayCount(s, t, id);
    BoundedMeans(s, cfg);
    BoundedMeans(t, cfg);
  }

  lemma AddActiveKeepsBound(s: State, id: Id, cfg: Config)
    requires MemoryBound(s, cfg) && CanMove(s, AddActive(id), cfg)
    ensures MemoryBound(Outcome(s, AddActive(id), cfg), cfg)
  {
    var t := Outcome(s, AddActive(id), cfg);
    UnderWayCount(s, t, id);
    BoundedMeans(s, cfg);
    BoundedMeans(t, cfg);
    RemoveCount(t.free, id);
    SubsetCount(t.free - {id}, s.free);
  }

  lemma StageKeepsBound(s: State, t: State, id: Id, cfg: Config)
    requires MemoryBound(s, cfg) && t.free == s.free && id in t.subs && t.subs == s.subs[id := t.subs[id]]
    requires UnderWay(t, id) ==> UnderWay(s, id)
    ensures MemoryBound(t, cfg)
  {
    UnderWayCount(s, t, id);
    SmallerKeepsBound(s, t, cfg);
  }

  lemma SubmissionKeepsBound(s: State, m: Move, cfg: Config)
    requires MemoryBound(s, cfg) && CanMove(s, m, cfg)
    requires m.Arrive? || m.Abandon? || m.Store? || m.Submit?
    ensures MemoryBound(Outcome(s, m, cfg), cfg)
  {
    StageKeepsBound(s, Outcome(s, m, cfg), m.id, cfg);
  }

  lemma ConsumerAddsNobody(s: State, m: Move, cfg: Config)
    requires CanMove(s, m, cfg) && (m.Work? || m.GiveBack?)
    ensures Outcome(s, m, cfg).subs == s.subs && Outcome(s, m, cfg).free <= s.free
  {
  }

  lemma SameUnderWay(s: State, t: State)
    requires t.subs == s.subs
    ensures AllUnderWay(t) == AllUnderWay(s)
  {
  }

  lemma ConsumerKeepsBound(s: State, m: Move, cfg: Config)
    requires MemoryBound(s, cfg) && CanMove(s, m, cfg) && (m.Work? || m.GiveBack?)
    ensures MemoryBound(Outcome(s, m, cfg), cfg)
  {
    var t := Outcome(s, m, cfg);
    ConsumerAddsNobody(s, m, cfg);
    SameUnderWay(s, t);
    SmallerKeepsBound(s, t, cfg);
  }

  /** The in-memory store never counts in several steps. */
  lemma NoLongCounts(s: State, m: Move, cfg: Config)
    requires Unpruned(s) && !cfg.shared && CanMove(s, m, cfg)
    ensures !m.BeginCount? && !m.ReadStatus? && !m.Decide?
  {
    assert m.ReadStatus? || m.Decide? ==> UnprunedAt(s, m.id);
  }

  lemma MoveKeepsBound(s: State, m: Move, cfg: Config)
    requires MemoryBound(s, cfg) && Unpruned(s) && !cfg.shared && CanMove(s, m, cfg)
    ensures MemoryBound(Outcome(s, m, cfg), cfg)
  {
    NoLongCounts(s, m, cfg);
    if m.CountNow? {
      CountNowKeepsBound(s, m.id, cfg);
    } else if m.AddActive? {
      AddActiveKeepsBound(s, m.id, cfg);
    } else if m.Work? || m.GiveBack? {
      ConsumerKeepsBound(s, m, cfg);
    } else {
      SubmissionKeepsBound(s, m, cfg);
    }
  }

  // ----- in memory the active sets are exactly the added and unreleased jobs ------------------------------------

  /** Added to its set and not yet released. */
  ghost predicate Occupies(s: State, id: Id, tier: Tier) {
    Entered(s, id) && s.subs[id].tier == tier && (IsTerminal(s.core, id) ==> Held(s.core, id))
  }

  predicate Concerns(e: Event, c: nat) {
    !e.Create? && !e.Enqueue? && !e.Land? && e.c == c
  }

  lemma LoadedElsewhere(s: Core, d: nat, id: Id, c: nat)
    requires c != d
    ensures PhaseOf(LoadStep(s, d, id), c) == PhaseOf(s, c)
  {
  }

  lemma ReportedElsewhere(s: Core, d: nat, id: Id, furthest: int, percent: int, c: nat)
    requires c != d
    ensures PhaseOf(ReportStep(s, d, id, furthest, percent), c) == PhaseOf(s, c)
  {
  }

  lemma FinishedElsewhere(s: Core, d: nat, id: Id, ok: bool, c: nat)
    requires c != d
    ensures PhaseOf(FinishStep(s, d, id, ok), c) == PhaseOf(s, c)
  {
  }

  /** A consumer that takes no step stays as it is. */
  lemma OthersStay(s: Core, e: Event, c: nat)
    requires Enabled(s, e) && !Concerns(e, c)
    ensures PhaseOf(Step(s, e), c) == PhaseOf(s, c)
  {
    if e.Load? {
      LoadedElsewhere(s, e.c, PhaseOf(s, e.c).id, c);
    } else if e.Report? {
      ReportedElsewhere(s, e.c, PhaseOf(s, e.c).id, PhaseOf(s, e.c).furthest, e.percent, c);
    } else if e.Finish? {
      FinishedElsewhere(s, e.c, PhaseOf(s, e.c).id, e.ok, c);
    } else {
      PlainElsewhere(s, e, c);
    }
  }

  lemma PlainElsewhere(s: Core, e: Event, c: nat)
    requires Enabled(s, e) && !Concerns(e, c) && !e.Load? && !e.Report? && !e.Finish?
    ensures PhaseOf(Step(s, e), c) == PhaseOf(s, c)
  {
  }

  lemma MoverKeepsJob(s: Core, e: Event, c: nat, id: Id)
    requires Enabled(s, e) && Concerns(e, c) && !e.Dequeue? && Holds(Step(s, e), c, id)
    ensures Holds(s, c, id)
  {
  }

  /** A consumer takes a job up only by dequeuing it. */
  lemma HoldsBefore(s: Core, e: Event, c: nat, id: Id)
    requires Enabled(s, e) && Holds(Step(s, e), c, id)
    ensures Holds(s, c, id) || e == Dequeue(c, id)
  {
    if !Concerns(e, c) {
      OthersStay(s, e, c);
    } else if !e.Dequeue? {
      MoverKeepsJob(s, e, c, id);
    }
  }

  lemma HeldBefore(s: Core, e: Event, id: Id)
    requires Inv(s) && Enabled(s, e) && Held(Step(s, e), id)
    ensures Held(s, id) || !IsTerminal(s, id)
  {
    var c :| Holds(Step(s, e), c, id);
    HoldsBefore(s, e, c, id);
    assert JobOk(s, id);
  }

  lemma WorkStaysUnpruned(s: State, e: Event, cfg: Config, id: Id)
    requires PoolInv(s, cfg) && Unpruned(s) && CanMove(s, Work(e), cfg)
    ensures UnprunedAt(Outcome(s, Work(e), cfg), id)
  {
    var t := Outcome(s, Work(e), cfg);
    assert UnprunedAt(s, id) && BooksOk(s, id);
    if Held(t.core, id) {
      HeldBefore(s.core, e, id);
    }
  }

  lemma GiveBackStaysUnpruned(s: State, c: nat, cfg: Config, id: Id)
    requires PoolInv(s, cfg) && Unpruned(s) && CanMove(s, GiveBack(c), cfg)
    ensures UnprunedAt(Outcome(s, GiveBack(c), cfg), id)
  {
    var t := Outcome(s, GiveBack(c), cfg);
    assert UnprunedAt(s, id);
    AloneWithIt(s.core, c);
    if Held(t.core, id) {
      var d :| Holds(t.core, d, id);
      assert Holds(s.core, d, id);
    }
  }

  predicate BySubmitter(m: Move) {
    !m.Work? && !m.GiveBack? && !m.BeginCount? && !m.ReadStatus? && !m.Decide?
  }

  lemma SubmissionMovesNoConsumer(s: State, m: Move, cfg: Config)
    requires CanMove(s, m, cfg) && BySubmitter(m)
    ensures Outcome(s, m, cfg).core.consumers == s.core.consumers
  {
  }

  lemma SameConsumersHold(s: Core, t: Core, id: Id)
    requires s.consumers == t.consumers && Held(t, id)
    ensures Held(s, id)
  {
    var c :| Holds(t, c, id);
    assert Holds(s, c, id);
  }

  lemma SubmissionStaysUnpruned(s: State, m: Move, cfg: Config, id: Id)
    requires PoolInv(s, cfg) && Unpruned(s) && CanMove(s, m, cfg) && BySubmitter(m)
    ensures UnprunedAt(Outcome(s, m, cfg), id)
  {
    var t := Outcome(s, m, cfg);
    assert UnprunedAt(s, id);
    SubmissionMovesNoConsumer(s, m, cfg);
    if Held(t.core, id) {
      SameConsumersHold(s.core, t.core, id);
    }
  }

  lemma MoveStaysUnpruned(s: State, m: Move, cfg: Config)
    requires PoolInv(s, cfg) && Unpruned(s) && !cfg.shared && CanMove(s, m, cfg)
    ensures Unpruned(Outcome(s, m, cfg))
  {
    NoLongCounts(s, m, cfg);
    forall id ensures UnprunedAt(Outcome(s, m, cfg), id) {
      if m.Work? {
        WorkStaysUnpruned(s, m.e, cfg, id);
      } else if m.GiveBack? {
        GiveBackStaysUnpruned(s, m.c, cfg, id);
      } else {
        SubmissionStaysUnpruned(s, m, cfg, id);
      }
    }
  }

  lemma {:induction false} MemoryRunKeeps(moves: seq<Move>, states: seq<State>, cfg: Config, n: nat)
    requires PoolRun(moves, states, cfg) && n <= |moves| && !cfg.shared
    ensures Unpruned(states[n]) && MemoryBound(states[n], cfg)
  {
    if n > 0 {
      MemoryRunKeeps(moves, states, cfg, n - 1);
      RunKeepsPool(moves, states, cfg, n - 1);
      assert MoveAt(moves, states, cfg, n - 1);
      MoveStaysUnpruned(states[n - 1], moves[n - 1], cfg);
      MoveKeepsBound(states[n - 1], moves[n - 1], cfg);
    }
  }

  /** With the in-memory store the active sets are exactly the jobs added and not yet released, and
      the free set itself, with the submissions under way, stays within the bound. */
  lemma MemoryPoolIsExactAndBounded(moves: seq<Move>, states: seq<State>, cfg: Config, n: nat, id: Id, tier: Tier)
    requires PoolRun(moves, states, cfg) && n <= |moves| && !cfg.shared && tier != Untiered
    ensures id in ActiveOf(states[n], tier) <==> Occupies(states[n], id, tier)
    ensures MemoryBound(states[n], cfg)
  {
    MemoryRunKeeps(moves, states, cfg, n);
    RunKeepsPool(moves, states, cfg, n);
    assert BooksOk(states[n], id) && UnprunedAt(states[n], id);
  }
}
