/** What a free submission is told, and why, in terms of the job records alone. */
module PoolAdmission {
  import opened Counting
  import opened JobCore
  import opened FreePool
  import opened PoolRuns

  /** Stored and still queued or processing. */
  predicate Unfinished(s: State, id: Id) {
    StatusIs(s.core, id, Queued) || StatusIs(s.core, id, Processing)
  }

  function UnfinishedOf(s: State, ids: set<Id>): set<Id> {
    set id | id in ids && Unfinished(s, id)
  }

  // ----- what an open count remembers -----------------------------------------------------------------------

  /** The count of `id` read the active set of `begun`, and whom it passed over was unfinished then. */
  ghost predicate Recalls(s: State, id: Id, begun: State)
    requires id in s.subs
  {
    s.subs[id].members == begun.free && forall m | m in s.subs[id].read :: RecallsAt(s, id, begun, m)
  }

  ghost predicate RecallsAt(s: State, id: Id, begun: State, m: Id)
    requires id in s.subs
  {
    m in s.subs[id].finished || Unfinished(begun, m)
  }

  lemma CountBegins(s: State, m: Move, cfg: Config, id: Id)
    requires CanMove(s, m, cfg) && !AtStage(s, id, Counting) && AtStage(Outcome(s, m, cfg), id, Counting)
    ensures m == BeginCount(id) && Recalls(Outcome(s, m, cfg), id, s)
  {
  }

  /** While it counts, a submission only looks up statuses, one member at a time. */
  ghost predicate ReadsOn(s: State, t: State, id: Id)
    requires id in s.subs && id in t.subs
  {
    && t.subs[id].members == s.subs[id].members && s.subs[id].finished <= t.subs[id].finished
    && forall m | m in t.subs[id].read - t.subs[id].finished :: m in s.subs[id].read || Unfinished(s, m)
  }

  lemma CountGoesOn(s: State, m: Move, cfg: Config, id: Id)
    requires CanMove(s, m, cfg) && AtStage(s, id, Counting) && AtStage(Outcome(s, m, cfg), id, Counting)
    ensures ReadsOn(s, Outcome(s, m, cfg), id)
  {
    if m.ReadStatus? && m.id == id {
      ReadGoesOn(s, id, m.member);
    }
  }

  lemma ReadGoesOn(s: State, id: Id, member: Id)
    requires id in s.subs
    ensures ReadsOn(s, ReadStep(s, id, member), id)
  {
  }

  /** Whoever is unfinished now was unfinished when it was in the active set. */
  lemma UnfinishedBefore(moves: seq<Move>, states: seq<State>, cfg: Config, b: nat, n: nat, m: Id)
    requires PoolRun(moves, states, cfg) && b <= n <= |moves|
    requires m in states[b].free && Unfinished(states[n], m)
    ensures Unfinished(states[b], m)
  {
    RunKeepsPool(moves, states, cfg, b);
    assert BooksOk(states[b], m);
    if IsTerminal(states[b].core, m) {
      FinishedForEver(moves, states, cfg, b, n, m);
    }
  }

  lemma StillRecalls(moves: seq<Move>, states: seq<State>, cfg: Config, b: nat, n: nat, id: Id)
    requires PoolRun(moves, states, cfg) && b <= n < |moves|
    requires AtStage(states[n], id, Counting) && AtStage(states[n + 1], id, Counting)
    requires Recalls(states[n], id, states[b])
    ensures Recalls(states[n + 1], id, states[b])
  {
    var s, t := states[n], states[n + 1];
    assert MoveAt(moves, states, cfg, n);
    CountGoesOn(s, moves[n], cfg, id);
    CountIsOfMembers(moves, states, cfg, n + 1, id);
    forall m | m in t.subs[id].read ensures RecallsAt(t, id, states[b], m) {
      if m in s.subs[id].read {
        assert RecallsAt(s, id, states[b], m);
      } else if m !in t.subs[id].finished {
        UnfinishedBefore(moves, states, cfg, b, n, m);
      }
    }
  }

  lemma CountIsOfMembers(moves: seq<Move>, states: seq<State>, cfg: Config, n: nat, id: Id)
    requires PoolRun(moves, states, cfg) && n <= |moves| && AtStage(states[n], id, Counting)
    ensures states[n].subs[id].read <= states[n].subs[id].members
  {
    RunKeepsPool(moves, states, cfg, n);
    assert CountOk(states[n], id, cfg) && BooksOk(states[n], id);
  }

  lemma {:induction false} CountRemembers(moves: seq<Move>, states: seq<State>, cfg: Config, n: nat, id: Id)
    returns (b: nat)
    requires PoolRun(moves, states, cfg) && n <= |moves| && AtStage(states[n], id, Counting)
    ensures b < n && moves[b] == BeginCount(id) && Recalls(states[n], id, states[b])
  {
    assert n > 0;
    var last := n - 1;
    assert MoveAt(moves, states, cfg, last);
    if AtStage(states[last], id, Counting) {
      b := CountRemembers(moves, states, cfg, last, id);
      StillRecalls(moves, states, cfg, b, last, id);
    } else {
      CountBegins(states[last], moves[last], cfg, id);
      b := last;
    }
  }

  // ----- the verdict -------------------------------------------------------------------------------------------

  /** At its decision the count has passed over exactly `members - finished`. */
  lemma CountIsBetween(s: State, id: Id, begun: State, cfg: Config)
    requires PoolInv(s, cfg) && CanMove(s, Decide(id), cfg) && Recalls(s, id, begun)
    ensures |UnfinishedOf(s, begun.free)| <= |s.subs[id].members| - |s.subs[id].finished|
    ensures |s.subs[id].members| - |s.subs[id].finished| <= |UnfinishedOf(begun, begun.free)|
  {
    var sub := s.subs[id];
    var over := sub.members - sub.finished;
    assert CountOk(s, id, cfg) && BooksOk(s, id);
    assert |over| == |sub.members| - |sub.finished|;
    forall m | m in UnfinishedOf(s, begun.free) ensures m in over {
      assert m in sub.finished ==> IsTerminal(s.core, m);
    }
    SubsetCount(UnfinishedOf(s, begun.free), over);
    forall m | m in over ensures m in UnfinishedOf(begun, begun.free) {
      assert RecallsAt(s, id, begun, m);
    }
    SubsetCount(over, UnfinishedOf(begun, begun.free));
  }

  /** In every interleaving, a free submission that counted the shared pool is refused only if at least
      `limit` members of the pool were unfinished when its count began, and admitted only if fewer than
      `limit` of those are unfinished now; when none of them finishes meanwhile, the limit alone decides. */
  lemma VerdictFollowsRecords(moves: seq<Move>, states: seq<State>, cfg: Config, n: nat, id: Id) returns (b: nat)
    requires PoolRun(moves, states, cfg) && n < |moves| && moves[n] == Decide(id)
    ensures b < n && moves[b] == BeginCount(id)
    ensures AtStage(states[n + 1], id, Refused) || AtStage(states[n + 1], id, Admitted)
    ensures AtStage(states[n + 1], id, Refused) ==> |UnfinishedOf(states[b], states[b].free)| >= cfg.limit
    ensures AtStage(states[n + 1], id, Admitted) ==> |UnfinishedOf(states[n], states[b].free)| < cfg.limit
    ensures UnfinishedOf(states[n], states[b].free) == UnfinishedOf(states[b], states[b].free) ==>
      (AtStage(states[n + 1], id, Refused) <==> |UnfinishedOf(states[n], states[b].free)| >= cfg.limit)
  {
    assert MoveAt(moves, states, cfg, n);
    RunKeepsPool(moves, states, cfg, n);
    b := CountRemembers(moves, states, cfg, n, id);
    CountIsBetween(states[n], id, states[b], cfg);
  }

  /** A decision takes out of the pool every member that was over when its count began, and no member that
      is unfinished now; it brings nobody in. */
  lemma PruningFollowsRecords(moves: seq<Move>, states: seq<State>, cfg: Config, n: nat, id: Id) returns (b: nat)
    requires PoolRun(moves, states, cfg) && n < |moves| && moves[n] == Decide(id)
    ensures b < n && moves[b] == BeginCount(id)
    ensures forall m | m in states[b].free && !Unfinished(states[b], m) :: m !in states[n + 1].free
    ensures forall m | m in states[n].free && Unfinished(states[n], m) :: m in states[n + 1].free
    ensures states[n + 1].free <= states[n].free
  {
    assert MoveAt(moves, states, cfg, n);
    RunKeepsPool(moves, states, cfg, n);
    b := CountRemembers(moves, states, cfg, n, id);
    assert CountOk(states[n], id, cfg) && BooksOk(states[n], id);
    forall m | m in states[b].free && !Unfinished(states[b], m) ensures m !in states[n + 1].free {
      assert RecallsAt(states[n], id, states[b], m);
    }
  }

  /** In memory the count is one look: refused if and only if the pool has at least `limit` members, which
      are exactly the free jobs added to it and not yet released. */
  lemma MemoryVerdict(moves: seq<Move>, states: seq<State>, cfg: Config, n: nat, id: Id)
    requires PoolRun(moves, states, cfg) && n < |moves| && moves[n] == CountNow(id)
    ensures AtStage(states[n + 1], id, Refused) || AtStage(states[n + 1], id, Admitted)
    ensures AtStage(states[n + 1], id, Refused) <==> |states[n].free| >= cfg.limit
    ensures forall m :: m in states[n].free <==> Occupies(states[n], m, Free)
    ensures states[n + 1].free == states[n].free
  {
    assert MoveAt(moves, states, cfg, n);
    forall m ensures m in states[n].free <==> Occupies(states[n], m, Free) {
      MemoryPoolIsExactAndBounded(moves, states, cfg, n, m, Free);
    }
  }

  // ----- the way in -----------------------------------------------------------------------------------------------

  /** Only the free tier is counted: every other submission is admitted as it arrives. */
  lemma UncountedIsAdmitted(s: State, id: Id, tier: Tier, cfg: Config)
    requires id !in s.subs && tier != Free
    ensures CanMove(s, Arrive(id, tier), cfg) && AtStage(Outcome(s, Arrive(id, tier), cfg), id, Admitted)
    ensures forall other :: other != id ==>
      (other in Outcome(s, Arrive(id, tier), cfg).subs <==> other in s.subs)
  {
  }

  lemma AdmittedIsStored(s: State, id: Id, cfg: Config)
    requires PoolInv(s, cfg) && AtStage(s, id, Admitted)
    ensures CanMove(s, Store(id), cfg)
    ensures var t := Outcome(s, Store(id), cfg);
      && AtStage(t, id, Stored) && t.subs[id].tier == s.subs[id].tier
      && t.core.jobs == s.core.jobs[id := Rec(Queued, 0, s.subs[id].tier)]
      && t.core.queue == s.core.queue && t.core.enqueued == s.core.enqueued
      && t.free == s.free && t.paid == s.paid
  {
    assert BooksOk(s, id);
  }

  lemma StoredIsAdded(s: State, id: Id, cfg: Config)
    requires AtStage(s, id, Stored)
    ensures CanMove(s, AddActive(id), cfg)
    ensures var t := Outcome(s, AddActive(id), cfg);
      && AtStage(t, id, Active) && t.core == s.core
      && t.free == s.free + (if s.subs[id].tier == Free then {id} else {})
      && t.paid == s.paid + (if s.subs[id].tier == Paid then {id} else {})
  {
  }

  lemma AddedIsSubmitted(s: State, id: Id, cfg: Config)
    requires AtStage(s, id, Active) && id in s.core.jobs && id !in s.core.enqueued && s.core.queue[id] == 0
    ensures CanMove(s, Submit(id), cfg)
    ensures var t := Outcome(s, Submit(id), cfg);
      && AtStage(t, id, Submitted) && t.core.queue[id] == 1 && t.core.jobs == s.core.jobs
      && t.free == s.free && t.paid == s.paid
  {
  }

  lemma NotYetEnqueued(s: State, id: Id, cfg: Config)
    requires PoolInv(s, cfg) && AtStage(s, id, Admitted)
    ensures id !in s.core.enqueued && s.core.queue[id] == 0
  {
    assert BooksOk(s, id) && JobOk(s.core, id);
  }

  /** An admitted job can be stored, added to its pool and submitted, one after the other. */
  lemma AdmittedGoesThrough(s: State, id: Id, cfg: Config) returns (stored: State, active: State, done: State)
    requires PoolInv(s, cfg) && AtStage(s, id, Admitted)
    ensures CanMove(s, Store(id), cfg) && stored == Outcome(s, Store(id), cfg)
    ensures CanMove(stored, AddActive(id), cfg) && active == Outcome(stored, AddActive(id), cfg)
    ensures CanMove(active, Submit(id), cfg) && done == Outcome(active, Submit(id), cfg)
    ensures AtStage(done, id, Submitted) && done.core.queue[id] == 1
    ensures done.core.jobs == s.core.jobs[id := Rec(Queued, 0, s.subs[id].tier)]
    ensures done.free == s.free + (if s.subs[id].tier == Free then {id} else {})
    ensures done.paid == s.paid + (if s.subs[id].tier == Paid then {id} else {})
  {
    AdmittedIsStored(s, id, cfg);
    NotYetEnqueued(s, id, cfg);
    stored := Outcome(s, Store(id), cfg);
    StoredIsAdded(stored, id, cfg);
    active := Outcome(stored, AddActive(id), cfg);
    AddedIsSubmitted(active, id, cfg);
    done := Outcome(active, Submit(id), cfg);
  }

  // ----- the way out ----------------------------------------------------------------------------------------------

  /** A request that fails validation after its count is turned away, and leaves no trace in the records or
      the pools. */
  lemma AbandonedIsRefused(s: State, id: Id, cfg: Config)
    requires AtStage(s, id, Admitted)
    ensures CanMove(s, Abandon(id), cfg) && AtStage(Outcome(s, Abandon(id), cfg), id, Refused)
    ensures var t := Outcome(s, Abandon(id), cfg);
      t.core == s.core && t.free == s.free && t.paid == s.paid && t.subs - {id} == s.subs - {id}
  {
  }

  lemma StaysRefused(s: State, m: Move, cfg: Config, id: Id)
    requires CanMove(s, m, cfg) && AtStage(s, id, Refused)
    ensures AtStage(Outcome(s, m, cfg), id, Refused)
  {
  }

  /** Who was refused stays refused: no such job is ever stored, queued, or in an active set. */
  lemma {:induction false} RefusedForEver(moves: seq<Move>, states: seq<State>, cfg: Config, n: nat, m: nat, id: Id)
    requires PoolRun(moves, states, cfg) && n <= m <= |moves| && AtStage(states[n], id, Refused)
    ensures AtStage(states[m], id, Refused)
    ensures id !in states[m].core.jobs && states[m].core.queue[id] == 0
    ensures id !in states[m].free && id !in states[m].paid
  {
    if n < m {
      RefusedForEver(moves, states, cfg, n, m - 1, id);
      assert MoveAt(moves, states, cfg, m - 1);
      StaysRefused(states[m - 1], moves[m - 1], cfg, id);
    }
    RunKeepsPool(moves, states, cfg, m);
    assert BooksOk(states[m], id) && JobOk(states[m].core, id);
  }
}
