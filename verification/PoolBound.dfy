/** The bound on the free pool is the least one, with either store. */
module PoolBound {
  import opened Counting
  import opened JobCore
  import opened FreePool
  import opened PoolRuns

  // ----- runs that lead to a state -------------------------------------------------------------------

  ghost predicate Reached(s: State, cfg: Config) {
    exists moves, states :: PoolRun(moves, states, cfg) && states[|moves|] == s
  }

  lemma RunExtends(moves: seq<Move>, states: seq<State>, cfg: Config, m: Move)
    requires PoolRun(moves, states, cfg) && CanMove(states[|moves|], m, cfg)
    ensures PoolRun(moves + [m], states + [Outcome(states[|moves|], m, cfg)], cfg)
  {
    var moves', states' := moves + [m], states + [Outcome(states[|moves|], m, cfg)];
    forall n: nat | n < |moves'| ensures MoveAt(moves', states', cfg, n) {
      if n < |moves| {
        assert MoveAt(moves, states, cfg, n);
        assert moves'[n] == moves[n] && states'[n] == states[n] && states'[n + 1] == states[n + 1];
      }
    }
  }

  lemma StepReaches(s: State, m: Move, cfg: Config)
    requires Reached(s, cfg) && CanMove(s, m, cfg)
    ensures Reached(Outcome(s, m, cfg), cfg)
  {
    var moves, states :| PoolRun(moves, states, cfg) && states[|moves|] == s;
    RunExtends(moves, states, cfg, m);
    var moves', states' := moves + [m], states + [Outcome(s, m, cfg)];
    assert states'[|moves'|] == Outcome(s, m, cfg);
  }

  // ----- a pool that is being filled -------------------------------------------------------------------

  function Range(n: nat): (ids: set<Id>)
    ensures forall id: nat :: id in ids <==> id < n
    ensures |ids| == n
  {
    if n == 0 then {} else Range(n - 1) + {n - 1}
  }

  lemma IntervalCount(ids: set<Id>, lo: nat, hi: nat)
    requires lo <= hi && forall id: nat :: id in ids <==> lo <= id < hi
    ensures |ids| == hi - lo
  {
    assert Range(hi) == Range(lo) + ids;
  }

  /** What the job's number says about it: the first `active` jobs are in the pool, the next `admitted`
      ones on their way there, and there are no others. */
  ghost predicate StockedAt(s: State, active: nat, admitted: nat, id: Id) {
    && (id in s.subs <==> id < active + admitted)
    && (id in s.free <==> id < active)
    && (id in s.core.jobs <==> id < active)
    && (id in s.core.jobs ==> s.core.jobs[id].status == Queued)
    && (id in s.subs ==> s.subs[id].tier == Free && s.subs[id].stage == (if id < active then Active else Admitted))
  }

  ghost predicate Stocked(s: State, active: nat, admitted: nat) {
    forall id: nat :: StockedAt(s, active, admitted, id)
  }

  lemma StockedLive(s: State, active: nat, admitted: nat)
    requires Stocked(s, active, admitted)
    ensures |LiveFree(s)| == active + admitted && |s.free| == active
  {
    forall id: nat ensures id in LiveFree(s) <==> 0 <= id < active + admitted {
      assert StockedAt(s, active, admitted, id);
    }
    IntervalCount(LiveFree(s), 0, active + admitted);
    forall id: nat ensures id in s.free <==> 0 <= id < active {
      assert StockedAt(s, active, admitted, id);
    }
    IntervalCount(s.free, 0, active);
  }

  lemma StockedUnderWay(s: State, active: nat, admitted: nat)
    requires Stocked(s, active, admitted)
    ensures |AllUnderWay(s)| == admitted
  {
    forall id: nat ensures id in AllUnderWay(s) <==> active <= id < active + admitted {
      assert StockedAt(s, active, admitted, id);
    }
    IntervalCount(AllUnderWay(s), active, active + admitted);
  }

  /** The next submission has read the active set and the statuses of its first `read` members. */
  ghost predicate Reading(s: State, active: nat, admitted: nat, read: nat) {
    var next := active + admitted;
    && read <= active && Asks(s, next, active, read)
    && forall id: nat | id != next :: StockedAt(s, active, admitted, id)
  }

  ghost predicate Asks(s: State, next: Id, active: nat, read: nat) {
    && next in s.subs && next !in s.free && next !in s.core.jobs
    && s.subs[next].stage == Counting && s.subs[next].tier == Free
    && s.subs[next].members == Range(active) && s.subs[next].read == Range(read) && s.subs[next].finished == {}
  }

  /** Submissions other than `next` are untouched. */
  lemma OthersStocked(s: State, t: State, active: nat, admitted: nat, next: Id)
    requires forall id: nat | id != next :: StockedAt(s, active, admitted, id)
    requires t.core == s.core && t.free == s.free && next in t.subs && t.subs == s.subs[next := t.subs[next]]
    ensures forall id: nat | id != next :: StockedAt(t, active, admitted, id)
  {
    forall id: nat | id != next ensures StockedAt(t, active, admitted, id) {
      assert StockedAt(s, active, admitted, id);
    }
  }

  lemma RangeNext(n: nat)
    ensures Range(n + 1) == Range(n) + {n} && n !in Range(n)
  {
  }

  lemma ReadAsks(s: State, next: Id, active: nat, read: nat, cfg: Config)
    requires Asks(s, next, active, read) && read < active && read != next
    requires read in s.core.jobs && s.core.jobs[read].status == Queued
    ensures CanMove(s, ReadStatus(next, read), cfg)
    ensures Asks(Outcome(s, ReadStatus(next, read), cfg), next, active, read + 1)
  {
    RangeNext(read);
  }

  lemma ReadOne(s: State, active: nat, admitted: nat, read: nat, cfg: Config)
    requires Reading(s, active, admitted, read) && read < active
    ensures var m := ReadStatus(active + admitted, read);
      CanMove(s, m, cfg) && Reading(Outcome(s, m, cfg), active, admitted, read + 1)
  {
    var next := active + admitted;
    assert StockedAt(s, active, admitted, read);
    ReadAsks(s, next, active, read, cfg);
    OthersStocked(s, Outcome(s, ReadStatus(next, read), cfg), active, admitted, next);
  }

  lemma {:induction false} ReadAll(s: State, active: nat, admitted: nat, read: nat, cfg: Config) returns (t: State)
    requires Reached(s, cfg) && Reading(s, active, admitted, read)
    ensures Reached(t, cfg) && Reading(t, active, admitted, active)
    decreases active - read
  {
    if read == active {
      t := s;
    } else {
      ReadOne(s, active, admitted, read, cfg);
      StepReaches(s, ReadStatus(active + admitted, read), cfg);
      t := ReadAll(Outcome(s, ReadStatus(active + admitted, read), cfg), active, admitted, read + 1, cfg);
    }
  }

  lemma DecideAdmits(s: State, active: nat, admitted: nat, cfg: Config)
    requires Reading(s, active, admitted, active) && active < cfg.limit
    ensures var m := Decide(active + admitted);
      CanMove(s, m, cfg) && Stocked(Outcome(s, m, cfg), active, admitted + 1)
  {
    var next := active + admitted;
    var t, more := Outcome(s, Decide(next), cfg), admitted + 1;
    forall id: nat ensures StockedAt(t, active, more, id) {
      assert id != next ==> StockedAt(s, active, admitted, id);
    }
  }

  lemma FreeIsRange(s: State, active: nat, admitted: nat)
    requires Stocked(s, active, admitted)
    ensures s.free == Range(active)
  {
    forall id: nat ensures id in s.free <==> id in Range(active) {
      assert StockedAt(s, active, admitted, id);
    }
  }

  lemma BeginAsks(s: State, next: Id, active: nat, cfg: Config)
    requires CanMove(s, BeginCount(next), cfg) && next !in s.free && next !in s.core.jobs && s.free == Range(active)
    ensures Asks(Outcome(s, BeginCount(next), cfg), next, active, 0)
  {
  }

  lemma CountBegins(s: State, active: nat, admitted: nat, cfg: Config)
    requires Stocked(s, active, admitted) && cfg.shared && admitted < cfg.overlap
    ensures var m := BeginCount(active + admitted);
      CanMove(s, m, cfg) && Reading(Outcome(s, m, cfg), active, admitted, 0)
  {
    var next := active + admitted;
    StockedUnderWay(s, active, admitted);
    FreeIsRange(s, active, admitted);
    assert StockedAt(s, active, admitted, next);
    BeginAsks(s, next, active, cfg);
    OthersStocked(s, Outcome(s, BeginCount(next), cfg), active, admitted, next);
  }

  lemma CountNowAdmits(s: State, active: nat, admitted: nat, cfg: Config)
    requires Stocked(s, active, admitted) && !cfg.shared && admitted < cfg.overlap && active < cfg.limit
    ensures var m := CountNow(active + admitted);
      CanMove(s, m, cfg) && Stocked(Outcome(s, m, cfg), active, admitted + 1)
  {
    var next := active + admitted;
    StockedLive(s, active, admitted);
    StockedUnderWay(s, active, admitted);
    assert StockedAt(s, active, admitted, next);
    var t, more := Outcome(s, CountNow(next), cfg), admitted + 1;
    forall id: nat ensures StockedAt(t, active, more, id) {
      assert StockedAt(s, active, admitted, id);
    }
  }

  lemma BeginCounting(s: State, active: nat, admitted: nat, cfg: Config) returns (t: State)
    requires Reached(s, cfg) && Stocked(s, active, admitted) && cfg.shared && admitted < cfg.overlap
    ensures Reached(t, cfg) && Reading(t, active, admitted, 0)
  {
    CountBegins(s, active, admitted, cfg);
    StepReaches(s, BeginCount(active + admitted), cfg);
    t := Outcome(s, BeginCount(active + admitted), cfg);
  }

  lemma EndCounting(s: State, active: nat, admitted: nat, cfg: Config) returns (t: State)
    requires Reached(s, cfg) && Reading(s, active, admitted, active) && active < cfg.limit
    ensures Reached(t, cfg) && Stocked(t, active, admitted + 1)
  {
    DecideAdmits(s, active, admitted, cfg);
    StepReaches(s, Decide(active + admitted), cfg);
    t := Outcome(s, Decide(active + admitted), cfg);
  }

  /** While the pool is not full, one more submission is admitted, with either store. */
  lemma AdmitOne(s: State, active: nat, admitted: nat, cfg: Config) returns (t: State)
    requires Reached(s, cfg) && Stocked(s, active, admitted) && admitted < cfg.overlap && active < cfg.limit
    ensures Reached(t, cfg) && Stocked(t, active, admitted + 1)
  {
    if cfg.shared {
      t := BeginCounting(s, active, admitted, cfg);
      t := ReadAll(t, active, admitted, 0, cfg);
      t := EndCounting(t, active, admitted, cfg);
    } else {
      CountNowAdmits(s, active, admitted, cfg);
      StepReaches(s, CountNow(active + admitted), cfg);
      t := Outcome(s, CountNow(active + admitted), cfg);
    }
  }

  /** The admitted job is stored and enters the pool. */
  lemma Settle(s: State, active: nat, cfg: Config) returns (t: State)
    requires Reached(s, cfg) && Stocked(s, active, 1)
    ensures Reached(t, cfg) && Stocked(t, active + 1, 0)
  {
    assert StockedAt(s, active, 1, active);
    StepReaches(s, Store(active), cfg);
    var stored := Outcome(s, Store(active), cfg);
    StepReaches(stored, AddActive(active), cfg);
    t := Outcome(stored, AddActive(active), cfg);
    SettledIsStocked(s, t, active, cfg);
  }

  lemma SettledIsStocked(s: State, t: State, active: nat, cfg: Config)
    requires Stocked(s, active, 1) && CanMove(s, Store(active), cfg)
    requires CanMove(Outcome(s, Store(active), cfg), AddActive(active), cfg)
    requires t == Outcome(Outcome(s, Store(active), cfg), AddActive(active), cfg)
    ensures Stocked(t, active + 1, 0)
  {
    assert StockedAt(s, active, 1, active);
    var larger := active + 1;
    forall id: nat ensures StockedAt(t, larger, 0, id) {
      assert StockedAt(s, active, 1, id);
    }
  }

  lemma {:induction false} FillPool(active: nat, cfg: Config) returns (s: State)
    requires active < cfg.limit && cfg.overlap >= 1
    ensures Reached(s, cfg) && Stocked(s, active, 0)
  {
    if active == 0 {
      s := State(Core(map[], multiset{}, map[], multiset{}, {}, multiset{}), map[], {}, {});
      assert PoolRun([], [s], cfg) && [s][0] == s;
    } else {
      s := FillPool(active - 1, cfg);
      s := AdmitOne(s, active - 1, 0, cfg);
      s := Settle(s, active - 1, cfg);
    }
  }

  lemma {:induction false} AdmitMany(active: nat, admitted: nat, cfg: Config) returns (s: State)
    requires active < cfg.limit && admitted <= cfg.overlap && cfg.overlap >= 1
    ensures Reached(s, cfg) && Stocked(s, active, admitted)
  {
    if admitted == 0 {
      s := FillPool(active, cfg);
    } else {
      s := AdmitMany(active, admitted - 1, cfg);
      s := AdmitOne(s, active, admitted - 1, cfg);
    }
  }

  // ----- the least bound -----------------------------------------------------------------------------------

  /** In every run, never more than `bound` free jobs are admitted and unfinished. */
  ghost predicate AlwaysWithin(bound: int, cfg: Config) {
    forall moves: seq<Move>, states: seq<State>, n: nat | PoolRun(moves, states, cfg) && n <= |moves| ::
      |LiveFree(states[n])| <= bound
  }

  /** For every limit and every number of overlapping submissions, with either store, some run attains the
      bound. */
  lemma BoundIsReached(cfg: Config) returns (moves: seq<Move>, states: seq<State>)
    requires cfg.limit >= 1 && cfg.overlap >= 1
    ensures PoolRun(moves, states, cfg) && |LiveFree(states[|moves|])| == cfg.limit + cfg.overlap - 1
  {
    var s := AdmitMany(cfg.limit - 1, cfg.overlap, cfg);
    StockedLive(s, cfg.limit - 1, cfg.overlap);
    moves, states :| PoolRun(moves, states, cfg) && states[|moves|] == s;
  }

  /** So `limit + overlap - 1` is the least bound that every run respects; in particular the limit itself
      holds in every run if and only if submissions do not overlap. */
  lemma LeastBound(cfg: Config, bound: int)
    requires cfg.limit >= 1 && cfg.overlap >= 1
    ensures AlwaysWithin(bound, cfg) <==> cfg.limit + cfg.overlap - 1 <= bound
    ensures AlwaysWithin(cfg.limit, cfg) <==> cfg.overlap == 1
  {
    var moves, states := BoundIsReached(cfg);
    forall moves: seq<Move>, states: seq<State>, n: nat | PoolRun(moves, states, cfg) && n <= |moves|
      ensures |LiveFree(states[n])| <= cfg.limit + cfg.overlap - 1
    {
      FreePoolIsBounded(moves, states, cfg, n);
    }
    assert |LiveFree(states[|moves|])| == cfg.limit + cfg.overlap - 1;
  }
}
