/** Whether one user can occupy every slot. */
module Fairness {
  import opened Sorting
  import opened JobTable
  import opened Scheduler
  import opened SchedulerRuns
  import opened StartOrder

  /** In every run, at every moment, the user holds fewer than all slots. */
  ghost predicate NobodyHoldsAll(cfg: Config) {
    forall events: seq<Event>, states: seq<State>, n: nat, user | Run(events, states, cfg) && n <= |events| ::
      Running(states[n], user) < cfg.concurrency
  }

  lemma CeilingLeavesASlot(cfg: Config)
    requires 1 <= cfg.concurrency && cfg.maxPerUser < cfg.concurrency
    ensures NobodyHoldsAll(cfg)
  {
    forall events: seq<Event>, states: seq<State>, n: nat, user | Run(events, states, cfg) && n <= |events|
      ensures Running(states[n], user) < cfg.concurrency
    {
      RunsKeepBooks(events, states, cfg, n);
    }
  }

  /** A dispatch that lists one startable job starts it. */
  lemma DispatchOne(s: State, job: Job, cfg: Config)
    requires Starts(s, job, cfg) && job.status == Queued
    ensures Dispatch(s, [job], cfg) == Start(s, job)
  {
    assert Filter([job], IsQueued) == [job];
    SortFixed([job], Sooner);
    assert Queue([job]) == [job];
    assert After(s, [job], cfg, 0) == s;
    assert After(s, [job], cfg, 1) == Start(s, job);
  }

  lemma RunExtends(events: seq<Event>, states: seq<State>, cfg: Config, e: Event, t: State)
    requires Run(events, states, cfg) && Happens(e, states[|events|], t, cfg)
    ensures Run(events + [e], states + [t], cfg)
  {
    var events', states' := events + [e], states + [t];
    forall n | 0 <= n < |events'| ensures Happens(events'[n], states'[n], states'[n + 1], cfg) {
      assert n < |events| ==> states'[n] == states[n] && states'[n + 1] == states[n + 1];
    }
  }

  /** One user's jobs, dispatched one by one, fill as many slots as the ceiling allows. */
  lemma {:induction false} UserFills(user: string, count: nat, cfg: Config)
    returns (events: seq<Event>, states: seq<State>)
    requires user != "" && count <= cfg.concurrency && count <= cfg.maxPerUser
    ensures Run(events, states, cfg) && Busy(states[|events|], user, count, 0)
  {
    if count == 0 {
      events, states := [], [State(map[], map[], map[], 0)];
    } else {
      events, states := UserFills(user, count - 1, cfg);
      var s, job := states[|events|], Filler(user, count);
      RunsKeepBooks(events, states, cfg, |events|);
      BusyStep(s, user, count - 1, 0, cfg);
      DispatchOne(s, job, cfg);
      RunExtends(events, states, cfg, Dispatched([job]), Start(s, job));
      events, states := events + [Dispatched([job])], states + [Start(s, job)];
    }
  }

  /** No user ever holds every slot, in any run, if and only if the ceiling per user is below the number of
      slots. */
  lemma NobodyHoldsAllIff(cfg: Config)
    requires 1 <= cfg.concurrency
    ensures NobodyHoldsAll(cfg) <==> cfg.maxPerUser < cfg.concurrency
  {
    if cfg.maxPerUser < cfg.concurrency {
      CeilingLeavesASlot(cfg);
    } else {
      var events, states := UserFills("u", cfg.concurrency, cfg);
      assert Running(states[|events|], "u") == cfg.concurrency;
    }
  }
}
