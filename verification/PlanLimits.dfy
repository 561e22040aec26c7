/** The limits a dispatch keeps, with the ceiling and the number of the plan written out. */
module PlanLimits {
  import opened JobTable
  import opened Sorting
  import opened Scheduler
  import opened SchedulerRuns

  /** `held` tasks leave room for one more under the ceiling, and under the plan if it says a number. */
  predicate Room(job: Job, held: int, cfg: Config) {
    && held < cfg.maxPerUser
    && (job.allowance.AtMost? && job.allowance.jobs > 0 ==> held < job.allowance.jobs)
  }

  /** The plan of the job says a positive number that is at most `k`. */
  predicate PlanWithin(job: Job, k: int) {
    job.allowance.AtMost? && 0 < job.allowance.jobs <= k
  }

  lemma StartsIff(s: State, job: Job, cfg: Config)
    ensures Starts(s, job, cfg) <==>
      |s.tasks| < cfg.concurrency && job.id !in s.tasks && Room(job, Running(s, UserKey(job)), cfg)
  {
  }

  /** Two jobs count against one another exactly if they are of one user, or both of nobody; who is called
      "anon" counts as nobody. */
  lemma SharedCounterIff(a: Job, b: Job)
    ensures UserKey(a) == UserKey(b) <==> a.user == b.user || (a.user in {"", "anon"} && b.user in {"", "anon"})
  {
    assert "anon" != "";
  }

  // ----- one dispatch ------------------------------------------------------------------------------------

  /** A dispatch comes to the jobs by priority, then by age, and starts one if and only if a slot is free, the
      job is not running, and its user has room under the ceiling and under the job's own plan. */
  lemma StartedIff(s: State, listing: seq<Job>, cfg: Config, i: nat)
    requires DistinctIds(listing) && i < |Queue(listing)|
    ensures var queue := Queue(listing);
      var now := After(s, queue, cfg, i);
      i in Started(s, queue, cfg) <==>
        |now.tasks| < cfg.concurrency && queue[i].id !in s.tasks && Room(queue[i], Running(now, UserKey(queue[i])), cfg)
    ensures forall j | i < j < |Queue(listing)| ::
      var a, b := Queue(listing)[i], Queue(listing)[j];
      a.priority > b.priority || (a.priority == b.priority && a.created <= b.created)
  {
    var queue := Queue(listing);
    QueueFacts(listing);
    StartsIff(After(s, queue, cfg, i), queue[i], cfg);
    NotBeforeItsTurn(s, queue, cfg, i);
    SlotsTaken(s, queue, cfg, i);
    forall j | i < j < |queue|
      ensures queue[i].priority > queue[j].priority
        || (queue[i].priority == queue[j].priority && queue[i].created <= queue[j].created)
    {
      assert Sooner(queue[i], queue[j]);
    }
  }

  /** Right after a job is started its user holds no more tasks than the ceiling and than the plan says. */
  lemma StartedWithinPlan(s: State, queue: seq<Job>, cfg: Config, i: nat)
    requires i in Started(s, queue, cfg)
    ensures var held := Running(After(s, queue, cfg, i + 1), UserKey(queue[i]));
      && held <= cfg.maxPerUser
      && (forall k | queue[i].allowance == AtMost(k) && k > 0 :: held <= k)
  {
    var now := After(s, queue, cfg, i);
    StartsIff(now, queue[i], cfg);
    StartIsTurn(now, queue[i], cfg);
  }

  /** A job left waiting was running already, or no slot remained, or its user holds as many tasks as the
      ceiling, or as the job's plan, allows. */
  lemma WaitingForItsPlan(s: State, queue: seq<Job>, cfg: Config, i: nat)
    requires DistinctIds(queue) && i < |queue| && i !in Started(s, queue, cfg)
    ensures var after, job := After(s, queue, cfg, |queue|), queue[i];
      var held := Running(after, UserKey(job));
      || |after.tasks| >= cfg.concurrency || job.id in s.tasks || held >= cfg.maxPerUser
      || (job.allowance.AtMost? && job.allowance.jobs > 0 && held >= job.allowance.jobs)
  {
    LeftWaitingForAReason(s, queue, cfg, i);
  }

  // ----- over whole runs ----------------------------------------------------------------------------------

  ghost predicate ListedWithin(e: Event, user: string, k: int) {
    e.Dispatched? ==> forall job | job in e.listing && UserKey(job) == user :: PlanWithin(job, k)
  }

  lemma ConsideredWithin(s: State, job: Job, cfg: Config, user: string, k: int)
    requires Running(s, user) <= k && (UserKey(job) == user ==> PlanWithin(job, k))
    ensures Running(Considered(s, job, cfg), user) <= k
  {
    StartsIff(s, job, cfg);
    StartIsTurn(s, job, cfg);
  }

  lemma {:induction false} AfterWithin(s: State, queue: seq<Job>, cfg: Config, n: nat, user: string, k: int)
    requires n <= |queue| && Running(s, user) <= k
    requires forall job | job in queue && UserKey(job) == user :: PlanWithin(job, k)
    ensures Running(After(s, queue, cfg, n), user) <= k
  {
    if n > 0 {
      AfterWithin(s, queue, cfg, n - 1, user, k);
      ConsideredWithin(After(s, queue, cfg, n - 1), queue[n - 1], cfg, user, k);
    }
  }

  lemma EventWithin(e: Event, s: State, t: State, cfg: Config, user: string, k: int)
    requires Happens(e, s, t, cfg) && ListedWithin(e, user, k) && Running(s, user) <= k && k > 0
    ensures Running(t, user) <= k
  {
    if e.Dispatched? {
      FilterMembers(e.listing, IsQueued);
      SortMembers(Filter(e.listing, IsQueued), Sooner);
      AfterWithin(s, Queue(e.listing), cfg, |Queue(e.listing)|, user, k);
    }
  }

  /** In every run: a user all of whose listed jobs have plans of at most `k` jobs never has more than `k`
      tasks alive. */
  lemma {:induction false} PlanHoldsInRuns(events: seq<Event>, states: seq<State>, cfg: Config, n: nat,
        user: string, k: int)
    requires Run(events, states, cfg) && n <= |events| && k > 0
    requires forall e | e in events :: ListedWithin(e, user, k)
    ensures Running(states[n], user) <= k && |TasksOf(states[n].live, user)| <= k
  {
    if n > 0 {
      PlanHoldsInRuns(events, states, cfg, n - 1, user, k);
      EventWithin(events[n - 1], states[n - 1], states[n], cfg, user, k);
    }
    RunsKeepBooks(events, states, cfg, n);
    assert CountedFor(states[n], user);
  }
}
