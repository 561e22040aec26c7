/** The scheduler's books over whole runs of dispatching and finishing. */
module SchedulerRuns {
  import opened Counting
  import opened JobTable
  import opened Scheduler

  // ----- the invariant --------------------------------------------------------------------------

  ghost function TasksOf(live: map<nat, Task>, user: string): set<nat> {
    set h | h in live && live[h].user == user
  }

  /** `tasks` maps exactly the ids of live tasks, each to the only live task of that id. */
  ghost predicate OneTaskPerId(s: State) {
    && (forall h | h in s.live :: h < s.next && s.live[h].id in s.tasks && s.tasks[s.live[h].id] == h)
    && (forall id | id in s.tasks :: s.tasks[id] in s.live && s.live[s.tasks[id]].id == id)
  }

  /** Every counter is the number of the user's live tasks, and zero counters are removed. */
  ghost predicate Counted(s: State) {
    forall u :: CountedFor(s, u)
  }

  ghost predicate CountedFor(s: State, u: string) {
    Running(s, u) == |TasksOf(s.live, u)| && (u in s.running ==> s.running[u] > 0)
  }

  function AtLeastZero(n: int): int {
    if n < 0 then 0 else n
  }

  ghost predicate WithinCeilings(s: State, cfg: Config) {
    && |s.tasks| <= AtLeastZero(cfg.concurrency)
    && forall u | u in s.running :: s.running[u] <= cfg.maxPerUser
  }

  ghost function Total(running: map<string, int>): int {
    if running == map[] then 0
    else
      var u :| u in running;
      running[u] + Total(running - {u})
  }

  ghost predicate BooksBalance(s: State, cfg: Config) {
    OneTaskPerId(s) && Counted(s) && WithinCeilings(s, cfg) && Total(s.running) == |s.tasks|
  }

  // ----- starting a job --------------------------------------------------------------------------

  lemma StartKeepsTasks(s: State, job: Job)
    requires OneTaskPerId(s) && job.id !in s.tasks
    ensures OneTaskPerId(Start(s, job))
  {
  }

  lemma StartCounts(s: State, job: Job)
    requires OneTaskPerId(s) && Counted(s)
    ensures Counted(Start(s, job))
  {
    var t := Start(s, job);
    assert s.next !in s.live;
    forall u ensures CountedFor(t, u) {
      assert CountedFor(s, u);
      if u == UserKey(job) {
        assert TasksOf(t.live, u) == TasksOf(s.live, u) + {s.next};
      } else {
        assert TasksOf(t.live, u) == TasksOf(s.live, u);
      }
    }
  }

  lemma LimitIsUnderCeiling(job: Job, cfg: Config)
    ensures UserLimit(job, cfg) <= cfg.maxPerUser
  {
  }

  lemma StartStaysWithin(s: State, job: Job, cfg: Config)
    requires WithinCeilings(s, cfg) && Starts(s, job, cfg)
    ensures WithinCeilings(Start(s, job), cfg)
  {
    LimitIsUnderCeiling(job, cfg);
    assert |Start(s, job).tasks| == |s.tasks| + 1;
  }

  lemma StartTotal(s: State, job: Job)
    requires job.id !in s.tasks && Total(s.running) == |s.tasks|
    ensures Total(Start(s, job).running) == |Start(s, job).tasks|
  {
    TotalSet(s.running, UserKey(job), Running(s, UserKey(job)) + 1);
  }

  lemma StartKeepsBooks(s: State, job: Job, cfg: Config)
    requires BooksBalance(s, cfg) && Starts(s, job, cfg)
    ensures BooksBalance(Start(s, job), cfg)
  {
    StartKeepsTasks(s, job);
    StartCounts(s, job);
    StartStaysWithin(s, job, cfg);
    StartTotal(s, job);
  }

  // ----- the sum of the counters -------------------------------------------------------------------

  /** Which entry is taken first makes no difference. */
  lemma {:induction false} TotalTake(running: map<string, int>, user: string)
    requires user in running
    ensures Total(running) == running[user] + Total(running - {user})
    decreases |running|
  {
    var u :| u in running && Total(running) == running[u] + Total(running - {u});
    if u != user {
      TotalTake(running - {u}, user);
      TotalTake(running - {user}, u);
      assert running - {u} - {user} == running - {user} - {u};
    }
  }

  lemma TotalSet(running: map<string, int>, user: string, count: int)
    ensures Total(running[user := count]) == Total(running) - (if user in running then running[user] else 0) + count
  {
    var after := running[user := count];
    TotalTake(after, user);
    assert after - {user} == running - {user};
    if user in running {
      TotalTake(running, user);
    } else {
      assert running - {user} == running;
    }
  }

  // ----- finishing a task --------------------------------------------------------------------------

  lemma FinishTakesOne(s: State, handle: nat)
    requires OneTaskPerId(s) && handle in s.live
    ensures |Finish(s, handle).tasks| == |s.tasks| - 1
  {
    RemoveKeyCount(s.tasks, s.live[handle].id);
  }

  lemma FinishKeepsTasks(s: State, handle: nat)
    requires OneTaskPerId(s) && handle in s.live
    ensures OneTaskPerId(Finish(s, handle))
  {
    var t, id := Finish(s, handle), s.live[handle].id;
    forall h | h in t.live ensures h < t.next && t.live[h].id in t.tasks && t.tasks[t.live[h].id] == h {
      assert h in s.live && s.live[h].id != id;
    }
    forall other | other in t.tasks ensures t.tasks[other] in t.live && t.live[t.tasks[other]].id == other {
      assert other in s.tasks && other != id;
    }
  }

  lemma FinishCounts(s: State, handle: nat)
    requires Counted(s) && handle in s.live
    ensures s.live[handle].user in s.running
    ensures Counted(Finish(s, handle))
  {
    var user, t := s.live[handle].user, Finish(s, handle);
    assert handle in TasksOf(s.live, user);
    assert CountedFor(s, user);
    forall u ensures CountedFor(t, u) {
      assert CountedFor(s, u);
      if u == user {
        assert TasksOf(t.live, u) == TasksOf(s.live, u) - {handle};
      } else {
        assert TasksOf(t.live, u) == TasksOf(s.live, u);
      }
    }
  }

  lemma FinishTotal(s: State, handle: nat)
    requires handle in s.live && s.live[handle].user in s.running && s.running[s.live[handle].user] > 0
    ensures Total(Finish(s, handle).running) == Total(s.running) - 1
  {
    var user := s.live[handle].user;
    TotalTake(s.running, user);
    TotalSet(s.running, user, s.running[user] - 1);
  }

  lemma FinishKeepsBooks(s: State, handle: nat, cfg: Config)
    requires BooksBalance(s, cfg) && handle in s.live
    ensures BooksBalance(Finish(s, handle), cfg)
  {
    FinishKeepsTasks(s, handle);
    FinishTakesOne(s, handle);
    FinishCounts(s, handle);
    assert CountedFor(s, s.live[handle].user);
    FinishTotal(s, handle);
  }

  /** Finishing undoes starting. */
  lemma FinishUndoesStart(s: State, job: Job)
    requires OneTaskPerId(s) && Counted(s) && job.id !in s.tasks
    ensures Finish(Start(s, job), s.next) == s.(next := s.next + 1)
  {
    var t := Start(s, job);
    var u := UserKey(job);
    assert CountedFor(s, u);
    assert t.live - {s.next} == s.live;
    assert t.tasks - {job.id} == s.tasks;
    assert u !in s.running ==> t.running - {u} == s.running;
    assert u in s.running ==> t.running[u := s.running[u]] == s.running;
  }

  // ----- whole runs ---------------------------------------------------------------------------------

  lemma {:induction false} AfterKeepsBooks(s: State, queue: seq<Job>, cfg: Config, n: nat)
    requires n <= |queue| && BooksBalance(s, cfg)
    ensures BooksBalance(After(s, queue, cfg, n), cfg)
  {
    if n > 0 {
      AfterKeepsBooks(s, queue, cfg, n - 1);
      ConsideredKeepsBooks(After(s, queue, cfg, n - 1), queue[n - 1], cfg);
    }
  }

  lemma ConsideredKeepsBooks(s: State, job: Job, cfg: Config)
    requires BooksBalance(s, cfg)
    ensures BooksBalance(Considered(s, job, cfg), cfg)
  {
    if Starts(s, job, cfg) {
      StartKeepsBooks(s, job, cfg);
    }
  }

  /** `listing` is whatever `list_jobs` returned to that dispatch. */
  datatype Event = Dispatched(listing: seq<Job>) | Finished(handle: nat)

  ghost predicate Happens(e: Event, s: State, t: State, cfg: Config) {
    match e
    case Dispatched(listing) => t == Dispatch(s, listing, cfg)
    case Finished(handle) => handle in s.live && t == Finish(s, handle)
  }

  ghost predicate Run(events: seq<Event>, states: seq<State>, cfg: Config) {
    && |states| == |events| + 1
    && states[0] == State(map[], map[], map[], 0)
    && forall n | 0 <= n < |events| :: Happens(events[n], states[n], states[n + 1], cfg)
  }

  lemma EventKeepsBooks(e: Event, s: State, t: State, cfg: Config)
    requires BooksBalance(s, cfg) && Happens(e, s, t, cfg)
    ensures BooksBalance(t, cfg)
  {
    match e
    case Dispatched(listing) => AfterKeepsBooks(s, Queue(listing), cfg, |Queue(listing)|);
    case Finished(handle) => FinishKeepsBooks(s, handle, cfg);
  }

  /** In every run, whatever the listings contain: never more tasks than slots, one live task per
      id, every counter the number of the user's live tasks and within the system ceiling, no zero
      counters, and the counters add up to the tasks. */
  lemma {:induction false} RunsKeepBooks(events: seq<Event>, states: seq<State>, cfg: Config, n: nat)
    requires Run(events, states, cfg) && n <= |events|
    ensures BooksBalance(states[n], cfg)
  {
    if n == 0 {
      IdleBooks(cfg);
    } else {
      RunsKeepBooks(events, states, cfg, n - 1);
      EventKeepsBooks(events[n - 1], states[n - 1], states[n], cfg);
    }
  }

  lemma IdleBooks(cfg: Config)
    ensures BooksBalance(State(map[], map[], map[], 0), cfg)
  {
    var idle := State(map[], map[], map[], 0);
    forall u ensures CountedFor(idle, u) {
      assert TasksOf(map[], u) == {};
    }
  }
}
