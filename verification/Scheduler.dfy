/** The pipeline worker's dispatcher: greedy by priority and age, under per-user caps. */
module Scheduler {
  import opened Counting
  import opened Sorting
  import opened JobTable

  datatype Config = Config(concurrency: int, maxPerUser: int)

  /** A started task of the event loop, until its `finally` block has run. */
  datatype Task = Task(id: string, user: string)

  /** The scheduler's two dictionaries, and the event loop's live tasks by handle. */
  datatype State = State(tasks: map<string, nat>, running: map<string, int>, live: map<nat, Task>, next: nat)

  const LIST_LIMIT: nat := 500

  // ----- specification ---------------------------------------------------------------------------

  function UserKey(job: Job): string {
    if job.user == "" then "anon" else job.user
  }

  function Min(a: int, b: int): int {
    if a <= b then a else b
  }

  function UserLimit(job: Job, cfg: Config): int {
    match job.allowance
    case AtMost(jobs) => if jobs > 0 then Min(cfg.maxPerUser, jobs) else cfg.maxPerUser
    case Unlimited => cfg.maxPerUser
  }

  function Running(s: State, user: string): int {
    if user in s.running then s.running[user] else 0
  }

  predicate Full(s: State, cfg: Config) {
    |s.tasks| >= cfg.concurrency
  }

  /** Whether the dispatch loop starts this job when it comes to it. */
  predicate Starts(s: State, job: Job, cfg: Config) {
    !Full(s, cfg) && job.id !in s.tasks && Running(s, UserKey(job)) < UserLimit(job, cfg)
  }

  function Start(s: State, job: Job): State {
    var user := UserKey(job);
    State(s.tasks[job.id := s.next], s.running[user := Running(s, user) + 1],
          s.live[s.next := Task(job.id, user)], s.next + 1)
  }

  function Considered(s: State, job: Job, cfg: Config): State {
    if Starts(s, job, cfg) then Start(s, job) else s
  }

  /** The state after the loop has been through the first `n` jobs. */
  function After(s: State, queue: seq<Job>, cfg: Config, n: nat): State
    requires n <= |queue|
  {
    if n == 0 then s else Considered(After(s, queue, cfg, n - 1), queue[n - 1], cfg)
  }

  /** The task's `finally` block. */
  function Finish(s: State, handle: nat): State
    requires handle in s.live
  {
    var task := s.live[handle];
    var remaining := (if task.user in s.running then s.running[task.user] else 1) - 1;
    State(s.tasks - {task.id},
          if remaining <= 0 then s.running - {task.user} else s.running[task.user := remaining],
          s.live - {handle}, s.next)
  }

  predicate Sooner(a: Job, b: Job) {
    a.priority > b.priority || (a.priority == b.priority && a.created <= b.created)
  }

  predicate IsQueued(job: Job) {
    job.status == Queued
  }

  /** The queued jobs of a listing, priority first, then age. */
  function Queue(listing: seq<Job>): seq<Job> {
    Sort(Filter(listing, IsQueued), Sooner)
  }

  /** One dispatch over what `list_jobs` returned. */
  function Dispatch(s: State, listing: seq<Job>, cfg: Config): State {
    if Full(s, cfg) then s else After(s, Queue(listing), cfg, |Queue(listing)|)
  }

  // ----- the scheduler -----------------------------------------------------------------------------

  class Dispatcher {
    const cfg: Config
    var tasks: map<string, nat>
    var running: map<string, int>
    var live: map<nat, Task>
    var next: nat

    ghost function Now(): State
      reads this
    {
      State(tasks, running, live, next)
    }

    constructor (cfg: Config)
      ensures this.cfg == cfg && Now() == State(map[], map[], map[], 0)
    {
      this.cfg := cfg;
      tasks, running, live, next := map[], map[], map[], 0;
    }

    method StartJob(job: Job)
      modifies this
      ensures Now() == Start(old(Now()), job)
    {
      var user := UserKey(job);
      var count := if user in running then running[user] else 0;
      running := running[user := count + 1];
      live := live[next := Task(job.id, user)];
      tasks := tasks[job.id := next];
      next := next + 1;
    }

    method DispatchOnce(table: Table, now: real)
      requires DistinctIds(table.jobs)
      modifies this, table
      ensures Now() == Dispatch(old(Now()), Listing(old(table.jobs), now, LIST_LIMIT), cfg)
      ensures DistinctIds(table.jobs)
      ensures table.jobs == if Full(old(Now()), cfg) then old(table.jobs) else Live(old(table.jobs), now)
    {
      if |tasks| >= cfg.concurrency {
        return;
      }
      var listing := table.ListJobs(now, LIST_LIMIT);
      DispatchQueue(Queue(listing));
    }

    /** The dispatch loop. */
    method DispatchQueue(queue: seq<Job>)
      modifies this
      ensures Now() == After(old(Now()), queue, cfg, |queue|)
    {
      ghost var was := Now();
      for i := 0 to |queue|
        invariant Now() == After(was, queue, cfg, i)
      {
        if |tasks| >= cfg.concurrency {
          FullStays(was, queue, cfg, i, |queue|);
          return;
        }
        ConsiderJob(queue[i]);
      }
    }

    /** One job of the queue, with a slot free: skipped, or started. */
    method ConsiderJob(job: Job)
      requires !Full(Now(), cfg)
      modifies this
      ensures Now() == Considered(old(Now()), job, cfg)
    {
      var user := UserKey(job);
      if job.id in tasks {
        return;
      }
      if (if user in running then running[user] else 0) >= UserLimit(job, cfg) {
        return;
      }
      StartJob(job);
    }

    method FinishTask(handle: nat)
      requires handle in live
      modifies this
      ensures Now() == Finish(old(Now()), handle)
    {
      var task := live[handle];
      live := live - {handle};
      tasks := tasks - {task.id};
      var remaining := (if task.user in running then running[task.user] else 1) - 1;
      if remaining <= 0 {
        running := running - {task.user};
      } else {
        running := running[task.user := remaining];
      }
    }
  }

  lemma {:induction false} FullStays(s: State, queue: seq<Job>, cfg: Config, i: nat, n: nat)
    requires i <= n <= |queue| && Full(After(s, queue, cfg, i), cfg)
    ensures After(s, queue, cfg, n) == After(s, queue, cfg, i)
  {
    if i < n {
      FullStays(s, queue, cfg, i, n - 1);
    }
  }

  // ----- which jobs a dispatch starts ----------------------------------------------------------------

  /** The members of `chosen` among the first `n` positions. */
  function Below(chosen: set<nat>, n: nat): set<nat> {
    set i | i in chosen && i < n
  }

  /** The users of the chosen jobs among the first `n`, with multiplicity. */
  function Users(queue: seq<Job>, chosen: set<nat>, n: nat): multiset<string>
    requires n <= |queue|
  {
    if n == 0 then multiset{} else WithUser(Users(queue, chosen, n - 1), queue[n - 1], n - 1 in chosen)
  }

  function WithUser(users: multiset<string>, job: Job, picked: bool): multiset<string> {
    if picked then users + multiset{UserKey(job)} else users
  }

  /** The positions that one dispatch starts. */
  ghost function Started(s: State, queue: seq<Job>, cfg: Config): set<nat> {
    set i: nat | i < |queue| && Starts(After(s, queue, cfg, i), queue[i], cfg)
  }

  /** The jobs of `chosen` could be started in queue order, each within the free slots and its own
      user limit, none of them running already. */
  ghost predicate Startable(s: State, queue: seq<Job>, cfg: Config, chosen: set<nat>) {
    forall i | i in chosen :: StartableAt(s, queue, cfg, chosen, i)
  }

  ghost predicate StartableAt(s: State, queue: seq<Job>, cfg: Config, chosen: set<nat>, i: nat) {
    && i < |queue|
    && queue[i].id !in s.tasks
    && |s.tasks| + |Below(chosen, i)| < cfg.concurrency
    && BelowCap(s, queue[i], Users(queue, chosen, i), cfg)
  }

  /** The job's user, with these others, is below the job's own limit. */
  ghost predicate BelowCap(s: State, job: Job, others: multiset<string>, cfg: Config) {
    Running(s, UserKey(job)) + others[UserKey(job)] < UserLimit(job, cfg)
  }

  /** The jobs of `chosen` fit beside the running ones: free slots and user caps are respected by
      the whole set, none of them is running already, and order does not matter. */
  ghost predicate Feasible(s: State, queue: seq<Job>, cfg: Config, chosen: set<nat>) {
    && (chosen != {} ==> |s.tasks| + |chosen| <= cfg.concurrency)
    && forall i | i in chosen :: FeasibleAt(s, queue, cfg, chosen, i)
  }

  ghost predicate FeasibleAt(s: State, queue: seq<Job>, cfg: Config, chosen: set<nat>, i: nat) {
    && i < |queue|
    && queue[i].id !in s.tasks
    && WithinCap(s, queue[i], Users(queue, chosen, |queue|), cfg)
  }

  /** The job's user, counting these, is within the job's own limit. */
  ghost predicate WithinCap(s: State, job: Job, users: multiset<string>, cfg: Config) {
    Running(s, UserKey(job)) + users[UserKey(job)] <= UserLimit(job, cfg)
  }

  /** All queued jobs of one user carry the same limit. */
  ghost predicate SameLimits(queue: seq<Job>, cfg: Config) {
    forall i, j {:trigger queue[i], queue[j]} | 0 <= i < j < |queue| && UserKey(queue[i]) == UserKey(queue[j]) ::
      UserLimit(queue[i], cfg) == UserLimit(queue[j], cfg)
  }

  lemma BelowStep(chosen: set<nat>, n: nat)
    ensures Below(chosen, n + 1) == Below(chosen, n) + (if n in chosen then {n} else {})
    ensures |Below(chosen, n + 1)| == |Below(chosen, n)| + (if n in chosen then 1 else 0)
  {
    assert n !in Below(chosen, n);
    assert Below(chosen, n + 1) == Below(chosen, n) + (if n in chosen then {n} else {});
  }

  lemma UsersStep(queue: seq<Job>, chosen: set<nat>, n: nat)
    requires n < |queue|
    ensures Users(queue, chosen, n + 1) == WithUser(Users(queue, chosen, n), queue[n], n in chosen)
  {
  }

  lemma WithUserCount(users: multiset<string>, job: Job, picked: bool)
    ensures |WithUser(users, job, picked)| == |users| + (if picked then 1 else 0)
  {
  }

  lemma WithUserAt(users: multiset<string>, job: Job, picked: bool, user: string)
    ensures WithUser(users, job, picked)[user] == users[user] + (if picked && user == UserKey(job) then 1 else 0)
  {
  }

  /** `held(n)` is `Users(queue, chosen, n)`, kept abstract while counting. */
  ghost predicate Holds(held: nat -> multiset<string>, queue: seq<Job>, chosen: set<nat>) {
    held(0) == multiset{} && forall i: nat | i < |queue| :: HoldsAt(held, queue, chosen, i)
  }

  ghost predicate HoldsAt(held: nat -> multiset<string>, queue: seq<Job>, chosen: set<nat>, i: nat)
    requires i < |queue|
  {
    held(i + 1) == WithUser(held(i), queue[i], i in chosen)
  }

  ghost function Held(queue: seq<Job>, chosen: set<nat>): (held: nat -> multiset<string>)
    ensures Holds(held, queue, chosen)
    ensures forall n: nat | n <= |queue| :: held(n) == Users(queue, chosen, n)
  {
    var held := (n: nat) => if n <= |queue| then Users(queue, chosen, n) else multiset{};
    HeldHolds(queue, chosen, held);
    held
  }

  lemma HeldHolds(queue: seq<Job>, chosen: set<nat>, held: nat -> multiset<string>)
    requires forall n: nat | n <= |queue| :: held(n) == Users(queue, chosen, n)
    ensures Holds(held, queue, chosen)
  {
    forall i: nat | i < |queue| ensures HoldsAt(held, queue, chosen, i) {
      UsersStep(queue, chosen, i);
    }
  }

  lemma {:induction false} HeldCount(queue: seq<Job>, chosen: set<nat>, held: nat -> multiset<string>, n: nat)
    requires n <= |queue| && Holds(held, queue, chosen)
    ensures |held(n)| == |Below(chosen, n)|
  {
    if n == 0 {
      assert Below(chosen, 0) == {};
    } else {
      HeldCount(queue, chosen, held, n - 1);
      assert HoldsAt(held, queue, chosen, n - 1);
      WithUserCount(held(n - 1), queue[n - 1], n - 1 in chosen);
      BelowStep(chosen, n - 1);
    }
  }

  lemma UsersCount(queue: seq<Job>, chosen: set<nat>, n: nat)
    requires n <= |queue|
    ensures |Users(queue, chosen, n)| == |Below(chosen, n)|
  {
    HeldCount(queue, chosen, Held(queue, chosen), n);
  }

  /** What one turn of the dispatch loop does to the dictionaries. */
  ghost predicate Turn(s: State, t: State, job: Job, started: bool) {
    && |t.tasks| == |s.tasks| + (if started then 1 else 0)
    && t.tasks.Keys == s.tasks.Keys + (if started then {job.id} else {})
    && forall u :: Running(t, u) == Running(s, u) + (if started && u == UserKey(job) then 1 else 0)
  }

  ghost predicate TurnAt(at: nat -> State, queue: seq<Job>, started: set<nat>, i: nat) {
    i < |queue| && Turn(at(i), at(i + 1), queue[i], i in started)
  }

  /** A dispatch as a sequence of turns, `at(n)` being the state after `n` of them. */
  ghost predicate Turns(at: nat -> State, queue: seq<Job>, started: set<nat>) {
    forall i: nat | i < |queue| :: TurnAt(at, queue, started, i)
  }

  lemma StartIsTurn(s: State, job: Job, cfg: Config)
    ensures Turn(s, Considered(s, job, cfg), job, Starts(s, job, cfg))
  {
  }

  lemma AfterStep(s: State, queue: seq<Job>, cfg: Config, n: nat)
    requires n < |queue|
    ensures Turn(After(s, queue, cfg, n), After(s, queue, cfg, n + 1), queue[n], n in Started(s, queue, cfg))
  {
    StartIsTurn(After(s, queue, cfg, n), queue[n], cfg);
  }

  ghost function States(s: State, queue: seq<Job>, cfg: Config): (at: nat -> State)
    ensures at(0) == s && Turns(at, queue, Started(s, queue, cfg))
    ensures forall n: nat | n <= |queue| :: at(n) == After(s, queue, cfg, n)
  {
    var at := (n: nat) => if n <= |queue| then After(s, queue, cfg, n) else s;
    StatesTurn(s, queue, cfg, at);
    at
  }

  lemma StatesTurn(s: State, queue: seq<Job>, cfg: Config, at: nat -> State)
    requires forall n: nat | n <= |queue| :: at(n) == After(s, queue, cfg, n)
    ensures at(0) == s && Turns(at, queue, Started(s, queue, cfg))
  {
    forall i: nat | i < |queue| ensures TurnAt(at, queue, Started(s, queue, cfg), i) {
      AfterStep(s, queue, cfg, i);
    }
  }

  /** One turn takes a slot for a started job, and nothing else, ... */
  lemma TurnTakes(at: nat -> State, queue: seq<Job>, started: set<nat>, i: nat)
    requires i < |queue| && Turns(at, queue, started)
    ensures |at(i + 1).tasks| == |at(i).tasks| + (if i in started then 1 else 0)
  {
    assert TurnAt(at, queue, started, i);
  }

  /** ... adds its id to the tasks, ... */
  lemma TurnAdds(at: nat -> State, queue: seq<Job>, started: set<nat>, i: nat)
    requires i < |queue| && Turns(at, queue, started)
    ensures at(i + 1).tasks.Keys == at(i).tasks.Keys + (if i in started then {queue[i].id} else {})
  {
    assert TurnAt(at, queue, started, i);
  }

  /** ... and raises its user's counter. */
  lemma TurnRaises(at: nat -> State, queue: seq<Job>, started: set<nat>, i: nat, user: string)
    requires i < |queue| && Turns(at, queue, started)
    ensures Running(at(i + 1), user) ==
      Running(at(i), user) + (if i in started && user == UserKey(queue[i]) then 1 else 0)
  {
    assert TurnAt(at, queue, started, i);
  }

  lemma BelowNone(chosen: set<nat>)
    ensures |Below(chosen, 0)| == 0
  {
    assert Below(chosen, 0) == {};
  }

  lemma {:induction false} TurnsTake(at: nat -> State, queue: seq<Job>, started: set<nat>, n: nat)
    requires n <= |queue| && Turns(at, queue, started)
    ensures |at(n).tasks| == |at(0).tasks| + |Below(started, n)|
  {
    if n == 0 {
      BelowNone(started);
    } else {
      var i := n - 1;
      TurnsTake(at, queue, started, i);
      TurnTakes(at, queue, started, i);
      BelowStep(started, i);
    }
  }

  lemma {:induction false} TurnsKeep(at: nat -> State, queue: seq<Job>, started: set<nat>, n: nat)
    requires n <= |queue| && Turns(at, queue, started)
    ensures at(0).tasks.Keys <= at(n).tasks.Keys
  {
    if n > 0 {
      TurnsKeep(at, queue, started, n - 1);
      TurnAdds(at, queue, started, n - 1);
    }
  }

  lemma {:induction false} TurnsRaise(at: nat -> State, queue: seq<Job>, started: set<nat>, n: nat, user: string,
        held: nat -> multiset<string>)
    requires n <= |queue| && Turns(at, queue, started) && Holds(held, queue, started)
    ensures Running(at(n), user) == Running(at(0), user) + held(n)[user]
  {
    if n > 0 {
      TurnsRaise(at, queue, started, n - 1, user, held);
      TurnRaises(at, queue, started, n - 1, user);
      assert HoldsAt(held, queue, started, n - 1);
      WithUserAt(held(n - 1), queue[n - 1], n - 1 in started, user);
    }
  }

  lemma {:induction false} TurnsSkip(at: nat -> State, queue: seq<Job>, started: set<nat>, n: nat, j: nat)
    requires n <= j < |queue| && Turns(at, queue, started) && DistinctIds(queue)
    ensures queue[j].id in at(n).tasks.Keys ==> queue[j].id in at(0).tasks.Keys
  {
    if n > 0 {
      TurnsSkip(at, queue, started, n - 1, j);
      TurnAdds(at, queue, started, n - 1);
      assert queue[n - 1].id != queue[j].id;
    }
  }

  /** Each start takes one slot; tasks stay through a dispatch. */
  lemma SlotsTaken(s: State, queue: seq<Job>, cfg: Config, n: nat)
    requires n <= |queue|
    ensures |After(s, queue, cfg, n).tasks| == |s.tasks| + |Below(Started(s, queue, cfg), n)|
    ensures s.tasks.Keys <= After(s, queue, cfg, n).tasks.Keys
  {
    TurnsTake(States(s, queue, cfg), queue, Started(s, queue, cfg), n);
    TurnsKeep(States(s, queue, cfg), queue, Started(s, queue, cfg), n);
  }

  lemma CountersRaised(s: State, queue: seq<Job>, cfg: Config, n: nat, user: string)
    requires n <= |queue|
    ensures Running(After(s, queue, cfg, n), user) == Running(s, user) + Users(queue, Started(s, queue, cfg), n)[user]
  {
    var started := Started(s, queue, cfg);
    TurnsRaise(States(s, queue, cfg), queue, started, n, user, Held(queue, started));
  }

  /** A job is not a task before its turn unless it was one. */
  lemma NotBeforeItsTurn(s: State, queue: seq<Job>, cfg: Config, j: nat)
    requires DistinctIds(queue) && j < |queue|
    ensures queue[j].id in After(s, queue, cfg, j).tasks ==> queue[j].id in s.tasks
  {
    TurnsSkip(States(s, queue, cfg), queue, Started(s, queue, cfg), j, j);
  }

  /** A dispatch starts only what may be started. */
  lemma StartedIsStartable(s: State, queue: seq<Job>, cfg: Config)
    ensures Startable(s, queue, cfg, Started(s, queue, cfg))
  {
    var started := Started(s, queue, cfg);
    forall i | i in started ensures StartableAt(s, queue, cfg, started, i) {
      SlotsTaken(s, queue, cfg, i);
      CountersRaised(s, queue, cfg, i, UserKey(queue[i]));
    }
  }

  // ----- optimality ---------------------------------------------------------------------------------

  lemma WithUserMonotone(a: multiset<string>, b: multiset<string>, job: Job, inA: bool, inB: bool)
    requires a <= b && (inA ==> inB || b[UserKey(job)] > a[UserKey(job)])
    ensures WithUser(a, job, inA) <= WithUser(b, job, inB)
  {
  }

  /** While a slot is free, no user has more chosen jobs than started ones. */
  ghost predicate NotOutdone(s: State, queue: seq<Job>, cfg: Config, chosen: set<nat>, n: nat)
    requires n <= |queue|
  {
    !Full(After(s, queue, cfg, n), cfg) ==> Users(queue, chosen, n) <= Users(queue, Started(s, queue, cfg), n)
  }

  lemma {:induction false} UpTo(holds: nat -> bool, n: nat)
    requires holds(0) && forall i, j {:trigger holds(i), holds(j)} | 0 <= i && j == i + 1 <= n && holds(i) :: holds(j)
    ensures holds(n)
  {
    if n > 0 {
      UpTo(holds, n - 1);
    }
  }

  lemma NotOutdoneStep(s: State, queue: seq<Job>, cfg: Config, chosen: set<nat>, i: nat, j: nat)
    requires DistinctIds(queue) && j == i + 1 <= |queue| && Startable(s, queue, cfg, chosen)
    requires NotOutdone(s, queue, cfg, chosen, i)
    ensures NotOutdone(s, queue, cfg, chosen, j)
  {
    if !Full(After(s, queue, cfg, j), cfg) {
      NotFullBefore(s, queue, cfg, i);
      NotOutdoneNext(s, queue, cfg, chosen, i);
    }
  }

  lemma NoUserOutdone(s: State, queue: seq<Job>, cfg: Config, chosen: set<nat>, n: nat)
    requires DistinctIds(queue) && n <= |queue| && Startable(s, queue, cfg, chosen)
    ensures NotOutdone(s, queue, cfg, chosen, n)
  {
    var holds := (i: nat) => i <= |queue| && NotOutdone(s, queue, cfg, chosen, i);
    forall i: nat, j: nat | j == i + 1 <= n && holds(i) ensures holds(j) {
      NotOutdoneStep(s, queue, cfg, chosen, i, j);
    }
    UpTo(holds, n);
  }

  lemma NotOutdoneNext(s: State, queue: seq<Job>, cfg: Config, chosen: set<nat>, i: nat)
    requires DistinctIds(queue) && i < |queue| && Startable(s, queue, cfg, chosen)
    requires !Full(After(s, queue, cfg, i), cfg)
    requires Users(queue, chosen, i) <= Users(queue, Started(s, queue, cfg), i)
    ensures Users(queue, chosen, i + 1) <= Users(queue, Started(s, queue, cfg), i + 1)
  {
    var started := Started(s, queue, cfg);
    UsersStep(queue, chosen, i);
    UsersStep(queue, started, i);
    if i in chosen {
      OutdoneOnlyIfStarted(s, queue, cfg, chosen, i);
    }
    WithUserMonotone(Users(queue, chosen, i), Users(queue, started, i), queue[i], i in chosen, i in started);
  }

  lemma NotFullBefore(s: State, queue: seq<Job>, cfg: Config, i: nat)
    requires i < |queue| && !Full(After(s, queue, cfg, i + 1), cfg)
    ensures !Full(After(s, queue, cfg, i), cfg)
  {
    AfterStep(s, queue, cfg, i);
  }

  lemma OutdoneOnlyIfStarted(s: State, queue: seq<Job>, cfg: Config, chosen: set<nat>, i: nat)
    requires DistinctIds(queue) && i < |queue| && Startable(s, queue, cfg, chosen) && i in chosen
    requires !Full(After(s, queue, cfg, i), cfg)
    ensures i in Started(s, queue, cfg) ||
      Users(queue, Started(s, queue, cfg), i)[UserKey(queue[i])] > Users(queue, chosen, i)[UserKey(queue[i])]
  {
    assert StartableAt(s, queue, cfg, chosen, i);
    NotBeforeItsTurn(s, queue, cfg, i);
    CountersRaised(s, queue, cfg, i, UserKey(queue[i]));
  }

  lemma {:induction false} SlotsBound(chosen: set<nat>, slots: int, n: nat)
    requires forall i | i in chosen :: |Below(chosen, i)| < slots
    ensures Below(chosen, n) != {} ==> |Below(chosen, n)| <= slots
  {
    if n == 0 {
      assert Below(chosen, 0) == {};
    } else {
      SlotsBound(chosen, slots, n - 1);
      BelowStep(chosen, n - 1);
    }
  }

  lemma SlotsOf(s: State, queue: seq<Job>, cfg: Config, chosen: set<nat>, n: nat)
    requires Startable(s, queue, cfg, chosen)
    ensures Below(chosen, n) != {} ==> |s.tasks| + |Below(chosen, n)| <= cfg.concurrency
  {
    forall i | i in chosen ensures |Below(chosen, i)| < cfg.concurrency - |s.tasks| {
      assert StartableAt(s, queue, cfg, chosen, i);
    }
    SlotsBound(chosen, cfg.concurrency - |s.tasks|, n);
  }

  /** Greedy is optimal at every prefix: whatever else could have been started in queue order has no
      more jobs among the first `n` than the dispatch starts. */
  lemma DispatchBeatsStartable(s: State, queue: seq<Job>, cfg: Config, chosen: set<nat>, n: nat)
    requires DistinctIds(queue) && n <= |queue| && Startable(s, queue, cfg, chosen)
    ensures |Below(chosen, n)| <= |Below(Started(s, queue, cfg), n)|
  {
    var started, now := Started(s, queue, cfg), After(s, queue, cfg, n);
    if Full(now, cfg) {
      SlotsTaken(s, queue, cfg, n);
      SlotsOf(s, queue, cfg, chosen, n);
    } else {
      NoUserOutdone(s, queue, cfg, chosen, n);
      assert Users(queue, started, n) == Users(queue, chosen, n) + (Users(queue, started, n) - Users(queue, chosen, n));
      UsersCount(queue, chosen, n);
      UsersCount(queue, started, n);
    }
  }

  lemma {:induction false} HeldGrows(queue: seq<Job>, chosen: set<nat>, held: nat -> multiset<string>, i: nat, n: nat,
        user: string)
    requires i <= n <= |queue| && Holds(held, queue, chosen)
    ensures held(i)[user] <= held(n)[user]
    ensures i < n && i in chosen && UserKey(queue[i]) == user ==> held(i)[user] < held(n)[user]
  {
    if i < n {
      HeldGrows(queue, chosen, held, i, n - 1, user);
      assert HoldsAt(held, queue, chosen, n - 1);
      WithUserAt(held(n - 1), queue[n - 1], n - 1 in chosen, user);
    }
  }

  lemma UsersGrow(queue: seq<Job>, chosen: set<nat>, i: nat, n: nat, user: string)
    requires i <= n <= |queue|
    ensures Users(queue, chosen, i)[user] <= Users(queue, chosen, n)[user]
    ensures i < n && i in chosen && UserKey(queue[i]) == user ==>
      Users(queue, chosen, i)[user] < Users(queue, chosen, n)[user]
  {
    HeldGrows(queue, chosen, Held(queue, chosen), i, n, user);
  }

  lemma FeasibleIsStartable(s: State, queue: seq<Job>, cfg: Config, chosen: set<nat>)
    requires Feasible(s, queue, cfg, chosen)
    ensures Startable(s, queue, cfg, chosen)
  {
    forall i | i in chosen ensures StartableAt(s, queue, cfg, chosen, i) {
      assert FeasibleAt(s, queue, cfg, chosen, i);
      UsersGrow(queue, chosen, i, |queue|, UserKey(queue[i]));
      BelowIsFewer(chosen, i);
    }
  }

  lemma BelowIsFewer(chosen: set<nat>, i: nat)
    requires i in chosen
    ensures |Below(chosen, i)| < |chosen|
  {
    SubsetCount(Below(chosen, i), chosen - {i});
  }

  lemma StartedIsFeasible(s: State, queue: seq<Job>, cfg: Config)
    requires SameLimits(queue, cfg)
    ensures Feasible(s, queue, cfg, Started(s, queue, cfg))
  {
    var started := Started(s, queue, cfg);
    StartedIsStartable(s, queue, cfg);
    SlotsOf(s, queue, cfg, started, |queue|);
    assert Below(started, |queue|) == started;
    var held := Held(queue, started);
    forall j | j in started ensures j < |queue| && BelowCap(s, queue[j], held(j), cfg) {
      assert StartableAt(s, queue, cfg, started, j);
    }
    forall i | i in started ensures FeasibleAt(s, queue, cfg, started, i) {
      CapKept(s, queue, cfg, started, held, i, |queue|);
      assert StartableAt(s, queue, cfg, started, i);
    }
  }

  /** With equal limits the last chosen job of a user keeps the cap for all of them. */
  lemma {:induction false} CapKept(s: State, queue: seq<Job>, cfg: Config, chosen: set<nat>,
        held: nat -> multiset<string>, i: nat, n: nat)
    requires SameLimits(queue, cfg) && Holds(held, queue, chosen) && i in chosen && i < n <= |queue|
    requires forall j | j in chosen :: j < |queue| && BelowCap(s, queue[j], held(j), cfg)
    ensures WithinCap(s, queue[i], held(n), cfg)
  {
    var last := n - 1;
    assert HoldsAt(held, queue, chosen, last);
    WithUserAt(held(last), queue[last], last in chosen, UserKey(queue[i]));
    if last in chosen && UserKey(queue[last]) == UserKey(queue[i]) {
      assert BelowCap(s, queue[last], held(last), cfg);
      assert UserLimit(queue[last], cfg) == UserLimit(queue[i], cfg);
    } else {
      CapKept(s, queue, cfg, chosen, held, i, last);
    }
  }

  /** No feasible set has more jobs in any prefix of the queue than one dispatch starts; and when all
      queued jobs of a user carry the same limit, the started set is itself feasible. */
  lemma DispatchIsOptimal(s: State, queue: seq<Job>, cfg: Config, chosen: set<nat>, n: nat)
    requires DistinctIds(queue) && n <= |queue| && Feasible(s, queue, cfg, chosen)
    ensures SameLimits(queue, cfg) ==> Feasible(s, queue, cfg, Started(s, queue, cfg))
    ensures |Below(chosen, n)| <= |Below(Started(s, queue, cfg), n)|
  {
    if SameLimits(queue, cfg) {
      StartedIsFeasible(s, queue, cfg);
    }
    FeasibleIsStartable(s, queue, cfg, chosen);
    DispatchBeatsStartable(s, queue, cfg, chosen, n);
  }

  ghost function AtLeast(queue: seq<Job>, chosen: set<nat>, priority: int): set<nat> {
    set i | i in chosen && i < |queue| && queue[i].priority >= priority
  }

  /** In a sorted queue the jobs of at least a given priority come first. */
  lemma {:induction false} PriorityCut(queue: seq<Job>, priority: int) returns (n: nat)
    requires SortedBy(Sooner, queue)
    ensures n <= |queue| && forall i | 0 <= i < |queue| :: queue[i].priority >= priority <==> i < n
  {
    n := 0;
    while n < |queue| && queue[n].priority >= priority
      invariant n <= |queue| && forall i | 0 <= i < n :: queue[i].priority >= priority
    {
      n := n + 1;
    }
    assert forall i | n < i < |queue| :: Sooner(queue[n], queue[i]);
  }

  lemma QueueFacts(listing: seq<Job>)
    requires DistinctIds(listing)
    ensures DistinctIds(Queue(listing)) && SortedBy(Sooner, Queue(listing))
    ensures forall j :: j in Queue(listing) <==> j in listing && j.status == Queued
  {
    var waiting := Filter(listing, IsQueued);
    FilterDistinct(listing, IsQueued);
    FilterMembers(listing, IsQueued);
    SortDistinct(waiting, Sooner);
    SortMembers(waiting, Sooner);
    SortSorted(waiting, Sooner);
  }

  /** A queued job is a candidate of a dispatch if and only if it is not stale and among the 500 newest that
      one listing holds; so the first by priority and age need not be one. */
  lemma CandidateIff(jobs: seq<Job>, p: nat, now: real)
    requires p < |jobs| && DistinctIds(jobs)
    ensures jobs[p] in Queue(Listing(jobs, now, LIST_LIMIT))
      <==> jobs[p].status == Queued && Kept(jobs[p], now) && Ahead(jobs, p, now) < 500
  {
    ListedIff(jobs, p, now, LIST_LIMIT);
    ListingShape(jobs, now, LIST_LIMIT);
    QueueFacts(Listing(jobs, now, LIST_LIMIT));
  }

  /** The dispatch of any listing dominates by priority: no feasible set holds more jobs of at least
      any given priority, and none holds more jobs. */
  lemma DispatchDominates(s: State, listing: seq<Job>, cfg: Config, chosen: set<nat>, priority: int)
    requires DistinctIds(listing) && Feasible(s, Queue(listing), cfg, chosen)
    ensures |AtLeast(Queue(listing), chosen, priority)|
      <= |AtLeast(Queue(listing), Started(s, Queue(listing), cfg), priority)|
    ensures |chosen| <= |Started(s, Queue(listing), cfg)|
  {
    var queue := Queue(listing);
    var started := Started(s, queue, cfg);
    forall i | i in chosen ensures i < |queue| {
      assert FeasibleAt(s, queue, cfg, chosen, i);
    }
    QueueFacts(listing);
    var n := PriorityCut(queue, priority);
    AtLeastIsPrefix(queue, chosen, priority, n);
    AtLeastIsPrefix(queue, started, priority, n);
    DispatchIsOptimal(s, queue, cfg, chosen, n);
    DispatchIsOptimal(s, queue, cfg, chosen, |queue|);
    AllBelow(queue, chosen);
    AllBelow(queue, started);
  }

  lemma AllBelow(queue: seq<Job>, chosen: set<nat>)
    requires forall i | i in chosen :: i < |queue|
    ensures Below(chosen, |queue|) == chosen
  {
  }

  lemma AtLeastIsPrefix(queue: seq<Job>, chosen: set<nat>, priority: int, n: nat)
    requires n <= |queue| && forall i | 0 <= i < |queue| :: queue[i].priority >= priority <==> i < n
    ensures AtLeast(queue, chosen, priority) == Below(chosen, n)
  {
    forall i ensures i in AtLeast(queue, chosen, priority) <==> i in Below(chosen, n) {
      if i in Below(chosen, n) {
        assert queue[i].priority >= priority;
      }
    }
  }

  /** A job left waiting was running already, or its user was at the job's own limit, or no slot
      remained. */
  lemma LeftWaitingForAReason(s: State, queue: seq<Job>, cfg: Config, i: nat)
    requires DistinctIds(queue) && i < |queue| && i !in Started(s, queue, cfg)
    ensures var after := After(s, queue, cfg, |queue|);
      Full(after, cfg) || queue[i].id in s.tasks || Running(after, UserKey(queue[i])) >= UserLimit(queue[i], cfg)
  {
    var started, now := Started(s, queue, cfg), After(s, queue, cfg, i);
    CountersRaised(s, queue, cfg, i, UserKey(queue[i]));
    CountersRaised(s, queue, cfg, |queue|, UserKey(queue[i]));
    UsersGrow(queue, started, i, |queue|, UserKey(queue[i]));
    NotBeforeItsTurn(s, queue, cfg, i);
    if Full(now, cfg) {
      FullStays(s, queue, cfg, i, |queue|);
    }
  }

  ghost function Ids(queue: seq<Job>, chosen: set<nat>): set<string> {
    set i | i in chosen && i < |queue| :: queue[i].id
  }

  lemma {:induction false} TurnsAdd(at: nat -> State, queue: seq<Job>, started: set<nat>, n: nat)
    requires n <= |queue| && Turns(at, queue, started)
    ensures at(n).tasks.Keys == at(0).tasks.Keys + Ids(queue, Below(started, n))
  {
    if n == 0 {
      assert Below(started, 0) == {};
    } else {
      TurnsAdd(at, queue, started, n - 1);
      TurnAdds(at, queue, started, n - 1);
      IdsStep(queue, started, n - 1);
    }
  }

  lemma IdsStep(queue: seq<Job>, chosen: set<nat>, n: nat)
    requires n < |queue|
    ensures Ids(queue, Below(chosen, n + 1)) ==
      Ids(queue, Below(chosen, n)) + (if n in chosen then {queue[n].id} else {})
  {
    BelowStep(chosen, n);
  }

  /** A dispatch adds exactly the tasks of the started jobs; a full scheduler starts none. */
  lemma DispatchAddsStarted(s: State, listing: seq<Job>, cfg: Config)
    ensures var queue := Queue(listing);
      Dispatch(s, listing, cfg).tasks.Keys == s.tasks.Keys + Ids(queue, Started(s, queue, cfg))
  {
    var queue := Queue(listing);
    var started := Started(s, queue, cfg);
    if Full(s, cfg) {
      forall i: nat | i < |queue| ensures i !in started {
        FullStays(s, queue, cfg, 0, i);
      }
      assert started == {};
    } else {
      TurnsAdd(States(s, queue, cfg), queue, started, |queue|);
      AllBelow(queue, started);
    }
  }

  // ----- unequal limits -------------------------------------------------------------------------------

  function WithLimit(id: string, limit: int, created: real): Job {
    Job(id, "u", 0, AtMost(limit), Queued, created, created)
  }

  /** When the jobs of one user carry different limits, queue order can cost a job: two that fit
      when the stricter goes first are not both started when it is listed second. */
  lemma UnequalLimitsCostAJob()
    ensures var cfg := Config(2, 2);
      var idle := State(map[], map[], map[], 0);
      var strict, loose := WithLimit("a", 1, 1.0), WithLimit("b", 2, 0.0);
      && |After(idle, [loose, strict], cfg, 2).tasks| == 1
      && |After(idle, [strict, loose], cfg, 2).tasks| == 2
  {
    var cfg := Config(2, 2);
    var idle := State(map[], map[], map[], 0);
    var strict, loose := WithLimit("a", 1, 1.0), WithLimit("b", 2, 0.0);
    assert After(idle, [loose, strict], cfg, 0) == idle;
    assert After(idle, [loose, strict], cfg, 1) == Start(idle, loose);
    assert After(idle, [loose, strict], cfg, 2) == Start(idle, loose);
    assert After(idle, [strict, loose], cfg, 0) == idle;
    assert After(idle, [strict, loose], cfg, 1) == Start(idle, strict);
    assert After(idle, [strict, loose], cfg, 2) == Start(Start(idle, strict), loose);
  }
}
