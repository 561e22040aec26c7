/** When no other order of the queue would have started more jobs. */
module StartOrder {
  import opened Counting
  import opened Sorting
  import opened JobTable
  import opened Scheduler
  import opened SchedulerRuns

  /** The same jobs in another order. */
  ghost predicate Rearranges(other: seq<Job>, queue: seq<Job>) {
    multiset(other) == multiset(queue)
  }

  ghost predicate StartsNoMore(s: State, other: seq<Job>, queue: seq<Job>, cfg: Config) {
    |Started(s, other, cfg)| <= |Started(s, queue, cfg)|
  }

  /** Whatever the scheduler's dictionaries hold and however many slots there are, no other order of
      the queue starts more jobs. */
  ghost predicate OrderCannotHelp(queue: seq<Job>, maxPerUser: int) {
    forall s, concurrency, other | Rearranges(other, queue) ::
      StartsNoMore(s, other, queue, Config(concurrency, maxPerUser))
  }

  function Limit(job: Job, maxPerUser: int): int {
    UserLimit(job, Config(0, maxPerUser))
  }

  /** No user has a larger limit ahead of a smaller one. */
  ghost predicate LimitsAscend(queue: seq<Job>, maxPerUser: int) {
    forall i, j {:trigger queue[i], queue[j]} | 0 <= i < j < |queue| && UserKey(queue[i]) == UserKey(queue[j]) ::
      Limit(queue[i], maxPerUser) <= Limit(queue[j], maxPerUser)
  }

  // ----- sets of jobs ------------------------------------------------------------------------------

  function JobsOf(queue: seq<Job>, chosen: set<nat>): set<Job> {
    set i | i in chosen && i < |queue| :: queue[i]
  }

  /** The user's jobs among the chosen ones of the first `n`. */
  function UserJobs(queue: seq<Job>, chosen: set<nat>, n: nat, user: string): set<Job> {
    set i | i in chosen && i < n && i < |queue| && UserKey(queue[i]) == user :: queue[i]
  }

  lemma UserJobsStep(queue: seq<Job>, chosen: set<nat>, n: nat, user: string)
    requires n < |queue| && DistinctIds(queue)
    ensures |UserJobs(queue, chosen, n + 1, user)| ==
      |UserJobs(queue, chosen, n, user)| + (if n in chosen && UserKey(queue[n]) == user then 1 else 0)
  {
    var before, after := UserJobs(queue, chosen, n, user), UserJobs(queue, chosen, n + 1, user);
    assert queue[n] !in before;
    if n in chosen && UserKey(queue[n]) == user {
      assert after == before + {queue[n]};
    } else {
      assert after == before;
    }
  }

  lemma {:induction false} UserJobsCount(queue: seq<Job>, chosen: set<nat>, held: nat -> multiset<string>, n: nat,
        user: string)
    requires n <= |queue| && DistinctIds(queue) && Holds(held, queue, chosen)
    ensures |UserJobs(queue, chosen, n, user)| == held(n)[user]
  {
    if n == 0 {
      assert UserJobs(queue, chosen, 0, user) == {};
    } else {
      UserJobsCount(queue, chosen, held, n - 1, user);
      UserJobsStep(queue, chosen, n - 1, user);
      assert HoldsAt(held, queue, chosen, n - 1);
      WithUserAt(held(n - 1), queue[n - 1], n - 1 in chosen, user);
    }
  }

  lemma UsersAreJobs(queue: seq<Job>, chosen: set<nat>, n: nat, user: string)
    requires n <= |queue| && DistinctIds(queue)
    ensures |UserJobs(queue, chosen, n, user)| == Users(queue, chosen, n)[user]
  {
    UserJobsCount(queue, chosen, Held(queue, chosen), n, user);
  }

  function JobsBelow(queue: seq<Job>, chosen: set<nat>, n: nat): set<Job> {
    set i | i in chosen && i < n && i < |queue| :: queue[i]
  }

  lemma JobsBelowNext(queue: seq<Job>, chosen: set<nat>, n: nat)
    requires n < |queue|
    ensures JobsBelow(queue, chosen, n + 1) == JobsBelow(queue, chosen, n) + (if n in chosen then {queue[n]} else {})
  {
  }

  lemma JobsBelowStep(queue: seq<Job>, chosen: set<nat>, n: nat)
    requires n < |queue| && DistinctIds(queue)
    ensures |JobsBelow(queue, chosen, n + 1)| == |JobsBelow(queue, chosen, n)| + (if n in chosen then 1 else 0)
  {
    JobsBelowNext(queue, chosen, n);
    assert queue[n] !in JobsBelow(queue, chosen, n);
  }

  lemma {:induction false} JobsBelowCount(queue: seq<Job>, chosen: set<nat>, n: nat)
    requires n <= |queue| && DistinctIds(queue)
    ensures |JobsBelow(queue, chosen, n)| == |Below(chosen, n)|
  {
    if n == 0 {
      assert Below(chosen, 0) == {} && JobsBelow(queue, chosen, 0) == {};
    } else {
      JobsBelowCount(queue, chosen, n - 1);
      JobsBelowStep(queue, chosen, n - 1);
      BelowStep(chosen, n - 1);
    }
  }

  lemma JobsOfCount(queue: seq<Job>, chosen: set<nat>)
    requires DistinctIds(queue) && forall i | i in chosen :: i < |queue|
    ensures |JobsOf(queue, chosen)| == |chosen|
  {
    assert JobsOf(queue, chosen) == JobsBelow(queue, chosen, |queue|);
    JobsBelowCount(queue, chosen, |queue|);
    AllBelow(queue, chosen);
  }

  // ----- what can be started in some order -----------------------------------------------------------

  /** The user's jobs of limit at most `limit`. */
  function Stricter(jobs: set<Job>, user: string, limit: int, cfg: Config): set<Job> {
    set j | j in jobs && UserKey(j) == user && UserLimit(j, cfg) <= limit
  }

  /** Free slots for all, and for each job room for all the user's jobs that are no less strict. */
  ghost predicate Orderable(s: State, jobs: set<Job>, cfg: Config) {
    && (jobs != {} ==> |s.tasks| + |jobs| <= cfg.concurrency)
    && forall j | j in jobs :: OrderableAt(s, jobs, cfg, j)
  }

  ghost predicate OrderableAt(s: State, jobs: set<Job>, cfg: Config, j: Job) {
    && j.id !in s.tasks
    && Running(s, UserKey(j)) + |Stricter(jobs, UserKey(j), UserLimit(j, cfg), cfg)| <= UserLimit(j, cfg)
  }

  /** The last position below `n` of a chosen job of the user within the limit. */
  lemma {:induction false} LastStricter(queue: seq<Job>, chosen: set<nat>, user: string, limit: int, cfg: Config,
        n: nat, i: nat)
    returns (last: nat)
    requires i in chosen && i < n <= |queue| && UserKey(queue[i]) == user && UserLimit(queue[i], cfg) <= limit
    ensures last in chosen && last < n && UserKey(queue[last]) == user && UserLimit(queue[last], cfg) <= limit
    ensures forall k | k in chosen && last < k < n && UserKey(queue[k]) == user :: UserLimit(queue[k], cfg) > limit
  {
    var k := n - 1;
    if k in chosen && UserKey(queue[k]) == user && UserLimit(queue[k], cfg) <= limit {
      last := k;
    } else {
      last := LastStricter(queue, chosen, user, limit, cfg, k, i);
    }
  }

  /** Up to that position there is one more job of the user than before it. */
  lemma StricterUpTo(queue: seq<Job>, chosen: set<nat>, user: string, limit: int, cfg: Config, last: nat)
    requires DistinctIds(queue) && last < |queue|
    requires forall k | k in chosen && last < k < |queue| && UserKey(queue[k]) == user ::
      UserLimit(queue[k], cfg) > limit
    ensures |Stricter(JobsOf(queue, chosen), user, limit, cfg)| <= Users(queue, chosen, last)[user] + 1
  {
    var strict, before := Stricter(JobsOf(queue, chosen), user, limit, cfg), UserJobs(queue, chosen, last, user);
    UsersAreJobs(queue, chosen, last, user);
    forall j | j in strict ensures j in before + {queue[last]} {
      var k :| k in chosen && k < |queue| && queue[k] == j;
      assert k <= last;
    }
    UnionBound(strict, before, {queue[last]});
  }

  lemma StrictestFit(s: State, queue: seq<Job>, cfg: Config, chosen: set<nat>, i: nat)
    requires DistinctIds(queue) && Startable(s, queue, cfg, chosen) && i in chosen
    ensures i < |queue| && OrderableAt(s, JobsOf(queue, chosen), cfg, queue[i])
  {
    assert StartableAt(s, queue, cfg, chosen, i);
    var user, limit := UserKey(queue[i]), UserLimit(queue[i], cfg);
    var last := LastStricter(queue, chosen, user, limit, cfg, |queue|, i);
    assert StartableAt(s, queue, cfg, chosen, last);
    StricterUpTo(queue, chosen, user, limit, cfg, last);
  }

  /** Whatever is startable in the order of some queue is orderable. */
  lemma StartableIsOrderable(s: State, queue: seq<Job>, cfg: Config, chosen: set<nat>)
    requires DistinctIds(queue) && Startable(s, queue, cfg, chosen)
    ensures Orderable(s, JobsOf(queue, chosen), cfg) && |JobsOf(queue, chosen)| == |chosen|
  {
    forall i | i in chosen ensures i < |queue| {
      assert StartableAt(s, queue, cfg, chosen, i);
    }
    JobsOfCount(queue, chosen);
    AllBelow(queue, chosen);
    SlotsOf(s, queue, cfg, chosen, |queue|);
    forall j | j in JobsOf(queue, chosen) ensures OrderableAt(s, JobsOf(queue, chosen), cfg, j) {
      var i :| i in chosen && i < |queue| && queue[i] == j;
      StrictestFit(s, queue, cfg, chosen, i);
    }
  }

  function Positions(queue: seq<Job>, jobs: set<Job>): set<nat> {
    set i: nat | i < |queue| && queue[i] in jobs
  }

  lemma EarlierIsStricter(queue: seq<Job>, jobs: set<Job>, cfg: Config, k: nat, i: nat)
    requires LimitsAscend(queue, cfg.maxPerUser) && k <= i < |queue| && queue[k] in jobs
    requires UserKey(queue[k]) == UserKey(queue[i])
    ensures queue[k] in Stricter(jobs, UserKey(queue[i]), UserLimit(queue[i], cfg), cfg)
  {
    assert k < i ==> Limit(queue[k], cfg.maxPerUser) <= Limit(queue[i], cfg.maxPerUser);
  }

  lemma OneMore(few: set<Job>, job: Job, many: set<Job>)
    requires few <= many && job in many && job !in few
    ensures |few| < |many|
  {
    SubsetCount(few + {job}, many);
  }

  lemma EarlierAreStricter(queue: seq<Job>, jobs: set<Job>, cfg: Config, i: nat)
    requires DistinctIds(queue) && LimitsAscend(queue, cfg.maxPerUser) && i in Positions(queue, jobs)
    ensures Users(queue, Positions(queue, jobs), i)[UserKey(queue[i])] <
      |Stricter(jobs, UserKey(queue[i]), UserLimit(queue[i], cfg), cfg)|
  {
    var user, chosen := UserKey(queue[i]), Positions(queue, jobs);
    var earlier, strict := UserJobs(queue, chosen, i, user), Stricter(jobs, user, UserLimit(queue[i], cfg), cfg);
    UsersAreJobs(queue, chosen, i, user);
    forall j | j in earlier ensures j in strict {
      var k :| k in chosen && k < i && k < |queue| && UserKey(queue[k]) == user && queue[k] == j;
      EarlierIsStricter(queue, jobs, cfg, k, i);
    }
    EarlierIsStricter(queue, jobs, cfg, i, i);
    OneMore(earlier, queue[i], strict);
  }

  lemma PositionsCount(queue: seq<Job>, jobs: set<Job>)
    requires DistinctIds(queue) && forall j | j in jobs :: j in queue
    ensures |Positions(queue, jobs)| == |jobs|
  {
    var chosen := Positions(queue, jobs);
    JobsOfCount(queue, chosen);
    forall j | j in jobs ensures j in JobsOf(queue, chosen) {
      var i :| 0 <= i < |queue| && queue[i] == j;
      assert i in chosen;
    }
    assert JobsOf(queue, chosen) == jobs;
  }

  /** With ascending limits, whatever is orderable can be started in queue order. */
  lemma OrderableIsStartable(s: State, queue: seq<Job>, cfg: Config, jobs: set<Job>)
    requires DistinctIds(queue) && LimitsAscend(queue, cfg.maxPerUser)
    requires Orderable(s, jobs, cfg) && forall j | j in jobs :: j in queue
    ensures Startable(s, queue, cfg, Positions(queue, jobs)) && |Positions(queue, jobs)| == |jobs|
  {
    var chosen := Positions(queue, jobs);
    PositionsCount(queue, jobs);
    forall i | i in chosen ensures StartableAt(s, queue, cfg, chosen, i) {
      assert OrderableAt(s, jobs, cfg, queue[i]);
      EarlierAreStricter(queue, jobs, cfg, i);
      BelowIsFewer(chosen, i);
    }
  }

  lemma DispatchBeatsWhole(s: State, queue: seq<Job>, cfg: Config, chosen: set<nat>)
    requires DistinctIds(queue) && Startable(s, queue, cfg, chosen)
    ensures |chosen| <= |Started(s, queue, cfg)|
  {
    forall i | i in chosen ensures i < |queue| {
      assert StartableAt(s, queue, cfg, chosen, i);
    }
    DispatchBeatsStartable(s, queue, cfg, chosen, |queue|);
    AllBelow(queue, chosen);
    AllBelow(queue, Started(s, queue, cfg));
  }

  // ----- the condition suffices -------------------------------------------------------------------------

  lemma TwiceCounted(queue: seq<Job>, i: nat, j: nat)
    requires i < j < |queue| && queue[i] == queue[j]
    ensures multiset(queue)[queue[i]] >= 2
  {
    assert queue == queue[..i] + [queue[i]] + queue[i + 1..j] + [queue[j]] + queue[j + 1..];
  }

  lemma {:induction false} OnceCounted(queue: seq<Job>, job: Job)
    requires DistinctIds(queue)
    ensures multiset(queue)[job] <= 1
  {
    if queue != [] {
      OnceCounted(queue[1..], job);
      assert queue == [queue[0]] + queue[1..];
      if job == queue[0] {
        assert job !in queue[1..];
      }
    }
  }

  lemma SameMembers(other: seq<Job>, queue: seq<Job>)
    requires Rearranges(other, queue)
    ensures forall j :: j in other <==> j in queue
  {
    assert forall j :: j in other <==> j in multiset(other);
    assert forall j :: j in queue <==> j in multiset(queue);
  }

  lemma RearrangedIsDistinct(other: seq<Job>, queue: seq<Job>)
    requires Rearranges(other, queue) && DistinctIds(queue)
    ensures DistinctIds(other)
  {
    SameMembers(other, queue);
    forall i, j | 0 <= i < j < |other| ensures other[i].id != other[j].id {
      assert other[i] in queue && other[j] in queue;
      if other[i] == other[j] {
        TwiceCounted(other, i, j);
        OnceCounted(queue, other[i]);
      }
    }
  }

  lemma AscendingIsBest(s: State, other: seq<Job>, queue: seq<Job>, cfg: Config)
    requires DistinctIds(queue) && LimitsAscend(queue, cfg.maxPerUser) && Rearranges(other, queue)
    ensures StartsNoMore(s, other, queue, cfg)
  {
    var started := Started(s, other, cfg);
    var jobs := JobsOf(other, started);
    RearrangedIsDistinct(other, queue);
    SameMembers(other, queue);
    StartedIsStartable(s, other, cfg);
    StartableIsOrderable(s, other, cfg, started);
    OrderableIsStartable(s, queue, cfg, jobs);
    DispatchBeatsWhole(s, queue, cfg, Positions(queue, jobs));
  }

  // ----- the condition is needed -------------------------------------------------------------------------

  /** The two jobs at `i` and `j` change places. */
  function Swapped(queue: seq<Job>, i: nat, j: nat): (other: seq<Job>)
    requires i < j < |queue|
    ensures |other| == |queue| && Rearranges(other, queue)
  {
    queue[i := queue[j]][j := queue[i]]
  }

  /** Only the jobs at `i` and `j` could start: of one user, the looser ahead of the stricter, with
      room for one stricter job and two free slots. */
  ghost predicate Tight(s: State, queue: seq<Job>, cfg: Config, i: nat, j: nat) {
    && i < j < |queue| && UserKey(queue[i]) == UserKey(queue[j])
    && UserLimit(queue[i], cfg) > UserLimit(queue[j], cfg) == Running(s, UserKey(queue[j])) + 1
    && cfg.concurrency == |s.tasks| + 2
    && forall k | 0 <= k < |queue| :: queue[k].id in s.tasks <==> k != i && k != j
  }

  lemma TightStartsOne(s: State, queue: seq<Job>, cfg: Config, i: nat, j: nat)
    requires DistinctIds(queue) && Tight(s, queue, cfg, i, j)
    ensures |Started(s, queue, cfg)| <= 1
  {
    var started := Started(s, queue, cfg);
    StartedIsStartable(s, queue, cfg);
    forall k | k in started ensures k == i || k == j {
      assert StartableAt(s, queue, cfg, started, k);
    }
    if i in started && j in started {
      assert StartableAt(s, queue, cfg, started, j);
      UsersGrow(queue, started, i, j, UserKey(queue[j]));
      assert false;
    }
    SubsetCount(started, if i in started then {i} else {j});
  }

  lemma PairUsers(queue: seq<Job>, i: nat, j: nat, user: string)
    requires DistinctIds(queue) && i < j < |queue| && UserKey(queue[i]) == user
    ensures Users(queue, {i, j}, i)[user] == 0 && Users(queue, {i, j}, j)[user] == 1
    ensures |Below({i, j}, i)| == 0 && |Below({i, j}, j)| == 1
  {
    var chosen := {i, j};
    UsersAreJobs(queue, chosen, i, user);
    UsersAreJobs(queue, chosen, j, user);
    assert UserJobs(queue, chosen, i, user) == {};
    assert UserJobs(queue, chosen, j, user) == {queue[i]};
    assert Below(chosen, i) == {} && Below(chosen, j) == {i};
  }

  lemma TightSwappedStartable(s: State, queue: seq<Job>, cfg: Config, i: nat, j: nat)
    requires DistinctIds(queue) && Tight(s, queue, cfg, i, j) && DistinctIds(Swapped(queue, i, j))
    ensures Startable(s, Swapped(queue, i, j), cfg, {i, j})
  {
    var other, chosen: set<nat> := Swapped(queue, i, j), {i, j};
    PairUsers(other, i, j, UserKey(queue[i]));
    forall k | k in chosen ensures StartableAt(s, other, cfg, chosen, k) {
    }
  }

  lemma TightSwappedStartsTwo(s: State, queue: seq<Job>, cfg: Config, i: nat, j: nat)
    requires DistinctIds(queue) && Tight(s, queue, cfg, i, j)
    ensures |Started(s, Swapped(queue, i, j), cfg)| >= 2
  {
    var other, chosen: set<nat> := Swapped(queue, i, j), {i, j};
    RearrangedIsDistinct(other, queue);
    TightSwappedStartable(s, queue, cfg, i, j);
    DispatchBeatsWhole(s, other, cfg, chosen);
  }

  /** Every other queued job is a task already, and the user is one below the stricter limit. */
  function TightState(queue: seq<Job>, i: nat, j: nat, count: int): State
    requires i < j < |queue|
  {
    State(map k | 0 <= k < |queue| && k != i && k != j :: queue[k].id := 0, map[UserKey(queue[j]) := count], map[], 0)
  }

  lemma DescentCosts(queue: seq<Job>, maxPerUser: int, i: nat, j: nat)
    requires DistinctIds(queue) && i < j < |queue| && UserKey(queue[i]) == UserKey(queue[j])
    requires Limit(queue[i], maxPerUser) > Limit(queue[j], maxPerUser)
    ensures !OrderCannotHelp(queue, maxPerUser)
  {
    var s := TightState(queue, i, j, Limit(queue[j], maxPerUser) - 1);
    var cfg := Config(|s.tasks| + 2, maxPerUser);
    assert Tight(s, queue, cfg, i, j);
    TightStartsOne(s, queue, cfg, i, j);
    TightSwappedStartsTwo(s, queue, cfg, i, j);
    assert !StartsNoMore(s, Swapped(queue, i, j), queue, cfg);
  }

  /** Over all contents of the scheduler and all numbers of slots, no other order of the queue starts
      more jobs than a dispatch if and only if no user has a larger limit ahead of a smaller one. */
  lemma QueueOrderIsBestIff(queue: seq<Job>, maxPerUser: int)
    requires DistinctIds(queue)
    ensures OrderCannotHelp(queue, maxPerUser) <==> LimitsAscend(queue, maxPerUser)
  {
    if LimitsAscend(queue, maxPerUser) {
      forall s, concurrency, other | Rearranges(other, queue)
        ensures StartsNoMore(s, other, queue, Config(concurrency, maxPerUser))
      {
        AscendingIsBest(s, other, queue, Config(concurrency, maxPerUser));
      }
    } else {
      var i, j :| 0 <= i < j < |queue| && UserKey(queue[i]) == UserKey(queue[j])
        && Limit(queue[i], maxPerUser) > Limit(queue[j], maxPerUser);
      DescentCosts(queue, maxPerUser, i, j);
    }
  }

  // ----- only what the scheduler can reach -----------------------------------------------------------------

  function Among(jobs: set<Job>): Job -> bool {
    j => j in jobs
  }

  /** The jobs of the queue that are still waiting, in queue order. */
  function StillWaiting(queue: seq<Job>, waiting: set<Job>): seq<Job> {
    Filter(queue, Among(waiting))
  }

  /** As long as the books balance, and whichever jobs of the queue are still waiting, no other order of
      them starts more. */
  ghost predicate OrderNeverHelps(queue: seq<Job>, maxPerUser: int) {
    forall s, concurrency, waiting, other |
        BooksBalance(s, Config(concurrency, maxPerUser)) && Rearranges(other, StillWaiting(queue, waiting)) ::
      StartsNoMore(s, other, StillWaiting(queue, waiting), Config(concurrency, maxPerUser))
  }

  lemma {:induction false} WaitingAscend(queue: seq<Job>, waiting: set<Job>, maxPerUser: int)
    requires LimitsAscend(queue, maxPerUser)
    ensures LimitsAscend(StillWaiting(queue, waiting), maxPerUser)
  {
    if queue != [] {
      var rest := StillWaiting(queue[1..], waiting);
      WaitingAscend(queue[1..], waiting, maxPerUser);
      FilterMembers(queue[1..], Among(waiting));
      forall j | 0 <= j < |rest| && UserKey(rest[j]) == UserKey(queue[0])
        ensures Limit(queue[0], maxPerUser) <= Limit(rest[j], maxPerUser)
      {
        assert rest[j] in queue[1..];
        var k :| 0 <= k < |queue[1..]| && queue[1..][k] == rest[j];
        assert queue[k + 1] == rest[j];
      }
    }
  }

  lemma {:induction false} NoneWaiting(queue: seq<Job>, waiting: set<Job>)
    requires forall j | j in queue :: j !in waiting
    ensures StillWaiting(queue, waiting) == []
  {
    if queue != [] {
      NoneWaiting(queue[1..], waiting);
    }
  }

  lemma {:induction false} OneWaiting(queue: seq<Job>, job: Job, waiting: set<Job>, j: nat)
    requires DistinctIds(queue) && j < |queue| && queue[j] == job && job in waiting
    requires forall k | 0 <= k < |queue| && k != j :: queue[k] !in waiting
    ensures StillWaiting(queue, waiting) == [job]
  {
    if j == 0 {
      NoneWaiting(queue[1..], waiting);
    } else {
      OneWaiting(queue[1..], job, waiting, j - 1);
    }
  }

  lemma {:induction false} TwoWaiting(queue: seq<Job>, i: nat, j: nat, waiting: set<Job>)
    requires DistinctIds(queue) && i < j < |queue| && queue[i] in waiting && queue[j] in waiting
    requires forall k | 0 <= k < |queue| && k != i && k != j :: queue[k] !in waiting
    ensures StillWaiting(queue, waiting) == [queue[i], queue[j]]
  {
    if i == 0 {
      OneWaiting(queue[1..], queue[j], waiting, j - 1);
    } else {
      TwoWaiting(queue[1..], i - 1, j - 1, waiting);
    }
  }

  /** A job of the user under a name of the given length. */
  function Filler(user: string, length: nat): Job {
    Job(seq(length, i => '#'), user, 0, Unlimited, Queued, 0.0, 0.0)
  }

  /** The user is running `count` jobs, under names longer than `length`, and nobody else any. */
  ghost predicate Busy(s: State, user: string, count: nat, length: nat) {
    && Running(s, user) == count && |s.tasks| == count
    && forall id | id in s.tasks :: length < |id| <= length + count
  }

  lemma BusyStep(s: State, user: string, count: nat, length: nat, cfg: Config)
    requires BooksBalance(s, cfg) && Busy(s, user, count, length)
    requires user != "" && count < cfg.maxPerUser && count < cfg.concurrency
    ensures var t := Start(s, Filler(user, length + count + 1));
      BooksBalance(t, cfg) && Busy(t, user, count + 1, length)
  {
    StartKeepsBooks(s, Filler(user, length + count + 1), cfg);
  }

  lemma {:induction false} BusyIsReachable(user: string, count: nat, length: nat, cfg: Config) returns (s: State)
    requires user != "" && count <= cfg.maxPerUser && count <= cfg.concurrency
    ensures BooksBalance(s, cfg) && Busy(s, user, count, length)
  {
    if count == 0 {
      s := State(map[], map[], map[], 0);
      IdleBooks(cfg);
    } else {
      var before := BusyIsReachable(user, count - 1, length, cfg);
      BusyStep(before, user, count - 1, length, cfg);
      s := Start(before, Filler(user, length + count));
    }
  }

  lemma PairIsTight(first: Job, second: Job, maxPerUser: int) returns (s: State, cfg: Config)
    requires first.id != second.id && UserKey(first) == UserKey(second)
    requires Limit(first, maxPerUser) > Limit(second, maxPerUser)
    ensures cfg.maxPerUser == maxPerUser && BooksBalance(s, cfg) && Tight(s, [first, second], cfg, 0, 1)
  {
    var count := Limit(second, maxPerUser) - 1;
    cfg := Config(count + 2, maxPerUser);
    s := BusyIsReachable(UserKey(second), count, |first.id| + |second.id|, cfg);
  }

  lemma DescentCostsReachably(queue: seq<Job>, maxPerUser: int, i: nat, j: nat)
    requires DistinctIds(queue) && i < j < |queue| && UserKey(queue[i]) == UserKey(queue[j])
    requires Limit(queue[i], maxPerUser) > Limit(queue[j], maxPerUser)
    ensures !OrderNeverHelps(queue, maxPerUser)
  {
    var waiting, pair := {queue[i], queue[j]}, [queue[i], queue[j]];
    TwoWaiting(queue, i, j, waiting);
    var s, cfg := PairIsTight(queue[i], queue[j], maxPerUser);
    TightStartsOne(s, pair, cfg, 0, 1);
    TightSwappedStartsTwo(s, pair, cfg, 0, 1);
    assert !StartsNoMore(s, Swapped(pair, 0, 1), StillWaiting(queue, waiting), cfg);
  }

  /** The same condition decides the matter for balanced books alone, as the jobs of the queue leave it:
      no other order of those still waiting ever starts more if and only if no user has a larger limit
      ahead of a smaller one. */
  lemma WaitingOrderIsBestIff(queue: seq<Job>, maxPerUser: int)
    requires DistinctIds(queue)
    ensures OrderNeverHelps(queue, maxPerUser) <==> LimitsAscend(queue, maxPerUser)
  {
    if LimitsAscend(queue, maxPerUser) {
      forall s, concurrency, waiting, other |
          BooksBalance(s, Config(concurrency, maxPerUser)) && Rearranges(other, StillWaiting(queue, waiting))
        ensures StartsNoMore(s, other, StillWaiting(queue, waiting), Config(concurrency, maxPerUser))
      {
        FilterDistinct(queue, Among(waiting));
        WaitingAscend(queue, waiting, maxPerUser);
        AscendingIsBest(s, other, StillWaiting(queue, waiting), Config(concurrency, maxPerUser));
      }
    } else {
      var i, j :| 0 <= i < j < |queue| && UserKey(queue[i]) == UserKey(queue[j])
        && Limit(queue[i], maxPerUser) > Limit(queue[j], maxPerUser);
      DescentCostsReachably(queue, maxPerUser, i, j);
    }
  }
}
