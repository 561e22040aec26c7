/** Admission to the shared free pool, on top of the consumers' protocol: the count, the cap, and the
    active sets, in every interleaving. */
module FreePool {
  import opened JobCore

  /** How far a submission has come. */
  datatype Stage = Counting | Admitted | Stored | Active | Submitted | Refused

  /** A submission and what its count saw: `order` numbers the submissions by when they arrived,
      `members` is the active set it read, `read` the members whose status it has looked up,
      `finished` those it found finished; `overlap` are the free submissions under way when it
      began. */
  datatype Sub = Sub(
    stage: Stage,
    tier: Tier,
    order: nat,
    members: set<Id>,
    read: set<Id>,
    finished: set<Id>,
    overlap: set<Id>)

  datatype State = State(core: Core, subs: map<Id, Sub>, free: set<Id>, paid: set<Id>)

  /** `limit` caps the free pool; at most `overlap` free submissions are under way at a time;
      `shared` tells the Redis store from the in-memory one. */
  datatype Config = Config(limit: int, overlap: nat, shared: bool)

  datatype Move =
    | Arrive(id: Id, tier: Tier)           // a submission that is not counted
    | CountNow(id: Id)                     // the in-memory count: one look at the size
    | BeginCount(id: Id)                   // the Redis count: read the members ...
    | ReadStatus(id: Id, member: Id)       // ... then their statuses, one by one ...
    | Decide(id: Id)                       // ... then prune and compare
    | Abandon(id: Id)                      // a request that fails validation
    | Store(id: Id)
    | AddActive(id: Id)
    | Submit(id: Id)
    | Work(e: Event)                       // a consumer's step that touches no active set
    | GiveBack(c: nat)                     // a consumer releases the slot and turns idle

  // ----- steps -------------------------------------------------------------------------------------------

  function ActiveOf(s: State, tier: Tier): set<Id> {
    match tier
    case Untiered => {}
    case Free => s.free
    case Paid => s.paid
  }

  function Added(s: State, tier: Tier, id: Id): State {
    match tier
    case Untiered => s
    case Free => s.(free := s.free + {id})
    case Paid => s.(paid := s.paid + {id})
  }

  function Removed(s: State, tier: Tier, id: Id): State {
    match tier
    case Untiered => s
    case Free => s.(free := s.free - {id})
    case Paid => s.(paid := s.paid - {id})
  }

  predicate AtStage(s: State, id: Id, stage: Stage) {
    id in s.subs && s.subs[id].stage == stage
  }

  /** A free submission between the start of its count and its entry in the active set. */
  predicate UnderWay(s: State, id: Id) {
    id in s.subs && s.subs[id].tier == Free && s.subs[id].stage in {Counting, Admitted, Stored}
  }

  function AllUnderWay(s: State): set<Id> {
    set id | id in s.subs && UnderWay(s, id)
  }

  predicate IsWork(e: Event) {
    !e.Create? && !e.Enqueue? && !e.Release?
  }

  predicate CanMove(s: State, m: Move, cfg: Config) {
    match m
    case Arrive(id, tier) => id !in s.subs && tier != Free
    case CountNow(id) => !cfg.shared && id !in s.subs && |AllUnderWay(s)| < cfg.overlap
    case BeginCount(id) => cfg.shared && id !in s.subs && |AllUnderWay(s)| < cfg.overlap
    case ReadStatus(id, member) => AtStage(s, id, Counting) && member in s.subs[id].members - s.subs[id].read
    case Decide(id) => AtStage(s, id, Counting) && s.subs[id].read == s.subs[id].members
    case Abandon(id) => AtStage(s, id, Admitted)
    case Store(id) => AtStage(s, id, Admitted) && Enabled(s.core, Create(id, s.subs[id].tier))
    case AddActive(id) => AtStage(s, id, Stored)
    case Submit(id) => AtStage(s, id, Active) && Enabled(s.core, Enqueue(id))
    case Work(e) => IsWork(e) && Enabled(s.core, e)
    case GiveBack(c) => Enabled(s.core, Release(c))
  }

  function Staged(s: State, id: Id, stage: Stage): State
    requires id in s.subs
  {
    s.(subs := s.subs[id := s.subs[id].(stage := stage)])
  }

  /** The tier that the consumer read with the job. */
  function TierOf(s: Core, id: Id): Tier {
    if id in s.jobs then s.jobs[id].tier else Untiered
  }

  function Outcome(s: State, m: Move, cfg: Config): State
    requires CanMove(s, m, cfg)
  {
    match m
    case Arrive(id, tier) => s.(subs := s.subs[id := Sub(Admitted, tier, |s.subs|, {}, {}, {}, {})])
    case CountNow(id) =>
      var verdict := if |s.free| >= cfg.limit then Refused else Admitted;
      s.(subs := s.subs[id := Sub(verdict, Free, |s.subs|, s.free, s.free, {}, AllUnderWay(s))])
    case BeginCount(id) =>
      s.(subs := s.subs[id := Sub(Counting, Free, |s.subs|, s.free, {}, {}, AllUnderWay(s))])
    case ReadStatus(id, member) => ReadStep(s, id, member)
    case Decide(id) => DecideStep(s, id, cfg)
    case Abandon(id) => Staged(s, id, Refused)
    case Store(id) => Staged(s.(core := Step(s.core, Create(id, s.subs[id].tier))), id, Stored)
    case AddActive(id) => Staged(Added(s, s.subs[id].tier, id), id, Active)
    case Submit(id) => Staged(s.(core := Step(s.core, Enqueue(id))), id, Submitted)
    case Work(e) => s.(core := Step(s.core, e))
    case GiveBack(c) =>
      var id := PhaseOf(s.core, c).id;
      Removed(s.(core := Step(s.core, Release(c))), TierOf(s.core, id), id)
  }

  /** A member is finished when its record is missing or its status is neither queued nor processing. */
  function ReadStep(s: State, id: Id, member: Id): State
    requires id in s.subs
  {
    var sub := s.subs[id];
    var over := member !in s.core.jobs || Terminal(s.core.jobs[member].status);
    var finished := sub.finished + (if over then {member} else {});
    s.(subs := s.subs[id := sub.(read := sub.read + {member}, finished := finished)])
  }

  function DecideStep(s: State, id: Id, cfg: Config): State
    requires id in s.subs
  {
    var sub := s.subs[id];
    var verdict := if |sub.members| - |sub.finished| >= cfg.limit then Refused else Admitted;
    Staged(s.(free := s.free - sub.finished), id, verdict)
  }

  // ----- the books of the pool -------------------------------------------------------------------------------

  /** The record, the stage and the active sets of one job fit together. */
  ghost predicate BooksOk(s: State, id: Id) {
    && (id in s.core.jobs <==> id in s.subs && s.subs[id].stage in {Stored, Active, Submitted})
    && (id in s.core.enqueued <==> AtStage(s, id, Submitted))
    && (id in s.core.jobs ==> s.core.jobs[id].tier == s.subs[id].tier)
    && (AtStage(s, id, Counting) ==> s.subs[id].tier == Free)
    && OnlyUnreleased(s, id) && AllLive(s, id)
  }

  predicate Entered(s: State, id: Id) {
    id in s.subs && s.subs[id].stage in {Active, Submitted}
  }

  /** An active set holds only jobs that were added to it and not yet released. */
  ghost predicate OnlyUnreleased(s: State, id: Id) {
    (id in s.free ==> Unreleased(s, id, Free)) && (id in s.paid ==> Unreleased(s, id, Paid))
  }

  ghost predicate Unreleased(s: State, id: Id, tier: Tier) {
    && Entered(s, id) && s.subs[id].tier == tier
    && (IsTerminal(s.core, id) ==> Held(s.core, id))
  }

  /** A job that was added and is not finished is in the active set of its tier. */
  ghost predicate AllLive(s: State, id: Id) {
    Entered(s, id) && s.subs[id].tier != Untiered && !IsTerminal(s.core, id) ==> id in ActiveOf(s, s.subs[id].tier)
  }

  /** A free submission that was refused, or whose job is finished. */
  predicate Over(s: State, id: Id) {
    AtStage(s, id, Refused) || IsTerminal(s.core, id)
  }

  /** What a count has seen stays true. */
  ghost predicate CountOk(s: State, id: Id, cfg: Config) {
    id in s.subs && s.subs[id].tier == Free ==>
      var sub := s.subs[id];
      && sub.order < |s.subs| && |sub.overlap| < cfg.overlap
      && sub.finished <= sub.read <= sub.members
      && (forall m | m in sub.members :: m in s.core.jobs)
      && (forall m | m in sub.finished :: IsTerminal(s.core, m))
      && (sub.stage != Counting && sub.stage != Refused ==> |sub.members| - |sub.finished| < cfg.limit)
  }

  /** A free submission older than `b` was in the active set that `b` read, or under way with it, or
      is over. */
  ghost predicate Seen(s: State, a: Id, b: Id) {
    a in s.subs && b in s.subs && s.subs[a].tier == Free && s.subs[b].tier == Free && a != b ==>
      && s.subs[a].order != s.subs[b].order
      && (s.subs[a].order < s.subs[b].order ==> a in s.subs[b].members || a in s.subs[b].overlap || Over(s, a))
  }

  ghost predicate PoolInv(s: State, cfg: Config) {
    && Inv(s.core)
    && (forall id :: BooksOk(s, id))
    && (forall id :: CountOk(s, id, cfg))
    && (forall a, b :: Seen(s, a, b))
  }

  ghost predicate Start(s: State) {
    Initial(s.core) && s.subs == map[] && s.free == {} && s.paid == {}
  }

  lemma StartInv(s: State, cfg: Config)
    requires Start(s)
    ensures PoolInv(s, cfg)
  {
    InitialInv(s.core);
  }

  // ----- what a consumer's step can change -------------------------------------------------------------------

  /** No record goes, no tier changes, and what is finished stays finished. */
  ghost predicate Grows(s: Core, t: Core) {
    forall id :: GrowsAt(s, t, id)
  }

  ghost predicate GrowsAt(s: Core, t: Core, id: Id) {
    && (id in s.jobs ==> id in t.jobs && t.jobs[id].tier == s.jobs[id].tier)
    && (IsTerminal(s, id) ==> IsTerminal(t, id))
  }

  lemma StepGrows(s: Core, e: Event)
    requires Inv(s) && Enabled(s, e)
    ensures Grows(s, Step(s, e))
  {
    forall id ensures GrowsAt(s, Step(s, e), id) {
      if id in s.jobs {
        StepKeepsTerminal(s, e, id);
      }
    }
  }

  /** Besides, a step of work neither stores nor enqueues, drops nobody's job, and finishes only a job
      that stays in its consumer's hands. */
  ghost predicate WorksAt(s: Core, t: Core, id: Id) {
    && (id in t.jobs <==> id in s.jobs) && (id in t.enqueued <==> id in s.enqueued)
    && (Held(s, id) ==> Held(t, id))
    && (IsTerminal(t, id) && !IsTerminal(s, id) ==> Held(t, id))
  }

  /** A consumer at work keeps its job, unless it has just read it. */
  lemma HoldsStays(s: Core, e: Event, c: nat, id: Id)
    requires Enabled(s, e) && IsWork(e) && !e.Load? && Holds(s, c, id)
    ensures Holds(Step(s, e), c, id)
  {
  }

  lemma HeldStays(s: Core, e: Event, id: Id)
    requires Inv(s) && Enabled(s, e) && IsWork(e) && Held(s, id)
    ensures Held(Step(s, e), id)
  {
    var c :| Holds(s, c, id);
    if e.Load? {
      LoadFindsItQueued(s, e.c);
      assert Holds(Step(s, e), c, id);
    } else {
      HoldsStays(s, e, c, id);
    }
  }

  lemma FinishedIsHeld(s: Core, e: Event, id: Id)
    requires Inv(s) && Enabled(s, e) && IsWork(e) && IsTerminal(Step(s, e), id) && !IsTerminal(s, id)
    ensures Held(Step(s, e), id)
  {
    var t := Step(s, e);
    match e
    case Dequeue(_, _) => assert false;
    case Load(_) => assert false;
    case MarkProcessing(_) => assert false;
    case StartSynthesis(_) => assert false;
    case Report(_, _) => assert false;
    case Land(_) => assert false;
    case Finish(c, _) => assert Holds(t, c, id);
  }

  lemma WorkFrame(s: Core, e: Event, id: Id)
    requires Inv(s) && Enabled(s, e) && IsWork(e)
    ensures WorksAt(s, Step(s, e), id)
  {
    if Held(s, id) {
      HeldStays(s, e, id);
    }
    if IsTerminal(Step(s, e), id) && !IsTerminal(s, id) {
      FinishedIsHeld(s, e, id);
    }
  }

  // ----- frames for the submissions' side ----------------------------------------------------------------------

  /** The submission keeps what its count saw. */
  ghost predicate SameSight(s: State, t: State, id: Id) {
    id in s.subs && id in t.subs
      && t.subs[id].tier == s.subs[id].tier && t.subs[id].order == s.subs[id].order
      && t.subs[id].members == s.subs[id].members && t.subs[id].overlap == s.subs[id].overlap
  }

  lemma SeenStays(s: State, t: State, a: Id, b: Id)
    requires Seen(s, a, b) && SameSight(s, t, a) && SameSight(s, t, b) && (Over(s, a) ==> Over(t, a))
    ensures Seen(t, a, b)
  {
  }

  /** All submissions are as they were. */
  lemma SeenStaysForAll(s: State, t: State)
    requires forall a, b :: Seen(s, a, b)
    requires s.subs.Keys == t.subs.Keys && forall id | id in s.subs :: SameSight(s, t, id)
    requires forall id :: Over(s, id) ==> Over(t, id)
    ensures forall a, b :: Seen(t, a, b)
  {
    forall a, b ensures Seen(t, a, b) {
      if a in s.subs && b in s.subs {
        SeenStays(s, t, a, b);
      }
    }
  }

  /** The submission is exactly as it was, up to a stage that promises no more. */
  ghost predicate SameCount(s: State, t: State, id: Id) {
    SameSight(s, t, id) && t.subs[id].read == s.subs[id].read && t.subs[id].finished == s.subs[id].finished
      && (t.subs[id].stage == s.subs[id].stage || t.subs[id].stage == Refused
          || s.subs[id].stage !in {Counting, Refused})
  }

  lemma CountStays(s: State, t: State, id: Id, cfg: Config)
    requires CountOk(s, id, cfg) && SameCount(s, t, id) && |s.subs| <= |t.subs| && Grows(s.core, t.core)
    ensures CountOk(t, id, cfg)
  {
    forall m | m in t.subs[id].members && t.subs[id].tier == Free ensures m in t.core.jobs {
      assert GrowsAt(s.core, t.core, m);
    }
    forall m | m in t.subs[id].finished && t.subs[id].tier == Free ensures IsTerminal(t.core, m) {
      assert GrowsAt(s.core, t.core, m);
    }
  }

  /** Every submission keeps its count; then what the counts have seen stays true. */
  lemma CountsStay(s: State, t: State, cfg: Config)
    requires PoolInv(s, cfg) && s.subs.Keys == t.subs.Keys && Grows(s.core, t.core)
    requires forall id | id in s.subs :: SameCount(s, t, id)
    ensures forall id :: CountOk(t, id, cfg)
    ensures forall a, b :: Seen(t, a, b)
  {
    assert |s.subs| == |s.subs.Keys| == |t.subs|;
    forall id ensures CountOk(t, id, cfg) {
      if id in s.subs {
        CountStays(s, t, id, cfg);
      }
    }
    forall id ensures Over(s, id) ==> Over(t, id) {
      assert GrowsAt(s.core, t.core, id);
      assert id in s.subs ==> SameCount(s, t, id);
    }
    forall id | id in s.subs ensures SameSight(s, t, id) {
      assert SameCount(s, t, id);
    }
    SeenStaysForAll(s, t);
  }

  lemma SameCoreGrows(s: Core)
    ensures Grows(s, s)
  {
  }

  // ----- one move at a time ----------------------------------------------------------------------------------------

  lemma WorkKeeps(s: State, e: Event, cfg: Config)
    requires PoolInv(s, cfg) && CanMove(s, Work(e), cfg)
    ensures PoolInv(Outcome(s, Work(e), cfg), cfg)
  {
    var t := Outcome(s, Work(e), cfg);
    StepKeepsInv(s.core, e);
    StepGrows(s.core, e);
    forall id ensures BooksOk(t, id) {
      assert BooksOk(s, id) && GrowsAt(s.core, t.core, id);
      WorkFrame(s.core, e, id);
    }
    CountsStay(s, t, cfg);
  }

  lemma ArriveKeeps(s: State, id: Id, tier: Tier, cfg: Config)
    requires PoolInv(s, cfg) && CanMove(s, Arrive(id, tier), cfg)
    ensures PoolInv(Outcome(s, Arrive(id, tier), cfg), cfg)
  {
    var t := Outcome(s, Arrive(id, tier), cfg);
    forall j ensures BooksOk(t, j) {
      assert BooksOk(s, j);
    }
    forall j ensures CountOk(t, j, cfg) {
      assert CountOk(s, j, cfg);
      if j != id && j in s.subs {
        CountStays(s, t, j, cfg);
      }
    }
    forall a, b ensures Seen(t, a, b) {
      assert Seen(s, a, b);
      if a in s.subs && b in s.subs {
        SeenStays(s, t, a, b);
      }
    }
  }

  /** A new count sees every free submission before it, unless that one is over. */
  lemma NewcomerSees(s: State, cfg: Config, a: Id)
    requires PoolInv(s, cfg) && a in s.subs && s.subs[a].tier == Free
    ensures a in s.free || a in AllUnderWay(s) || Over(s, a)
    ensures s.subs[a].order < |s.subs|
  {
    assert BooksOk(s, a) && CountOk(s, a, cfg);
  }

  /** A free submission joins with a count that read the active set just now. */
  ghost predicate Joins(s: State, t: State, id: Id, stage: Stage, read: set<Id>) {
    && id !in s.subs && stage in {Counting, Admitted, Refused}
    && t == s.(subs := s.subs[id := Sub(stage, Free, |s.subs|, s.free, read, {}, AllUnderWay(s))])
  }

  lemma JoinKeepsBooks(s: State, t: State, id: Id, stage: Stage, read: set<Id>, cfg: Config)
    requires PoolInv(s, cfg) && Joins(s, t, id, stage, read)
    ensures forall j :: BooksOk(t, j)
  {
    forall j ensures BooksOk(t, j) {
      assert BooksOk(s, j);
    }
  }

  lemma JoinKeepsSeen(s: State, t: State, id: Id, stage: Stage, read: set<Id>, cfg: Config)
    requires PoolInv(s, cfg) && Joins(s, t, id, stage, read)
    ensures forall a, b :: Seen(t, a, b)
  {
    forall a, b ensures Seen(t, a, b) {
      assert Seen(s, a, b);
      if a in s.subs && b in s.subs {
        SeenStays(s, t, a, b);
      } else if a in s.subs && s.subs[a].tier == Free {
        NewcomerSees(s, cfg, a);
      } else if b in s.subs && s.subs[b].tier == Free {
        NewcomerSees(s, cfg, b);
      }
    }
  }

  lemma JoinKeeps(s: State, t: State, id: Id, stage: Stage, read: set<Id>, cfg: Config)
    requires PoolInv(s, cfg) && Joins(s, t, id, stage, read) && read <= s.free
    requires |AllUnderWay(s)| < cfg.overlap && (stage == Admitted ==> |s.free| < cfg.limit)
    ensures PoolInv(t, cfg)
  {
    JoinKeepsBooks(s, t, id, stage, read, cfg);
    JoinKeepsSeen(s, t, id, stage, read, cfg);
    forall j ensures CountOk(t, j, cfg) {
      assert CountOk(s, j, cfg);
      if j == id {
        forall m | m in s.free ensures m in s.core.jobs {
          assert BooksOk(s, m);
        }
      } else if j in s.subs {
        CountStays(s, t, j, cfg);
      }
    }
  }

  lemma ReadStatusKeeps(s: State, id: Id, member: Id, cfg: Config)
    requires PoolInv(s, cfg) && CanMove(s, ReadStatus(id, member), cfg)
    ensures PoolInv(Outcome(s, ReadStatus(id, member), cfg), cfg)
  {
    var t := Outcome(s, ReadStatus(id, member), cfg);
    forall j ensures BooksOk(t, j) {
      assert BooksOk(s, j);
    }
    forall j ensures CountOk(t, j, cfg) {
      assert CountOk(s, j, cfg);
      if j != id && j in s.subs {
        CountStays(s, t, j, cfg);
      }
    }
    SeenStaysForAll(s, t);
  }

  lemma DecideKeeps(s: State, id: Id, cfg: Config)
    requires PoolInv(s, cfg) && CanMove(s, Decide(id), cfg)
    ensures PoolInv(Outcome(s, Decide(id), cfg), cfg)
  {
    var t := Outcome(s, Decide(id), cfg);
    assert CountOk(s, id, cfg) && BooksOk(s, id);
    forall j ensures BooksOk(t, j) {
      assert BooksOk(s, j);
    }
    forall j ensures CountOk(t, j, cfg) {
      assert CountOk(s, j, cfg);
      if j != id && j in s.subs {
        CountStays(s, t, j, cfg);
      }
    }
    SeenStaysForAll(s, t);
  }

  lemma AbandonKeeps(s: State, id: Id, cfg: Config)
    requires PoolInv(s, cfg) && CanMove(s, Abandon(id), cfg)
    ensures PoolInv(Outcome(s, Abandon(id), cfg), cfg)
  {
    var t := Outcome(s, Abandon(id), cfg);
    forall j ensures BooksOk(t, j) {
      assert BooksOk(s, j);
    }
    SameCoreGrows(s.core);
    CountsStay(s, t, cfg);
  }

  lemma StoreKeeps(s: State, id: Id, cfg: Config)
    requires PoolInv(s, cfg) && CanMove(s, Store(id), cfg)
    ensures PoolInv(Outcome(s, Store(id), cfg), cfg)
  {
    var e := Create(id, s.subs[id].tier);
    var t := Outcome(s, Store(id), cfg);
    StepKeepsInv(s.core, e);
    StepGrows(s.core, e);
    forall j ensures BooksOk(t, j) {
      assert BooksOk(s, j);
      assert forall c :: Holds(s.core, c, j) ==> Holds(t.core, c, j);
    }
    CountsStay(s, t, cfg);
  }

  lemma AddActiveKeepsBooksAt(s: State, id: Id, cfg: Config, j: Id)
    requires CanMove(s, AddActive(id), cfg) && JobOk(s.core, id) && BooksOk(s, id) && BooksOk(s, j)
    ensures BooksOk(Outcome(s, AddActive(id), cfg), j)
  {
  }

  lemma AddActiveKeepsBooks(s: State, id: Id, cfg: Config)
    requires PoolInv(s, cfg) && CanMove(s, AddActive(id), cfg)
    ensures forall j :: BooksOk(Outcome(s, AddActive(id), cfg), j)
  {
    assert BooksOk(s, id) && JobOk(s.core, id);
    forall j ensures BooksOk(Outcome(s, AddActive(id), cfg), j) {
      AddActiveKeepsBooksAt(s, id, cfg, j);
    }
  }

  lemma AddActiveKeeps(s: State, id: Id, cfg: Config)
    requires PoolInv(s, cfg) && CanMove(s, AddActive(id), cfg)
    ensures PoolInv(Outcome(s, AddActive(id), cfg), cfg)
  {
    var t := Outcome(s, AddActive(id), cfg);
    AddActiveKeepsBooks(s, id, cfg);
    SameCoreGrows(s.core);
    CountsStay(s, t, cfg);
  }

  lemma SubmitKeeps(s: State, id: Id, cfg: Config)
    requires PoolInv(s, cfg) && CanMove(s, Submit(id), cfg)
    ensures PoolInv(Outcome(s, Submit(id), cfg), cfg)
  {
    var t := Outcome(s, Submit(id), cfg);
    StepKeepsInv(s.core, Enqueue(id));
    StepGrows(s.core, Enqueue(id));
    forall j ensures BooksOk(t, j) {
      assert BooksOk(s, j);
      assert forall c :: Holds(s.core, c, j) ==> Holds(t.core, c, j);
    }
    CountsStay(s, t, cfg);
  }

  lemma OthersStayHeld(s: Core, c: nat, j: Id)
    requires Enabled(s, Release(c)) && Held(s, j) && j != PhaseOf(s, c).id
    ensures Held(Step(s, Release(c)), j)
  {
    var d :| Holds(s, d, j);
    assert Holds(Step(s, Release(c)), d, j);
  }

  lemma GiveBackKeepsBooksAt(s: State, c: nat, cfg: Config, j: Id)
    requires CanMove(s, GiveBack(c), cfg) && HolderOk(s.core, c) && BooksOk(s, PhaseOf(s.core, c).id) && BooksOk(s, j)
    ensures BooksOk(Outcome(s, GiveBack(c), cfg), j)
  {
    if Held(s.core, j) && j != PhaseOf(s.core, c).id {
      OthersStayHeld(s.core, c, j);
    }
  }

  lemma GiveBackKeepsBooks(s: State, c: nat, cfg: Config)
    requires PoolInv(s, cfg) && CanMove(s, GiveBack(c), cfg)
    ensures forall j :: BooksOk(Outcome(s, GiveBack(c), cfg), j)
  {
    assert HolderOk(s.core, c) && BooksOk(s, PhaseOf(s.core, c).id);
    forall j ensures BooksOk(Outcome(s, GiveBack(c), cfg), j) {
      assert BooksOk(s, j);
      GiveBackKeepsBooksAt(s, c, cfg, j);
    }
  }

  lemma GiveBackKeeps(s: State, c: nat, cfg: Config)
    requires PoolInv(s, cfg) && CanMove(s, GiveBack(c), cfg)
    ensures PoolInv(Outcome(s, GiveBack(c), cfg), cfg)
  {
    var t := Outcome(s, GiveBack(c), cfg);
    StepKeepsInv(s.core, Release(c));
    StepGrows(s.core, Release(c));
    GiveBackKeepsBooks(s, c, cfg);
    CountsStay(s, t, cfg);
  }

  lemma MoveKeepsInv(s: State, m: Move, cfg: Config)
    requires PoolInv(s, cfg) && CanMove(s, m, cfg)
    ensures PoolInv(Outcome(s, m, cfg), cfg)
  {
    match m
    case Arrive(id, tier) => ArriveKeeps(s, id, tier, cfg);
    case CountNow(id) =>
      JoinKeeps(s, Outcome(s, m, cfg), id, if |s.free| >= cfg.limit then Refused else Admitted, s.free, cfg);
    case BeginCount(id) => JoinKeeps(s, Outcome(s, m, cfg), id, Counting, {}, cfg);
    case ReadStatus(id, member) => ReadStatusKeeps(s, id, member, cfg);
    case Decide(id) => DecideKeeps(s, id, cfg);
    case Abandon(id) => AbandonKeeps(s, id, cfg);
    case Store(id) => StoreKeeps(s, id, cfg);
    case AddActive(id) => AddActiveKeeps(s, id, cfg);
    case Submit(id) => SubmitKeeps(s, id, cfg);
    case Work(e) => WorkKeeps(s, e, cfg);
    case GiveBack(c) => GiveBackKeeps(s, c, cfg);
  }
}
