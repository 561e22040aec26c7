/** Consumers of the asynchronous jobs: who holds a job, and what its record says, in every
    interleaving of their steps. */
module JobCore {

  type Id = nat

  datatype Tier = Untiered | Free | Paid

  datatype Status = Queued | Processing | Completed | Failed

  datatype Rec = Rec(status: Status, progress: int, tier: Tier)

  /** Where a consumer stands between two suspension points of `process_job`. */
  datatype Phase =
    | Idle
    | Fetched(id: Id)                      // taken off the queue
    | Loaded(id: Id)                       // read, and found queued
    | Running(id: Id)                      // marked as processing
    | Synthesizing(id: Id, furthest: int)
    | Releasing(id: Id)                    // finished, the slot not yet given back

  /** A progress update handed to the event loop and not yet executed. */
  datatype Write = Write(id: Id, percent: int)

  /** `enqueued` and `starts` record what has happened: the ids ever enqueued, and one element for
      every start of a synthesis. */
  datatype Core = Core(
    jobs: map<Id, Rec>,
    queue: multiset<Id>,
    consumers: map<nat, Phase>,
    writes: multiset<Write>,
    enqueued: set<Id>,
    starts: multiset<Id>)

  datatype Event =
    | Create(id: Id, tier: Tier)
    | Enqueue(id: Id)
    | Dequeue(c: nat, id: Id)
    | Load(c: nat)
    | MarkProcessing(c: nat)
    | StartSynthesis(c: nat)
    | Report(c: nat, percent: int)
    | Land(w: Write)
    | Finish(c: nat, ok: bool)
    | Release(c: nat)

  predicate Terminal(status: Status) {
    status == Completed || status == Failed
  }

  // ----- steps -------------------------------------------------------------------------------------------

  function PhaseOf(s: Core, c: nat): Phase {
    if c in s.consumers then s.consumers[c] else Idle
  }

  /** `store.update(id, progress=...)`; a missing record is left missing. */
  function SetProgress(jobs: map<Id, Rec>, id: Id, percent: int): map<Id, Rec> {
    if id in jobs then jobs[id := jobs[id].(progress := percent)] else jobs
  }

  function SetStatus(jobs: map<Id, Rec>, id: Id, status: Status): map<Id, Rec> {
    if id in jobs then jobs[id := jobs[id].(status := status)] else jobs
  }

  function Moved(s: Core, c: nat, phase: Phase): Core {
    s.(consumers := s.consumers[c := phase])
  }

  predicate Enabled(s: Core, e: Event) {
    match e
    case Create(id, _) => id !in s.jobs
    case Enqueue(id) => id in s.jobs && id !in s.enqueued
    case Dequeue(c, id) => c in s.consumers && s.consumers[c].Idle? && s.queue[id] > 0
    case Load(c) => PhaseOf(s, c).Fetched?
    case MarkProcessing(c) => PhaseOf(s, c).Loaded?
    case StartSynthesis(c) => PhaseOf(s, c).Running?
    case Report(c, _) => PhaseOf(s, c).Synthesizing?
    case Land(w) => s.writes[w] > 0
    case Finish(c, ok) => PhaseOf(s, c).Synthesizing? || (PhaseOf(s, c).Running? && !ok)
    case Release(c) => PhaseOf(s, c).Releasing?
  }

  function Step(s: Core, e: Event): Core
    requires Enabled(s, e)
  {
    match e
    case Create(id, tier) => s.(jobs := s.jobs[id := Rec(Queued, 0, tier)])
    case Enqueue(id) => s.(queue := s.queue + multiset{id}, enqueued := s.enqueued + {id})
    case Dequeue(c, id) => Moved(s.(queue := s.queue - multiset{id}), c, Fetched(id))
    case Load(c) => LoadStep(s, c, PhaseOf(s, c).id)
    case MarkProcessing(c) =>
      var id := PhaseOf(s, c).id;
      Moved(s.(jobs := SetProgress(SetStatus(s.jobs, id, Processing), id, 1)), c, Running(id))
    case StartSynthesis(c) =>
      var id := PhaseOf(s, c).id;
      Moved(s.(starts := s.starts + multiset{id}), c, Synthesizing(id, 0))
    case Report(c, percent) => ReportStep(s, c, PhaseOf(s, c).id, PhaseOf(s, c).furthest, percent)
    case Land(w) => s.(jobs := SetProgress(s.jobs, w.id, w.percent), writes := s.writes - multiset{w})
    case Finish(c, ok) => FinishStep(s, c, PhaseOf(s, c).id, ok)
    case Release(c) => Moved(s, c, Idle)
  }

  /** A missing job is dropped; one that is not queued is only released. */
  function LoadStep(s: Core, c: nat, id: Id): Core {
    if id !in s.jobs then Moved(s, c, Idle)
    else if s.jobs[id].status != Queued then Moved(s, c, Releasing(id))
    else Moved(s, c, Loaded(id))
  }

  /** Only forward advances are handed on. */
  function ReportStep(s: Core, c: nat, id: Id, furthest: int, percent: int): Core {
    if percent <= furthest then s
    else Moved(s.(writes := s.writes + multiset{Write(id, percent)}), c, Synthesizing(id, percent))
  }

  function FinishStep(s: Core, c: nat, id: Id, ok: bool): Core {
    if ok then Moved(s.(jobs := SetProgress(SetStatus(s.jobs, id, Completed), id, 100)), c, Releasing(id))
    else Moved(s.(jobs := SetStatus(s.jobs, id, Failed)), c, Releasing(id))
  }

  // ----- the invariant -------------------------------------------------------------------------------------

  predicate StatusIs(s: Core, id: Id, status: Status) {
    id in s.jobs && s.jobs[id].status == status
  }

  predicate IsTerminal(s: Core, id: Id) {
    id in s.jobs && Terminal(s.jobs[id].status)
  }

  predicate Holds(s: Core, c: nat, id: Id) {
    !PhaseOf(s, c).Idle? && PhaseOf(s, c).id == id
  }

  ghost predicate Held(s: Core, id: Id) {
    exists c :: Holds(s, c, id)
  }

  /** The queue, the record and the history of one job fit together. */
  ghost predicate JobOk(s: Core, id: Id) {
    && s.queue[id] <= 1
    && (s.queue[id] > 0 ==> id in s.enqueued && StatusIs(s, id, Queued))
    && (id in s.enqueued ==> id in s.jobs)
    && (id in s.jobs && id !in s.enqueued ==> StatusIs(s, id, Queued))
    && s.starts[id] <= 1
    && (id !in s.jobs || StatusIs(s, id, Queued) ==> s.starts[id] == 0)
    && (StatusIs(s, id, Completed) ==> s.starts[id] == 1)
  }

  /** What a consumer's position says about the job it holds. */
  ghost predicate HolderOk(s: Core, c: nat) {
    var phase := PhaseOf(s, c);
    !phase.Idle? ==>
      && phase.id in s.enqueued && s.queue[phase.id] == 0
      && (phase.Fetched? || phase.Loaded? ==> StatusIs(s, phase.id, Queued))
      && (phase.Running? ==> StatusIs(s, phase.id, Processing) && s.starts[phase.id] == 0)
      && (phase.Synthesizing? ==> StatusIs(s, phase.id, Processing) && s.starts[phase.id] == 1)
      && (phase.Releasing? ==> IsTerminal(s, phase.id))
  }

  ghost predicate OneHolder(s: Core, c: nat, d: nat) {
    c != d && !PhaseOf(s, c).Idle? && !PhaseOf(s, d).Idle? ==> PhaseOf(s, c).id != PhaseOf(s, d).id
  }

  /** An enqueued job is waiting, held, or finished. */
  ghost predicate Placed(s: Core, id: Id) {
    id in s.enqueued ==> s.queue[id] > 0 || Held(s, id) || IsTerminal(s, id)
  }

  ghost predicate Inv(s: Core) {
    && (forall id :: JobOk(s, id))
    && (forall c :: HolderOk(s, c))
    && (forall c, d :: OneHolder(s, c, d))
    && (forall id :: Placed(s, id))
  }

  /** At the start nothing is stored or queued and every consumer is idle. */
  predicate Initial(s: Core) {
    && s.jobs == map[] && s.queue == multiset{} && s.writes == multiset{} && s.enqueued == {} && s.starts == multiset{}
    && forall c | c in s.consumers :: s.consumers[c].Idle?
  }

  lemma InitialInv(s: Core)
    requires Initial(s)
    ensures Inv(s)
  {
  }

  lemma CreateKeeps(s: Core, id: Id, tier: Tier)
    requires Inv(s) && Enabled(s, Create(id, tier))
    ensures Inv(Step(s, Create(id, tier)))
  {
    var t := Step(s, Create(id, tier));
    assert JobOk(s, id);
    forall j ensures JobOk(t, j) && Placed(t, j) {
      assert JobOk(s, j) && Placed(s, j);
      assert forall c :: Holds(s, c, j) ==> Holds(t, c, j);
    }
    forall c ensures HolderOk(t, c) {
      assert HolderOk(s, c);
    }
    forall c, d ensures OneHolder(t, c, d) {
      assert OneHolder(s, c, d);
    }
  }

  lemma EnqueueKeeps(s: Core, id: Id)
    requires Inv(s) && Enabled(s, Enqueue(id))
    ensures Inv(Step(s, Enqueue(id)))
  {
    var t := Step(s, Enqueue(id));
    assert JobOk(s, id);
    forall j ensures JobOk(t, j) && Placed(t, j) {
      assert JobOk(s, j) && Placed(s, j);
      assert forall c :: Holds(s, c, j) ==> Holds(t, c, j);
    }
    forall c ensures HolderOk(t, c) {
      assert HolderOk(s, c);
    }
    forall c, d ensures OneHolder(t, c, d) {
      assert OneHolder(s, c, d);
    }
  }

  // ----- steps of one consumer about one job -----------------------------------------------------------------

  ghost predicate SameJob(s: Core, t: Core, j: Id) {
    && (j in t.jobs <==> j in s.jobs) && (j in s.jobs ==> t.jobs[j] == s.jobs[j])
    && t.queue[j] == s.queue[j] && t.starts[j] == s.starts[j] && (j in t.enqueued <==> j in s.enqueued)
  }

  /** Only consumer `c` moved, it is the only one concerned with job `id`, and no other job changed. */
  ghost predicate Local(s: Core, t: Core, c: nat, id: Id) {
    && (forall j | j != id :: SameJob(s, t, j))
    && (forall d | d != c :: PhaseOf(t, d) == PhaseOf(s, d) && !Holds(s, d, id))
    && (PhaseOf(s, c).Idle? || Holds(s, c, id)) && (PhaseOf(t, c).Idle? || Holds(t, c, id))
  }

  lemma LocalKeepsHolders(s: Core, t: Core, c: nat, id: Id)
    requires Inv(s) && Local(s, t, c, id) && HolderOk(t, c)
    ensures forall d :: HolderOk(t, d)
    ensures forall d, e :: OneHolder(t, d, e)
  {
    forall d ensures HolderOk(t, d) {
      if d != c {
        assert HolderOk(s, d);
        assert !Holds(s, d, id);
        assert !PhaseOf(s, d).Idle? ==> SameJob(s, t, PhaseOf(s, d).id);
      }
    }
    forall d, e ensures OneHolder(t, d, e) {
      assert OneHolder(s, d, e);
      assert d != c ==> !Holds(s, d, id);
      assert e != c ==> !Holds(s, e, id);
    }
  }

  lemma LocalKeepsJobs(s: Core, t: Core, c: nat, id: Id)
    requires Inv(s) && Local(s, t, c, id) && JobOk(t, id) && Placed(t, id)
    ensures forall j :: JobOk(t, j)
    ensures forall j :: Placed(t, j)
  {
    forall j ensures JobOk(t, j) && Placed(t, j) {
      if j != id {
        assert SameJob(s, t, j) && JobOk(s, j) && Placed(s, j);
        if Held(s, j) {
          var d :| Holds(s, d, j);
          assert Holds(t, d, j);
        }
      }
    }
  }

  lemma LocalKeeps(s: Core, t: Core, c: nat, id: Id)
    requires Inv(s) && Local(s, t, c, id) && HolderOk(t, c) && JobOk(t, id) && Placed(t, id)
    ensures Inv(t)
  {
    LocalKeepsHolders(s, t, c, id);
    LocalKeepsJobs(s, t, c, id);
  }

  /** Whoever holds a job holds it alone, and not from the queue. */
  lemma AloneWithIt(s: Core, c: nat)
    requires Inv(s) && !PhaseOf(s, c).Idle?
    ensures forall d | d != c :: !Holds(s, d, PhaseOf(s, c).id)
    ensures JobOk(s, PhaseOf(s, c).id) && HolderOk(s, c)
  {
    forall d | d != c ensures !Holds(s, d, PhaseOf(s, c).id) {
      assert OneHolder(s, c, d);
    }
  }

  lemma NobodyHoldsQueued(s: Core, id: Id)
    requires Inv(s) && s.queue[id] > 0
    ensures !Held(s, id)
  {
    forall c ensures !Holds(s, c, id) {
      assert HolderOk(s, c);
    }
  }

  lemma DequeueKeeps(s: Core, c: nat, id: Id)
    requires Inv(s) && Enabled(s, Dequeue(c, id))
    ensures Inv(Step(s, Dequeue(c, id)))
  {
    var t := Step(s, Dequeue(c, id));
    NobodyHoldsQueued(s, id);
    assert JobOk(s, id);
    assert Holds(t, c, id);
    LocalKeeps(s, t, c, id);
  }

  /** The missing and the not-queued branches are never taken. */
  lemma LoadFindsItQueued(s: Core, c: nat)
    requires Inv(s) && Enabled(s, Load(c))
    ensures Step(s, Load(c)) == Moved(s, c, Loaded(PhaseOf(s, c).id))
  {
    assert HolderOk(s, c);
  }

  lemma LoadKeeps(s: Core, c: nat)
    requires Inv(s) && Enabled(s, Load(c))
    ensures Inv(Step(s, Load(c)))
  {
    var t := Step(s, Load(c));
    LoadFindsItQueued(s, c);
    AloneWithIt(s, c);
    assert Holds(t, c, PhaseOf(s, c).id);
    LocalKeeps(s, t, c, PhaseOf(s, c).id);
  }

  lemma MarkProcessingKeeps(s: Core, c: nat)
    requires Inv(s) && Enabled(s, MarkProcessing(c))
    ensures Inv(Step(s, MarkProcessing(c)))
  {
    var t := Step(s, MarkProcessing(c));
    AloneWithIt(s, c);
    assert Holds(t, c, PhaseOf(s, c).id);
    LocalKeeps(s, t, c, PhaseOf(s, c).id);
  }

  lemma StartSynthesisKeeps(s: Core, c: nat)
    requires Inv(s) && Enabled(s, StartSynthesis(c))
    ensures Inv(Step(s, StartSynthesis(c)))
  {
    var t := Step(s, StartSynthesis(c));
    AloneWithIt(s, c);
    assert Holds(t, c, PhaseOf(s, c).id);
    LocalKeeps(s, t, c, PhaseOf(s, c).id);
  }

  lemma ReportKeeps(s: Core, c: nat, percent: int)
    requires Inv(s) && Enabled(s, Report(c, percent))
    ensures Inv(Step(s, Report(c, percent)))
  {
    var t := Step(s, Report(c, percent));
    AloneWithIt(s, c);
    assert Holds(t, c, PhaseOf(s, c).id);
    LocalKeeps(s, t, c, PhaseOf(s, c).id);
  }

  lemma FinishKeeps(s: Core, c: nat, ok: bool)
    requires Inv(s) && Enabled(s, Finish(c, ok))
    ensures Inv(Step(s, Finish(c, ok)))
  {
    var t := Step(s, Finish(c, ok));
    AloneWithIt(s, c);
    assert Holds(t, c, PhaseOf(s, c).id);
    LocalKeeps(s, t, c, PhaseOf(s, c).id);
  }

  lemma ReleaseKeeps(s: Core, c: nat)
    requires Inv(s) && Enabled(s, Release(c))
    ensures Inv(Step(s, Release(c)))
  {
    var t := Step(s, Release(c));
    AloneWithIt(s, c);
    LocalKeeps(s, t, c, PhaseOf(s, c).id);
  }

  /** A progress write, early or late, changes no status. */
  lemma LandKeepsStatus(s: Core, w: Write, id: Id)
    requires Enabled(s, Land(w))
    ensures var t := Step(s, Land(w));
      (id in t.jobs <==> id in s.jobs) && (id in s.jobs ==> t.jobs[id].status == s.jobs[id].status)
  {
  }

  lemma LandKeeps(s: Core, w: Write)
    requires Inv(s) && Enabled(s, Land(w))
    ensures Inv(Step(s, Land(w)))
  {
    var t := Step(s, Land(w));
    forall j ensures JobOk(t, j) && Placed(t, j) {
      LandKeepsStatus(s, w, j);
      assert JobOk(s, j) && Placed(s, j);
      assert forall c :: Holds(s, c, j) ==> Holds(t, c, j);
    }
    forall c ensures HolderOk(t, c) {
      assert HolderOk(s, c);
      if !PhaseOf(s, c).Idle? {
        LandKeepsStatus(s, w, PhaseOf(s, c).id);
      }
    }
    forall c, d ensures OneHolder(t, c, d) {
      assert OneHolder(s, c, d);
    }
  }

  lemma StepKeepsInv(s: Core, e: Event)
    requires Inv(s) && Enabled(s, e)
    ensures Inv(Step(s, e))
  {
    match e
    case Create(id, tier) => CreateKeeps(s, id, tier);
    case Enqueue(id) => EnqueueKeeps(s, id);
    case Dequeue(c, id) => DequeueKeeps(s, c, id);
    case Load(c) => LoadKeeps(s, c);
    case MarkProcessing(c) => MarkProcessingKeeps(s, c);
    case StartSynthesis(c) => StartSynthesisKeeps(s, c);
    case Report(c, percent) => ReportKeeps(s, c, percent);
    case Land(w) => LandKeeps(s, w);
    case Finish(c, ok) => FinishKeeps(s, c, ok);
    case Release(c) => ReleaseKeeps(s, c);
  }

  // ----- terminal is for ever ----------------------------------------------------------------------------------

  /** A step never takes a record away, changes its tier, or changes a terminal status. */
  lemma StepKeepsTerminal(s: Core, e: Event, id: Id)
    requires Inv(s) && Enabled(s, e) && id in s.jobs
    ensures id in Step(s, e).jobs && Step(s, e).jobs[id].tier == s.jobs[id].tier
    ensures Terminal(s.jobs[id].status) ==> Step(s, e).jobs[id].status == s.jobs[id].status
  {
    match e
    case Create(_, _) =>
    case Enqueue(_) =>
    case Dequeue(_, _) =>
    case Load(c) =>
    case MarkProcessing(c) => assert HolderOk(s, c);
    case StartSynthesis(c) =>
    case Report(c, _) =>
    case Land(w) => LandKeepsStatus(s, w, id);
    case Finish(c, _) => assert HolderOk(s, c);
    case Release(c) =>
  }
}
