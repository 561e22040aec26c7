/** When the progress of a job can go backwards, and why it cannot when writes land in order. */
module ProgressRuns {
  import opened JobCore
  import opened JobRuns

  /** Over these states the job's recorded progress never goes backwards. */
  ghost predicate NeverFalls(states: seq<Core>, id: Id) {
    forall n: nat, m: nat | n <= m < |states| :: NoFall(states, id, n, m)
  }

  ghost predicate NoFall(states: seq<Core>, id: Id, n: nat, m: nat)
    requires n < |states| && m < |states|
  {
    id in states[n].jobs && id in states[m].jobs ==> states[n].jobs[id].progress <= states[m].jobs[id].progress
  }

  /** In every continuation the job's progress never goes backwards. */
  ghost predicate AlwaysForward(s: Core, id: Id) {
    forall events: seq<Event>, states: seq<Core> | RunFrom(s, events, states) :: NeverFalls(states, id)
  }

  ghost predicate CanFall(s: Core, id: Id) {
    exists events: seq<Event>, states: seq<Core> :: RunFrom(s, events, states) && !NeverFalls(states, id)
  }

  // ----- building continuations ------------------------------------------------------------------------

  lemma RunPrepends(s: Core, e: Event, events: seq<Event>, states: seq<Core>)
    requires Enabled(s, e) && RunFrom(Step(s, e), events, states)
    ensures RunFrom(s, [e] + events, [s] + states)
  {
    var events', states' := [e] + events, [s] + states;
    forall n: nat | n < |events'| ensures StepAt(events', states', n) {
      if n > 0 {
        assert StepAt(events, states, n - 1);
        assert events'[n] == events[n - 1] && states'[n] == states[n - 1] && states'[n + 1] == states[n];
      }
    }
  }

  /** What can fall after a step can fall before it. */
  lemma FallsLater(s: Core, e: Event, id: Id)
    requires Enabled(s, e) && CanFall(Step(s, e), id)
    ensures CanFall(s, id)
  {
    var events: seq<Event>, states: seq<Core> :| RunFrom(Step(s, e), events, states) && !NeverFalls(states, id);
    var n: nat, m: nat :| n <= m < |states| && !NoFall(states, id, n, m);
    RunPrepends(s, e, events, states);
    var states' := [s] + states;
    assert states'[n + 1] == states[n] && states'[m + 1] == states[m];
    assert !NoFall(states', id, n + 1, m + 1);
  }

  lemma LandingBelowFalls(s: Core, w: Write)
    requires w.id in s.jobs && s.writes[w] > 0 && w.percent < s.jobs[w.id].progress
    ensures CanFall(s, w.id)
  {
    var events, states := [Land(w)], [s, Step(s, Land(w))];
    assert StepAt(events, states, 0);
    assert RunFrom(s, events, states);
    assert !NoFall(states, w.id, 0, 1);
    assert !NeverFalls(states, w.id);
  }

  /** Two different pending writes can land the wrong way round. */
  lemma TwoWritesFall(s: Core, low: Write, high: Write)
    requires low.id == high.id && low.id in s.jobs && low.percent < high.percent
    requires s.writes[low] > 0 && s.writes[high] > 0
    ensures CanFall(s, low.id)
  {
    LandingBelowFalls(Step(s, Land(high)), low);
    FallsLater(s, Land(high), low.id);
  }

  // ----- an unfinished job ---------------------------------------------------------------------------------

  lemma SynthesizingCanFall(s: Core, c: nat)
    requires Inv(s) && PhaseOf(s, c).Synthesizing?
    ensures CanFall(s, PhaseOf(s, c).id)
  {
    var id, furthest := PhaseOf(s, c).id, PhaseOf(s, c).furthest;
    var first, second := Report(c, furthest + 1), Report(c, furthest + 2);
    var t := Step(s, first);
    var u := Step(t, second);
    assert HolderOk(s, c);
    TwoWritesFall(u, Write(id, furthest + 1), Write(id, furthest + 2));
    FallsLater(t, second, id);
    FallsLater(s, first, id);
  }

  lemma RunningCanFall(s: Core, c: nat)
    requires Inv(s) && PhaseOf(s, c).Running?
    ensures CanFall(s, PhaseOf(s, c).id)
  {
    StartSynthesisKeeps(s, c);
    SynthesizingCanFall(Step(s, StartSynthesis(c)), c);
    FallsLater(s, StartSynthesis(c), PhaseOf(s, c).id);
  }

  lemma LoadedCanFall(s: Core, c: nat)
    requires Inv(s) && PhaseOf(s, c).Loaded?
    ensures CanFall(s, PhaseOf(s, c).id)
  {
    MarkProcessingKeeps(s, c);
    RunningCanFall(Step(s, MarkProcessing(c)), c);
    FallsLater(s, MarkProcessing(c), PhaseOf(s, c).id);
  }

  lemma FetchedCanFall(s: Core, c: nat)
    requires Inv(s) && PhaseOf(s, c).Fetched?
    ensures CanFall(s, PhaseOf(s, c).id)
  {
    LoadFindsItQueued(s, c);
    LoadKeeps(s, c);
    LoadedCanFall(Step(s, Load(c)), c);
    FallsLater(s, Load(c), PhaseOf(s, c).id);
  }

  /** Whoever holds an unfinished job can make its progress fall. */
  lemma HeldCanFall(s: Core, c: nat, id: Id)
    requires Inv(s) && Holds(s, c, id) && !IsTerminal(s, id)
    ensures CanFall(s, id)
  {
    assert HolderOk(s, c);
    match PhaseOf(s, c)
    case Fetched(_) => FetchedCanFall(s, c);
    case Loaded(_) => LoadedCanFall(s, c);
    case Running(_) => RunningCanFall(s, c);
    case Synthesizing(_, _) => SynthesizingCanFall(s, c);
    case _ =>
  }

  /** How many steps at most until the consumer is idle. */
  function ToIdle(phase: Phase): nat {
    match phase
    case Idle => 0
    case Releasing(_) => 1
    case Synthesizing(_, _) => 2
    case Running(_) => 2
    case Loaded(_) => 3
    case Fetched(_) => 4
  }

  /** The consumer's next step on its way to being idle. */
  function NextStep(phase: Phase, c: nat): Event {
    match phase
    case Fetched(_) => Load(c)
    case Loaded(_) => MarkProcessing(c)
    case Running(_) => Finish(c, false)
    case Synthesizing(_, _) => Finish(c, false)
    case _ => Release(c)
  }

  lemma NextStepMoves(s: Core, c: nat)
    requires Inv(s) && c in s.consumers && !PhaseOf(s, c).Idle?
    ensures var e := NextStep(PhaseOf(s, c), c);
      && Enabled(s, e) && c in Step(s, e).consumers && Step(s, e).queue == s.queue
      && ToIdle(PhaseOf(Step(s, e), c)) < ToIdle(PhaseOf(s, c))
  {
    if PhaseOf(s, c).Fetched? {
      LoadFindsItQueued(s, c);
    }
  }

  /** A waiting job can be reached by any consumer once that is done with its own. */
  lemma {:induction false} WaitingCanFall(s: Core, c: nat, id: Id)
    requires Inv(s) && c in s.consumers && s.queue[id] > 0
    ensures CanFall(s, id)
    decreases ToIdle(PhaseOf(s, c))
  {
    if PhaseOf(s, c).Idle? {
      var e := Dequeue(c, id);
      StepKeepsInv(s, e);
      FetchedCanFall(Step(s, e), c);
      FallsLater(s, e, id);
    } else {
      var e := NextStep(PhaseOf(s, c), c);
      NextStepMoves(s, c);
      StepKeepsInv(s, e);
      WaitingCanFall(Step(s, e), c, id);
      FallsLater(s, e, id);
    }
  }

  lemma UnfinishedCanFall(s: Core, c: nat, id: Id)
    requires Inv(s) && c in s.consumers && id in s.jobs && !IsTerminal(s, id)
    ensures CanFall(s, id)
  {
    assert JobOk(s, id) && Placed(s, id);
    if id !in s.enqueued {
      var e := Enqueue(id);
      StepKeepsInv(s, e);
      WaitingCanFall(Step(s, e), c, id);
      FallsLater(s, e, id);
    } else if s.queue[id] > 0 {
      WaitingCanFall(s, c, id);
    } else {
      var d :| Holds(s, d, id);
      HeldCanFall(s, d, id);
    }
  }

  // ----- a finished job ------------------------------------------------------------------------------------

  predicate Pending(s: Core, w: Write, id: Id) {
    s.writes[w] > 0 && w.id == id
  }

  /** The writes pending for the job all carry the same percent, and it is not below the record's. */
  ghost predicate PendingAgree(s: Core, id: Id) {
    && id in s.jobs
    && (forall w: Write | Pending(s, w, id) :: s.jobs[id].progress <= w.percent)
    && (forall v: Write, w: Write | Pending(s, v, id) && Pending(s, w, id) :: v.percent == w.percent)
  }

  /** Nobody will work on the job any more: it is finished, or there are no consumers at all. */
  predicate AtRest(s: Core, id: Id) {
    id in s.jobs && (IsTerminal(s, id) || s.consumers == map[])
  }

  lemma RestLasts(s: Core, e: Event, id: Id)
    requires Inv(s) && Enabled(s, e) && AtRest(s, id)
    ensures AtRest(Step(s, e), id)
  {
    StepKeepsTerminal(s, e, id);
  }

  /** No write is added for a job at rest. */
  lemma RestAddsNoWrite(s: Core, e: Event, w: Write)
    requires Inv(s) && Enabled(s, e) && AtRest(s, w.id)
    ensures Step(s, e).writes[w] <= s.writes[w]
  {
    if IsTerminal(s, w.id) {
      StepAddsNoWrite(s, e, w);
    }
  }

  /** Of a job at rest only a landing write changes the record. */
  lemma OnlyLandingMoves(s: Core, e: Event, id: Id)
    requires Inv(s) && Enabled(s, e) && AtRest(s, id) && !(e.Land? && e.w.id == id)
    ensures id in Step(s, e).jobs && Step(s, e).jobs[id] == s.jobs[id]
  {
    match e
    case Create(_, _) =>
    case Enqueue(_) =>
    case Dequeue(_, _) =>
    case Load(c) =>
    case MarkProcessing(c) => assert HolderOk(s, c);
    case StartSynthesis(c) =>
    case Report(c, _) =>
    case Land(w) =>
    case Finish(c, _) => assert HolderOk(s, c);
    case Release(c) =>
  }

  lemma AgreeStep(s: Core, e: Event, id: Id)
    requires Inv(s) && Enabled(s, e) && AtRest(s, id) && PendingAgree(s, id)
    ensures AtRest(Step(s, e), id) && PendingAgree(Step(s, e), id)
    ensures s.jobs[id].progress <= Step(s, e).jobs[id].progress
  {
    var t := Step(s, e);
    RestLasts(s, e, id);
    forall w: Write | Pending(t, w, id) ensures Pending(s, w, id) {
      RestAddsNoWrite(s, e, w);
    }
    if e.Land? && e.w.id == id {
      assert Pending(s, e.w, id);
    } else {
      OnlyLandingMoves(s, e, id);
    }
  }

  lemma {:induction false} AgreeStays(s: Core, events: seq<Event>, states: seq<Core>, id: Id, n: nat, m: nat)
    requires Inv(s) && RunFrom(s, events, states) && n <= m <= |events|
    requires AtRest(states[n], id) && PendingAgree(states[n], id)
    ensures AtRest(states[m], id) && PendingAgree(states[m], id) && NoFall(states, id, n, m)
  {
    if n < m {
      AgreeStays(s, events, states, id, n, m - 1);
      RunKeepsInv(s, events, states, m - 1);
      assert StepAt(events, states, m - 1);
      AgreeStep(states[m - 1], events[m - 1], id);
    }
  }

  lemma AgreeingNeverFalls(s: Core, id: Id)
    requires Inv(s) && AtRest(s, id) && PendingAgree(s, id)
    ensures AlwaysForward(s, id)
  {
    forall events: seq<Event>, states: seq<Core> | RunFrom(s, events, states) ensures NeverFalls(states, id) {
      forall n: nat, m: nat | n <= m < |states| ensures NoFall(states, id, n, m) {
        AgreeStays(s, events, states, id, 0, n);
        AgreeStays(s, events, states, id, n, m);
      }
    }
  }

  lemma DisagreeingCanFall(s: Core, id: Id)
    requires id in s.jobs && !PendingAgree(s, id)
    ensures CanFall(s, id)
  {
    if w: Write :| Pending(s, w, id) && w.percent < s.jobs[id].progress {
      LandingBelowFalls(s, w);
    } else {
      var v: Write, w: Write :| Pending(s, v, id) && Pending(s, w, id) && v.percent != w.percent;
      if v.percent < w.percent {
        TwoWritesFall(s, v, w);
      } else {
        TwoWritesFall(s, w, v);
      }
    }
  }

  /** The progress of a stored job never goes backwards in any continuation if and only if the job is
      finished, or there are no consumers, and the writes still pending for it all carry one percent, which
      is not below its record's.  With consumers it can always go backwards while the job waits or is worked
      on. */
  lemma AlwaysForwardIff(s: Core, id: Id)
    requires Inv(s) && id in s.jobs
    ensures AlwaysForward(s, id) <==> (IsTerminal(s, id) || s.consumers == map[]) && PendingAgree(s, id)
  {
    if !PendingAgree(s, id) {
      DisagreeingCanFall(s, id);
    } else if AtRest(s, id) {
      AgreeingNeverFalls(s, id);
    } else {
      var c :| c in s.consumers;
      UnfinishedCanFall(s, c, id);
    }
  }

  // ----- writes that land in order ---------------------------------------------------------------------------

  /** A callback reports at most a hundred per cent; the writes of a job land in the order in which they were
      handed over, which is that of their percents; and a job is not finished while one is pending. */
  ghost predicate Orderly(s: Core, e: Event) {
    match e
    case Report(_, percent) => percent <= 100
    case Land(w) => forall v: Write | Pending(s, v, w.id) :: w.percent <= v.percent
    case Finish(c, _) => !PhaseOf(s, c).Idle? ==> forall v: Write :: !Pending(s, v, PhaseOf(s, c).id)
    case _ => true
  }

  ghost predicate OrderlyRun(events: seq<Event>, states: seq<Core>)
    requires |states| == |events| + 1
  {
    forall n: nat | n < |events| :: OrderlyAt(events, states, n)
  }

  ghost predicate OrderlyAt(events: seq<Event>, states: seq<Core>, n: nat)
    requires n < |events| && |states| == |events| + 1
  {
    Orderly(states[n], events[n])
  }

  /** What the record says of a job at each stage. */
  ghost predicate RecordOk(s: Core, id: Id) {
    id in s.jobs ==> s.jobs[id].progress <= 100 && (s.jobs[id].status == Queued ==> s.jobs[id].progress == 0)
  }

  ghost predicate WorkOk(s: Core, c: nat) {
    match PhaseOf(s, c)
    case Running(id) => id in s.jobs && s.jobs[id].progress == 1
    case Synthesizing(id, furthest) => id in s.jobs && 0 <= furthest <= 100
      && (s.jobs[id].progress <= 1 || s.jobs[id].progress <= furthest)
    case _ => true
  }

  /** A pending write belongs to a job being synthesized, between its record and what was last reported. */
  ghost predicate WriteOk(s: Core, w: Write) {
    s.writes[w] > 0 ==> exists c :: WritesFor(s, c, w)
  }

  ghost predicate WritesFor(s: Core, c: nat, w: Write) {
    && PhaseOf(s, c).Synthesizing? && PhaseOf(s, c).id == w.id && w.percent <= PhaseOf(s, c).furthest
    && w.id in s.jobs && s.jobs[w.id].progress <= w.percent
  }

  ghost predicate InOrderInv(s: Core) {
    && Inv(s)
    && (forall id :: RecordOk(s, id))
    && (forall c :: WorkOk(s, c))
    && (forall w :: WriteOk(s, w))
  }

  /** The record of one job moves forward. */
  ghost predicate Forward(s: Core, t: Core, id: Id) {
    id in s.jobs ==> id in t.jobs && s.jobs[id].progress <= t.jobs[id].progress
  }

  ghost predicate StepForward(s: Core, t: Core) {
    && (forall id :: RecordOk(t, id) && Forward(s, t, id))
    && (forall c :: WorkOk(t, c))
    && (forall w :: WriteOk(t, w))
  }

  /** Neither records, nor writes, nor a synthesis change. */
  ghost predicate Quiet(s: Core, t: Core, c: nat) {
    && t.jobs == s.jobs && t.writes == s.writes
    && (forall d | d != c :: PhaseOf(t, d) == PhaseOf(s, d))
    && !PhaseOf(s, c).Synthesizing? && !PhaseOf(t, c).Synthesizing? && !PhaseOf(t, c).Running?
  }

  lemma QuietKeeps(s: Core, t: Core, c: nat)
    requires InOrderInv(s) && Quiet(s, t, c)
    ensures StepForward(s, t)
  {
    forall id ensures RecordOk(t, id) && Forward(s, t, id) {
      assert RecordOk(s, id);
    }
    forall d ensures WorkOk(t, d) {
      assert WorkOk(s, d);
    }
    forall w ensures WriteOk(t, w) {
      assert WriteOk(s, w);
      if d :| WritesFor(s, d, w) {
        assert WritesFor(t, d, w);
      }
    }
  }

  lemma CreateForward(s: Core, id: Id, tier: Tier)
    requires InOrderInv(s) && Enabled(s, Create(id, tier))
    ensures StepForward(s, Step(s, Create(id, tier)))
  {
    var t := Step(s, Create(id, tier));
    forall j ensures RecordOk(t, j) && Forward(s, t, j) {
      assert RecordOk(s, j);
    }
    forall d ensures WorkOk(t, d) {
      assert WorkOk(s, d);
    }
    forall w ensures WriteOk(t, w) {
      assert WriteOk(s, w);
      if d :| WritesFor(s, d, w) {
        assert WritesFor(t, d, w);
      }
    }
  }

  lemma EnqueueForward(s: Core, id: Id)
    requires InOrderInv(s) && Enabled(s, Enqueue(id))
    ensures StepForward(s, Step(s, Enqueue(id)))
  {
    var t := Step(s, Enqueue(id));
    forall j ensures RecordOk(t, j) && Forward(s, t, j) {
      assert RecordOk(s, j);
    }
    forall d ensures WorkOk(t, d) {
      assert WorkOk(s, d);
    }
    forall w ensures WriteOk(t, w) {
      assert WriteOk(s, w);
      if d :| WritesFor(s, d, w) {
        assert WritesFor(t, d, w);
      }
    }
  }

  /** A step by `c` about the job it holds: the others' work and writes are as they were. */
  lemma OthersWork(s: Core, t: Core, c: nat, id: Id)
    requires InOrderInv(s) && Holds(s, c, id)
    requires forall d | d != c :: PhaseOf(t, d) == PhaseOf(s, d)
    requires forall j | j != id :: (j in t.jobs <==> j in s.jobs) && (j in s.jobs ==> t.jobs[j] == s.jobs[j])
    ensures forall d | d != c :: WorkOk(t, d)
    ensures forall w: Write | w.id != id && t.writes[w] <= s.writes[w] :: WriteOk(t, w)
  {
    AloneWithIt(s, c);
    forall d | d != c ensures WorkOk(t, d) {
      assert WorkOk(s, d) && !Holds(s, d, id);
    }
    forall w: Write | w.id != id && t.writes[w] <= s.writes[w] ensures WriteOk(t, w) {
      assert WriteOk(s, w);
      if d :| WritesFor(s, d, w) {
        assert d != c;
        assert WritesFor(t, d, w);
      }
    }
  }

  /** A job that is not being synthesized has no pending write. */
  lemma NoWrites(s: Core, c: nat, w: Write)
    requires InOrderInv(s) && !PhaseOf(s, c).Idle? && !PhaseOf(s, c).Synthesizing? && w.id == PhaseOf(s, c).id
    ensures s.writes[w] == 0
  {
    assert WriteOk(s, w);
    AloneWithIt(s, c);
    if d :| WritesFor(s, d, w) {
      assert Holds(s, d, w.id);
      assert false;
    }
  }

  lemma MarkForward(s: Core, c: nat)
    requires InOrderInv(s) && Enabled(s, MarkProcessing(c))
    ensures StepForward(s, Step(s, MarkProcessing(c)))
  {
    var t, id := Step(s, MarkProcessing(c)), PhaseOf(s, c).id;
    assert HolderOk(s, c);
    OthersWork(s, t, c, id);
    forall j ensures RecordOk(t, j) && Forward(s, t, j) {
      assert RecordOk(s, j);
    }
    assert WorkOk(t, c);
    forall w ensures WriteOk(t, w) {
      if w.id == id {
        NoWrites(s, c, w);
      }
    }
  }

  lemma StartForward(s: Core, c: nat)
    requires InOrderInv(s) && Enabled(s, StartSynthesis(c))
    ensures StepForward(s, Step(s, StartSynthesis(c)))
  {
    var t, id := Step(s, StartSynthesis(c)), PhaseOf(s, c).id;
    OthersWork(s, t, c, id);
    forall j ensures RecordOk(t, j) && Forward(s, t, j) {
      assert RecordOk(s, j);
    }
    assert WorkOk(s, c);
    assert WorkOk(t, c);
    forall w ensures WriteOk(t, w) {
      if w.id == id {
        NoWrites(s, c, w);
      }
    }
  }

  lemma ReportForward(s: Core, c: nat, percent: int)
    requires InOrderInv(s) && Enabled(s, Report(c, percent)) && percent <= 100
    ensures StepForward(s, Step(s, Report(c, percent)))
  {
    var t, id := Step(s, Report(c, percent)), PhaseOf(s, c).id;
    OthersWork(s, t, c, id);
    AloneWithIt(s, c);
    forall j ensures RecordOk(t, j) && Forward(s, t, j) {
      assert RecordOk(s, j);
    }
    assert WorkOk(s, c);
    assert WorkOk(t, c);
    forall w ensures WriteOk(t, w) {
      if w.id == id && t.writes[w] > 0 {
        assert WriteOk(s, w);
        if s.writes[w] > 0 {
          var d :| WritesFor(s, d, w);
          assert d == c by {
            assert Holds(s, d, id);
          }
        }
        assert WritesFor(t, c, w);
      }
    }
  }

  lemma LandForward(s: Core, w: Write)
    requires InOrderInv(s) && Enabled(s, Land(w)) && Orderly(s, Land(w))
    ensures StepForward(s, Step(s, Land(w)))
  {
    var t, id := Step(s, Land(w)), w.id;
    assert WriteOk(s, w);
    var c :| WritesFor(s, c, w);
    assert HolderOk(s, c) && WorkOk(s, c) && Holds(s, c, id);
    OthersWork(s, t, c, id);
    AloneWithIt(s, c);
    forall j ensures RecordOk(t, j) && Forward(s, t, j) {
      assert RecordOk(s, j);
    }
    assert WorkOk(t, c);
    forall v ensures WriteOk(t, v) {
      if v.id == id && t.writes[v] > 0 {
        assert Pending(s, v, id) && WriteOk(s, v);
        var d :| WritesFor(s, d, v);
        assert d == c by {
          assert Holds(s, d, id);
        }
        assert WritesFor(t, c, v);
      }
    }
  }

  lemma FinishForward(s: Core, c: nat, ok: bool)
    requires InOrderInv(s) && Enabled(s, Finish(c, ok)) && Orderly(s, Finish(c, ok))
    ensures StepForward(s, Step(s, Finish(c, ok)))
  {
    var t, id := Step(s, Finish(c, ok)), PhaseOf(s, c).id;
    OthersWork(s, t, c, id);
    forall j ensures RecordOk(t, j) && Forward(s, t, j) {
      assert RecordOk(s, j);
    }
    assert WorkOk(t, c);
    forall w ensures WriteOk(t, w) {
      assert w.id == id ==> !Pending(s, w, id);
    }
  }

  lemma OrderlyStep(s: Core, e: Event)
    requires InOrderInv(s) && Enabled(s, e) && Orderly(s, e)
    ensures InOrderInv(Step(s, e))
    ensures forall id :: Forward(s, Step(s, e), id)
  {
    StepKeepsInv(s, e);
    match e
    case Create(id, tier) => CreateForward(s, id, tier);
    case Enqueue(id) => EnqueueForward(s, id);
    case Dequeue(c, _) => QuietKeeps(s, Step(s, e), c);
    case Load(c) => QuietKeeps(s, Step(s, e), c);
    case MarkProcessing(c) => MarkForward(s, c);
    case StartSynthesis(c) => StartForward(s, c);
    case Report(c, percent) => ReportForward(s, c, percent);
    case Land(w) => LandForward(s, w);
    case Finish(c, ok) => FinishForward(s, c, ok);
    case Release(c) => QuietKeeps(s, Step(s, e), c);
  }

  lemma {:induction false} OrderlyKeeps(s: Core, events: seq<Event>, states: seq<Core>, n: nat)
    requires Initial(s) && RunFrom(s, events, states) && OrderlyRun(events, states) && n <= |events|
    ensures InOrderInv(states[n])
  {
    if n == 0 {
      InitialInv(s);
    } else {
      OrderlyKeeps(s, events, states, n - 1);
      assert StepAt(events, states, n - 1) && OrderlyAt(events, states, n - 1);
      OrderlyStep(states[n - 1], events[n - 1]);
    }
  }

  lemma {:induction false} OrderlyForward(s: Core, events: seq<Event>, states: seq<Core>, id: Id, n: nat, m: nat)
    requires Initial(s) && RunFrom(s, events, states) && OrderlyRun(events, states) && n <= m <= |events|
    ensures Forward(states[n], states[m], id)
  {
    if n < m {
      OrderlyForward(s, events, states, id, n, m - 1);
      OrderlyKeeps(s, events, states, m - 1);
      assert StepAt(events, states, m - 1) && OrderlyAt(events, states, m - 1);
      OrderlyStep(states[m - 1], events[m - 1]);
      assert Forward(states[m - 1], states[m], id);
    }
  }

  /** Order is all it takes: in every run whose writes land in order, and before the end of their job, the
      progress of no job ever goes backwards. */
  lemma OrderlyRunsNeverFall(s: Core, events: seq<Event>, states: seq<Core>, id: Id)
    requires Initial(s) && RunFrom(s, events, states) && OrderlyRun(events, states)
    ensures NeverFalls(states, id)
  {
    forall n: nat, m: nat | n <= m < |states| ensures NoFall(states, id, n, m) {
      OrderlyForward(s, events, states, id, n, m);
    }
  }
}
