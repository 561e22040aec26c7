/** The consumers' protocol over whole runs. */
module JobRuns {
  import opened JobCore

  ghost predicate RunFrom(s: Core, events: seq<Event>, states: seq<Core>) {
    && |states| == |events| + 1 && states[0] == s
    && forall n: nat | n < |events| :: StepAt(events, states, n)
  }

  ghost predicate StepAt(events: seq<Event>, states: seq<Core>, n: nat)
    requires n < |events| && |states| == |events| + 1
  {
    Enabled(states[n], events[n]) && states[n + 1] == Step(states[n], events[n])
  }

  lemma {:induction false} RunKeepsInv(s: Core, events: seq<Event>, states: seq<Core>, n: nat)
    requires Inv(s) && RunFrom(s, events, states) && n <= |events|
    ensures Inv(states[n])
  {
    if n > 0 {
      RunKeepsInv(s, events, states, n - 1);
      assert StepAt(events, states, n - 1);
      StepKeepsInv(states[n - 1], events[n - 1]);
    }
  }

  // ----- one place at a time -----------------------------------------------------------------------------------

  predicate Waiting(s: Core, id: Id) {
    s.queue[id] == 1
  }

  ghost predicate HeldByOne(s: Core, id: Id) {
    exists c :: Holds(s, c, id) && forall d | Holds(s, d, id) :: d == c
  }

  /** The job is finished and nobody is concerned with it any more. */
  ghost predicate Settled(s: Core, id: Id) {
    IsTerminal(s, id) && !Held(s, id)
  }

  /** In exactly one of the queue, one consumer's hands, and the finished jobs. */
  ghost predicate InOnePlace(s: Core, id: Id) {
    && (Waiting(s, id) || HeldByOne(s, id) || Settled(s, id))
    && !(Waiting(s, id) && Held(s, id)) && !(Waiting(s, id) && Settled(s, id))
    && s.queue[id] <= 1
  }

  lemma HeldMeansHeldByOne(s: Core, id: Id)
    requires Inv(s) && Held(s, id)
    ensures HeldByOne(s, id) && s.queue[id] == 0
  {
    var c :| Holds(s, c, id);
    AloneWithIt(s, c);
  }

  lemma PlacedInOnePlace(s: Core, id: Id)
    requires Inv(s) && id in s.enqueued
    ensures InOnePlace(s, id)
  {
    assert JobOk(s, id) && Placed(s, id);
    if Held(s, id) {
      HeldMeansHeldByOne(s, id);
    }
  }

  lemma ProcessingIsHeld(s: Core, id: Id)
    requires Inv(s) && StatusIs(s, id, Processing)
    ensures HeldByOne(s, id)
  {
    assert JobOk(s, id) && Placed(s, id);
    HeldMeansHeldByOne(s, id);
  }

  /** In every interleaving, at every moment: an enqueued job is in exactly one place, its synthesis
      has started at most once, exactly once if it completed, and a job marked as processing is in
      exactly one consumer's hands. */
  lemma EveryJobHasOnePlace(s: Core, events: seq<Event>, states: seq<Core>, n: nat, id: Id)
    requires Initial(s) && RunFrom(s, events, states) && n <= |events|
    ensures id in states[n].enqueued ==> InOnePlace(states[n], id)
    ensures states[n].starts[id] <= 1
    ensures StatusIs(states[n], id, Completed) ==> states[n].starts[id] == 1
    ensures StatusIs(states[n], id, Processing) ==> HeldByOne(states[n], id)
  {
    InitialInv(s);
    RunKeepsInv(s, events, states, n);
    assert JobOk(states[n], id);
    if id in states[n].enqueued {
      PlacedInOnePlace(states[n], id);
    }
    if StatusIs(states[n], id, Processing) {
      ProcessingIsHeld(states[n], id);
    }
  }

  // ----- terminal for ever ---------------------------------------------------------------------------------------

  /** Once a job has completed or failed its status never changes, however late progress lands. */
  lemma {:induction false} TerminalForEver(s: Core, events: seq<Event>, states: seq<Core>, n: nat, m: nat, id: Id)
    requires Inv(s) && RunFrom(s, events, states) && n <= m <= |events| && IsTerminal(states[n], id)
    ensures IsTerminal(states[m], id) && states[m].jobs[id].status == states[n].jobs[id].status
  {
    if n < m {
      TerminalForEver(s, events, states, n, m - 1, id);
      RunKeepsInv(s, events, states, m - 1);
      assert StepAt(events, states, m - 1);
      StepKeepsTerminal(states[m - 1], events[m - 1], id);
    }
  }

  // ----- progress after completion ----------------------------------------------------------------------------------

  /** Every progress write still pending for the job repeats what its record says. */
  ghost predicate NothingPending(s: Core, id: Id) {
    id in s.jobs && forall w: Write | s.writes[w] > 0 && w.id == id :: w.percent == s.jobs[id].progress
  }

  lemma StepKeepsRecord(s: Core, e: Event, id: Id)
    requires Inv(s) && Enabled(s, e) && IsTerminal(s, id) && NothingPending(s, id)
    ensures id in Step(s, e).jobs && Step(s, e).jobs[id] == s.jobs[id]
  {
    match e
    case Create(_, _) =>
    case Enqueue(_) =>
    case Dequeue(_, _) =>
    case Load(c) =>
    case MarkProcessing(c) => assert HolderOk(s, c);
    case StartSynthesis(c) =>
    case Report(c, _) =>
    case Land(w) =>
    case Finish(c, _) => assert HolderOk(s, c);
    case Release(c) =>
  }

  /** Writes are only added for a job that is being synthesized. */
  lemma StepAddsNoWrite(s: Core, e: Event, w: Write)
    requires Inv(s) && Enabled(s, e) && IsTerminal(s, w.id)
    ensures Step(s, e).writes[w] <= s.writes[w]
  {
    match e
    case Report(c, _) => assert HolderOk(s, c);
    case _ =>
  }

  lemma StepKeepsProgress(s: Core, e: Event, id: Id)
    requires Inv(s) && Enabled(s, e) && IsTerminal(s, id) && NothingPending(s, id)
    ensures IsTerminal(Step(s, e), id) && NothingPending(Step(s, e), id)
    ensures Step(s, e).jobs[id].progress == s.jobs[id].progress
  {
    StepKeepsRecord(s, e, id);
    forall w: Write | Step(s, e).writes[w] > 0 && w.id == id ensures w.percent == s.jobs[id].progress {
      StepAddsNoWrite(s, e, w);
    }
  }

  ghost predicate ProgressStays(s: Core, states: seq<Core>, id: Id)
    requires id in s.jobs
  {
    forall n | 0 <= n < |states| :: id in states[n].jobs && states[n].jobs[id].progress == s.jobs[id].progress
  }

  lemma {:induction false} NothingPendingStays(s: Core, events: seq<Event>, states: seq<Core>, id: Id, n: nat)
    requires Inv(s) && RunFrom(s, events, states) && IsTerminal(s, id) && NothingPending(s, id) && n <= |events|
    ensures IsTerminal(states[n], id) && NothingPending(states[n], id)
    ensures states[n].jobs[id].progress == s.jobs[id].progress
  {
    if n > 0 {
      NothingPendingStays(s, events, states, id, n - 1);
      RunKeepsInv(s, events, states, n - 1);
      assert StepAt(events, states, n - 1);
      StepKeepsProgress(states[n - 1], events[n - 1], id);
    }
  }

  lemma PendingWriteLands(s: Core, id: Id, w: Write)
    requires IsTerminal(s, id) && s.writes[w] > 0 && w.id == id && w.percent != s.jobs[id].progress
    ensures exists events, states :: RunFrom(s, events, states) && !ProgressStays(s, states, id)
  {
    var events, states := [Land(w)], [s, Step(s, Land(w))];
    assert StepAt(events, states, 0);
    assert RunFrom(s, events, states);
    assert states[1].jobs[id].progress == w.percent;
  }

  /** The progress of a finished job stays put in every continuation exactly when nothing different
      is still pending for it: a callback handed over before the end may land after it. */
  lemma ProgressStaysIffNothingPending(s: Core, id: Id)
    requires Inv(s) && IsTerminal(s, id)
    ensures (forall events: seq<Event>, states: seq<Core> | RunFrom(s, events, states) :: ProgressStays(s, states, id))
      <==> NothingPending(s, id)
  {
    if NothingPending(s, id) {
      forall events: seq<Event>, states: seq<Core> | RunFrom(s, events, states) ensures ProgressStays(s, states, id) {
        forall n | 0 <= n < |states|
          ensures id in states[n].jobs && states[n].jobs[id].progress == s.jobs[id].progress
        {
          NothingPendingStays(s, events, states, id, n);
        }
      }
    } else {
      var w :| s.writes[w] > 0 && w.id == id && w.percent != s.jobs[id].progress;
      PendingWriteLands(s, id, w);
    }
  }

  /** One job's way to its first callback, state by state. */
  function Way(n: nat): Core {
    var idle, none: multiset<Id> := map[0 := Idle], multiset{};
    var stored := map[0 := Rec(Queued, 0, Untiered)];
    var working := map[0 := Rec(Processing, 1, Untiered)];
    if n == 0 then Core(map[], none, idle, multiset{}, {}, none)
    else if n == 1 then Core(stored, none, idle, multiset{}, {}, none)
    else if n == 2 then Core(stored, multiset{0}, idle, multiset{}, {0}, none)
    else if n == 3 then Core(stored, none, map[0 := Fetched(0)], multiset{}, {0}, none)
    else if n == 4 then Core(stored, none, map[0 := Loaded(0)], multiset{}, {0}, none)
    else if n == 5 then Core(working, none, map[0 := Running(0)], multiset{}, {0}, none)
    else if n == 6 then Core(working, none, map[0 := Synthesizing(0, 0)], multiset{}, {0}, multiset{0})
    else Reported()
  }

  function WayEvent(n: nat): Event {
    if n == 0 then Create(0, Untiered)
    else if n == 1 then Enqueue(0)
    else if n == 2 then Dequeue(0, 0)
    else if n == 3 then Load(0)
    else if n == 4 then MarkProcessing(0)
    else if n == 5 then StartSynthesis(0)
    else Report(0, 40)
  }

  /** A consumer at work on job 0, one callback handed over. */
  function Reported(): Core {
    Core(map[0 := Rec(Processing, 1, Untiered)], multiset{}, map[0 := Synthesizing(0, 40)],
         multiset{Write(0, 40)}, {0}, multiset{0})
  }

  lemma WayStarts(n: nat)
    requires n < 4
    ensures Enabled(Way(n), WayEvent(n)) && Way(n + 1) == Step(Way(n), WayEvent(n))
  {
    if n == 0 {
    } else if n == 1 {
      assert multiset{} + multiset{0} == multiset{0};
    } else if n == 2 {
      assert multiset{0} - multiset{0} == multiset{};
    }
  }

  lemma WayMarks()
    ensures Enabled(Way(4), WayEvent(4)) && Way(5) == Step(Way(4), WayEvent(4))
  {
    var id: Id := 0;
    assert SetProgress(SetStatus(Way(4).jobs, id, Processing), id, 1) == Way(5).jobs;
    assert Way(4).consumers[0 := Running(id)] == Way(5).consumers;
  }

  lemma WaySynthesizes()
    ensures Enabled(Way(5), WayEvent(5)) && Way(6) == Step(Way(5), WayEvent(5))
  {
    var id: Id := 0;
    assert Way(5).consumers[0 := Synthesizing(id, 0)] == Way(6).consumers;
  }

  lemma WayReports()
    ensures Enabled(Way(6), WayEvent(6)) && Way(7) == Step(Way(6), WayEvent(6))
  {
    var id: Id := 0;
    assert Way(6).consumers[0 := Synthesizing(id, 40)] == Way(7).consumers;
  }

  /** That state is reached from an idle start. */
  lemma ReportedIsReachable() returns (s: Core, events: seq<Event>, states: seq<Core>)
    ensures Initial(s) && RunFrom(s, events, states) && states[|events|] == Reported()
  {
    s := Way(0);
    events, states := seq(7, n requires 0 <= n => WayEvent(n)), seq(8, n requires 0 <= n => Way(n));
    forall n: nat | n < 7 ensures StepAt(events, states, n) {
      if n < 4 {
        WayStarts(n);
      } else if n == 4 {
        WayMarks();
      } else if n == 5 {
        WaySynthesizes();
      } else {
        WayReports();
      }
    }
  }

  /** So the progress of a completed job can fall from 100 to 40. */
  lemma ProgressCanFall()
    ensures var done := Step(Reported(), Finish(0, true));
      && StatusIs(done, 0, Completed) && done.jobs[0].progress == 100
      && Enabled(done, Land(Write(0, 40)))
      && StatusIs(Step(done, Land(Write(0, 40))), 0, Completed)
      && Step(done, Land(Write(0, 40))).jobs[0].progress == 40
  {
  }
}
