/** How a job ends: its final status tells what its holder reported, and nothing else ends it. */
module JobOutcomes {
  import opened Options
  import opened JobCore
  import opened JobRuns
  import opened ProgressRuns

  /** The consumer reports the end of the synthesis of the job it holds. */
  predicate Ends(s: Core, e: Event, id: Id, ok: bool) {
    e.Finish? && Holds(s, e.c, id) && e.ok == ok
  }

  /** The job in hand ends as the synthesis ended, with full progress if it went well and with its progress
      left alone if not; no other record changes. */
  lemma FinishSetsStatus(s: Core, c: nat, ok: bool)
    requires Inv(s) && Enabled(s, Finish(c, ok))
    ensures var id, t := PhaseOf(s, c).id, Step(s, Finish(c, ok));
      && StatusIs(t, id, if ok then Completed else Failed)
      && t.jobs[id].progress == (if ok then 100 else s.jobs[id].progress)
      && PhaseOf(t, c) == Releasing(id)
    ensures forall other | other != PhaseOf(s, c).id :: SameJob(s, Step(s, Finish(c, ok)), other)
  {
    assert HolderOk(s, c);
  }

  /** A job turns terminal in no other way than by its holder's report. */
  lemma OnlyFinishEnds(s: Core, e: Event, id: Id)
    requires Inv(s) && Enabled(s, e) && !IsTerminal(s, id) && IsTerminal(Step(s, e), id)
    ensures exists ok :: Ends(s, e, id, ok) && StatusIs(Step(s, e), id, if ok then Completed else Failed)
  {
    match e
    case Create(_, _) => assert false;
    case Enqueue(_) => assert false;
    case Dequeue(_, _) => assert false;
    case Load(_) => assert false;
    case MarkProcessing(_) => assert false;
    case StartSynthesis(_) => assert false;
    case Report(_, _) => assert false;
    case Land(w) => LandKeepsStatus(s, w, id);
    case Finish(c, ok) => FinishSetsStatus(s, c, ok); assert Ends(s, e, id, ok);
    case Release(_) => assert false;
  }

  // ----- over whole runs -------------------------------------------------------------------------------------------

  ghost predicate EndedBefore(events: seq<Event>, states: seq<Core>, n: nat, id: Id, ok: bool)
    requires n <= |events| && |states| == |events| + 1
  {
    exists k: nat :: k < n && Ends(states[k], events[k], id, ok)
  }

  lemma EndStays(s: Core, events: seq<Event>, states: seq<Core>, n: nat, k: nat, id: Id, ok: bool)
    requires Inv(s) && RunFrom(s, events, states) && k < n <= |events| && Ends(states[k], events[k], id, ok)
    ensures StatusIs(states[n], id, if ok then Completed else Failed)
  {
    RunKeepsInv(s, events, states, k);
    assert StepAt(events, states, k);
    FinishSetsStatus(states[k], events[k].c, ok);
    TerminalForEver(s, events, states, k + 1, n, id);
  }

  lemma {:induction false} TerminalHasEnd(s: Core, events: seq<Event>, states: seq<Core>, n: nat, id: Id)
    returns (k: nat, ok: bool)
    requires Initial(s) && RunFrom(s, events, states) && n <= |events| && IsTerminal(states[n], id)
    ensures k < n && Ends(states[k], events[k], id, ok)
  {
    InitialInv(s);
    var last := n - 1;
    assert StepAt(events, states, last);
    RunKeepsInv(s, events, states, last);
    if IsTerminal(states[last], id) {
      k, ok := TerminalHasEnd(s, events, states, last, id);
    } else {
      OnlyFinishEnds(states[last], events[last], id);
      k, ok := last, events[last].ok;
    }
  }

  /** In every run from an idle start: a job is completed at a moment if and only if its holder has reported
      success before, and failed if and only if its holder has reported a failure before. */
  lemma EndsAsReported(s: Core, events: seq<Event>, states: seq<Core>, n: nat, id: Id)
    requires Initial(s) && RunFrom(s, events, states) && n <= |events|
    ensures StatusIs(states[n], id, Completed) <==> EndedBefore(events, states, n, id, true)
    ensures StatusIs(states[n], id, Failed) <==> EndedBefore(events, states, n, id, false)
  {
    InitialInv(s);
    forall k: nat, ok | k < n && Ends(states[k], events[k], id, ok)
      ensures StatusIs(states[n], id, if ok then Completed else Failed)
    {
      EndStays(s, events, states, n, k, id, ok);
    }
    if IsTerminal(states[n], id) {
      var k, ok := TerminalHasEnd(s, events, states, n, id);
      EndStays(s, events, states, n, k, id, ok);
    }
  }

  // ----- the status from the history ---------------------------------------------------------------------------------

  predicate Marks(s: Core, e: Event, id: Id) {
    e.MarkProcessing? && Holds(s, e.c, id)
  }

  ghost predicate MarkedBefore(events: seq<Event>, states: seq<Core>, n: nat, id: Id)
    requires n <= |events| && |states| == |events| + 1
  {
    exists k: nat :: k < n && Marks(states[k], events[k], id)
  }

  ghost predicate CreatedBefore(events: seq<Event>, n: nat, id: Id, tier: Tier)
    requires n <= |events|
  {
    exists k: nat :: k < n && events[k] == Create(id, tier)
  }

  lemma StepCreates(s: Core, e: Event, id: Id, tier: Tier)
    requires Inv(s) && Enabled(s, e)
    ensures var t := Step(s, e);
      id in t.jobs && t.jobs[id].tier == tier <==> (id in s.jobs && s.jobs[id].tier == tier) || e == Create(id, tier)
  {
    if id in s.jobs {
      StepKeepsTerminal(s, e, id);
    } else {
      StepStoresNothing(s, e, id);
    }
  }

  lemma StepStoresNothing(s: Core, e: Event, id: Id)
    requires Enabled(s, e) && id !in s.jobs
    ensures id in Step(s, e).jobs ==> e == Create(id, Step(s, e).jobs[id].tier)
  {
  }

  /** A stored job leaves the queued status only as its holder marks it. */
  lemma StepMarks(s: Core, e: Event, id: Id)
    requires Inv(s) && Enabled(s, e)
    ensures StatusIs(Step(s, e), id, Queued) <==>
      (StatusIs(s, id, Queued) && !Marks(s, e, id)) || (e.Create? && e.id == id)
  {
    match e
    case Create(_, _) =>
    case Enqueue(_) =>
    case Dequeue(_, _) =>
    case Load(_) =>
    case MarkProcessing(c) => assert HolderOk(s, c);
    case StartSynthesis(_) =>
    case Report(_, _) =>
    case Land(w) => LandKeepsStatus(s, w, id);
    case Finish(c, ok) => assert HolderOk(s, c);
    case Release(_) =>
  }

  lemma {:induction false} StoredIfCreated(s: Core, events: seq<Event>, states: seq<Core>, n: nat, id: Id, tier: Tier)
    requires Initial(s) && RunFrom(s, events, states) && n <= |events|
    ensures id in states[n].jobs && states[n].jobs[id].tier == tier <==> CreatedBefore(events, n, id, tier)
  {
    if n > 0 {
      var last := n - 1;
      StoredIfCreated(s, events, states, last, id, tier);
      assert StepAt(events, states, last);
      InitialInv(s);
      RunKeepsInv(s, events, states, last);
      StepCreates(states[last], events[last], id, tier);
    }
  }

  lemma MarksStored(s: Core, e: Event, id: Id)
    requires Inv(s) && Enabled(s, e) && Marks(s, e, id)
    ensures id in s.jobs
  {
    assert HolderOk(s, e.c);
  }

  lemma {:induction false} QueuedUntilMarked(s: Core, events: seq<Event>, states: seq<Core>, n: nat, id: Id)
    requires Initial(s) && RunFrom(s, events, states) && n <= |events|
    ensures StatusIs(states[n], id, Queued) <==> id in states[n].jobs && !MarkedBefore(events, states, n, id)
    ensures MarkedBefore(events, states, n, id) ==> id in states[n].jobs
  {
    if n > 0 {
      var last := n - 1;
      QueuedUntilMarked(s, events, states, last, id);
      assert StepAt(events, states, last);
      InitialInv(s);
      RunKeepsInv(s, events, states, last);
      var before, e := states[last], events[last];
      StepMarks(before, e, id);
      if Marks(before, e, id) {
        MarksStored(before, e, id);
      }
      if id in before.jobs {
        StepKeepsTerminal(before, e, id);
      } else {
        StepStoresNothing(before, e, id);
      }
    }
  }

  /** So what happened decides the whole record but its progress: a job is stored, with its tier, once it was
      created; queued until its holder marks it; then processing until its holder reports the end; then, for
      ever, completed or failed as reported. */
  lemma StatusFollowsHistory(s: Core, events: seq<Event>, states: seq<Core>, n: nat, id: Id, tier: Tier)
    requires Initial(s) && RunFrom(s, events, states) && n <= |events|
    ensures id in states[n].jobs && states[n].jobs[id].tier == tier <==> CreatedBefore(events, n, id, tier)
    ensures StatusIs(states[n], id, Queued) <==> id in states[n].jobs && !MarkedBefore(events, states, n, id)
    ensures StatusIs(states[n], id, Processing) <==>
      && MarkedBefore(events, states, n, id)
      && !EndedBefore(events, states, n, id, true) && !EndedBefore(events, states, n, id, false)
    ensures StatusIs(states[n], id, Completed) <==> EndedBefore(events, states, n, id, true)
    ensures StatusIs(states[n], id, Failed) <==> EndedBefore(events, states, n, id, false)
  {
    StoredIfCreated(s, events, states, n, id, tier);
    QueuedUntilMarked(s, events, states, n, id);
    EndsAsReported(s, events, states, n, id);
  }

  // ----- the progress from the history ------------------------------------------------------------------------------

  /** The progress that a step gives the job, if it gives any. */
  function Gives(s: Core, e: Event, id: Id): Option<int> {
    match e
    case Create(other, _) => if other == id then Some(0) else None
    case MarkProcessing(c) => if Holds(s, c, id) then Some(1) else None
    case Land(w) => if w.id == id then Some(w.percent) else None
    case Finish(c, ok) => if Holds(s, c, id) && ok then Some(100) else None
    case _ => None
  }

  ghost predicate LastGiven(events: seq<Event>, states: seq<Core>, n: nat, id: Id, k: nat, percent: int)
    requires n <= |events| && |states| == |events| + 1
  {
    && k < n && Gives(states[k], events[k], id) == Some(percent)
    && forall j | k < j < n :: Gives(states[j], events[j], id) == None
  }

  ghost predicate GivenAt(s: Core, t: Core, given: Option<int>, id: Id) {
    id in t.jobs ==> match given
      case Some(percent) => t.jobs[id].progress == percent
      case None => id in s.jobs && t.jobs[id].progress == s.jobs[id].progress
  }

  lemma MarkGives(s: Core, c: nat, id: Id)
    requires Inv(s) && Enabled(s, MarkProcessing(c))
    ensures GivenAt(s, Step(s, MarkProcessing(c)), Gives(s, MarkProcessing(c), id), id)
  {
    assert HolderOk(s, c);
  }

  lemma FinishGives(s: Core, c: nat, ok: bool, id: Id)
    requires Inv(s) && Enabled(s, Finish(c, ok))
    ensures GivenAt(s, Step(s, Finish(c, ok)), Gives(s, Finish(c, ok), id), id)
  {
    FinishSetsStatus(s, c, ok);
    assert id != PhaseOf(s, c).id ==> SameJob(s, Step(s, Finish(c, ok)), id);
  }

  lemma OthersGive(s: Core, e: Event, id: Id)
    requires Enabled(s, e) && !e.MarkProcessing? && !e.Finish?
    ensures GivenAt(s, Step(s, e), Gives(s, e, id), id)
  {
  }

  lemma StepGives(s: Core, e: Event, id: Id)
    requires Inv(s) && Enabled(s, e)
    ensures GivenAt(s, Step(s, e), Gives(s, e, id), id)
  {
    match e
    case MarkProcessing(c) => MarkGives(s, c, id);
    case Finish(c, ok) => FinishGives(s, c, ok, id);
    case _ => OthersGive(s, e, id);
  }

  /** The progress of a stored job is the one it was last given: 0 as it was created, 1 as it was marked, the
      percent of a write as it landed, 100 as it completed. */
  lemma {:induction false} ProgressIsLastGiven(s: Core, events: seq<Event>, states: seq<Core>, n: nat, id: Id)
    returns (k: nat)
    requires Initial(s) && RunFrom(s, events, states) && n <= |events| && id in states[n].jobs
    ensures LastGiven(events, states, n, id, k, states[n].jobs[id].progress)
  {
    var last := n - 1;
    assert StepAt(events, states, last);
    InitialInv(s);
    RunKeepsInv(s, events, states, last);
    StepGives(states[last], events[last], id);
    if Gives(states[last], events[last], id).Some? {
      k := last;
    } else {
      k := ProgressIsLastGiven(s, events, states, last, id);
    }
  }

  /** The holder of the job handed the write over, as an advance on all it had handed over before. */
  predicate HandsOver(s: Core, e: Event, w: Write) {
    e.Report? && Holds(s, e.c, w.id) && e.percent == w.percent
    && PhaseOf(s, e.c).Synthesizing? && w.percent > PhaseOf(s, e.c).furthest
  }

  lemma StepHandsOver(s: Core, e: Event, w: Write)
    requires Enabled(s, e)
    ensures Step(s, e).writes[w] ==
      s.writes[w] + (if HandsOver(s, e, w) then 1 else 0) - (if e == Land(w) then 1 else 0)
  {
    if e.Report? {
      ReportHandsOver(s, e.c, e.percent, w);
    }
  }

  lemma ReportHandsOver(s: Core, c: nat, percent: int, w: Write)
    requires Enabled(s, Report(c, percent))
    ensures Step(s, Report(c, percent)).writes[w] ==
      s.writes[w] + (if HandsOver(s, Report(c, percent), w) then 1 else 0)
  {
  }

  function HandedOver(events: seq<Event>, states: seq<Core>, n: nat, w: Write): nat
    requires n <= |events| && |states| == |events| + 1
  {
    if n == 0 then 0
    else HandedOver(events, states, n - 1, w) + (if HandsOver(states[n - 1], events[n - 1], w) then 1 else 0)
  }

  function Landed(events: seq<Event>, n: nat, w: Write): nat
    requires n <= |events|
  {
    if n == 0 then 0 else Landed(events, n - 1, w) + (if events[n - 1] == Land(w) then 1 else 0)
  }

  /** No write is lost or made up: what is pending is what was handed over and has not landed. */
  lemma {:induction false} WritesAreConserved(s: Core, events: seq<Event>, states: seq<Core>, n: nat, w: Write)
    requires Initial(s) && RunFrom(s, events, states) && n <= |events|
    ensures states[n].writes[w] + Landed(events, n, w) == HandedOver(events, states, n, w)
  {
    if n > 0 {
      WritesAreConserved(s, events, states, n - 1, w);
      assert StepAt(events, states, n - 1);
      StepHandsOver(states[n - 1], events[n - 1], w);
    }
  }

  // ----- a waiting job can be finished -----------------------------------------------------------------------------

  /** The run brings the job of consumer `c` to its end and leaves the consumer idle and other jobs alone. */
  ghost predicate Completes(s: Core, events: seq<Event>, states: seq<Core>, c: nat, id: Id, ok: bool) {
    && RunFrom(s, events, states)
    && var last := states[|events|];
      && StatusIs(last, id, if ok then Completed else Failed) && (ok ==> last.jobs[id].progress == 100)
      && PhaseOf(last, c).Idle? && forall other | other != id :: SameJob(s, last, other)
  }

  lemma StepThenCompletes(s: Core, e: Event, events: seq<Event>, states: seq<Core>, c: nat, id: Id, ok: bool)
    requires Enabled(s, e) && Completes(Step(s, e), events, states, c, id, ok)
    requires forall other | other != id :: SameJob(s, Step(s, e), other)
    ensures Completes(s, [e] + events, [s] + states, c, id, ok)
  {
    RunPrepends(s, e, events, states);
    var last := states[|events|];
    assert ([s] + states)[|[e] + events|] == last;
    forall other | other != id ensures SameJob(s, last, other) {
      assert SameJob(s, Step(s, e), other) && SameJob(Step(s, e), last, other);
    }
  }

  lemma ReleasingCompletes(s: Core, c: nat, ok: bool) returns (events: seq<Event>, states: seq<Core>)
    requires PhaseOf(s, c).Releasing? && StatusIs(s, PhaseOf(s, c).id, if ok then Completed else Failed)
    requires ok ==> s.jobs[PhaseOf(s, c).id].progress == 100
    ensures Completes(s, events, states, c, PhaseOf(s, c).id, ok)
  {
    events, states := [Release(c)], [s, Step(s, Release(c))];
    assert StepAt(events, states, 0);
  }

  lemma SynthesizingCompletes(s: Core, c: nat, ok: bool) returns (events: seq<Event>, states: seq<Core>)
    requires Inv(s) && PhaseOf(s, c).Synthesizing?
    ensures Completes(s, events, states, c, PhaseOf(s, c).id, ok)
  {
    FinishSetsStatus(s, c, ok);
    events, states := ReleasingCompletes(Step(s, Finish(c, ok)), c, ok);
    StepThenCompletes(s, Finish(c, ok), events, states, c, PhaseOf(s, c).id, ok);
    events, states := [Finish(c, ok)] + events, [s] + states;
  }

  lemma RunningCompletes(s: Core, c: nat, ok: bool) returns (events: seq<Event>, states: seq<Core>)
    requires Inv(s) && PhaseOf(s, c).Running?
    ensures Completes(s, events, states, c, PhaseOf(s, c).id, ok)
  {
    StartSynthesisKeeps(s, c);
    events, states := SynthesizingCompletes(Step(s, StartSynthesis(c)), c, ok);
    StepThenCompletes(s, StartSynthesis(c), events, states, c, PhaseOf(s, c).id, ok);
    events, states := [StartSynthesis(c)] + events, [s] + states;
  }

  lemma LoadedCompletes(s: Core, c: nat, ok: bool) returns (events: seq<Event>, states: seq<Core>)
    requires Inv(s) && PhaseOf(s, c).Loaded?
    ensures Completes(s, events, states, c, PhaseOf(s, c).id, ok)
  {
    MarkProcessingKeeps(s, c);
    events, states := RunningCompletes(Step(s, MarkProcessing(c)), c, ok);
    StepThenCompletes(s, MarkProcessing(c), events, states, c, PhaseOf(s, c).id, ok);
    events, states := [MarkProcessing(c)] + events, [s] + states;
  }

  lemma FetchedCompletes(s: Core, c: nat, ok: bool) returns (events: seq<Event>, states: seq<Core>)
    requires Inv(s) && PhaseOf(s, c).Fetched?
    ensures Completes(s, events, states, c, PhaseOf(s, c).id, ok)
  {
    LoadFindsItQueued(s, c);
    LoadKeeps(s, c);
    events, states := LoadedCompletes(Step(s, Load(c)), c, ok);
    StepThenCompletes(s, Load(c), events, states, c, PhaseOf(s, c).id, ok);
    events, states := [Load(c)] + events, [s] + states;
  }

  /** Any idle consumer can take any waiting job to either end. */
  lemma WaitingCompletes(s: Core, c: nat, id: Id, ok: bool) returns (events: seq<Event>, states: seq<Core>)
    requires Inv(s) && s.queue[id] > 0 && c in s.consumers && s.consumers[c].Idle?
    ensures Completes(s, events, states, c, id, ok)
  {
    DequeueKeeps(s, c, id);
    events, states := FetchedCompletes(Step(s, Dequeue(c, id)), c, ok);
    StepThenCompletes(s, Dequeue(c, id), events, states, c, id, ok);
    events, states := [Dequeue(c, id)] + events, [s] + states;
  }
}
