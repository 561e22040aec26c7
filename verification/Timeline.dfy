/** Placing the dubbed clips on the output clock: the aligning stage's cursor, its resumption from
    the saved slots, and the mixer's own placement and millisecond delays. */
module Timeline {
  import opened Reals
  import opened Rounding

  /** A transcript segment object, re-timed in place by the aligning stage. */
  class Utterance {
    var start: real
    var end: real

    constructor (start: real, end: real)
      ensures this.start == start && this.end == end
    {
      this.start, this.end := start, end;
    }
  }

  /** A wav file, by index, and where it is placed. */
  datatype Clip = Clip(file: nat, start: real)

  datatype Slot = Slot(start: real, length: real)

  /** Positions given to clips that would like to start at `wants` and last `lens`, when nothing
      may start before `cursor` or before the previous clip has ended. */
  function Layout(wants: seq<real>, lens: seq<real>, cursor: real): (pos: seq<real>)
    requires |wants| == |lens|
    ensures |pos| == |wants|
  {
    if wants == [] then []
    else
      var p := Max(wants[0], cursor);
      [p] + Layout(wants[1..], lens[1..], p + lens[0])
  }

  /** From the natural clock to the slowed output clock. */
  function Stretch(factor: real): real -> real {
    x => x * factor
  }

  /** Where the first `n` segments want their clips: their starts on the slowed clock. */
  function Wants(segs: seq<Utterance>, n: nat, factor: real): (wants: seq<real>)
    requires n <= |segs|
    reads segs
    ensures |wants| == n && forall i | 0 <= i < n :: wants[i] == Stretch(factor)(segs[i].start)
  {
    seq(n, i requires 0 <= i < n reads segs => Stretch(factor)(segs[i].start))
  }

  // ----- the cursor loop ------------------------------------------------------------------------

  /** The recurrence behind a layout: the first position and each next one. */
  ghost predicate Follows(pos: seq<real>, wants: seq<real>, lens: seq<real>, cursor: real) {
    && |pos| == |wants| == |lens|
    && (|pos| > 0 ==> pos[0] == Max(wants[0], cursor))
    && forall i, j {:trigger pos[i], pos[j]} | 0 <= i && j == i + 1 < |pos| :: pos[j] == Max(wants[j], pos[i] + lens[i])
  }

  lemma {:induction false} LayoutFollows(wants: seq<real>, lens: seq<real>, cursor: real)
    requires |wants| == |lens|
    ensures Follows(Layout(wants, lens, cursor), wants, lens, cursor)
  {
    if wants != [] {
      var p := Max(wants[0], cursor);
      LayoutFollows(wants[1..], lens[1..], p + lens[0]);
      var pos, rest := Layout(wants, lens, cursor), Layout(wants[1..], lens[1..], p + lens[0]);
      forall i, j | 0 <= i && j == i + 1 < |pos| ensures pos[j] == Max(wants[j], pos[i] + lens[i]) {
        assert pos[j] == rest[i] && wants[j] == wants[1..][i];
        if i > 0 {
          assert pos[i] == rest[i - 1] && lens[i] == lens[1..][i - 1];
        }
      }
    }
  }

  lemma {:induction false} FollowsIsLayout(pos: seq<real>, wants: seq<real>, lens: seq<real>, cursor: real)
    requires Follows(pos, wants, lens, cursor)
    ensures pos == Layout(wants, lens, cursor)
  {
    if pos != [] {
      FollowsIsLayout(pos[1..], wants[1..], lens[1..], pos[0] + lens[0]);
      assert pos == [pos[0]] + pos[1..];
    }
  }

  /** The cursor before clip `i`: where the previous clip ends. */
  function CursorAt(pos: seq<real>, lens: seq<real>, i: nat): real
    requires i <= |pos| == |lens|
  {
    if i == 0 then 0.0 else pos[i - 1] + lens[i - 1]
  }

  lemma CursorStep(pos: seq<real>, wants: seq<real>, lens: seq<real>, i: nat)
    requires Follows(pos, wants, lens, 0.0) && i < |pos|
    ensures pos[i] == Max(wants[i], CursorAt(pos, lens, i))
  {
    if i > 0 {
      assert pos[i - 1] + lens[i - 1] == CursorAt(pos, lens, i);
    }
  }

  /** Where the first run puts the clips. */
  ghost function FirstPositions(segs: seq<Utterance>, outLens: seq<real>, factor: real): (pos: seq<real>)
    requires |outLens| <= |segs|
    reads segs
    ensures |pos| == |outLens|
  {
    Layout(Wants(segs, |outLens|, factor), outLens, 0.0)
  }

  /** On the first run a clip starts at its segment's natural start times the factor, unless the clip before
      it is still running; then it starts when that one ends. */
  lemma FirstClipsKeepPace(segs: seq<Utterance>, outLens: seq<real>, factor: real, i: nat)
    requires i < |outLens| <= |segs|
    ensures var pos, pace := FirstPositions(segs, outLens, factor), segs[i].start * factor;
      pos[i] == if i == 0 then Max(pace, 0.0) else Max(pace, pos[i - 1] + outLens[i - 1])
  {
    var wants := Wants(segs, |outLens|, factor);
    LayoutFollows(wants, outLens, 0.0);
    CursorStep(FirstPositions(segs, outLens, factor), wants, outLens, i);
  }

  ghost predicate Distinct(segs: seq<Utterance>) {
    forall i, j | 0 <= i < j < |segs| :: segs[i] != segs[j]
  }

  /** The times a list of segments carries. */
  function Times(segs: seq<Utterance>): (times: seq<(real, real)>)
    reads segs
    ensures |times| == |segs|
    ensures forall i | 0 <= i < |segs| :: times[i] == (segs[i].start, segs[i].end)
  {
    seq(|segs|, i requires 0 <= i < |segs| reads segs => (segs[i].start, segs[i].end))
  }

  /** Segment times after the clips have been laid out; segments beyond the clips keep theirs. */
  function Retimed(pos: seq<real>, lens: seq<real>, was: seq<(real, real)>, n: nat): (times: seq<(real, real)>)
    requires n <= |pos| == |lens| <= |was|
    ensures |times| == |was|
    ensures forall i | 0 <= i < |was| :: times[i] == if i < n then (pos[i], pos[i] + lens[i]) else was[i]
  {
    seq(|was|, i requires 0 <= i < |was| => if i < n then (pos[i], pos[i] + lens[i]) else was[i])
  }

  function ClipsAt(pos: seq<real>): (clips: seq<Clip>)
    ensures |clips| == |pos| && forall i | 0 <= i < |pos| :: clips[i] == Clip(i, pos[i])
  {
    seq(|pos|, i requires 0 <= i < |pos| => Clip(i, pos[i]))
  }

  /** Positions and lengths at three decimals, as `timeline.json` keeps them. */
  function SlotsAt(pos: seq<real>, lens: seq<real>): (slots: seq<Slot>)
    requires |pos| == |lens|
    ensures |slots| == |pos| && forall i | 0 <= i < |pos| :: slots[i] == Slot(Round3(pos[i]), Round3(lens[i]))
  {
    seq(|pos|, i requires 0 <= i < |pos| => Slot(Round3(pos[i]), Round3(lens[i])))
  }

  /** One turn of the aligning loop along a layout. */
  lemma AlignTurn(pos: seq<real>, wants: seq<real>, lens: seq<real>, was: seq<(real, real)>, i: nat,
        stretch: real -> real)
    requires Follows(pos, wants, lens, 0.0) && i < |pos| <= |was| && Stretched(wants, was, stretch)
    ensures pos[i] == Max(stretch(Retimed(pos, lens, was, i)[i].0), CursorAt(pos, lens, i))
    ensures CursorAt(pos, lens, i + 1) == pos[i] + lens[i]
    ensures Retimed(pos, lens, was, i)[i := (pos[i], pos[i] + lens[i])] == Retimed(pos, lens, was, i + 1)
  {
    CursorStep(pos, wants, lens, i);
  }

  ghost predicate Stretched(wants: seq<real>, was: seq<(real, real)>, stretch: real -> real) {
    |wants| <= |was| && forall i | 0 <= i < |wants| :: wants[i] == stretch(was[i].0)
  }

  method Retime(segs: seq<Utterance>, i: nat, start: real, end: real)
    requires i < |segs| && Distinct(segs)
    modifies segs[i]
    ensures Times(segs) == old(Times(segs))[i := (start, end)]
  {
    segs[i].start := start;
    segs[i].end := end;
    forall k | 0 <= k < |segs| && k != i ensures segs[k] != segs[i] {
    }
  }

  /** What the aligning loop is to produce: all clips and slots, and the cursor and the times of the
      segments before each turn and after the last. */
  datatype Plan = Plan(clips: seq<Clip>, slots: seq<Slot>, cursors: seq<real>, times: seq<seq<(real, real)>>)

  ghost predicate TurnPlanned(plan: Plan, lens: seq<real>, stretch: real -> real, i: nat) {
    && i < |lens| && i < |plan.clips| && i < |plan.slots| && i + 1 < |plan.cursors| && i + 1 < |plan.times|
    && i < |plan.times[i]|
    && var p := Max(stretch(plan.times[i][i].0), plan.cursors[i]);
      && plan.clips[i] == Clip(i, p) && plan.slots[i] == Slot(Round3(p), Round3(lens[i]))
      && plan.cursors[i + 1] == p + lens[i] && plan.times[i + 1] == plan.times[i][i := (p, p + lens[i])]
  }

  ghost predicate Planned(plan: Plan, lens: seq<real>, stretch: real -> real) {
    && |plan.clips| == |plan.slots| == |lens| && |plan.cursors| == |plan.times| == |lens| + 1
    && plan.cursors[0] == 0.0
    && forall i: nat | i < |lens| :: TurnPlanned(plan, lens, stretch, i)
  }

  /** The plan that a layout amounts to. */
  function LayoutPlan(pos: seq<real>, lens: seq<real>, was: seq<(real, real)>): (plan: Plan)
    requires |pos| == |lens| <= |was|
    ensures plan.clips == ClipsAt(pos) && plan.slots == SlotsAt(pos, lens)
    ensures |plan.cursors| == |plan.times| == |lens| + 1
    ensures forall i | 0 <= i <= |lens| ::
      plan.cursors[i] == CursorAt(pos, lens, i) && plan.times[i] == Retimed(pos, lens, was, i)
  {
    Plan(ClipsAt(pos), SlotsAt(pos, lens),
         seq(|lens| + 1, i requires 0 <= i <= |lens| => CursorAt(pos, lens, i)),
         seq(|lens| + 1, i requires 0 <= i <= |lens| => Retimed(pos, lens, was, i)))
  }

  lemma LayoutIsPlanned(pos: seq<real>, wants: seq<real>, lens: seq<real>, was: seq<(real, real)>,
        stretch: real -> real)
    requires Follows(pos, wants, lens, 0.0) && |pos| <= |was| && Stretched(wants, was, stretch)
    ensures Planned(LayoutPlan(pos, lens, was), lens, stretch)
  {
    forall i: nat | i < |lens| ensures TurnPlanned(LayoutPlan(pos, lens, was), lens, stretch, i) {
      AlignTurn(pos, wants, lens, was, i, stretch);
    }
  }

  lemma LayoutEnds(pos: seq<real>, lens: seq<real>, was: seq<(real, real)>)
    requires |pos| == |lens| <= |was|
    ensures LayoutPlan(pos, lens, was).times[0] == was
  {
  }

  /** First run of the aligning stage: lays the clips out, re-times the segments in place and
      records the slots at three decimals. */
  method AlignFirstRun(segs: seq<Utterance>, outLens: seq<real>, factor: real)
    returns (clips: seq<Clip>, slots: seq<Slot>)
    requires |outLens| <= |segs|
    requires Distinct(segs)
    modifies segs
    ensures var pos := old(FirstPositions(segs, outLens, factor));
      && clips == ClipsAt(pos)
      && slots == SlotsAt(pos, outLens)
      && Times(segs) == Retimed(pos, outLens, old(Times(segs)), |outLens|)
  {
    ghost var wants, was := Wants(segs, |outLens|, factor), Times(segs);
    ghost var pos := Layout(wants, outLens, 0.0);
    LayoutFollows(wants, outLens, 0.0);
    LayoutIsPlanned(pos, wants, outLens, was, Stretch(factor));
    LayoutEnds(pos, outLens, was);
    clips, slots := AlignClips(segs, outLens, Stretch(factor), LayoutPlan(pos, outLens, was));
  }

  /** Places one clip and re-times its segment. */
  method AlignOne(segs: seq<Utterance>, i: nat, outLen: real, stretch: real -> real, cursor: real) returns (p: real)
    requires i < |segs| && Distinct(segs)
    modifies segs[i]
    ensures p == Max(stretch(old(Times(segs))[i].0), cursor)
    ensures Times(segs) == old(Times(segs))[i := (p, p + outLen)]
  {
    var seg := segs[i];
    p := Max(stretch(seg.start), cursor);
    Retime(segs, i, p, p + outLen);
  }

  /** The aligning loop, turn by turn along the plan. */
  method AlignClips(segs: seq<Utterance>, outLens: seq<real>, stretch: real -> real, ghost plan: Plan)
    returns (clips: seq<Clip>, slots: seq<Slot>)
    requires |outLens| <= |segs| && Distinct(segs)
    requires Planned(plan, outLens, stretch) && Times(segs) == plan.times[0]
    modifies segs
    ensures clips == plan.clips && slots == plan.slots && Times(segs) == plan.times[|outLens|]
  {
    clips, slots := [], [];
    var cursor := 0.0;
    for i := 0 to |outLens|
      invariant clips == plan.clips[..i] && slots == plan.slots[..i]
      invariant cursor == plan.cursors[i] && Times(segs) == plan.times[i]
    {
      assert TurnPlanned(plan, outLens, stretch, i);
      var p := AlignOne(segs, i, outLens[i], stretch, cursor);
      clips := clips + [Clip(i, p)];
      cursor := p + outLens[i];
      slots := slots + [Slot(Round3(p), Round3(outLens[i]))];
    }
  }

  // ----- the layout is the least one -----------------------------------------------------------

  function Total(lens: seq<real>): real {
    if lens == [] then 0.0 else Total(lens[..|lens| - 1]) + lens[|lens| - 1]
  }

  /** Where clip `i` starts when clip `j` starts on time and all in between follow back to back. */
  function Reach(wants: seq<real>, lens: seq<real>, j: nat, i: nat): real
    requires j <= i < |wants| && |wants| == |lens|
  {
    wants[j] + Total(lens[j..i])
  }

  lemma ReachStep(wants: seq<real>, lens: seq<real>, j: nat, i: nat)
    requires j < i < |wants| && |wants| == |lens|
    ensures Reach(wants, lens, j, i) == Reach(wants, lens, j, i - 1) + lens[i - 1]
    ensures Reach(wants, lens, i, i) == wants[i]
  {
    assert lens[j..i][..i - 1 - j] == lens[j..i - 1];
    assert lens[i..i] == [];
  }

  /** Closed form: position `i` is the maximum over `j <= i` of `wants[j]` plus the lengths of
      clips `j` to `i - 1`. */
  lemma {:induction false} LayoutIsMaxPlus(wants: seq<real>, lens: seq<real>, i: nat)
    requires |wants| == |lens| && i < |wants|
    requires wants[0] >= 0.0
    ensures forall j | 0 <= j <= i :: Reach(wants, lens, j, i) <= Layout(wants, lens, 0.0)[i]
    ensures exists j | 0 <= j <= i :: Reach(wants, lens, j, i) == Layout(wants, lens, 0.0)[i]
  {
    var pos := Layout(wants, lens, 0.0);
    LayoutFollows(wants, lens, 0.0);
    if i == 0 {
      assert lens[0..0] == [];
      assert Reach(wants, lens, 0, 0) == pos[0];
    } else {
      LayoutIsMaxPlus(wants, lens, i - 1);
      forall j | 0 <= j <= i ensures Reach(wants, lens, j, i) <= pos[i] {
        if j < i {
          ReachStep(wants, lens, j, i);
        } else {
          ReachStep(wants, lens, i - 1, i);
        }
      }
      var j :| 0 <= j <= i - 1 && Reach(wants, lens, j, i - 1) == pos[i - 1];
      ReachStep(wants, lens, j, i);
      assert Reach(wants, lens, if wants[i] >= pos[i - 1] + lens[i - 1] then i else j, i) == pos[i];
    }
  }

  /** An in-order placement: never before the wanted start, never over the previous clip. */
  ghost predicate Admissible(pos: seq<real>, wants: seq<real>, lens: seq<real>) {
    && |pos| == |wants| == |lens|
    && (forall i | 0 <= i < |pos| :: pos[i] >= wants[i])
    && (forall i, j {:trigger pos[i], pos[j]} | 0 <= i && j == i + 1 < |pos| :: pos[i] + lens[i] <= pos[j])
    && (|pos| > 0 ==> pos[0] >= 0.0)
  }

  lemma {:induction false} BelowAny(pos: seq<real>, wants: seq<real>, lens: seq<real>, other: seq<real>, i: nat)
    requires Follows(pos, wants, lens, 0.0) && Admissible(other, wants, lens) && i < |pos|
    ensures pos[i] <= other[i]
  {
    if i > 0 {
      BelowAny(pos, wants, lens, other, i - 1);
    }
  }

  lemma LayoutIsAdmissible(wants: seq<real>, lens: seq<real>)
    requires |wants| == |lens|
    ensures Admissible(Layout(wants, lens, 0.0), wants, lens)
  {
    var pos := Layout(wants, lens, 0.0);
    LayoutFollows(wants, lens, 0.0);
    forall i | 0 <= i < |pos| ensures pos[i] >= wants[i] {
      if i > 0 {
        assert pos[i] == Max(wants[i], pos[i - 1] + lens[i - 1]);
      }
    }
  }

  /** The layout is itself admissible and pointwise below every admissible placement. */
  lemma LayoutIsLeast(wants: seq<real>, lens: seq<real>, other: seq<real>, i: nat)
    requires |wants| == |lens| && i < |wants|
    requires Admissible(other, wants, lens)
    ensures Admissible(Layout(wants, lens, 0.0), wants, lens)
    ensures Layout(wants, lens, 0.0)[i] <= other[i]
  {
    LayoutIsAdmissible(wants, lens);
    LayoutFollows(wants, lens, 0.0);
    BelowAny(Layout(wants, lens, 0.0), wants, lens, other, i);
  }

  /** "No drift": the mixer re-lays the clips with the same lengths and moves none of them. */
  lemma RelayoutIsIdentity(wants: seq<real>, lens: seq<real>)
    requires |wants| == |lens|
    ensures var pos := Layout(wants, lens, 0.0); Layout(pos, lens, 0.0) == pos
  {
    var pos := Layout(wants, lens, 0.0);
    LayoutFollows(wants, lens, 0.0);
    FollowsIsLayout(pos, pos, lens, 0.0);
  }

  // ----- the mixer ------------------------------------------------------------------------------

  function ClipStarts(clips: seq<Clip>): (starts: seq<real>)
    ensures |starts| == |clips| && forall i | 0 <= i < |clips| :: starts[i] == clips[i].start
  {
    seq(|clips|, i requires 0 <= i < |clips| => clips[i].start)
  }

  function Delays(pos: seq<real>): (delays: seq<int>)
    ensures |delays| == |pos| && forall i | 0 <= i < |pos| :: delays[i] == Round(pos[i] * 1000.0)
  {
    seq(|pos|, i requires 0 <= i < |pos| => Round(pos[i] * 1000.0))
  }

  /** The mixer's placement loop and its integer millisecond delays. */
  method PlaceClips(clips: seq<Clip>, durations: seq<real>) returns (placements: seq<Clip>, delays: seq<int>)
    requires |clips| == |durations|
    ensures |placements| == |clips|
    ensures var pos := Layout(ClipStarts(clips), durations, 0.0);
      delays == Delays(pos) && forall i | 0 <= i < |clips| :: placements[i] == Clip(clips[i].file, pos[i])
  {
    placements := [];
    var cursor := 0.0;
    ghost var wants := ClipStarts(clips);
    ghost var pos := Layout(wants, durations, 0.0);
    LayoutFollows(wants, durations, 0.0);
    for i := 0 to |clips|
      invariant |placements| == i
      invariant cursor == CursorAt(pos, durations, i)
      invariant forall k | 0 <= k < i :: placements[k] == Clip(clips[k].file, pos[k])
    {
      CursorStep(pos, wants, durations, i);
      var start := Max(clips[i].start, cursor);
      placements := placements + [Clip(clips[i].file, start)];
      cursor := start + durations[i];
    }
    delays := [];
    for i := 0 to |placements|
      invariant |delays| == i
      invariant forall k | 0 <= k < i :: delays[k] == Delays(pos)[k]
    {
      delays := delays + [Round(placements[i].start * 1000.0)];
    }
  }

  /** Rounding consecutive positions to milliseconds keeps their order and costs at most 1 ms. */
  lemma DelayGap(p: real, length: real, q: real)
    requires length >= 0.0 && p + length <= q
    ensures Round(p * 1000.0) <= Round(q * 1000.0)
    ensures Round(p * 1000.0) as real + length * 1000.0 <= Round(q * 1000.0) as real + 1.0
  {
    RoundMonotone(p * 1000.0, q * 1000.0);
    RoundNear(p * 1000.0);
    RoundNear(q * 1000.0);
  }

  /** In any admissible placement, such as the layout, the rounded delays keep the clips in order
      and a clip runs over the next one's delay by at most one millisecond. */
  lemma DelaysOverlapAtMostOneMs(pos: seq<real>, wants: seq<real>, lens: seq<real>, i: nat)
    requires Admissible(pos, wants, lens) && i + 1 < |pos| && lens[i] >= 0.0
    ensures Delays(pos)[i] <= Delays(pos)[i + 1]
    ensures Delays(pos)[i] as real + lens[i] * 1000.0 <= Delays(pos)[i + 1] as real + 1.0
  {
    DelayGap(pos[i], lens[i], pos[i + 1]);
  }

  // ----- resuming from the saved slots ----------------------------------------------------------

  /** Strictly increasing indices below `n`. */
  ghost predicate Ascending(keep: seq<nat>, n: nat) {
    && (forall k | 0 <= k < |keep| :: keep[k] < n)
    && (forall k, m | 0 <= k < m < |keep| :: keep[k] < keep[m])
  }

  /** The segments that get a clip on resumption: those with a file, up to the number of clips. */
  function Kept(exist: seq<bool>, n: nat): (keep: seq<nat>)
    requires n <= |exist|
    ensures Ascending(keep, n)
    ensures forall i | 0 <= i < n :: i in keep <==> exist[i]
  {
    if n == 0 then []
    else Kept(exist, n - 1) + (if exist[n - 1] then [n - 1] else [])
  }

  /** The slot used for a segment: the saved one, or its own times when the saved list is too short. */
  function SlotOf(own: (real, real), slots: seq<Slot>, factor: real, i: nat): Slot {
    if i < |slots| then slots[i] else Slot(own.0 * factor, own.1 - own.0)
  }

  function SlotPlan(times: seq<(real, real)>, slots: seq<Slot>, factor: real): (plan: seq<Slot>)
    ensures |plan| == |times| && forall i | 0 <= i < |times| :: plan[i] == SlotOf(times[i], slots, factor, i)
  {
    seq(|times|, i requires 0 <= i < |times| => SlotOf(times[i], slots, factor, i))
  }

  /** The clips among the first `n` segments whose file exists. */
  function ClipPlan(plan: seq<Slot>, exist: seq<bool>, n: nat): seq<Clip>
    requires n <= |plan| == |exist|
  {
    if n == 0 then []
    else ClipPlan(plan, exist, n - 1) + (if exist[n - 1] then [Clip(n - 1, plan[n - 1].start)] else [])
  }

  lemma {:induction false} ClipPlanFollowsKept(plan: seq<Slot>, exist: seq<bool>, n: nat)
    requires n <= |plan| == |exist|
    ensures |ClipPlan(plan, exist, n)| == |Kept(exist, n)|
    ensures forall k | 0 <= k < |Kept(exist, n)| ::
      ClipPlan(plan, exist, n)[k] == Clip(Kept(exist, n)[k], plan[Kept(exist, n)[k]].start)
  {
    if n > 0 {
      ClipPlanFollowsKept(plan, exist, n - 1);
    }
  }

  function ResumedTimes(plan: seq<Slot>, exist: seq<bool>, n: nat, was: seq<(real, real)>): (times: seq<(real, real)>)
    requires n <= |plan| == |exist| == |was|
    ensures |times| == |was|
    ensures forall i | 0 <= i < |was| ::
      times[i] == if i < n && exist[i] then (plan[i].start, plan[i].start + plan[i].length) else was[i]
  {
    seq(|was|, i requires 0 <= i < |was| =>
      if i < n && exist[i] then (plan[i].start, plan[i].start + plan[i].length) else was[i])
  }

  /** A clip whose slot was not saved starts at its segment's own start times the factor, and keeps the
      segment's length; a saved slot is taken as it is, and no other segment moves. */
  lemma ResumedSlots(was: seq<(real, real)>, slots: seq<Slot>, exist: seq<bool>, factor: real, n: nat, i: nat)
    requires n <= |exist| == |was| && i < |was|
    ensures var now := ResumedTimes(SlotPlan(was, slots, factor), exist, n, was)[i];
      if i >= n || !exist[i] then now == was[i]
      else if i < |slots| then now.0 == slots[i].start && now.1 - now.0 == slots[i].length
      else now.0 == was[i].0 * factor && now.1 - now.0 == was[i].1 - was[i].0
  {
  }

  /** The slot of one segment, saved or its own, and its new times. */
  method ResumeOne(segs: seq<Utterance>, idx: nat, slots: seq<Slot>, factor: real) returns (slot: Slot)
    requires idx < |segs| && Distinct(segs)
    modifies segs[idx]
    ensures slot == SlotOf(old(Times(segs))[idx], slots, factor, idx)
    ensures Times(segs) == old(Times(segs))[idx := (slot.start, slot.start + slot.length)]
  {
    var seg := segs[idx];
    slot := if idx < |slots| then slots[idx] else Slot(seg.start * factor, seg.end - seg.start);
    Retime(segs, idx, slot.start, slot.start + slot.length);
  }

  /** Turn `i` of the resuming loop, from the clips and times before it to those after. */
  ghost predicate ResumeTurn(clipsAt: nat -> seq<Clip>, timesAt: nat -> seq<(real, real)>, exist: seq<bool>,
      slots: seq<Slot>, factor: real, i: nat) {
    && i < |exist| && i < |timesAt(i)|
    && if exist[i] then
         var slot := SlotOf(timesAt(i)[i], slots, factor, i);
         clipsAt(i + 1) == clipsAt(i) + [Clip(i, slot.start)]
         && timesAt(i + 1) == timesAt(i)[i := (slot.start, slot.start + slot.length)]
       else clipsAt(i + 1) == clipsAt(i) && timesAt(i + 1) == timesAt(i)
  }

  lemma ResumedTurn(plan: seq<Slot>, exist: seq<bool>, n: nat, was: seq<(real, real)>)
    requires n < |plan| == |exist| == |was|
    ensures ResumedTimes(plan, exist, n, was)[n] == was[n]
    ensures ResumedTimes(plan, exist, n + 1, was) ==
      if exist[n] then ResumedTimes(plan, exist, n, was)[n := (plan[n].start, plan[n].start + plan[n].length)]
      else ResumedTimes(plan, exist, n, was)
  {
  }

  /** The resuming loop, turn by turn. */
  method ResumeClips(segs: seq<Utterance>, n: nat, exist: seq<bool>, slots: seq<Slot>, factor: real,
        ghost clipsAt: nat -> seq<Clip>, ghost timesAt: nat -> seq<(real, real)>)
    returns (clips: seq<Clip>)
    requires n <= |segs| == |exist| && Distinct(segs)
    requires clipsAt(0) == [] && timesAt(0) == Times(segs)
    requires forall i: nat | i < n :: ResumeTurn(clipsAt, timesAt, exist, slots, factor, i)
    modifies segs
    ensures clips == clipsAt(n) && Times(segs) == timesAt(n)
  {
    clips := [];
    for idx := 0 to n
      invariant clips == clipsAt(idx) && Times(segs) == timesAt(idx)
    {
      assert ResumeTurn(clipsAt, timesAt, exist, slots, factor, idx);
      if exist[idx] {
        var slot := ResumeOne(segs, idx, slots, factor);
        clips := clips + [Clip(idx, slot.start)];
      }
    }
  }

  /** The clips that the first `i` segments contribute, for every `i`. */
  function ClipsUpTo(plan: seq<Slot>, exist: seq<bool>): nat -> seq<Clip>
    requires |plan| == |exist|
  {
    (i: nat) => if i <= |exist| then ClipPlan(plan, exist, i) else []
  }

  function TimesUpTo(plan: seq<Slot>, exist: seq<bool>, was: seq<(real, real)>): nat -> seq<(real, real)>
    requires |plan| == |exist| == |was|
  {
    (i: nat) => if i <= |exist| then ResumedTimes(plan, exist, i, was) else was
  }

  lemma ResumePlanned(was: seq<(real, real)>, exist: seq<bool>, slots: seq<Slot>, factor: real, n: nat)
    requires n <= |exist| == |was|
    ensures var plan := SlotPlan(was, slots, factor);
      && ClipsUpTo(plan, exist)(0) == [] && TimesUpTo(plan, exist, was)(0) == was
      && forall i: nat | i < n ::
           ResumeTurn(ClipsUpTo(plan, exist), TimesUpTo(plan, exist, was), exist, slots, factor, i)
  {
    var plan := SlotPlan(was, slots, factor);
    assert ResumedTimes(plan, exist, 0, was) == was;
    forall i: nat | i < n
      ensures ResumeTurn(ClipsUpTo(plan, exist), TimesUpTo(plan, exist, was), exist, slots, factor, i)
    {
      ResumedTurn(plan, exist, i, was);
    }
  }

  /** Resumed aligning stage: takes the clips that exist and re-times their segments. */
  method AlignResumed(segs: seq<Utterance>, ttsCount: nat, exist: seq<bool>, slots: seq<Slot>, factor: real)
    returns (clips: seq<Clip>)
    requires |exist| == |segs|
    requires Distinct(segs)
    modifies segs
    ensures var n := if ttsCount < |segs| then ttsCount else |segs|;
      var plan := SlotPlan(old(Times(segs)), slots, factor);
      && clips == ClipPlan(plan, exist, n)
      && Times(segs) == ResumedTimes(plan, exist, n, old(Times(segs)))
  {
    ghost var was := Times(segs);
    ghost var plan := SlotPlan(was, slots, factor);
    var n := if ttsCount < |segs| then ttsCount else |segs|;
    ResumePlanned(was, exist, slots, factor, n);
    clips := ResumeClips(segs, n, exist, slots, factor, ClipsUpTo(plan, exist), TimesUpTo(plan, exist, was));
  }

  function Pick(xs: seq<real>, keep: seq<nat>): (ys: seq<real>)
    requires forall k | 0 <= k < |keep| :: keep[k] < |xs|
    ensures |ys| == |keep| && forall k | 0 <= k < |keep| :: ys[k] == xs[keep[k]]
  {
    seq(|keep|, k requires 0 <= k < |keep| => xs[keep[k]])
  }

  function RoundAll(xs: seq<real>): (ys: seq<real>)
    ensures |ys| == |xs| && forall k | 0 <= k < |xs| :: ys[k] == Round3(xs[k])
  {
    seq(|xs|, k requires 0 <= k < |xs| => Round3(xs[k]))
  }

  lemma {:induction false} LaterClipsStartLater(pos: seq<real>, wants: seq<real>, lens: seq<real>, i: nat, j: nat)
    requires Follows(pos, wants, lens, 0.0) && i < j < |pos|
    requires forall k | 0 <= k < |lens| :: lens[k] >= 0.0
    ensures pos[i] + lens[i] <= pos[j]
  {
    if i + 1 < j {
      LaterClipsStartLater(pos, wants, lens, i, j - 1);
    }
  }

  lemma {:induction false} ResumedNear(
      pos: seq<real>, wants: seq<real>, lens: seq<real>, keep: seq<nat>, again: seq<real>, k: nat)
    requires Follows(pos, wants, lens, 0.0)
    requires forall m | 0 <= m < |lens| :: lens[m] >= 0.0
    requires Ascending(keep, |pos|)
    requires Follows(again, RoundAll(Pick(pos, keep)), Pick(lens, keep), 0.0)
    requires k < |keep|
    ensures -0.0005 <= again[k] - pos[keep[k]] <= 0.0005
  {
    Round3Near(pos[keep[k]]);
    if k == 0 {
      if keep[0] > 0 {
        LaterClipsStartLater(pos, wants, lens, 0, keep[0]);
      }
    } else {
      ResumedNear(pos, wants, lens, keep, again, k - 1);
      LaterClipsStartLater(pos, wants, lens, keep[k - 1], keep[k]);
      assert again[k] == Max(RoundAll(Pick(pos, keep))[k], again[k - 1] + Pick(lens, keep)[k - 1]);
    }
  }

  /** Where the mixer places the kept clips when it starts from the three-decimal slots of the
      first run and the clips' true durations. */
  function Replaced(pos: seq<real>, lens: seq<real>, keep: seq<nat>): (again: seq<real>)
    requires |pos| == |lens| && forall k | 0 <= k < |keep| :: keep[k] < |pos|
    ensures |again| == |keep|
  {
    Layout(RoundAll(Pick(pos, keep)), Pick(lens, keep), 0.0)
  }

  /** Resumption does not accumulate error: whichever clips survive and however many there are,
      each lands within half a millisecond of where the first run had it. */
  lemma ResumeDoesNotDrift(wants: seq<real>, lens: seq<real>, keep: seq<nat>, k: nat)
    requires |wants| == |lens| && k < |keep|
    requires forall m | 0 <= m < |lens| :: lens[m] >= 0.0
    requires Ascending(keep, |wants|)
    ensures -0.0005 <= Replaced(Layout(wants, lens, 0.0), lens, keep)[k] - Layout(wants, lens, 0.0)[keep[k]] <= 0.0005
  {
    var pos := Layout(wants, lens, 0.0);
    LayoutFollows(wants, lens, 0.0);
    LayoutFollows(RoundAll(Pick(pos, keep)), Pick(lens, keep), 0.0);
    ResumedNear(pos, wants, lens, keep, Replaced(pos, lens, keep), k);
  }

  /** Hence its delay in the mix moves by at most one millisecond. */
  lemma ResumedDelaysNear(wants: seq<real>, lens: seq<real>, keep: seq<nat>, k: nat)
    requires |wants| == |lens| && k < |keep|
    requires forall m | 0 <= m < |lens| :: lens[m] >= 0.0
    requires Ascending(keep, |wants|)
    ensures var pos := Layout(wants, lens, 0.0);
      -1 <= Delays(Replaced(pos, lens, keep))[k] - Delays(pos)[keep[k]] <= 1
  {
    var pos := Layout(wants, lens, 0.0);
    ResumeDoesNotDrift(wants, lens, keep, k);
    NearDelays(Replaced(pos, lens, keep)[k], pos[keep[k]]);
  }

  lemma NearDelays(x: real, y: real)
    requires -0.0005 <= x - y <= 0.0005
    ensures -1 <= Round(x * 1000.0) - Round(y * 1000.0) <= 1
  {
    RoundNear(x * 1000.0);
    RoundNear(y * 1000.0);
  }

  /** The link between the two runs: from the slots that the first run saved, the resumed clips start at
      the first positions of the kept clips, rounded to three decimals. */
  lemma ResumedClipStarts(pos: seq<real>, lens: seq<real>, own: seq<(real, real)>, exist: seq<bool>, factor: real)
    requires |pos| == |lens| <= |own| == |exist|
    ensures ClipStarts(ClipPlan(SlotPlan(own, SlotsAt(pos, lens), factor), exist, |pos|))
         == RoundAll(Pick(pos, Kept(exist, |pos|)))
  {
    ClipPlanFollowsKept(SlotPlan(own, SlotsAt(pos, lens), factor), exist, |pos|);
  }

  /** Each placement and delay is that of its clip in the first run, give or take half a millisecond
      and one millisecond. */
  ghost predicate NearFirstRun(placements: seq<Clip>, delays: seq<int>, pos: seq<real>) {
    && |placements| == |delays|
    && forall k | 0 <= k < |placements| :: PlacedNear(placements[k], delays[k], pos)
  }

  ghost predicate PlacedNear(clip: Clip, delay: int, pos: seq<real>) {
    && clip.file < |pos|
    && -0.0005 <= clip.start - pos[clip.file] <= 0.0005
    && -1 <= delay - Round(pos[clip.file] * 1000.0) <= 1
  }

  lemma ReplacedIsNear(wants: seq<real>, lens: seq<real>, keep: seq<nat>, k: nat)
    requires |wants| == |lens| && (forall m | 0 <= m < |lens| :: lens[m] >= 0.0) && Ascending(keep, |wants|)
    requires k < |keep|
    ensures var pos := Layout(wants, lens, 0.0);
      var again := Replaced(pos, lens, keep);
      PlacedNear(Clip(keep[k], again[k]), Delays(again)[k], pos)
  {
    ResumeDoesNotDrift(wants, lens, keep, k);
    ResumedDelaysNear(wants, lens, keep, k);
  }

  /** Resuming and mixing, end to end: from the slots that the first run saved for its layout of `wants`,
      the clips that still exist are mixed at their first positions, give or take half a millisecond, and
      their delays at the first delays, give or take one. */
  method ResumeAndMix(segs: seq<Utterance>, exist: seq<bool>, slots: seq<Slot>, lens: seq<real>, factor: real,
        ghost wants: seq<real>)
    returns (placements: seq<Clip>, delays: seq<int>)
    requires |wants| == |lens| <= |segs| == |exist| && Distinct(segs)
    requires forall m | 0 <= m < |lens| :: lens[m] >= 0.0
    requires slots == SlotsAt(Layout(wants, lens, 0.0), lens)
    modifies segs
    ensures |placements| == |Kept(exist, |lens|)|
    ensures forall k | 0 <= k < |placements| :: placements[k].file == Kept(exist, |lens|)[k]
    ensures NearFirstRun(placements, delays, Layout(wants, lens, 0.0))
  {
    ghost var pos, own := Layout(wants, lens, 0.0), Times(segs);
    var keep := Kept(exist, |lens|);
    ResumedClipStarts(pos, lens, own, exist, factor);
    ClipPlanFollowsKept(SlotPlan(own, slots, factor), exist, |lens|);
    var clips := AlignResumed(segs, |lens|, exist, slots, factor);
    placements, delays := PlaceClips(clips, Pick(lens, keep));
    forall k | 0 <= k < |placements| ensures PlacedNear(placements[k], delays[k], pos) {
      ReplacedIsNear(wants, lens, keep, k);
    }
  }
}
