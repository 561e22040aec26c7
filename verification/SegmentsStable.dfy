/** When normalising a second time changes nothing. */
module SegmentsStable {
  import opened Reals
  import opened Schemas
  import opened Text
  import opened Sorting
  import opened Segments

  /** Nothing left to merge: a single caption, or only captions of the minimum length. */
  predicate Settled(segs: seq<Segment>, minDur: real) {
    |segs| <= 1 || AllLong(segs, minDur)
  }

  predicate AllLong(segs: seq<Segment>, minDur: real) {
    forall s | s in segs :: Dur(s) >= minDur
  }

  // ----- the loops on settled and unsettled input ---------------------------------------------

  lemma {:induction false} MergeShortKeepsLong(done: seq<Segment>, rest: seq<Segment>, single: bool, minDur: real)
    requires single || forall s | s in rest :: Dur(s) >= minDur
    ensures MergeShort(done, rest, single, minDur) == done + rest
    decreases |rest|
  {
    if rest == [] {
      assert done + rest == done;
    } else {
      assert rest[0] in rest;
      MergeShortKeepsLong(done + [rest[0]], rest[1..], single, minDur);
      assert done + [rest[0]] + rest[1..] == done + rest;
    }
  }

  lemma {:induction false} MergeShortCount(done: seq<Segment>, rest: seq<Segment>, single: bool, minDur: real)
    ensures |MergeShort(done, rest, single, minDur)| <= |done| + |rest|
    decreases |rest|
  {
    if rest != [] {
      var next := MergeTurn(done, rest, single, minDur);
      MergeShortCount(next.0, next.1, single, minDur);
    }
  }

  /** A short segment with any neighbour disappears into it. */
  lemma {:induction false} MergeShortShrinks(done: seq<Segment>, rest: seq<Segment>, minDur: real)
    requires exists s :: s in rest && Dur(s) < minDur
    requires |done| + |rest| >= 2
    ensures |MergeShort(done, rest, false, minDur)| < |done| + |rest|
    decreases |rest|
  {
    var next := MergeTurn(done, rest, false, minDur);
    if Dur(rest[0]) >= minDur {
      assert rest == [rest[0]] + rest[1..];
      MergeShortShrinks(next.0, next.1, minDur);
    } else {
      MergeShortCount(next.0, next.1, false, minDur);
    }
  }

  lemma {:induction false} ChainCount(done: seq<Segment>, anchor: real, rest: seq<Segment>, maxDur: real, pad: real)
    ensures |Chain(done, anchor, rest, maxDur, pad)| <= |done| + |rest|
    decreases |rest|
  {
    if rest != [] {
      var next := ChainTurn(done, anchor, rest[0], maxDur, pad);
      ChainCount(next.0, next.1, rest[1..], maxDur, pad);
    }
  }

  lemma {:induction false} ChainKeepsClean(
      done: seq<Segment>, anchor: real, rest: seq<Segment>, maxDur: real, pad: real)
    requires Clean(rest, maxDur)
    requires rest != [] ==> anchor <= rest[0].start
    ensures Chain(done, anchor, rest, maxDur, pad) == done + rest
    decreases |rest|
  {
    if rest == [] {
      assert done + rest == done;
    } else {
      var s := rest[0];
      assert ChainTurn(done, anchor, s, maxDur, pad) == (done + [s], s.end);
      ChainKeepsClean(done + [s], s.end, rest[1..], maxDur, pad);
      assert done + [s] + rest[1..] == done + rest;
    }
  }

  // ----- captions stay non-empty ----------------------------------------------------------------

  /** A property of captions that fusing keeps and that ignores times. */
  ghost predicate Lasting(p: Segment -> bool) {
    && (forall a, b :: p(a) && p(b) ==> p(Fuse(a, b)) && p(Fold(a, b)))
    && (forall s, x :: p(s) ==> p(Pushed(s, x)) && p(Padded(s, x)))
    && (forall s, x :: p(s) ==> p(Clamped(s, x)))
  }

  lemma GlueVoiced(a: string, b: string)
    requires Strip(a) != ""
    ensures Strip(Glue(a, b)) != ""
  {
    StripFacts(a);
    GlueWords(a, b);
    StripFacts(Glue(a, b));
  }

  lemma VoicedLasts()
    ensures Lasting(Voiced)
  {
    forall a: Segment, b | Voiced(a) && Voiced(b) ensures Voiced(Fuse(a, b)) && Voiced(Fold(a, b)) {
      GlueVoiced(a.source, b.source);
      GlueVoiced(a.target, b.target);
    }
  }

  lemma {:induction false} MergeShortLasts(
      done: seq<Segment>, rest: seq<Segment>, single: bool, minDur: real, p: Segment -> bool)
    requires Lasting(p) && (forall s | s in done :: p(s)) && (forall s | s in rest :: p(s))
    ensures forall s | s in MergeShort(done, rest, single, minDur) :: p(s)
    decreases |rest|
  {
    if rest != [] {
      var next := MergeTurn(done, rest, single, minDur);
      assert p(rest[0]) && (|rest| > 1 ==> p(rest[1])) && (done != [] ==> p(Last(done)));
      MergeShortLasts(next.0, next.1, single, minDur, p);
    }
  }

  lemma {:induction false} ChainLasts(
      done: seq<Segment>, anchor: real, rest: seq<Segment>, maxDur: real, pad: real, p: Segment -> bool)
    requires Lasting(p) && (forall s | s in done :: p(s)) && (forall s | s in rest :: p(s))
    ensures forall s | s in Chain(done, anchor, rest, maxDur, pad) :: p(s)
    decreases |rest|
  {
    if rest != [] {
      var next := ChainTurn(done, anchor, rest[0], maxDur, pad);
      assert p(rest[0]) && p(Pushed(rest[0], anchor)) && (done != [] ==> p(Last(done)));
      ChainLasts(next.0, next.1, rest[1..], maxDur, pad, p);
    }
  }

  lemma NormalizeVoiced(segments: seq<Segment>, minDur: real, maxDur: real, pad: real)
    requires forall s | s in segments :: s.Valid()
    ensures forall s | s in Normalized(segments, minDur, maxDur, pad) :: Voiced(s)
  {
    var segs := Prepared(segments);
    PreparedOrdered(segments);
    VoicedLasts();
    MergeShortLasts([], segs, |segs| == 1, minDur, Voiced);
    ChainLasts([], 0.0, Merged(segments, minDur), maxDur, pad, Voiced);
  }

  // ----- normalising twice ----------------------------------------------------------------------

  lemma {:induction false} FilterKeepsAll(segs: seq<Segment>)
    requires forall s | s in segs :: Usable(s)
    ensures Filter(segs, Usable) == segs
  {
    if segs != [] {
      FilterKeepsAll(segs[1..]);
    }
  }

  lemma CleanIsPrepared(segs: seq<Segment>, maxDur: real)
    requires Clean(segs, maxDur) && forall s | s in segs :: Voiced(s)
    ensures Prepared(segs) == segs
  {
    FilterKeepsAll(segs);
    forall i, j | 0 <= i < j < |segs| ensures ByStart(segs[i], segs[j]) {
      assert segs[i].end <= segs[j].start;
    }
    SortFixed(segs, ByStart);
  }

  lemma SettledStays(segs: seq<Segment>, minDur: real, maxDur: real, pad: real)
    requires Clean(segs, maxDur) && Settled(segs, minDur)
    ensures Chain([], 0.0, MergeShort([], segs, |segs| == 1, minDur), maxDur, pad) == segs
  {
    if segs != [] {
      MergeShortKeepsLong([], segs, |segs| == 1, minDur);
    }
    assert [] + segs == segs;
    ChainKeepsClean([], 0.0, segs, maxDur, pad);
  }

  lemma UnsettledShrinks(segs: seq<Segment>, minDur: real, maxDur: real, pad: real)
    requires !Settled(segs, minDur)
    ensures |Chain([], 0.0, MergeShort([], segs, |segs| == 1, minDur), maxDur, pad)| < |segs|
  {
    MergeShortShrinks([], segs, minDur);
    ChainCount([], 0.0, MergeShort([], segs, false, minDur), maxDur, pad);
  }

  /** A clean timeline is left alone exactly when it is settled. */
  lemma CleanFixedPoint(segs: seq<Segment>, minDur: real, maxDur: real, pad: real)
    requires Clean(segs, maxDur) && forall s | s in segs :: Voiced(s)
    ensures Normalized(segs, minDur, maxDur, pad) == segs <==> Settled(segs, minDur)
  {
    CleanIsPrepared(segs, maxDur);
    if Settled(segs, minDur) {
      SettledStays(segs, minDur, maxDur, pad);
    } else {
      UnsettledShrinks(segs, minDur, maxDur, pad);
    }
  }

  /** Normalising is idempotent on an input exactly when its first result is settled. */
  lemma IdempotentIffSettled(segments: seq<Segment>, minDur: real, maxDur: real, pad: real)
    requires maxDur > 0.0
    requires forall s | s in segments :: s.Valid()
    ensures var once := Normalized(segments, minDur, maxDur, pad);
      Normalized(once, minDur, maxDur, pad) == once <==> Settled(once, minDur)
  {
    NormalizeIsClean(segments, minDur, maxDur, pad);
    NormalizeVoiced(segments, minDur, maxDur, pad);
    CleanFixedPoint(Normalized(segments, minDur, maxDur, pad), minDur, maxDur, pad);
  }

  // ----- the condition on times -----------------------------------------------------------------

  /** Where a caption that may not start before `anchor` ends once it is clamped. */
  function ClampedEnd(s: Segment, anchor: real, maxDur: real): real {
    Min(s.end, Max(s.start, anchor) + maxDur)
  }

  /** Each caption in turn ends by the anchor, or outlasts it: from the anchor, or its own later start,
      to its clamped end it has the minimum length, and there the anchor moves. */
  predicate Outlasts(anchor: real, rest: seq<Segment>, minDur: real, maxDur: real)
    decreases |rest|
  {
    if rest == [] then true
    else if rest[0].end <= Max(rest[0].start, anchor) then Outlasts(anchor, rest[1..], minDur, maxDur)
    else
      var end := ClampedEnd(rest[0], anchor, maxDur);
      end - Max(rest[0].start, anchor) >= minDur && Outlasts(end, rest[1..], minDur, maxDur)
  }

  /** No later caption outlasts the first, once that is clamped. */
  predicate FirstOutlastsAll(segs: seq<Segment>, maxDur: real) {
    segs != [] ==> EndBy(segs[1..], ClampedEnd(segs[0], 0.0, maxDur))
  }

  predicate EndBy(segs: seq<Segment>, t: real) {
    forall s | s in segs :: s.end <= t
  }

  lemma EndByCons(segs: seq<Segment>, t: real)
    requires segs != []
    ensures EndBy(segs, t) <==> segs[0].end <= t && EndBy(segs[1..], t)
  {
    assert segs[0] in segs && forall s | s in segs[1..] :: s in segs;
    assert forall s | s in segs :: s == segs[0] || s in segs[1..];
  }

  /** One turn of the second loop, in terms of times. */
  lemma ChainTurnTimes(done: seq<Segment>, anchor: real, s: Segment, minDur: real, maxDur: real, pad: real)
    requires done != [] || anchor < s.end
    requires s.start < s.end && 0.0 < maxDur
    ensures var next := ChainTurn(done, anchor, s, maxDur, pad);
      if s.end <= Max(s.start, anchor) then
        |next.0| == |done| && next.1 == anchor && (AllLong(next.0, minDur) <==> AllLong(done, minDur))
      else
        && |next.0| == |done| + 1 && next.1 == ClampedEnd(s, anchor, maxDur)
        && (AllLong(next.0, minDur) <==> AllLong(done, minDur) && next.1 - Max(s.start, anchor) >= minDur)
  {
    if s.end <= Max(s.start, anchor) {
      FoldKeepsLong(done, Pushed(s, anchor), minDur);
    } else {
      AllLongSnoc(done, Clamped(Pushed(s, anchor), maxDur), minDur);
    }
  }

  lemma AllLongSnoc(done: seq<Segment>, s: Segment, minDur: real)
    ensures AllLong(done + [s], minDur) <==> AllLong(done, minDur) && Dur(s) >= minDur
  {
    assert s in done + [s];
    assert forall d | d in done :: d in done + [s];
  }

  lemma FoldKeepsLong(done: seq<Segment>, s: Segment, minDur: real)
    requires done != []
    ensures AllLong(Front(done) + [Fold(Last(done), s)], minDur) <==> AllLong(done, minDur)
  {
    AllLongSnoc(Front(done), Fold(Last(done), s), minDur);
    AllLongSnoc(Front(done), Last(done), minDur);
    assert done == Front(done) + [Last(done)];
  }

  /** The second loop leaves only captions of the minimum length exactly when every caption outlasts
      the anchor or ends by it. */
  lemma {:induction false} ChainAllLong(
      done: seq<Segment>, anchor: real, rest: seq<Segment>, minDur: real, maxDur: real, pad: real)
    requires 0.0 < maxDur && forall s | s in rest :: s.start < s.end
    requires done != [] || (rest != [] ==> anchor < rest[0].end)
    ensures AllLong(Chain(done, anchor, rest, maxDur, pad), minDur)
      <==> AllLong(done, minDur) && Outlasts(anchor, rest, minDur, maxDur)
    decreases |rest|
  {
    if rest != [] {
      assert rest[0] in rest;
      ChainTurnTimes(done, anchor, rest[0], minDur, maxDur, pad);
      var next := ChainTurn(done, anchor, rest[0], maxDur, pad);
      ChainAllLong(next.0, next.1, rest[1..], minDur, maxDur, pad);
    }
  }

  /** It adds no caption exactly when every caption ends by the anchor. */
  lemma {:induction false} ChainAddsNone(
      done: seq<Segment>, anchor: real, rest: seq<Segment>, maxDur: real, pad: real)
    requires done != [] && 0.0 < maxDur && forall s | s in rest :: s.start < s.end
    ensures |Chain(done, anchor, rest, maxDur, pad)| >= |done|
    ensures |Chain(done, anchor, rest, maxDur, pad)| == |done| <==> EndBy(rest, anchor)
    decreases |rest|
  {
    if rest != [] {
      assert rest[0] in rest;
      ChainTurnTimes(done, anchor, rest[0], 0.0, maxDur, pad);
      var next := ChainTurn(done, anchor, rest[0], maxDur, pad);
      ChainAddsNone(next.0, next.1, rest[1..], maxDur, pad);
      EndByCons(rest, anchor);
    }
  }

  lemma ChainIsSingle(segs: seq<Segment>, maxDur: real, pad: real)
    requires 0.0 < maxDur && forall s | s in segs :: 0.0 <= s.start < s.end
    ensures |Chain([], 0.0, segs, maxDur, pad)| <= 1 <==> FirstOutlastsAll(segs, maxDur)
  {
    if segs != [] {
      ChainTurnTimes([], 0.0, segs[0], 0.0, maxDur, pad);
      var next := ChainTurn([], 0.0, segs[0], maxDur, pad);
      ChainAddsNone(next.0, next.1, segs[1..], maxDur, pad);
    }
  }

  /** Normalising a second time changes nothing if and only if, of the captions that the first loop
      leaves, none outlasts the first, or each one outlasts the anchor by the minimum length or ends by
      it: a condition on their times alone. */
  lemma StableIffOutlasts(segments: seq<Segment>, minDur: real, maxDur: real, pad: real)
    requires maxDur > 0.0
    requires forall s | s in segments :: s.Valid()
    ensures var once, merged := Normalized(segments, minDur, maxDur, pad), Merged(segments, minDur);
      Normalized(once, minDur, maxDur, pad) == once
      <==> FirstOutlastsAll(merged, maxDur) || Outlasts(0.0, merged, minDur, maxDur)
  {
    var merged := Merged(segments, minDur);
    MergedOrdered(segments, minDur);
    IdempotentIffSettled(segments, minDur, maxDur, pad);
    ChainIsSingle(merged, maxDur, pad);
    ChainAllLong([], 0.0, merged, minDur, maxDur, pad);
  }

  // ----- non-overlapping input ------------------------------------------------------------------

  /** Consecutive and of positive length. */
  ghost predicate Apart(segs: seq<Segment>) {
    && (forall i | 0 <= i < |segs| :: 0.0 <= segs[i].start < segs[i].end)
    && (forall i, j | 0 <= i < j < |segs| :: segs[i].end <= segs[j].start)
  }

  lemma FuseApart(done: seq<Segment>, a: Segment, b: Segment, f: Segment, later: seq<Segment>)
    requires Apart(done + [a, b] + later)
    requires f.start == a.start && f.end == b.end
    ensures Apart(done + [f] + later)
    ensures Dur(f) >= Dur(a)
  {
    var all, out, n := done + [a, b] + later, done + [f] + later, |done|;
    assert all[n] == a && all[n + 1] == b;
    forall i | 0 <= i < |out|
      ensures 0.0 <= out[i].start < out[i].end
      ensures out[i].start == all[if i <= n then i else i + 1].start
      ensures out[i].end == all[if i < n then i else i + 1].end
    {
      assert i < n ==> out[i] == all[i];
      assert i > n ==> out[i] == all[i + 1];
    }
  }

  lemma MergeTurnApart(done: seq<Segment>, rest: seq<Segment>, minDur: real)
    requires rest != [] && Apart(done + rest)
    requires forall s | s in done :: Dur(s) >= minDur
    ensures var next := MergeTurn(done, rest, false, minDur);
      && Apart(next.0 + next.1)
      && (next.1 != [] || done != [] || Dur(rest[0]) >= minDur ==> forall s | s in next.0 :: Dur(s) >= minDur)
      && (next.1 == [] && done == [] ==> |next.0| == 1)
  {
    var cur := rest[0];
    if Dur(cur) >= minDur {
      assert (done + [cur]) + rest[1..] == done + rest;
    } else if |rest| > 1 {
      var f, later := Fuse(cur, rest[1]), rest[2..];
      assert done + [cur, rest[1]] + later == done + rest;
      FuseApart(done, cur, rest[1], f, later);
      assert done + [f] + later == done + ([f] + later);
    } else if done != [] {
      var f := Fuse(Last(done), cur);
      assert Front(done) + [Last(done), cur] + [] == done + rest;
      FuseApart(Front(done), Last(done), cur, f, []);
      assert Last(done) in done;
    } else {
      assert [cur] + [] == done + rest;
    }
  }

  lemma {:induction false} MergeShortApart(done: seq<Segment>, rest: seq<Segment>, minDur: real)
    requires Apart(done + rest)
    requires forall s | s in done :: Dur(s) >= minDur
    ensures Apart(MergeShort(done, rest, false, minDur))
    ensures Settled(MergeShort(done, rest, false, minDur), minDur)
    decreases |rest|
  {
    if rest == [] {
      assert done + rest == done;
    } else {
      var next := MergeTurn(done, rest, false, minDur);
      MergeTurnApart(done, rest, minDur);
      if next.1 == [] && done == [] && Dur(rest[0]) < minDur {
        assert MergeShort(done, rest, false, minDur) == next.0;
        assert next.0 + next.1 == next.0;
      } else {
        MergeShortApart(next.0, next.1, minDur);
      }
    }
  }

  /** On captions that do not overlap the second loop only clamps. */
  lemma {:induction false} ChainOnApart(
      done: seq<Segment>, anchor: real, rest: seq<Segment>, minDur: real, maxDur: real, pad: real)
    requires minDur <= maxDur && Apart(rest)
    requires rest != [] ==> anchor <= rest[0].start
    requires forall s | s in done + rest :: Dur(s) >= minDur
    ensures forall s | s in Chain(done, anchor, rest, maxDur, pad) :: Dur(s) >= minDur
    decreases |rest|
  {
    if rest != [] {
      var s := rest[0];
      var c := Clamped(s, maxDur);
      assert s in done + rest;
      assert ChainTurn(done, anchor, s, maxDur, pad) == (done + [c], c.end);
      ChainOnApart(done + [c], c.end, rest[1..], minDur, maxDur, pad);
    } else {
      assert done + rest == done;
    }
  }

  lemma MergedSettled(segments: seq<Segment>, minDur: real)
    requires Apart(Prepared(segments))
    ensures Apart(Merged(segments, minDur)) && Settled(Merged(segments, minDur), minDur)
  {
    var segs := Prepared(segments);
    assert [] + segs == segs;
    if |segs| == 1 {
      MergeShortKeepsLong([], segs, true, minDur);
    } else {
      MergeShortApart([], segs, minDur);
    }
  }

  /** On input that does not overlap once filtered and sorted, the result is a single caption or
      has only captions of the minimum length, so normalising again changes nothing. */
  lemma NonOverlappingIsStable(segments: seq<Segment>, minDur: real, maxDur: real, pad: real)
    requires 0.0 < maxDur && minDur <= maxDur
    requires forall s | s in segments :: s.Valid()
    requires Apart(Prepared(segments))
    ensures var once := Normalized(segments, minDur, maxDur, pad);
      Settled(once, minDur) && Normalized(once, minDur, maxDur, pad) == once
  {
    var merged := Merged(segments, minDur);
    MergedSettled(segments, minDur);
    if |merged| <= 1 {
      ChainCount([], 0.0, merged, maxDur, pad);
    } else {
      assert [] + merged == merged;
      ChainOnApart([], 0.0, merged, minDur, maxDur, pad);
    }
    IdempotentIffSettled(segments, minDur, maxDur, pad);
  }

  lemma ChainTwo(a: Segment, b: Segment, maxDur: real, pad: real)
    requires 0.0 <= a.start < a.end <= a.start + maxDur
    requires b.start <= a.end < b.end <= a.end + maxDur
    ensures Chain([], 0.0, [a, b], maxDur, pad) == [a, b.(start := a.end)]
  {
    ChainStep([], 0.0, a, [b], maxDur, pad);
    assert [] + [a] == [a] && [a] + [b] == [a, b] && [b] + [] == [b];
    ChainStep([a], a.end, b, [], maxDur, pad);
  }

  /** Overlap can defeat stability: the second caption of this pair is pushed down to a tenth of
      a second, so a second pass would fold it into the first. */
  lemma OverlapIsNotAlwaysStable()
    ensures exists segments: seq<Segment> ::
      && (forall s | s in segments :: s.Valid())
      && var once := Normalized(segments, MIN_DURATION, MAX_SEGMENT_DURATION, PAD);
         Normalized(once, MIN_DURATION, MAX_SEGMENT_DURATION, PAD) != once
  {
    var a, b := Segment(0.0, 5.0, "a", "a"), Segment(4.5, 5.1, "b", "b");
    var segs := [a, b];
    StripFixed("a");
    StripFixed("b");
    OverlapResult(a, b);
    var once := Normalized(segs, MIN_DURATION, MAX_SEGMENT_DURATION, PAD);
    assert once[1] in once && Dur(once[1]) < MIN_DURATION;
    IdempotentIffSettled(segs, MIN_DURATION, MAX_SEGMENT_DURATION, PAD);
  }

  lemma OverlapResult(a: Segment, b: Segment)
    requires Voiced(a) && Voiced(b)
    requires a.start == 0.0 && a.end == 5.0 && b.start == 4.5 && b.end == 5.1
    ensures Normalized([a, b], MIN_DURATION, MAX_SEGMENT_DURATION, PAD) == [a, b.(start := 5.0)]
  {
    var segs := [a, b];
    FilterKeepsAll(segs);
    SortFixed(segs, ByStart);
    MergeShortKeepsLong([], segs, false, MIN_DURATION);
    assert [] + segs == segs;
    ChainTwo(a, b, MAX_SEGMENT_DURATION, PAD);
  }
}
