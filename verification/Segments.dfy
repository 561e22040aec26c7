/** Segment post-processing: drop empty or malformed segments, sort, merge short ones into a
    neighbour, then force one clean chain of non-overlapping captions. */
module Segments {
  import opened Schemas
  import opened Text
  import opened Sorting

  const MIN_DURATION := 0.4
  const MAX_SEGMENT_DURATION := 8.0
  const PAD := 0.5

  predicate Voiced(s: Segment) {
    Strip(s.source) != "" && Strip(s.target) != ""
  }

  predicate Usable(s: Segment) {
    Voiced(s) && s.end > s.start
  }

  predicate ByStart(a: Segment, b: Segment) {
    a.start <= b.start
  }

  function Dur(s: Segment): real {
    s.end - s.start
  }

  /** The usable segments in stable start order. */
  function Prepared(segments: seq<Segment>): seq<Segment> {
    Sort(Filter(segments, Usable), ByStart)
  }

  function Fuse(a: Segment, b: Segment): Segment {
    Segment(a.start, b.end, Glue(a.source, b.source), Glue(a.target, b.target))
  }

  function Front<T>(s: seq<T>): seq<T>
    requires s != []
  {
    s[..|s| - 1]
  }

  function Last<T>(s: seq<T>): T
    requires s != []
  {
    s[|s| - 1]
  }

  /** One turn of the first loop: what `merged` and the remaining `segs` become. */
  function MergeTurn(done: seq<Segment>, rest: seq<Segment>, single: bool, minDur: real)
    : (next: (seq<Segment>, seq<Segment>))
    requires rest != []
    ensures |next.1| < |rest|
  {
    var cur := rest[0];
    if Dur(cur) >= minDur || single then (done + [cur], rest[1..])
    else if |rest| > 1 then (done, [Fuse(cur, rest[1])] + rest[2..])
    else if done != [] then (Front(done) + [Fuse(Last(done), cur)], [])
    else ([cur], [])
  }

  /** The first loop, `done` being `merged` and `rest` what is left of `segs`. */
  function MergeShort(done: seq<Segment>, rest: seq<Segment>, single: bool, minDur: real): seq<Segment>
    decreases |rest|
  {
    if rest == [] then done
    else
      var next := MergeTurn(done, rest, single, minDur);
      MergeShort(next.0, next.1, single, minDur)
  }

  /** The caption content of a degenerate segment goes to its predecessor. */
  function Fold(prev: Segment, s: Segment): Segment {
    prev.(target := Glue(prev.target, s.target), source := Glue(prev.source, s.source))
  }

  function Pushed(s: Segment, anchor: real): Segment {
    if s.start < anchor then s.(start := anchor) else s
  }

  function Padded(s: Segment, pad: real): Segment {
    s.(end := s.start + pad)
  }

  function Clamped(s: Segment, maxDur: real): Segment {
    if Dur(s) > maxDur then s.(end := s.start + maxDur) else s
  }

  /** One turn of the second loop: what `sequential` and `anchor` become. */
  function ChainTurn(done: seq<Segment>, anchor: real, raw: Segment, maxDur: real, pad: real)
    : (seq<Segment>, real)
  {
    var s := Pushed(raw, anchor);
    if s.end <= s.start then
      if done != [] then (Front(done) + [Fold(Last(done), s)], anchor)
      else ([Padded(s, pad)], anchor)
    else
      var c := Clamped(s, maxDur);
      (done + [c], c.end)
  }

  /** The second loop, `done` being `sequential`. */
  function Chain(done: seq<Segment>, anchor: real, rest: seq<Segment>, maxDur: real, pad: real): seq<Segment>
    decreases |rest|
  {
    if rest == [] then done
    else
      var next := ChainTurn(done, anchor, rest[0], maxDur, pad);
      Chain(next.0, next.1, rest[1..], maxDur, pad)
  }

  lemma ChainStep(done: seq<Segment>, anchor: real, s: Segment, rest: seq<Segment>, maxDur: real, pad: real)
    ensures var next := ChainTurn(done, anchor, s, maxDur, pad);
      Chain(done, anchor, [s] + rest, maxDur, pad) == Chain(next.0, next.1, rest, maxDur, pad)
  {
    assert ([s] + rest)[1..] == rest;
  }

  function Merged(segments: seq<Segment>, minDur: real): seq<Segment> {
    var segs := Prepared(segments);
    MergeShort([], segs, |segs| == 1, minDur)
  }

  function Normalized(segments: seq<Segment>, minDur: real, maxDur: real, pad: real): seq<Segment> {
    Chain([], 0.0, Merged(segments, minDur), maxDur, pad)
  }

  // ----- captions are conserved ---------------------------------------------------------------

  datatype Side = Source | Target

  function Caption(s: Segment, side: Side): string {
    if side.Source? then s.source else s.target
  }

  /** What is said over a run of segments, `say` giving the words of one of them. */
  function Heard(segs: seq<Segment>, say: Segment -> seq<string>): seq<string> {
    if segs == [] then [] else say(segs[0]) + Heard(segs[1..], say)
  }

  function Saying(side: Side): Segment -> seq<string> {
    s => Words(Caption(s, side))
  }

  /** Fusing and folding concatenate what is said; moving a boundary does not change it. */
  ghost predicate Additive(say: Segment -> seq<string>) {
    && (forall a, b :: say(Fuse(a, b)) == say(a) + say(b))
    && (forall a, b :: say(Fold(a, b)) == say(a) + say(b))
    && (forall s, x :: say(Pushed(s, x)) == say(s))
    && (forall s, x :: say(Clamped(s, x)) == say(s))
    && (forall s, x :: say(Padded(s, x)) == say(s))
  }

  lemma SayingIsAdditive(side: Side)
    ensures Additive(Saying(side))
  {
    var say := Saying(side);
    forall a, b ensures say(Fuse(a, b)) == say(a) + say(b) && say(Fold(a, b)) == say(a) + say(b) {
      GlueWords(Caption(a, side), Caption(b, side));
    }
  }

  lemma {:induction false} HeardConcat(a: seq<Segment>, b: seq<Segment>, say: Segment -> seq<string>)
    ensures Heard(a + b, say) == Heard(a, say) + Heard(b, say)
  {
    if a == [] {
      assert a + b == b;
    } else {
      assert (a + b)[1..] == a[1..] + b;
      HeardConcat(a[1..], b, say);
    }
  }

  lemma HeardSnoc(done: seq<Segment>, s: Segment, say: Segment -> seq<string>)
    ensures Heard(done + [s], say) == Heard(done, say) + say(s)
  {
    HeardConcat(done, [s], say);
    assert Heard([s], say) == say(s) + Heard([], say);
  }

  lemma HeardCons(s: Segment, rest: seq<Segment>, say: Segment -> seq<string>)
    ensures Heard([s] + rest, say) == say(s) + Heard(rest, say)
  {
    assert ([s] + rest)[1..] == rest;
  }

  /** Replacing the last segment by one that says more. */
  lemma HeardReplaceLast(done: seq<Segment>, f: Segment, more: seq<string>, say: Segment -> seq<string>)
    requires done != [] && say(f) == say(Last(done)) + more
    ensures Heard(Front(done) + [f], say) == Heard(done, say) + more
  {
    HeardSnoc(Front(done), f, say);
    HeardSnoc(Front(done), Last(done), say);
    assert done == Front(done) + [Last(done)];
  }

  lemma ForwardHeard(cur: Segment, nxt: Segment, later: seq<Segment>, say: Segment -> seq<string>)
    requires Additive(say)
    ensures Heard([Fuse(cur, nxt)] + later, say) == Heard([cur, nxt] + later, say)
  {
    HeardCons(Fuse(cur, nxt), later, say);
    HeardCons(nxt, later, say);
    HeardCons(cur, [nxt] + later, say);
    assert [cur] + ([nxt] + later) == [cur, nxt] + later;
  }

  lemma KeepHeard(done: seq<Segment>, cur: Segment, later: seq<Segment>, say: Segment -> seq<string>)
    ensures Heard(done + [cur], say) + Heard(later, say) == Heard(done, say) + Heard([cur] + later, say)
  {
    HeardSnoc(done, cur, say);
    HeardCons(cur, later, say);
  }

  lemma MergeTurnHeard(
      done: seq<Segment>, rest: seq<Segment>, single: bool, minDur: real, say: Segment -> seq<string>)
    requires rest != [] && Additive(say)
    ensures var next := MergeTurn(done, rest, single, minDur);
      Heard(next.0, say) + Heard(next.1, say) == Heard(done, say) + Heard(rest, say)
  {
    var cur := rest[0];
    if Dur(cur) >= minDur || single {
      assert rest == [cur] + rest[1..];
      KeepHeard(done, cur, rest[1..], say);
    } else if |rest| > 1 {
      assert rest == [cur, rest[1]] + rest[2..];
      ForwardHeard(cur, rest[1], rest[2..], say);
    } else {
      assert rest == [cur] && [cur] + [] == [cur] && [] + [cur] == [cur];
      KeepHeard([], cur, [], say);
      if done != [] {
        HeardReplaceLast(done, Fuse(Last(done), cur), say(cur), say);
        HeardSnoc([], cur, say);
      }
    }
  }

  lemma {:induction false} MergeShortHeard(
      done: seq<Segment>, rest: seq<Segment>, single: bool, minDur: real, say: Segment -> seq<string>)
    requires Additive(say)
    ensures Heard(MergeShort(done, rest, single, minDur), say) == Heard(done, say) + Heard(rest, say)
    decreases |rest|
  {
    if rest != [] {
      var next := MergeTurn(done, rest, single, minDur);
      MergeTurnHeard(done, rest, single, minDur, say);
      MergeShortHeard(next.0, next.1, single, minDur, say);
    }
  }

  lemma ChainTurnHeard(
      done: seq<Segment>, anchor: real, raw: Segment, maxDur: real, pad: real, say: Segment -> seq<string>)
    requires Additive(say)
    ensures Heard(ChainTurn(done, anchor, raw, maxDur, pad).0, say) == Heard(done, say) + say(raw)
  {
    var s := Pushed(raw, anchor);
    if s.end <= s.start {
      if done != [] {
        HeardReplaceLast(done, Fold(Last(done), s), say(s), say);
      } else {
        HeardSnoc([], Padded(s, pad), say);
        assert [] + [Padded(s, pad)] == [Padded(s, pad)];
      }
    } else {
      HeardSnoc(done, Clamped(s, maxDur), say);
    }
  }

  lemma {:induction false} ChainHeard(
      done: seq<Segment>, anchor: real, rest: seq<Segment>, maxDur: real, pad: real, say: Segment -> seq<string>)
    requires Additive(say)
    ensures Heard(Chain(done, anchor, rest, maxDur, pad), say) == Heard(done, say) + Heard(rest, say)
    decreases |rest|
  {
    if rest != [] {
      var next := ChainTurn(done, anchor, rest[0], maxDur, pad);
      ChainTurnHeard(done, anchor, rest[0], maxDur, pad, say);
      ChainHeard(next.0, next.1, rest[1..], maxDur, pad, say);
    }
  }

  /** The words of either side come out exactly as those of the usable input in stable start
      order. */
  lemma NormalizeKeepsWords(segments: seq<Segment>, minDur: real, maxDur: real, pad: real, side: Side)
    ensures Heard(Normalized(segments, minDur, maxDur, pad), Saying(side))
         == Heard(Prepared(segments), Saying(side))
  {
    var segs := Prepared(segments);
    SayingIsAdditive(side);
    MergeShortHeard([], segs, |segs| == 1, minDur, Saying(side));
    ChainHeard([], 0.0, Merged(segments, minDur), maxDur, pad, Saying(side));
  }

  function Sources(segs: seq<Segment>): seq<string> {
    if segs == [] then [] else [segs[0].source] + Sources(segs[1..])
  }

  function Targets(segs: seq<Segment>): seq<string> {
    if segs == [] then [] else [segs[0].target] + Targets(segs[1..])
  }

  lemma {:induction false} HeardIsWords(segs: seq<Segment>)
    ensures Heard(segs, Saying(Source)) == WordsAll(Sources(segs))
    ensures Heard(segs, Saying(Target)) == WordsAll(Targets(segs))
  {
    if segs != [] {
      HeardIsWords(segs[1..]);
      WordsAllCons(segs[0].source, Sources(segs[1..]));
      WordsAllCons(segs[0].target, Targets(segs[1..]));
    }
  }

  /** Both texts keep their words, apart and in order. */
  lemma BothTextsKept(segments: seq<Segment>, minDur: real, maxDur: real, pad: real)
    ensures var out := Normalized(segments, minDur, maxDur, pad);
      && WordsAll(Sources(out)) == WordsAll(Sources(Prepared(segments)))
      && WordsAll(Targets(out)) == WordsAll(Targets(Prepared(segments)))
  {
    NormalizeKeepsWords(segments, minDur, maxDur, pad, Source);
    NormalizeKeepsWords(segments, minDur, maxDur, pad, Target);
    HeardIsWords(Normalized(segments, minDur, maxDur, pad));
    HeardIsWords(Prepared(segments));
  }

  // ----- the timeline -------------------------------------------------------------------------

  /** Positive lengths, no start before zero, starts never going back; overlaps allowed. */
  ghost predicate Ordered(segs: seq<Segment>) {
    && (forall i | 0 <= i < |segs| :: 0.0 <= segs[i].start < segs[i].end)
    && (forall i, j | 0 <= i < j < |segs| :: segs[i].start <= segs[j].start)
  }

  /** What normalising promises: strictly increasing, non-overlapping, bounded durations. */
  ghost predicate Clean(segs: seq<Segment>, maxDur: real) {
    && (forall i | 0 <= i < |segs| :: 0.0 <= segs[i].start && 0.0 < Dur(segs[i]) <= maxDur)
    && (forall i, j | 0 <= i < j < |segs| :: segs[i].end <= segs[j].start)
  }

  lemma FuseOrdered(done: seq<Segment>, a: Segment, b: Segment, f: Segment, later: seq<Segment>)
    requires Ordered(done + [a, b] + later)
    requires f.start == a.start && f.end == b.end
    ensures Ordered(done + [f] + later)
  {
    var all, out, n := done + [a, b] + later, done + [f] + later, |done|;
    assert all[n] == a && all[n + 1] == b;
    forall i | 0 <= i < |out|
      ensures 0.0 <= out[i].start < out[i].end
      ensures out[i].start == all[if i <= n then i else i + 1].start
    {
      assert i < n ==> out[i] == all[i];
      assert i > n ==> out[i] == all[i + 1];
    }
  }

  lemma MergeTurnOrdered(done: seq<Segment>, rest: seq<Segment>, single: bool, minDur: real)
    requires rest != [] && Ordered(done + rest)
    ensures var next := MergeTurn(done, rest, single, minDur); Ordered(next.0 + next.1)
  {
    var cur := rest[0];
    if Dur(cur) >= minDur || single {
      assert (done + [cur]) + rest[1..] == done + rest;
    } else if |rest| > 1 {
      var f, later := Fuse(cur, rest[1]), rest[2..];
      assert done + [cur, rest[1]] + later == done + rest;
      FuseOrdered(done, cur, rest[1], f, later);
      assert done + [f] + later == done + ([f] + later);
    } else if done != [] {
      var f := Fuse(Last(done), cur);
      assert Front(done) + [Last(done), cur] + [] == done + rest;
      FuseOrdered(Front(done), Last(done), cur, f, []);
    } else {
      assert [cur] + [] == done + rest;
    }
  }

  lemma {:induction false} MergeShortOrdered(done: seq<Segment>, rest: seq<Segment>, single: bool, minDur: real)
    requires Ordered(done + rest)
    ensures Ordered(MergeShort(done, rest, single, minDur))
    ensures |MergeShort(done, rest, single, minDur)| <= |done| + |rest|
    decreases |rest|
  {
    if rest == [] {
      assert done + rest == done;
    } else {
      var next := MergeTurn(done, rest, single, minDur);
      MergeTurnOrdered(done, rest, single, minDur);
      MergeShortOrdered(next.0, next.1, single, minDur);
    }
  }

  lemma PreparedOrdered(segments: seq<Segment>)
    requires forall s | s in segments :: s.Valid()
    ensures Ordered(Prepared(segments))
    ensures forall s | s in Prepared(segments) :: Usable(s)
  {
    var kept := Filter(segments, Usable);
    FilterFacts(segments);
    SortMembers(kept, ByStart);
    SortSorted(kept, ByStart);
    assert forall i | 0 <= i < |Prepared(segments)| :: Prepared(segments)[i] in kept;
  }

  /** A segment is worked on if and only if both its texts hold a word and it ends after it starts; and the
      work goes by start time. */
  lemma PreparedIff(segments: seq<Segment>)
    ensures forall s :: s in Prepared(segments) <==>
      s in segments && Words(s.source) != [] && Words(s.target) != [] && s.start < s.end
    ensures forall i, j | 0 <= i < j < |Prepared(segments)| ::
      Prepared(segments)[i].start <= Prepared(segments)[j].start
  {
    var kept := Filter(segments, Usable);
    FilterMembers(segments, Usable);
    SortMembers(kept, ByStart);
    SortSorted(kept, ByStart);
    forall s ensures Usable(s) <==> Words(s.source) != [] && Words(s.target) != [] && s.start < s.end {
      BlankIffNoWords(s.source);
      BlankIffNoWords(s.target);
    }
    forall i, j | 0 <= i < j < |Prepared(segments)|
      ensures Prepared(segments)[i].start <= Prepared(segments)[j].start
    {
      assert ByStart(Prepared(segments)[i], Prepared(segments)[j]);
    }
  }

  lemma {:induction false} FilterFacts(segments: seq<Segment>)
    ensures forall s | s in Filter(segments, Usable) :: s in segments && Usable(s)
  {
    if segments != [] {
      FilterFacts(segments[1..]);
    }
  }

  /** The chain so far: clean, and `anchor` is where the next caption may start. */
  ghost predicate ChainInv(done: seq<Segment>, anchor: real, maxDur: real) {
    && Clean(done, maxDur)
    && anchor == (if done == [] then 0.0 else Last(done).end)
  }

  lemma ChainTurnClean(done: seq<Segment>, anchor: real, raw: Segment, maxDur: real, pad: real)
    requires maxDur > 0.0 && ChainInv(done, anchor, maxDur)
    requires 0.0 <= raw.start < raw.end
    ensures var next := ChainTurn(done, anchor, raw, maxDur, pad);
      && next.0 != [] && ChainInv(next.0, next.1, maxDur)
      && |done| <= |next.0| <= |done| + 1
      && forall other :: ChainTurn(done, anchor, raw, maxDur, other) == next
  {
    var s := Pushed(raw, anchor);
    if s.end <= s.start {
      assert done != [];
    } else {
      assert forall i | 0 <= i < |done| :: done[i].end <= anchor;
    }
  }

  lemma {:induction false} ChainClean(done: seq<Segment>, anchor: real, rest: seq<Segment>, maxDur: real, pad: real)
    requires maxDur > 0.0 && ChainInv(done, anchor, maxDur)
    requires forall s | s in rest :: 0.0 <= s.start < s.end
    ensures Clean(Chain(done, anchor, rest, maxDur, pad), maxDur)
    ensures |Chain(done, anchor, rest, maxDur, pad)| <= |done| + |rest|
    ensures forall other :: Chain(done, anchor, rest, maxDur, other) == Chain(done, anchor, rest, maxDur, pad)
    decreases |rest|
  {
    if rest != [] {
      var next := ChainTurn(done, anchor, rest[0], maxDur, pad);
      assert rest[0] in rest;
      ChainTurnClean(done, anchor, rest[0], maxDur, pad);
      ChainClean(next.0, next.1, rest[1..], maxDur, pad);
    }
  }

  lemma MergedOrdered(segments: seq<Segment>, minDur: real)
    requires forall s | s in segments :: s.Valid()
    ensures Ordered(Merged(segments, minDur))
    ensures forall s | s in Merged(segments, minDur) :: 0.0 <= s.start < s.end
  {
    var segs := Prepared(segments);
    PreparedOrdered(segments);
    assert [] + segs == segs;
    MergeShortOrdered([], segs, |segs| == 1, minDur);
  }

  /** On any overlapping or unsorted input the output is a strictly increasing, non-overlapping
      timeline whose durations lie in (0, maxDur]; and the pad added to a degenerate first
      caption never matters, because that branch cannot be taken. */
  lemma NormalizeIsClean(segments: seq<Segment>, minDur: real, maxDur: real, pad: real)
    requires maxDur > 0.0
    requires forall s | s in segments :: s.Valid()
    ensures Clean(Normalized(segments, minDur, maxDur, pad), maxDur)
    ensures forall other :: Normalized(segments, minDur, maxDur, other) == Normalized(segments, minDur, maxDur, pad)
  {
    MergedOrdered(segments, minDur);
    ChainClean([], 0.0, Merged(segments, minDur), maxDur, pad);
  }
}
