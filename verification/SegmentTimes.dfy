/** Which captions normalising fuses, and the exact times it gives them. */
module SegmentTimes {
  import opened Reals
  import opened Schemas
  import opened Text
  import opened Segments

  /** `s` stands for the segments from `lo` up to `hi`: it starts with the first, ends with the last, and says
      what they say, on both sides. */
  ghost predicate Spans(s: Segment, segs: seq<Segment>, lo: nat, hi: nat) {
    && lo < hi <= |segs|
    && s.start == segs[lo].start && s.end == segs[hi - 1].end
    && SaysAll(s, segs[lo..hi])
  }

  ghost predicate SaysAll(s: Segment, segs: seq<Segment>) {
    forall side :: SaysSide(s, segs, side)
  }

  ghost predicate SaysSide(s: Segment, segs: seq<Segment>, side: Side) {
    Words(Caption(s, side)) == Heard(segs, Saying(side))
  }

  lemma SaysOne(s: Segment)
    ensures SaysAll(s, [s])
  {
    forall side ensures SaysSide(s, [s], side) {
      HeardSnoc([], s, Saying(side));
      assert [] + [s] == [s];
    }
  }

  lemma SaysMore(s: Segment, segs: seq<Segment>, next: Segment, more: Segment)
    requires SaysAll(s, segs)
    requires forall side :: Words(Caption(more, side)) == Words(Caption(s, side)) + Words(Caption(next, side))
    ensures SaysAll(more, segs + [next])
  {
    forall side ensures SaysSide(more, segs + [next], side) {
      assert SaysSide(s, segs, side);
      HeardSnoc(segs, next, Saying(side));
    }
  }

  lemma FuseSpans(s: Segment, segs: seq<Segment>, lo: nat, hi: nat)
    requires Spans(s, segs, lo, hi) && hi < |segs|
    ensures Spans(Fuse(s, segs[hi]), segs, lo, hi + 1)
  {
    var f := Fuse(s, segs[hi]);
    forall side ensures Words(Caption(f, side)) == Words(Caption(s, side)) + Words(Caption(segs[hi], side)) {
      GlueWords(Caption(s, side), Caption(segs[hi], side));
    }
    SaysMore(s, segs[lo..hi], segs[hi], f);
    assert segs[lo..hi + 1] == segs[lo..hi] + [segs[hi]];
  }

  lemma OneSpans(segs: seq<Segment>, i: nat)
    requires i < |segs|
    ensures Spans(segs[i], segs, i, i + 1)
  {
    SaysOne(segs[i]);
    assert segs[i..i + 1] == [segs[i]];
  }

  /** Two neighbouring spans fuse into one. */
  lemma SpansJoin(a: Segment, b: Segment, segs: seq<Segment>, lo: nat, mid: nat, hi: nat)
    requires Spans(a, segs, lo, mid) && Spans(b, segs, mid, hi)
    ensures Spans(Fuse(a, b), segs, lo, hi)
  {
    assert segs[lo..hi] == segs[lo..mid] + segs[mid..hi];
    forall side ensures SaysSide(Fuse(a, b), segs[lo..hi], side) {
      assert SaysSide(a, segs[lo..mid], side) && SaysSide(b, segs[mid..hi], side);
      GlueWords(Caption(a, side), Caption(b, side));
      HeardConcat(segs[lo..mid], segs[mid..hi], Saying(side));
    }
  }

  // ----- the first loop ------------------------------------------------------------------------------------

  /** From the start of segment `lo` to the end of any segment before `hi` it takes less than `minDur`. */
  ghost predicate Short(segs: seq<Segment>, lo: nat, hi: nat, minDur: real) {
    hi <= |segs| && forall i | lo <= i < hi :: segs[i].end - segs[lo].start < minDur
  }

  /** A group that is closed as soon as it lasts long enough. */
  ghost predicate LongGroup(segs: seq<Segment>, lo: nat, hi: nat, minDur: real) {
    && lo < hi <= |segs| && segs[hi - 1].end - segs[lo].start >= minDur
    && Short(segs, lo, hi - 1, minDur)
  }

  /** `cuts` begins at 0; between each two of them lies a group, and `done` are the fused groups. */
  ghost predicate Groups(done: seq<Segment>, segs: seq<Segment>, cuts: seq<nat>, minDur: real) {
    && |cuts| == |done| + 1 && cuts[0] == 0
    && forall j: nat | j < |done| :: GroupAt(done, segs, cuts, minDur, j)
  }

  ghost predicate GroupAt(done: seq<Segment>, segs: seq<Segment>, cuts: seq<nat>, minDur: real, j: nat)
    requires j < |done| && |cuts| == |done| + 1
  {
    LongGroup(segs, cuts[j], cuts[j + 1], minDur) && Spans(done[j], segs, cuts[j], cuts[j + 1])
  }

  /** What the first loop leaves: the groups, and behind them a tail that stays too short; the tail joins the
      last group, or stands alone if there is none. */
  ghost predicate MergedAs(out: seq<Segment>, segs: seq<Segment>, cuts: seq<nat>, minDur: real) {
    exists done: seq<Segment> :: Groups(done, segs, cuts, minDur) && TailJoins(out, done, segs, cuts, minDur)
  }

  ghost predicate TailJoins(out: seq<Segment>, done: seq<Segment>, segs: seq<Segment>, cuts: seq<nat>, minDur: real)
    requires |cuts| == |done| + 1
  {
    var tail := cuts[|done|];
    && Short(segs, tail, |segs|, minDur)
    && (tail >= |segs| ==> out == done)
    && (tail < |segs| && done == [] ==> |out| == 1 && Spans(out[0], segs, tail, |segs|))
    && (tail < |segs| && done != [] ==>
          |out| == |done| && Front(out) == Front(done) && Spans(Last(out), segs, cuts[|done| - 1], |segs|))
  }

  lemma GroupsSnoc(done: seq<Segment>, cur: Segment, segs: seq<Segment>, cuts: seq<nat>, hi: nat, minDur: real)
    requires Groups(done, segs, cuts, minDur)
    requires LongGroup(segs, cuts[|done|], hi, minDur) && Spans(cur, segs, cuts[|done|], hi)
    ensures Groups(done + [cur], segs, cuts + [hi], minDur)
  {
    var more, cuts' := done + [cur], cuts + [hi];
    forall j: nat | j < |more| ensures GroupAt(more, segs, cuts', minDur, j) {
      if j < |done| {
        assert GroupAt(done, segs, cuts, minDur, j);
      }
    }
  }

  lemma ShortGrows(cur: Segment, segs: seq<Segment>, lo: nat, i: nat, minDur: real)
    requires Spans(cur, segs, lo, i) && Short(segs, lo, i - 1, minDur)
    ensures Dur(cur) < minDur ==> Short(segs, lo, i, minDur)
    ensures Dur(cur) >= minDur ==> LongGroup(segs, lo, i, minDur)
  {
  }

  lemma LongGroupBefore(done: seq<Segment>, segs: seq<Segment>, cuts: seq<nat>, minDur: real)
    requires Groups(done, segs, cuts, minDur)
    ensures done != [] ==> cuts[|done|] > 0 && cuts[|done| - 1] < cuts[|done|] <= |segs|
  {
    if done != [] {
      assert GroupAt(done, segs, cuts, minDur, |done| - 1);
    }
  }

  lemma TailJoinsLast(done: seq<Segment>, cur: Segment, segs: seq<Segment>, cuts: seq<nat>, minDur: real)
    requires Groups(done, segs, cuts, minDur) && Spans(cur, segs, cuts[|done|], |segs|)
    requires Short(segs, cuts[|done|], |segs|, minDur)
    ensures MergedAs(if done == [] then [cur] else Front(done) + [Fuse(Last(done), cur)], segs, cuts, minDur)
  {
    var out := if done == [] then [cur] else Front(done) + [Fuse(Last(done), cur)];
    if done != [] {
      var last := |done| - 1;
      assert GroupAt(done, segs, cuts, minDur, last);
      SpansJoin(Last(done), cur, segs, cuts[last], cuts[last + 1], |segs|);
    }
    assert TailJoins(out, done, segs, cuts, minDur);
  }

  /** The loop has a group under way: `cur` spans the segments from the last cut up to `i`. */
  ghost predicate UnderWay(done: seq<Segment>, cur: Segment, i: nat, segs: seq<Segment>, cuts: seq<nat>, minDur: real) {
    && Groups(done, segs, cuts, minDur) && 0 < i <= |segs|
    && Spans(cur, segs, cuts[|done|], i) && Short(segs, cuts[|done|], i - 1, minDur)
  }

  lemma FuseStaysUnderWay(done: seq<Segment>, cur: Segment, i: nat, segs: seq<Segment>, cuts: seq<nat>, minDur: real)
    requires UnderWay(done, cur, i, segs, cuts, minDur) && Dur(cur) < minDur && i < |segs|
    ensures UnderWay(done, Fuse(cur, segs[i]), i + 1, segs, cuts, minDur)
  {
    ShortGrows(cur, segs, cuts[|done|], i, minDur);
    FuseSpans(cur, segs, cuts[|done|], i);
  }

  lemma KeepClosesGroup(done: seq<Segment>, cur: Segment, i: nat, segs: seq<Segment>, cuts: seq<nat>, minDur: real)
    requires UnderWay(done, cur, i, segs, cuts, minDur) && Dur(cur) >= minDur
    ensures Groups(done + [cur], segs, cuts + [i], minDur) && (cuts + [i])[|done| + 1] == i
  {
    ShortGrows(cur, segs, cuts[|done|], i, minDur);
    GroupsSnoc(done, cur, segs, cuts, i, minDur);
  }

  lemma NextIsUnderWay(done: seq<Segment>, segs: seq<Segment>, cuts: seq<nat>, minDur: real)
    requires Groups(done, segs, cuts, minDur) && cuts[|done|] < |segs|
    ensures UnderWay(done, segs[cuts[|done|]], cuts[|done|] + 1, segs, cuts, minDur)
  {
    OneSpans(segs, cuts[|done|]);
  }

  lemma TailEnds(done: seq<Segment>, cur: Segment, segs: seq<Segment>, cuts: seq<nat>, minDur: real)
    requires UnderWay(done, cur, |segs|, segs, cuts, minDur) && Dur(cur) < minDur
    ensures MergedAs(if done == [] then [cur] else Front(done) + [Fuse(Last(done), cur)], segs, cuts, minDur)
  {
    ShortGrows(cur, segs, cuts[|done|], |segs|, minDur);
    TailJoinsLast(done, cur, segs, cuts, minDur);
  }

  lemma GroupsEnd(done: seq<Segment>, segs: seq<Segment>, cuts: seq<nat>, minDur: real)
    requires Groups(done, segs, cuts, minDur) && cuts[|done|] == |segs|
    ensures MergedAs(done, segs, cuts, minDur)
  {
    assert TailJoins(done, done, segs, cuts, minDur);
  }

  lemma FirstIsAlone(done: seq<Segment>, cur: Segment, i: nat, segs: seq<Segment>, cuts: seq<nat>, minDur: real)
    requires UnderWay(done, cur, i, segs, cuts, minDur) && |segs| == 1
    ensures i == 1 && done == []
  {
    LongGroupBefore(done, segs, cuts, minDur);
  }

  /** What holds at every turn of the first loop. */
  ghost predicate Merges(done: seq<Segment>, rest: seq<Segment>, segs: seq<Segment>, minDur: real) {
    exists cuts: seq<nat> :: MergesBy(done, rest, segs, cuts, minDur)
  }

  ghost predicate MergesBy(done: seq<Segment>, rest: seq<Segment>, segs: seq<Segment>, cuts: seq<nat>, minDur: real) {
    if rest == [] then MergedAs(done, segs, cuts, minDur)
    else
      var i := |segs| - |rest| + 1;
      0 <= i <= |segs| && rest[1..] == segs[i..] && UnderWay(done, rest[0], i, segs, cuts, minDur)
  }

  lemma NextOf(rest: seq<Segment>, segs: seq<Segment>, i: nat)
    requires rest != [] && |segs| - |rest| + 1 == i <= |segs| && rest[1..] == segs[i..]
    ensures i < |segs| ==> |rest| > 1 && rest[1] == segs[i] && rest[2..] == segs[i + 1..]
  {
    if i < |segs| {
      assert rest[1..][0] == segs[i..][0] && rest[1..][1..] == segs[i..][1..];
      assert rest[2..] == rest[1..][1..] && segs[i + 1..] == segs[i..][1..];
    }
  }

  lemma TurnKeeps(done: seq<Segment>, rest: seq<Segment>, segs: seq<Segment>, cuts: seq<nat>, minDur: real)
    requires rest != [] && MergesBy(done, rest, segs, cuts, minDur)
    requires Dur(rest[0]) >= minDur
    ensures Merges(done + [rest[0]], rest[1..], segs, minDur)
  {
    var i := |segs| - |rest| + 1;
    KeepClosesGroup(done, rest[0], i, segs, cuts, minDur);
    NextOf(rest, segs, i);
    GroupClosed(done + [rest[0]], rest[1..], segs, cuts + [i], minDur);
  }

  lemma GroupClosed(done: seq<Segment>, rest: seq<Segment>, segs: seq<Segment>, cuts: seq<nat>, minDur: real)
    requires Groups(done, segs, cuts, minDur) && cuts[|done|] <= |segs| && rest == segs[cuts[|done|]..]
    ensures Merges(done, rest, segs, minDur)
  {
    if rest == [] {
      GroupsEnd(done, segs, cuts, minDur);
    } else {
      NextIsUnderWay(done, segs, cuts, minDur);
    }
    assert MergesBy(done, rest, segs, cuts, minDur);
  }

  lemma TurnFuses(done: seq<Segment>, rest: seq<Segment>, segs: seq<Segment>, cuts: seq<nat>, minDur: real)
    requires |rest| > 1 && MergesBy(done, rest, segs, cuts, minDur) && Dur(rest[0]) < minDur
    ensures Merges(done, [Fuse(rest[0], rest[1])] + rest[2..], segs, minDur)
  {
    var i := |segs| - |rest| + 1;
    NextOf(rest, segs, i);
    FuseStaysUnderWay(done, rest[0], i, segs, cuts, minDur);
    GoesOn(done, Fuse(rest[0], rest[1]), rest[2..], i + 1, segs, cuts, minDur);
  }

  lemma GoesOn(done: seq<Segment>, cur: Segment, later: seq<Segment>, i: nat, segs: seq<Segment>, cuts: seq<nat>,
        minDur: real)
    requires UnderWay(done, cur, i, segs, cuts, minDur) && later == segs[i..]
    ensures Merges(done, [cur] + later, segs, minDur)
  {
    assert ([cur] + later)[1..] == later;
    assert MergesBy(done, [cur] + later, segs, cuts, minDur);
  }

  lemma TurnEnds(done: seq<Segment>, rest: seq<Segment>, segs: seq<Segment>, cuts: seq<nat>, minDur: real)
    requires |rest| == 1 && MergesBy(done, rest, segs, cuts, minDur) && Dur(rest[0]) < minDur
    ensures Merges(if done == [] then [rest[0]] else Front(done) + [Fuse(Last(done), rest[0])], [], segs, minDur)
  {
    var out := if done == [] then [rest[0]] else Front(done) + [Fuse(Last(done), rest[0])];
    TailEnds(done, rest[0], segs, cuts, minDur);
    assert MergesBy(out, [], segs, cuts, minDur);
  }

  lemma TurnMerges(done: seq<Segment>, rest: seq<Segment>, segs: seq<Segment>, minDur: real)
    requires rest != [] && Merges(done, rest, segs, minDur)
    ensures var next := MergeTurn(done, rest, |segs| == 1, minDur); Merges(next.0, next.1, segs, minDur)
  {
    var cuts: seq<nat> :| MergesBy(done, rest, segs, cuts, minDur);
    if Dur(rest[0]) >= minDur {
      TurnKeeps(done, rest, segs, cuts, minDur);
    } else if |rest| > 1 {
      TurnFuses(done, rest, segs, cuts, minDur);
    } else {
      TurnEnds(done, rest, segs, cuts, minDur);
      assert rest == [rest[0]] && rest[1..] == [];
    }
    if |segs| == 1 {
      FirstIsAlone(done, rest[0], |segs| - |rest| + 1, segs, cuts, minDur);
      assert done + [rest[0]] == [rest[0]];
    }
  }

  /** The next turn of the loop, if there is one, keeps `inv`. */
  ghost predicate TurnKept(done: seq<Segment>, rest: seq<Segment>, single: bool, minDur: real,
      inv: (seq<Segment>, seq<Segment>) -> bool)
  {
    rest != [] ==> var next := MergeTurn(done, rest, single, minDur); inv(next.0, next.1)
  }

  /** An invariant of the turns holds at the end of the loop. */
  lemma {:induction false} LoopKeeps(done: seq<Segment>, rest: seq<Segment>, single: bool, minDur: real,
        inv: (seq<Segment>, seq<Segment>) -> bool)
    requires inv(done, rest)
    requires forall d, r | inv(d, r) :: TurnKept(d, r, single, minDur, inv)
    ensures inv(MergeShort(done, rest, single, minDur), [])
    decreases |rest|
  {
    if rest != [] {
      assert TurnKept(done, rest, single, minDur, inv);
      var next := MergeTurn(done, rest, single, minDur);
      LoopKeeps(next.0, next.1, single, minDur, inv);
    }
  }

  /** The first loop closes a group as soon as it lasts `minDur`; what is left at the end and never lasts that
      long joins the last group. */
  lemma ShortOnesJoin(segments: seq<Segment>, minDur: real) returns (cuts: seq<nat>)
    ensures MergedAs(Merged(segments, minDur), Prepared(segments), cuts, minDur)
  {
    var segs := Prepared(segments);
    var inv := (d: seq<Segment>, r: seq<Segment>) => Merges(d, r, segs, minDur);
    MergesAtFirst(segs, minDur);
    forall d, r | inv(d, r) ensures TurnKept(d, r, |segs| == 1, minDur, inv) {
      if r != [] {
        TurnMerges(d, r, segs, minDur);
      }
    }
    LoopKeeps([], segs, |segs| == 1, minDur, inv);
    cuts :| MergesBy(Merged(segments, minDur), [], segs, cuts, minDur);
  }

  lemma MergesAtFirst(segs: seq<Segment>, minDur: real)
    ensures Merges([], segs, segs, minDur)
  {
    assert segs[0..] == segs;
    GroupClosed([], segs, segs, [0], minDur);
  }

  // ----- the second loop -----------------------------------------------------------------------------------

  /** Where the caption before the `k`-th ended. */
  function EndBefore(out: seq<Segment>, k: nat): real
    requires k <= |out|
  {
    if k == 0 then 0.0 else out[k - 1].end
  }

  /** Up to which segment the `k`-th caption reaches, of the first `n`. */
  function Reach(keep: seq<nat>, n: nat, k: nat): nat
    requires k < |keep|
  {
    if k + 1 < |keep| then keep[k + 1] else n
  }

  /** `s` is segment `m`, moved behind `before` and cut to `maxDur`. */
  predicate Fitted(s: Segment, m: Segment, before: real, maxDur: real) {
    && m.end > before && s.start == Max(m.start, before) && s.end == Min(m.end, s.start + maxDur)
  }

  /** Caption `k` is segment `keep[k]`, fitted, and it takes up the texts of the segments behind it that end no
      later than it does. */
  ghost predicate LinkAt(out: seq<Segment>, segs: seq<Segment>, keep: seq<nat>, n: nat, maxDur: real, k: nat)
    requires k < |out| == |keep|
  {
    var next := Reach(keep, n, k);
    && keep[k] < next <= n <= |segs| && Fitted(out[k], segs[keep[k]], EndBefore(out, k), maxDur)
    && (forall i | keep[k] < i < next :: segs[i].end <= out[k].end)
    && SaysAll(out[k], segs[keep[k]..next])
  }

  /** The captions `out` are those of the first `n` segments. */
  ghost predicate Links(out: seq<Segment>, segs: seq<Segment>, keep: seq<nat>, n: nat, maxDur: real) {
    && |keep| == |out| && n <= |segs| && (n == 0 <==> keep == []) && (n > 0 ==> keep[0] == 0)
    && forall k: nat | k < |out| :: LinkAt(out, segs, keep, n, maxDur, k)
  }

  lemma FittedTurn(raw: Segment, anchor: real, maxDur: real)
    requires raw.start < raw.end && raw.end > anchor
    ensures var s := Pushed(raw, anchor);
      s.end > s.start && Fitted(Clamped(s, maxDur), raw, anchor, maxDur) && SaysAll(Clamped(s, maxDur), [raw])
  {
    var c := Clamped(Pushed(raw, anchor), maxDur);
    SaysOne(raw);
    forall side ensures SaysSide(c, [raw], side) {
      assert SaysSide(raw, [raw], side);
    }
  }

  lemma LinkKept(out: seq<Segment>, segs: seq<Segment>, keep: seq<nat>, n: nat, maxDur: real, c: Segment)
    requires Links(out, segs, keep, n, maxDur) && n < |segs|
    requires Fitted(c, segs[n], EndBefore(out, |out|), maxDur) && SaysAll(c, [segs[n]])
    ensures Links(out + [c], segs, keep + [n], n + 1, maxDur)
  {
    var more, keep', n' := out + [c], keep + [n], n + 1;
    assert segs[n..n'] == [segs[n]];
    forall k: nat | k < |more| ensures LinkAt(more, segs, keep', n', maxDur, k) {
      assert EndBefore(more, k) == EndBefore(out, k);
      if k < |out| {
        assert LinkAt(out, segs, keep, n, maxDur, k);
      }
    }
  }

  lemma FoldSays(prev: Segment, segs: seq<Segment>, raw: Segment, anchor: real)
    requires SaysAll(prev, segs)
    ensures SaysAll(Fold(prev, Pushed(raw, anchor)), segs + [raw])
  {
    var f := Fold(prev, Pushed(raw, anchor));
    forall side ensures Words(Caption(f, side)) == Words(Caption(prev, side)) + Words(Caption(raw, side)) {
      GlueWords(Caption(prev, side), Caption(raw, side));
    }
    SaysMore(prev, segs, raw, f);
  }

  lemma LinkFolded(out: seq<Segment>, segs: seq<Segment>, keep: seq<nat>, n: nat, maxDur: real, f: Segment)
    requires Links(out, segs, keep, n, maxDur) && n < |segs| && out != [] && segs[n].end <= Last(out).end
    requires LinkAt(out, segs, keep, n, maxDur, |out| - 1)
    requires f.start == Last(out).start && f.end == Last(out).end
    requires SaysAll(f, segs[keep[|keep| - 1]..n] + [segs[n]])
    ensures Links(Front(out) + [f], segs, keep, n + 1, maxDur)
  {
    var more, last, n' := Front(out) + [f], |out| - 1, n + 1;
    assert segs[keep[last]..n'] == segs[keep[last]..n] + [segs[n]];
    forall k: nat | k < |more| ensures LinkAt(more, segs, keep, n', maxDur, k) {
      assert EndBefore(more, k) == EndBefore(out, k);
      assert LinkAt(out, segs, keep, n, maxDur, k);
    }
  }

  /** One turn of the second loop, on the next segment. */
  lemma TurnLinks(out: seq<Segment>, segs: seq<Segment>, keep: seq<nat>, n: nat, maxDur: real, pad: real)
    returns (keep': seq<nat>)
    requires Links(out, segs, keep, n, maxDur) && n < |segs| && 0.0 <= segs[n].start < segs[n].end
    ensures var next := ChainTurn(out, EndBefore(out, |out|), segs[n], maxDur, pad);
      Links(next.0, segs, keep', n + 1, maxDur) && next.1 == EndBefore(next.0, |next.0|)
  {
    var anchor, raw := EndBefore(out, |out|), segs[n];
    if raw.end > anchor {
      FittedTurn(raw, anchor, maxDur);
      LinkKept(out, segs, keep, n, maxDur, Clamped(Pushed(raw, anchor), maxDur));
      keep' := keep + [n];
    } else {
      assert LinkAt(out, segs, keep, n, maxDur, |out| - 1);
      FoldSays(Last(out), segs[keep[|keep| - 1]..n], raw, anchor);
      LinkFolded(out, segs, keep, n, maxDur, Fold(Last(out), Pushed(raw, anchor)));
      keep' := keep;
    }
  }

  lemma {:induction false} ChainFrom(out: seq<Segment>, segs: seq<Segment>, keep: seq<nat>, n: nat, maxDur: real,
        pad: real) returns (keep': seq<nat>)
    requires Links(out, segs, keep, n, maxDur) && forall s | s in segs :: 0.0 <= s.start < s.end
    ensures Links(Chain(out, EndBefore(out, |out|), segs[n..], maxDur, pad), segs, keep', |segs|, maxDur)
    decreases |segs| - n
  {
    if n == |segs| {
      keep' := keep;
    } else {
      var next := ChainTurn(out, EndBefore(out, |out|), segs[n], maxDur, pad);
      keep' := TurnLinks(out, segs, keep, n, maxDur, pad);
      assert segs[n..] == [segs[n]] + segs[n + 1..];
      ChainStep(out, EndBefore(out, |out|), segs[n], segs[n + 1..], maxDur, pad);
      keep' := ChainFrom(next.0, segs, keep', n + 1, maxDur, pad);
    }
  }

  /** The exact times: each caption starts where its segment does, or where the caption before it ended if that
      is later, and ends where its segment does, or `maxDur` after its start if that is earlier; it stands for
      its segment and for those behind it that end no later than it does, and says what they say. */
  lemma NormalizedTimes(segments: seq<Segment>, minDur: real, maxDur: real, pad: real) returns (keep: seq<nat>)
    requires forall s | s in segments :: s.Valid()
    ensures var merged := Merged(segments, minDur);
      Links(Normalized(segments, minDur, maxDur, pad), merged, keep, |merged|, maxDur)
  {
    var merged := Merged(segments, minDur);
    MergedOrdered(segments, minDur);
    assert merged[0..] == merged;
    keep := ChainFrom([], merged, [], 0, maxDur, pad);
  }
}
