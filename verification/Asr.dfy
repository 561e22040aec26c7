/** From Whisper fragments to dubbing segments: merge neighbours, split what is still too
    long on punctuation, drop blips, round to milliseconds. */
module Asr {
  import opened Schemas
  import opened Text
  import opened Packing
  import opened Reals
  import Sorting

  /** The environment's thresholds, in seconds. */
  datatype Tuning = Tuning(minSegment: real, maxSegment: real, maxMerge: real, mergeGap: real)

  datatype Part = Part(text: string, start: real, end: real)

  // ----- merging fragments -----------------------------------------------------------------

  /** The running `cur_end` of a block. */
  function MaxEnd(block: seq<Segment>): real
    requires block != []
  {
    if |block| == 1 then block[0].end
    else Max(MaxEnd(block[..|block| - 1]), block[|block| - 1].end)
  }

  /** Every fragment of the block passes the merge test against those before it. */
  predicate Fits(block: seq<Segment>, t: Tuning) {
    forall k | 0 < k < |block| ::
      && block[k].start - MaxEnd(block[..k]) <= t.mergeGap
      && block[k].end - block[0].start <= t.maxMerge
  }

  function Fitting(t: Tuning): seq<Segment> -> bool {
    b => Fits(b, t)
  }

  function Texts(block: seq<Segment>): seq<string> {
    if block == [] then [] else [block[0].source] + Texts(block[1..])
  }

  lemma {:induction false} TextsConcat(a: seq<Segment>, b: seq<Segment>)
    ensures Texts(a + b) == Texts(a) + Texts(b)
  {
    if a == [] {
      assert a + b == b;
    } else {
      assert (a + b)[1..] == a[1..] + b;
      TextsConcat(a[1..], b);
    }
  }

  /** The segment a block is merged into. */
  function Fused(block: seq<Segment>): Segment
    requires block != []
  {
    Segment(block[0].start, MaxEnd(block), Strip(Join(Texts(block))), "")
  }

  function FuseAll(blocks: seq<seq<Segment>>): seq<Segment> {
    if blocks == [] then []
    else if blocks[0] == [] then FuseAll(blocks[1..])
    else [Fused(blocks[0])] + FuseAll(blocks[1..])
  }

  function MergeBlocks(frags: seq<Segment>, t: Tuning): seq<seq<Segment>> {
    Pack(frags, Fitting(t))
  }

  predicate Spoken(s: Segment) {
    Strip(s.source) != ""
  }

  lemma {:induction false} FitsSnoc(block: seq<Segment>, s: Segment, t: Tuning)
    requires block != [] && Fits(block, t)
    ensures Fits(block + [s], t) <==>
      s.start - MaxEnd(block) <= t.mergeGap && s.end - block[0].start <= t.maxMerge
  {
    var b := block + [s];
    assert b[..|block|] == block;
    assert forall k | 0 < k < |block| :: b[..k] == block[..k];
    assert forall k | 0 < k < |block| :: b[k] == block[k];
    if Fits(b, t) {
      assert b[|block|] == s;
    }
  }

  lemma {:induction false} FusedSpoken(block: seq<Segment>)
    requires block != [] && Spoken(block[0])
    ensures Spoken(Fused(block))
    ensures Words(Fused(block).source) == WordsAll(Texts(block))
  {
    var j := Join(Texts(block));
    StripKeeps(j);
    WordsOfJoin(Texts(block));
    BlankIffNoWords(block[0].source);
    BlankIffNoWords(Strip(j));
    assert Texts(block)[0] == block[0].source;
  }

  /** What the merge loop will still produce, on top of `merged`, from `cur` and the rest. */
  function Merging(merged: seq<Segment>, cur: seq<Segment>, rest: seq<Segment>, t: Tuning): seq<Segment> {
    merged + FuseAll(NextFit(cur, rest, Fitting(t)))
  }

  /** One turn of the merge loop: the block either takes the next fragment or is closed. */
  lemma MergeStep(merged: seq<Segment>, cur: seq<Segment>, seg: Segment, rest: seq<Segment>, t: Tuning)
    requires cur != []
    ensures Fits(cur + [seg], t) ==>
      Merging(merged, cur, [seg] + rest, t) == Merging(merged, cur + [seg], rest, t)
    ensures !Fits(cur + [seg], t) ==>
      Merging(merged, cur, [seg] + rest, t) == Merging(merged + [Fused(cur)], [seg], rest, t)
  {
    assert ([seg] + rest)[1..] == rest;
    var whole := NextFit(cur, [seg] + rest, Fitting(t));
    if Fitting(t)(cur + [seg]) {
      assert whole == NextFit(cur + [seg], rest, Fitting(t));
    } else {
      var later := NextFit([seg], rest, Fitting(t));
      assert whole == [cur] + later && whole[1..] == later;
      Assoc(merged, [Fused(cur)], FuseAll(later));
    }
  }

  lemma BlockSnoc(cur: seq<Segment>, seg: Segment)
    requires cur != []
    ensures MaxEnd(cur + [seg]) == Max(MaxEnd(cur), seg.end)
    ensures Texts(cur + [seg]) == Texts(cur) + [seg.source]
  {
    assert (cur + [seg])[..|cur|] == cur;
    TextsConcat(cur, [seg]);
  }

  lemma MergeLast(merged: seq<Segment>, cur: seq<Segment>, t: Tuning)
    requires cur != []
    ensures Merging(merged, cur, [], t) == merged + [Fused(cur)]
  {
    assert FuseAll([cur]) == [Fused(cur)] + FuseAll([]);
  }

  /** The merge loop; `cur` is the block it is building. */
  method MergeFragments(first: Segment, rest: seq<Segment>, t: Tuning) returns (merged: seq<Segment>)
    ensures merged == Merging([], [first], rest, t)
  {
    merged := [];
    var curStart, curEnd := first.start, first.end;
    var buf := [first.source];
    ghost var cur := [first];
    var todo := rest;
    while todo != []
      invariant cur != [] && Fits(cur, t)
      invariant curStart == cur[0].start && curEnd == MaxEnd(cur) && buf == Texts(cur)
      invariant Merging(merged, cur, todo, t) == Merging([], [first], rest, t)
      decreases |todo|
    {
      var seg, later := todo[0], todo[1..];
      assert todo == [seg] + later;
      MergeStep(merged, cur, seg, later, t);
      FitsSnoc(cur, seg, t);
      BlockSnoc(cur, seg);
      var gap := seg.start - curEnd;
      if gap > t.mergeGap || seg.end - curStart > t.maxMerge {
        merged := merged + [Segment(curStart, curEnd, Strip(Join(buf)), "")];
        curStart, curEnd := seg.start, seg.end;
        buf := [seg.source];
        cur := [seg];
      } else {
        curEnd := Max(curEnd, seg.end);
        buf := buf + [seg.source];
        cur := cur + [seg];
      }
      todo := later;
    }
    MergeLast(merged, cur, t);
    merged := merged + [Segment(curStart, curEnd, Strip(Join(buf)), "")];
  }

  lemma MergingFromFirst(frags: seq<Segment>, t: Tuning)
    requires frags != []
    ensures Merging([], [frags[0]], frags[1..], t) == FuseAll(MergeBlocks(frags, t))
  {
    assert frags[..1] == [frags[0]];
  }

  /** Merges adjacent fragments; each output is one block of the next-fit packing. */
  method MergeSegments(frags: seq<Segment>, t: Tuning) returns (kept: seq<Segment>)
    requires forall s | s in frags :: Spoken(s)
    ensures kept == FuseAll(MergeBlocks(frags, t))
  {
    if frags == [] {
      return [];
    }
    var merged := MergeFragments(frags[0], frags[1..], t);
    MergingFromFirst(frags, t);
    MergedSpoken(frags, t);
    FilterAll(merged);
    kept := Sorting.Filter(merged, Spoken);
  }

  lemma {:induction false} FilterAll(segs: seq<Segment>)
    requires forall s | s in segs :: Spoken(s)
    ensures Sorting.Filter(segs, Spoken) == segs
  {
    if segs != [] {
      FilterAll(segs[1..]);
    }
  }

  lemma {:induction false} FuseAllSpoken(blocks: seq<seq<Segment>>)
    requires forall s | s in Flatten(blocks) :: Spoken(s)
    ensures forall s | s in FuseAll(blocks) :: Spoken(s)
  {
    if blocks != [] {
      FuseAllSpoken(blocks[1..]);
      if blocks[0] != [] {
        assert blocks[0][0] in Flatten(blocks);
        FusedSpoken(blocks[0]);
      }
    }
  }

  lemma MergedSpoken(frags: seq<Segment>, t: Tuning)
    requires forall s | s in frags :: Spoken(s)
    ensures forall s | s in FuseAll(MergeBlocks(frags, t)) :: Spoken(s)
  {
    PackPacks(frags, Fitting(t));
    FuseAllSpoken(MergeBlocks(frags, t));
  }

  /** Starts and ends never go back. */
  ghost predicate Advancing(frags: seq<Segment>) {
    forall i, j | 0 <= i <= j < |frags| ::
      frags[i].start <= frags[j].start && frags[i].end <= frags[j].end
  }

  /** The documented limits on a merged group: short pauses, bounded span. */
  ghost predicate WithinLimits(block: seq<Segment>, t: Tuning) {
    forall k | 0 < k < |block| ::
      && block[k].start - block[k - 1].end <= t.mergeGap
      && block[k].end - block[0].start <= t.maxMerge
  }

  lemma {:induction false} MaxEndIsLast(block: seq<Segment>)
    requires block != [] && Advancing(block)
    ensures MaxEnd(block) == block[|block| - 1].end
  {
    if |block| > 1 {
      MaxEndIsLast(block[..|block| - 1]);
    }
  }

  lemma FitsIsWithinLimits(block: seq<Segment>, t: Tuning)
    requires Advancing(block)
    ensures Fits(block, t) <==> WithinLimits(block, t)
  {
    forall k | 0 < k < |block| ensures MaxEnd(block[..k]) == block[k - 1].end {
      MaxEndIsLast(block[..k]);
    }
  }

  lemma AdvancingInherited(frags: seq<Segment>, p: nat, q: nat)
    requires Advancing(frags) && p <= q <= |frags|
    ensures Advancing(frags[p..q])
  {
  }

  lemma FitsInherited(block: seq<Segment>, p: nat, q: nat, t: Tuning)
    requires Advancing(block) && p < q <= |block| && Fits(block, t)
    ensures Fits(block[p..q], t)
  {
    FitsIsWithinLimits(block, t);
    LimitsInherited(block, p, q, t);
    AdvancingInherited(block, p, q);
    FitsIsWithinLimits(block[p..q], t);
  }

  lemma FitsInheritedAt(frags: seq<Segment>, i: nat, p: nat, q: nat, j: nat, t: Tuning)
    requires Advancing(frags) && i <= p < q <= j <= |frags| && Fitting(t)(frags[i..j])
    ensures Fitting(t)(frags[p..q])
  {
    AdvancingInherited(frags, i, j);
    SliceOfSlice(frags, i, p, q, j);
    FittingInherited(frags[i..j], p - i, q - i, t, frags[p..q]);
  }

  lemma FittingInherited(block: seq<Segment>, p: nat, q: nat, t: Tuning, inner: seq<Segment>)
    requires Advancing(block) && p < q <= |block| && Fitting(t)(block) && inner == block[p..q]
    ensures Fitting(t)(inner)
  {
    FitsInherited(block, p, q, t);
  }

  lemma FittingIsHereditary(frags: seq<Segment>, t: Tuning)
    requires Advancing(frags)
    ensures Hereditary(frags, Fitting(t))
  {
    forall i, p, q, j | 0 <= i <= p < q <= j <= |frags| && Fitting(t)(frags[i..j])
      ensures Fitting(t)(frags[p..q])
    {
      FitsInheritedAt(frags, i, p, q, j, t);
    }
  }

  lemma LimitsInherited(block: seq<Segment>, p: nat, q: nat, t: Tuning)
    requires Advancing(block) && WithinLimits(block, t)
    requires p < q <= |block|
    ensures WithinLimits(block[p..q], t)
  {
    var inner := block[p..q];
    forall k | 0 < k < |inner|
      ensures inner[k].start - inner[k - 1].end <= t.mergeGap
      ensures inner[k].end - inner[0].start <= t.maxMerge
    {
      assert inner[k] == block[p + k] && inner[k - 1] == block[p + k - 1];
      assert block[0].start <= block[p].start;
    }
  }

  /** Every merged group obeys the limits, the groups partition the fragments in order, and no
      partition into consecutive groups obeying the same limits is smaller. */
  lemma MergeIsMinimal(frags: seq<Segment>, t: Tuning, other: seq<seq<Segment>>)
    requires Advancing(frags)
    requires Flatten(other) == frags
    requires forall b | b in other :: b != [] && WithinLimits(b, t)
    ensures Flatten(MergeBlocks(frags, t)) == frags
    ensures forall b | b in MergeBlocks(frags, t) :: b != [] && WithinLimits(b, t)
    ensures |FuseAll(MergeBlocks(frags, t))| == |MergeBlocks(frags, t)| <= |other|
  {
    FittingIsHereditary(frags, t);
    BlocksFit(other, t);
    PackPacks(frags, Fitting(t));
    PackIsMinimal(frags, Fitting(t), other);
    BlocksFit(MergeBlocks(frags, t), t);
    FuseAllCounts(MergeBlocks(frags, t));
  }

  lemma {:induction false} BlocksFit(blocks: seq<seq<Segment>>, t: Tuning)
    requires Advancing(Flatten(blocks))
    ensures forall b | b in blocks :: Fits(b, t) <==> WithinLimits(b, t)
  {
    if blocks != [] {
      var all := Flatten(blocks);
      assert blocks[0] == all[..|blocks[0]|] && Flatten(blocks[1..]) == all[|blocks[0]|..];
      BlocksFit(blocks[1..], t);
      FitsIsWithinLimits(blocks[0], t);
    }
  }

  lemma {:induction false} FuseAllCounts(blocks: seq<seq<Segment>>)
    requires forall b | b in blocks :: b != []
    ensures |FuseAll(blocks)| == |blocks|
  {
    if blocks != [] {
      assert forall b | b in blocks[1..] :: b in blocks;
      assert blocks[0] in blocks;
      FuseAllCounts(blocks[1..]);
    }
  }

  /** Merging keeps every word, in order. */
  lemma {:induction false} MergeKeepsWords(blocks: seq<seq<Segment>>)
    requires forall s | s in Flatten(blocks) :: Spoken(s)
    ensures WordsAll(Texts(FuseAll(blocks))) == WordsAll(Texts(Flatten(blocks)))
  {
    if blocks != [] {
      var head, tail := blocks[0], Flatten(blocks[1..]);
      MergeKeepsWords(blocks[1..]);
      TextsConcat(head, tail);
      WordsAllConcat(Texts(head), Texts(tail));
      if head != [] {
        assert head[0] in Flatten(blocks);
        FusedSpoken(head);
      } else {
        assert Texts(head) == [];
      }
    }
  }

  lemma {:induction false} MaxEndBounds(block: seq<Segment>)
    requires block != []
    ensures forall s | s in block :: s.end <= MaxEnd(block)
    ensures exists s :: s in block && s.end == MaxEnd(block)
  {
    if |block| > 1 {
      MaxEndBounds(block[..|block| - 1]);
      assert block == block[..|block| - 1] + [block[|block| - 1]];
    } else {
      assert block[0] in block;
    }
  }

  /** A fused segment spans its block. */
  lemma FusedSpan(head: seq<Segment>, tail: seq<Segment>)
    requires head != [] && Chronological(head + tail)
    ensures Fused(head).start <= Fused(head).end
    ensures forall s | s in tail :: Fused(head).end <= s.start
  {
    var all := head + tail;
    MaxEndBounds(head);
    assert head[0] in head && all[0] == head[0];
    var e :| e in head && e.end == MaxEnd(head);
    var i :| 0 <= i < |head| && head[i] == e;
    assert all[i] == e;
    forall s | s in tail ensures e.end <= s.start {
      var j :| 0 <= j < |tail| && tail[j] == s;
      assert all[|head| + j] == s;
    }
  }

  /** Merging keeps a chronological transcript chronological, and nothing starts earlier. */
  lemma {:induction false} MergeKeepsOrder(blocks: seq<seq<Segment>>, lo: real)
    requires Chronological(Flatten(blocks))
    requires forall f | f in Flatten(blocks) :: lo <= f.start
    ensures Chronological(FuseAll(blocks))
    ensures forall s | s in FuseAll(blocks) :: lo <= s.start
  {
    if blocks != [] {
      var all, head := Flatten(blocks), blocks[0];
      var tail, rest := Flatten(blocks[1..]), FuseAll(blocks[1..]);
      assert all == head + tail;
      ChronologicalTail(head, tail);
      if head == [] {
        MergeKeepsOrder(blocks[1..], lo);
      } else {
        FusedSpan(head, tail);
        MergeKeepsOrder(blocks[1..], Fused(head).end);
        assert head[0] in all;
        ChronologicalCons(Fused(head), rest);
      }
    }
  }

  lemma ChronologicalTail(head: seq<Segment>, tail: seq<Segment>)
    requires Chronological(head + tail)
    ensures Chronological(tail)
  {
    var all := head + tail;
    assert forall i | 0 <= i < |tail| :: tail[i] == all[|head| + i];
  }

  lemma ChronologicalCons(s: Segment, rest: seq<Segment>)
    requires s.start <= s.end && Chronological(rest)
    requires forall r | r in rest :: s.end <= r.start
    ensures Chronological([s] + rest)
    ensures forall r | r in [s] + rest :: s.start <= r.start
  {
  }
}
