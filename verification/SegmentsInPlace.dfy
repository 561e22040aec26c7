/** `normalize_segments` as it runs: on a list of segment objects, some of which it changes in place
    and some of which it replaces by new ones. */
module SegmentsInPlace {
  import opened Schemas
  import opened Sorting
  import opened Segments

  class Cue {
    var start: real
    var end: real
    var source: string
    var target: string

    function Value(): Segment
      reads this
    {
      Segment(start, end, source, target)
    }

    constructor (s: Segment)
      ensures Value() == s
    {
      start, end, source, target := s.start, s.end, s.source, s.target;
    }

    method Retime(start: real, end: real)
      modifies this
      ensures Value() == old(Value()).(start := start, end := end)
    {
      this.start := start;
      this.end := end;
    }

    /** Takes over the texts of a degenerate successor. */
    method Absorb(other: Cue)
      requires other != this
      modifies this
      ensures Value() == Fold(old(Value()), other.Value())
    {
      target := Text.Glue(target, other.target);
      source := Text.Glue(source, other.source);
    }
  }

  function Values(cues: seq<Cue>): (vs: seq<Segment>)
    reads cues
    ensures |vs| == |cues| && forall i | 0 <= i < |cues| :: vs[i] == cues[i].Value()
  {
    seq(|cues|, i requires 0 <= i < |cues| reads cues => cues[i].Value())
  }

  ghost predicate Distinct(cues: seq<Cue>) {
    forall i, j {:trigger cues[i], cues[j]} | 0 <= i < j < |cues| :: cues[i] != cues[j]
  }

  // ----- the second loop -------------------------------------------------------------------------------

  /** One turn of the second loop. */
  method ChainOne(done: seq<Cue>, s: Cue, anchor: real, maxDur: real, pad: real) returns (next: seq<Cue>, after: real)
    requires Distinct(done) && s !in done
    modifies s, done
    ensures (Values(next), after) == old(ChainTurn(Values(done), anchor, s.Value(), maxDur, pad))
    ensures next == done || next == done + [s]
  {
    ghost var was, raw := Values(done), s.Value();
    var start := if s.start < anchor then anchor else s.start;
    if s.end <= start {
      if done != [] {
        s.Retime(start, s.end);
        FoldInto(done, s);
        return done, anchor;
      }
      s.Retime(start, start + pad);
      assert Values([s]) == [Padded(Pushed(raw, anchor), pad)];
      return [s], anchor;
    }
    s.Retime(start, if s.end - start > maxDur then start + maxDur else s.end);
    assert Values(done + [s]) == was + [Clamped(Pushed(raw, anchor), maxDur)];
    return done + [s], s.end;
  }

  /** The last caption takes over the texts of a degenerate one. */
  method FoldInto(done: seq<Cue>, s: Cue)
    requires done != [] && Distinct(done) && s !in done
    modifies done[|done| - 1]
    ensures Values(done) == Front(old(Values(done))) + [Fold(Last(old(Values(done))), s.Value())]
  {
    var prev := done[|done| - 1];
    prev.Absorb(s);
  }

  lemma DistinctParts(done: seq<Cue>, s: Cue, later: seq<Cue>)
    requires Distinct(done + [s] + later)
    ensures Distinct(done) && s !in done
    ensures forall j | 0 <= j < |later| :: later[j] != s && later[j] !in done
    ensures Distinct(done + later)
  {
    var all := done + [s] + later;
    forall j | 0 <= j < |later| ensures later[j] != s && later[j] !in done {
      assert all[|done|] == s && all[|done| + 1 + j] == later[j];
      assert forall i | 0 <= i < |done| :: all[i] == done[i];
    }
    forall i, j | 0 <= i < j < |done| ensures done[i] != done[j] {
      assert all[i] == done[i] && all[j] == done[j];
    }
    assert s !in done by {
      assert all[|done|] == s && forall i | 0 <= i < |done| :: all[i] == done[i];
    }
    forall i, j | 0 <= i < j < |later| ensures later[i] != later[j] {
      assert all[|done| + 1 + i] == later[i] && all[|done| + 1 + j] == later[j];
    }
  }

  /** `chain` is the second loop's meaning: one turn leaves its result unchanged. */
  ghost predicate Chains(chain: (seq<Segment>, real, seq<Segment>) -> seq<Segment>, maxDur: real, pad: real) {
    forall done, anchor, s, rest :: ChainsAt(chain, maxDur, pad, done, anchor, s, rest)
  }

  ghost predicate ChainsAt(chain: (seq<Segment>, real, seq<Segment>) -> seq<Segment>, maxDur: real, pad: real,
      done: seq<Segment>, anchor: real, s: Segment, rest: seq<Segment>) {
    var next := ChainTurn(done, anchor, s, maxDur, pad);
    chain(done, anchor, [s] + rest) == chain(next.0, next.1, rest)
  }

  /** The next caption leaves `todo`; what the chain will come to is unchanged. */
  method ChainNext(done: seq<Cue>, anchor: real, todo: seq<Cue>, maxDur: real, pad: real,
        ghost chain: (seq<Segment>, real, seq<Segment>) -> seq<Segment>)
    returns (next: seq<Cue>, after: real, later: seq<Cue>)
    requires todo != [] && Distinct(done + todo) && Chains(chain, maxDur, pad)
    modifies done, todo
    ensures later == todo[1..] && Distinct(next + later)
    ensures next == done || next == done + [todo[0]]
    ensures chain(Values(next), after, Values(later)) == old(chain(Values(done), anchor, Values(todo)))
  {
    var s := todo[0];
    later := todo[1..];
    assert done + todo == done + [s] + later;
    DistinctParts(done, s, later);
    ghost var rest := Values(later);
    assert Values(todo) == [s.Value()] + rest;
    assert ChainsAt(chain, maxDur, pad, Values(done), anchor, s.Value(), rest);
    next, after := ChainOne(done, s, anchor, maxDur, pad);
    assert Values(later) == rest;
    assert next == done + [s] ==> next + later == done + todo;
  }

  method ChainAll(cues: seq<Cue>, maxDur: real, pad: real,
        ghost chain: (seq<Segment>, real, seq<Segment>) -> seq<Segment>)
    returns (sequential: seq<Cue>, ghost anchor': real)
    requires Distinct(cues) && Chains(chain, maxDur, pad)
    modifies cues
    ensures chain(Values(sequential), anchor', []) == old(chain([], 0.0, Values(cues)))
  {
    sequential := [];
    var anchor := 0.0;
    var todo := cues;
    assert [] + cues == cues && Values([]) == [];
    while todo != []
      invariant Distinct(sequential + todo)
      invariant forall i | 0 <= i < |sequential| :: sequential[i] in cues
      invariant forall i | 0 <= i < |todo| :: todo[i] in cues
      invariant chain(Values(sequential), anchor, Values(todo)) == old(chain([], 0.0, Values(cues)))
      decreases |todo|
    {
      sequential, anchor, todo := ChainNext(sequential, anchor, todo, maxDur, pad, chain);
    }
    anchor' := anchor;
  }

  lemma ChainChains(maxDur: real, pad: real)
    ensures Chains((d, a, r) => Chain(d, a, r, maxDur, pad), maxDur, pad)
  {
    var chain := (d, a, r) => Chain(d, a, r, maxDur, pad);
    forall done, anchor, s, rest ensures ChainsAt(chain, maxDur, pad, done, anchor, s, rest) {
      ChainStep(done, anchor, s, rest, maxDur, pad);
    }
  }

  /** The second loop: moves, clamps and folds the captions in place. */
  method ChainCues(cues: seq<Cue>, maxDur: real, pad: real) returns (sequential: seq<Cue>)
    requires Distinct(cues)
    modifies cues
    ensures Values(sequential) == Chain([], 0.0, old(Values(cues)), maxDur, pad)
  {
    ghost var chain := (d, a, r) => Chain(d, a, r, maxDur, pad);
    ChainChains(maxDur, pad);
    ghost var anchor;
    sequential, anchor := ChainAll(cues, maxDur, pad, chain);
  }

  // ----- the first loop --------------------------------------------------------------------------------

  lemma ValuesFew(c: Cue)
    ensures Values([]) == [] && Values([c]) == [c.Value()]
  {
  }

  lemma ValuesConcat(a: seq<Cue>, b: seq<Cue>)
    ensures Values(a + b) == Values(a) + Values(b)
  {
  }

  lemma DistinctSlices(a: seq<Cue>, gone: seq<Cue>, b: seq<Cue>)
    requires Distinct(a + gone + b)
    ensures Distinct(a) && Distinct(b) && forall i, j | 0 <= i < |a| && 0 <= j < |b| :: a[i] != b[j]
  {
    var all := a + gone + b;
    assert forall i | 0 <= i < |a| :: all[i] == a[i];
    assert forall j | 0 <= j < |b| :: all[|a| + |gone| + j] == b[j];
  }

  /** A new object takes the place of some old ones. */
  lemma DistinctWithNew(a: seq<Cue>, gone: seq<Cue>, b: seq<Cue>, c: Cue)
    requires Distinct(a + gone + b) && c !in a && c !in b
    ensures Distinct(a + [c] + b)
  {
    DistinctSlices(a, gone, b);
  }

  /** A short caption and its successor become one new caption. */
  method FuseNext(done: seq<Cue>, cur: Cue, nxt: Cue, later: seq<Cue>) returns (fused: Cue)
    ensures fresh(fused) && fused.Value() == Fuse(cur.Value(), nxt.Value())
    ensures Values([fused] + later) == [Fuse(cur.Value(), nxt.Value())] + Values(later)
    ensures Distinct(done + [cur, nxt] + later) ==> Distinct(done + [fused] + later)
  {
    fused := new Cue(Fuse(cur.Value(), nxt.Value()));
    assert fused !in done && fused !in later;
    if Distinct(done + [cur, nxt] + later) {
      DistinctWithNew(done, [cur, nxt], later, fused);
    }
  }

  /** What one turn of the first loop does to the values. */
  ghost predicate TurnsInto(done: seq<Segment>, rest: seq<Segment>, next: seq<Segment>, later: seq<Segment>,
      single: bool, minDur: real) {
    rest != [] && (next, later) == MergeTurn(done, rest, single, minDur)
  }

  lemma KeepTurn(done: seq<Segment>, s: Segment, later: seq<Segment>, single: bool, minDur: real)
    requires Dur(s) >= minDur || single
    ensures TurnsInto(done, [s] + later, done + [s], later, single, minDur)
  {
    assert ([s] + later)[1..] == later;
  }

  lemma TurnKeeps(done: seq<Cue>, cur: Cue, later: seq<Cue>, single: bool, minDur: real)
    requires Dur(cur.Value()) >= minDur || single
    ensures TurnsInto(Values(done), Values([cur] + later), Values(done + [cur]), Values(later), single, minDur)
  {
    ValuesConcat(done, [cur]);
    ValuesConcat([cur], later);
    ValuesFew(cur);
    KeepTurn(Values(done), cur.Value(), Values(later), single, minDur);
  }

  /** The short caption fuses with its successor. */
  method FuseForward(done: seq<Cue>, cur: Cue, nxt: Cue, later: seq<Cue>, minDur: real) returns (rest: seq<Cue>)
    requires Distinct(done + [cur, nxt] + later) && Dur(cur.Value()) < minDur
    ensures TurnsInto(Values(done), Values([cur, nxt] + later), Values(done), Values(rest), false, minDur)
    ensures |rest| == |later| + 1 && rest[1..] == later && fresh(rest[0])
    ensures Distinct(done + rest)
  {
    var fused := FuseNext(done, cur, nxt, later);
    ghost var vals := Values([cur, nxt] + later);
    ValuesConcat([cur, nxt], later);
    assert vals[0] == cur.Value() && vals[1] == nxt.Value() && vals[2..] == Values(later);
    rest := [fused] + later;
    assert done + rest == done + [fused] + later;
  }

  /** The short last caption fuses with the one before it. */
  method FuseBack(done: seq<Cue>, cur: Cue, minDur: real) returns (next: seq<Cue>)
    requires done != [] && Distinct(done + [cur]) && Dur(cur.Value()) < minDur
    ensures TurnsInto(Values(done), Values([cur]), Values(next), [], false, minDur)
    ensures |next| == |done| && Front(next) == Front(done) && fresh(Last(next))
    ensures Distinct(next)
  {
    var prev, front := Last(done), Front(done);
    assert done + [cur] == front + [prev, cur] + [];
    var fused := FuseNext(front, prev, cur, []);
    next := front + [fused];
    assert Values(front) == Front(Values(done)) && Last(Values(done)) == prev.Value();
    ValuesConcat(front, [fused]);
    ValuesFew(fused);
    ValuesFew(cur);
    assert front + [fused] + [] == next;
  }

  /** One turn of the first loop; fusing makes a new object and leaves both old ones alone. */
  method MergeOne(done: seq<Cue>, rest: seq<Cue>, single: bool, minDur: real) returns (next: seq<Cue>, later: seq<Cue>)
    requires rest != [] && Distinct(done + rest)
    ensures TurnsInto(Values(done), Values(rest), Values(next), Values(later), single, minDur)
    ensures |later| < |rest| && Distinct(next + later)
    ensures forall c | c in next || c in later :: c in done || c in rest || fresh(c)
  {
    var cur := rest[0];
    ValuesFew(cur);
    if cur.end - cur.start >= minDur || single {
      assert rest == [cur] + rest[1..];
      assert done + rest == done + [cur] + rest[1..];
      TurnKeeps(done, cur, rest[1..], single, minDur);
      next, later := done + [cur], rest[1..];
    } else if |rest| > 1 {
      assert rest == [cur, rest[1]] + rest[2..];
      assert done + rest == done + [cur, rest[1]] + rest[2..];
      next := done;
      later := FuseForward(done, cur, rest[1], rest[2..], minDur);
    } else if done != [] {
      assert rest == [cur];
      next := FuseBack(done, cur, minDur);
      later := [];
      assert next + later == next;
    } else {
      assert rest == [cur];
      next, later := [cur], [];
    }
  }

  /** `meaning` is the first loop's meaning: one turn leaves its result unchanged. */
  ghost predicate Merges(meaning: (seq<Segment>, seq<Segment>) -> seq<Segment>, single: bool, minDur: real) {
    forall done, rest, next, later | TurnsInto(done, rest, next, later, single, minDur) ::
      meaning(done, rest) == meaning(next, later)
  }

  method MergeAll(segs: seq<Cue>, single: bool, minDur: real,
        ghost meaning: (seq<Segment>, seq<Segment>) -> seq<Segment>)
    returns (merged: seq<Cue>)
    requires Distinct(segs) && Merges(meaning, single, minDur)
    ensures meaning(Values(merged), []) == meaning([], Values(segs))
    ensures Distinct(merged)
    ensures forall c | c in merged :: c in segs || fresh(c)
  {
    merged := [];
    var rest := segs;
    assert [] + segs == segs && Values([]) == [];
    while rest != []
      invariant Distinct(merged + rest)
      invariant forall c | c in merged || c in rest :: c in segs || fresh(c)
      invariant meaning(Values(merged), Values(rest)) == meaning([], Values(segs))
      decreases |rest|
    {
      merged, rest := MergeOne(merged, rest, single, minDur);
    }
    assert merged + rest == merged;
  }

  lemma MergeShortMerges(single: bool, minDur: real)
    ensures Merges((d, r) => MergeShort(d, r, single, minDur), single, minDur)
  {
  }

  /** The first loop: merges short captions into a neighbour, changing no object. */
  method MergeCues(segs: seq<Cue>, minDur: real) returns (merged: seq<Cue>)
    requires Distinct(segs)
    ensures Values(merged) == MergeShort([], Values(segs), |segs| == 1, minDur)
    ensures Distinct(merged) && forall c | c in merged :: c in segs || fresh(c)
  {
    var single := |segs| == 1;
    MergeShortMerges(single, minDur);
    merged := MergeAll(segs, single, minDur, (d, r) => MergeShort(d, r, single, minDur));
  }

  // ----- the whole function ----------------------------------------------------------------------------

  /** From the sorted list on: the input's objects are merged, then changed in place. */
  method NormalizeCues(segs: seq<Cue>, minDur: real) returns (sequential: seq<Cue>)
    requires Distinct(segs)
    modifies segs
    ensures Values(sequential) ==
      old(Chain([], 0.0, MergeShort([], Values(segs), |segs| == 1, minDur), MAX_SEGMENT_DURATION, PAD))
  {
    var merged := MergeCues(segs, minDur);
    assert forall i | 0 <= i < |merged| :: merged[i] in segs || fresh(merged[i]);
    sequential := ChainCues(merged, MAX_SEGMENT_DURATION, PAD);
  }

  method NewCues(segs: seq<Segment>) returns (cues: seq<Cue>)
    ensures Values(cues) == segs && Distinct(cues) && forall i | 0 <= i < |cues| :: fresh(cues[i])
  {
    cues := [];
    for i := 0 to |segs|
      invariant Values(cues) == segs[..i] && Distinct(cues)
      invariant forall k | 0 <= k < |cues| :: fresh(cues[k])
    {
      var cue := new Cue(segs[i]);
      ValuesConcat(cues, [cue]);
      ValuesFew(cue);
      cues := cues + [cue];
    }
  }

  /** `normalize_segments`. */
  method NormalizeSegments(segments: seq<Segment>, minDur: real) returns (result: seq<Segment>)
    ensures result == Normalized(segments, minDur, MAX_SEGMENT_DURATION, PAD)
  {
    var usable := Filter(segments, Usable);
    if usable == [] {
      return [];
    }
    var cues := NewCues(Sort(usable, ByStart));
    var sequential := NormalizeCues(cues, minDur);
    result := Values(sequential);
  }
}
