/** What the segments of a finished transcript say, and for how long. */
module TranscriptTexts {
  import opened Schemas
  import opened Text
  import opened Rounding
  import opened Sorting
  import Packing
  import opened Asr
  import opened Transcript

  /** The sentence marks after which an over-long segment may be cut. */
  const SENTENCE_MARKS := ".!?\U{3002}\U{ff01}\U{ff1f}"

  // ----- where a long text is cut ------------------------------------------------------------------------

  /** A sentence mark with whitespace right behind it. */
  predicate BreaksAt(s: string, i: nat) {
    i + 1 < |s| && s[i] in SENTENCE_MARKS && IsSpace(s[i + 1])
  }

  ghost predicate Unbroken(s: string) {
    forall i: nat :: !BreaksAt(s, i)
  }

  predicate EndsInMark(s: string) {
    s != "" && s[|s| - 1] in SENTENCE_MARKS
  }

  lemma MarksAre(c: char)
    ensures EndsSentence(c) <==> c in SENTENCE_MARKS
  {
    assert SENTENCE_MARKS == ['.', '!', '?', '\U{3002}', '\U{ff01}', '\U{ff1f}'];
  }

  lemma UnbrokenSnoc(piece: string, c: char)
    requires Unbroken(piece) && !(EndsInMark(piece) && IsSpace(c))
    ensures Unbroken(piece + [c])
  {
    forall i: nat ensures !BreaksAt(piece + [c], i) {
      assert !BreaksAt(piece, i);
    }
  }

  /** Every piece but the last ends in a sentence mark, every piece but the first starts with no whitespace,
      and inside a piece no mark is followed by whitespace. */
  ghost predicate CutAfterMarks(pieces: seq<string>) {
    && (forall k | 0 <= k < |pieces| :: Unbroken(pieces[k]))
    && (forall k | 0 <= k < |pieces| - 1 :: EndsInMark(pieces[k]))
    && (forall k | 0 < k < |pieces| :: pieces[k] == "" || !IsSpace(pieces[k][0]))
  }

  lemma CutAfterMarksCons(piece: string, later: seq<string>)
    requires Unbroken(piece) && EndsInMark(piece) && CutAfterMarks(later)
    requires later != [] && (later[0] == "" || !IsSpace(later[0][0]))
    ensures CutAfterMarks([piece] + later)
  {
  }

  lemma {:induction false} SplitStartsWith(piece: string, text: string)
    ensures SplitOnPunct(piece, text) != []
    ensures piece != "" ==> SplitOnPunct(piece, text)[0] != "" && SplitOnPunct(piece, text)[0][0] == piece[0]
    ensures piece == "" && SplitOnPunct(piece, text)[0] != "" ==>
      text != "" && SplitOnPunct(piece, text)[0][0] == text[0]
    decreases |text|
  {
    if text != "" && !(EndsSentence(text[0]) && |text| > 1 && IsSpace(text[1])) {
      SplitStartsWith(piece + [text[0]], text[1..]);
    }
  }

  lemma {:induction false} SplitCutsAfterMarks(piece: string, text: string)
    requires Unbroken(piece) && (text != "" ==> !(EndsInMark(piece) && IsSpace(text[0])))
    ensures CutAfterMarks(SplitOnPunct(piece, text))
    decreases |text|
  {
    if text != "" {
      MarksAre(text[0]);
      UnbrokenSnoc(piece, text[0]);
      if EndsSentence(text[0]) && |text| > 1 && IsSpace(text[1]) {
        StripLeftShorter(text[1..]);
        var rest := StripLeft(text[1..]);
        StripLeftHead(text[1..]);
        SplitCutsAfterMarks("", rest);
        SplitStartsWith("", rest);
        CutAfterMarksCons(piece + [text[0]], SplitOnPunct("", rest));
      } else {
        SplitCutsAfterMarks(piece + [text[0]], text[1..]);
      }
    }
  }

  /** A text is cut after every sentence mark that whitespace follows, and nowhere else. */
  lemma CutAtEverySentence(text: string)
    ensures CutAfterMarks(SplitOnPunct("", text))
    ensures WordsAll(SplitOnPunct("", text)) == Words(text)
  {
    SplitCutsAfterMarks("", text);
    SplitOnPunctKeepsWords("", text);
    assert "" + text == text;
  }

  /** A segment is cut if and only if it lasts longer than `maxSegment` and has several pieces; then there is
      one part per piece, and otherwise the segment is its only part. */
  lemma CutIffLong(text: string, start: real, end: real, t: Tuning)
    ensures var parts := SplitParts(text, start, end, t);
      && (|parts| > 1 <==> end - start > t.maxSegment && |Pieces(text)| > 1)
      && (|parts| > 1 ==> PartTexts(parts) == Pieces(text))
      && (|parts| <= 1 ==> parts == [Part(text, start, end)])
  {
    if IsCut(text, start, end, t) {
      PiecesCounted(text);
      var share := Sharing(end - start, Chars(Pieces(text)));
      TileTexts(Pieces(text), start, end, share);
      TileCounts(Pieces(text), start, end, share);
    }
  }

  lemma {:induction false} TileCounts(pieces: seq<string>, cursor: real, end: real, share: string -> real)
    ensures |Tile(pieces, cursor, end, share)| == |pieces|
  {
    if |pieces| > 1 {
      TileCounts(pieces[1..], cursor + share(pieces[0]), end, share);
    }
  }

  // ----- what a merged block says ------------------------------------------------------------------------

  /** Block by block: from the start of the first fragment to the latest end, with exactly the words of the
      fragments, stripped, and nothing translated yet. */
  lemma FusedBlock(block: seq<Segment>)
    requires block != [] && Spoken(block[0])
    ensures var s := Fused(block);
      && s.start == block[0].start
      && (forall f | f in block :: f.end <= s.end) && (exists f :: f in block && f.end == s.end)
      && s.target == "" && Words(s.source) == WordsAll(Texts(block)) && Strip(s.source) == s.source
  {
    MaxEndBounds(block);
    FusedSpoken(block);
    StripFacts(Join(Texts(block)));
  }

  /** The pause before `f`, after all of the block, is no longer than the limit, and the block with `f` spans no
      more than the limit. */
  ghost predicate Joins(block: seq<Segment>, f: Segment, t: Tuning)
    requires block != []
  {
    (exists b :: b in block && f.start - b.end <= t.mergeGap) && f.end - block[0].start <= t.maxMerge
  }

  lemma JoinsIff(block: seq<Segment>, f: Segment, t: Tuning)
    requires block != []
    ensures Joins(block, f, t) <==> f.start - MaxEnd(block) <= t.mergeGap && f.end - block[0].start <= t.maxMerge
  {
    MaxEndBounds(block);
  }

  lemma FitsAt(block: seq<Segment>, t: Tuning, k: nat)
    requires Fits(block, t) && 0 < k < |block|
    ensures Joins(block[..k], block[k], t)
  {
    JoinsIff(block[..k], block[k], t);
  }

  lemma ClosedAt(block: seq<Segment>, f: Segment, t: Tuning)
    requires block != [] && Fits(block, t) && !Fits(block + [f], t)
    ensures !Joins(block, f, t)
  {
    FitsSnoc(block, f, t);
    JoinsIff(block, f, t);
  }

  ghost predicate AllJoin(block: seq<Segment>, t: Tuning) {
    block != [] && forall k | 0 < k < |block| :: Joins(block[..k], block[k], t)
  }

  ghost predicate Parted(blocks: seq<seq<Segment>>, t: Tuning, j: nat)
    requires 0 < j < |blocks|
  {
    blocks[j - 1] != [] && blocks[j] != [] && !Joins(blocks[j - 1], blocks[j][0], t)
  }

  lemma PackedJoins(blocks: seq<seq<Segment>>, t: Tuning, ok: seq<Segment> -> bool, j: nat)
    requires (forall b :: ok(b) <==> Fits(b, t)) && (forall b | b in blocks :: b != [] && ok(b))
    requires 0 < j < |blocks| && Packing.GreedyAt(blocks, ok, j)
    ensures Parted(blocks, t, j)
  {
    var before := blocks[j - 1];
    assert before in blocks;
    ClosedAt(before, blocks[j][0], t);
  }

  /** Whatever the times: a fragment joins the block before it exactly if the pause and the span allow it. */
  lemma MergeJoinsIff(raw: seq<Segment>, t: Tuning)
    ensures var blocks := MergeBlocks(raw, t);
      && Packing.Flatten(blocks) == raw
      && (forall b | b in blocks :: AllJoin(b, t))
      && (forall j: nat | 0 < j < |blocks| :: Parted(blocks, t, j))
  {
    var ok, blocks := Fitting(t), MergeBlocks(raw, t);
    Packing.PackPacks(raw, ok);
    Packing.PackIsGreedy(raw, ok);
    forall b | b in blocks ensures AllJoin(b, t) {
      forall k | 0 < k < |b| ensures Joins(b[..k], b[k], t) {
        FitsAt(b, t, k);
      }
    }
    forall j: nat | 0 < j < |blocks| ensures Parted(blocks, t, j) {
      PackedJoins(blocks, t, ok, j);
    }
  }

  // ----- which parts are kept ----------------------------------------------------------------------------

  predicate LongEnough(p: Part, t: Tuning) {
    p.end - p.start >= t.minSegment
  }

  /** `s` is the part as it goes into the transcript. */
  ghost predicate Transcribes(s: Segment, p: Part) {
    && s.source == p.text && s.target == ""
    && s.start == Round3(p.start) && s.end == Round3(p.end)
  }

  function Lasting(t: Tuning): Part -> bool {
    p => LongEnough(p, t)
  }

  lemma {:induction false} KeepIsFilter(parts: seq<Part>, t: Tuning)
    ensures |Keep(parts, t)| == |Filter(parts, Lasting(t))|
    ensures forall k | 0 <= k < |Keep(parts, t)| :: Transcribes(Keep(parts, t)[k], Filter(parts, Lasting(t))[k])
  {
    if parts != [] {
      KeepIsFilter(parts[1..], t);
    }
  }

  /** `keep` are the positions of the parts that last long enough, in order, and `segments` those parts. */
  ghost predicate KeepsLong(segments: seq<Segment>, parts: seq<Part>, t: Tuning, keep: seq<nat>) {
    && |segments| == |keep|
    && (forall a, b | 0 <= a < b < |keep| :: keep[a] < keep[b])
    && (forall i: nat :: i in keep <==> i < |parts| && LongEnough(parts[i], t))
    && (forall k | 0 <= k < |keep| :: keep[k] < |parts| && Transcribes(segments[k], parts[keep[k]]))
  }

  lemma KeepIsLong(parts: seq<Part>, t: Tuning) returns (keep: seq<nat>)
    ensures KeepsLong(Keep(parts, t), parts, t, keep)
  {
    keep := FilterPicks(parts, Lasting(t), 0);
    assert parts[0..] == parts;
    KeepIsFilter(parts, t);
    forall i: nat ensures i in keep <==> i < |parts| && LongEnough(parts[i], t) {
      assert i < |parts| ==> (Lasting(t)(parts[i]) <==> LongEnough(parts[i], t));
    }
  }

  // ----- the words of a transcript -----------------------------------------------------------------------

  lemma {:induction false} TileTexts(pieces: seq<string>, cursor: real, end: real, share: string -> real)
    ensures PartTexts(Tile(pieces, cursor, end, share)) == pieces
  {
    if |pieces| == 1 {
      PartTextsAre(Tile(pieces, cursor, end, share), pieces);
    } else if |pieces| > 1 {
      var next := cursor + share(pieces[0]);
      TileTexts(pieces[1..], next, end, share);
      assert Tile(pieces, cursor, end, share)[1..] == Tile(pieces[1..], next, end, share);
    }
  }

  lemma SplitKeepsWords(text: string, start: real, end: real, t: Tuning)
    ensures WordsAll(PartTexts(SplitParts(text, start, end, t))) == Words(text)
  {
    if IsCut(text, start, end, t) {
      PiecesKeepWords(text);
      PiecesCounted(text);
      TileTexts(Pieces(text), start, end, Sharing(end - start, Chars(Pieces(text))));
    } else {
      PartTextsAre([Part(text, start, end)], [text]);
      WordsAllCons(text, []);
    }
  }

  lemma {:induction false} PartTextsConcat(a: seq<Part>, b: seq<Part>)
    ensures PartTexts(a + b) == PartTexts(a) + PartTexts(b)
  {
    if a == [] {
      assert a + b == b;
    } else {
      assert (a + b)[1..] == a[1..] + b;
      PartTextsConcat(a[1..], b);
    }
  }

  lemma {:induction false} SplitAllKeepsWords(merged: seq<Segment>, t: Tuning)
    ensures WordsAll(PartTexts(SplitAll(merged, t))) == WordsAll(Texts(merged))
  {
    if merged != [] {
      var parts, rest := SplitParts(merged[0].source, merged[0].start, merged[0].end, t), SplitAll(merged[1..], t);
      SplitAllKeepsWords(merged[1..], t);
      SplitKeepsWords(merged[0].source, merged[0].start, merged[0].end, t);
      PartTextsConcat(parts, rest);
      WordsAllConcat(PartTexts(parts), PartTexts(rest));
      WordsAllCons(merged[0].source, Texts(merged[1..]));
    }
  }

  /** When no part is too short, the kept segments say what the parts say. */
  lemma {:induction false} AllKept(parts: seq<Part>, t: Tuning)
    requires forall p | p in parts :: LongEnough(p, t)
    ensures Texts(Keep(parts, t)) == PartTexts(parts)
  {
    if parts != [] {
      assert parts[0] in parts;
      AllKept(parts[1..], t);
      assert Keep(parts, t)[1..] == Keep(parts[1..], t);
    }
  }

  /** The whole chain: merging and splitting yield parts that carry exactly the words of the recording, in
      order; the transcript is exactly the parts that last at least `minSegment`, in order, each with its
      text as source, no target, and its times rounded to the millisecond; and when no part is shorter, the
      transcript carries exactly the words of the recording. */
  lemma TranscriptSays(raw: seq<Segment>, t: Tuning) returns (parts: seq<Part>, keep: seq<nat>)
    requires forall s | s in raw :: Spoken(s)
    ensures parts == SplitAll(FuseAll(MergeBlocks(raw, t)), t)
    ensures WordsAll(PartTexts(parts)) == WordsAll(Texts(raw))
    ensures KeepsLong(Transcribed(raw, t), parts, t, keep)
    ensures (forall p | p in parts :: LongEnough(p, t)) ==>
      WordsAll(Texts(Transcribed(raw, t))) == WordsAll(Texts(raw))
  {
    var blocks := MergeBlocks(raw, t);
    Packing.PackPacks(raw, Fitting(t));
    MergeKeepsWords(blocks);
    parts := SplitAll(FuseAll(blocks), t);
    SplitAllKeepsWords(FuseAll(blocks), t);
    keep := KeepIsLong(parts, t);
    if forall p | p in parts :: LongEnough(p, t) {
      AllKept(parts, t);
    }
  }
}
