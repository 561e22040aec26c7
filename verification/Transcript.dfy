/** The second half of Whisper post-processing: splitting long segments on punctuation, then
    the whole merge / split / drop / round chain. */
module Transcript {
  import opened Schemas
  import opened Text
  import opened Rounding
  import Packing
  import opened Asr

  predicate EndsSentence(c: char) {
    c in ".!?" || c == '\U{3002}' || c == '\U{ff01}' || c == '\U{ff1f}'
  }

  /** `re.split` on whitespace that follows a sentence mark; `piece` is the text already read. */
  function SplitOnPunct(piece: string, text: string): seq<string>
    decreases |text|
  {
    if text == "" then [piece]
    else if EndsSentence(text[0]) && |text| > 1 && IsSpace(text[1]) then
      StripLeftShorter(text[1..]);
      [piece + [text[0]]] + SplitOnPunct("", StripLeft(text[1..]))
    else SplitOnPunct(piece + [text[0]], text[1..])
  }

  function Pieces(text: string): seq<string> {
    Stripped(SplitOnPunct("", text))
  }

  function Chars(pieces: seq<string>): nat {
    if pieces == [] then 0 else |pieces[0]| + Chars(pieces[1..])
  }

  /** The time that a number of characters receives, out of `total`. */
  function Portion(duration: real, total: nat): nat -> real
    requires total > 0
  {
    chars => duration * chars as real / total as real
  }

  /** The share of `duration` that a piece receives: its share of the characters. */
  function Sharing(duration: real, total: nat): string -> real
    requires total > 0
  {
    piece => Portion(duration, total)(|piece|)
  }

  function TotalShare(pieces: seq<string>, share: string -> real): real {
    if pieces == [] then 0.0 else share(pieces[0]) + TotalShare(pieces[1..], share)
  }

  /** Hands the time from `cursor` to `end` to the pieces; the last one takes the remainder. */
  function Tile(pieces: seq<string>, cursor: real, end: real, share: string -> real): seq<Part> {
    if pieces == [] then []
    else if |pieces| == 1 then [Part(pieces[0], cursor, end)]
    else
      var next := cursor + share(pieces[0]);
      [Part(pieces[0], cursor, next)] + Tile(pieces[1..], next, end, share)
  }

  /** The parts come from cutting the text into proportional pieces. */
  predicate IsCut(text: string, start: real, end: real, t: Tuning) {
    end - start > t.maxSegment && |Pieces(text)| > 1
  }

  /** What splitting one segment returns. */
  function SplitParts(text: string, start: real, end: real, t: Tuning): seq<Part> {
    if IsCut(text, start, end, t) then TileAll(Pieces(text), start, end) else [Part(text, start, end)]
  }

  /** Tiles `start..end` with the pieces, each lasting in proportion to its characters. */
  function TileAll(pieces: seq<string>, start: real, end: real): seq<Part> {
    if Chars(pieces) == 0 then [] else Tile(pieces, start, end, Sharing(end - start, Chars(pieces)))
  }

  lemma {:induction false} CharsPositive(pieces: seq<string>)
    requires pieces != [] && forall p | p in pieces :: p != ""
    ensures Chars(pieces) >= |pieces|
  {
    if |pieces| > 1 {
      assert forall p | p in pieces[1..] :: p in pieces;
      CharsPositive(pieces[1..]);
    }
    assert pieces[0] in pieces;
  }

  lemma {:induction false} SplitOnPunctKeepsWords(piece: string, text: string)
    ensures WordsAll(SplitOnPunct(piece, text)) == Words(piece + text)
    decreases |text|
  {
    if text == "" {
      assert piece + text == piece;
      WordsAllCons(piece, []);
    } else if EndsSentence(text[0]) && |text| > 1 && IsSpace(text[1]) {
      var head, tail := piece + [text[0]], text[1..];
      assert piece + text == head + tail;
      WordsAtBreak(head, tail);
      StripLeftShorter(tail);
      SplitOnPunctKeepsWords("", StripLeft(tail));
      assert "" + StripLeft(tail) == StripLeft(tail);
      WordsAllCons(head, SplitOnPunct("", StripLeft(tail)));
    } else {
      SplitOnPunctKeepsWords(piece + [text[0]], text[1..]);
      assert piece + [text[0]] + text[1..] == piece + text;
    }
  }

  /** The pieces carry exactly the words of the text, in order, and none is blank. */
  lemma PiecesKeepWords(text: string)
    ensures WordsAll(Pieces(text)) == Words(text)
    ensures forall p | p in Pieces(text) :: Neat(p)
  {
    StrippedNonEmpty(SplitOnPunct("", text));
    SplitOnPunctKeepsWords("", text);
    assert "" + text == text;
  }

  lemma PiecesCounted(text: string)
    ensures Pieces(text) != [] ==> Chars(Pieces(text)) > 0
  {
    PiecesKeepWords(text);
    if Pieces(text) != [] {
      CharsPositive(Pieces(text));
    }
  }

  /** Splits an over-long segment; the loop refines `SplitParts`. */
  method SplitLongSegment(text: string, start: real, end: real, t: Tuning) returns (parts: seq<Part>)
    ensures parts == SplitParts(text, start, end, t)
  {
    var duration := end - start;
    if duration <= t.maxSegment {
      return [Part(text, start, end)];
    }
    var pieces := Pieces(text);
    PiecesCounted(text);
    if pieces == [] {
      return [Part(text, start, end)];
    }
    parts := TilePieces(pieces, start, end, Sharing(duration, Chars(pieces)));
    if |parts| == 1 {
      return [Part(text, start, end)];
    }
  }

  /** What the proportioning loop still has to append after `parts`. */
  function Tiling(parts: seq<Part>, pieces: seq<string>, cursor: real, end: real, share: string -> real): seq<Part> {
    parts + Tile(pieces, cursor, end, share)
  }

  lemma TilingStep(parts: seq<Part>, piece: string, later: seq<string>, cursor: real, end: real, share: string -> real)
    ensures var next := if later == [] then end else cursor + share(piece);
      Tiling(parts, [piece] + later, cursor, end, share)
        == Tiling(parts + [Part(piece, cursor, next)], later, next, end, share)
  {
    var next := if later == [] then end else cursor + share(piece);
    assert ([piece] + later)[1..] == later;
    Assoc(parts, [Part(piece, cursor, next)], Tile(later, next, end, share));
  }

  /** The proportioning loop. */
  method TilePieces(pieces: seq<string>, start: real, end: real, share: string -> real)
    returns (parts: seq<Part>)
    ensures parts == Tile(pieces, start, end, share) && |parts| == |pieces|
  {
    parts := [];
    var cursor := start;
    ghost var goal := Tiling([], pieces, start, end, share);
    ghost var boundary := start;
    for idx := 0 to |pieces|
      invariant |parts| == idx && (idx < |pieces| ==> boundary == cursor)
      invariant Tiling(parts, pieces[idx..], boundary, end, share) == goal
    {
      var piece := pieces[idx];
      assert pieces[idx..] == [piece] + pieces[idx + 1..];
      TilingStep(parts, piece, pieces[idx + 1..], cursor, end, share);
      if idx == |pieces| - 1 {
        parts := parts + [Part(piece, cursor, end)];
        boundary := end;
      } else {
        var pieceDur := share(piece);
        parts := parts + [Part(piece, cursor, cursor + pieceDur)];
        cursor := cursor + pieceDur;
        boundary := cursor;
      }
    }
    assert pieces[|pieces|..] == [];
    assert goal == Tile(pieces, start, end, share);
  }

  /** `parts` cover the time from `start` to `end` exactly, each starting where the one before
      it ended. */
  ghost predicate Tiles(parts: seq<Part>, start: real, end: real) {
    && parts != []
    && parts[0].start == start
    && if |parts| == 1 then parts[0].end == end else Tiles(parts[1..], parts[0].end, end)
  }

  lemma {:induction false} TileIsExact(pieces: seq<string>, cursor: real, end: real, share: string -> real)
    requires pieces != [] && end - cursor == TotalShare(pieces, share)
    ensures Tiles(Tile(pieces, cursor, end, share), cursor, end)
    ensures Shared(Tile(pieces, cursor, end, share), pieces, share)
  {
    if |pieces| == 1 {
      assert TotalShare(pieces[1..], share) == 0.0;
    } else {
      var next := cursor + share(pieces[0]);
      TileIsExact(pieces[1..], next, end, share);
      assert Tile(pieces, cursor, end, share)[1..] == Tile(pieces[1..], next, end, share);
    }
  }

  /** Part `k` carries piece `k` and lasts exactly its share. */
  ghost predicate Shared(parts: seq<Part>, pieces: seq<string>, share: string -> real) {
    && |parts| == |pieces|
    && forall k | 0 <= k < |parts| ::
         parts[k].text == pieces[k] && parts[k].end - parts[k].start == share(pieces[k])
  }

  ghost predicate Linear(portion: nat -> real) {
    portion(0) == 0.0 && forall a: nat, b: nat :: portion(a + b) == portion(a) + portion(b)
  }

  lemma Distribute(d: real, a: real, b: real, n: real)
    requires n > 0.0
    ensures d * (a + b) / n == d * a / n + d * b / n
  {
    assert d * (a + b) == d * a + d * b;
  }

  lemma PortionIsLinear(duration: real, total: nat)
    requires total > 0
    ensures Linear(Portion(duration, total))
  {
    forall a: nat, b: nat
      ensures Portion(duration, total)(a + b) == Portion(duration, total)(a) + Portion(duration, total)(b)
    {
      Distribute(duration, a as real, b as real, total as real);
    }
  }

  lemma {:induction false} SharesAddUp(pieces: seq<string>, share: string -> real, portion: nat -> real)
    requires Linear(portion) && forall p :: share(p) == portion(|p|)
    ensures TotalShare(pieces, share) == portion(Chars(pieces))
  {
    if pieces != [] {
      SharesAddUp(pieces[1..], share, portion);
      assert portion(|pieces[0]| + Chars(pieces[1..])) == portion(|pieces[0]|) + portion(Chars(pieces[1..]));
    }
  }

  lemma Quotient(x: real, n: real)
    requires n > 0.0 && x >= 0.0
    ensures x / n * n == x && x / n >= 0.0 && (x > 0.0 ==> x / n > 0.0)
  {
  }

  lemma ProductSign(x: real, y: real)
    requires x >= 0.0 && y > 0.0
    ensures x * y >= 0.0 && (x > 0.0 ==> x * y > 0.0)
  {
  }

  lemma ShareFacts(duration: real, piece: string, total: nat)
    requires total > 0 && duration >= 0.0 && piece != ""
    ensures Sharing(duration, total)(piece) * total as real == duration * |piece| as real
    ensures Sharing(duration, total)(piece) >= 0.0
    ensures duration > 0.0 ==> Sharing(duration, total)(piece) > 0.0
  {
    var x, n := duration * |piece| as real, total as real;
    ProductSign(duration, |piece| as real);
    Quotient(x, n);
    var chars := |piece|;
    assert Portion(duration, total)(chars) == x / n;
  }

  /** A part's time is its characters' share of `duration`, by cross-multiplication. */
  predicate Proportional(p: Part, duration: real, total: nat) {
    (p.end - p.start) * total as real == duration * |p.text| as real
  }

  lemma SharedIsProportional(p: Part, duration: real, total: nat)
    requires total > 0 && duration >= 0.0 && p.text != ""
    requires p.end - p.start == Sharing(duration, total)(p.text)
    ensures Proportional(p, duration, total)
    ensures p.start <= p.end && (duration > 0.0 ==> p.start < p.end)
  {
    ShareFacts(duration, p.text, total);
  }

  lemma AllSharedProportional(parts: seq<Part>, pieces: seq<string>, duration: real, total: nat)
    requires total > 0 && duration >= 0.0 && forall p | p in pieces :: p != ""
    requires Shared(parts, pieces, Sharing(duration, total))
    ensures forall k | 0 <= k < |parts| :: Proportional(parts[k], duration, total)
    ensures forall k | 0 <= k < |parts| ::
      parts[k].start <= parts[k].end && (duration > 0.0 ==> parts[k].start < parts[k].end)
  {
    forall k | 0 <= k < |parts|
      ensures Proportional(parts[k], duration, total)
      ensures parts[k].start <= parts[k].end && (duration > 0.0 ==> parts[k].start < parts[k].end)
    {
      assert pieces[k] in pieces;
      SharedIsProportional(parts[k], duration, total);
    }
  }

  lemma SharesFill(pieces: seq<string>, duration: real, total: nat)
    requires total > 0 && total == Chars(pieces)
    ensures TotalShare(pieces, Sharing(duration, total)) == duration
  {
    PortionIsLinear(duration, total);
    SharesAddUp(pieces, Sharing(duration, total), Portion(duration, total));
    PortionWhole(duration, total);
  }

  lemma PortionWhole(duration: real, total: nat)
    requires total > 0
    ensures Portion(duration, total)(total) == duration
  {
    Cancel(duration, total as real);
  }

  lemma Cancel(x: real, n: real)
    requires n > 0.0
    ensures x * n / n == x
  {
  }

  /** Tiling: exact cover, texts in order, times proportional to characters, never negative. */
  lemma TileAllIsExact(pieces: seq<string>, start: real, end: real)
    requires start <= end && pieces != [] && forall p | p in pieces :: p != ""
    ensures var parts := TileAll(pieces, start, end);
      Tiles(parts, start, end) && PartTexts(parts) == pieces
    ensures forall p | p in TileAll(pieces, start, end) ::
      && Proportional(p, end - start, Chars(pieces))
      && p.start <= p.end && (start < end ==> p.start < p.end)
  {
    var d, total := end - start, Chars(pieces);
    CharsPositive(pieces);
    SharesFill(pieces, d, total);
    var share := Sharing(d, total);
    TileIsExact(pieces, start, end, share);
    var parts := Tile(pieces, start, end, share);
    assert parts == TileAll(pieces, start, end);
    AllSharedProportional(parts, pieces, d, total);
    PartTextsAre(parts, pieces);
  }

  /** Splitting tiles the segment exactly and keeps every word.  It leaves the segment whole
      unless it is over-long and has several pieces, and then gives each part time in proportion
      to its characters.  No part has negative length, nor zero length unless the segment had. */
  lemma SplitIsExact(text: string, start: real, end: real, t: Tuning)
    requires start <= end
    ensures var parts := SplitParts(text, start, end, t);
      && Tiles(parts, start, end)
      && WordsAll(PartTexts(parts)) == Words(text)
      && PartTexts(parts) == (if IsCut(text, start, end, t) then Pieces(text) else [text])
    ensures IsCut(text, start, end, t) ==> forall p | p in SplitParts(text, start, end, t) ::
      Proportional(p, end - start, Chars(Pieces(text)))
    ensures forall p | p in SplitParts(text, start, end, t) ::
      p.start <= p.end && (start < end ==> p.start < p.end)
  {
    if IsCut(text, start, end, t) {
      PiecesKeepWords(text);
      TileAllIsExact(Pieces(text), start, end);
    } else {
      PartTextsAre([Part(text, start, end)], [text]);
      WordsAllCons(text, []);
    }
  }

  function PartTexts(parts: seq<Part>): seq<string> {
    if parts == [] then [] else [parts[0].text] + PartTexts(parts[1..])
  }

  lemma {:induction false} PartTextsAre(parts: seq<Part>, pieces: seq<string>)
    requires |parts| == |pieces| && forall k | 0 <= k < |parts| :: parts[k].text == pieces[k]
    ensures PartTexts(parts) == pieces
  {
    if parts != [] {
      PartTextsAre(parts[1..], pieces[1..]);
    }
  }

  // ----- the whole chain --------------------------------------------------------------------

  /** Appends the parts that are long enough, rounded to the millisecond. */
  function Keep(parts: seq<Part>, t: Tuning): seq<Segment> {
    if parts == [] then []
    else if parts[0].end - parts[0].start < t.minSegment then Keep(parts[1..], t)
    else [Segment(Round3(parts[0].start), Round3(parts[0].end), parts[0].text, "")] + Keep(parts[1..], t)
  }

  function SplitAll(merged: seq<Segment>, t: Tuning): seq<Part> {
    if merged == [] then []
    else SplitParts(merged[0].source, merged[0].start, merged[0].end, t) + SplitAll(merged[1..], t)
  }

  /** The transcript that post-processing produces from Whisper's fragments. */
  function Transcribed(raw: seq<Segment>, t: Tuning): seq<Segment> {
    Keep(SplitAll(FuseAll(MergeBlocks(raw, t)), t), t)
  }

  lemma {:induction false} KeepConcat(a: seq<Part>, b: seq<Part>, t: Tuning)
    ensures Keep(a + b, t) == Keep(a, t) + Keep(b, t)
  {
    if a == [] {
      assert a + b == b;
    } else {
      assert (a + b)[1..] == a[1..] + b;
      KeepConcat(a[1..], b, t);
    }
  }

  /** What the split loop will have produced once `todo` is done too. */
  function Splitting(segments: seq<Segment>, todo: seq<Segment>, t: Tuning): seq<Segment> {
    segments + Keep(SplitAll(todo, t), t)
  }

  lemma SplittingStep(segments: seq<Segment>, s: Segment, later: seq<Segment>, t: Tuning)
    ensures Splitting(segments, [s] + later, t)
         == Splitting(segments + Keep(SplitParts(s.source, s.start, s.end, t), t), later, t)
  {
    assert ([s] + later)[1..] == later;
    var parts, rest := SplitParts(s.source, s.start, s.end, t), SplitAll(later, t);
    KeepConcat(parts, rest, t);
    Assoc(segments, Keep(parts, t), Keep(rest, t));
  }

  /** Merge, split, drop, round: the post-processing of one recording. */
  method Transcribe(raw: seq<Segment>, t: Tuning) returns (segments: seq<Segment>)
    requires forall s | s in raw :: Spoken(s)
    ensures segments == Transcribed(raw, t)
  {
    var merged := MergeSegments(raw, t);
    segments := SplitMerged(merged, t);
  }

  lemma SplittingDone(segments: seq<Segment>, merged: seq<Segment>, t: Tuning)
    ensures Splitting(segments, [], t) == segments && Splitting([], merged, t) == Keep(SplitAll(merged, t), t)
  {
  }

  method SplitMerged(merged: seq<Segment>, t: Tuning) returns (segments: seq<Segment>)
    ensures segments == Keep(SplitAll(merged, t), t)
  {
    segments := [];
    var todo := merged;
    while todo != []
      invariant Splitting(segments, todo, t) == Splitting([], merged, t)
      decreases |todo|
    {
      var s, later := todo[0], todo[1..];
      assert todo == [s] + later;
      SplittingStep(segments, s, later, t);
      var parts := SplitLongSegment(s.source, s.start, s.end, t);
      segments := KeepLong(segments, parts, t);
      todo := later;
    }
    SplittingDone(segments, merged, t);
  }

  method KeepLong(before: seq<Segment>, parts: seq<Part>, t: Tuning) returns (segments: seq<Segment>)
    ensures segments == before + Keep(parts, t)
  {
    segments := before;
    for k := 0 to |parts|
      invariant segments + Keep(parts[k..], t) == before + Keep(parts, t)
    {
      var p := parts[k];
      assert parts[k..][1..] == parts[k + 1..];
      var dur := p.end - p.start;
      if dur < t.minSegment {
        continue;
      }
      segments := segments + [Segment(Round3(p.start), Round3(p.end), p.text, "")];
    }
  }

  /** Parts in time order: each starts no earlier than the one before it ended. */
  ghost predicate InOrder(parts: seq<Part>) {
    && (forall i | 0 <= i < |parts| :: parts[i].start <= parts[i].end)
    && (forall i, j | 0 <= i < j < |parts| :: parts[i].end <= parts[j].start)
  }

  lemma PartBefore(first: Part, rest: seq<Part>)
    requires first.start <= first.end && InOrder(rest) && forall p | p in rest :: first.end <= p.start
    ensures InOrder([first] + rest)
  {
    InOrderConcat([first], rest, first.end);
  }

  lemma {:induction false} TilesInOrder(parts: seq<Part>, start: real, end: real)
    requires Tiles(parts, start, end)
    requires forall p | p in parts :: p.start <= p.end
    ensures InOrder(parts)
    ensures forall p | p in parts :: start <= p.start && p.end <= end
  {
    if |parts| > 1 {
      var first, rest := parts[0], parts[1..];
      assert parts == [first] + rest && first in parts;
      TilesInOrder(rest, first.end, end);
      PartBefore(first, rest);
    }
  }

  /** One segment's parts in order, within its time. */
  lemma SplitInOrder(s: Segment, t: Tuning)
    requires s.start <= s.end
    ensures var parts := SplitParts(s.source, s.start, s.end, t);
      InOrder(parts) && forall p | p in parts :: s.start <= p.start && p.end <= s.end
  {
    SplitIsExact(s.source, s.start, s.end, t);
    TilesInOrder(SplitParts(s.source, s.start, s.end, t), s.start, s.end);
  }

  lemma FirstSegment(merged: seq<Segment>)
    requires merged != [] && Chronological(merged)
    ensures merged[0].start <= merged[0].end && Chronological(merged[1..])
    ensures forall r | r in merged[1..] :: merged[0].end <= r.start
  {
  }

  lemma {:induction false} SplitAllInOrder(merged: seq<Segment>, t: Tuning, lo: real)
    requires Chronological(merged)
    requires forall s | s in merged :: lo <= s.start
    ensures InOrder(SplitAll(merged, t))
    ensures forall p | p in SplitAll(merged, t) :: lo <= p.start
  {
    if merged != [] {
      var s, rest := merged[0], merged[1..];
      assert s in merged;
      FirstSegment(merged);
      SplitInOrder(s, t);
      SplitAllInOrder(rest, t, s.end);
      InOrderConcat(SplitParts(s.source, s.start, s.end, t), SplitAll(rest, t), s.end);
    }
  }

  lemma InOrderConcat(a: seq<Part>, b: seq<Part>, mid: real)
    requires InOrder(a) && InOrder(b)
    requires (forall p | p in a :: p.end <= mid) && (forall p | p in b :: mid <= p.start)
    ensures InOrder(a + b)
  {
    assert forall i | 0 <= i < |a| :: a[i] in a;
    assert forall i | 0 <= i < |b| :: b[i] in b;
  }

  lemma {:induction false} KeepInOrder(parts: seq<Part>, t: Tuning, lo: real)
    requires InOrder(parts)
    requires forall p | p in parts :: lo <= p.start
    ensures Chronological(Keep(parts, t))
    ensures forall s | s in Keep(parts, t) :: Round3(lo) <= s.start
    ensures t.minSegment > 0.001 ==> forall s | s in Keep(parts, t) :: s.start < s.end
  {
    if parts != [] {
      var p, rest := parts[0], parts[1..];
      assert p in parts && forall q | q in rest :: p.end <= q.start;
      KeepInOrder(rest, t, p.end);
      Round3Monotone(lo, p.start);
      Round3Monotone(p.start, p.end);
      Round3Near(p.start);
      Round3Near(p.end);
      ChronologicalCons(Segment(Round3(p.start), Round3(p.end), p.text, ""), Keep(rest, t));
    }
  }

  /** A chronological, non-overlapping transcript stays chronological and non-overlapping
      through merging, splitting, dropping blips and rounding; no kept segment is empty. */
  lemma TranscribeKeepsOrder(raw: seq<Segment>, t: Tuning)
    requires Chronological(raw)
    requires forall s | s in raw :: Spoken(s) && s.Valid()
    ensures Chronological(Transcribed(raw, t))
    ensures forall s | s in Transcribed(raw, t) :: s.start >= 0.0
    ensures t.minSegment > 0.001 ==> forall s | s in Transcribed(raw, t) :: s.start < s.end
  {
    var blocks := MergeBlocks(raw, t);
    Packing.PackPacks(raw, Fitting(t));
    MergeKeepsOrder(blocks, 0.0);
    SplitAllInOrder(FuseAll(blocks), t, 0.0);
    KeepInOrder(SplitAll(FuseAll(blocks), t), t, 0.0);
    assert Round3(0.0) == 0.0;
  }
}
