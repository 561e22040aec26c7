/** Sentence-aware chunking of a synthesis text. */
module Chunking {
  import opened Text
  import opened Packing
  import Schemas

  predicate Terminates(c: char) {
    c in ".!?\n" || c == '\U{3002}' || c == '\U{ff01}' || c == '\U{ff1f}'
  }

  /** `re.split` after every terminator, swallowing the whitespace that follows it. */
  function Cut(piece: string, text: string): seq<string>
    decreases |text|
  {
    if text == "" then [piece]
    else if Terminates(text[0]) then
      StripLeftShorter(text[1..]);
      [piece + [text[0]]] + Cut("", StripLeft(text[1..]))
    else Cut(piece + [text[0]], text[1..])
  }

  function Sentences(text: string): seq<string> {
    Stripped(Cut("", text))
  }

  /** A chunk may hold one sentence of any length, or several within the limit. */
  predicate FitsIn(block: seq<string>, maxChars: int) {
    |block| == 1 || |Join(block)| <= maxChars
  }

  function Within(maxChars: int): seq<string> -> bool {
    block => FitsIn(block, maxChars)
  }

  function JoinAll(blocks: seq<seq<string>>): seq<string> {
    if blocks == [] then [] else [Join(blocks[0])] + JoinAll(blocks[1..])
  }

  function Blocks(text: string, maxChars: int): seq<seq<string>> {
    Pack(Sentences(text), Within(maxChars))
  }

  /** What `split_text` returns; a text without a sentence comes back whole. */
  function Chunks(text: string, maxChars: int): seq<string> {
    if Sentences(text) == [] then [text] else JoinAll(Blocks(text, maxChars))
  }

  /** What the packing loop will still produce after `chunks`. */
  function Packed(chunks: seq<string>, cur: seq<string>, rest: seq<string>, maxChars: int): seq<string> {
    chunks + JoinAll(NextFit(cur, rest, Within(maxChars)))
  }

  lemma PackStep(chunks: seq<string>, cur: seq<string>, s: string, rest: seq<string>, maxChars: int)
    requires cur != []
    ensures FitsIn(cur + [s], maxChars) <==> |Join(cur)| + |s| + 1 <= maxChars
    ensures FitsIn(cur + [s], maxChars) ==>
      Packed(chunks, cur, [s] + rest, maxChars) == Packed(chunks, cur + [s], rest, maxChars)
    ensures !FitsIn(cur + [s], maxChars) ==>
      Packed(chunks, cur, [s] + rest, maxChars) == Packed(chunks + [Join(cur)], [s], rest, maxChars)
  {
    JoinSnoc(cur, s);
    assert ([s] + rest)[1..] == rest;
    var whole := NextFit(cur, [s] + rest, Within(maxChars));
    if Within(maxChars)(cur + [s]) {
      assert whole == NextFit(cur + [s], rest, Within(maxChars));
    } else {
      var later := NextFit([s], rest, Within(maxChars));
      assert whole == [cur] + later && whole[1..] == later;
      Schemas.Assoc(chunks, [Join(cur)], JoinAll(later));
    }
  }

  lemma PackLast(chunks: seq<string>, cur: seq<string>, maxChars: int)
    ensures Packed(chunks, cur, [], maxChars) == chunks + [Join(cur)]
  {
    assert JoinAll([cur]) == [Join(cur)] + JoinAll([]);
  }

  /** The packing loop. */
  method PackSentences(sents: seq<string>, maxChars: int) returns (chunks: seq<string>)
    requires forall s | s in sents :: s != ""
    ensures chunks == JoinAll(Pack(sents, Within(maxChars)))
  {
    chunks := [];
    var cur := "";
    ghost var block: seq<string> := [];
    ghost var goal := JoinAll(Pack(sents, Within(maxChars)));
    for i := 0 to |sents|
      invariant cur == Join(block)
      invariant i == 0 ==> chunks == [] && block == []
      invariant i > 0 ==> block != [] && cur != "" && Packed(chunks, block, sents[i..], maxChars) == goal
    {
      var s := sents[i];
      assert s in sents;
      ghost var later := sents[i + 1..];
      assert sents[i..] == [s] + later;
      if i == 0 {
        PackFirst(s, later, maxChars);
      } else {
        PackStep(chunks, block, s, later, maxChars);
        JoinSnoc(block, s);
      }
      if |cur| + |s| + 1 > maxChars && cur != "" {
        chunks := chunks + [cur];
        cur := s;
        block := [s];
      } else {
        cur := if cur != "" then cur + " " + s else s;
        block := block + [s];
      }
    }
    if cur != "" {
      assert sents[|sents|..] == [];
      PackLast(chunks, block, maxChars);
      chunks := chunks + [cur];
    }
  }

  lemma PackFirst(s: string, later: seq<string>, maxChars: int)
    ensures Packed([], [] + [s], later, maxChars) == JoinAll(Pack([s] + later, Within(maxChars)))
  {
    assert [] + [s] == [s] == ([s] + later)[..1] && ([s] + later)[1..] == later;
  }

  method SplitText(text: string, maxChars: int) returns (result: seq<string>)
    ensures result == Chunks(text, maxChars)
  {
    var sents := Sentences(text);
    StrippedNonEmpty(Cut("", text));
    assert forall s | s in sents :: Neat(s);
    var chunks := PackSentences(sents, maxChars);
    JoinAllCounts(Blocks(text, maxChars));
    result := if chunks != [] then chunks else [text];
  }

  // ----- nothing is lost ----------------------------------------------------------------------

  lemma CutAtMark(piece: string, text: string)
    requires text != "" && Terminates(text[0])
    ensures Cut(piece, text) == [piece + [text[0]]] + Cut("", StripLeft(text[1..]))
    ensures |StripLeft(text[1..])| < |text|
  {
    StripLeftShorter(text[1..]);
  }

  lemma InkAroundMark(piece: string, text: string)
    requires text != ""
    ensures Ink(piece + text) == Ink(piece + [text[0]]) + Ink(StripLeft(text[1..]))
    ensures piece + [text[0]] + text[1..] == piece + text
  {
    StripLeftKeeps(text[1..]);
    InkConcat(piece + [text[0]], text[1..]);
    assert piece + [text[0]] + text[1..] == piece + text;
  }

  lemma {:induction false} CutKeepsInk(piece: string, text: string)
    ensures InkAll(Cut(piece, text)) == Ink(piece + text)
    decreases |text|
  {
    if text == "" {
      assert piece + text == piece && [piece] + [] == [piece];
      InkAllCons(piece, []);
    } else {
      InkAroundMark(piece, text);
      if Terminates(text[0]) {
        var rest := StripLeft(text[1..]);
        CutAtMark(piece, text);
        CutKeepsInk("", rest);
        assert "" + rest == rest;
        InkAllCons(piece + [text[0]], Cut("", rest));
      } else {
        CutKeepsInk(piece + [text[0]], text[1..]);
      }
    }
  }

  // ----- where the text is cut ----------------------------------------------------------------

  /** The marks that end a sentence; a line break is one of them. */
  const MARKS := ".!?\n\U{3002}\U{ff01}\U{ff1f}"

  lemma TerminatesIff(c: char)
    ensures Terminates(c) <==> c in MARKS
  {
    assert MARKS == ['.', '!', '?', '\n', '\U{3002}', '\U{ff01}', '\U{ff1f}'];
  }

  predicate Markless(s: string) {
    forall c | c in s :: c !in MARKS
  }

  /** One sentence as it is cut: a mark at its end and none before. */
  predicate CutOff(s: string) {
    s != "" && s[|s| - 1] in MARKS && Markless(s[..|s| - 1])
  }

  lemma MarklessSnoc(piece: string, c: char)
    requires Markless(piece)
    ensures c in MARKS ==> CutOff(piece + [c])
    ensures c !in MARKS ==> Markless(piece + [c])
  {
    assert (piece + [c])[..|piece|] == piece;
  }

  /** The text is cut behind every mark and nowhere else. */
  lemma {:induction false} CutAtEveryMark(piece: string, text: string)
    requires Markless(piece)
    ensures Cut(piece, text) != [] && Markless(Cut(piece, text)[|Cut(piece, text)| - 1])
    ensures forall k | 0 <= k < |Cut(piece, text)| - 1 :: CutOff(Cut(piece, text)[k])
    decreases |text|
  {
    if text != "" {
      TerminatesIff(text[0]);
      MarklessSnoc(piece, text[0]);
      if Terminates(text[0]) {
        CutAtMark(piece, text);
        CutAtEveryMark("", StripLeft(text[1..]));
      } else {
        CutAtEveryMark(piece + [text[0]], text[1..]);
      }
    }
  }

  lemma {:induction false} StripRightIsPrefix(s: string)
    ensures StripRight(s) <= s
  {
    if s != "" && IsSpace(s[|s| - 1]) {
      StripRightIsPrefix(s[..|s| - 1]);
    }
  }

  lemma {:induction false} StripLeftIsSuffix(s: string)
    ensures |StripLeft(s)| <= |s| && StripLeft(s) == s[|s| - |StripLeft(s)|..]
  {
    if s != "" && IsSpace(s[0]) {
      StripLeftIsSuffix(s[1..]);
    }
  }

  /** No mark but possibly at the very end. */
  predicate OneSentence(s: string) {
    s == "" || Markless(s[..|s| - 1])
  }

  lemma MarklessPart(s: string, lo: nat, hi: nat)
    requires lo <= hi <= |s| && Markless(s)
    ensures Markless(s[lo..hi])
  {
  }

  lemma StripKeepsOneSentence(s: string)
    requires Markless(s) || CutOff(s)
    ensures OneSentence(Strip(s))
  {
    StripLeftIsSuffix(s);
    StripRightIsPrefix(StripLeft(s));
    var t := Strip(s);
    if t != "" {
      var lo := |s| - |StripLeft(s)|;
      var hi := lo + |t| - 1;
      assert t[..|t| - 1] == s[lo..hi];
      MarklessPart(s[..|s| - 1], lo, hi);
      assert s[..|s| - 1][lo..hi] == s[lo..hi];
    }
  }

  lemma {:induction false} StrippedSentences(parts: seq<string>)
    requires forall p | p in parts :: Markless(p) || CutOff(p)
    ensures forall s | s in Stripped(parts) :: OneSentence(s)
  {
    if parts != [] {
      assert parts[0] in parts;
      StripKeepsOneSentence(parts[0]);
      StrippedSentences(parts[1..]);
    }
  }

  /** Every sentence that the chunks are packed from is neat and holds no mark but at its end. */
  lemma SentencesAreSingle(text: string)
    ensures forall s | s in Sentences(text) :: Neat(s) && OneSentence(s)
  {
    CutAtEveryMark("", text);
    var parts := Cut("", text);
    forall p | p in parts ensures Markless(p) || CutOff(p) {
      var k :| 0 <= k < |parts| && parts[k] == p;
    }
    StrippedSentences(parts);
    StrippedNonEmpty(parts);
  }

  lemma {:induction false} JoinAllInk(blocks: seq<seq<string>>)
    ensures InkAll(JoinAll(blocks)) == InkAll(Flatten(blocks))
  {
    if blocks != [] {
      JoinAllInk(blocks[1..]);
      InkOfJoin(blocks[0]);
      InkAllConcat(blocks[0], Flatten(blocks[1..]));
    }
  }

  lemma BlocksPack(text: string, maxChars: int)
    ensures Packs(Blocks(text, maxChars), Sentences(text), Within(maxChars))
  {
    PackPacks(Sentences(text), Within(maxChars));
  }

  /** Chunking conserves the non-whitespace characters of the text, in order. */
  lemma ChunksKeepInk(text: string, maxChars: int)
    ensures InkAll(Chunks(text, maxChars)) == Ink(text)
  {
    CutKeepsInk("", text);
    assert "" + text == text;
    StrippedNonEmpty(Cut("", text));
    if Sentences(text) == [] {
      assert InkAll([text]) == Ink(text) + InkAll([]);
    } else {
      BlocksPack(text, maxChars);
      JoinAllInk(Blocks(text, maxChars));
    }
  }

  lemma {:induction false} JoinAllAt(blocks: seq<seq<string>>, k: nat)
    requires k < |blocks|
    ensures |JoinAll(blocks)| == |blocks| && JoinAll(blocks)[k] == Join(blocks[k])
  {
    if |blocks| > 1 {
      JoinAllAt(blocks[1..], if k > 0 then k - 1 else 0);
    }
  }

  /** A chunk is closed only by a sentence that would make it too long. */
  lemma ChunksAreFilled(text: string, maxChars: int, j: nat)
    requires 0 < j < |Blocks(text, maxChars)|
    ensures var chunks, next := Chunks(text, maxChars), Blocks(text, maxChars)[j];
      && |chunks| == |Blocks(text, maxChars)| && next != []
      && |chunks[j - 1]| + 1 + |next[0]| > maxChars && chunks[j] == Join(next)
  {
    var blocks, ok := Blocks(text, maxChars), Within(maxChars);
    BlocksPack(text, maxChars);
    PackIsGreedy(Sentences(text), ok);
    assert GreedyAt(blocks, ok, j);
    var block, s := blocks[j - 1], blocks[j][0];
    assert block in blocks;
    JoinSnoc(block, s);
    assert !FitsIn(block + [s], maxChars);
    JoinAllAt(blocks, j - 1);
    JoinAllAt(blocks, j);
  }

  // ----- sizes --------------------------------------------------------------------------------

  lemma {:induction false} JoinTailShorter(block: seq<string>, p: nat)
    requires p <= |block|
    ensures |Join(block[p..])| <= |Join(block)|
  {
    if p > 0 {
      assert block[p..] == block[1..][p - 1..];
      JoinTailShorter(block[1..], p - 1);
    } else {
      assert block[p..] == block;
    }
  }

  lemma {:induction false} JoinHeadShorter(block: seq<string>, q: nat)
    requires q <= |block|
    ensures |Join(block[..q])| <= |Join(block)|
  {
    if q < |block| {
      var front, last := block[..|block| - 1], block[|block| - 1];
      assert block == front + [last] && front[..q] == block[..q];
      JoinHeadShorter(front, q);
      if front != [] {
        JoinSnoc(front, last);
      }
    } else {
      assert block[..q] == block;
    }
  }

  lemma JoinSliceShorter(block: seq<string>, p: nat, q: nat)
    requires p <= q <= |block|
    ensures |Join(block[p..q])| <= |Join(block)|
  {
    assert block[p..q] == block[..q][p..];
    JoinTailShorter(block[..q], p);
    JoinHeadShorter(block, q);
  }

  lemma WithinIsHereditary(sents: seq<string>, maxChars: int)
    ensures Hereditary(sents, Within(maxChars))
  {
    forall i, p, q, j | 0 <= i <= p < q <= j <= |sents| && Within(maxChars)(sents[i..j])
      ensures Within(maxChars)(sents[p..q])
    {
      Schemas.SliceOfSlice(sents, i, p, q, j);
      JoinSliceShorter(sents[i..j], p - i, q - i);
    }
  }

  /** No way of grouping the same sentences, in order, into chunks that are single sentences or
      fit the limit uses fewer chunks. */
  lemma ChunksAreFewest(text: string, maxChars: int, other: seq<seq<string>>)
    requires Sentences(text) != []
    requires Flatten(other) == Sentences(text)
    requires forall b | b in other :: b != [] && (|b| == 1 || |Join(b)| <= maxChars)
    ensures |Chunks(text, maxChars)| <= |other|
  {
    WithinIsHereditary(Sentences(text), maxChars);
    PackIsMinimal(Sentences(text), Within(maxChars), other);
    JoinAllCounts(Blocks(text, maxChars));
  }

  lemma {:induction false} JoinAllCounts(blocks: seq<seq<string>>)
    ensures |JoinAll(blocks)| == |blocks|
    ensures forall i | 0 <= i < |blocks| :: JoinAll(blocks)[i] == Join(blocks[i])
  {
    if blocks != [] {
      JoinAllCounts(blocks[1..]);
    }
  }

  lemma {:induction false} FlattenHolds(blocks: seq<seq<string>>, x: string)
    requires x in Flatten(blocks)
    ensures exists i :: 0 <= i < |blocks| && x in blocks[i]
  {
    if x !in blocks[0] {
      FlattenHolds(blocks[1..], x);
      var i :| 0 <= i < |blocks[1..]| && x in blocks[1..][i];
      assert x in blocks[i + 1];
    }
  }

  lemma MemberFits(block: seq<string>, x: string)
    requires x in block
    ensures |x| <= |Join(block)|
  {
    var k :| 0 <= k < |block| && block[k] == x;
    assert block[k..k + 1] == [x];
    JoinSliceShorter(block, k, k + 1);
  }

  /** Every chunk of a text with sentences is a single sentence or within the limit. */
  lemma ChunkShape(text: string, maxChars: int)
    requires Sentences(text) != []
    ensures forall c | c in Chunks(text, maxChars) :: c in Sentences(text) || |c| <= maxChars
  {
    var blocks := Blocks(text, maxChars);
    BlocksPack(text, maxChars);
    JoinAllCounts(blocks);
    forall i | 0 <= i < |blocks| ensures Join(blocks[i]) in Sentences(text) || |Join(blocks[i])| <= maxChars {
      assert blocks[i] in blocks;
      if |blocks[i]| == 1 {
        InFlatten(blocks, i, blocks[i][0]);
      }
    }
  }

  lemma {:induction false} InFlatten(blocks: seq<seq<string>>, i: nat, x: string)
    requires i < |blocks| && x in blocks[i]
    ensures x in Flatten(blocks)
  {
    if i > 0 {
      InFlatten(blocks[1..], i - 1, x);
    }
  }

  /** The documented size bound holds exactly when no single sentence exceeds it, or when a
      text without any sentence is itself short enough. */
  lemma ChunksBounded(text: string, maxChars: int)
    ensures (forall c | c in Chunks(text, maxChars) :: |c| <= maxChars)
      <==> (if Sentences(text) == [] then |text| <= maxChars
            else forall s | s in Sentences(text) :: |s| <= maxChars)
  {
    var sents, chunks := Sentences(text), Chunks(text, maxChars);
    if sents == [] {
      assert chunks == [text];
      assert text in chunks;
    } else {
      ChunkShape(text, maxChars);
      forall s | s in sents ensures exists c :: c in chunks && |s| <= |c| {
        LongSentenceShows(text, maxChars, s);
      }
    }
  }

  /** A text without sentence marks is one piece. */
  lemma {:induction false} CutWithoutMarks(piece: string, text: string)
    requires forall c | c in text :: !Terminates(c)
    ensures Cut(piece, text) == [piece + text]
    decreases |text|
  {
    if text == "" {
      assert piece + text == piece;
    } else {
      assert text[0] in text && forall c | c in text[1..] :: c in text;
      CutWithoutMarks(piece + [text[0]], text[1..]);
      assert piece + [text[0]] + text[1..] == piece + text;
    }
  }

  /** A text without sentence marks comes back whole, however long: whatever the limit, some text
      exceeds it. */
  lemma LongSentenceStaysWhole(text: string, maxChars: int)
    requires Neat(text) && forall c | c in text :: !Terminates(c)
    ensures Chunks(text, maxChars) == [text]
    ensures |text| > maxChars ==> exists c :: c in Chunks(text, maxChars) && |c| > maxChars
  {
    CutWithoutMarks("", text);
    assert "" + text == text;
    assert Stripped([text]) == [text] + Stripped([]);
    assert Sentences(text) == [text];
    assert Pack([text], Within(maxChars)) == [[text]] by {
      assert [text][..1] == [text] && [text][1..] == [];
    }
    assert JoinAll([[text]]) == [text] + JoinAll([]);
    assert text in [text];
  }

  /** A run of one letter. */
  function Letters(n: nat): (text: string)
    ensures |text| == n && forall c | c in text :: c == 'a'
  {
    seq(n, i => 'a')
  }

  /** For every limit some text comes back in a chunk that exceeds it. */
  lemma SomeTextExceeds(maxChars: int)
    ensures exists text, c :: c in Chunks(text, maxChars) && |c| > maxChars
  {
    var text := Letters(if maxChars < 0 then 1 else maxChars + 1);
    assert text[0] in text && text[|text| - 1] in text;
    StripFixed(text);
    LongSentenceStaysWhole(text, maxChars);
  }

  lemma LongSentenceShows(text: string, maxChars: int, s: string)
    requires s in Sentences(text)
    ensures exists c :: c in Chunks(text, maxChars) && |s| <= |c|
  {
    var blocks := Blocks(text, maxChars);
    BlocksPack(text, maxChars);
    JoinAllCounts(blocks);
    FlattenHolds(blocks, s);
    var i :| 0 <= i < |blocks| && s in blocks[i];
    MemberFits(blocks[i], s);
    assert JoinAll(blocks)[i] in Chunks(text, maxChars);
  }
}
