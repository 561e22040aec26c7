/** Next-fit over consecutive blocks: keep extending the current block while it is still
    acceptable, otherwise start a new one.  Both the ASR fragment merger and the TTS text
    chunker are this loop; when acceptability is inherited by sub-blocks it is optimal. */
module Packing {

  function Flatten<T>(blocks: seq<seq<T>>): seq<T> {
    if blocks == [] then [] else blocks[0] + Flatten(blocks[1..])
  }

  function NextFit<T>(cur: seq<T>, rest: seq<T>, ok: seq<T> -> bool): (blocks: seq<seq<T>>)
    ensures blocks != []
    decreases |rest|
  {
    if rest == [] then [cur]
    else if ok(cur + [rest[0]]) then NextFit(cur + [rest[0]], rest[1..], ok)
    else [cur] + NextFit([rest[0]], rest[1..], ok)
  }

  /** Next-fit from the first item. */
  function Pack<T>(items: seq<T>, ok: seq<T> -> bool): seq<seq<T>> {
    if items == [] then [] else NextFit(items[..1], items[1..], ok)
  }

  /** `blocks` cuts `items` into consecutive, non-empty, acceptable blocks. */
  ghost predicate Packs<T>(blocks: seq<seq<T>>, items: seq<T>, ok: seq<T> -> bool) {
    && Flatten(blocks) == items
    && forall b | b in blocks :: b != [] && ok(b)
  }

  /** Acceptability of a run of `items` is inherited by every run inside it. */
  ghost predicate Hereditary<T>(items: seq<T>, ok: seq<T> -> bool) {
    forall i, p, q, j | 0 <= i <= p < q <= j <= |items| && ok(items[i..j]) :: ok(items[p..q])
  }

  lemma {:induction false} NextFitPacks<T>(cur: seq<T>, rest: seq<T>, ok: seq<T> -> bool)
    requires cur != [] && ok(cur)
    requires forall x | x in rest :: ok([x])
    ensures Packs(NextFit(cur, rest, ok), cur + rest, ok)
    decreases |rest|
  {
    if rest == [] {
      assert cur + rest == cur && Flatten([cur]) == cur + Flatten([]);
    } else if ok(cur + [rest[0]]) {
      NextFitPacks(cur + [rest[0]], rest[1..], ok);
      assert cur + [rest[0]] + rest[1..] == cur + rest;
    } else {
      NextFitPacks([rest[0]], rest[1..], ok);
      assert [rest[0]] + rest[1..] == rest;
      assert NextFit(cur, rest, ok)[1..] == NextFit([rest[0]], rest[1..], ok);
    }
  }

  /** Next-fit partitions the items, in order, into acceptable blocks. */
  lemma PackPacks<T>(items: seq<T>, ok: seq<T> -> bool)
    requires forall x | x in items :: ok([x])
    ensures Packs(Pack(items, ok), items, ok)
  {
    if items != [] {
      assert items[..1] == [items[0]] && items == items[..1] + items[1..];
      NextFitPacks(items[..1], items[1..], ok);
    }
  }

  /** Every block but the first begins with an item that the block before it could not take. */
  ghost predicate Greedy<T>(blocks: seq<seq<T>>, ok: seq<T> -> bool) {
    forall j: nat | 0 < j < |blocks| :: GreedyAt(blocks, ok, j)
  }

  ghost predicate GreedyAt<T>(blocks: seq<seq<T>>, ok: seq<T> -> bool, j: nat)
    requires 0 < j < |blocks|
  {
    blocks[j] != [] && !ok(blocks[j - 1] + [blocks[j][0]])
  }

  lemma {:induction false} NextFitIsGreedy<T>(cur: seq<T>, rest: seq<T>, ok: seq<T> -> bool)
    requires cur != []
    ensures Greedy(NextFit(cur, rest, ok), ok) && NextFit(cur, rest, ok)[0] != []
    ensures NextFit(cur, rest, ok)[0][0] == cur[0]
    decreases |rest|
  {
    if rest != [] && ok(cur + [rest[0]]) {
      NextFitIsGreedy(cur + [rest[0]], rest[1..], ok);
    } else if rest != [] {
      NextFitIsGreedy([rest[0]], rest[1..], ok);
      GreedyCons(cur, NextFit([rest[0]], rest[1..], ok), ok);
    }
  }

  lemma GreedyCons<T>(first: seq<T>, later: seq<seq<T>>, ok: seq<T> -> bool)
    requires later != [] && later[0] != [] && !ok(first + [later[0][0]]) && Greedy(later, ok)
    ensures Greedy([first] + later, ok)
  {
    var blocks := [first] + later;
    forall j: nat | 0 < j < |blocks| ensures GreedyAt(blocks, ok, j) {
      assert j > 1 ==> GreedyAt(later, ok, j - 1);
    }
  }

  /** A block is closed only by an item it cannot take. */
  lemma PackIsGreedy<T>(items: seq<T>, ok: seq<T> -> bool)
    ensures Greedy(Pack(items, ok), ok)
  {
    if items != [] {
      NextFitIsGreedy(items[..1], items[1..], ok);
    }
  }

  /** Taking the first block off a packing leaves a packing of the rest. */
  lemma FirstBlockTaken<T>(items: seq<T>, ok: seq<T> -> bool, other: seq<seq<T>>)
    requires other != [] && Packs(other, items, ok)
    ensures |other[0]| <= |items| && other[0] == items[..|other[0]|] && other[0] != [] && ok(other[0])
    ensures Packs(other[1..], items[|other[0]|..], ok)
  {
    var first, later := other[0], other[1..];
    assert items == first + Flatten(later);
    assert items[|first|..] == Flatten(later);
    assert first in other;
  }

  /** When the current block cannot take the next item, neither can the other packing's first block
      reach past the current one. */
  lemma FirstBlockIsShort<T>(done: seq<T>, before: seq<T>, cur: seq<T>, rest: seq<T>, ok: seq<T> -> bool, first: seq<T>)
    requires cur != [] && rest != [] && !ok(cur + [rest[0]])
    requires Hereditary(done + (before + cur + rest), ok)
    requires |first| <= |before + cur + rest| && first == (before + cur + rest)[..|first|] && ok(first)
    ensures |first| <= |before| + |cur|
  {
    var tail := before + cur + rest;
    var all, lo, mid := done + tail, |done|, |done| + |before|;
    assert all[lo..lo + |first|] == first;
    assert all[mid..mid + |cur| + 1] == cur + [rest[0]];
  }

  /** What the first block leaves over of what came before, with the next item as the current block. */
  lemma BlockClosed<T>(done: seq<T>, before: seq<T>, cur: seq<T>, rest: seq<T>, n: nat)
    requires rest != [] && n <= |before| + |cur|
    ensures var tail, left := before + cur + rest, (before + cur)[n..];
      && tail[n..] == left + [rest[0]] + rest[1..]
      && done + tail[..n] + (left + [rest[0]] + rest[1..]) == done + tail
  {
    var tail := before + cur + rest;
    assert tail == (before + cur) + rest && rest == [rest[0]] + rest[1..];
    assert tail[n..] == (before + cur)[n..] + rest;
    assert tail == tail[..n] + tail[n..];
  }

  /** Next-fit stays ahead: working on `cur + rest` it needs no more blocks than any packing
      of the longer `before + cur + rest`. */
  lemma {:induction false} NextFitStaysAhead<T>(
      done: seq<T>, before: seq<T>, cur: seq<T>, rest: seq<T>, ok: seq<T> -> bool, other: seq<seq<T>>)
    requires cur != []
    requires Hereditary(done + (before + cur + rest), ok)
    requires Packs(other, before + cur + rest, ok)
    ensures |NextFit(cur, rest, ok)| <= |other|
    decreases |rest|
  {
    assert other != [];
    if rest == [] {
    } else if ok(cur + [rest[0]]) {
      var cur' := cur + [rest[0]];
      assert before + cur' + rest[1..] == before + cur + rest;
      NextFitStaysAhead(done, before, cur', rest[1..], ok, other);
    } else {
      var tail, n := before + cur + rest, |other[0]|;
      FirstBlockTaken(tail, ok, other);
      FirstBlockIsShort(done, before, cur, rest, ok, other[0]);
      BlockClosed(done, before, cur, rest, n);
      NextFitStaysAhead(done + tail[..n], (before + cur)[n..], [rest[0]], rest[1..], ok, other[1..]);
    }
  }

  /** Optimality: no packing of the same items into consecutive acceptable blocks is smaller. */
  lemma PackIsMinimal<T>(items: seq<T>, ok: seq<T> -> bool, other: seq<seq<T>>)
    requires Hereditary(items, ok)
    requires Packs(other, items, ok)
    ensures |Pack(items, ok)| <= |other|
  {
    if items != [] {
      assert [] + items[..1] + items[1..] == items && [] + items == items;
      NextFitStaysAhead([], [], items[..1], items[1..], ok, other);
    }
  }
}
