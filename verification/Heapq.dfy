/** The binary heap behind `heapq.heappush` and `heapq.heappop`, smallest first. */
module Heapq {
  import opened Sorting

  function Parent(i: nat): (p: nat)
    requires i > 0
    ensures p < i && (i == 2 * p + 1 || i == 2 * p + 2)
  {
    (i - 1) / 2
  }

  ghost predicate OrderedAt<T>(heap: seq<T>, le: (T, T) -> bool, i: nat) {
    0 < i < |heap| ==> le(heap[Parent(i)], heap[i])
  }

  ghost predicate IsHeap<T>(heap: seq<T>, le: (T, T) -> bool) {
    forall i: nat | i < |heap| :: OrderedAt(heap, le, i)
  }

  /** Ordered except between `pos` and its parent, and the parent is below pos's children. */
  ghost predicate LooseAbove<T>(heap: seq<T>, le: (T, T) -> bool, pos: nat) {
    && pos < |heap|
    && (forall i: nat | i < |heap| && i != pos :: OrderedAt(heap, le, i))
    && SpansPos(heap, le, pos)
  }

  /** Ordered except around `pos`, whose parent is below its children. */
  ghost predicate LooseAt<T>(heap: seq<T>, le: (T, T) -> bool, pos: nat) {
    && pos < |heap|
    && (forall i: nat | i < |heap| && i != pos && !(i > 0 && Parent(i) == pos) :: OrderedAt(heap, le, i))
    && SpansPos(heap, le, pos)
  }

  ghost predicate SpansPos<T>(heap: seq<T>, le: (T, T) -> bool, pos: nat)
    requires pos < |heap|
  {
    pos > 0 ==> SpansAt(heap, le, pos, 2 * pos + 1) && SpansAt(heap, le, pos, 2 * pos + 2)
  }

  ghost predicate SpansAt<T>(heap: seq<T>, le: (T, T) -> bool, pos: nat, child: nat)
    requires 0 < pos < |heap|
  {
    child < |heap| ==> le(heap[Parent(pos)], heap[child])
  }

  function Swap<T>(heap: seq<T>, i: nat, j: nat): (swapped: seq<T>)
    requires i < |heap| && j < |heap|
    ensures |swapped| == |heap|
    ensures multiset(swapped) == multiset(heap)
  {
    heap[i := heap[j]][j := heap[i]]
  }

  lemma SwapUp<T(!new)>(heap: seq<T>, le: (T, T) -> bool, pos: nat)
    requires TotalPreorder(le) && LooseAbove(heap, le, pos) && pos > 0 && !le(heap[Parent(pos)], heap[pos])
    ensures LooseAbove(Swap(heap, pos, Parent(pos)), le, Parent(pos))
  {
    var p := Parent(pos);
    var after := Swap(heap, pos, p);
    assert le(heap[pos], heap[p]);
    forall i: nat | i < |after| && i != p ensures OrderedAt(after, le, i) {
      assert OrderedAt(heap, le, p);
      if i != pos {
        assert OrderedAt(heap, le, i);
      }
    }
    if p > 0 {
      assert OrderedAt(heap, le, p);
      forall c: nat | c == 2 * p + 1 || c == 2 * p + 2 ensures SpansAt(after, le, p, c) {
        if c < |heap| && c != pos {
          assert OrderedAt(heap, le, c) && Parent(c) == p;
        }
      }
    }
  }

  lemma RootedIsHeap<T>(heap: seq<T>, le: (T, T) -> bool, pos: nat)
    requires LooseAbove(heap, le, pos) && (pos > 0 ==> le(heap[Parent(pos)], heap[pos]))
    ensures IsHeap(heap, le)
  {
  }

  /** Moves the item at `pos` towards the root. */
  method SiftDown<T(!new)>(heap: seq<T>, le: (T, T) -> bool, pos: nat) returns (sifted: seq<T>)
    requires TotalPreorder(le) && LooseAbove(heap, le, pos)
    ensures IsHeap(sifted, le) && multiset(sifted) == multiset(heap) && |sifted| == |heap|
  {
    sifted := heap;
    var at := pos;
    while at > 0 && !le(sifted[Parent(at)], sifted[at])
      invariant LooseAbove(sifted, le, at)
      invariant multiset(sifted) == multiset(heap) && |sifted| == |heap|
      decreases at
    {
      SwapUp(sifted, le, at);
      sifted, at := Swap(sifted, at, Parent(at)), Parent(at);
    }
    RootedIsHeap(sifted, le, at);
  }

  /** `child` is the least of pos's children. */
  ghost predicate LeastChild<T>(heap: seq<T>, le: (T, T) -> bool, pos: nat, child: nat) {
    && 0 < child < |heap| && Parent(child) == pos
    && forall c: nat | 0 < c < |heap| && Parent(c) == pos :: le(heap[child], heap[c])
  }

  lemma SwapDownOrders<T(!new)>(heap: seq<T>, le: (T, T) -> bool, pos: nat, child: nat, i: nat)
    requires TotalPreorder(le) && LooseAt(heap, le, pos) && LeastChild(heap, le, pos, child)
    requires i < |heap| && i != child && !(i > 0 && Parent(i) == child)
    ensures OrderedAt(Swap(heap, pos, child), le, i)
  {
    if i == 0 {
    } else if i == pos {
      assert SpansAt(heap, le, pos, child);
    } else if Parent(i) != pos {
      assert OrderedAt(heap, le, i);
    }
  }

  lemma SwapDownSpans<T>(heap: seq<T>, le: (T, T) -> bool, pos: nat, child: nat, c: nat)
    requires LooseAt(heap, le, pos) && 0 < child < |heap| && Parent(child) == pos
    requires c == 2 * child + 1 || c == 2 * child + 2
    ensures SpansAt(Swap(heap, pos, child), le, child, c)
  {
    assert Parent(c) == child;
    if c < |heap| {
      assert OrderedAt(heap, le, c);
    }
  }

  lemma SwapDown<T(!new)>(heap: seq<T>, le: (T, T) -> bool, pos: nat, child: nat)
    requires TotalPreorder(le) && LooseAt(heap, le, pos) && LeastChild(heap, le, pos, child)
    ensures LooseAt(Swap(heap, pos, child), le, child)
  {
    var after := Swap(heap, pos, child);
    forall i: nat | i < |after| && i != child && !(i > 0 && Parent(i) == child) ensures OrderedAt(after, le, i) {
      SwapDownOrders(heap, le, pos, child, i);
    }
    SwapDownSpans(heap, le, pos, child, 2 * child + 1);
    SwapDownSpans(heap, le, pos, child, 2 * child + 2);
  }

  lemma LeafIsLoose<T>(heap: seq<T>, le: (T, T) -> bool, pos: nat)
    requires LooseAt(heap, le, pos) && 2 * pos + 1 >= |heap|
    ensures LooseAbove(heap, le, pos)
  {
    forall i: nat | i < |heap| && i != pos ensures OrderedAt(heap, le, i) {
      assert i > 0 ==> Parent(i) != pos;
    }
  }

  /** Moves the item at the root down to a leaf, always past the smaller child, and then back up to
      where it belongs. */
  method SiftUp<T(!new)>(heap: seq<T>, le: (T, T) -> bool) returns (sifted: seq<T>)
    requires TotalPreorder(le) && |heap| > 0 && LooseAt(heap, le, 0)
    ensures IsHeap(sifted, le) && multiset(sifted) == multiset(heap) && |sifted| == |heap|
  {
    sifted := heap;
    var at := 0;
    while 2 * at + 1 < |sifted|
      invariant LooseAt(sifted, le, at)
      invariant multiset(sifted) == multiset(heap) && |sifted| == |heap|
      decreases |heap| - at
    {
      var child := SmallerChild(sifted, le, at);
      SwapDown(sifted, le, at, child);
      sifted, at := Swap(sifted, at, child), child;
    }
    LeafIsLoose(sifted, le, at);
    sifted := SiftDown(sifted, le, at);
  }

  method SmallerChild<T(!new)>(heap: seq<T>, le: (T, T) -> bool, pos: nat) returns (child: nat)
    requires TotalPreorder(le) && 2 * pos + 1 < |heap|
    ensures pos < child && LeastChild(heap, le, pos, child)
  {
    child := 2 * pos + 1;
    if child + 1 < |heap| && le(heap[child + 1], heap[child]) {
      child := child + 1;
    }
  }

  lemma AppendIsLoose<T>(heap: seq<T>, le: (T, T) -> bool, x: T)
    requires IsHeap(heap, le)
    ensures LooseAbove(heap + [x], le, |heap|)
  {
    forall i: nat | i < |heap| + 1 && i != |heap| ensures OrderedAt(heap + [x], le, i) {
      assert OrderedAt(heap, le, i);
    }
  }

  method Push<T(!new)>(heap: seq<T>, le: (T, T) -> bool, x: T) returns (pushed: seq<T>)
    requires TotalPreorder(le) && IsHeap(heap, le)
    ensures IsHeap(pushed, le) && multiset(pushed) == multiset(heap) + multiset{x}
  {
    AppendIsLoose(heap, le, x);
    pushed := SiftDown(heap + [x], le, |heap|);
  }

  lemma ReplaceRootIsLoose<T>(heap: seq<T>, le: (T, T) -> bool)
    requires |heap| > 1 && IsHeap(heap, le)
    ensures var last := |heap| - 1; LooseAt(heap[..last][0 := heap[last]], le, 0)
  {
    var last := |heap| - 1;
    var after := heap[..last][0 := heap[last]];
    forall i: nat | i < |after| && i != 0 && Parent(i) != 0 ensures OrderedAt(after, le, i) {
      assert OrderedAt(heap, le, i);
    }
  }

  /** The root of a heap is a least element. */
  lemma {:induction false} RootIsLeast<T(!new)>(heap: seq<T>, le: (T, T) -> bool, i: nat)
    requires TotalPreorder(le) && IsHeap(heap, le) && i < |heap|
    ensures le(heap[0], heap[i])
  {
    if i > 0 {
      RootIsLeast(heap, le, Parent(i));
      assert OrderedAt(heap, le, i);
    }
  }

  lemma ReplaceRootMoves<T>(heap: seq<T>)
    requires |heap| > 1
    ensures var last := |heap| - 1; multiset(heap[..last][0 := heap[last]]) == multiset(heap) - multiset{heap[0]}
  {
    var last := |heap| - 1;
    assert heap == heap[..last] + [heap[last]];
  }

  method Pop<T(!new)>(heap: seq<T>, le: (T, T) -> bool) returns (least: T, popped: seq<T>)
    requires TotalPreorder(le) && IsHeap(heap, le) && heap != []
    ensures IsHeap(popped, le) && multiset(popped) == multiset(heap) - multiset{least}
    ensures least in heap && forall x | x in heap :: le(least, x)
  {
    var last := |heap| - 1;
    least := heap[0];
    forall x | x in heap ensures le(least, x) {
      var i :| 0 <= i < |heap| && heap[i] == x;
      RootIsLeast(heap, le, i);
    }
    if last == 0 {
      assert heap == [least];
      return least, [];
    }
    ReplaceRootIsLoose(heap, le);
    ReplaceRootMoves(heap);
    popped := SiftUp(heap[..last][0 := heap[last]], le);
  }
}
