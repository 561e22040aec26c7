/** The work queue of the asynchronous jobs: priority and arrival packed into one score. */
module ScoreQueue {
  import opened Sorting
  import opened Heapq

  const SCALE: int := 1_000_000_000_000

  /** What a waiting entry stands for; arrivals are numbered from one. */
  datatype Item = Item(id: string, priority: int, arrival: nat)

  /** The tuple kept in the heap. */
  datatype Entry = Entry(negated: int, id: string)

  datatype Answer = Empty | Next(id: string)

  function Score(priority: int, arrival: int): int {
    priority * SCALE - arrival
  }

  function EntryOf(item: Item): Entry {
    Entry(-Score(item.priority, item.arrival), item.id)
  }

  /** Higher priority first, then earlier arrival. */
  predicate Precedes(p: int, x: int, q: int, y: int) {
    p > q || (p == q && x < y)
  }

  // ----- the score -------------------------------------------------------------------------------

  /** The scores compare as the jobs should. */
  predicate Faithful(p: int, x: int, q: int, y: int) {
    && (Score(p, x) > Score(q, y) <==> Precedes(p, x, q, y))
    && (Score(p, x) < Score(q, y) <==> Precedes(q, y, p, x))
  }

  lemma ScoreOrders(p: int, x: int, q: int, y: int)
    requires -SCALE < x - y < SCALE
    ensures Faithful(p, x, q, y)
    ensures Score(p, x) == Score(q, y) <==> p == q && x == y
  {
    if p > q {
      assert (p - q) * SCALE >= SCALE;
    } else if p < q {
      assert (q - p) * SCALE >= SCALE;
    }
  }

  /** The score orders two arrivals as (priority, age) does, for every pair of priorities, exactly
      when fewer than `SCALE` arrivals separate them: after `SCALE` arrivals one step of priority
      has worn off. */
  lemma ScoreEmbedsIff(x: int, y: int)
    ensures (forall p, q :: Faithful(p, x, q, y)) <==> -SCALE < x - y < SCALE
  {
    if -SCALE < x - y < SCALE {
      forall p, q ensures Faithful(p, x, q, y) {
        ScoreOrders(p, x, q, y);
      }
    } else if x - y >= SCALE {
      assert Score(1, x) <= Score(0, y) && Precedes(1, x, 0, y);
      assert !Faithful(1, x, 0, y);
    } else {
      assert Score(0, x) >= Score(1, y) && Precedes(1, y, 0, x);
      assert !Faithful(0, x, 1, y);
    }
  }

  /** For every admissible priority the score is an integer that a double holds exactly, as long as
      no more than about eight quadrillion jobs have arrived. */
  lemma ScoreFitsDoubleIff(arrival: nat)
    ensures (forall p | -1000 <= p <= 1000 :: -0x20_0000_0000_0000 <= Score(p, arrival) <= 0x20_0000_0000_0000)
      <==> arrival <= 0x20_0000_0000_0000 - 1000 * SCALE
  {
    assert Score(-1000, arrival) == -1000 * SCALE - arrival;
    forall p | -1000 <= p <= 1000 ensures -1000 * SCALE <= Score(p, 0) <= 1000 * SCALE {
    }
  }

  // ----- the tuple order of the heap ---------------------------------------------------------------

  /** Python's string order, by code point. */
  predicate StringLe(a: string, b: string) {
    a == "" || (b != "" && (a[0] < b[0] || (a[0] == b[0] && StringLe(a[1..], b[1..]))))
  }

  predicate EntryLe(a: Entry, b: Entry) {
    a.negated < b.negated || (a.negated == b.negated && StringLe(a.id, b.id))
  }

  ghost predicate FirstDiffersBelow(a: string, b: string, k: nat) {
    k < |a| && k < |b| && a[..k] == b[..k] && a[k] < b[k]
  }

  lemma DiffersLater(a: string, b: string, k: nat)
    requires a != "" && b != "" && a[0] == b[0]
    ensures FirstDiffersBelow(a, b, k + 1) <==> FirstDiffersBelow(a[1..], b[1..], k)
  {
    var n := k + 1;
    if n < |a| && n < |b| {
      assert a[..n] == [a[0]] + a[1..][..k] && b[..n] == [b[0]] + b[1..][..k];
      assert a[..n][1..] == a[1..][..k] && b[..n][1..] == b[1..][..k];
    }
  }

  lemma DiffersAtOnce(a: string, b: string, k: nat)
    requires a != "" && b != "" && a[0] != b[0]
    ensures FirstDiffersBelow(a, b, k) <==> k == 0 && a[0] < b[0]
  {
    if 0 < k < |a| && k < |b| {
      assert a[..k][0] == a[0] && b[..k][0] == b[0];
    }
  }

  /** One string is before another if it is a prefix of it or has the smaller character where they first
      differ. */
  lemma {:induction false} StringLeIff(a: string, b: string)
    ensures StringLe(a, b) <==> a <= b || exists k: nat :: FirstDiffersBelow(a, b, k)
  {
    if a != "" && b != "" && a[0] == b[0] {
      StringLeIff(a[1..], b[1..]);
      assert a <= b <==> a[1..] <= b[1..];
      forall k: nat ensures FirstDiffersBelow(a, b, k + 1) <==> FirstDiffersBelow(a[1..], b[1..], k) {
        DiffersLater(a, b, k);
      }
      forall k: nat | FirstDiffersBelow(a, b, k) ensures k > 0 && FirstDiffersBelow(a[1..], b[1..], k - 1) {
        DiffersLater(a, b, k - 1);
      }
    } else if a != "" && b != "" {
      forall k: nat ensures FirstDiffersBelow(a, b, k) <==> k == 0 && a[0] < b[0] {
        DiffersAtOnce(a, b, k);
      }
      assert a[0] < b[0] ==> FirstDiffersBelow(a, b, 0);
    }
  }

  lemma {:induction false} StringLeTotal(a: string, b: string)
    ensures StringLe(a, b) || StringLe(b, a)
  {
    if a != "" && b != "" && a[0] == b[0] {
      StringLeTotal(a[1..], b[1..]);
    }
  }

  lemma {:induction false} StringLeTransitive(a: string, b: string, c: string)
    requires StringLe(a, b) && StringLe(b, c)
    ensures StringLe(a, c)
  {
    if a != "" && a[0] == b[0] == c[0] {
      StringLeTransitive(a[1..], b[1..], c[1..]);
    }
  }

  lemma EntryLeIsTotalPreorder()
    ensures TotalPreorder(EntryLe)
  {
    forall x, y ensures EntryLe(x, y) || EntryLe(y, x) {
      StringLeTotal(x.id, y.id);
    }
    forall x, y, z | EntryLe(x, y) && EntryLe(y, z) ensures EntryLe(x, z) {
      if x.negated == y.negated == z.negated {
        StringLeTransitive(x.id, y.id, z.id);
      }
    }
  }

  // ----- the abstract queue --------------------------------------------------------------------------

  /** The position of the first waiting job of the highest priority. */
  function Best(pending: seq<Item>): (best: nat)
    requires pending != []
    ensures best < |pending|
  {
    if |pending| == 1 then 0
    else
      var later := 1 + Best(pending[1..]);
      if pending[0].priority >= pending[later].priority then 0 else later
  }

  lemma {:induction false} BestComesFirst(pending: seq<Item>, j: nat)
    requires j < |pending|
    ensures var best := Best(pending);
      pending[best].priority > pending[j].priority || (pending[best].priority == pending[j].priority && best <= j)
  {
    if |pending| > 1 && j > 0 {
      BestComesFirst(pending[1..], j - 1);
    }
  }

  function Without(pending: seq<Item>, i: nat): seq<Item>
    requires i < |pending|
  {
    pending[..i] + pending[i + 1..]
  }

  /** Numbered in arrival order, from one to `last`. */
  ghost predicate Numbered(pending: seq<Item>, last: nat) {
    && (forall i | 0 <= i < |pending| :: 1 <= pending[i].arrival <= last)
    && (forall i, j {:trigger pending[i], pending[j]} | 0 <= i < j < |pending| ::
          pending[i].arrival < pending[j].arrival)
  }

  /** Fewer than `SCALE` arrivals separate any two waiting jobs. */
  ghost predicate Windowed(pending: seq<Item>) {
    forall i, j {:trigger pending[i], pending[j]} | 0 <= i < |pending| && 0 <= j < |pending| ::
      pending[j].arrival - pending[i].arrival < SCALE
  }

  lemma FewArrivalsAreWindowed(pending: seq<Item>, last: nat)
    requires Numbered(pending, last) && last <= SCALE
    ensures Windowed(pending)
  {
  }

  function Tuples(pending: seq<Item>): (es: seq<Entry>)
    ensures |es| == |pending| && forall i | 0 <= i < |pending| :: es[i] == EntryOf(pending[i])
  {
    seq(|pending|, i requires 0 <= i < |pending| => EntryOf(pending[i]))
  }

  function Entries(pending: seq<Item>): (es: multiset<Entry>)
    ensures |es| == |pending|
  {
    multiset(Tuples(pending))
  }

  lemma EntriesSplit(pending: seq<Item>, i: nat)
    requires i < |pending|
    ensures Entries(pending) == Entries(Without(pending, i)) + multiset{EntryOf(pending[i])}
  {
    var es := Tuples(pending);
    assert Tuples(Without(pending, i)) == es[..i] + es[i + 1..];
    assert es == es[..i] + [es[i]] + es[i + 1..];
  }

  lemma EntriesSnoc(pending: seq<Item>, item: Item)
    ensures Entries(pending + [item]) == Entries(pending) + multiset{EntryOf(item)}
  {
    assert Tuples(pending + [item]) == Tuples(pending) + [EntryOf(item)];
  }

  lemma EntryHasItem(pending: seq<Item>, e: Entry) returns (i: nat)
    requires e in Entries(pending)
    ensures i < |pending| && EntryOf(pending[i]) == e
  {
    assert e in Tuples(pending);
    i :| i < |pending| && Tuples(pending)[i] == e;
  }

  lemma ItemHasEntry(pending: seq<Item>, i: nat)
    requires i < |pending|
    ensures EntryOf(pending[i]) in Entries(pending)
  {
    EntriesSplit(pending, i);
  }

  /** A least entry belongs to the job that should run next. */
  lemma {:induction false} LeastIsBest(pending: seq<Item>, last: nat, i: nat)
    requires Numbered(pending, last) && Windowed(pending) && i < |pending|
    requires forall e | e in Entries(pending) :: EntryLe(EntryOf(pending[i]), e)
    ensures i == Best(pending)
  {
    var best := Best(pending);
    var a, b := pending[i], pending[best];
    ItemHasEntry(pending, best);
    BestComesFirst(pending, i);
    ScoreOrders(a.priority, a.arrival, b.priority, b.arrival);
    assert EntryLe(EntryOf(a), EntryOf(b));
  }

  lemma {:induction false} WithoutNumbered(pending: seq<Item>, last: nat, i: nat)
    requires Numbered(pending, last) && i < |pending|
    ensures Numbered(Without(pending, i), last)
  {
  }

  // ----- the in-memory queue -------------------------------------------------------------------------

  ghost predicate EntryHeap(heap: seq<Entry>) {
    IsHeap(heap, EntryLe)
  }

  lemma EnqueueKeeps(heap: seq<Entry>, pushed: seq<Entry>, pending: seq<Item>, item: Item)
    requires item.arrival > 0
    requires multiset(heap) == Entries(pending) && Numbered(pending, item.arrival - 1)
    requires multiset(pushed) == multiset(heap) + multiset{EntryOf(item)}
    ensures multiset(pushed) == Entries(pending + [item]) && Numbered(pending + [item], item.arrival)
  {
    EntriesSnoc(pending, item);
  }

  method PushEntry(heap: seq<Entry>, e: Entry) returns (pushed: seq<Entry>)
    requires EntryHeap(heap)
    ensures EntryHeap(pushed) && multiset(pushed) == multiset(heap) + multiset{e}
  {
    EntryLeIsTotalPreorder();
    pushed := Push(heap, EntryLe, e);
  }

  method PopEntry(heap: seq<Entry>) returns (least: Entry, popped: seq<Entry>)
    requires EntryHeap(heap) && heap != []
    ensures EntryHeap(popped) && multiset(popped) == multiset(heap) - multiset{least}
    ensures least in multiset(heap) && forall e | e in multiset(heap) :: EntryLe(least, e)
  {
    EntryLeIsTotalPreorder();
    least, popped := Pop(heap, EntryLe);
  }

  /** The job at `i` has left the queue; within the window it is the one that should run next. */
  ghost predicate Leaves(before: seq<Item>, after: seq<Item>, id: string, i: nat) {
    && i < |before| && id == before[i].id && after == Without(before, i)
    && (Windowed(before) ==> i == Best(before))
  }

  lemma LeastLeaves(heap: seq<Entry>, popped: seq<Entry>, least: Entry, pending: seq<Item>, last: nat) returns (i: nat)
    requires multiset(heap) == Entries(pending) && Numbered(pending, last)
    requires least in multiset(heap) && forall e | e in multiset(heap) :: EntryLe(least, e)
    requires multiset(popped) == multiset(heap) - multiset{least}
    ensures i < |pending| && Leaves(pending, Without(pending, i), least.id, i)
    ensures multiset(popped) == Entries(Without(pending, i)) && Numbered(Without(pending, i), last)
  {
    i := EntryHasItem(pending, least);
    if Windowed(pending) {
      LeastIsBest(pending, last, i);
    }
    EntriesSplit(pending, i);
    WithoutNumbered(pending, last, i);
  }

  lemma EmptyTogether(heap: seq<Entry>, pending: seq<Item>)
    requires multiset(heap) == Entries(pending)
    ensures heap == [] <==> pending == []
  {
    assert |heap| == |multiset(heap)|;
  }

  class MemoryQueue {
    var heap: seq<Entry>
    var arrivals: nat
    /** The waiting jobs in arrival order. */
    ghost var pending: seq<Item>

    ghost predicate Valid()
      reads this
    {
      EntryHeap(heap) && multiset(heap) == Entries(pending) && Numbered(pending, arrivals)
    }

    constructor ()
      ensures Valid() && pending == [] && arrivals == 0
    {
      heap, arrivals, pending := [], 0, [];
    }

    method Enqueue(id: string, priority: int)
      requires Valid()
      modifies this
      ensures Valid() && arrivals == old(arrivals) + 1
      ensures pending == old(pending) + [Item(id, priority, arrivals)]
    {
      arrivals := arrivals + 1;
      ghost var was := heap;
      heap := PushEntry(heap, Entry(-(priority * SCALE - arrivals), id));
      EnqueueKeeps(was, heap, pending, Item(id, priority, arrivals));
      pending := pending + [Item(id, priority, arrivals)];
    }

    /** One look at the queue: the job that should run next leaves it. */
    method Dequeue() returns (answer: Answer)
      requires Valid()
      modifies this
      ensures Valid() && arrivals == old(arrivals)
      ensures answer.Empty? <==> old(pending) == []
      ensures answer.Empty? ==> pending == []
      ensures answer.Next? ==> exists i :: Leaves(old(pending), pending, answer.id, i)
    {
      EmptyTogether(heap, pending);
      if heap == [] {
        return Empty;
      }
      var least, rest := PopEntry(heap);
      ghost var i := LeastLeaves(heap, rest, least, pending, arrivals);
      heap, pending := rest, Without(pending, i);
      return Next(least.id);
    }
  }

  // ----- the Redis sorted set --------------------------------------------------------------------------

  /** The sorted set scores exactly the waiting jobs. */
  ghost predicate Mirrors(zset: map<string, int>, pending: seq<Item>) {
    && (forall item | item in pending :: Scored(zset, item))
    && (forall id | id in zset :: exists item :: item in pending && item.id == id)
  }

  ghost predicate Scored(zset: map<string, int>, item: Item) {
    item.id in zset && zset[item.id] == Score(item.priority, item.arrival)
  }

  /** What ZPOPMAX may return: a member of the highest score, the greatest string among equals. */
  ghost predicate PopsMax(zset: map<string, int>, id: string) {
    && id in zset
    && forall other | other in zset ::
      zset[other] < zset[id] || (zset[other] == zset[id] && StringLe(other, id))
  }

  ghost predicate DistinctItems(pending: seq<Item>) {
    forall i, j {:trigger pending[i], pending[j]} | 0 <= i < j < |pending| :: pending[i].id != pending[j].id
  }

  lemma BestScoresMost(pending: seq<Item>, last: nat, i: nat)
    requires Numbered(pending, last) && Windowed(pending) && i < |pending| && i != Best(pending)
    ensures var best := Best(pending);
      Score(pending[i].priority, pending[i].arrival) < Score(pending[best].priority, pending[best].arrival)
  {
    var best := Best(pending);
    BestComesFirst(pending, i);
    assert i < best ==> pending[i].arrival < pending[best].arrival;
    assert best < i ==> pending[best].arrival < pending[i].arrival;
    ScoreOrders(pending[best].priority, pending[best].arrival, pending[i].priority, pending[i].arrival);
  }

  lemma {:induction false} SelfLe(id: string)
    ensures StringLe(id, id)
  {
    if id != "" {
      SelfLe(id[1..]);
    }
  }

  /** The sorted set pops the same job as the heap. */
  lemma SortedSetPopsBest(zset: map<string, int>, pending: seq<Item>, last: nat, id: string)
    requires pending != [] && Numbered(pending, last) && Windowed(pending)
    requires Mirrors(zset, pending)
    ensures PopsMax(zset, id) <==> id == pending[Best(pending)].id
  {
    var best := Best(pending);
    assert Scored(zset, pending[best]);
    forall other | other in zset && other != pending[best].id ensures zset[other] < zset[pending[best].id] {
      var item :| item in pending && item.id == other;
      var i :| 0 <= i < |pending| && pending[i] == item;
      assert Scored(zset, item);
      BestScoresMost(pending, last, i);
    }
    SelfLe(id);
  }

  /** ZADD of a new id and popping keep the sorted set in step with the queue. */
  lemma SortedSetAdds(zset: map<string, int>, pending: seq<Item>, item: Item)
    requires Mirrors(zset, pending) && forall other | other in pending :: other.id != item.id
    ensures Mirrors(zset[item.id := Score(item.priority, item.arrival)], pending + [item])
  {
    var zset', pending' := zset[item.id := Score(item.priority, item.arrival)], pending + [item];
    forall id | id in zset' ensures exists other :: other in pending' && other.id == id {
      if id == item.id {
        assert item in pending';
      } else {
        var other :| other in pending && other.id == id;
        assert other in pending';
      }
    }
  }

  lemma SortedSetForgets(zset: map<string, int>, pending: seq<Item>, i: nat)
    requires i < |pending| && DistinctItems(pending) && Mirrors(zset, pending)
    ensures Mirrors(zset - {pending[i].id}, Without(pending, i))
    ensures DistinctItems(Without(pending, i))
  {
    var zset', pending' := zset - {pending[i].id}, Without(pending, i);
    WithoutKeepsOthers(pending, i);
    forall id | id in zset' ensures exists other :: other in pending' && other.id == id {
      var other :| other in pending && other.id == id;
      assert other in pending';
    }
    forall item | item in pending' ensures Scored(zset', item) {
      assert Scored(zset, item);
    }
  }

  lemma WithoutKeepsOthers(pending: seq<Item>, i: nat)
    requires i < |pending| && DistinctItems(pending)
    ensures DistinctItems(Without(pending, i))
    ensures forall item :: item in Without(pending, i) <==> item in pending && item.id != pending[i].id
  {
    var rest := Without(pending, i);
    forall item | item in pending && item.id != pending[i].id ensures item in rest {
      var j :| 0 <= j < |pending| && pending[j] == item;
      assert rest[if j < i then j else j - 1] == item;
    }
  }
}
