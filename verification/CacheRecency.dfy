/** The cache over whole runs with any clock: a list in order of last use, ties in any order. */
module CacheRecency {
  import opened Options
  import opened Sorting
  import opened Cache
  import opened CacheRuns

  /** Exactly these entries, from the earliest time to the latest, ties in any order. */
  ghost predicate Arranges(order: seq<Entry>, entries: seq<Entry>) {
    multiset(order) == multiset(entries) && SortedBy(ByMtime, order)
  }

  /** What is left of the entries, put in order of last use and cut from the front. */
  ghost predicate Evicts(entries: seq<Entry>, after: seq<Entry>, others: nat, lim: Limits) {
    exists order :: Arranges(order, entries) && after == Survivors(order, others, lim)
  }

  /** One operation on a list kept in order of last use, where entries used at the same time may stand in
      any order. */
  ghost predicate ListMoves(op: Op, before: seq<Entry>, after: seq<Entry>, answer: Answer, lim: Limits) {
    match op
    case Write(key, data, now, _, others) =>
      answer == Miss && Evicts(Without(before, key) + [Entry(key, File(data, now))], after, others, lim)
    case Read(key, now) =>
      match Find(before, key)
      case None => answer == Miss && after == before
      case Some(file) =>
        if Expired(file, now, lim) then answer == Miss && after == Without(before, key)
        else answer == Hit(file.data) && Arranges(after, Without(before, key) + [Entry(key, file.(mtime := now))])
  }

  /** The list holds exactly the files, in order of last use. */
  ghost predicate InOrder(order: seq<Entry>, disk: Disk) {
    Covers(order, disk) && SortedBy(ByMtime, order)
  }

  lemma CoversArranged(order: seq<Entry>, entries: seq<Entry>, disk: Disk)
    requires Covers(entries, disk) && multiset(order) == multiset(entries)
    ensures Covers(order, disk)
  {
    DistinctUnderPermutation(entries, order);
    SameLength(entries, order);
    assert forall e :: e in order <==> e in multiset(order);
    assert forall e :: e in entries <==> e in multiset(entries);
  }

  lemma SortArranges(entries: seq<Entry>)
    ensures Arranges(Sort(entries, ByMtime), entries)
  {
    SortPermutes(entries, ByMtime);
    SortSorted(entries, ByMtime);
  }

  lemma ListingArranges(entries: seq<Entry>, disk: Disk, keys: seq<string>)
    requires Covers(entries, disk) && Lists(keys, disk)
    ensures Arranges(OldestFirst(disk, keys), entries)
  {
    OldestFirstFacts(disk, keys);
    CoversSame(OldestFirst(disk, keys), entries, disk);
    SortSorted(EntriesOf(disk, keys), ByMtime);
  }

  lemma SurvivorsInOrder(order: seq<Entry>, disk: Disk, others: nat, lim: Limits)
    requires InOrder(order, disk)
    ensures InOrder(Survivors(order, others, lim), Restrict(disk, Survivors(order, others, lim)))
  {
    SurvivorsAreSuffix(order, others, lim);
    var c :| 0 <= c <= |order| && Survivors(order, others, lim) == order[c..];
    SuffixCovers(order, disk, c);
  }

  lemma WriteMovesList(order: seq<Entry>, disk: Disk, key: string, data: string, now: real, keys: seq<string>,
        others: nat, lim: Limits) returns (next: seq<Entry>)
    requires InOrder(order, disk) && Lists(keys, disk[key := File(data, now)])
    ensures ListMoves(Write(key, data, now, keys, others), order, next, Miss, lim)
    ensures InOrder(next, Evict(disk[key := File(data, now)], keys, others, lim))
  {
    var file := File(data, now);
    var written, arranged := disk[key := file], OldestFirst(disk[key := file], keys);
    CoversTouch(order, disk, key, file);
    ListingArranges(Without(order, key) + [Entry(key, file)], written, keys);
    OldestFirstFacts(written, keys);
    SurvivorsInOrder(arranged, written, others, lim);
    next := Survivors(arranged, others, lim);
  }

  lemma {:induction false} WithoutSorted(order: seq<Entry>, key: string)
    requires SortedBy(ByMtime, order)
    ensures SortedBy(ByMtime, Without(order, key))
  {
    if order != [] {
      WithoutSorted(order[1..], key);
      WithoutIn(order[1..], key);
      assert forall e | e in order[1..] :: ByMtime(order[0], e);
    }
  }

  lemma ReadMovesList(order: seq<Entry>, disk: Disk, key: string, now: real, lim: Limits) returns (next: seq<Entry>)
    requires InOrder(order, disk)
    ensures ListMoves(Read(key, now), order, next, Get(disk, key, now, lim).0, lim)
    ensures InOrder(next, Get(disk, key, now, lim).1)
  {
    FindAgrees(order, disk, key);
    if key !in disk {
      next := order;
    } else if Expired(disk[key], now, lim) {
      next := Without(order, key);
      CoversForget(order, disk, key);
      WithoutSorted(order, key);
    } else {
      var file := disk[key].(mtime := now);
      var entries := Without(order, key) + [Entry(key, file)];
      next := Sort(entries, ByMtime);
      CoversTouch(order, disk, key, file);
      SortArranges(entries);
      CoversArranged(next, entries, disk[key := file]);
    }
  }

  /** `orders` is the list before each operation, and after the last. */
  ghost predicate ListRun(ops: seq<Op>, disks: seq<Disk>, orders: seq<seq<Entry>>, lim: Limits) {
    && |disks| == |ops| + 1 && 0 < |orders| <= |ops| + 1 && orders[0] == []
    && forall n: nat | n < |orders| :: ListAt(ops, disks, orders, lim, n)
  }

  /** List `n` holds the files, and operation `n - 1` led to it with the answer that the cache gave. */
  ghost predicate ListAt(ops: seq<Op>, disks: seq<Disk>, orders: seq<seq<Entry>>, lim: Limits, n: nat)
    requires n < |orders| <= |disks| == |ops| + 1
  {
    && InOrder(orders[n], disks[n])
    && (n > 0 ==> ListMoves(ops[n - 1], orders[n - 1], orders[n], AnswerAt(ops, disks, lim, n - 1), lim))
  }

  lemma OpMovesList(op: Op, order: seq<Entry>, before: Disk, after: Disk, answer: Answer, lim: Limits)
    returns (next: seq<Entry>)
    requires InOrder(order, before) && Moves(op, before, after, lim)
    requires answer == if op.Write? then Miss else Get(before, op.key, op.now, lim).0
    ensures ListMoves(op, order, next, answer, lim) && InOrder(next, after)
  {
    match op {
      case Write(key, data, now, keys, others) =>
        next := WriteMovesList(order, before, key, data, now, keys, others, lim);
      case Read(key, now) =>
        next := ReadMovesList(order, before, key, now, lim);
    }
  }

  lemma ListExtends(ops: seq<Op>, disks: seq<Disk>, orders: seq<seq<Entry>>, lim: Limits, next: seq<Entry>)
    requires ListRun(ops, disks, orders, lim) && |orders| <= |ops|
    requires var n := |orders| - 1;
      InOrder(next, disks[n + 1]) && ListMoves(ops[n], orders[n], next, AnswerAt(ops, disks, lim, n), lim)
    ensures ListRun(ops, disks, orders + [next], lim)
  {
    var longer := orders + [next];
    forall n: nat | n < |longer| ensures ListAt(ops, disks, longer, lim, n) {
      if n < |orders| {
        assert ListAt(ops, disks, orders, lim, n);
        assert longer[n] == orders[n] && (n > 0 ==> longer[n - 1] == orders[n - 1]);
      }
    }
  }

  lemma ListStep(ops: seq<Op>, disks: seq<Disk>, orders: seq<seq<Entry>>, lim: Limits) returns (next: seq<Entry>)
    requires Run(ops, disks, lim) && ListRun(ops, disks, orders, lim) && |orders| <= |ops|
    ensures ListRun(ops, disks, orders + [next], lim)
  {
    var n := |orders| - 1;
    assert Moves(ops[n], disks[n], disks[n + 1], lim);
    assert ListAt(ops, disks, orders, lim, n);
    next := OpMovesList(ops[n], orders[n], disks[n], disks[n + 1], AnswerAt(ops, disks, lim, n), lim);
    ListExtends(ops, disks, orders, lim, next);
  }

  lemma {:induction false} ListUpTo(ops: seq<Op>, disks: seq<Disk>, lim: Limits, n: nat)
    returns (orders: seq<seq<Entry>>)
    requires Run(ops, disks, lim) && n <= |ops|
    ensures |orders| == n + 1 && ListRun(ops, disks, orders, lim)
  {
    if n == 0 {
      orders := [[]];
      assert KeysOf([]) == {};
    } else {
      var before := ListUpTo(ops, disks, lim, n - 1);
      var next := ListStep(ops, disks, before, lim);
      orders := before + [next];
    }
  }

  /** Over any run, whatever the clock does and however the directory lists its files, the cache answers
      as a list in order of last use, ties in any order; and each entry of the list carries the data last
      put under its key and the time of its last use. */
  lemma CacheIsRecencyList(ops: seq<Op>, disks: seq<Disk>, lim: Limits) returns (orders: seq<seq<Entry>>)
    requires Run(ops, disks, lim)
    ensures |orders| == |ops| + 1 && ListRun(ops, disks, orders, lim)
    ensures forall n: nat, e | n <= |ops| && e in orders[n] :: Remembered(ops, e.key, n) == Some(e.file)
  {
    orders := ListUpTo(ops, disks, lim, |ops|);
    forall n: nat, e | n <= |ops| && e in orders[n] ensures Remembered(ops, e.key, n) == Some(e.file) {
      assert ListAt(ops, disks, orders, lim, n);
      DiskIsRemembered(ops, disks, lim, n, e.key);
    }
  }

  lemma WrittenIsRemembered(ops: seq<Op>, disks: seq<Disk>, lim: Limits, n: nat, key: string)
    requires Run(ops, disks, lim) && n < |ops| && ops[n].Write?
    requires key in disks[n][ops[n].key := File(ops[n].data, ops[n].now)]
    ensures Remembered(ops, key, n + 1) == Some(disks[n][ops[n].key := File(ops[n].data, ops[n].now)][key])
  {
    if key != ops[n].key {
      DiskIsRemembered(ops, disks, lim, n, key);
    }
  }

  /** After every put of any run, the survivors are a suffix of the files in order of last use: the longest
      that the limits allow, if and only if nothing need go, or nothing can stay, or what could stay has
      room beside the other directory entries. */
  lemma PutKeepsLastUsed(ops: seq<Op>, disks: seq<Disk>, lim: Limits, n: nat)
    returns (order: seq<Entry>, kept: seq<Entry>)
    requires Run(ops, disks, lim) && n < |ops| && ops[n].Write?
    ensures var written := disks[n][ops[n].key := File(ops[n].data, ops[n].now)];
      && InOrder(order, written)
      && (forall e | e in order :: Remembered(ops, e.key, n + 1) == Some(e.file))
      && kept == Survivors(order, ops[n].others, lim) && disks[n + 1] == Restrict(written, kept)
    ensures var cut := LeastCut(order, lim);
      IsLongestFit(kept, order, 0, 0, lim)
      <==> cut == 0 || cut == |order| || |order| - cut + ops[n].others <= lim.maxFiles
  {
    var op := ops[n];
    var written := disks[n][op.key := File(op.data, op.now)];
    assert Moves(op, disks[n], disks[n + 1], lim);
    order := OldestFirst(written, op.keys);
    kept := Survivors(order, op.others, lim);
    OldestFirstFacts(written, op.keys);
    SortSorted(EntriesOf(written, op.keys), ByMtime);
    LongestSuffixKeptIff(order, op.others, lim);
    forall e | e in order ensures Remembered(ops, e.key, n + 1) == Some(e.file) {
      WrittenIsRemembered(ops, disks, lim, n, e.key);
    }
  }
}
