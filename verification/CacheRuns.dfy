/** The cache over whole runs: eviction keeps the longest recent suffix that fits, the directory
    behaves as a least-recently-used list, and hits return what was last put. */
module CacheRuns {
  import opened Options
  import opened Sorting
  import opened Cache

  // ----- eviction keeps the longest suffix that fits ---------------------------------------------

  /** `kept` drops the first `c >= from` files, `c` being the least that leaves room. */
  ghost predicate IsLongestFit(kept: seq<Entry>, files: seq<Entry>, from: nat, others: nat, lim: Limits) {
    exists c :: from <= c <= |files| && kept == files[c..]
      && (kept == [] || Room(kept, others, lim))
      && forall b | from <= b < c :: !Room(files[b..], others, lim)
  }

  lemma {:induction false} TrimIsLongest(files: seq<Entry>, others: nat, lim: Limits)
    requires files != []
    ensures IsLongestFit(Trim(files, others, lim), files, 1, others, lim)
  {
    var rest := files[1..];
    if Room(rest, others, lim) || rest == [] {
      assert Trim(files, others, lim) == files[1..];
    } else {
      TrimIsLongest(rest, others, lim);
      var kept := Trim(rest, others, lim);
      var c :| 1 <= c <= |rest| && kept == rest[c..] && (kept == [] || Room(kept, others, lim))
        && forall b | 1 <= b < c :: !Room(rest[b..], others, lim);
      assert rest[c..] == files[c + 1..];
      forall b | 1 <= b < c + 1 ensures !Room(files[b..], others, lim) {
        if b > 1 {
          assert files[b..] == rest[b - 1..];
        }
      }
    }
  }

  /** When the directory holds only files, the survivors are within both limits and are exactly
      the longest recent suffix that fits. */
  lemma SurvivorsAreLongestFit(files: seq<Entry>, lim: Limits)
    ensures Room(Survivors(files, 0, lim), 0, lim)
    ensures IsLongestFit(Survivors(files, 0, lim), files, 0, 0, lim)
  {
    if Room(files, 0, lim) {
      assert files == files[0..];
    } else if files != [] {
      TrimIsLongest(files, 0, lim);
      var kept := Trim(files, 0, lim);
      var c :| 1 <= c <= |files| && kept == files[c..] && (kept == [] || Room(kept, 0, lim))
        && forall b | 1 <= b < c :: !Room(files[b..], 0, lim);
      assert files[0..] == files;
      assert forall b | 0 <= b < c :: !Room(files[b..], 0, lim);
    }
  }

  /** With other directory entries the files still end within both limits.  Files that fit are all kept;
      otherwise every entry counts, and the survivors are the longest proper suffix that fits beside the
      other entries. */
  lemma SurvivorsBesideOthers(files: seq<Entry>, others: nat, lim: Limits)
    ensures Room(Survivors(files, others, lim), 0, lim)
    ensures Room(files, 0, lim) ==> Survivors(files, others, lim) == files
    ensures !Room(files, 0, lim) ==> IsLongestFit(Survivors(files, others, lim), files, 1, others, lim)
  {
    if !Room(files, 0, lim) && files != [] {
      TrimIsLongest(files, others, lim);
    }
  }

  /** How many of the oldest files must go, at least, for the rest to fit the limits by themselves. */
  function LeastCut(files: seq<Entry>, lim: Limits): (cut: nat)
    ensures cut <= |files|
  {
    if files == [] || Room(files, 0, lim) then 0 else 1 + LeastCut(files[1..], lim)
  }

  lemma {:induction false} LeastCutIsLeast(files: seq<Entry>, lim: Limits)
    ensures Room(files[LeastCut(files, lim)..], 0, lim)
    ensures forall b | 0 <= b < LeastCut(files, lim) :: !Room(files[b..], 0, lim)
  {
    if files == [] {
      assert files[0..] == [];
    } else if Room(files, 0, lim) {
      assert files[0..] == files;
    } else {
      var rest := files[1..];
      var cut := LeastCut(rest, lim);
      LeastCutIsLeast(rest, lim);
      assert rest[cut..] == files[cut + 1..];
      forall b | 0 <= b < cut + 1 ensures !Room(files[b..], 0, lim) {
        if b == 0 {
          assert files[0..] == files;
        } else {
          assert files[b..] == rest[b - 1..];
        }
      }
    }
  }

  lemma LongestFitIsLeastCut(kept: seq<Entry>, files: seq<Entry>, lim: Limits)
    ensures IsLongestFit(kept, files, 0, 0, lim) <==> kept == files[LeastCut(files, lim)..]
  {
    var cut := LeastCut(files, lim);
    LeastCutIsLeast(files, lim);
    if IsLongestFit(kept, files, 0, 0, lim) {
      var c :| 0 <= c <= |files| && kept == files[c..] && (kept == [] || Room(kept, 0, lim))
        && forall b | 0 <= b < c :: !Room(files[b..], 0, lim);
      assert Room(files[c..], 0, lim);
      assert c == cut;
    }
  }

  lemma SurvivorsAtLeastCut(files: seq<Entry>, others: nat, lim: Limits)
    requires !Room(files, 0, lim)
    ensures var cut := LeastCut(files, lim);
      Survivors(files, others, lim) == files[cut..] <==> cut == |files| || |files| - cut + others <= lim.maxFiles
  {
    var cut, kept := LeastCut(files, lim), Trim(files, others, lim);
    LeastCutIsLeast(files, lim);
    TrimIsLongest(files, others, lim);
    var c :| 1 <= c <= |files| && kept == files[c..] && (kept == [] || Room(kept, others, lim))
      && forall b | 1 <= b < c :: !Room(files[b..], others, lim);
    assert files[0..] == files;
    assert c < |files| ==> Room(files[c..], 0, lim);
    assert c >= cut;
    assert Room(files[cut..], others, lim) <==> |files| - cut + others <= lim.maxFiles;
  }

  /** The survivors are the longest suffix that the limits allow if and only if nothing need go, or
      nothing can stay, or what could stay has room beside the other entries. */
  lemma LongestSuffixKeptIff(files: seq<Entry>, others: nat, lim: Limits)
    ensures var cut := LeastCut(files, lim);
      IsLongestFit(Survivors(files, others, lim), files, 0, 0, lim)
      <==> cut == 0 || cut == |files| || |files| - cut + others <= lim.maxFiles
  {
    LongestFitIsLeastCut(Survivors(files, others, lim), files, lim);
    LeastCutIsLeast(files, lim);
    assert files[0..] == files;
    if !Room(files, 0, lim) {
      SurvivorsAtLeastCut(files, others, lim);
    }
  }

  /** So a sub-directory can cost a file that the limits would have allowed. */
  lemma DirectoryCostsAFile(older: Entry, newer: Entry, ttl: int)
    ensures var lim := Limits(ttl, |older.file.data| + |newer.file.data|, 1);
      && Survivors([older, newer], 0, lim) == [newer]
      && Survivors([older, newer], 1, lim) == []
  {
    var lim := Limits(ttl, |older.file.data| + |newer.file.data|, 1);
    var both, last := [older, newer], [newer];
    assert both[1..] == last && last[1..] == [];
    assert Bytes(last) == |newer.file.data| + Bytes([]);
    assert !Room(both, 0, lim) && Room(last, 0, lim);
    assert Trim(both, 1, lim) == Trim(last, 1, lim) == Trim([], 1, lim);
  }

  // ----- the directory as a least-recently-used list -----------------------------------------------

  /** Strictly older to newer. */
  ghost predicate OlderFirst(order: seq<Entry>) {
    order != [] ==> AllNewer(order[0], order[1..]) && OlderFirst(order[1..])
  }

  ghost predicate AllNewer(first: Entry, rest: seq<Entry>) {
    forall e | e in rest :: first.file.mtime < e.file.mtime
  }

  ghost predicate AllBefore(order: seq<Entry>, now: real) {
    forall e | e in order :: e.file.mtime < now
  }

  function Without(order: seq<Entry>, key: string): seq<Entry> {
    if order == [] then []
    else if order[0].key == key then Without(order[1..], key)
    else [order[0]] + Without(order[1..], key)
  }

  /** The abstract put: move to the back, then keep what fits. */
  function LruPut(order: seq<Entry>, key: string, data: string, now: real, others: nat, lim: Limits): seq<Entry> {
    Survivors(Without(order, key) + [Entry(key, File(data, now))], others, lim)
  }

  /** The abstract get: a live entry moves to the back, an expired one goes. */
  function LruGet(order: seq<Entry>, key: string, now: real, lim: Limits): (Answer, seq<Entry>) {
    match Find(order, key)
    case None => (Miss, order)
    case Some(file) =>
      if Expired(file, now, lim) then (Miss, Without(order, key))
      else (Hit(file.data), Without(order, key) + [Entry(key, file.(mtime := now))])
  }

  function Find(order: seq<Entry>, key: string): Option<File> {
    if order == [] then None
    else if order[0].key == key then Some(order[0].file)
    else Find(order[1..], key)
  }

  /** The list describes the disk, oldest first, and the clock has moved past every entry. */
  ghost predicate Tracks(order: seq<Entry>, disk: Disk, now: real) {
    Covers(order, disk) && OlderFirst(order) && AllBefore(order, now)
  }

  lemma {:induction false} WithoutFacts(order: seq<Entry>, key: string)
    requires DistinctKeys(order)
    ensures DistinctKeys(Without(order, key))
    ensures forall e :: e in Without(order, key) <==> e in order && e.key != key
    ensures KeysOf(Without(order, key)) == KeysOf(order) - {key}
  {
    if order != [] {
      WithoutFacts(order[1..], key);
      KeysStep(order);
      assert order == [order[0]] + order[1..];
      if order[0].key != key {
        KeysStep(Without(order, key));
        assert Without(order, key)[1..] == Without(order[1..], key);
      }
    }
  }

  lemma {:induction false} WithoutIn(order: seq<Entry>, key: string)
    ensures forall e | e in Without(order, key) :: e in order && e.key != key
  {
    if order != [] {
      WithoutIn(order[1..], key);
    }
  }

  lemma {:induction false} WithoutOlderFirst(order: seq<Entry>, key: string)
    requires OlderFirst(order)
    ensures OlderFirst(Without(order, key))
  {
    if order != [] {
      WithoutOlderFirst(order[1..], key);
      WithoutIn(order[1..], key);
      if order[0].key != key {
        assert Without(order, key)[1..] == Without(order[1..], key);
      }
    }
  }

  lemma {:induction false} SnocOlderFirst(order: seq<Entry>, e: Entry)
    requires OlderFirst(order) && AllBefore(order, e.file.mtime)
    ensures OlderFirst(order + [e])
  {
    if order != [] {
      assert AllBefore(order[1..], e.file.mtime);
      SnocOlderFirst(order[1..], e);
      assert (order + [e])[1..] == order[1..] + [e];
    }
  }

  lemma {:induction false} SnocDistinct(order: seq<Entry>, e: Entry)
    requires DistinctKeys(order) && e.key !in KeysOf(order)
    ensures DistinctKeys(order + [e])
    ensures KeysOf(order + [e]) == KeysOf(order) + {e.key}
  {
    if order == [] {
      assert [] + [e] == [e];
      KeysStep([e]);
    } else {
      KeysStep(order);
      assert (order + [e])[1..] == order[1..] + [e];
      KeysStep(order + [e]);
      SnocDistinct(order[1..], e);
    }
  }

  lemma CoversForget(order: seq<Entry>, disk: Disk, key: string)
    requires Covers(order, disk)
    ensures Covers(Without(order, key), disk - {key})
  {
    var rest := Without(order, key);
    WithoutFacts(order, key);
    DistinctCount(rest);
    assert KeysOf(rest) == (disk - {key}).Keys;
  }

  lemma MembersSnoc(order: seq<Entry>, disk: Disk, e: Entry)
    requires Members(order, disk) && e.key !in disk
    ensures Members(order + [e], disk[e.key := e.file])
  {
  }

  lemma CoversSnoc(order: seq<Entry>, disk: Disk, e: Entry)
    requires Covers(order, disk) && e.key !in disk
    ensures Covers(order + [e], disk[e.key := e.file])
  {
    SnocDistinct(order, e);
    MembersSnoc(order, disk, e);
    assert KeysOf(order + [e]) == disk[e.key := e.file].Keys;
  }

  lemma PutTwice(disk: Disk, key: string, file: File)
    ensures (disk - {key})[key := file] == disk[key := file]
  {
  }

  lemma CoversTouch(order: seq<Entry>, disk: Disk, key: string, file: File)
    requires Covers(order, disk)
    ensures Covers(Without(order, key) + [Entry(key, file)], disk[key := file])
  {
    PutTwice(disk, key, file);
    CoversForget(order, disk, key);
    CoversSnoc(Without(order, key), disk - {key}, Entry(key, file));
  }

  /** Touching or writing a key moves it to the back of the list. */
  lemma TracksTouch(order: seq<Entry>, disk: Disk, key: string, file: File, next: real)
    requires Tracks(order, disk, file.mtime) && file.mtime < next
    ensures Tracks(Without(order, key) + [Entry(key, file)], disk[key := file], next)
  {
    CoversTouch(order, disk, key, file);
    WithoutIn(order, key);
    WithoutOlderFirst(order, key);
    SnocOlderFirst(Without(order, key), Entry(key, file));
  }

  lemma TracksForget(order: seq<Entry>, disk: Disk, key: string, now: real)
    requires Tracks(order, disk, now)
    ensures Tracks(Without(order, key), disk - {key}, now)
  {
    CoversForget(order, disk, key);
    WithoutIn(order, key);
    WithoutOlderFirst(order, key);
  }

  lemma {:induction false} FindAgrees(order: seq<Entry>, disk: Disk, key: string)
    requires Covers(order, disk)
    ensures Find(order, key) == if key in disk then Some(disk[key]) else None
  {
    FindIn(order, key);
    if key in disk {
      var e :| e in order && e.key == key;
    }
  }

  lemma {:induction false} FindIn(order: seq<Entry>, key: string)
    ensures Find(order, key).Some? ==> Entry(key, Find(order, key).value) in order
    ensures Find(order, key).None? ==> key !in KeysOf(order)
  {
    if order != [] {
      FindIn(order[1..], key);
      KeysStep(order);
    }
  }

  lemma {:induction false} DistinctMultiset(es: seq<Entry>, e: Entry)
    requires DistinctKeys(es)
    ensures multiset(es)[e] == if e in es then 1 else 0
  {
    if es != [] {
      DistinctMultiset(es[1..], e);
      assert es == [es[0]] + es[1..];
      if es[0] == e {
        assert e !in es[1..];
      }
    }
  }

  lemma CoversSame(a: seq<Entry>, b: seq<Entry>, disk: Disk)
    requires Covers(a, disk) && Covers(b, disk)
    ensures multiset(a) == multiset(b)
  {
    forall e ensures multiset(a)[e] == multiset(b)[e] {
      DistinctMultiset(a, e);
      DistinctMultiset(b, e);
      CoversIn(a, disk, e);
      CoversIn(b, disk, e);
    }
  }

  lemma CoversIn(a: seq<Entry>, disk: Disk, e: Entry)
    requires Covers(a, disk)
    ensures e in a <==> e.key in disk && e.file == disk[e.key]
  {
    if e.key in disk && e.file == disk[e.key] {
      assert e.key in KeysOf(a);
    }
  }

  /** Whatever order the directory lists its files in, sorting by time recovers the list. */
  lemma SortingRecovers(order: seq<Entry>, disk: Disk, now: real, keys: seq<string>)
    requires Tracks(order, disk, now) && Lists(keys, disk)
    ensures OldestFirst(disk, keys) == order
  {
    var files := OldestFirst(disk, keys);
    OldestFirstFacts(disk, keys);
    CoversSame(files, order, disk);
    SortSorted(EntriesOf(disk, keys), ByMtime);
    OlderFirstSorted(order);
    NoTies(order);
    SortedUnique(order, files, ByMtime);
  }

  lemma {:induction false} Older(order: seq<Entry>, i: nat, j: nat)
    requires OlderFirst(order) && i < j < |order|
    ensures order[i].file.mtime < order[j].file.mtime
  {
    if i > 0 {
      Older(order[1..], i - 1, j - 1);
    } else {
      assert order[j] in order[1..];
    }
  }

  lemma OlderFirstSorted(order: seq<Entry>)
    requires OlderFirst(order)
    ensures SortedBy(ByMtime, order)
  {
    forall i, j | 0 <= i < j < |order| ensures ByMtime(order[i], order[j]) {
      Older(order, i, j);
    }
  }

  lemma NoTies(order: seq<Entry>)
    requires OlderFirst(order)
    ensures Antisymmetric(ByMtime, multiset(order))
  {
    forall x, y | x in multiset(order) && y in multiset(order) && ByMtime(x, y) && ByMtime(y, x) ensures x == y {
      var i :| 0 <= i < |order| && order[i] == x;
      var j :| 0 <= j < |order| && order[j] == y;
      if i < j {
        Older(order, i, j);
      } else if j < i {
        Older(order, j, i);
      }
    }
  }

  lemma TailCovers(order: seq<Entry>, disk: Disk)
    requires Covers(order, disk) && order != []
    ensures Covers(order[1..], Restrict(disk, order[1..]))
  {
    KeysStep(order);
    var rest := order[1..];
    assert Restrict(disk, rest).Keys == KeysOf(rest);
    DistinctCount(rest);
  }

  lemma TailTracks(order: seq<Entry>, disk: Disk, now: real)
    requires Tracks(order, disk, now) && order != []
    ensures Tracks(order[1..], Restrict(disk, order[1..]), now)
  {
    TailCovers(order, disk);
  }

  lemma RestrictTwice(disk: Disk, order: seq<Entry>, c: nat)
    requires 1 <= c <= |order|
    ensures Restrict(Restrict(disk, order[1..]), order[1..][c - 1..]) == Restrict(disk, order[c..])
  {
    assert order[c..] == order[1..][c - 1..];
    assert forall e | e in order[c..] :: e in order[1..];
  }

  ghost predicate SuffixGoal(order: seq<Entry>, disk: Disk, now: real) {
    Tracks(order, Restrict(disk, order), now)
  }

  lemma {:induction false} SuffixTracks(order: seq<Entry>, disk: Disk, now: real, c: nat)
    requires Tracks(order, disk, now) && c <= |order|
    ensures SuffixGoal(order[c..], disk, now)
  {
    if c == 0 {
      assert order[0..] == order;
      CoversRestrict(order, disk);
    } else {
      var rest := order[1..];
      TailTracks(order, disk, now);
      SuffixTracks(rest, Restrict(disk, rest), now, c - 1);
      RestrictTwice(disk, order, c);
      assert order[c..] == rest[c - 1..];
    }
  }

  lemma SurvivorsAreSuffix(files: seq<Entry>, others: nat, lim: Limits)
    ensures exists c :: 0 <= c <= |files| && Survivors(files, others, lim) == files[c..]
  {
    if Room(files, 0, lim) {
      assert files == files[0..];
    } else if files == [] {
      assert files[0..] == [];
    } else {
      TrimIsLongest(files, others, lim);
    }
  }

  /** A put on the disk is the abstract put, for any directory order. */
  lemma PutRefines(order: seq<Entry>, disk: Disk, key: string, data: string, now: real, next: real,
        keys: seq<string>, others: nat, lim: Limits)
    requires Tracks(order, disk, now) && now < next && Lists(keys, disk[key := File(data, now)])
    ensures Tracks(LruPut(order, key, data, now, others, lim),
                   Evict(disk[key := File(data, now)], keys, others, lim), next)
  {
    var file := File(data, now);
    var order', disk' := Without(order, key) + [Entry(key, file)], disk[key := file];
    TracksTouch(order, disk, key, file, next);
    SortingRecovers(order', disk', next, keys);
    SurvivorsAreSuffix(order', others, lim);
    var c :| 0 <= c <= |order'| && Survivors(order', others, lim) == order'[c..];
    SuffixTracks(order', disk', next, c);
  }

  lemma TracksLater(order: seq<Entry>, disk: Disk, now: real, next: real)
    requires Tracks(order, disk, now) && now < next
    ensures Tracks(order, disk, next)
  {
  }

  /** A get on the disk is the abstract get. */
  lemma GetRefines(order: seq<Entry>, disk: Disk, key: string, now: real, next: real, lim: Limits)
    requires Tracks(order, disk, now) && now < next
    ensures LruGet(order, key, now, lim).0 == Get(disk, key, now, lim).0
    ensures Tracks(LruGet(order, key, now, lim).1, Get(disk, key, now, lim).1, next)
  {
    FindAgrees(order, disk, key);
    TracksLater(order, disk, now, next);
    if key in disk {
      if Expired(disk[key], now, lim) {
        TracksForget(order, disk, key, next);
      } else {
        TracksTouch(order, disk, key, disk[key].(mtime := now), next);
      }
    }
  }

  // ----- eviction for any clock --------------------------------------------------------------------

  /** After every put, whatever the clock and the listing, the files are within both limits. */
  lemma PutEndsWithinLimits(disk: Disk, key: string, data: string, now: real, keys: seq<string>, others: nat,
        lim: Limits)
    requires Lists(keys, disk[key := File(data, now)])
    ensures exists kept ::
      Covers(kept, Evict(disk[key := File(data, now)], keys, others, lim)) && Room(kept, 0, lim)
  {
    var disk' := disk[key := File(data, now)];
    var files := OldestFirst(disk', keys);
    OldestFirstFacts(disk', keys);
    SurvivorsBesideOthers(files, others, lim);
    SurvivorsAreSuffix(files, others, lim);
    var c :| 0 <= c <= |files| && Survivors(files, others, lim) == files[c..];
    SuffixCovers(files, disk', c);
  }

  ghost predicate SuffixCovered(order: seq<Entry>, disk: Disk) {
    Covers(order, Restrict(disk, order))
  }

  lemma {:induction false} SuffixCovers(order: seq<Entry>, disk: Disk, c: nat)
    requires Covers(order, disk) && c <= |order|
    ensures SuffixCovered(order[c..], disk)
  {
    if c == 0 {
      assert order[0..] == order;
      CoversRestrict(order, disk);
    } else {
      var rest := order[1..];
      TailCovers(order, disk);
      SuffixCovers(rest, Restrict(disk, rest), c - 1);
      RestrictTwice(disk, order, c);
      assert order[c..] == rest[c - 1..];
    }
  }

  // ----- whole runs -----------------------------------------------------------------------------

  datatype Op =
    | Write(key: string, data: string, now: real, keys: seq<string>, others: nat)
    | Read(key: string, now: real)

  /** One operation takes the disk from `before` to `after`, for some listing of the directory. */
  ghost predicate Moves(op: Op, before: Disk, after: Disk, lim: Limits) {
    match op
    case Write(key, data, now, keys, others) =>
      Lists(keys, before[key := File(data, now)]) && after == Evict(before[key := File(data, now)], keys, others, lim)
    case Read(key, now) => after == Get(before, key, now, lim).1
  }

  /** `disks` are the directory's contents before each operation, and after the last. */
  ghost predicate Run(ops: seq<Op>, disks: seq<Disk>, lim: Limits) {
    && |disks| == |ops| + 1
    && disks[0] == map[]
    && forall n | 0 <= n < |ops| :: Moves(ops[n], disks[n], disks[n + 1], lim)
  }

  function AnswerAt(ops: seq<Op>, disks: seq<Disk>, lim: Limits, n: nat): Answer
    requires n < |ops| && n < |disks|
  {
    match ops[n]
    case Write(_, _, _, _, _) => Miss
    case Read(key, now) => Get(disks[n], key, now, lim).0
  }

  /** The abstract list after one operation, with the abstract answer. */
  function LruStep(order: seq<Entry>, op: Op, lim: Limits): (Answer, seq<Entry>) {
    match op
    case Write(key, data, now, _, others) => (Miss, LruPut(order, key, data, now, others, lim))
    case Read(key, now) => LruGet(order, key, now, lim)
  }

  function OrderAt(ops: seq<Op>, lim: Limits, n: nat): seq<Entry>
    requires n <= |ops|
  {
    if n == 0 then [] else LruStep(OrderAt(ops, lim, n - 1), ops[n - 1], lim).1
  }

  ghost predicate ClockTicks(ops: seq<Op>) {
    forall i, j | 0 <= i < j < |ops| :: ops[i].now < ops[j].now
  }

  lemma StepRefines(order: seq<Entry>, op: Op, before: Disk, after: Disk, next: real, lim: Limits)
    requires Tracks(order, before, op.now) && op.now < next && Moves(op, before, after, lim)
    ensures Tracks(LruStep(order, op, lim).1, after, next)
    ensures op.Read? ==> LruStep(order, op, lim).0 == Get(before, op.key, op.now, lim).0
  {
    match op
    case Write(key, data, now, keys, others) =>
      PutRefines(order, before, key, data, now, next, keys, others, lim);
    case Read(key, now) =>
      GetRefines(order, before, key, now, next, lim);
  }

  lemma {:induction false} OrderTracks(ops: seq<Op>, disks: seq<Disk>, lim: Limits, n: nat, next: real)
    requires Run(ops, disks, lim) && ClockTicks(ops) && n <= |ops|
    requires n > 0 ==> ops[n - 1].now < next
    ensures Tracks(OrderAt(ops, lim, n), disks[n], next)
  {
    if n == 0 {
      assert KeysOf([]) == {};
    } else {
      var op := ops[n - 1];
      assert n > 1 ==> ops[n - 2].now < op.now;
      OrderTracks(ops, disks, lim, n - 1, op.now);
      StepRefines(OrderAt(ops, lim, n - 1), op, disks[n - 1], disks[n], next, lim);
    }
  }

  /** Over any run whose clock moves between operations, whatever order the directory lists its
      files in, the cache answers exactly as a least-recently-used list would. */
  lemma CacheIsLruList(ops: seq<Op>, disks: seq<Disk>, lim: Limits, n: nat)
    requires Run(ops, disks, lim) && ClockTicks(ops) && n < |ops|
    ensures AnswerAt(ops, disks, lim, n) == LruStep(OrderAt(ops, lim, n), ops[n], lim).0
    ensures Covers(OrderAt(ops, lim, n), disks[n])
  {
    assert n > 0 ==> ops[n - 1].now < ops[n].now;
    OrderTracks(ops, disks, lim, n, ops[n].now);
    StepRefines(OrderAt(ops, lim, n), ops[n], disks[n], disks[n + 1], ops[n].now + 1.0, lim);
  }

  // ----- what a hit returns -------------------------------------------------------------------------

  /** What the history says about `key` before operation `n`: the data last put under it and the
      time of the last operation that named it. */
  function Remembered(ops: seq<Op>, key: string, n: nat): Option<File>
    requires n <= |ops|
  {
    if n == 0 then None
    else
      var op := ops[n - 1];
      if op.key != key then Remembered(ops, key, n - 1)
      else if op.Write? then Some(File(op.data, op.now))
      else match Remembered(ops, key, n - 1)
        case None => None
        case Some(file) => Some(file.(mtime := op.now))
  }

  lemma PutKeepsOthers(op: Op, before: Disk, after: Disk, lim: Limits, key: string)
    requires Moves(op, before, after, lim) && key in after
    ensures if op.key == key
      then if op.Write? then after[key] == File(op.data, op.now)
        else key in before && after[key] == before[key].(mtime := op.now)
      else key in before && after[key] == before[key]
  {
  }

  lemma {:induction false} DiskIsRemembered(ops: seq<Op>, disks: seq<Disk>, lim: Limits, n: nat, key: string)
    requires Run(ops, disks, lim) && n <= |ops| && key in disks[n]
    ensures Remembered(ops, key, n) == Some(disks[n][key])
  {
    if n > 0 {
      PutKeepsOthers(ops[n - 1], disks[n - 1], disks[n], lim, key);
      if !(ops[n - 1].key == key && ops[n - 1].Write?) {
        DiskIsRemembered(ops, disks, lim, n - 1, key);
      }
    }
  }

  /** Over any run, whatever the clock does, a read hits if and only if the file is still there and was
      last used at most `ttl` seconds ago, and then returns the data last put under the key. */
  lemma ReadsFollowHistory(ops: seq<Op>, disks: seq<Disk>, lim: Limits, n: nat)
    requires Run(ops, disks, lim) && n < |ops| && ops[n].Read?
    ensures AnswerAt(ops, disks, lim, n) ==
      match Remembered(ops, ops[n].key, n)
      case None => Miss
      case Some(file) =>
        if ops[n].key in disks[n] && ops[n].now - file.mtime <= lim.ttl as real then Hit(file.data) else Miss
  {
    if ops[n].key in disks[n] {
      DiskIsRemembered(ops, disks, lim, n, ops[n].key);
    }
  }

  /** Over any run, whatever the clock does, a hit returns the data last put under that key, and
      the entry had not expired since it was last used. */
  lemma HitsAreLastPut(ops: seq<Op>, disks: seq<Disk>, lim: Limits, n: nat)
    requires Run(ops, disks, lim) && n < |ops| && AnswerAt(ops, disks, lim, n).Hit?
    ensures match Remembered(ops, ops[n].key, n)
      case None => false
      case Some(file) =>
        AnswerAt(ops, disks, lim, n) == Hit(file.data) && ops[n].now - file.mtime <= lim.ttl as real
  {
    DiskIsRemembered(ops, disks, lim, n, ops[n].key);
  }
}
