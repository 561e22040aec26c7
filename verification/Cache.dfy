/** The file cache: time to live, least-recently-used eviction, and what a hit may return. */
module Cache {
  import opened Sorting

  datatype File = File(data: string, mtime: real)

  type Disk = map<string, File>

  datatype Entry = Entry(key: string, file: File)

  datatype Limits = Limits(ttl: int, maxBytes: nat, maxFiles: nat)

  datatype Answer = Miss | Hit(data: string)

  // ----- eviction ------------------------------------------------------------------------------

  predicate ByMtime(a: Entry, b: Entry) {
    a.file.mtime <= b.file.mtime
  }

  function Bytes(files: seq<Entry>): nat {
    if files == [] then 0 else |files[0].file.data| + Bytes(files[1..])
  }

  /** Room for these files beside `others` directory entries that are not files. */
  predicate Room(files: seq<Entry>, others: nat, lim: Limits) {
    |files| + others <= lim.maxFiles && Bytes(files) <= lim.maxBytes
  }

  /** Deletes from the front, at least once, until the rest has room. */
  function Trim(files: seq<Entry>, others: nat, lim: Limits): seq<Entry> {
    if files == [] then []
    else if Room(files[1..], others, lim) then files[1..]
    else Trim(files[1..], others, lim)
  }

  /** What eviction leaves of the files, given oldest first.  The test for starting looks at files
      only; the test for stopping counts every directory entry. */
  function Survivors(files: seq<Entry>, others: nat, lim: Limits): seq<Entry> {
    if Room(files, 0, lim) then files else Trim(files, others, lim)
  }

  function EntriesOf(disk: Disk, keys: seq<string>): (es: seq<Entry>)
    requires forall k | k in keys :: k in disk
    ensures |es| == |keys| && forall i | 0 <= i < |keys| :: es[i] == Entry(keys[i], disk[keys[i]])
  {
    seq(|keys|, i requires 0 <= i < |keys| => Entry(keys[i], disk[keys[i]]))
  }

  function KeysOf(es: seq<Entry>): set<string> {
    set e | e in es :: e.key
  }

  /** The part of the disk that `es` names. */
  function Restrict(disk: Disk, es: seq<Entry>): Disk {
    map k | k in disk && k in KeysOf(es) :: disk[k]
  }

  ghost predicate DistinctKeys(es: seq<Entry>) {
    es != [] ==> es[0].key !in KeysOf(es[1..]) && DistinctKeys(es[1..])
  }

  /** `keys` lists the directory's files, in whatever order the file system gives them. */
  ghost predicate Lists(keys: seq<string>, disk: Disk) {
    && (forall k :: k in keys <==> k in disk)
    && (forall i, j | 0 <= i < j < |keys| :: keys[i] != keys[j])
  }

  /** The files oldest first, as `_evict_if_needed` sorts the listing. */
  function OldestFirst(disk: Disk, keys: seq<string>): seq<Entry>
    requires forall k | k in keys :: k in disk
  {
    Sort(EntriesOf(disk, keys), ByMtime)
  }

  // ----- operations on the disk ------------------------------------------------------------------

  predicate Expired(file: File, now: real, lim: Limits) {
    now - file.mtime > lim.ttl as real
  }

  function Evict(disk: Disk, keys: seq<string>, others: nat, lim: Limits): Disk
    requires forall k | k in keys :: k in disk
  {
    Restrict(disk, Survivors(OldestFirst(disk, keys), others, lim))
  }

  /** `is_cached`: whether a live file is there; an expired one is deleted. */
  function Look(disk: Disk, key: string, now: real, lim: Limits): (bool, Disk) {
    if key !in disk then (false, disk)
    else if Expired(disk[key], now, lim) then (false, disk - {key})
    else (true, disk)
  }

  function Get(disk: Disk, key: string, now: real, lim: Limits): (Answer, Disk) {
    var (live, disk') := Look(disk, key, now, lim);
    if live && key in disk' then (Hit(disk'[key].data), disk'[key := disk'[key].(mtime := now)]) else (Miss, disk')
  }

  class FileCache {
    const lim: Limits
    var disk: Disk
    var hits: nat
    var misses: nat
    var writes: nat
    var evictions: nat

    constructor (lim: Limits)
      ensures this.lim == lim && disk == map[] && hits == misses == writes == evictions == 0
    {
      this.lim := lim;
      disk := map[];
      hits, misses, writes, evictions := 0, 0, 0, 0;
    }

    method IsCached(key: string, now: real) returns (live: bool)
      modifies this`disk
      ensures (live, disk) == Look(old(disk), key, now, lim)
    {
      if key !in disk {
        return false;
      }
      if now - disk[key].mtime > lim.ttl as real {
        disk := disk - {key};
        return false;
      }
      return true;
    }

    method GetCache(key: string, now: real) returns (answer: Answer)
      modifies this
      ensures (answer, disk) == Get(old(disk), key, now, lim)
      ensures hits == old(hits) + (if answer.Hit? then 1 else 0)
      ensures misses == old(misses) + (if answer.Miss? then 1 else 0)
      ensures writes == old(writes) && evictions == old(evictions)
    {
      var live := IsCached(key, now);
      if !live {
        misses := misses + 1;
        return Miss;
      }
      disk := disk[key := disk[key].(mtime := now)];
      hits := hits + 1;
      return Hit(disk[key].data);
    }

    /** `keys` is the order in which the directory happens to list its files; `others` counts its
        entries that are not files. */
    method EvictIfNeeded(keys: seq<string>, others: nat)
      requires Lists(keys, disk)
      modifies this`disk, this`evictions
      ensures disk == Evict(old(disk), keys, others, lim)
      ensures evictions == old(evictions) + |old(disk)| - |disk|
    {
      var files := OldestFirst(disk, keys);
      OldestFirstFacts(disk, keys);
      if |files| <= lim.maxFiles && Bytes(files) <= lim.maxBytes {
        return;
      }
      TrimFiles(files, others);
    }

    /** The eviction loop over the files, oldest first. */
    method TrimFiles(files: seq<Entry>, others: nat)
      requires Covers(files, disk)
      modifies this`disk, this`evictions
      ensures disk == Restrict(old(disk), Trim(files, others, lim))
      ensures evictions == old(evictions) + |old(disk)| - |disk|
    {
      ghost var was := disk;
      CoversRestrict(files, disk);
      var total, todo := Bytes(files), files;
      while todo != []
        invariant Remaining(disk, was, todo) && |todo| <= |files|
        invariant total == Bytes(todo) && Trim(todo, others, lim) == Trim(files, others, lim)
        invariant evictions == old(evictions) + |files| - |todo|
        decreases |todo|
      {
        var oldest := todo[0];
        DropOldest(disk, was, todo, others, lim);
        disk := disk - {oldest.key};
        evictions := evictions + 1;
        total := total - |oldest.file.data|;
        todo := todo[1..];
        if |disk| + others <= lim.maxFiles && total <= lim.maxBytes {
          break;
        }
      }
      assert todo == Trim(files, others, lim);
    }

    /** `data` is written atomically, then the directory is trimmed. */
    method PutCache(key: string, data: string, now: real, keys: seq<string>, others: nat)
      requires Lists(keys, disk[key := File(data, now)])
      modifies this
      ensures disk == Evict(old(disk)[key := File(data, now)], keys, others, lim)
      ensures writes == old(writes) + 1 && hits == old(hits) && misses == old(misses)
      ensures evictions == old(evictions) + |old(disk)[key := File(data, now)]| - |disk|
    {
      disk := disk[key := File(data, now)];
      writes := writes + 1;
      EvictIfNeeded(keys, others);
    }
  }

  /** `disk` is what is left of `was` when only `files` remain. */
  ghost predicate Remaining(disk: Disk, was: Disk, files: seq<Entry>) {
    && DistinctKeys(files)
    && (forall e | e in files :: e.key in was)
    && disk == Restrict(was, files)
    && |disk| == |files|
  }

  lemma KeysStep(files: seq<Entry>)
    requires files != []
    ensures KeysOf(files) == {files[0].key} + KeysOf(files[1..])
  {
    assert files == [files[0]] + files[1..];
  }

  lemma DropOldest(disk: Disk, was: Disk, files: seq<Entry>, others: nat, lim: Limits)
    requires files != [] && Remaining(disk, was, files)
    ensures files[0].key in disk
    ensures Remaining(disk - {files[0].key}, was, files[1..])
    ensures Bytes(files) == |files[0].file.data| + Bytes(files[1..])
    ensures Trim(files, others, lim) ==
      (if Room(files[1..], others, lim) then files[1..] else Trim(files[1..], others, lim))
  {
    KeysStep(files);
    assert files[0] in files;
    var d := disk - {files[0].key};
    assert d == Restrict(was, files[1..]);
    assert disk == d[files[0].key := disk[files[0].key]];
  }

  ghost predicate Members(files: seq<Entry>, disk: Disk) {
    forall e | e in files :: e.key in disk && e.file == disk[e.key]
  }

  /** `files` is exactly the content of the disk, each file once. */
  ghost predicate Covers(files: seq<Entry>, disk: Disk) {
    && DistinctKeys(files)
    && Members(files, disk)
    && KeysOf(files) == disk.Keys
    && |files| == |disk|
  }

  lemma CoversRestrict(files: seq<Entry>, disk: Disk)
    requires Covers(files, disk)
    ensures Restrict(disk, files) == disk
  {
  }

  lemma OldestFirstFacts(disk: Disk, keys: seq<string>)
    requires Lists(keys, disk)
    ensures Covers(OldestFirst(disk, keys), disk)
    ensures Restrict(disk, OldestFirst(disk, keys)) == disk
  {
    var es, files := EntriesOf(disk, keys), OldestFirst(disk, keys);
    EntriesCover(disk, keys);
    SortPermutes(es, ByMtime);
    SortMembers(es, ByMtime);
    DistinctUnderPermutation(es, files);
    assert KeysOf(files) == KeysOf(es);
    CoversRestrict(files, disk);
  }

  lemma EntriesCover(disk: Disk, keys: seq<string>)
    requires Lists(keys, disk)
    ensures Covers(EntriesOf(disk, keys), disk)
  {
    var es := EntriesOf(disk, keys);
    EntriesDistinct(disk, keys);
    forall k | k in disk ensures k in KeysOf(es) {
      var i :| 0 <= i < |keys| && keys[i] == k;
      assert es[i] in es;
    }
    assert KeysOf(es) == disk.Keys;
    DistinctCount(es);
    assert |disk| == |disk.Keys|;
  }

  lemma {:induction false} EntriesDistinct(disk: Disk, keys: seq<string>)
    requires (forall k | k in keys :: k in disk) && forall i, j | 0 <= i < j < |keys| :: keys[i] != keys[j]
    ensures DistinctKeys(EntriesOf(disk, keys))
  {
    if keys != [] {
      EntriesDistinct(disk, keys[1..]);
      assert EntriesOf(disk, keys)[1..] == EntriesOf(disk, keys[1..]);
    }
  }

  lemma {:induction false} DistinctCount(es: seq<Entry>)
    requires DistinctKeys(es)
    ensures |KeysOf(es)| == |es|
  {
    if es != [] {
      DistinctCount(es[1..]);
      KeysStep(es);
    }
  }

  lemma DistinctUnderPermutation(a: seq<Entry>, b: seq<Entry>)
    requires DistinctKeys(a) && multiset(a) == multiset(b)
    ensures DistinctKeys(b) && KeysOf(a) == KeysOf(b)
  {
    DistinctCount(a);
    SameLength(a, b);
    assert forall e :: e in a <==> e in multiset(a);
    assert forall e :: e in b <==> e in multiset(b);
    SameKeys(a, b);
    FullCountDistinct(b);
  }

  lemma SameKeys(a: seq<Entry>, b: seq<Entry>)
    requires forall e :: e in a <==> e in b
    ensures KeysOf(a) == KeysOf(b)
  {
  }

  lemma {:induction false} FullCountDistinct(es: seq<Entry>)
    requires |KeysOf(es)| == |es|
    ensures DistinctKeys(es)
  {
    if es != [] {
      KeysStep(es);
      KeysAtMost(es[1..]);
      FullCountDistinct(es[1..]);
    }
  }

  lemma {:induction false} KeysAtMost(es: seq<Entry>)
    ensures |KeysOf(es)| <= |es|
  {
    if es != [] {
      KeysAtMost(es[1..]);
      KeysStep(es);
    }
  }
}
