/** Python's stable `sorted` / `list.sort`, specified by insertion. */
module Sorting {

  ghost predicate TotalPreorder<T(!new)>(le: (T, T) -> bool) {
    && (forall x, y :: le(x, y) || le(y, x))
    && (forall x, y, z :: le(x, y) && le(y, z) ==> le(x, z))
  }

  ghost predicate SortedBy<T>(le: (T, T) -> bool, s: seq<T>) {
    forall i, j | 0 <= i < j < |s| :: le(s[i], s[j])
  }

  /** Inserts `x`, which stood before every element of `s`, in front of its equals. */
  function Insert<T>(x: T, s: seq<T>, le: (T, T) -> bool): seq<T> {
    if s == [] || le(x, s[0]) then [x] + s else [s[0]] + Insert(x, s[1..], le)
  }

  function Sort<T>(s: seq<T>, le: (T, T) -> bool): seq<T> {
    if s == [] then [] else Insert(s[0], Sort(s[1..], le), le)
  }

  /** The elements of `s` that `p` selects, in order. */
  function Filter<T>(s: seq<T>, p: T -> bool): seq<T> {
    if s == [] then []
    else if p(s[0]) then [s[0]] + Filter(s[1..], p)
    else Filter(s[1..], p)
  }

  lemma {:induction false} FilterMembers<T>(s: seq<T>, p: T -> bool)
    ensures forall x :: x in Filter(s, p) <==> x in s && p(x)
  {
    if s != [] {
      FilterMembers(s[1..], p);
      assert s == [s[0]] + s[1..];
    }
  }

  /** `keep` are the positions from `lo` on whose elements `p` selects, ascending. */
  ghost predicate Picks<T>(keep: seq<nat>, s: seq<T>, p: T -> bool, lo: nat) {
    && (forall a, b | 0 <= a < b < |keep| :: keep[a] < keep[b])
    && (forall i: nat :: i in keep <==> lo <= i < |s| && p(s[i]))
  }

  lemma PicksFirst<T>(keep: seq<nat>, s: seq<T>, p: T -> bool, lo: nat)
    requires lo < |s| && Picks(keep, s, p, lo + 1)
    ensures Picks(if p(s[lo]) then [lo] + keep else keep, s, p, lo)
  {
    forall k | 0 <= k < |keep| ensures lo < keep[k] {
      assert keep[k] in keep;
    }
  }

  /** `chosen` are the elements at the positions `keep`. */
  ghost predicate Yields<T>(chosen: seq<T>, s: seq<T>, keep: seq<nat>) {
    |chosen| == |keep| && forall k | 0 <= k < |keep| :: keep[k] < |s| && chosen[k] == s[keep[k]]
  }

  lemma FilterFrom<T>(s: seq<T>, p: T -> bool, lo: nat)
    requires lo < |s|
    ensures Filter(s[lo..], p) == (if p(s[lo]) then [s[lo]] else []) + Filter(s[lo + 1..], p)
  {
    assert s[lo..][0] == s[lo] && s[lo..][1..] == s[lo + 1..];
  }

  lemma YieldsFirst<T>(chosen: seq<T>, s: seq<T>, keep: seq<nat>, lo: nat, taken: bool)
    requires lo < |s| && Yields(chosen, s, keep)
    ensures Yields((if taken then [s[lo]] else []) + chosen, s, if taken then [lo] + keep else keep)
  {
  }

  /** Filtering takes exactly the selected positions, in order. */
  lemma {:induction false} FilterPicks<T>(s: seq<T>, p: T -> bool, lo: nat) returns (keep: seq<nat>)
    requires lo <= |s|
    ensures Picks(keep, s, p, lo) && Yields(Filter(s[lo..], p), s, keep)
    decreases |s| - lo
  {
    if lo == |s| {
      keep := [];
    } else {
      var later := FilterPicks(s, p, lo + 1);
      PicksFirst(later, s, p, lo);
      FilterFrom(s, p, lo);
      YieldsFirst(Filter(s[lo + 1..], p), s, later, lo, p(s[lo]));
      keep := if p(s[lo]) then [lo] + later else later;
    }
  }

  lemma {:induction false} InsertPermutes<T>(x: T, s: seq<T>, le: (T, T) -> bool)
    ensures multiset(Insert(x, s, le)) == multiset(s) + multiset{x}
  {
    if s == [] || le(x, s[0]) {
    } else {
      InsertPermutes(x, s[1..], le);
      assert s == [s[0]] + s[1..];
    }
  }

  /** Sorting permutes. */
  lemma {:induction false} SortPermutes<T>(s: seq<T>, le: (T, T) -> bool)
    ensures multiset(Sort(s, le)) == multiset(s)
    ensures |Sort(s, le)| == |s|
  {
    if s != [] {
      SortPermutes(s[1..], le);
      InsertPermutes(s[0], Sort(s[1..], le), le);
      assert s == [s[0]] + s[1..];
      assert |multiset(Sort(s, le))| == |multiset(s)|;
    }
  }

  lemma SortMembers<T>(s: seq<T>, le: (T, T) -> bool)
    ensures forall x :: x in Sort(s, le) <==> x in s
  {
    SortPermutes(s, le);
    assert forall x :: x in Sort(s, le) <==> x in multiset(Sort(s, le));
  }

  lemma {:induction false} InsertSorted<T(!new)>(x: T, s: seq<T>, le: (T, T) -> bool)
    requires TotalPreorder(le) && SortedBy(le, s)
    ensures SortedBy(le, Insert(x, s, le))
  {
    if s == [] {
    } else if le(x, s[0]) {
      assert forall j | 0 <= j < |s| :: le(x, s[j]);
    } else {
      InsertSorted(x, s[1..], le);
      InsertPermutes(x, s[1..], le);
      var t := Insert(x, s[1..], le);
      forall j | 0 <= j < |t| ensures le(s[0], t[j]) {
        assert t[j] in multiset(t);
        assert t[j] == x || t[j] in s[1..];
      }
    }
  }

  /** Sorting sorts. */
  lemma {:induction false} SortSorted<T(!new)>(s: seq<T>, le: (T, T) -> bool)
    requires TotalPreorder(le)
    ensures SortedBy(le, Sort(s, le))
  {
    if s != [] {
      SortSorted(s[1..], le);
      InsertSorted(s[0], Sort(s[1..], le), le);
    }
  }

  /** A sorted sequence is left alone. */
  lemma {:induction false} SortFixed<T>(s: seq<T>, le: (T, T) -> bool)
    requires SortedBy(le, s)
    ensures Sort(s, le) == s
  {
    if s != [] {
      SortFixed(s[1..], le);
      assert |s| > 1 ==> le(s[0], s[1]);
      assert s == [s[0]] + s[1..];
    }
  }

  lemma {:induction false} InsertStable<T(!new)>(x: T, s: seq<T>, le: (T, T) -> bool, e: T)
    requires TotalPreorder(le) && SortedBy(le, s)
    ensures var eq := y => le(y, e) && le(e, y); Filter(Insert(x, s, le), eq) == Filter([x] + s, eq)
  {
    var eq := y => le(y, e) && le(e, y);
    if s == [] || le(x, s[0]) {
    } else {
      InsertStable(x, s[1..], le, e);
      assert Insert(x, s, le)[1..] == Insert(x, s[1..], le);
      assert ([x] + s)[1..] == s && ([x] + s[1..])[1..] == s[1..];
      assert !(eq(x) && eq(s[0]));
    }
  }

  /** Elements that compare equal keep their original order. */
  lemma {:induction false} SortStable<T(!new)>(s: seq<T>, le: (T, T) -> bool, e: T)
    requires TotalPreorder(le)
    ensures var eq := y => le(y, e) && le(e, y); Filter(Sort(s, le), eq) == Filter(s, eq)
  {
    if s != [] {
      SortSorted(s[1..], le);
      InsertStable(s[0], Sort(s[1..], le), le, e);
      SortStable(s[1..], le, e);
      assert ([s[0]] + Sort(s[1..], le))[1..] == Sort(s[1..], le);
    }
  }

  lemma FirstIsLeast<T>(a: seq<T>, le: (T, T) -> bool, x: T)
    requires SortedBy(le, a) && x in multiset(a)
    ensures x == a[0] || le(a[0], x)
  {
    assert x in a;
  }

  /** No two different members compare equal. */
  ghost predicate Antisymmetric<T>(le: (T, T) -> bool, members: multiset<T>) {
    forall x, y | x in members && y in members && le(x, y) && le(y, x) :: x == y
  }

  lemma DropFirst<T>(a: seq<T>, le: (T, T) -> bool)
    requires a != [] && SortedBy(le, a) && Antisymmetric(le, multiset(a))
    ensures multiset(a[1..]) == multiset(a) - multiset{a[0]}
    ensures SortedBy(le, a[1..]) && Antisymmetric(le, multiset(a[1..]))
  {
    assert a == [a[0]] + a[1..];
  }

  lemma SameFirst<T>(a: seq<T>, b: seq<T>, le: (T, T) -> bool)
    requires SortedBy(le, a) && SortedBy(le, b) && multiset(a) == multiset(b)
    requires Antisymmetric(le, multiset(a))
    requires a != [] && b != []
    ensures a[0] == b[0]
  {
    assert a[0] in multiset(a) && b[0] in multiset(b);
    FirstIsLeast(a, le, b[0]);
    FirstIsLeast(b, le, a[0]);
  }

  lemma SameLength<T>(a: seq<T>, b: seq<T>)
    requires multiset(a) == multiset(b)
    ensures |a| == |b|
  {
    assert |multiset(a)| == |a| && |multiset(b)| == |b|;
  }

  lemma SameRest<T>(a: seq<T>, b: seq<T>, le: (T, T) -> bool)
    requires SortedBy(le, a) && SortedBy(le, b) && multiset(a) == multiset(b)
    requires Antisymmetric(le, multiset(a))
    requires a != [] && b != []
    ensures a[0] == b[0] && multiset(a[1..]) == multiset(b[1..])
    ensures SortedBy(le, a[1..]) && SortedBy(le, b[1..]) && Antisymmetric(le, multiset(a[1..]))
  {
    SameFirst(a, b, le);
    DropFirst(a, le);
    DropFirst(b, le);
  }

  /** When no two different elements compare equal, there is only one sorted arrangement. */
  lemma {:induction false} SortedUnique<T>(a: seq<T>, b: seq<T>, le: (T, T) -> bool)
    requires SortedBy(le, a) && SortedBy(le, b) && multiset(a) == multiset(b)
    requires Antisymmetric(le, multiset(a))
    ensures a == b
    decreases |a|
  {
    SameLength(a, b);
    if a != [] {
      SameRest(a, b, le);
      SortedUnique(a[1..], b[1..], le);
      assert a == [a[0]] + a[1..] && b == [b[0]] + b[1..];
    }
  }
}
