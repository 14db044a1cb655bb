/**
 * The query shapes of the storage layer, over an in-memory table kept in
 * insertion order: filter (WHERE), first match (`.first()`), newest-first
 * ordering (ORDER BY ... DESC), and OFFSET / LIMIT.
 */
module Ordering {
  import opened Wrappers

  /** The rows of `s` that satisfy `p`, in table order. */
  function Filter<T(==)>(s: seq<T>, p: T -> bool): (r: seq<T>)
    ensures |r| <= |s|
    ensures forall x <- r :: x in s && p(x)
    ensures forall x <- s :: p(x) ==> x in r
  {
    if s == [] then [] else (if p(s[0]) then [s[0]] else []) + Filter(s[1..], p)
  }

  lemma {:induction false} FilterAppend<T>(a: seq<T>, b: seq<T>, p: T -> bool)
    ensures Filter(a + b, p) == Filter(a, p) + Filter(b, p)
  {
    if a == [] {
      assert a + b == b;
    } else {
      var x, tail := a[0], a[1..];
      assert a == [x] + tail;
      assert a + b == [x] + (tail + b);
      FilterCons(x, tail, p);
      FilterCons(x, tail + b, p);
      FilterAppend(tail, b, p);
      ConcatAssociative(if p(x) then [x] else [], Filter(tail, p), Filter(b, p));
    }
  }

  lemma ConcatAssociative<T>(a: seq<T>, b: seq<T>, c: seq<T>)
    ensures a + (b + c) == (a + b) + c
  {
  }

  /** Filtering a list with a first row decides that row and filters the rest. */
  lemma FilterCons<T>(x: T, s: seq<T>, p: T -> bool)
    ensures Filter([x] + s, p) == (if p(x) then [x] else []) + Filter(s, p)
  {
    assert ([x] + s)[1..] == s;
  }

  /** Filtering keeps every matching row as often as the table holds it, and nothing else. */
  lemma {:induction false} FilterMultiset<T>(s: seq<T>, p: T -> bool, x: T)
    ensures multiset(Filter(s, p))[x] == if p(x) then multiset(s)[x] else 0
  {
    if s != [] {
      FilterMultiset(s[1..], p, x);
      assert s == [s[0]] + s[1..];
    }
  }

  /** `FilterMultiset` for every row at once. */
  lemma FilterCounts<T>(s: seq<T>, p: T -> bool)
    ensures forall x :: multiset(Filter(s, p))[x] == if p(x) then multiset(s)[x] else 0
  {
    forall x ensures multiset(Filter(s, p))[x] == if p(x) then multiset(s)[x] else 0 {
      FilterMultiset(s, p, x);
    }
  }

  /** Two conditions that agree on every row select the same rows. */
  lemma {:induction false} FilterCongruent<T>(s: seq<T>, p: T -> bool, q: T -> bool)
    requires forall x <- s :: p(x) == q(x)
    ensures Filter(s, p) == Filter(s, q)
  {
    if s != [] {
      assert s[0] in s;
      FilterCongruent(s[1..], p, q);
    }
  }

  /** The first row of `s` that satisfies `p`. */
  function First<T(==)>(s: seq<T>, p: T -> bool): (r: Option<T>)
    ensures r.Some? ==> r.value in s && p(r.value)
    ensures r.None? <==> forall x <- s :: !p(x)
  {
    if s == [] then None else if p(s[0]) then Some(s[0]) else First(s[1..], p)
  }

  /** `.first()` is the head of the filtered table. */
  lemma {:induction false} FirstIsHeadOfFilter<T>(s: seq<T>, p: T -> bool)
    ensures First(s, p) == if Filter(s, p) == [] then None else Some(Filter(s, p)[0])
  {
    if s != [] && !p(s[0]) {
      FirstIsHeadOfFilter(s[1..], p);
    }
  }

  /** A sort key; PostgreSQL places NULL above every value, so a descending sort lists NULLs first. */
  datatype SortKey = Null | At(t: int)

  predicate KeyLe(a: SortKey, b: SortKey)
  {
    match b
    case Null => true
    case At(y) => a.At? && a.t <= y
  }

  lemma KeyLeTotal(a: SortKey, b: SortKey)
    ensures KeyLe(a, b) || KeyLe(b, a)
  {
  }

  lemma KeyLeTransitive(a: SortKey, b: SortKey, c: SortKey)
    requires KeyLe(a, b) && KeyLe(b, c)
    ensures KeyLe(a, c)
  {
  }

  /** Every row's key is at most the key of every row before it. */
  predicate NewestFirst<T>(s: seq<T>, key: T -> SortKey)
  {
    forall i, j :: 0 <= i < j < |s| ==> KeyLe(key(s[j]), key(s[i]))
  }

  /** Puts `x` into a newest-first list, ahead of the rows whose key does not exceed its own. */
  function Insert<T(==)>(x: T, s: seq<T>, key: T -> SortKey): (r: seq<T>)
    ensures multiset(r) == multiset(s) + multiset{x}
    ensures NewestFirst(s, key) ==> NewestFirst(r, key)
  {
    if s == [] || KeyLe(key(s[0]), key(x)) then
      InsertAhead(x, s, key);
      [x] + s
    else
      var rest := Insert(x, s[1..], key);
      InsertBehind(x, s, rest, key);
      [s[0]] + rest
  }

  /** A row whose key is at least the head's may go first. */
  lemma InsertAhead<T>(x: T, s: seq<T>, key: T -> SortKey)
    requires s == [] || KeyLe(key(s[0]), key(x))
    ensures NewestFirst(s, key) ==> NewestFirst([x] + s, key)
  {
    var r := [x] + s;
    if NewestFirst(s, key) && s != [] {
      forall j | 1 <= j < |r| ensures KeyLe(key(r[j]), key(x)) {
        if j > 1 { KeyLeTransitive(key(r[j]), key(s[0]), key(x)); }
      }
    }
  }

  /** A row whose key is below the head's goes after it, into the rest of the list. */
  lemma InsertBehind<T>(x: T, s: seq<T>, rest: seq<T>, key: T -> SortKey)
    requires s != [] && !KeyLe(key(s[0]), key(x))
    requires multiset(rest) == multiset(s[1..]) + multiset{x}
    requires NewestFirst(s[1..], key) ==> NewestFirst(rest, key)
    ensures multiset([s[0]] + rest) == multiset(s) + multiset{x}
    ensures NewestFirst(s, key) ==> NewestFirst([s[0]] + rest, key)
  {
    var r := [s[0]] + rest;
    assert s == [s[0]] + s[1..];
    if NewestFirst(s, key) {
      SliceNewestFirst(s, key, 1, |s|);
      KeyLeTotal(key(s[0]), key(x));
      forall j | 1 <= j < |r| ensures KeyLe(key(r[j]), key(s[0])) {
        var y := r[j];
        assert y in multiset(rest);
        if y != x {
          assert y in multiset(s[1..]);
          var k :| 0 <= k < |s[1..]| && s[1..][k] == y;
          assert s[k + 1] == y;
        }
      }
    }
  }

  /** Newest first, keeping table order among equal keys (the order PostgreSQL leaves unspecified). */
  function SortNewestFirst<T(==)>(s: seq<T>, key: T -> SortKey): (r: seq<T>)
    ensures multiset(r) == multiset(s)
    ensures |r| == |s|
    ensures NewestFirst(r, key)
  {
    if s == [] then []
    else
      assert s == [s[0]] + s[1..];
      Insert(s[0], SortNewestFirst(s[1..], key), key)
  }

  /** Sorting the selected rows keeps exactly the rows selected. */
  lemma SortedSelection<T>(s: seq<T>, p: T -> bool, key: T -> SortKey)
    ensures var r := SortNewestFirst(Filter(s, p), key);
      && (forall x <- r :: x in s && p(x))
      && (forall x <- s :: p(x) ==> x in r)
  {
    var f := Filter(s, p);
    var r := SortNewestFirst(f, key);
    forall x <- r ensures x in s && p(x) {
      assert x in multiset(r);
    }
    forall x <- s | p(x) ensures x in r {
      assert x in multiset(f);
    }
  }

  /** LIMIT n. */
  function Take<T>(s: seq<T>, n: nat): (r: seq<T>)
    ensures |r| == if n < |s| then n else |s|
    ensures r == s[..|r|]
  {
    if n < |s| then s[..n] else s
  }

  /** OFFSET n. */
  function Drop<T>(s: seq<T>, n: nat): (r: seq<T>)
    ensures |r| == if n < |s| then |s| - n else 0
    ensures r == s[|s| - |r|..]
  {
    if n < |s| then s[n..] else []
  }

  /**
   * The newest `n` rows: sorted, as many as asked for or as there are, drawn from `s`,
   * and no row left out is newer than a row returned.
   */
  lemma NewestFirstTake<T>(s: seq<T>, key: T -> SortKey, n: nat)
    ensures var r := Take(SortNewestFirst(s, key), n);
      && NewestFirst(r, key)
      && |r| == (if n < |s| then n else |s|)
      && multiset(r) <= multiset(s)
      && forall x, y :: x in r && y in multiset(s) - multiset(r) ==> KeyLe(key(y), key(x))
  {
    var sorted := SortNewestFirst(s, key);
    var r := Take(sorted, n);
    assert |sorted| == |s| by {
      assert |multiset(sorted)| == |multiset(s)|;
    }
    PrefixOfNewestFirst(sorted, key, |r|);
  }

  /** A prefix of a newest-first list is newest first, and no row after it is newer than a row in it. */
  lemma PrefixOfNewestFirst<T>(sorted: seq<T>, key: T -> SortKey, k: nat)
    requires k <= |sorted| && NewestFirst(sorted, key)
    ensures var r := sorted[..k];
      && NewestFirst(r, key)
      && multiset(r) <= multiset(sorted)
      && forall x, y :: x in r && y in multiset(sorted) - multiset(r) ==> KeyLe(key(y), key(x))
  {
    var r, rest := sorted[..k], sorted[k..];
    SliceNewestFirst(sorted, key, 0, k);
    assert sorted == r + rest;
    assert multiset(sorted) == multiset(r) + multiset(rest);
    forall x, y | x in r && y in multiset(sorted) - multiset(r) ensures KeyLe(key(y), key(x)) {
      assert y in multiset(rest);
      var i :| 0 <= i < |r| && r[i] == x;
      var j :| 0 <= j < |rest| && rest[j] == y;
      assert sorted[i] == x && sorted[k + j] == y;
    }
  }

  /** A contiguous run of a newest-first list is newest first. */
  lemma SliceNewestFirst<T>(s: seq<T>, key: T -> SortKey, a: nat, b: nat)
    requires a <= b <= |s|
    requires NewestFirst(s, key)
    ensures NewestFirst(s[a..b], key)
  {
    var r := s[a..b];
    forall i, j | 0 <= i < j < |r| ensures KeyLe(key(r[j]), key(r[i])) {
      assert r[i] == s[a + i] && r[j] == s[a + j];
    }
  }

  /** OFFSET `skip` LIMIT `limit` of a newest-first listing is a contiguous run of it. */
  lemma NewestFirstPage<T>(s: seq<T>, key: T -> SortKey, skip: nat, limit: nat)
    ensures var sorted := SortNewestFirst(s, key);
      var r := Take(Drop(sorted, skip), limit);
      && NewestFirst(r, key)
      && |r| == (if skip >= |s| then 0 else if limit < |s| - skip then limit else |s| - skip)
      && multiset(r) <= multiset(s)
      && (skip < |s| ==> RunAt(r, sorted, skip))
  {
    var sorted := SortNewestFirst(s, key);
    PageOfNewestFirst(sorted, key, skip, limit);
    assert multiset(sorted) == multiset(s);
  }

  /** A sub-multiset as large as the whole is the whole. */
  lemma MultisetSubEqual<T>(a: multiset<T>, b: multiset<T>)
    requires a <= b && |a| == |b|
    ensures a == b
  {
    var d := b - a;
    assert b == a + d;
    assert |d| == 0;
  }

  /** `r` is the contiguous run of `s` that starts at index `at`. */
  predicate RunAt<T(==)>(r: seq<T>, s: seq<T>, at: nat)
  {
    at + |r| <= |s| && r == s[at..at + |r|]
  }

  /** ORDER BY key DESC OFFSET `skip` LIMIT `limit`. */
  function Page<T(==)>(s: seq<T>, key: T -> SortKey, skip: nat, limit: nat): (r: seq<T>)
    ensures NewestFirst(r, key)
    ensures |r| == (if skip >= |s| then 0 else if limit < |s| - skip then limit else |s| - skip)
    ensures multiset(r) <= multiset(s)
    ensures skip < |s| ==> RunAt(r, SortNewestFirst(s, key), skip)
  {
    NewestFirstPage(s, key, skip, limit);
    Take(Drop(SortNewestFirst(s, key), skip), limit)
  }

  /** The page of a newest-first list that OFFSET and LIMIT select. */
  lemma PageOfNewestFirst<T>(sorted: seq<T>, key: T -> SortKey, skip: nat, limit: nat)
    requires NewestFirst(sorted, key)
    ensures var r := Take(Drop(sorted, skip), limit);
      && NewestFirst(r, key)
      && |r| == (if skip >= |sorted| then 0 else if limit < |sorted| - skip then limit else |sorted| - skip)
      && multiset(r) <= multiset(sorted)
      && (skip < |sorted| ==> RunAt(r, sorted, skip))
  {
    var d := Drop(sorted, skip);
    var r := Take(d, limit);
    var a := |sorted| - |d|;
    assert d == sorted[a..];
    assert r == sorted[a..a + |r|];
    SliceNewestFirst(sorted, key, a, a + |r|);
    assert sorted == sorted[..a] + r + sorted[a + |r|..];
    assert multiset(sorted) == multiset(sorted[..a]) + multiset(r) + multiset(sorted[a + |r|..]);
  }
}
