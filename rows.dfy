/** Operations on the rows of a table, as the store's queries use them:
    filtering by a `where` predicate, finding the first match, counting,
    summing, ordering by a numeric column, and a skip/take window. */
module Rows {
  import opened Common

  /** The rows satisfying `p`, in store order. */
  function Filter<T>(s: seq<T>, p: T -> bool): (r: seq<T>)
    ensures |r| <= |s|
    ensures forall i :: 0 <= i < |r| ==> r[i] in s && p(r[i])
    ensures forall i :: 0 <= i < |s| && p(s[i]) ==> s[i] in r
  {
    if s == [] then []
    else if p(s[0]) then [s[0]] + Filter(s[1..], p)
    else Filter(s[1..], p)
  }

  lemma {:induction false} FilterAppend<T>(a: seq<T>, b: seq<T>, p: T -> bool)
    ensures Filter(a + b, p) == Filter(a, p) + Filter(b, p)
  {
    if a != [] {
      assert (a + b)[0] == a[0];
      assert (a + b)[1..] == a[1..] + b;
      FilterAppend(a[1..], b, p);
      if p(a[0]) {
        assert Filter(a + b, p) == [a[0]] + (Filter(a[1..], p) + Filter(b, p));
      }
    } else {
      assert a + b == b;
    }
  }

  /** Filtering with a predicate every row satisfies changes nothing. */
  lemma {:induction false} FilterAll<T>(s: seq<T>, p: T -> bool)
    requires forall i :: 0 <= i < |s| ==> p(s[i])
    ensures Filter(s, p) == s
  {
    if s != [] {
      FilterAll(s[1..], p);
    }
  }

  /** Filtering with a predicate no row satisfies leaves nothing. */
  lemma {:induction false} FilterNone<T>(s: seq<T>, p: T -> bool)
    requires forall i :: 0 <= i < |s| ==> !p(s[i])
    ensures Filter(s, p) == []
  {
    if s != [] {
      FilterNone(s[1..], p);
    }
  }

  /** A filter keeps every passing row exactly as often as the table holds
      it, and no other row. */
  lemma {:induction false} FilterCounts<T>(s: seq<T>, p: T -> bool)
    ensures forall x :: multiset(Filter(s, p))[x] == if p(x) then multiset(s)[x] else 0
  {
    if s != [] {
      FilterCounts(s[1..], p);
      assert s == [s[0]] + s[1..];
      assert multiset(s) == multiset{s[0]} + multiset(s[1..]);
      if p(s[0]) {
        assert multiset(Filter(s, p)) == multiset{s[0]} + multiset(Filter(s[1..], p));
      }
    } else {
      assert Filter(s, p) == [];
    }
  }

  /** A filter keeps the table's order: rows listed earlier sit earlier in
      the table. */
  lemma {:induction false} FilterKeepsOrder<T>(s: seq<T>, p: T -> bool, i: nat, j: nat)
    requires i < j < |Filter(s, p)|
    ensures exists a, b :: 0 <= a < b < |s| && s[a] == Filter(s, p)[i] && s[b] == Filter(s, p)[j]
  {
    var r, tail := Filter(s, p), s[1..];
    var rest := Filter(tail, p);
    if p(s[0]) && i == 0 {
      FilterFrontFirst(s, p, j);
    } else {
      var i', j' := if p(s[0]) then i - 1 else i, if p(s[0]) then j - 1 else j;
      assert r[i] == rest[i'] && r[j] == rest[j'];
      FilterKeepsOrder(tail, p, i', j');
      var a, b :| 0 <= a < b < |tail| && tail[a] == rest[i'] && tail[b] == rest[j'];
      assert s[a + 1] == tail[a] && s[b + 1] == tail[b];
    }
  }

  /** When the first row passes the filter, every later kept row comes from
      a later position. */
  lemma FilterFrontFirst<T>(s: seq<T>, p: T -> bool, j: nat)
    requires s != [] && p(s[0]) && 0 < j < |Filter(s, p)|
    ensures exists b :: 0 < b < |s| && s[0] == Filter(s, p)[0] && s[b] == Filter(s, p)[j]
  {
    var tail := s[1..];
    var rest := Filter(tail, p);
    assert Filter(s, p) == [s[0]] + rest;
    var b :| 0 <= b < |tail| && tail[b] == rest[j - 1];
    assert s[b + 1] == tail[b];
  }

  /** Number of rows satisfying `p`. */
  function Count<T>(s: seq<T>, p: T -> bool): nat {
    |Filter(s, p)|
  }

  /** Applies `f` to every row, keeping the order. */
  function MapRows<T, U>(s: seq<T>, f: T -> U): (r: seq<U>)
    ensures |r| == |s|
    ensures forall i :: 0 <= i < |s| ==> r[i] == f(s[i])
  {
    seq(|s|, i requires 0 <= i < |s| => f(s[i]))
  }

  /** The position of the first row satisfying `p` (`findFirst`). */
  function FirstIndex<T>(s: seq<T>, p: T -> bool): (r: Option<nat>)
    ensures r.Some? ==> r.value < |s| && p(s[r.value])
    ensures r.Some? ==> forall j :: 0 <= j < r.value ==> !p(s[j])
    ensures r.None? <==> forall j :: 0 <= j < |s| ==> !p(s[j])
  {
    if s == [] then None
    else if p(s[0]) then Some(0)
    else match FirstIndex(s[1..], p)
      case None => None
      case Some(k) => Some(k + 1)
  }

  /** The sum of `f` over the rows. */
  function Sum<T>(s: seq<T>, f: T -> int): int {
    if s == [] then 0 else f(s[0]) + Sum(s[1..], f)
  }

  /** With non-negative summands every row is bounded by the sum, and the sum is non-negative. */
  lemma {:induction false} SumBoundsEach<T>(s: seq<T>, f: T -> int)
    requires forall i :: 0 <= i < |s| ==> f(s[i]) >= 0
    ensures Sum(s, f) >= 0
    ensures forall i :: 0 <= i < |s| ==> f(s[i]) <= Sum(s, f)
  {
    if s != [] {
      SumBoundsEach(s[1..], f);
      forall i | 1 <= i < |s| ensures f(s[i]) <= Sum(s, f) {
        assert s[i] == s[1..][i - 1];
      }
    }
  }

  /** `a` comes no later than `b` in the requested direction. */
  predicate Precedes(a: int, b: int, ascending: bool) {
    if ascending then a <= b else b <= a
  }

  /** The rows are ordered by `key`, ascending or descending. */
  ghost predicate SortedBy<T>(s: seq<T>, key: T -> int, ascending: bool) {
    forall i, j :: 0 <= i < j < |s| ==> Precedes(key(s[i]), key(s[j]), ascending)
  }

  /** Puts `x` in front of the first row it precedes. */
  function Insert<T>(x: T, s: seq<T>, key: T -> int, ascending: bool): (r: seq<T>)
    ensures multiset(r) == multiset(s) + multiset{x}
    ensures |r| == |s| + 1
  {
    if s == [] then [x]
    else if Precedes(key(x), key(s[0]), ascending) then [x] + s
    else
      assert s == [s[0]] + s[1..];
      [s[0]] + Insert(x, s[1..], key, ascending)
  }

  lemma {:induction false} InsertSorted<T>(x: T, s: seq<T>, key: T -> int, ascending: bool)
    requires SortedBy(s, key, ascending)
    ensures SortedBy(Insert(x, s, key, ascending), key, ascending)
  {
    if s != [] && !Precedes(key(x), key(s[0]), ascending) {
      var rest := Insert(x, s[1..], key, ascending);
      InsertSorted(x, s[1..], key, ascending);
      InsertAfterHead(x, s, key, ascending);
      var r := [s[0]] + rest;
      forall i, j | 0 <= i < j < |r| ensures Precedes(key(r[i]), key(r[j]), ascending) {
        if i > 0 {
          assert r[i] == rest[i - 1] && r[j] == rest[j - 1];
        } else {
          assert r[j] == rest[j - 1];
        }
      }
    }
  }

  /** When `x` goes after the head of a sorted `s`, the head precedes
      every row of the rest with `x` inserted. */
  lemma InsertAfterHead<T>(x: T, s: seq<T>, key: T -> int, ascending: bool)
    requires SortedBy(s, key, ascending) && s != [] && !Precedes(key(x), key(s[0]), ascending)
    ensures forall j :: 0 <= j < |Insert(x, s[1..], key, ascending)| ==>
                          Precedes(key(s[0]), key(Insert(x, s[1..], key, ascending)[j]), ascending)
  {
    var rest := Insert(x, s[1..], key, ascending);
    forall j | 0 <= j < |rest| ensures Precedes(key(s[0]), key(rest[j]), ascending) {
      assert rest[j] in multiset(rest);
      if rest[j] != x {
        assert rest[j] in multiset(s[1..]);
        var k :| 0 <= k < |s[1..]| && s[1..][k] == rest[j];
        assert s[k + 1] == rest[j];
      }
    }
  }

  /** The rows ordered by `key` (`orderBy` / `$sort`): a sorted permutation of the input. */
  function SortBy<T>(s: seq<T>, key: T -> int, ascending: bool): (r: seq<T>)
    ensures SortedBy(r, key, ascending)
    ensures multiset(r) == multiset(s)
    ensures |r| == |s|
  {
    if s == [] then [] else
      var sorted := SortBy(s[1..], key, ascending);
      InsertSorted(s[0], sorted, key, ascending);
      assert s == [s[0]] + s[1..];
      Insert(s[0], sorted, key, ascending)
  }

  /** Sorting keeps exactly the rows it was given. */
  lemma SortByMembers<T>(s: seq<T>, key: T -> int, ascending: bool, x: T)
    ensures x in SortBy(s, key, ascending) <==> x in s
  {
    var r := SortBy(s, key, ascending);
    assert x in r <==> x in multiset(r);
    assert x in s <==> x in multiset(s);
  }

  /** Sorting keeps exactly the rows it was given, stated row by row. */
  lemma SortByRows<T>(s: seq<T>, key: T -> int, ascending: bool)
    ensures forall i :: 0 <= i < |SortBy(s, key, ascending)| ==> SortBy(s, key, ascending)[i] in s
    ensures forall i :: 0 <= i < |s| ==> s[i] in SortBy(s, key, ascending)
  {
    var r := SortBy(s, key, ascending);
    forall i | 0 <= i < |r| ensures r[i] in s {
      SortByMembers(s, key, ascending, r[i]);
    }
    forall i | 0 <= i < |s| ensures s[i] in r {
      SortByMembers(s, key, ascending, s[i]);
    }
  }

  function Min(a: int, b: int): int {
    if a <= b then a else b
  }

  /** `skip`/`take`: at most `take` rows starting at position `skip`. */
  function Window<T>(s: seq<T>, skip: nat, take: nat): (r: seq<T>)
    ensures |r| == if skip >= |s| then 0 else Min(take, |s| - skip)
    ensures forall i :: 0 <= i < |r| ==> r[i] == s[skip + i]
  {
    if skip >= |s| then [] else if skip + take >= |s| then s[skip..] else s[skip..skip + take]
  }

  /** Two adjacent windows make up the window that spans both: consecutive
      pages neither overlap nor leave a gap. */
  lemma {:induction false} WindowsTile<T>(s: seq<T>, skip: nat, a: nat, b: nat)
    ensures Window(s, skip, a) + Window(s, skip + a, b) == Window(s, skip, a + b)
  {
    var l, r, w := Window(s, skip, a), Window(s, skip + a, b), Window(s, skip, a + b);
    assert |l + r| == |w|;
    forall i | 0 <= i < |w| ensures (l + r)[i] == w[i] {
      if i >= |l| {
        assert (l + r)[i] == r[i - |l|];
      }
    }
  }

  /** No two rows share a value of `key`. */
  ghost predicate UniqueBy<T, K>(s: seq<T>, key: T -> K) {
    forall i, j :: 0 <= i < j < |s| ==> key(s[i]) != key(s[j])
  }

  /** Every row's `key` lies in `[lo, hi)`. */
  ghost predicate KeysWithin<T>(s: seq<T>, key: T -> int, lo: int, hi: int) {
    forall i :: 0 <= i < |s| ==> lo <= key(s[i]) < hi
  }

  /** Appending a row whose key is new keeps the keys unique. */
  lemma AppendUnique<T, K>(s: seq<T>, x: T, key: T -> K)
    requires UniqueBy(s, key)
    requires forall i :: 0 <= i < |s| ==> key(s[i]) != key(x)
    ensures UniqueBy(s + [x], key)
  {
  }

  /** Filtering out exactly the one row at position `i` shortens the table by one. */
  lemma {:induction false} FilterOne<T>(s: seq<T>, i: nat, p: T -> bool)
    requires i < |s| && !p(s[i])
    requires forall j :: 0 <= j < |s| && j != i ==> p(s[j])
    ensures |Filter(s, p)| == |s| - 1
  {
    if i == 0 {
      FilterAll(s[1..], p);
    } else {
      FilterOne(s[1..], i - 1, p);
    }
  }

  /** Removing rows keeps the keys unique. */
  lemma {:induction false} FilterUnique<T, K>(s: seq<T>, p: T -> bool, key: T -> K)
    requires UniqueBy(s, key)
    ensures UniqueBy(Filter(s, p), key)
  {
    if s != [] {
      FilterUnique(s[1..], p, key);
      if p(s[0]) {
        var r := Filter(s, p);
        forall j | 1 <= j < |r| ensures key(r[0]) != key(r[j]) {
          assert r[j] in s[1..];
        }
      }
    }
  }

  /** Removing rows keeps every key in range. */
  lemma FilterWithin<T>(s: seq<T>, p: T -> bool, key: T -> int, lo: int, hi: int)
    requires KeysWithin(s, key, lo, hi)
    ensures KeysWithin(Filter(s, p), key, lo, hi)
  {
    var r := Filter(s, p);
    forall i | 0 <= i < |r| ensures lo <= key(r[i]) < hi {
      assert r[i] in s;
    }
  }

  /** Replacing one row by a row with the same key keeps the keys unique. */
  lemma ReplaceUnique<T, K>(s: seq<T>, i: nat, x: T, key: T -> K)
    requires i < |s| && UniqueBy(s, key) && key(x) == key(s[i])
    ensures UniqueBy(s[i := x], key)
  {
  }
}
