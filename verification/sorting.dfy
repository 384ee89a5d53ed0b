/** ORDER BY and WHERE on in-memory tables: sorting by a key, filtering, and how they commute. */
module Sorting {
  /** Sort keys, compared lexicographically, ascending. */
  datatype Key = Key(first: int, second: int, third: int)

  predicate Le(a: Key, b: Key) {
    || a.first < b.first
    || (a.first == b.first && (a.second < b.second || (a.second == b.second && a.third <= b.third)))
  }

  function Filter<T>(p: T -> bool, s: seq<T>): seq<T> {
    if s == [] then [] else (if p(s[0]) then [s[0]] else []) + Filter(p, s[1..])
  }

  function Insert<T>(key: T -> Key, x: T, s: seq<T>): seq<T> {
    if s == [] || Le(key(x), key(s[0])) then [x] + s else [s[0]] + Insert(key, x, s[1..])
  }

  function Sort<T>(key: T -> Key, s: seq<T>): seq<T> {
    if s == [] then [] else Insert(key, s[0], Sort(key, s[1..]))
  }

  ghost predicate Sorted<T>(key: T -> Key, s: seq<T>) {
    forall i, j :: 0 <= i < j < |s| ==> Le(key(s[i]), key(s[j]))
  }

  lemma {:induction false} InsertMultiset<T>(key: T -> Key, x: T, s: seq<T>)
    ensures multiset(Insert(key, x, s)) == multiset(s) + multiset{x}
  {
    if s != [] && !Le(key(x), key(s[0])) {
      InsertMultiset(key, x, s[1..]);
      assert s == [s[0]] + s[1..];
    }
  }

  lemma {:induction false} InsertSorted<T>(key: T -> Key, x: T, s: seq<T>)
    requires Sorted(key, s)
    ensures Sorted(key, Insert(key, x, s))
  {
    if s != [] && !Le(key(x), key(s[0])) {
      InsertSorted(key, x, s[1..]);
      InsertMultiset(key, x, s[1..]);
      var rest := Insert(key, x, s[1..]);
      forall i | 0 <= i < |rest| ensures Le(key(s[0]), key(rest[i])) {
        assert rest[i] in multiset(s[1..]) + multiset{x};
      }
    }
  }

  /** Sort is a sorted permutation. */
  lemma {:induction false} SortSorted<T>(key: T -> Key, s: seq<T>)
    ensures Sorted(key, Sort(key, s))
    ensures multiset(Sort(key, s)) == multiset(s)
    ensures |Sort(key, s)| == |s|
  {
    if s != [] {
      SortSorted(key, s[1..]);
      InsertSorted(key, s[0], Sort(key, s[1..]));
      InsertMultiset(key, s[0], Sort(key, s[1..]));
      assert s == [s[0]] + s[1..];
      assert |multiset(Sort(key, s))| == |multiset(s)|;
    }
  }

  lemma {:induction false} FilterMember<T>(p: T -> bool, s: seq<T>, x: T)
    ensures x in Filter(p, s) <==> x in s && p(x)
  {
    if s != [] {
      FilterMember(p, s[1..], x);
      assert s == [s[0]] + s[1..];
    }
  }

  lemma {:induction false} FilterMultiplicity<T>(p: T -> bool, s: seq<T>, x: T)
    ensures multiset(Filter(p, s))[x] == if p(x) then multiset(s)[x] else 0
  {
    if s != [] {
      FilterMultiplicity(p, s[1..], x);
      assert s == [s[0]] + s[1..];
    }
  }

  lemma {:induction false} FilterInsert<T>(p: T -> bool, key: T -> Key, x: T, s: seq<T>)
    requires Sorted(key, s)
    ensures Filter(p, Insert(key, x, s)) == if p(x) then Insert(key, x, Filter(p, s)) else Filter(p, s)
  {
    var kept := Filter(p, s);
    if s == [] || Le(key(x), key(s[0])) {
      assert ([x] + s)[1..] == s;
      assert [] + kept == kept;
      if kept != [] {
        FilterMember(p, s, kept[0]);
        var i :| 0 <= i < |s| && s[i] == kept[0];
        assert Le(key(s[0]), key(s[i]));
      }
    } else {
      var rest := Insert(key, x, s[1..]);
      assert ([s[0]] + rest)[1..] == rest;
      FilterInsert(p, key, x, s[1..]);
      if p(s[0]) {
        assert kept[1..] == Filter(p, s[1..]);
      } else {
        assert kept == Filter(p, s[1..]);
        assert [] + Filter(p, rest) == Filter(p, rest);
      }
    }
  }

  /** Sorting commutes with filtering. */
  lemma {:induction false} FilterSort<T>(p: T -> bool, key: T -> Key, s: seq<T>)
    ensures Filter(p, Sort(key, s)) == Sort(key, Filter(p, s))
  {
    if s != [] {
      FilterSort(p, key, s[1..]);
      SortSorted(key, s[1..]);
      FilterInsert(p, key, s[0], Sort(key, s[1..]));
      if p(s[0]) {
        assert ([s[0]] + Filter(p, s[1..]))[1..] == Filter(p, s[1..]);
      } else {
        assert [] + Filter(p, s[1..]) == Filter(p, s[1..]);
      }
    }
  }

  /** Filters that agree on the elements give the same result. */
  lemma {:induction false} FilterAlike<T>(p: T -> bool, q: T -> bool, s: seq<T>)
    requires forall x :: x in s ==> p(x) == q(x)
    ensures Filter(p, s) == Filter(q, s)
  {
    if s != [] {
      FilterAlike(p, q, s[1..]);
    }
  }

  lemma {:induction false} FilterTwice<T>(p: T -> bool, q: T -> bool, r: T -> bool, s: seq<T>)
    requires forall x :: r(x) <==> p(x) && q(x)
    ensures Filter(q, Filter(p, s)) == Filter(r, s)
  {
    if s != [] {
      FilterTwice(p, q, r, s[1..]);
      if p(s[0]) {
        assert ([s[0]] + Filter(p, s[1..]))[1..] == Filter(p, s[1..]);
      } else {
        assert [] + Filter(p, s[1..]) == Filter(p, s[1..]);
      }
    }
  }

  lemma {:induction false} FilterAllOrNone<T>(p: T -> bool, s: seq<T>)
    ensures (forall x :: x in s ==> p(x)) ==> Filter(p, s) == s
    ensures (forall x :: x in s ==> !p(x)) ==> Filter(p, s) == []
  {
    if s != [] {
      FilterAllOrNone(p, s[1..]);
      assert s == [s[0]] + s[1..];
    }
  }
}
