/** LINQ's `OrderByDescending(keySelector)`: a stable sort by an integer key, largest first,
    written as an insertion sort. */
module Sorting {
  import opened Seqs

  ghost predicate SortedDesc<T>(s: seq<T>, key: T -> int) {
    forall i, j :: 0 <= i < j < |s| ==> key(s[i]) >= key(s[j])
  }

  /** Selects the elements whose key equals `v`. */
  function KeyIs<T>(key: T -> int, v: int): T -> bool {
    x => key(x) == v
  }

  /** Inserts `x` before the first element whose key is not larger than its own. */
  function Insert<T>(x: T, s: seq<T>, key: T -> int): (r: seq<T>)
    ensures multiset(r) == multiset(s) + multiset{x}
  {
    if s == [] || key(s[0]) <= key(x) then [x] + s
    else
      HeadTail(s);
      [s[0]] + Insert(x, s[1..], key)
  }

  /** Inserting an element no larger than a bound into a list bounded by it keeps the bound. */
  lemma InsertBounded<T>(x: T, s: seq<T>, key: T -> int, bound: int)
    requires key(x) <= bound
    requires forall y :: y in s ==> key(y) <= bound
    ensures forall y :: y in Insert(x, s, key) ==> key(y) <= bound
  {
    forall y | y in Insert(x, s, key) ensures key(y) <= bound {
      assert y in multiset(Insert(x, s, key));
    }
  }

  lemma {:induction false} InsertKeepsSorted<T>(x: T, s: seq<T>, key: T -> int)
    requires SortedDesc(s, key)
    ensures SortedDesc(Insert(x, s, key), key)
  {
    if s != [] && key(s[0]) > key(x) {
      var tail := s[1..];
      var rest := Insert(x, tail, key);
      InsertKeepsSorted(x, tail, key);
      forall y | y in tail ensures key(y) <= key(s[0]) {
        var k :| 0 <= k < |tail| && tail[k] == y;
        assert s[k + 1] == y;
      }
      InsertBounded(x, tail, key, key(s[0]));
      var r := [s[0]] + rest;
      forall i, j | 0 <= i < j < |r| ensures key(r[i]) >= key(r[j]) {
        assert r[j] == rest[j - 1] && r[j] in rest;
        if i > 0 {
          assert r[i] == rest[i - 1];
        }
      }
    }
  }

  /** `OrderByDescending`: sorted, largest key first, and a permutation of the input. */
  function SortDescending<T>(s: seq<T>, key: T -> int): (r: seq<T>)
    ensures SortedDesc(r, key)
    ensures multiset(r) == multiset(s)
  {
    if s == [] then []
    else
      HeadTail(s);
      var sorted := SortDescending(s[1..], key);
      InsertKeepsSorted(s[0], sorted, key);
      Insert(s[0], sorted, key)
  }

  /** One step of `InsertKeyClass`: putting back a head that `p` rejects whenever it
      accepts `x`. */
  lemma ConsKeepsClass<T(!new)>(h: T, x: T, rest: seq<T>, tail: seq<T>, p: T -> bool)
    requires p(x) ==> !p(h)
    requires Filter(rest, p) == (if p(x) then [x] else []) + Filter(tail, p)
    ensures Filter([h] + rest, p) == (if p(x) then [x] else []) + Filter([h] + tail, p)
  {
    FilterCons(h, rest, p);
    FilterCons(h, tail, p);
  }

  lemma {:induction false} InsertKeyClass<T(!new)>(x: T, s: seq<T>, key: T -> int, v: int)
    ensures Filter(Insert(x, s, key), KeyIs(key, v))
      == (if key(x) == v then [x] else []) + Filter(s, KeyIs(key, v))
  {
    var p := KeyIs(key, v);
    if s == [] || key(s[0]) <= key(x) {
      FilterCons(x, s, p);
    } else {
      InsertKeyClass(x, s[1..], key, v);
      HeadTail(s);
      ConsKeepsClass(s[0], x, Insert(x, s[1..], key), s[1..], p);
    }
  }

  /** The sort is stable: the elements sharing any one key keep their input order. */
  lemma {:induction false} SortIsStable<T(!new)>(s: seq<T>, key: T -> int, v: int)
    ensures Filter(SortDescending(s, key), KeyIs(key, v)) == Filter(s, KeyIs(key, v))
  {
    if s != [] {
      SortIsStable(s[1..], key, v);
      InsertKeyClass(s[0], SortDescending(s[1..], key), key, v);
    }
  }

  /** Filtering a descending list leaves it descending. */
  lemma {:induction false} FilterKeepsSorted<T(!new)>(s: seq<T>, p: T -> bool, key: T -> int)
    requires SortedDesc(s, key)
    ensures SortedDesc(Filter(s, p), key)
  {
    if s != [] {
      var rest := Filter(s[1..], p);
      FilterKeepsSorted(s[1..], p, key);
      forall j | 0 <= j < |rest| ensures key(s[0]) >= key(rest[j]) {
        assert rest[j] in s[1..];
      }
    }
  }

  /** A prefix of a descending list is descending. */
  lemma TakeKeepsSorted<T>(s: seq<T>, n: nat, key: T -> int)
    requires SortedDesc(s, key)
    ensures SortedDesc(TakeFirst(s, n), key)
  {
  }

  /** `OrderByDescending(...).Take(n)` keeps the best `n`: an element of the input left out
      of the prefix has a key no larger than any element kept. */
  lemma TakeIsTopK<T>(s: seq<T>, n: nat, key: T -> int)
    ensures var top := TakeFirst(SortDescending(s, key), n);
      forall c, y :: c in s && c !in top && y in top ==> key(y) >= key(c)
  {
    var sorted := SortDescending(s, key);
    var top := TakeFirst(sorted, n);
    forall c, y | c in s && c !in top && y in top ensures key(y) >= key(c) {
      assert c in multiset(sorted);
      var j :| 0 <= j < |sorted| && sorted[j] == c;
      var i :| 0 <= i < |top| && top[i] == y;
      assert j >= |top|;
    }
  }

  /** An element of the best `n` is an element of the input. */
  lemma TakenFromInput<T>(s: seq<T>, n: nat, key: T -> int, c: T)
    requires c in TakeFirst(SortDescending(s, key), n)
    ensures c in s
  {
    var sorted := SortDescending(s, key);
    var i :| 0 <= i < |TakeFirst(sorted, n)| && TakeFirst(sorted, n)[i] == c;
    assert c in multiset(sorted);
  }
}
