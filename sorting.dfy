/**
 * Stable sorting by an integer key, as done by Rust's `slice::sort_by_key` (src/simulator.rs)
 * and Python's `list.sort(key=...)` (the requirement picker). Both library sorts are stable:
 * among elements with equal keys the original order is kept. `SortBy` is a stable insertion
 * sort; its lemmas state the three facts a caller relies on: ordered, a permutation, stable.
 */
module Sorting {

  ghost predicate SortedBy<T>(s: seq<T>, key: T -> int)
  {
    forall i, j :: 0 <= i < j < |s| ==> key(s[i]) <= key(s[j])
  }

  /** Inserts `x` in front of the first element whose key is not smaller than its own. */
  function InsertBy<T>(x: T, s: seq<T>, key: T -> int): (r: seq<T>)
    ensures multiset(r) == multiset(s) + multiset{x}
    ensures |r| == |s| + 1
    decreases |s|
  {
    if s == [] then [x]
    else if key(x) <= key(s[0]) then [x] + s
    else
      assert s == [s[0]] + s[1..];
      [s[0]] + InsertBy(x, s[1..], key)
  }

  function SortBy<T>(s: seq<T>, key: T -> int): (r: seq<T>)
    ensures multiset(r) == multiset(s)
    ensures |r| == |s|
    decreases |s|
  {
    if s == [] then []
    else
      assert s == [s[0]] + s[1..];
      InsertBy(s[0], SortBy(s[1..], key), key)
  }

  /** The elements with key `k`, in their order in `s`. */
  function WithKey<T>(s: seq<T>, key: T -> int, k: int): (r: seq<T>)
    ensures forall i :: 0 <= i < |r| ==> key(r[i]) == k
    decreases |s|
  {
    if s == [] then []
    else (if key(s[0]) == k then [s[0]] else []) + WithKey(s[1..], key, k)
  }

  lemma {:induction false} InsertBySorted<T>(x: T, s: seq<T>, key: T -> int)
    requires SortedBy(s, key)
    ensures SortedBy(InsertBy(x, s, key), key)
    decreases |s|
  {
    if s != [] && key(x) > key(s[0]) {
      InsertBySorted(x, s[1..], key);
      var t := InsertBy(x, s[1..], key);
      forall y | y in t ensures key(s[0]) <= key(y) {
        assert y in multiset(t);
        if y != x {
          assert y in multiset(s[1..]);
        }
      }
    }
  }

  /** The result of `SortBy` is ordered by the key. */
  lemma {:induction false} SortBySorted<T>(s: seq<T>, key: T -> int)
    ensures SortedBy(SortBy(s, key), key)
    decreases |s|
  {
    if s != [] {
      SortBySorted(s[1..], key);
      InsertBySorted(s[0], SortBy(s[1..], key), key);
    }
  }

  lemma {:induction false} InsertByWithKey<T>(x: T, s: seq<T>, key: T -> int, k: int)
    ensures WithKey(InsertBy(x, s, key), key, k) == (if key(x) == k then [x] else []) + WithKey(s, key, k)
    decreases |s|
  {
    if s == [] {
      assert WithKey([x], key, k) == (if key(x) == k then [x] else []) + WithKey([x][1..], key, k);
    } else if key(x) <= key(s[0]) {
      assert ([x] + s)[1..] == s;
    } else {
      InsertByWithKey(x, s[1..], key, k);
      var t := InsertBy(x, s[1..], key);
      assert ([s[0]] + t)[1..] == t;
    }
  }

  /**
   * Stability: for every key, the elements carrying it appear in the sorted sequence in
   * exactly the order they had in the input.
   */
  lemma {:induction false} SortByStable<T>(s: seq<T>, key: T -> int, k: int)
    ensures WithKey(SortBy(s, key), key, k) == WithKey(s, key, k)
    decreases |s|
  {
    if s != [] {
      SortByStable(s[1..], key, k);
      InsertByWithKey(s[0], SortBy(s[1..], key), key, k);
    }
  }

  /** Elements with equal keys are ordered by `rank`. */
  ghost predicate TiesRanked<T>(s: seq<T>, key: T -> int, rank: T -> int)
  {
    forall i, j :: 0 <= i < j < |s| && key(s[i]) == key(s[j]) ==> rank(s[i]) <= rank(s[j])
  }

  lemma TiesRankedCons<T>(a: T, t: seq<T>, key: T -> int, rank: T -> int)
    requires TiesRanked(t, key, rank)
    requires forall y :: y in t && key(y) == key(a) ==> rank(a) <= rank(y)
    ensures TiesRanked([a] + t, key, rank)
  {
    var r := [a] + t;
    forall i, j | 0 <= i < j < |r| && key(r[i]) == key(r[j]) ensures rank(r[i]) <= rank(r[j]) {
      assert r[j] == t[j - 1];
      if i > 0 {
        assert r[i] == t[i - 1];
      }
    }
  }

  lemma TiesRankedHead<T>(s: seq<T>, key: T -> int, rank: T -> int)
    requires TiesRanked(s, key, rank) && s != []
    ensures forall y :: y in s[1..] && key(y) == key(s[0]) ==> rank(s[0]) <= rank(y)
    ensures TiesRanked(s[1..], key, rank)
  {
    forall y | y in s[1..] && key(y) == key(s[0]) ensures rank(s[0]) <= rank(y) {
      var m :| 0 <= m < |s[1..]| && s[1..][m] == y;
      assert s[1 + m] == y;
    }
    var t := s[1..];
    forall i, j | 0 <= i < j < |t| && key(t[i]) == key(t[j]) ensures rank(t[i]) <= rank(t[j]) {
      assert t[i] == s[i + 1] && t[j] == s[j + 1];
    }
  }

  lemma InsertByMembers<T>(x: T, s: seq<T>, key: T -> int)
    ensures forall y :: y in InsertBy(x, s, key) ==> y == x || y in s
  {
    forall y | y in InsertBy(x, s, key) ensures y == x || y in s {
      assert y in multiset(InsertBy(x, s, key));
    }
  }

  lemma {:induction false} InsertByTiesRanked<T>(x: T, s: seq<T>, key: T -> int, rank: T -> int)
    requires TiesRanked(s, key, rank)
    requires forall y :: y in s && key(y) == key(x) ==> rank(x) <= rank(y)
    ensures TiesRanked(InsertBy(x, s, key), key, rank)
    decreases |s|
  {
    if s == [] {
    } else if key(x) <= key(s[0]) {
      TiesRankedCons(x, s, key, rank);
    } else {
      TiesRankedHead(s, key, rank);
      InsertByTiesRanked(x, s[1..], key, rank);
      var t := InsertBy(x, s[1..], key);
      InsertByMembers(x, s[1..], key);
      TiesRankedCons(s[0], t, key, rank);
    }
  }

  /**
   * When the input is ordered by `rank`, ties in the sorted output are still ordered by
   * `rank`: an element pushed earlier wins over a later one with the same key.
   */
  lemma {:induction false} SortByKeepsRankOnTies<T>(s: seq<T>, key: T -> int, rank: T -> int)
    requires SortedBy(s, rank)
    ensures TiesRanked(SortBy(s, key), key, rank)
    decreases |s|
  {
    if s != [] {
      SortByKeepsRankOnTies(s[1..], key, rank);
      var t := SortBy(s[1..], key);
      forall y | y in t && key(y) == key(s[0]) ensures rank(s[0]) <= rank(y) {
        assert y in multiset(s[1..]);
        var m :| 0 <= m < |s[1..]| && s[1..][m] == y;
        assert s[1 + m] == y;
      }
      InsertByTiesRanked(s[0], t, key, rank);
    }
  }
}
