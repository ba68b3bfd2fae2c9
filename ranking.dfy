/** The result of Python's `list.sort(key=key, reverse=True)`: a stable sort
    by descending key. Python documents that `reverse=True` keeps records
    with equal keys in their original order, so the result is determined by
    three facts proved below: it is ordered by non-increasing key, it is a
    permutation of the input, and the records of each key appear in input
    order. */
module Ranking {

  /** Keys never increase from left to right. */
  ghost predicate NonIncreasing<T>(s: seq<T>, key: T -> int)
  {
    forall i, j :: 0 <= i < j < |s| ==> key(s[i]) >= key(s[j])
  }

  /** The records of `s` whose key is `k`, in their order in `s`. */
  function WithKey<T>(s: seq<T>, key: T -> int, k: int): seq<T>
  {
    if s == [] then []
    else (if key(s[0]) == k then [s[0]] else []) + WithKey(s[1..], key, k)
  }

  /** Places `x` after every leading record whose key is at least `key(x)`. */
  function InsertDesc<T>(x: T, s: seq<T>, key: T -> int): (r: seq<T>)
    ensures |r| == |s| + 1
  {
    if s == [] || key(s[0]) < key(x) then [x] + s
    else [s[0]] + InsertDesc(x, s[1..], key)
  }

  /** Stable descending sort: each record, taken in input order, goes after
      the records already placed whose key is not smaller. */
  function SortDesc<T>(s: seq<T>, key: T -> int): (r: seq<T>)
    ensures |r| == |s|
  {
    if s == [] then []
    else InsertDesc(s[|s| - 1], SortDesc(s[..|s| - 1], key), key)
  }

  lemma {:induction false} WithKeyAppend<T>(a: seq<T>, b: seq<T>, key: T -> int, k: int)
    ensures WithKey(a + b, key, k) == WithKey(a, key, k) + WithKey(b, key, k)
  {
    if a == [] {
      assert a + b == b;
    } else {
      var ab := a + b;
      assert ab[0] == a[0];
      assert ab[1..] == a[1..] + b;
      WithKeyAppend(a[1..], b, key, k);
      var h := if key(a[0]) == k then [a[0]] else [];
      assert WithKey(ab, key, k) == h + WithKey(a[1..] + b, key, k);
      assert WithKey(a, key, k) == h + WithKey(a[1..], key, k);
    }
  }

  lemma {:induction false} WithKeyNone<T>(s: seq<T>, key: T -> int, k: int)
    requires forall i :: 0 <= i < |s| ==> key(s[i]) != k
    ensures WithKey(s, key, k) == []
  {
    if s != [] {
      WithKeyNone(s[1..], key, k);
    }
  }

  lemma {:induction false} InsertDescPermutes<T>(x: T, s: seq<T>, key: T -> int)
    ensures multiset(InsertDesc(x, s, key)) == multiset(s) + multiset{x}
  {
    if s != [] && key(s[0]) >= key(x) {
      InsertDescPermutes(x, s[1..], key);
      assert s == [s[0]] + s[1..];
    }
  }

  /** Every record of the insertion is `x` or a record of `s`. */
  lemma {:induction false} InsertDescMembers<T>(x: T, s: seq<T>, key: T -> int, j: nat)
    requires j < |s| + 1
    ensures InsertDesc(x, s, key)[j] == x
            || exists m :: 0 <= m < |s| && InsertDesc(x, s, key)[j] == s[m]
  {
    var r := InsertDesc(x, s, key);
    if s == [] || key(s[0]) < key(x) {
      if j > 0 {
        assert r[j] == s[j - 1];
      }
    } else if j > 0 {
      InsertDescMembers(x, s[1..], key, j - 1);
      assert r[j] == InsertDesc(x, s[1..], key)[j - 1];
      if r[j] != x {
        var m :| 0 <= m < |s[1..]| && r[j] == s[1..][m];
        assert r[j] == s[m + 1];
      }
    }
  }

  lemma {:induction false} InsertDescOrdered<T>(x: T, s: seq<T>, key: T -> int)
    requires NonIncreasing(s, key)
    ensures NonIncreasing(InsertDesc(x, s, key), key)
  {
    var r := InsertDesc(x, s, key);
    if s != [] && key(s[0]) >= key(x) {
      var t := InsertDesc(x, s[1..], key);
      InsertDescOrdered(x, s[1..], key);
      assert r == [s[0]] + t;
      forall j | 1 <= j < |r| ensures key(r[0]) >= key(r[j]) {
        InsertDescMembers(x, s, key, j);
      }
      forall i, j | 1 <= i < j < |r| ensures key(r[i]) >= key(r[j]) {
        assert r[i] == t[i - 1] && r[j] == t[j - 1];
      }
    } else {
      forall i, j | 0 <= i < j < |r| ensures key(r[i]) >= key(r[j]) {
        assert r[j] == s[j - 1];
        if i > 0 {
          assert r[i] == s[i - 1];
        }
      }
    }
  }

  lemma {:induction false} InsertDescStable<T>(x: T, s: seq<T>, key: T -> int, k: int)
    requires NonIncreasing(s, key)
    ensures WithKey(InsertDesc(x, s, key), key, k)
            == WithKey(s, key, k) + (if key(x) == k then [x] else [])
  {
    var r := InsertDesc(x, s, key);
    if s == [] || key(s[0]) < key(x) {
      assert r[0] == x && r[1..] == s;
      if key(x) == k {
        WithKeyNone(s, key, k);
      } else {
        assert WithKey(s, key, k) + [] == WithKey(s, key, k);
      }
    } else {
      InsertDescStable(x, s[1..], key, k);
      assert r[0] == s[0] && r[1..] == InsertDesc(x, s[1..], key);
    }
  }

  lemma {:induction false} SortDescOrdered<T>(s: seq<T>, key: T -> int)
    ensures NonIncreasing(SortDesc(s, key), key)
  {
    if s != [] {
      SortDescOrdered(s[..|s| - 1], key);
      InsertDescOrdered(s[|s| - 1], SortDesc(s[..|s| - 1], key), key);
    }
  }

  lemma {:induction false} SortDescPermutes<T>(s: seq<T>, key: T -> int)
    ensures multiset(SortDesc(s, key)) == multiset(s)
  {
    if s != [] {
      var init, x := s[..|s| - 1], s[|s| - 1];
      SortDescPermutes(init, key);
      InsertDescPermutes(x, SortDesc(init, key), key);
      assert s == init + [x];
    }
  }

  lemma {:induction false} SortDescStable<T>(s: seq<T>, key: T -> int, k: int)
    ensures WithKey(SortDesc(s, key), key, k) == WithKey(s, key, k)
  {
    if s != [] {
      var init, x := s[..|s| - 1], s[|s| - 1];
      SortDescStable(init, key, k);
      SortDescOrdered(init, key);
      InsertDescStable(x, SortDesc(init, key), key, k);
      assert s == init + [x];
      WithKeyAppend(init, [x], key, k);
      assert WithKey([x], key, k) == (if key(x) == k then [x] else []);
    }
  }

  /** The sort orders by non-increasing key, loses and invents no record, and
      keeps the records of every key in input order (stability). */
  lemma SortDescProperties<T>(s: seq<T>, key: T -> int)
    ensures NonIncreasing(SortDesc(s, key), key)
    ensures multiset(SortDesc(s, key)) == multiset(s)
    ensures forall k :: WithKey(SortDesc(s, key), key, k) == WithKey(s, key, k)
  {
    SortDescOrdered(s, key);
    SortDescPermutes(s, key);
    forall k ensures WithKey(SortDesc(s, key), key, k) == WithKey(s, key, k) {
      SortDescStable(s, key, k);
    }
  }
}
