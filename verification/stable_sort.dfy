/** Python's `list.sort(key=key, reverse=True)` and `sorted(..., reverse=True)`: a stable sort into
    descending key order. Equal keys keep their input order (Python documents that `reverse=True`
    preserves stability). Every ranking of the retrieval engine goes through `SortDesc`. */
module StableSort {
  import opened Common

  predicate NonIncreasing<T>(s: seq<T>, key: T -> real) {
    forall i, j :: 0 <= i < j < |s| ==> key(s[i]) >= key(s[j])
  }

  /** The elements of `s` whose key is `k`, in their order in `s`. */
  function WithKey<T>(s: seq<T>, key: T -> real, k: real): seq<T> {
    if |s| == 0 then [] else (if key(s[0]) == k then [s[0]] else []) + WithKey(s[1..], key, k)
  }

  lemma {:induction false} WithKeyAppend<T>(a: seq<T>, b: seq<T>, key: T -> real, k: real)
    ensures WithKey(a + b, key, k) == WithKey(a, key, k) + WithKey(b, key, k)
  {
    if |a| == 0 {
      assert a + b == b;
    } else {
      var ab := a + b;
      assert ab[0] == a[0];
      assert ab[1..] == a[1..] + b;
      WithKeyAppend(a[1..], b, key, k);
      assert WithKey(ab, key, k) == (if key(a[0]) == k then [a[0]] else []) + WithKey(a[1..] + b, key, k);
    }
  }

  lemma {:induction false} WithKeyNone<T>(s: seq<T>, key: T -> real, k: real)
    requires forall y :: y in s ==> key(y) != k
    ensures WithKey(s, key, k) == []
  {
    if |s| > 0 {
      WithKeyNone(s[1..], key, k);
    }
  }

  /** Places `x` after every element whose key is at least its own. */
  function Insert<T>(x: T, s: seq<T>, key: T -> real): (r: seq<T>)
    ensures multiset(r) == multiset(s) + multiset{x}
  {
    if |s| == 0 then [x]
    else if key(s[0]) >= key(x) then
      assert s == [s[0]] + s[1..];
      [s[0]] + Insert(x, s[1..], key)
    else
      [x] + s
  }

  lemma {:induction false} InsertSorted<T>(x: T, s: seq<T>, key: T -> real)
    requires NonIncreasing(s, key)
    ensures NonIncreasing(Insert(x, s, key), key)
  {
    if |s| == 0 {
    } else if key(s[0]) >= key(x) {
      var t := Insert(x, s[1..], key);
      InsertSorted(x, s[1..], key);
      forall y | y in t
        ensures key(y) <= key(s[0])
      {
        assert y in multiset(t);
        if y != x {
          var k :| 0 <= k < |s[1..]| && s[1..][k] == y;
          assert s[k + 1] == y;
        }
      }
      ConsSorted(s[0], t, key);
    } else {
      forall y | y in s
        ensures key(y) <= key(x)
      {
        var k :| 0 <= k < |s| && s[k] == y;
        assert key(s[k]) <= key(s[0]);
      }
      ConsSorted(x, s, key);
    }
  }

  /** Putting an element in front of a sorted list keeps it sorted when nothing in the list
      ranks above it. */
  lemma ConsSorted<T>(y: T, t: seq<T>, key: T -> real)
    requires NonIncreasing(t, key)
    requires forall z :: z in t ==> key(z) <= key(y)
    ensures NonIncreasing([y] + t, key)
  {
    var r := [y] + t;
    forall i, j | 0 <= i < j < |r|
      ensures key(r[i]) >= key(r[j])
    {
      assert r[j] == t[j - 1];
      if i > 0 {
        assert r[i] == t[i - 1];
      }
    }
  }

  /** The stable descending sort, inserting the input's elements one at a time from the left. */
  function SortDesc<T>(s: seq<T>, key: T -> real): (r: seq<T>)
    ensures multiset(r) == multiset(s)
    ensures |r| == |s|
    ensures NonIncreasing(r, key)
  {
    if |s| == 0 then []
    else
      assert s == s[..|s| - 1] + [s[|s| - 1]];
      InsertSorted(s[|s| - 1], SortDesc(s[..|s| - 1], key), key);
      Insert(s[|s| - 1], SortDesc(s[..|s| - 1], key), key)
  }

  lemma {:induction false} InsertWithKey<T>(x: T, s: seq<T>, key: T -> real, k: real)
    requires NonIncreasing(s, key)
    ensures WithKey(Insert(x, s, key), key, k)
         == WithKey(s, key, k) + (if key(x) == k then [x] else [])
  {
    if |s| == 0 {
      assert [x][1..] == [];
    } else if key(s[0]) >= key(x) {
      SortedTail(s, key);
      InsertWithKey(x, s[1..], key, k);
      InsertAfterHead(x, s, key, k);
    } else {
      InsertBeforeAll(x, s, key, k);
    }
  }

  /** The step of `InsertWithKey` where `x` goes past the head of `s`. */
  lemma InsertAfterHead<T>(x: T, s: seq<T>, key: T -> real, k: real)
    requires |s| > 0 && key(s[0]) >= key(x)
    requires WithKey(Insert(x, s[1..], key), key, k)
          == WithKey(s[1..], key, k) + (if key(x) == k then [x] else [])
    ensures WithKey(Insert(x, s, key), key, k)
         == WithKey(s, key, k) + (if key(x) == k then [x] else [])
  {
    var t := Insert(x, s[1..], key);
    assert Insert(x, s, key) == [s[0]] + t;
    WithKeyConsBoth(t, s, if key(x) == k then [x] else [], key, k);
  }

  /** Putting the head of `s` in front of a list whose `WithKey` selection extends that of the
      tail of `s` gives one that extends that of `s`. */
  lemma WithKeyConsBoth<T>(t: seq<T>, s: seq<T>, tail: seq<T>, key: T -> real, k: real)
    requires |s| > 0
    requires WithKey(t, key, k) == WithKey(s[1..], key, k) + tail
    ensures WithKey([s[0]] + t, key, k) == WithKey(s, key, k) + tail
  {
    var h := if key(s[0]) == k then [s[0]] else [];
    WithKeyCons(s[0], t, key, k);
    AppendAssoc(h, WithKey(s[1..], key, k), tail);
  }

  /** The step of `InsertWithKey` where `x` goes in front: everything in `s` ranks strictly lower
      than `x`, so nothing in `s` shares its key. */
  lemma InsertBeforeAll<T>(x: T, s: seq<T>, key: T -> real, k: real)
    requires NonIncreasing(s, key)
    requires |s| > 0 && key(s[0]) < key(x)
    ensures WithKey(Insert(x, s, key), key, k)
         == WithKey(s, key, k) + (if key(x) == k then [x] else [])
  {
    WithKeyCons(x, s, key, k);
    if key(x) == k {
      forall y | y in s
        ensures key(y) != k
      {
        var i :| 0 <= i < |s| && s[i] == y;
        assert key(s[i]) <= key(s[0]);
      }
      WithKeyNone(s, key, k);
    }
  }

  lemma SortedTail<T>(s: seq<T>, key: T -> real)
    requires |s| > 0 && NonIncreasing(s, key)
    ensures NonIncreasing(s[1..], key)
  {
    forall i, j | 0 <= i < j < |s| - 1
      ensures key(s[1..][i]) >= key(s[1..][j])
    {
      assert s[1..][i] == s[i + 1] && s[1..][j] == s[j + 1];
    }
  }

  lemma WithKeyCons<T>(y: T, t: seq<T>, key: T -> real, k: real)
    ensures WithKey([y] + t, key, k) == (if key(y) == k then [y] else []) + WithKey(t, key, k)
  {
    assert ([y] + t)[1..] == t;
  }

  /** Stability: for every key value, the elements carrying it appear in the sorted output in
      exactly their input order. */
  lemma {:induction false} SortDescStable<T>(s: seq<T>, key: T -> real, k: real)
    ensures WithKey(SortDesc(s, key), key, k) == WithKey(s, key, k)
  {
    if |s| > 0 {
      var init, x := s[..|s| - 1], s[|s| - 1];
      var tail := if key(x) == k then [x] else [];
      var si := SortDesc(init, key);
      calc {
        WithKey(SortDesc(s, key), key, k);
        WithKey(Insert(x, si, key), key, k);
        { InsertWithKey(x, si, key, k); }
        WithKey(si, key, k) + tail;
        { SortDescStable(init, key, k); }
        WithKey(init, key, k) + tail;
        { assert WithKey([x], key, k) == tail by { assert [x][1..] == []; } }
        WithKey(init, key, k) + WithKey([x], key, k);
        { WithKeyAppend(init, [x], key, k); }
        WithKey(init + [x], key, k);
        { assert s == init + [x]; }
        WithKey(s, key, k);
      }
    }
  }

  /** A prefix of a ranking is a ranking of some of its elements. */
  lemma TakeSorted<T>(s: seq<T>, key: T -> real, n: int)
    requires NonIncreasing(s, key)
    ensures NonIncreasing(Take(s, n), key)
    ensures forall x :: x in Take(s, n) ==> x in s
  {
    var r := Take(s, n);
    forall i, j | 0 <= i < j < |r|
      ensures key(r[i]) >= key(r[j])
    {
      assert r[i] == s[i] && r[j] == s[j];
    }
    forall x | x in r
      ensures x in s
    {
      var i :| 0 <= i < |r| && r[i] == x;
      assert s[i] == x;
    }
  }

  /** Truncating the sorted list to `n` keeps the best: anything left out ranks no higher than
      the last element kept, and nothing is left out while fewer than `n` were kept. */
  lemma TakeKeepsBest<T>(s: seq<T>, key: T -> real, n: nat)
    ensures var r := Take(SortDesc(s, key), n);
            forall x :: x in s && x !in r ==> |r| == n && (0 < n ==> key(x) <= key(r[n - 1]))
  {
    var sorted := SortDesc(s, key);
    var r := Take(sorted, n);
    assert |r| == Min(n, |sorted|);
    forall x | x in s && x !in r
      ensures |r| == n && (0 < n ==> key(x) <= key(r[n - 1]))
    {
      assert x in multiset(sorted);
      var i :| 0 <= i < |sorted| && sorted[i] == x;
      assert i >= |r|;
      assert |r| == n;
      if 0 < n {
        assert r[n - 1] == sorted[n - 1];
        assert key(sorted[n - 1]) >= key(sorted[i]);
      }
    }
  }
}
