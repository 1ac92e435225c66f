/** Sequence, map and option helpers shared by the graph builder, the retrieval engine and the
    intervention assignment. Python's `defaultdict(int)` becomes a `map` read through `Get0`. */
module Common {

  datatype Option<+T> = None | Some(value: T) {
    /** Python's `dict.get(key, default)`. */
    function GetOr(default: T): T {
      match this
      case Some(v) => v
      case None => default
    }
  }

  datatype Result<+T, +E> = Success(value: T) | Failure(error: E)

  /** No element occurs twice. */
  predicate NoDup<T(==)>(s: seq<T>) {
    forall i, j :: 0 <= i < j < |s| ==> s[i] != s[j]
  }

  lemma NoDupAppend<T>(a: seq<T>, b: seq<T>)
    requires NoDup(a) && NoDup(b)
    requires forall x :: x in a ==> x !in b
    ensures NoDup(a + b)
  {
    var ab := a + b;
    forall i, j | 0 <= i < j < |ab|
      ensures ab[i] != ab[j]
    {
      if j < |a| {
        assert ab[i] == a[i] && ab[j] == a[j];
      } else if i >= |a| {
        assert ab[i] == b[i - |a|] && ab[j] == b[j - |a|];
      } else {
        assert ab[i] == a[i] && ab[j] == b[j - |a|];
        assert ab[i] in a;
      }
    }
  }

  /** The tail of a duplicate-free list is duplicate-free and lacks the head. */
  lemma NoDupTail<T>(s: seq<T>)
    requires |s| > 0 && NoDup(s)
    ensures NoDup(s[1..]) && s[0] !in s[1..]
  {
    forall i, j | 0 <= i < j < |s[1..]|
      ensures s[1..][i] != s[1..][j]
    {
      assert s[1..][i] == s[i + 1] && s[1..][j] == s[j + 1];
    }
  }

  /** A duplicate-free list has as many elements as the set it enumerates. */
  lemma {:induction false} NoDupCard<T>(s: seq<T>, xs: set<T>)
    requires NoDup(s) && forall x :: x in s <==> x in xs
    ensures |s| == |xs|
  {
    if |s| > 0 {
      NoDupTail(s);
      NoDupCard(s[1..], xs - {s[0]});
    }
  }

  /** Some occurrence of `a` comes strictly before some occurrence of `b`. */
  predicate Precedes<T(==)>(s: seq<T>, a: T, b: T) {
    exists i, j :: 0 <= i < j < |s| && s[i] == a && s[j] == b
  }

  lemma PrecedesCons<T>(s: seq<T>, a: T, b: T)
    requires |s| > 0
    ensures Precedes(s, a, b) <==> (s[0] == a && b in s[1..]) || Precedes(s[1..], a, b)
  {
    if Precedes(s, a, b) {
      var i, j :| 0 <= i < j < |s| && s[i] == a && s[j] == b;
      if i > 0 {
        assert s[1..][i - 1] == a && s[1..][j - 1] == b;
      } else {
        assert s[1..][j - 1] == b;
      }
    }
    if s[0] == a && b in s[1..] {
      var j :| 0 <= j < |s[1..]| && s[1..][j] == b;
      assert s[j + 1] == b;
    }
    if Precedes(s[1..], a, b) {
      var i, j :| 0 <= i < j < |s[1..]| && s[1..][i] == a && s[1..][j] == b;
      assert s[i + 1] == a && s[j + 1] == b;
    }
  }

  function ToSet<T(!new)>(s: seq<T>): (r: set<T>)
    ensures forall x :: x in r <==> x in s
  {
    set x | x in s
  }

  function Min(a: int, b: int): int {
    if a <= b then a else b
  }

  /** Number of occurrences of `x` in `s`. */
  function CountOf<T(==)>(s: seq<T>, x: T): (n: nat)
    ensures n <= |s|
    ensures n > 0 <==> x in s
  {
    if |s| == 0 then 0 else (if s[0] == x then 1 else 0) + CountOf(s[1..], x)
  }

  lemma {:induction false} CountOfAppend<T>(a: seq<T>, b: seq<T>, x: T)
    ensures CountOf(a + b, x) == CountOf(a, x) + CountOf(b, x)
  {
    if |a| == 0 {
      assert a + b == b;
    } else {
      assert (a + b)[1..] == a[1..] + b;
      CountOfAppend(a[1..], b, x);
    }
  }

  /** Appends, in order, every element of `xs` not yet present: the insertion order of a
      Python dict or networkx graph whose keys are added one at a time. */
  function AppendNew<T(==,!new)>(order: seq<T>, xs: seq<T>): (r: seq<T>)
    ensures NoDup(order) ==> NoDup(r)
    ensures forall y :: y in r <==> y in order || y in xs
    ensures |order| <= |r| && r[..|order|] == order
    decreases |xs|
  {
    if |xs| == 0 then order
    else AppendNew(if xs[0] in order then order else order + [xs[0]], xs[1..])
  }

  /** Nothing is appended when every element is already present. */
  lemma {:induction false} AppendNewKnown<T(!new)>(order: seq<T>, xs: seq<T>)
    requires forall x :: x in xs ==> x in order
    ensures AppendNew(order, xs) == order
    decreases |xs|
  {
    if |xs| > 0 {
      AppendNewKnown(order, xs[1..]);
    }
  }

  /** Elements that are new and distinct are all appended, in order. */
  lemma {:induction false} AppendNewFresh<T(!new)>(order: seq<T>, xs: seq<T>)
    requires NoDup(order + xs)
    ensures AppendNew(order, xs) == order + xs
    decreases |xs|
  {
    if |xs| > 0 {
      var ox := order + xs;
      assert ox[|order|] == xs[0];
      assert xs[0] !in order by {
        forall i | 0 <= i < |order|
          ensures order[i] != xs[0]
        {
          assert ox[i] == order[i];
        }
      }
      assert (order + [xs[0]]) + xs[1..] == ox;
      AppendNewFresh(order + [xs[0]], xs[1..]);
    }
  }

  /** Adding one key. */
  lemma AppendNewOne<T(!new)>(order: seq<T>, x: T)
    ensures AppendNew(order, [x]) == if x in order then order else order + [x]
  {
    assert [x][1..] == [];
  }

  /** The distinct elements of `s` in order of first occurrence. */
  function Dedup<T(==,!new)>(s: seq<T>): (r: seq<T>)
    ensures NoDup(r)
    ensures forall y :: y in r <==> y in s
  {
    AppendNew([], s)
  }

  /** Python's prefix slice `s[:k]`, including its meaning for a negative `k`. */
  function Take<T>(s: seq<T>, k: int): (r: seq<T>)
    ensures 0 <= k ==> |r| == Min(k, |s|)
    ensures k < 0 ==> |r| == if |s| + k < 0 then 0 else |s| + k
    ensures |r| <= |s| && r == s[..|r|]
  {
    if 0 <= k then s[..Min(k, |s|)]
    else if |s| + k < 0 then []
    else s[..|s| + k]
  }

  /** A counter read with the default of `defaultdict(int)`. */
  function Get0<K>(m: map<K, nat>, k: K): nat {
    if k in m then m[k] else 0
  }

  /** A real-valued accumulator read with the default of `defaultdict(float)`. */
  function GetR<K>(m: map<K, real>, k: K): real {
    if k in m then m[k] else 0.0
  }

  /** A list-valued accumulator read with an empty default. */
  function GetSeq<K, V>(m: map<K, seq<V>>, k: K): seq<V> {
    if k in m then m[k] else []
  }

  /** `m[k] += amount` on a `defaultdict(int)`. */
  function Bump<K(!new)>(m: map<K, nat>, k: K, amount: nat): (r: map<K, nat>)
    ensures r.Keys == m.Keys + {k}
    ensures Get0(r, k) == Get0(m, k) + amount
    ensures forall k' :: k' != k ==> Get0(r, k') == Get0(m, k')
  {
    m[k := Get0(m, k) + amount]
  }

  /** Reading a map after one update. */
  lemma UpdateRead<K, V>(m: map<K, V>, a: K, v: V, b: K)
    ensures b in m[a := v] <==> b == a || b in m
    ensures b in m[a := v] ==> m[a := v][b] == if b == a then v else m[b]
  {
  }

  function Sum(s: seq<real>): real {
    if |s| == 0 then 0.0 else Sum(s[..|s| - 1]) + s[|s| - 1]
  }

  lemma {:induction false} SumAppend(a: seq<real>, b: seq<real>)
    ensures Sum(a + b) == Sum(a) + Sum(b)
  {
    if |b| == 0 {
      assert a + b == a;
    } else {
      assert (a + b)[..|a + b| - 1] == a + b[..|b| - 1];
      SumAppend(a, b[..|b| - 1]);
    }
  }

  lemma AppendAssoc<T>(a: seq<T>, b: seq<T>, c: seq<T>)
    ensures (a + b) + c == a + (b + c)
  {
  }

  /** `n` copies of `x`. */
  function Repeat<T>(x: T, n: nat): (r: seq<T>)
    ensures |r| == n
  {
    seq(n, _ => x)
  }

  lemma RepeatCons<T>(x: T, n: nat)
    ensures [x] + Repeat(x, n) == Repeat(x, n + 1)
  {
    assert forall i :: 0 <= i < n + 1 ==> ([x] + Repeat(x, n))[i] == x;
  }

  /** `n` times `x`, as repeated addition, which keeps products out of the proofs about sums. */
  function Scale(n: nat, x: real): real {
    if n == 0 then 0.0 else Scale(n - 1, x) + x
  }

  lemma {:induction false} ScaleIsProduct(n: nat, x: real)
    ensures Scale(n, x) == (n as real) * x
  {
    if n > 0 {
      ScaleIsProduct(n - 1, x);
    }
  }

  lemma {:induction false} SumRepeat(x: real, n: nat)
    ensures Sum(Repeat(x, n)) == Scale(n, x)
  {
    if n > 0 {
      var r := Repeat(x, n);
      assert r[..n - 1] == Repeat(x, n - 1);
      SumRepeat(x, n - 1);
    }
  }

  lemma SumAppendRepeat(a: seq<real>, x: real, n: nat)
    ensures Sum(a + Repeat(x, n)) == Sum(a) + Scale(n, x)
  {
    SumAppend(a, Repeat(x, n));
    SumRepeat(x, n);
  }

  /** A total between `h` copies of `lo` and `h` copies of `hi`, shared out `h` ways, lies
      between `lo` and `hi`. */
  lemma DivideWithin(total: real, h: nat, lo: real, hi: real)
    requires h > 0 && Scale(h, lo) <= total <= Scale(h, hi)
    ensures lo <= total / (h as real) <= hi
  {
    ScaleIsProduct(h, lo);
    ScaleIsProduct(h, hi);
    var m := total / (h as real);
    assert m * (h as real) == total;
    assert (m - lo) * (h as real) >= 0.0;
    assert (hi - m) * (h as real) >= 0.0;
  }

  /** A count over a positive total. */
  lemma RatioFacts(p: nat, n: nat)
    requires 0 < n && p <= n
    ensures 0.0 <= (p as real) / (n as real) <= 1.0
    ensures (p as real) / (n as real) == 1.0 <==> p == n
    ensures (p as real) / (n as real) == 0.0 <==> p == 0
  {
    var q := (p as real) / (n as real);
    assert q * (n as real) == p as real;
  }

  /** numpy's `mean` on a non-empty list, in exact arithmetic. */
  function Mean(s: seq<real>): real
    requires |s| > 0
  {
    Sum(s) / (|s| as real)
  }
}
