/** Python's ordering of `str` values and the sorted pair `tuple(sorted([a, b]))` the global
    graph uses as the key of an unordered co-occurrence. */
module LexOrder {

  /** `a <= b` on Python strings: code-point lexicographic order, a proper prefix first. */
  predicate LexLe(a: string, b: string) {
    |a| == 0 || (|b| > 0 && (a[0] < b[0] || (a[0] == b[0] && LexLe(a[1..], b[1..]))))
  }

  lemma {:induction false} LexLeTotal(a: string, b: string)
    ensures LexLe(a, b) || LexLe(b, a)
  {
    if |a| > 0 && |b| > 0 && a[0] == b[0] {
      LexLeTotal(a[1..], b[1..]);
    }
  }

  lemma {:induction false} LexLeAntisymmetric(a: string, b: string)
    requires LexLe(a, b) && LexLe(b, a)
    ensures a == b
  {
    if |a| > 0 && |b| > 0 {
      LexLeAntisymmetric(a[1..], b[1..]);
      assert a == [a[0]] + a[1..] && b == [b[0]] + b[1..];
    }
  }

  /** `tuple(sorted([a, b]))`: the two labels, smaller first. */
  function SortedPair(a: string, b: string): (p: (string, string))
    ensures LexLe(p.0, p.1)
    ensures p == (a, b) || p == (b, a)
  {
    LexLeTotal(a, b);
    if LexLe(a, b) then (a, b) else (b, a)
  }

  /** The key does not depend on which of the two labels came first. */
  lemma SortedPairSymmetric(a: string, b: string)
    ensures SortedPair(a, b) == SortedPair(b, a)
  {
    if LexLe(a, b) && LexLe(b, a) {
      LexLeAntisymmetric(a, b);
    }
  }

  /** A pair is its own key exactly when it is already in order. */
  lemma SortedPairFixed(a: string, b: string)
    ensures SortedPair(a, b) == (a, b) <==> LexLe(a, b)
  {
    LexLeTotal(a, a);
  }
}
