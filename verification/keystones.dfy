/** Keystone distortions (`find_keystone_distortions`, gear_retrieval.py:153-186): the query
    graph's nodes ranked by 0.6 times betweenness plus 0.4 times degree centrality, or by plain
    degree when the betweenness computation fails. Betweenness is the library's and is passed
    in: `None` stands for the computation raising. */
module Keystones {
  import opened Common
  import opened Entities
  import opened StableSort
  import opened Pattern
  import opened Similarity

  /** The weights sum to 1: a node's score is at least 0.4 of its degree centrality when its
      betweenness is not negative, and at most 1 when both measures are at most 1. */
  function Score(q: Digraph<nat>, betweenness: map<Id, real>, n: Id): (r: real)
    ensures GetR(betweenness, n) >= 0.0 ==> r >= 0.4 * DegreeCentrality(q, n) >= 0.0
    ensures 0.0 <= GetR(betweenness, n) <= 1.0 && DegreeCentrality(q, n) <= 1.0 ==> r <= 1.0
  {
    0.6 * GetR(betweenness, n) + 0.4 * DegreeCentrality(q, n)
  }

  /** The ranking key of a node, on either branch. Keys are never negative when betweenness is
      not, and the fallback key is the degree centrality without its normalisation. */
  function KeyOf(q: Digraph<nat>, betweenness: Option<map<Id, real>>, n: Id): (r: real)
    ensures (betweenness.Some? ==> GetR(betweenness.value, n) >= 0.0) ==> r >= 0.0
    ensures betweenness.None? && |q.nodes| > 1 ==> r == DegreeCentrality(q, n) * ((|q.nodes| - 1) as real)
  {
    match betweenness
    case Some(b) => Score(q, b, n)
    case None => Degree(q, n) as real
  }

  /** Each node paired with its key, in node order. */
  function Scored(q: Digraph<nat>, betweenness: Option<map<Id, real>>, ns: seq<Id>): (r: seq<(Id, real)>)
    ensures |r| == |ns|
    ensures forall i :: 0 <= i < |ns| ==> r[i] == (ns[i], KeyOf(q, betweenness, ns[i]))
  {
    if |ns| == 0 then [] else [(ns[0], KeyOf(q, betweenness, ns[0]))] + Scored(q, betweenness, ns[1..])
  }

  function Second(p: (Id, real)): real {
    p.1
  }

  /** `find_keystone_distortions`. */
  function FindKeystones(global: Digraph<nat>, ds: seq<Id>, betweenness: Option<map<Id, real>>): (r: seq<(Id, real)>)
    ensures ds == [] <==> r == []
    ensures NonIncreasing(r, Second)
  {
    var q := ExtractUserPattern(global, ds);
    assert ds != [] ==> ds[0] in q.nodes;
    if |q.nodes| == 0 then
      []
    else
      assert q.nodes[0] in ds;
      SortDesc(Scored(q, betweenness, q.nodes), Second)
  }

  /** Each distinct queried distortion is ranked exactly once, with its own key. */
  lemma KeystonesExact(global: Digraph<nat>, ds: seq<Id>, betweenness: Option<map<Id, real>>)
    ensures var q := ExtractUserPattern(global, ds);
            var r := FindKeystones(global, ds, betweenness);
            && |r| == |q.nodes|
            && NoDup(r)
            && forall p: (Id, real) :: p in r <==> p.0 in ds && p.1 == KeyOf(q, betweenness, p.0)
  {
    var q := ExtractUserPattern(global, ds);
    var r := FindKeystones(global, ds, betweenness);
    if |q.nodes| > 0 {
      var s := Scored(q, betweenness, q.nodes);
      assert NoDup(s) by {
        forall i, j | 0 <= i < j < |s|
          ensures s[i] != s[j]
        {
          assert s[i].0 == q.nodes[i] && s[j].0 == q.nodes[j];
        }
      }
      PermutationKeepsNoDup(s, r);
      forall p: (Id, real)
        ensures p in r <==> p in s
      {
        assert p in r <==> p in multiset(r);
        assert p in s <==> p in multiset(s);
      }
      forall p: (Id, real) | p.0 in ds && p.1 == KeyOf(q, betweenness, p.0)
        ensures p in s
      {
        var i :| 0 <= i < |q.nodes| && q.nodes[i] == p.0;
        assert s[i] == p;
      }
    } else {
      assert forall d :: d !in ds;
    }
  }

  /** A rearrangement of a list without repeats has none either. */
  lemma PermutationKeepsNoDup<T>(s: seq<T>, r: seq<T>)
    requires NoDup(s) && multiset(r) == multiset(s)
    ensures NoDup(r)
  {
    forall i, j | 0 <= i < j < |r|
      ensures r[i] != r[j]
    {
      RepeatCounted(r, i, j);
      NoDupCounted(s, r[i]);
    }
  }

  lemma RepeatCounted<T>(r: seq<T>, i: nat, j: nat)
    requires i < j < |r|
    ensures multiset(r)[r[i]] >= if r[i] == r[j] then 2 else 1
  {
    assert r == r[..i] + [r[i]] + r[i + 1..j] + [r[j]] + r[j + 1..];
  }

  lemma {:induction false} NoDupCounted<T>(s: seq<T>, x: T)
    requires NoDup(s)
    ensures multiset(s)[x] <= 1
  {
    if |s| > 0 {
      NoDupTail(s);
      NoDupCounted(s[1..], x);
      assert s == [s[0]] + s[1..];
      if x == s[0] {
        assert x !in multiset(s[1..]);
      }
    }
  }

  /** A single queried distortion has no edges to lie between and is alone in its graph, so with
      the library's zero betweenness it scores 0.4. */
  lemma SingleKeystone(global: Digraph<nat>, x: Id, b: map<Id, real>)
    requires GetR(b, x) == 0.0
    ensures FindKeystones(global, [x], Some(b)) == [(x, 0.4)]
  {
    var q := ExtractUserPattern(global, [x]);
    assert q.nodes == [x] by {
      assert [x][1..] == [];
      assert AppendNew([], [x]) == AppendNew([x], []);
    }
  }
}
