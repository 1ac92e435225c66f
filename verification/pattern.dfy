/** The query graph (`extract_user_pattern`, gear_retrieval.py:54-71): one node per distinct
    queried distortion, and the global graph's edge `d1 -> d2`, with its weight, for every `d1`
    queried before some `d2`. The reverse direction is never probed. */
module Pattern {
  import opened Common
  import opened Entities

  /** Every edge of `m` is an edge of `global` with the same weight. */
  predicate Agrees(m: map<(Id, Id), nat>, global: Digraph<nat>) {
    forall k :: k in m ==> k in global.edges && m[k] == global.edges[k]
  }

  /** The inner loop: probes `d1 -> d2` for each later `d2`. */
  function ProbeFrom(global: Digraph<nat>, acc: map<(Id, Id), nat>, d1: Id, rest: seq<Id>): (r: map<(Id, Id), nat>)
    requires Agrees(acc, global)
    ensures Agrees(r, global)
    ensures forall k :: k in r <==> k in acc || (k.0 == d1 && k.1 in rest && k in global.edges)
    decreases |rest|
  {
    if |rest| == 0 then acc
    else
      var k := (d1, rest[0]);
      var r := ProbeFrom(global, if k in global.edges then acc[k := global.edges[k]] else acc, d1, rest[1..]);
      assert forall x :: x in rest <==> x == rest[0] || x in rest[1..];
      r
  }

  /** The outer loop over the queried distortions in order. */
  function ProbeAll(global: Digraph<nat>, acc: map<(Id, Id), nat>, ds: seq<Id>): (r: map<(Id, Id), nat>)
    requires Agrees(acc, global)
    ensures Agrees(r, global)
    decreases |ds|
  {
    if |ds| == 0 then acc else ProbeAll(global, ProbeFrom(global, acc, ds[0], ds[1..]), ds[1..])
  }

  lemma {:induction false} ProbeAllExact(global: Digraph<nat>, acc: map<(Id, Id), nat>, ds: seq<Id>)
    requires Agrees(acc, global)
    ensures forall k :: k in ProbeAll(global, acc, ds) <==> k in acc || (k in global.edges && Precedes(ds, k.0, k.1))
    decreases |ds|
  {
    if |ds| > 0 {
      var acc' := ProbeFrom(global, acc, ds[0], ds[1..]);
      ProbeAllExact(global, acc', ds[1..]);
      forall k: (Id, Id)
        ensures Precedes(ds, k.0, k.1) <==> (ds[0] == k.0 && k.1 in ds[1..]) || Precedes(ds[1..], k.0, k.1)
      {
        PrecedesCons(ds, k.0, k.1);
      }
    }
  }

  /** `extract_user_pattern`. The nodes carry no attributes. */
  function ExtractUserPattern(global: Digraph<nat>, ds: seq<Id>): (q: Digraph<nat>)
    ensures q.Valid()
    ensures forall d :: d in q.nodes <==> d in ds
    ensures q.attrs == map[]
  {
    var edges := ProbeAll(global, map[], ds);
    ProbeAllExact(global, map[], ds);
    forall k | k in edges
      ensures k.0 in ds && k.1 in ds
    {
      var i, j :| 0 <= i < j < |ds| && ds[i] == k.0 && ds[j] == k.1;
    }
    Digraph(Dedup(ds), map[], edges)
  }

  /** The query graph's edges: `a -> b` is there exactly when `a` is queried before `b` and the
      global graph has `a -> b`, and it carries the global weight. */
  lemma PatternEdge(global: Digraph<nat>, ds: seq<Id>, a: Id, b: Id)
    ensures var q := ExtractUserPattern(global, ds);
            && ((a, b) in q.edges <==> Precedes(ds, a, b) && (a, b) in global.edges)
            && ((a, b) in q.edges ==> q.edges[(a, b)] == global.edges[(a, b)])
  {
    ProbeAllExact(global, map[], ds);
  }

  /** The position of `x` in a list that holds it. */
  function IndexOf(s: seq<Id>, x: Id): (i: nat)
    requires x in s
    ensures i < |s| && s[i] == x
    ensures forall j :: 0 <= j < i ==> s[j] != x
  {
    if s[0] == x then 0 else 1 + IndexOf(s[1..], x)
  }

  /** With no distortion queried twice, every query edge points forward in the query. */
  lemma ForwardEdges(global: Digraph<nat>, ds: seq<Id>, a: Id, b: Id)
    requires NoDup(ds)
    requires (a, b) in ExtractUserPattern(global, ds).edges
    ensures a in ds && b in ds && IndexOf(ds, a) < IndexOf(ds, b)
  {
    PatternEdge(global, ds, a, b);
    var i, j :| 0 <= i < j < |ds| && ds[i] == a && ds[j] == b;
    assert IndexOf(ds, a) == i;
    assert IndexOf(ds, b) == j;
  }
}
