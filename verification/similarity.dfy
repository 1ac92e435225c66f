/** Degree centrality and the multi-metric graph similarity (`_compute_graph_similarity`,
    gear_retrieval.py:101-151): 0.4 times the node Jaccard index, 0.3 times the edge Jaccard
    index, and 0.3 times the mean agreement of degree centrality over shared nodes. */
module Similarity {
  import opened Common
  import opened Entities

  /** networkx's `degree` on a directed graph: out-degree plus in-degree, so a self-loop counts
      twice. */
  function Degree(g: Digraph<nat>, n: Id): nat {
    |set k | k in g.edges && k.0 == n| + |set k | k in g.edges && k.1 == n|
  }

  /** networkx's `degree_centrality`: the degree over the number of other nodes, and 1 for
      every node of a graph with at most one node. */
  function DegreeCentrality(g: Digraph<nat>, n: Id): (r: real)
    ensures r >= 0.0
    ensures |g.nodes| > 1 ==> r * ((|g.nodes| - 1) as real) == Degree(g, n) as real
    ensures |g.nodes| > 1 ==> (r == 0.0 <==> Degree(g, n) == 0)
  {
    if |g.nodes| <= 1 then 1.0 else (Degree(g, n) as real) / ((|g.nodes| - 1) as real)
  }

  function Abs(x: real): real {
    if x < 0.0 then -x else x
  }

  /** `1 - abs(deg1[n] - deg2[n])`. */
  function Agreement(g1: Digraph<nat>, g2: Digraph<nat>, n: Id): real {
    1.0 - Abs(DegreeCentrality(g1, n) - DegreeCentrality(g2, n))
  }

  /** Some element of a non-empty set: the next one a set iteration visits. */
  ghost function Pick<T>(s: set<T>): (x: T)
    requires s != {}
    ensures x in s
  {
    var x :| x in s; x
  }

  /** The sum of the agreements over a set of nodes, in whatever order the set is visited. */
  ghost function AgreementSum(g1: Digraph<nat>, g2: Digraph<nat>, s: set<Id>): real
    decreases s
  {
    if s == {} then 0.0
    else
      var n := Pick(s);
      Agreement(g1, g2, n) + AgreementSum(g1, g2, s - {n})
  }

  function Jaccard<T>(a: set<T>, b: set<T>): (r: real)
    requires a + b != {}
    ensures 0.0 <= r <= 1.0
  {
    assert a * b <= a + b;
    assert |a * b| <= |a + b| by {
      SubsetCard(a * b, a + b);
    }
    (|a * b| as real) / (|a + b| as real)
  }

  lemma JaccardDisjoint<T>(a: set<T>, b: set<T>)
    requires a + b != {} && a * b == {}
    ensures Jaccard(a, b) == 0.0
  {
    assert |a * b| == 0;
  }

  lemma SubsetCard<T>(a: set<T>, b: set<T>)
    requires a <= b
    ensures |a| <= |b|
  {
    assert b == a + (b - a);
  }

  /** The node Jaccard index of two graphs with nodes. */
  function NodeJaccard(g1: Digraph<nat>, g2: Digraph<nat>): real
    requires g1.nodes != [] && g2.nodes != []
  {
    assert g1.nodes[0] in ToSet(g1.nodes);
    Jaccard(ToSet(g1.nodes), ToSet(g2.nodes))
  }

  /** The edge Jaccard index, or 0 when either graph has no edge. */
  function EdgeJaccard(g1: Digraph<nat>, g2: Digraph<nat>): real {
    if g1.edges.Keys != {} && g2.edges.Keys != {} then Jaccard(g1.edges.Keys, g2.edges.Keys) else 0.0
  }

  /** The mean agreement over the shared nodes, or 0 when none is shared. */
  ghost function CentralitySim(g1: Digraph<nat>, g2: Digraph<nat>): real {
    var shared := ToSet(g1.nodes) * ToSet(g2.nodes);
    if shared != {} then AgreementSum(g1, g2, shared) / (|shared| as real) else 0.0
  }

  /** The weights sum to 1: three equal scores combine to that score, and scores in [0, 1]
      combine to a score in [0, 1]. */
  function Combine(nodeJaccard: real, edgeJaccard: real, centralitySim: real): (r: real)
    ensures nodeJaccard == edgeJaccard == centralitySim ==> r == nodeJaccard
    ensures 0.0 <= nodeJaccard <= 1.0 && 0.0 <= edgeJaccard <= 1.0 && 0.0 <= centralitySim <= 1.0
            ==> 0.0 <= r <= 1.0
  {
    0.4 * nodeJaccard + 0.3 * edgeJaccard + 0.3 * centralitySim
  }

  /** `_compute_graph_similarity`: 0 when either graph has no node. */
  ghost function GraphSimilarity(g1: Digraph<nat>, g2: Digraph<nat>): (r: real)
    ensures g1.nodes == [] || g2.nodes == [] ==> r == 0.0
  {
    if g1.nodes == [] || g2.nodes == [] then 0.0
    else Combine(NodeJaccard(g1, g2), EdgeJaccard(g1, g2), CentralitySim(g1, g2))
  }

  lemma {:induction false} AgreementSumSymmetric(g1: Digraph<nat>, g2: Digraph<nat>, s: set<Id>)
    ensures AgreementSum(g1, g2, s) == AgreementSum(g2, g1, s)
    decreases s
  {
    if s != {} {
      AgreementSumSymmetric(g1, g2, s - {Pick(s)});
    }
  }

  /** The similarity does not depend on the order of its arguments. */
  lemma SimilaritySymmetric(g1: Digraph<nat>, g2: Digraph<nat>)
    ensures GraphSimilarity(g1, g2) == GraphSimilarity(g2, g1)
  {
    if g1.nodes != [] && g2.nodes != [] {
      var n1, n2 := ToSet(g1.nodes), ToSet(g2.nodes);
      assert n1 * n2 == n2 * n1 && n1 + n2 == n2 + n1;
      assert NodeJaccard(g1, g2) == NodeJaccard(g2, g1);
      var e1, e2 := g1.edges.Keys, g2.edges.Keys;
      assert e1 * e2 == e2 * e1 && e1 + e2 == e2 + e1;
      assert EdgeJaccard(g1, g2) == EdgeJaccard(g2, g1);
      AgreementSumSymmetric(g1, g2, n1 * n2);
      assert CentralitySim(g1, g2) == CentralitySim(g2, g1);
    }
  }

  lemma {:induction false} AgreementSumSelf(g: Digraph<nat>, s: set<Id>)
    ensures AgreementSum(g, g, s) == |s| as real
    decreases s
  {
    if s != {} {
      AgreementSumSelf(g, s - {Pick(s)});
    }
  }

  /** A graph with nodes matches itself fully on nodes and centrality, and on edges when it has
      any: 1.0 with an edge, 0.7 without. */
  lemma SelfSimilarity(g: Digraph<nat>)
    requires g.nodes != []
    ensures GraphSimilarity(g, g) == if g.edges != map[] then 1.0 else 0.7
  {
    var n := ToSet(g.nodes);
    assert g.nodes[0] in n;
    assert n * n == n && n + n == n;
    SelfRatio(|n|);
    assert NodeJaccard(g, g) == 1.0;
    AgreementSumSelf(g, n);
    assert CentralitySim(g, g) == 1.0;
    if g.edges != map[] {
      var k :| k in g.edges;
      assert k in g.edges.Keys;
      var e := g.edges.Keys;
      assert e * e == e && e + e == e;
      SelfRatio(|e|);
      assert EdgeJaccard(g, g) == 1.0;
    } else {
      assert g.edges.Keys == {};
    }
  }

  lemma SelfRatio(n: nat)
    requires n > 0
    ensures (n as real) / (n as real) == 1.0
  {
  }

  /** Well-formed graphs with no node in common share no edge either and score 0. */
  lemma DisjointSimilarity(g1: Digraph<nat>, g2: Digraph<nat>)
    requires g1.Valid() && g2.Valid()
    requires forall n :: n in g1.nodes ==> n !in g2.nodes
    ensures GraphSimilarity(g1, g2) == 0.0
  {
    if g1.nodes != [] && g2.nodes != [] {
      var n1, n2 := ToSet(g1.nodes), ToSet(g2.nodes);
      assert n1 * n2 == {} by {
        forall x | x in n1
          ensures x !in n2
        {
          assert x in g1.nodes;
        }
      }
      assert g1.nodes[0] in n1 + n2;
      JaccardDisjoint(n1, n2);
      assert CentralitySim(g1, g2) == 0.0;
      assert g1.edges.Keys * g2.edges.Keys == {} by {
        forall k | k in g1.edges.Keys
          ensures k !in g2.edges.Keys
        {
          assert k.0 in g1.nodes;
        }
      }
      if g1.edges.Keys != {} && g2.edges.Keys != {} {
        JaccardDisjoint(g1.edges.Keys, g2.edges.Keys);
      }
    }
  }
}
