/** Cascade paths (`find_cascade_paths`, gear_retrieval.py:188-229): every simple path of the
    query graph with at most `maxLength` edges between two different nodes, ranked by the sum of
    its edge weights, best ten kept. The library's path enumeration is specified by the set of
    paths it yields; this model enumerates them depth first in node order. */
module Cascades {
  import opened Common
  import opened Entities
  import opened StableSort
  import opened Pattern

  function Last(p: seq<Id>): Id
    requires |p| > 0
  {
    p[|p| - 1]
  }

  /** Consecutive nodes are joined by edges. */
  predicate Chain(g: Digraph<nat>, p: seq<Id>) {
    forall i :: 0 <= i < |p| - 1 ==> (p[i], p[i + 1]) in g.edges
  }

  /** A simple path of `g`: it starts at a node of `g`, never revisits a node and follows edges. */
  predicate SimplePath(g: Digraph<nat>, p: seq<Id>) {
    |p| >= 1 && p[0] in g.nodes && NoDup(p) && Chain(g, p)
  }

  /** The simple paths that extend `p` by up to `fuel` more nodes, trying the next node in the
      order of `vs` and each extension's own extensions right after it. */
  function Extensions(g: Digraph<nat>, p: seq<Id>, fuel: nat, vs: seq<Id>): (r: seq<seq<Id>>)
    requires |p| >= 1
    ensures forall q :: q in r ==> |p| < |q| <= |p| + fuel && q[..|p|] == p && q[|p|] in vs
    decreases fuel, |vs|
  {
    if fuel == 0 || |vs| == 0 then []
    else
      var v := vs[0];
      var here :=
        if (Last(p), v) in g.edges && v !in p then
          var deeper := Extensions(g, p + [v], fuel - 1, g.nodes);
          DeeperExtends(p, v, deeper);
          [p + [v]] + deeper
        else [];
      here + Extensions(g, p, fuel, vs[1..])
  }

  /** A path that extends `p + [v]` extends `p` through `v`. */
  lemma DeeperExtends(p: seq<Id>, v: Id, deeper: seq<seq<Id>>)
    requires forall q :: q in deeper ==> |p + [v]| < |q| && q[..|p + [v]|] == p + [v]
    ensures forall q :: q in deeper ==> q[..|p|] == p && q[|p|] == v
  {
    forall q | q in deeper
      ensures q[..|p|] == p && q[|p|] == v
    {
      assert q[..|p|] == q[..|p| + 1][..|p|];
      assert q[|p|] == q[..|p| + 1][|p|];
    }
  }

  lemma SimpleExtend(g: Digraph<nat>, p: seq<Id>, v: Id)
    requires SimplePath(g, p) && (Last(p), v) in g.edges && v !in p
    ensures SimplePath(g, p + [v])
  {
    var q := p + [v];
    forall i | 0 <= i < |q| - 1
      ensures (q[i], q[i + 1]) in g.edges
    {
      if i < |p| - 1 {
        assert q[i] == p[i] && q[i + 1] == p[i + 1];
      }
    }
    NoDupAppend(p, [v]);
  }

  lemma SimplePrefix(g: Digraph<nat>, q: seq<Id>, n: nat)
    requires SimplePath(g, q) && 1 <= n <= |q|
    ensures SimplePath(g, q[..n])
  {
    var r := q[..n];
    forall i | 0 <= i < |r| - 1
      ensures (r[i], r[i + 1]) in g.edges
    {
      assert r[i] == q[i] && r[i + 1] == q[i + 1];
    }
    forall i, j | 0 <= i < j < |r|
      ensures r[i] != r[j]
    {
      assert r[i] == q[i] && r[j] == q[j];
    }
  }

  /** `q` is a simple path extending `p` by between one and `fuel` nodes, the first of them
      taken from `vs`. */
  predicate ExtendsBy(g: Digraph<nat>, p: seq<Id>, fuel: nat, vs: seq<Id>, q: seq<Id>) {
    |p| < |q| <= |p| + fuel && q[..|p|] == p && q[|p|] in vs && SimplePath(g, q)
  }

  /** The enumeration from `p` yields exactly the simple paths that extend `p`, by between one
      and `fuel` nodes, whose next node is one of `vs`. */
  ghost predicate Enumerates(g: Digraph<nat>, p: seq<Id>, fuel: nat, vs: seq<Id>)
    requires |p| >= 1
  {
    forall q :: q in Extensions(g, p, fuel, vs) <==> ExtendsBy(g, p, fuel, vs, q)
  }

  lemma {:induction false} ExtensionsExact(g: Digraph<nat>, p: seq<Id>, fuel: nat, vs: seq<Id>)
    requires g.Valid() && SimplePath(g, p)
    ensures Enumerates(g, p, fuel, vs)
    decreases fuel, |vs|
  {
    if fuel > 0 && |vs| > 0 {
      ExtensionsExact(g, p, fuel, vs[1..]);
      if (Last(p), vs[0]) in g.edges && vs[0] !in p {
        SimpleExtend(g, p, vs[0]);
        ExtensionsExact(g, p + [vs[0]], fuel - 1, g.nodes);
        ExtensionsThrough(g, p, fuel, vs);
      } else {
        ExtensionsPast(g, p, fuel, vs);
      }
    } else {
      ExtensionsNone(g, p, fuel, vs);
    }
  }

  /** Without fuel or candidates there is nothing to enumerate. */
  lemma ExtensionsNone(g: Digraph<nat>, p: seq<Id>, fuel: nat, vs: seq<Id>)
    requires |p| >= 1 && (fuel == 0 || |vs| == 0)
    ensures Enumerates(g, p, fuel, vs)
  {
    assert Extensions(g, p, fuel, vs) == [];
    forall q
      ensures !ExtendsBy(g, p, fuel, vs, q)
    {
      if fuel > 0 && |p| < |q| {
        assert q[|p|] !in vs;
      }
    }
  }

  /** One step of the enumeration when `p` cannot go on to the first candidate. */
  lemma ExtensionsPast(g: Digraph<nat>, p: seq<Id>, fuel: nat, vs: seq<Id>)
    requires SimplePath(g, p) && fuel > 0 && |vs| > 0
    requires !((Last(p), vs[0]) in g.edges && vs[0] !in p)
    requires Enumerates(g, p, fuel, vs[1..])
    ensures Enumerates(g, p, fuel, vs)
  {
    assert Extensions(g, p, fuel, vs) == Extensions(g, p, fuel, vs[1..]);
    forall q
      ensures q in Extensions(g, p, fuel, vs) <==> ExtendsBy(g, p, fuel, vs, q)
    {
      PastNext(g, p, fuel, vs, q);
    }
  }

  /** One step of the enumeration when `p` can go on to the first candidate: `p` extended by
      it, then that path's own extensions, then the extensions through later candidates. */
  lemma ExtensionsThrough(g: Digraph<nat>, p: seq<Id>, fuel: nat, vs: seq<Id>)
    requires g.Valid() && SimplePath(g, p) && fuel > 0 && |vs| > 0
    requires (Last(p), vs[0]) in g.edges && vs[0] !in p
    requires Enumerates(g, p, fuel, vs[1..])
    requires Enumerates(g, p + [vs[0]], fuel - 1, g.nodes)
    ensures Enumerates(g, p, fuel, vs)
  {
    var pv := p + [vs[0]];
    var deeper, rest := Extensions(g, pv, fuel - 1, g.nodes), Extensions(g, p, fuel, vs[1..]);
    assert Extensions(g, p, fuel, vs) == [pv] + deeper + rest;
    forall q
      ensures q in Extensions(g, p, fuel, vs) <==> ExtendsBy(g, p, fuel, vs, q)
    {
      assert q in Extensions(g, p, fuel, vs) <==> q == pv || q in deeper || q in rest;
      ThroughNext(g, p, fuel, vs, q);
    }
  }

  /** When `p` can go on to the first candidate `v`, an extension either is `p + [v]`, or
      extends it further, or starts with a later candidate. */
  lemma ThroughNext(g: Digraph<nat>, p: seq<Id>, fuel: nat, vs: seq<Id>, q: seq<Id>)
    requires g.Valid() && SimplePath(g, p) && fuel > 0 && |vs| > 0
    requires (Last(p), vs[0]) in g.edges && vs[0] !in p
    ensures ExtendsBy(g, p, fuel, vs, q)
        <==> q == p + [vs[0]] || ExtendsBy(g, p + [vs[0]], fuel - 1, g.nodes, q) || ExtendsBy(g, p, fuel, vs[1..], q)
  {
    var v, pv := vs[0], p + [vs[0]];
    SimpleExtend(g, p, v);
    assert forall x :: x in vs <==> x == v || x in vs[1..];
    if ExtendsBy(g, p, fuel, vs, q) && q[|p|] == v && q != pv {
      assert q[..|p| + 1] == pv;
      assert (q[|p|], q[|p| + 1]) in g.edges;
      assert q[..|pv|] == pv;
    }
    if ExtendsBy(g, pv, fuel - 1, g.nodes, q) {
      assert q[..|p|] == q[..|pv|][..|p|];
      assert q[|p|] == q[..|pv|][|p|];
    }
  }

  /** When `p` cannot go on to the first candidate, the extensions are those through later
      candidates. */
  lemma PastNext(g: Digraph<nat>, p: seq<Id>, fuel: nat, vs: seq<Id>, q: seq<Id>)
    requires SimplePath(g, p) && |vs| > 0
    requires !((Last(p), vs[0]) in g.edges && vs[0] !in p)
    ensures ExtendsBy(g, p, fuel, vs, q) <==> ExtendsBy(g, p, fuel, vs[1..], q)
  {
    assert forall x :: x in vs <==> x == vs[0] || x in vs[1..];
    if ExtendsBy(g, p, fuel, vs, q) {
      assert q[|p| - 1] == Last(p);
      assert q[|p|] !in q[..|p|];
    }
  }

  // ---------------------------------------------------------------------------------------
  // Collecting and ranking

  /** The paths of `ps` that end at `t`, in order. */
  function EndingAt(ps: seq<seq<Id>>, t: Id): (r: seq<seq<Id>>)
    ensures forall p :: p in r <==> p in ps && |p| > 0 && Last(p) == t
  {
    if |ps| == 0 then []
    else
      var r := (if |ps[0]| > 0 && Last(ps[0]) == t then [ps[0]] else []) + EndingAt(ps[1..], t);
      assert forall p :: p in ps <==> p == ps[0] || p in ps[1..];
      r
  }

  /** `all_simple_paths(G, s, t, cutoff=maxLength)` for each target `t` of `ts` other than `s`,
      one target after the other. */
  function PathsFrom(g: Digraph<nat>, s: Id, ts: seq<Id>, maxLength: nat): seq<seq<Id>> {
    if |ts| == 0 then []
    else
      (if s != ts[0] then EndingAt(Extensions(g, [s], maxLength, g.nodes), ts[0]) else [])
      + PathsFrom(g, s, ts[1..], maxLength)
  }

  /** The candidates from each source of `ss` in turn. */
  function AllPaths(g: Digraph<nat>, ss: seq<Id>, maxLength: nat): seq<seq<Id>> {
    if |ss| == 0 then [] else PathsFrom(g, ss[0], g.nodes, maxLength) + AllPaths(g, ss[1..], maxLength)
  }

  /** A cascade: a simple path of two to `maxLength + 1` nodes. */
  predicate Cascade(g: Digraph<nat>, maxLength: nat, p: seq<Id>) {
    SimplePath(g, p) && 2 <= |p| <= maxLength + 1
  }

  lemma {:induction false} PathsFromExact(g: Digraph<nat>, s: Id, ts: seq<Id>, maxLength: nat, p: seq<Id>)
    requires g.Valid() && s in g.nodes
    ensures p in PathsFrom(g, s, ts, maxLength)
        <==> |p| > 0 && Last(p) in ts && Last(p) != s && ExtendsBy(g, [s], maxLength, g.nodes, p)
  {
    if |ts| > 0 {
      PathsFromExact(g, s, ts[1..], maxLength, p);
      assert SimplePath(g, [s]);
      ExtensionsExact(g, [s], maxLength, g.nodes);
      assert forall x :: x in ts <==> x == ts[0] || x in ts[1..];
    }
  }

  lemma {:induction false} AllPathsExact(g: Digraph<nat>, ss: seq<Id>, maxLength: nat, p: seq<Id>)
    requires g.Valid() && forall x :: x in ss ==> x in g.nodes
    ensures p in AllPaths(g, ss, maxLength)
        <==> |p| > 0 && p[0] in ss && Last(p) in g.nodes && Last(p) != p[0]
             && ExtendsBy(g, [p[0]], maxLength, g.nodes, p)
  {
    if |ss| > 0 {
      AllPathsExact(g, ss[1..], maxLength, p);
      PathsFromExact(g, ss[0], g.nodes, maxLength, p);
      AllPathsStep(g, ss, maxLength, p);
    }
  }

  /** The candidates from the first source, then those from the others. */
  lemma AllPathsStep(g: Digraph<nat>, ss: seq<Id>, maxLength: nat, p: seq<Id>)
    requires |ss| > 0
    requires p in PathsFrom(g, ss[0], g.nodes, maxLength)
        <==> |p| > 0 && Last(p) in g.nodes && Last(p) != ss[0] && ExtendsBy(g, [ss[0]], maxLength, g.nodes, p)
    requires p in AllPaths(g, ss[1..], maxLength)
        <==> |p| > 0 && p[0] in ss[1..] && Last(p) in g.nodes && Last(p) != p[0]
             && ExtendsBy(g, [p[0]], maxLength, g.nodes, p)
    ensures p in AllPaths(g, ss, maxLength)
        <==> |p| > 0 && p[0] in ss && Last(p) in g.nodes && Last(p) != p[0]
             && ExtendsBy(g, [p[0]], maxLength, g.nodes, p)
  {
    assert AllPaths(g, ss, maxLength) == PathsFrom(g, ss[0], g.nodes, maxLength) + AllPaths(g, ss[1..], maxLength);
    assert forall x :: x in ss <==> x == ss[0] || x in ss[1..];
    if p in PathsFrom(g, ss[0], g.nodes, maxLength) {
      assert p[..1] == [ss[0]];
      assert p[0] == ss[0];
    }
  }

  /** The candidates are exactly the cascades of the graph. */
  lemma CandidatesExact(g: Digraph<nat>, maxLength: nat, p: seq<Id>)
    requires g.Valid()
    ensures p in AllPaths(g, g.nodes, maxLength) <==> Cascade(g, maxLength, p)
  {
    AllPathsExact(g, g.nodes, maxLength, p);
    if Cascade(g, maxLength, p) {
      assert (p[0], p[1]) in g.edges;
      assert (p[|p| - 2], p[|p| - 1]) in g.edges;
      assert p[..1] == [p[0]];
    }
  }

  /** The sum of the weights of a path's edges. */
  function PathWeight(g: Digraph<nat>, p: seq<Id>): nat
    requires Chain(g, p)
  {
    if |p| < 2 then 0
    else
      assert Chain(g, p[1..]) by {
        forall i | 0 <= i < |p[1..]| - 1
          ensures (p[1..][i], p[1..][i + 1]) in g.edges
        {
          assert p[1..][i] == p[i + 1] && p[1..][i + 1] == p[i + 2];
        }
      }
      g.edges[(p[0], p[1])] + PathWeight(g, p[1..])
  }

  /** Each path with its weight, in order. */
  function WithWeights(g: Digraph<nat>, ps: seq<seq<Id>>): (r: seq<(seq<Id>, real)>)
    requires forall p :: p in ps ==> Chain(g, p)
    ensures |r| == |ps|
    ensures forall i :: 0 <= i < |ps| ==> r[i] == (ps[i], PathWeight(g, ps[i]) as real)
  {
    if |ps| == 0 then [] else [(ps[0], PathWeight(g, ps[0]) as real)] + WithWeights(g, ps[1..])
  }

  function WeightKey(x: (seq<Id>, real)): real {
    x.1
  }

  function PathsOf(xs: seq<(seq<Id>, real)>): (r: seq<seq<Id>>)
    ensures |r| == |xs| && forall i :: 0 <= i < |xs| ==> r[i] == xs[i].0
  {
    if |xs| == 0 then [] else [xs[0].0] + PathsOf(xs[1..])
  }

  /** The ranked list of weighted cascades of the query graph. */
  function RankedCascades(q: Digraph<nat>, maxLength: nat): seq<(seq<Id>, real)>
    requires q.Valid()
  {
    var ps := AllPaths(q, q.nodes, maxLength);
    forall p | p in ps
      ensures Chain(q, p)
    {
      CandidatesExact(q, maxLength, p);
    }
    SortDesc(WithWeights(q, ps), WeightKey)
  }

  /** The `n` heaviest cascades of the query graph, heaviest first. */
  function TopCascades(global: Digraph<nat>, ds: seq<Id>, maxLength: nat, n: nat): (r: seq<seq<Id>>)
    ensures |r| <= n
  {
    var q := ExtractUserPattern(global, ds);
    PathsOf(Take(RankedCascades(q, maxLength), n))
  }

  /** `find_cascade_paths`: the ten heaviest cascades of the query graph. */
  function FindCascadePaths(global: Digraph<nat>, ds: seq<Id>, maxLength: nat): (r: seq<seq<Id>>)
    ensures |r| <= 10
  {
    TopCascades(global, ds, maxLength, 10)
  }

  /** A ranked entry: a cascade with its own weight. */
  predicate Weighed(q: Digraph<nat>, maxLength: nat, x: (seq<Id>, real)) {
    Cascade(q, maxLength, x.0) && x.1 == PathWeight(q, x.0) as real
  }

  lemma RankedWeighed(q: Digraph<nat>, maxLength: nat)
    requires q.Valid()
    ensures forall x :: x in RankedCascades(q, maxLength) ==> Weighed(q, maxLength, x)
  {
    var ps := AllPaths(q, q.nodes, maxLength);
    forall p | p in ps
      ensures Cascade(q, maxLength, p)
    {
      CandidatesExact(q, maxLength, p);
    }
    var ws := WithWeights(q, ps);
    var r := RankedCascades(q, maxLength);
    forall x | x in r
      ensures Weighed(q, maxLength, x)
    {
      assert x in multiset(r);
      var i :| 0 <= i < |ws| && ws[i] == x;
    }
  }

  /** The entries kept are ranked entries. */
  lemma TopWeighed(q: Digraph<nat>, maxLength: nat, n: nat)
    requires q.Valid()
    ensures forall x :: x in Take(RankedCascades(q, maxLength), n) ==> Weighed(q, maxLength, x)
  {
    RankedWeighed(q, maxLength);
    var ranked := RankedCascades(q, maxLength);
    var t := Take(ranked, n);
    forall x | x in t
      ensures Weighed(q, maxLength, x)
    {
      var i :| 0 <= i < |t| && t[i] == x;
      assert ranked[i] == x;
    }
  }

  /** Every cascade returned is a simple path of the query graph with two to `maxLength + 1`
      nodes. */
  lemma CascadesSimple(global: Digraph<nat>, ds: seq<Id>, maxLength: nat, n: nat, p: seq<Id>)
    requires p in TopCascades(global, ds, maxLength, n)
    ensures Cascade(ExtractUserPattern(global, ds), maxLength, p)
  {
    var q := ExtractUserPattern(global, ds);
    var t := Take(RankedCascades(q, maxLength), n);
    TopWeighed(q, maxLength, n);
    var i :| 0 <= i < |t| && PathsOf(t)[i] == p;
    assert t[i] in t;
  }

  /** The cascades come heaviest first. */
  lemma CascadesHeaviestFirst(global: Digraph<nat>, ds: seq<Id>, maxLength: nat, n: nat, i: nat, j: nat)
    requires i < j < |TopCascades(global, ds, maxLength, n)|
    ensures var q := ExtractUserPattern(global, ds);
            var r := TopCascades(global, ds, maxLength, n);
            Chain(q, r[i]) && Chain(q, r[j]) && PathWeight(q, r[i]) >= PathWeight(q, r[j])
  {
    var q := ExtractUserPattern(global, ds);
    var ranked := RankedCascades(q, maxLength);
    var t := Take(ranked, n);
    TopWeighed(q, maxLength, n);
    assert t[i] in t && t[j] in t;
    assert t[i] == ranked[i] && t[j] == ranked[j];
    assert WeightKey(ranked[i]) >= WeightKey(ranked[j]);
  }

  /** No cascade is left out while fewer than `n` are returned, and one left out weighs no more
      than the last one returned. */
  lemma CascadesBest(global: Digraph<nat>, ds: seq<Id>, maxLength: nat, n: nat, p: seq<Id>)
    requires Cascade(ExtractUserPattern(global, ds), maxLength, p)
    ensures var q := ExtractUserPattern(global, ds);
            var r := TopCascades(global, ds, maxLength, n);
            p !in r ==> |r| == n && (0 < n ==> Chain(q, r[n - 1]) && PathWeight(q, p) <= PathWeight(q, r[n - 1]))
  {
    var q := ExtractUserPattern(global, ds);
    var x := (p, PathWeight(q, p) as real);
    var t := Take(RankedCascades(q, maxLength), n);
    var r := PathsOf(t);
    KeptOrBeaten(q, maxLength, p, n);
    if p !in r {
      forall k | 0 <= k < |t|
        ensures t[k] != x
      {
        assert r[k] == t[k].0 && r[k] in r;
      }
      TopWeighed(q, maxLength, n);
      if 0 < n {
        assert t[n - 1] in t;
      }
    }
  }

  /** The first `m` of the top `n` are the top `m`. */
  lemma TopOfTop(global: Digraph<nat>, ds: seq<Id>, maxLength: nat, n: nat, m: nat)
    requires m <= n
    ensures Take(TopCascades(global, ds, maxLength, n), m) == TopCascades(global, ds, maxLength, m)
  {
    var q := ExtractUserPattern(global, ds);
    var ranked := RankedCascades(q, maxLength);
    var a, b := Take(TopCascades(global, ds, maxLength, n), m), TopCascades(global, ds, maxLength, m);
    assert |a| == |b|;
    forall i | 0 <= i < |a|
      ensures a[i] == b[i]
    {
      assert a[i] == ranked[i].0;
    }
  }

  /** A cascade's ranked entry is among the first `n`, or `n` entries come first and the last
      of them weighs at least as much. */
  lemma KeptOrBeaten(q: Digraph<nat>, maxLength: nat, p: seq<Id>, n: nat)
    requires q.Valid() && Cascade(q, maxLength, p)
    ensures var t := Take(RankedCascades(q, maxLength), n);
            var x := (p, PathWeight(q, p) as real);
            x !in t ==> |t| == n && (0 < n ==> x.1 <= t[n - 1].1)
  {
    var ps := AllPaths(q, q.nodes, maxLength);
    CandidatesExact(q, maxLength, p);
    forall p' | p' in ps
      ensures Chain(q, p')
    {
      CandidatesExact(q, maxLength, p');
    }
    var ws := WithWeights(q, ps);
    var i :| 0 <= i < |ps| && ps[i] == p;
    assert ws[i] == (p, PathWeight(q, p) as real);
    TakeKeepsBest(ws, WeightKey, n);
  }

  /** Every edge of `q` goes forward in `ds`. */
  predicate Forward(q: Digraph<nat>, ds: seq<Id>) {
    forall k :: k in q.edges ==> k.0 in ds && k.1 in ds && IndexOf(ds, k.0) < IndexOf(ds, k.1)
  }

  lemma {:induction false} ChainForward(q: Digraph<nat>, ds: seq<Id>, p: seq<Id>, i: nat, j: nat)
    requires Forward(q, ds) && Chain(q, p)
    requires i < j < |p|
    ensures p[i] in ds && p[j] in ds && IndexOf(ds, p[i]) < IndexOf(ds, p[j])
    decreases j - i
  {
    assert (p[j - 1], p[j]) in q.edges;
    if i < j - 1 {
      ChainForward(q, ds, p, i, j - 1);
    }
  }

  /** With no distortion queried twice, every edge of the query graph goes forward. */
  lemma QueryForward(global: Digraph<nat>, ds: seq<Id>)
    requires NoDup(ds)
    ensures Forward(ExtractUserPattern(global, ds), ds)
  {
    var q := ExtractUserPattern(global, ds);
    forall k | k in q.edges
      ensures k.0 in ds && k.1 in ds && IndexOf(ds, k.0) < IndexOf(ds, k.1)
    {
      ForwardEdges(global, ds, k.0, k.1);
    }
  }

  /** With no distortion queried twice, each cascade visits distortions in query order. */
  lemma CascadesInQueryOrder(global: Digraph<nat>, ds: seq<Id>, maxLength: nat, n: nat, p: seq<Id>)
    requires NoDup(ds)
    requires p in TopCascades(global, ds, maxLength, n)
    ensures forall i, j :: 0 <= i < j < |p| ==> p[i] in ds && p[j] in ds && IndexOf(ds, p[i]) < IndexOf(ds, p[j])
  {
    CascadesSimple(global, ds, maxLength, n, p);
    QueryForward(global, ds);
    ChainsForward(ExtractUserPattern(global, ds), ds, p);
  }

  /** Along a chain of forward edges, every node comes later in `ds` than those before it. */
  lemma ChainsForward(q: Digraph<nat>, ds: seq<Id>, p: seq<Id>)
    requires Forward(q, ds) && Chain(q, p)
    ensures forall i, j :: 0 <= i < j < |p| ==> p[i] in ds && p[j] in ds && IndexOf(ds, p[i]) < IndexOf(ds, p[j])
  {
    forall i | 0 <= i < |p| && 1 < |p|
      ensures p[i] in ds
    {
      if i + 1 < |p| {
        ChainForward(q, ds, p, i, i + 1);
      } else {
        ChainForward(q, ds, p, i - 1, i);
      }
    }
    forall i, j | 0 <= i < j < |p|
      ensures IndexOf(ds, p[i]) < IndexOf(ds, p[j])
    {
      ChainForward(q, ds, p, i, j);
    }
  }
}
