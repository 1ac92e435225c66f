/** `process_all_journeys` (graph.py:260-269) and the data `export_for_gear` assembles
    (graph.py:271-331): every graph flattened into a list of node records and a list of edge
    records, and a per-intervention summary of the global graph. Writing the JSON file and the
    creation timestamp are not part of this model. */
module Export {
  import opened Common
  import opened Entities
  import opened Tallies
  import PersonalGraph
  import GlobalGraph

  /** A node as exported: its id, its `type` (the `node_type` attribute) and the rest of its
      attributes. */
  datatype NodeRecord = NodeRecord(id: Id, nodeType: string, attrs: NodeAttrs)

  /** An edge as exported: its ends and every attribute it carries. */
  datatype EdgeRecord = EdgeRecord(source: Id, target: Id, attrs: EdgeAttrs)

  /** One exported graph; only personal graphs carry metadata. */
  datatype GraphRecord = GraphRecord(nodes: seq<NodeRecord>, edges: seq<EdgeRecord>, meta: Option<Metadata>)

  /** `intervention_effectiveness[i]`: the node's mean improvement and the labels it targets. */
  datatype EffectivenessRecord = EffectivenessRecord(avgImprovement: real, targets: seq<Id>)

  datatype ExportData = ExportData(
    personal: seq<(Id, GraphRecord)>,
    global: GraphRecord,
    effectiveness: seq<(Id, EffectivenessRecord)>,
    numUsers: nat)

  /** A well-formed graph in which every node has attributes, as both builders produce. */
  predicate Attributed<E>(g: Digraph<E>) {
    g.Valid() && forall n :: n in g.nodes ==> n in g.attrs
  }

  // ---------------------------------------------------------------------------------------
  // Node and edge lists

  function NodeRecordsOf(g: Digraph<EdgeAttrs>, ns: seq<Id>): (r: seq<NodeRecord>)
    requires forall n :: n in ns ==> n in g.attrs
    ensures |r| == |ns|
  {
    if |ns| == 0 then []
    else
      var n := ns[|ns| - 1];
      NodeRecordsOf(g, ns[..|ns| - 1]) + [NodeRecord(n, g.attrs[n].NodeType(), g.attrs[n])]
  }

  /** The edges leaving `u` towards the nodes `vs`, in the order of `vs`. */
  function EdgeKeysFrom<E>(edges: map<(Id, Id), E>, u: Id, vs: seq<Id>): (r: seq<(Id, Id)>)
    ensures forall k :: k in r <==> k.0 == u && k.1 in vs && k in edges
    ensures NoDup(vs) ==> NoDup(r)
  {
    if |vs| == 0 then []
    else
      var here := if (u, vs[0]) in edges then [(u, vs[0])] else [];
      var rest := EdgeKeysFrom(edges, u, vs[1..]);
      if NoDup(vs) then
        NoDupTail(vs);
        NoDupAppend(here, rest);
        here + rest
      else
        here + rest
  }

  /** The edges leaving each node of `us` in turn. */
  function EdgeKeysOf<E>(edges: map<(Id, Id), E>, us: seq<Id>, vs: seq<Id>): (r: seq<(Id, Id)>)
    ensures forall k :: k in r <==> k.0 in us && k.1 in vs && k in edges
    ensures NoDup(us) && NoDup(vs) ==> NoDup(r)
  {
    if |us| == 0 then []
    else
      var here := EdgeKeysFrom(edges, us[0], vs);
      var rest := EdgeKeysOf(edges, us[1..], vs);
      if NoDup(us) && NoDup(vs) then
        NoDupTail(us);
        NoDupAppend(here, rest);
        here + rest
      else
        here + rest
  }

  /** networkx lists a graph's edges source by source in node order; the targets of one source
      are taken here in node order too. */
  function EdgeKeys<E>(g: Digraph<E>): seq<(Id, Id)> {
    EdgeKeysOf(g.edges, g.nodes, g.nodes)
  }

  /** Each edge of a well-formed graph is listed exactly once. */
  lemma EdgeKeysExact<E>(g: Digraph<E>)
    requires g.Valid()
    ensures forall k :: k in EdgeKeys(g) <==> k in g.edges
    ensures NoDup(EdgeKeys(g))
  {
  }

  function EdgeRecordsOf(edges: map<(Id, Id), EdgeAttrs>, keys: seq<(Id, Id)>): (r: seq<EdgeRecord>)
    requires forall k :: k in keys ==> k in edges
    ensures |r| == |keys|
  {
    if |keys| == 0 then []
    else
      var k := keys[|keys| - 1];
      EdgeRecordsOf(edges, keys[..|keys| - 1]) + [EdgeRecord(k.0, k.1, edges[k])]
  }

  lemma {:induction false} NodeRecordAt(g: Digraph<EdgeAttrs>, ns: seq<Id>, i: nat)
    requires forall n :: n in ns ==> n in g.attrs
    requires i < |ns|
    ensures NodeRecordsOf(g, ns)[i] == NodeRecord(ns[i], g.attrs[ns[i]].NodeType(), g.attrs[ns[i]])
  {
    if i < |ns| - 1 {
      NodeRecordAt(g, ns[..|ns| - 1], i);
    }
  }

  lemma {:induction false} EdgeRecordAt(edges: map<(Id, Id), EdgeAttrs>, keys: seq<(Id, Id)>, i: nat)
    requires forall k :: k in keys ==> k in edges
    requires i < |keys|
    ensures EdgeRecordsOf(edges, keys)[i] == EdgeRecord(keys[i].0, keys[i].1, edges[keys[i]])
  {
    if i < |keys| - 1 {
      EdgeRecordAt(edges, keys[..|keys| - 1], i);
    }
  }

  /** The node records follow the node order, each with its node's type and attributes. */
  lemma NodeRecordsInOrder(g: Digraph<EdgeAttrs>)
    requires Attributed(g)
    ensures var ns := NodeRecordsOf(g, g.nodes);
            forall i :: 0 <= i < |g.nodes| ==> ns[i] == NodeRecord(g.nodes[i], g.attrs[g.nodes[i]].NodeType(), g.attrs[g.nodes[i]])
  {
    forall i | 0 <= i < |g.nodes| {
      NodeRecordAt(g, g.nodes, i);
    }
  }

  /** Every edge has a record, and every record is an edge with its attributes. */
  lemma EdgeRecordsExact(g: Digraph<EdgeAttrs>)
    requires Attributed(g)
    ensures var es := EdgeRecordsOf(g.edges, EdgeKeys(g));
            && (forall i :: 0 <= i < |es| ==>
                  (es[i].source, es[i].target) in g.edges && es[i].attrs == g.edges[(es[i].source, es[i].target)])
            && (forall k :: k in g.edges ==> exists i :: 0 <= i < |es| && es[i].source == k.0 && es[i].target == k.1)
  {
    EdgeKeysExact(g);
    var keys := EdgeKeys(g);
    var es := EdgeRecordsOf(g.edges, keys);
    forall i | 0 <= i < |es|
      ensures (es[i].source, es[i].target) in g.edges && es[i].attrs == g.edges[(es[i].source, es[i].target)]
    {
      EdgeRecordAt(g.edges, keys, i);
    }
    forall k | k in g.edges
      ensures exists i :: 0 <= i < |es| && es[i].source == k.0 && es[i].target == k.1
    {
      var i :| 0 <= i < |keys| && keys[i] == k;
      EdgeRecordAt(g.edges, keys, i);
    }
  }

  /** `export_for_gear`'s flattening of one graph: a record per node in node order with its
      `type` and attributes, a record per edge with its attributes, and no other edge. */
  function ExportGraph(g: Digraph<EdgeAttrs>, meta: Option<Metadata>): (r: GraphRecord)
    requires Attributed(g)
    ensures r.meta == meta
    ensures |r.nodes| == |g.nodes|
    ensures forall i :: 0 <= i < |g.nodes| ==>
              r.nodes[i] == NodeRecord(g.nodes[i], g.attrs[g.nodes[i]].NodeType(), g.attrs[g.nodes[i]])
    ensures forall i :: 0 <= i < |r.edges| ==>
              (r.edges[i].source, r.edges[i].target) in g.edges
              && r.edges[i].attrs == g.edges[(r.edges[i].source, r.edges[i].target)]
    ensures forall k :: k in g.edges ==> exists i :: 0 <= i < |r.edges| && r.edges[i].source == k.0 && r.edges[i].target == k.1
  {
    NodeRecordsInOrder(g);
    EdgeRecordsExact(g);
    GraphRecord(NodeRecordsOf(g, g.nodes), EdgeRecordsOf(g.edges, EdgeKeys(g)), meta)
  }

  // ---------------------------------------------------------------------------------------
  // The intervention summary

  /** `.get('avg_improvement', 0)`. */
  function AvgImprovementAttr(a: NodeAttrs): real {
    if a.GlobalIntervention? then a.avgImprovement else 0.0
  }

  /** The targets of `u` among the listed edge keys, in list order. */
  function TargetsIn(edges: map<(Id, Id), EdgeAttrs>, keys: seq<(Id, Id)>, u: Id): (r: seq<Id>)
    requires forall k :: k in keys ==> k in edges
    ensures forall v :: v in r <==> (u, v) in keys && edges[(u, v)].edgeType == Targets
    ensures NoDup(keys) ==> NoDup(r)
  {
    if |keys| == 0 then []
    else
      var k := keys[0];
      var here := if k.0 == u && edges[k].edgeType == Targets then [k.1] else [];
      var rest := TargetsIn(edges, keys[1..], u);
      if NoDup(keys) then
        NoDupTail(keys);
        NoDupAppend(here, rest);
        here + rest
      else
        here + rest
  }

  /** The value stored under `id` in a list of (key, value) pairs, reading the first match. */
  function Lookup<V>(s: seq<(Id, V)>, id: Id): (r: Option<V>)
    ensures r.Some? <==> exists k :: 0 <= k < |s| && s[k].0 == id
    ensures r.Some? ==> (id, r.value) in s
  {
    if |s| == 0 then None
    else if s[0].0 == id then Some(s[0].1)
    else
      var r := Lookup(s[1..], id);
      if r.Some? then
        var k :| 0 <= k < |s[1..]| && s[1..][k].0 == id;
        assert s[k + 1].0 == id;
        r
      else
        assert forall k :: 1 <= k < |s| ==> s[k] == s[1..][k - 1];
        r
  }

  /** One summary per intervention node of the global graph, in node order. */
  function EffectivenessOf(g: Digraph<EdgeAttrs>, ns: seq<Id>): (r: seq<(Id, EffectivenessRecord)>)
    requires Attributed(g) && forall n :: n in ns ==> n in g.attrs
    ensures |r| <= |ns|
    ensures forall p :: p in r ==> p.0 in ns && g.attrs[p.0].NodeType() == "intervention"
  {
    if |ns| == 0 then []
    else
      var n := ns[0];
      var rest := EffectivenessOf(g, ns[1..]);
      if g.attrs[n].NodeType() == "intervention" then
        EdgeKeysExact(g);
        [(n, EffectivenessRecord(AvgImprovementAttr(g.attrs[n]), TargetsIn(g.edges, EdgeKeys(g), n)))] + rest
      else
        rest
  }

  /** Reading the summary of node `n`: there is one exactly when `n` is an intervention node,
      and it holds the node's mean improvement and each label `n` targets, once. */
  lemma {:induction false} EffectivenessLookup(g: Digraph<EdgeAttrs>, ns: seq<Id>, n: Id)
    requires Attributed(g) && forall m :: m in ns ==> m in g.attrs
    ensures var r := Lookup(EffectivenessOf(g, ns), n);
            && (r.Some? <==> n in ns && g.attrs[n].NodeType() == "intervention")
            && (r.Some? ==>
                  && r.value.avgImprovement == AvgImprovementAttr(g.attrs[n])
                  && NoDup(r.value.targets)
                  && forall v :: v in r.value.targets <==> (n, v) in g.edges && g.edges[(n, v)].edgeType == Targets)
  {
    EdgeKeysExact(g);
    if |ns| > 0 {
      var rest := EffectivenessOf(g, ns[1..]);
      EffectivenessLookup(g, ns[1..], n);
      if g.attrs[ns[0]].NodeType() == "intervention" {
        var here := (ns[0], EffectivenessRecord(AvgImprovementAttr(g.attrs[ns[0]]), TargetsIn(g.edges, EdgeKeys(g), ns[0])));
        LookupCons(here, rest, n);
      }
    }
  }

  lemma LookupCons<V>(p: (Id, V), s: seq<(Id, V)>, id: Id)
    ensures Lookup([p] + s, id) == if p.0 == id then Some(p.1) else Lookup(s, id)
  {
    assert ([p] + s)[1..] == s;
  }

  // ---------------------------------------------------------------------------------------
  // Processing a cohort

  /** The builder's state: the personal graphs by user id, in the order users were first
      seen, and the global graph. */
  datatype Builder = Builder(
    users: seq<Id>,
    personal: map<Id, PersonalGraph.Personal>,
    global: Digraph<EdgeAttrs>)

  /** Every journey can be built into a personal graph. */
  predicate AllBuildable(js: seq<Journey>) {
    forall k :: 0 <= k < |js| ==> PersonalGraph.Buildable(js[k].entries)
  }

  /** The users of the first `n` journeys. */
  function UsersUpTo(js: seq<Journey>, n: nat): set<Id>
    requires n <= |js|
  {
    if n == 0 then {} else UsersUpTo(js, n - 1) + {js[n - 1].userId}
  }

  lemma {:induction false} UsersUpToMeans(js: seq<Journey>, n: nat, u: Id)
    requires n <= |js|
    ensures u in UsersUpTo(js, n) <==> exists k :: 0 <= k < n && js[k].userId == u
  {
    if n > 0 {
      UsersUpToMeans(js, n - 1, u);
    }
  }

  /** A personal graph kept under user `u`. */
  predicate Owned(u: Id, p: PersonalGraph.Personal) {
    p.meta.userId == u && Attributed(p.graph)
  }

  lemma BuiltOwned(j: Journey)
    requires PersonalGraph.Buildable(j.entries)
    ensures Owned(j.userId, PersonalGraph.BuildPersonalGraph(j))
  {
  }

  /** The users of the first `n` journeys in the order they were first seen. */
  function UserOrder(js: seq<Journey>, n: nat): (r: seq<Id>)
    requires n <= |js|
    ensures NoDup(r)
    ensures forall u :: u in r <==> u in UsersUpTo(js, n)
  {
    if n == 0 then []
    else
      var users := UserOrder(js, n - 1);
      if js[n - 1].userId in users then users
      else
        NoDupAppend(users, [js[n - 1].userId]);
        users + [js[n - 1].userId]
  }

  /** For each user of the first `n` journeys, the position of their latest journey. */
  function LatestJourney(js: seq<Journey>, n: nat): (r: map<Id, nat>)
    requires n <= |js|
    ensures forall u :: u in r <==> u in UsersUpTo(js, n)
    ensures forall u :: u in r ==> r[u] < n && js[r[u]].userId == u
  {
    if n == 0 then map[] else LatestJourney(js, n - 1)[js[n - 1].userId := n - 1]
  }

  /** `process_all_journeys`: a personal graph per user, built from that user's latest journey
      since each one overwrites the last, and the global graph of the cohort. */
  function ProcessAllJourneys(js: seq<Journey>): (b: Builder)
    requires AllBuildable(js)
    ensures WellBuilt(b)
    ensures forall u :: u in b.personal <==> exists k :: 0 <= k < |js| && js[k].userId == u
  {
    var latest := LatestJourney(js, |js|);
    var graphs := map u | u in latest :: PersonalGraph.BuildPersonalGraph(js[latest[u]]);
    forall u | u in graphs
      ensures Owned(u, graphs[u])
    {
      BuiltOwned(js[latest[u]]);
    }
    forall u
      ensures u in graphs <==> exists k :: 0 <= k < |js| && js[k].userId == u
    {
      UsersUpToMeans(js, |js|, u);
    }
    Builder(UserOrder(js, |js|), graphs, GlobalGraph.BuildGlobalGraph(js))
  }

  /** The builder's invariant: each user once, each with an attributed graph of its own, and an
      attributed global graph. */
  ghost predicate WellBuilt(b: Builder) {
    && NoDup(b.users)
    && (forall u :: u in b.users <==> u in b.personal)
    && (forall u :: u in b.personal ==> Owned(u, b.personal[u]))
    && Attributed(b.global)
  }

  /** When a user has several journeys, the one kept is the last. */
  lemma {:induction false} LatestIsLast(js: seq<Journey>, n: nat, k: nat)
    requires k < n <= |js|
    requires forall k' :: k < k' < n ==> js[k'].userId != js[k].userId
    ensures var m := LatestJourney(js, n);
            js[k].userId in m && m[js[k].userId] == k
  {
    var prev := LatestJourney(js, n - 1);
    assert LatestJourney(js, n) == prev[js[n - 1].userId := n - 1];
    if n - 1 > k {
      LatestIsLast(js, n - 1, k);
      UpdateRead(prev, js[n - 1].userId, n - 1, js[k].userId);
    }
  }

  /** The personal graph of a user is the one built from their last journey. */
  lemma LastJourneyWins(js: seq<Journey>, k: nat)
    requires AllBuildable(js) && k < |js|
    requires forall k' :: k < k' < |js| ==> js[k'].userId != js[k].userId
    ensures var b := ProcessAllJourneys(js);
            js[k].userId in b.personal && b.personal[js[k].userId] == PersonalGraph.BuildPersonalGraph(js[k])
  {
    LatestIsLast(js, |js|, k);
  }

  function PersonalRecords(b: Builder, us: seq<Id>): (r: seq<(Id, GraphRecord)>)
    requires WellBuilt(b) && forall u :: u in us ==> u in b.personal
    ensures |r| == |us|
  {
    if |us| == 0 then []
    else
      var p := b.personal[us[0]];
      [(us[0], ExportGraph(p.graph, Some(p.meta)))] + PersonalRecords(b, us[1..])
  }

  /** The k-th personal record belongs to the k-th user and carries their metadata. */
  lemma {:induction false} PersonalRecordOwner(b: Builder, us: seq<Id>, k: nat)
    requires WellBuilt(b) && (forall u :: u in us ==> u in b.personal) && k < |us|
    ensures var r := PersonalRecords(b, us)[k];
            r.0 == us[k] && r.1.meta == Some(b.personal[us[k]].meta)
  {
    if k > 0 {
      var rest := PersonalRecords(b, us[1..]);
      PersonalRecordOwner(b, us[1..], k - 1);
      assert PersonalRecords(b, us)[1..] == rest;
      assert us[k] == us[1..][k - 1];
    }
  }

  lemma PersonalRecordsOwners(b: Builder)
    requires WellBuilt(b)
    ensures var rs := PersonalRecords(b, b.users);
            forall k :: 0 <= k < |b.users| ==> rs[k].0 == b.users[k] && rs[k].1.meta == Some(b.personal[b.users[k]].meta)
  {
    forall k | 0 <= k < |b.users| {
      PersonalRecordOwner(b, b.users, k);
    }
  }

  /** `export_for_gear` without the file it writes and the creation timestamp: one record per
      user in user order, carrying that user's metadata and counted by `num_users`, the global
      graph without metadata, and summaries of intervention nodes only. */
  function ExportForGear(b: Builder): (d: ExportData)
    requires WellBuilt(b)
    ensures d.numUsers == |d.personal| == |b.users|
    ensures forall k :: 0 <= k < |b.users| ==>
              d.personal[k].0 == b.users[k] && d.personal[k].1.meta == Some(b.personal[b.users[k]].meta)
    ensures d.global.meta.None? && |d.global.nodes| == |b.global.nodes|
    ensures forall p :: p in d.effectiveness ==> p.0 in b.global.nodes && b.global.attrs[p.0].NodeType() == "intervention"
  {
    NoDupCard(b.users, b.personal.Keys);
    PersonalRecordsOwners(b);
    ExportData(
      PersonalRecords(b, b.users),
      ExportGraph(b.global, None),
      EffectivenessOf(b.global, b.global.nodes),
      |b.personal|)
  }

  /** The summaries exported for a cohort: one per intervention any entry used, holding the mean
      improvement of the journeys that credit it and each label it was linked to at least twice. */
  lemma ExportedEffectiveness(js: seq<Journey>, i: Id)
    requires AllBuildable(js)
    ensures var r := Lookup(ExportForGear(ProcessAllJourneys(js)).effectiveness, i);
            && (r.Some? <==> i in Used(GlobalGraph.Flatten(js)))
            && (r.Some? ==>
                  && r.value.avgImprovement == GlobalGraph.MeanGain(js, i)
                  && NoDup(r.value.targets)
                  && forall v :: v in r.value.targets <==> Total(GlobalGraph.Flatten(js), Links((i, v))) >= 2)
  {
    var b := ProcessAllJourneys(js);
    var g := b.global;
    assert ExportForGear(b).effectiveness == EffectivenessOf(g, g.nodes);
    EffectivenessLookup(g, g.nodes, i);
    InterventionNodes(js, i);
    CohortTargets(js, i);
  }

  /** The intervention nodes of the global graph are the interventions used, and each carries
      the mean improvement of the journeys crediting it. */
  lemma InterventionNodes(js: seq<Journey>, i: Id)
    ensures var g := GlobalGraph.BuildGlobalGraph(js);
            && (i in g.nodes && g.attrs[i].NodeType() == "intervention" <==> i in Used(GlobalGraph.Flatten(js)))
            && (i in Used(GlobalGraph.Flatten(js)) ==> AvgImprovementAttr(g.attrs[i]) == GlobalGraph.MeanGain(js, i))
  {
    var es := GlobalGraph.Flatten(js);
    if i in Used(es) {
      GlobalGraph.GlobalInterventionNode(js, i);
    } else if i in Detected(es) {
      GlobalGraph.GlobalDistortionNode(js, i);
    }
  }

  lemma CohortTargets(js: seq<Journey>, i: Id)
    ensures var g := GlobalGraph.BuildGlobalGraph(js);
            forall v :: (i, v) in g.edges && g.edges[(i, v)].edgeType == Targets
                    <==> Total(GlobalGraph.Flatten(js), Links((i, v))) >= 2
  {
    forall v {
      GlobalGraph.GlobalTargetsEdge(js, i, v);
    }
  }

  /** The exported personal graphs: one per user, in the order users were first seen, each
      carrying that user's metadata; `num_users` counts them. */
  lemma ExportedUsers(js: seq<Journey>, u: Id)
    requires AllBuildable(js)
    ensures var b := ProcessAllJourneys(js);
            var d := ExportForGear(b);
            && d.numUsers == |d.personal|
            && (Lookup(d.personal, u).Some? <==> exists k :: 0 <= k < |js| && js[k].userId == u)
            && (Lookup(d.personal, u).Some? ==>
                  Lookup(d.personal, u).value.meta.Some? && Lookup(d.personal, u).value.meta.value.userId == u)
  {
    var b := ProcessAllJourneys(js);
    PersonalLookup(b, b.users, u);
    NoDupCard(b.users, b.personal.Keys);
    PersonalRecordsOwners(b);
  }

  lemma {:induction false} PersonalLookup(b: Builder, us: seq<Id>, u: Id)
    requires WellBuilt(b) && forall x :: x in us ==> x in b.personal
    ensures var r := Lookup(PersonalRecords(b, us), u);
            && (r.Some? <==> u in us)
            && (r.Some? ==> r.value.meta == Some(b.personal[u].meta))
  {
    if |us| > 0 {
      var p := b.personal[us[0]];
      LookupCons((us[0], ExportGraph(p.graph, Some(p.meta))), PersonalRecords(b, us[1..]), u);
      PersonalLookup(b, us[1..], u);
    }
  }
}
