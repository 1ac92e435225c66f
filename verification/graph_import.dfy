/** The retrieval engine's loading of exported graphs (`_build_networkx_graph`,
    gear_retrieval.py:37-52, and the loading loop at gear_retrieval.py:17-35): nodes keep their
    attributes, edges keep only their `weight`. */
module GraphImport {
  import opened Common
  import opened Entities
  import opened Export

  /** A personal graph as the retrieval engine holds it, with the metadata merged into the
      graph's own attributes. */
  datatype UserGraph = UserGraph(userId: Id, graph: Digraph<nat>, meta: Option<Metadata>)

  /** Everything the engine loads: the global graph and the personal graphs in file order. */
  datatype Store = Store(global: Digraph<nat>, personal: seq<UserGraph>)

  function RecordIds(ns: seq<NodeRecord>): (r: seq<Id>)
    ensures |r| == |ns| && forall i :: 0 <= i < |ns| ==> r[i] == ns[i].id
  {
    if |ns| == 0 then [] else RecordIds(ns[..|ns| - 1]) + [ns[|ns| - 1].id]
  }

  /** The endpoints of the edge records in the order `add_edge` meets them. */
  function RecordEnds(es: seq<EdgeRecord>): (r: seq<Id>)
    ensures forall x :: x in r <==> exists i :: 0 <= i < |es| && (es[i].source == x || es[i].target == x)
  {
    if |es| == 0 then []
    else
      var init := es[..|es| - 1];
      var r := RecordEnds(init) + [es[|es| - 1].source, es[|es| - 1].target];
      assert forall i :: 0 <= i < |init| ==> es[i] == init[i];
      r
  }

  /** Node attributes after adding the records in turn: a later record with the same id
      overwrites an earlier one. */
  function AttrsOf(ns: seq<NodeRecord>): map<Id, NodeAttrs> {
    if |ns| == 0 then map[] else AttrsOf(ns[..|ns| - 1])[ns[|ns| - 1].id := ns[|ns| - 1].attrs]
  }

  /** Edge weights after adding the records in turn: a later record for the same pair
      overwrites an earlier one. */
  function WeightsOf(es: seq<EdgeRecord>): map<(Id, Id), nat> {
    if |es| == 0 then map[]
    else
      var e := es[|es| - 1];
      WeightsOf(es[..|es| - 1])[(e.source, e.target) := e.attrs.weight]
  }

  /** `_build_networkx_graph`: the nodes in the order first added (node records, then edge
      endpoints not yet present), the attributes of each node record, and a weighted edge per
      edge record. */
  function ImportGraph(ns: seq<NodeRecord>, es: seq<EdgeRecord>): (g: Digraph<nat>)
    ensures g.Valid()
    ensures forall x :: x in g.nodes <==> x in RecordIds(ns) || x in RecordEnds(es)
  {
    AttrsKeys(ns);
    WeightsKeys(es);
    Digraph(AppendNew(Dedup(RecordIds(ns)), RecordEnds(es)), AttrsOf(ns), WeightsOf(es))
  }

  /** The record that decides a node's attributes is the last one with its id. */
  predicate LastRecord(ns: seq<NodeRecord>, x: Id, i: int) {
    0 <= i < |ns| && ns[i].id == x && forall j :: i < j < |ns| ==> ns[j].id != x
  }

  lemma {:induction false} AttrsKeys(ns: seq<NodeRecord>)
    ensures forall x :: x in AttrsOf(ns) <==> x in RecordIds(ns)
  {
    if |ns| > 0 {
      AttrsKeys(ns[..|ns| - 1]);
      assert RecordIds(ns) == RecordIds(ns[..|ns| - 1]) + [ns[|ns| - 1].id];
    }
  }

  /** Imported node attributes: a node has attributes exactly when some record names it, and
      they are those of the last such record. */
  lemma {:induction false} AttrsOfLast(ns: seq<NodeRecord>, x: Id)
    ensures x in AttrsOf(ns) <==> exists i :: 0 <= i < |ns| && ns[i].id == x
    ensures x in AttrsOf(ns) ==> exists i :: LastRecord(ns, x, i) && AttrsOf(ns)[x] == ns[i].attrs
  {
    if |ns| > 0 {
      var init := ns[..|ns| - 1];
      AttrsOfLast(init, x);
      if ns[|ns| - 1].id == x {
        assert LastRecord(ns, x, |ns| - 1);
      } else {
        assert x in AttrsOf(ns) <==> x in AttrsOf(init);
        if x in AttrsOf(init) {
          var i :| LastRecord(init, x, i) && AttrsOf(init)[x] == init[i].attrs;
          forall j | i < j < |ns|
            ensures ns[j].id != x
          {
            if j < |ns| - 1 {
              assert ns[j] == init[j];
            }
          }
          assert ns[i] == init[i];
        }
        if exists i :: 0 <= i < |ns| && ns[i].id == x {
          var i :| 0 <= i < |ns| && ns[i].id == x;
          assert init[i].id == x;
        }
      }
    }
  }

  /** The record that decides an edge's weight is the last one for its pair. */
  predicate LastEdgeRecord(es: seq<EdgeRecord>, k: (Id, Id), i: int) {
    0 <= i < |es| && (es[i].source, es[i].target) == k
    && forall j :: i < j < |es| ==> (es[j].source, es[j].target) != k
  }

  /** Imported edges: there is an edge exactly when some record connects the pair, and its
      weight is that of the last such record. */
  lemma {:induction false} WeightsOfLast(es: seq<EdgeRecord>, k: (Id, Id))
    ensures k in WeightsOf(es) <==> exists i :: 0 <= i < |es| && (es[i].source, es[i].target) == k
    ensures k in WeightsOf(es) ==> exists i :: LastEdgeRecord(es, k, i) && WeightsOf(es)[k] == es[i].attrs.weight
  {
    if |es| > 0 {
      var init, e := es[..|es| - 1], es[|es| - 1];
      WeightsOfLast(init, k);
      WeightsStep(es, k);
      if (e.source, e.target) == k {
        assert LastEdgeRecord(es, k, |es| - 1);
      } else {
        if k in WeightsOf(init) {
          var i :| LastEdgeRecord(init, k, i) && WeightsOf(init)[k] == init[i].attrs.weight;
          forall j | i < j < |es|
            ensures (es[j].source, es[j].target) != k
          {
            if j < |es| - 1 {
              assert es[j] == init[j];
            }
          }
          assert es[i] == init[i];
        }
        if exists i :: 0 <= i < |es| && (es[i].source, es[i].target) == k {
          var i :| 0 <= i < |es| && (es[i].source, es[i].target) == k;
          assert (init[i].source, init[i].target) == k;
        }
      }
    }
  }

  /** Reading the weights after one more record. */
  lemma WeightsStep(es: seq<EdgeRecord>, k: (Id, Id))
    requires |es| > 0
    ensures var e := es[|es| - 1];
      (k in WeightsOf(es) <==> k == (e.source, e.target) || k in WeightsOf(es[..|es| - 1]))
      && (k != (e.source, e.target) && k in WeightsOf(es) ==> WeightsOf(es)[k] == WeightsOf(es[..|es| - 1])[k])
  {
  }

  lemma {:induction false} WeightsKeys(es: seq<EdgeRecord>)
    ensures forall k :: k in WeightsOf(es) ==> k.0 in RecordEnds(es) && k.1 in RecordEnds(es)
  {
    if |es| > 0 {
      var init := es[..|es| - 1];
      WeightsKeys(init);
      forall k | k in WeightsOf(es)
        ensures k.0 in RecordEnds(es) && k.1 in RecordEnds(es)
      {
        if k in WeightsOf(init) {
          var i :| 0 <= i < |init| && (init[i].source == k.0 || init[i].target == k.0);
          assert es[i] == init[i];
          var i' :| 0 <= i' < |init| && (init[i'].source == k.1 || init[i'].target == k.1);
          assert es[i'] == init[i'];
        }
      }
    }
  }

  // ---------------------------------------------------------------------------------------
  // Loading what the builder exported

  /** The graph the engine sees in place of an exported one: the same nodes and attributes,
      and only the weight of each edge. */
  function WeightsOnly(g: Digraph<EdgeAttrs>): Digraph<nat> {
    Digraph(g.nodes, g.attrs, map k | k in g.edges :: g.edges[k].weight)
  }

  lemma RecordIdsOf(g: Digraph<EdgeAttrs>, ns: seq<Id>)
    requires forall n :: n in ns ==> n in g.attrs
    ensures RecordIds(NodeRecordsOf(g, ns)) == ns
  {
    var rs := NodeRecordsOf(g, ns);
    forall i | 0 <= i < |ns|
      ensures RecordIds(rs)[i] == ns[i]
    {
      NodeRecordAt(g, ns, i);
    }
  }

  lemma {:induction false} AttrsOfRecords(g: Digraph<EdgeAttrs>, ns: seq<Id>)
    requires forall n :: n in ns ==> n in g.attrs
    ensures AttrsOf(NodeRecordsOf(g, ns)) == map n | n in ns :: g.attrs[n]
  {
    if |ns| > 0 {
      var init, x := ns[..|ns| - 1], ns[|ns| - 1];
      var rs := NodeRecordsOf(g, ns);
      assert rs[..|rs| - 1] == NodeRecordsOf(g, init);
      assert rs[|rs| - 1].id == x && rs[|rs| - 1].attrs == g.attrs[x];
      AttrsOfRecords(g, init);
      assert AttrsOf(rs) == (map n | n in init :: g.attrs[n])[x := g.attrs[x]];
      assert ns == init + [x];
      ExtendAttrs(g.attrs, init, x);
    }
  }

  lemma ExtendAttrs(attrs: map<Id, NodeAttrs>, ns: seq<Id>, x: Id)
    requires x in attrs && forall n :: n in ns ==> n in attrs
    ensures (map n | n in ns :: attrs[n])[x := attrs[x]] == map n | n in ns + [x] :: attrs[n]
  {
    var m1 := (map n | n in ns :: attrs[n])[x := attrs[x]];
    var m2 := map n | n in ns + [x] :: attrs[n];
    assert forall n :: n in ns + [x] <==> n in ns || n == x;
    assert m1.Keys == m2.Keys;
  }

  lemma {:induction false} WeightsOfRecords(edges: map<(Id, Id), EdgeAttrs>, keys: seq<(Id, Id)>)
    requires forall k :: k in keys ==> k in edges
    ensures WeightsOf(EdgeRecordsOf(edges, keys)) == map k | k in keys :: edges[k].weight
  {
    if |keys| > 0 {
      var init, k := keys[..|keys| - 1], keys[|keys| - 1];
      var rs := EdgeRecordsOf(edges, keys);
      assert rs[..|rs| - 1] == EdgeRecordsOf(edges, init);
      WeightsOfRecords(edges, init);
      assert keys == init + [k];
    }
  }

  /** Loading an exported graph gives back its nodes, in order, and its node attributes, with
      every edge reduced to its weight: `edge_type` and `effectiveness` do not survive. */
  lemma ImportExport(g: Digraph<EdgeAttrs>, meta: Option<Metadata>)
    requires Attributed(g)
    ensures var r := ExportGraph(g, meta);
            ImportGraph(r.nodes, r.edges) == WeightsOnly(g)
  {
    var r := ExportGraph(g, meta);
    ImportedNodes(g, meta);
    ImportedAttrs(g, meta);
    ImportedWeights(g, meta);
    assert ImportGraph(r.nodes, r.edges) == Digraph(g.nodes, g.attrs, WeightsOnly(g).edges);
  }

  lemma ImportedAttrs(g: Digraph<EdgeAttrs>, meta: Option<Metadata>)
    requires Attributed(g)
    ensures AttrsOf(ExportGraph(g, meta).nodes) == g.attrs
  {
    AttrsOfRecords(g, g.nodes);
  }

  lemma ImportedWeights(g: Digraph<EdgeAttrs>, meta: Option<Metadata>)
    requires Attributed(g)
    ensures WeightsOf(ExportGraph(g, meta).edges) == WeightsOnly(g).edges
  {
    EdgeKeysExact(g);
    var keys := EdgeKeys(g);
    assert ExportGraph(g, meta).edges == EdgeRecordsOf(g.edges, keys);
    WeightsOfRecords(g.edges, keys);
    SameWeights(g, keys);
  }

  /** Keying the weights by an exact listing of the edges gives the weights of the edges. */
  lemma SameWeights(g: Digraph<EdgeAttrs>, keys: seq<(Id, Id)>)
    requires forall k :: k in keys <==> k in g.edges
    ensures (map k | k in keys :: g.edges[k].weight) == WeightsOnly(g).edges
  {
    var m1 := map k | k in keys :: g.edges[k].weight;
    var m2 := WeightsOnly(g).edges;
    assert m1.Keys == m2.Keys;
  }

  lemma ImportedNodes(g: Digraph<EdgeAttrs>, meta: Option<Metadata>)
    requires Attributed(g)
    ensures var r := ExportGraph(g, meta);
            AppendNew(Dedup(RecordIds(r.nodes)), RecordEnds(r.edges)) == g.nodes
  {
    var r := ExportGraph(g, meta);
    RecordIdsOf(g, g.nodes);
    AppendNewFresh([], g.nodes);
    assert Dedup(RecordIds(r.nodes)) == g.nodes;
    EndsAreNodes(g);
    assert r.edges == ExportGraph(g, None).edges;
    AppendNewKnown(g.nodes, RecordEnds(r.edges));
  }

  lemma EndsAreNodes(g: Digraph<EdgeAttrs>)
    requires Attributed(g)
    ensures forall x :: x in RecordEnds(ExportGraph(g, None).edges) ==> x in g.nodes
  {
    EdgeKeysExact(g);
    var keys := EdgeKeys(g);
    var es := EdgeRecordsOf(g.edges, keys);
    assert ExportGraph(g, None).edges == es;
    forall x | x in RecordEnds(es)
      ensures x in g.nodes
    {
      var i :| 0 <= i < |es| && (es[i].source == x || es[i].target == x);
      EdgeRecordAt(g.edges, keys, i);
      assert keys[i] in g.edges;
    }
  }

  function LoadPersonal(ps: seq<(Id, GraphRecord)>): (r: seq<UserGraph>)
    ensures |r| == |ps|
  {
    if |ps| == 0 then []
    else
      var p := ps[|ps| - 1];
      LoadPersonal(ps[..|ps| - 1]) + [UserGraph(p.0, ImportGraph(p.1.nodes, p.1.edges), p.1.meta)]
  }

  /** The engine's constructor: the global graph and each personal graph in file order. */
  function Load(d: ExportData): (s: Store)
    ensures |s.personal| == |d.personal|
  {
    Store(ImportGraph(d.global.nodes, d.global.edges), LoadPersonal(d.personal))
  }

  lemma {:induction false} LoadPersonalAt(ps: seq<(Id, GraphRecord)>, k: nat)
    requires k < |ps|
    ensures LoadPersonal(ps)[k] == UserGraph(ps[k].0, ImportGraph(ps[k].1.nodes, ps[k].1.edges), ps[k].1.meta)
  {
    if k < |ps| - 1 {
      LoadPersonalAt(ps[..|ps| - 1], k);
    }
  }

  lemma {:induction false} PersonalRecordAt(b: Builder, us: seq<Id>, k: nat)
    requires WellBuilt(b) && (forall u :: u in us ==> u in b.personal) && k < |us|
    ensures var p := b.personal[us[k]];
            PersonalRecords(b, us)[k] == (us[k], ExportGraph(p.graph, Some(p.meta)))
  {
    if k > 0 {
      var rest := PersonalRecords(b, us[1..]);
      PersonalRecordAt(b, us[1..], k - 1);
      assert PersonalRecords(b, us)[1..] == rest;
      assert us[k] == us[1..][k - 1];
    }
  }

  /** What the engine loads from the builder's export: the k-th personal graph belongs to the
      k-th user first seen, keeps that user's metadata, and, like the global graph, is the
      built graph with only edge weights kept. */
  lemma LoadExported(b: Builder, k: nat)
    requires WellBuilt(b) && k < |b.users|
    ensures var s := Load(ExportForGear(b));
            var u := b.users[k];
            && s.global == WeightsOnly(b.global)
            && |s.personal| == |b.users|
            && s.personal[k] == UserGraph(u, WeightsOnly(b.personal[u].graph), Some(b.personal[u].meta))
  {
    var d := ExportForGear(b);
    var u := b.users[k];
    var p := b.personal[u];
    ImportExport(b.global, None);
    PersonalRecordAt(b, b.users, k);
    LoadPersonalAt(d.personal, k);
    ImportExport(p.graph, Some(p.meta));
  }
}
