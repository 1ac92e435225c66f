/** `build_personal_graph` (graph.py:14-75): one user's graph. It has a node per detected
    distortion and per intervention used, `addresses` edges from an intervention to the labels
    detected alongside it, and `co_occurs` edges between labels found together in at least two
    entry positions. The builder is a fold over the entries. The lemmas below characterise the
    finished graph against the reference counts of `Tallies`. */
module PersonalGraph {
  import opened Common
  import opened Entities
  import opened Tallies

  /** The severity change after entry `i`: the next entry's severity minus its own. The last
      entry has none (graph.py:48-52). */
  function SeverityChange(es: seq<Entry>, i: nat): Option<real>
    requires i < |es|
  {
    if i < |es| - 1 then Some(es[i + 1].severity - es[i].severity) else None
  }

  /** Appends `delta` to the change list of every intervention in `used`, once per use. */
  function RecordChange(m: map<Id, seq<real>>, used: seq<Id>, delta: real): (r: map<Id, seq<real>>)
    ensures forall x :: GetSeq(r, x) == GetSeq(m, x) + Repeat(delta, CountOf(used, x))
    decreases |used|
  {
    if |used| == 0 then m
    else
      var m' := m[used[0] := GetSeq(m, used[0]) + [delta]];
      RecordOne(m, m', used, delta);
      RecordChange(m', used[1..], delta)
  }

  lemma RecordOne(m: map<Id, seq<real>>, m': map<Id, seq<real>>, used: seq<Id>, delta: real)
    requires |used| > 0 && m' == m[used[0] := GetSeq(m, used[0]) + [delta]]
    ensures forall x :: GetSeq(m', x) + Repeat(delta, CountOf(used[1..], x))
                     == GetSeq(m, x) + Repeat(delta, CountOf(used, x))
  {
    forall x
      ensures GetSeq(m', x) + Repeat(delta, CountOf(used[1..], x))
           == GetSeq(m, x) + Repeat(delta, CountOf(used, x))
    {
      if x == used[0] {
        SnocRepeat(GetSeq(m, x), delta, CountOf(used[1..], x));
      }
    }
  }

  lemma SnocRepeat<T>(a: seq<T>, x: T, n: nat)
    ensures (a + [x]) + Repeat(x, n) == a + Repeat(x, n + 1)
  {
    RepeatCons(x, n);
    AppendAssoc(a, [x], Repeat(x, n));
  }

  /** The entry loop (graph.py:21-54) updates four independent pieces of state: the node
      order, the shared counters, the use counts and the severity changes recorded per
      intervention. Each is a fold over the first `n` entries. */
  function OrderAfter(es: seq<Entry>, n: nat): seq<Id>
    requires n <= |es|
  {
    if n == 0 then []
    else AppendNew(AppendNew(OrderAfter(es, n - 1), Kinds(es[n - 1].distortions)), es[n - 1].interventionsUsed)
  }

  function UsesAfter(es: seq<Entry>, n: nat): map<Id, nat>
    requires n <= |es|
  {
    if n == 0 then map[] else CountEach(UsesAfter(es, n - 1), es[n - 1].interventionsUsed)
  }

  function ChangesAfter(es: seq<Entry>, n: nat): map<Id, seq<real>>
    requires n <= |es|
  {
    if n == 0 then map[] else RecordEntry(ChangesAfter(es, n - 1), es, n - 1)
  }

  /** Entry `k` records its severity change for each intervention it used, unless it is the
      last entry. */
  function RecordEntry(m: map<Id, seq<real>>, es: seq<Entry>, k: nat): map<Id, seq<real>>
    requires k < |es|
  {
    match SeverityChange(es, k)
    case Some(delta) => RecordChange(m, es[k].interventionsUsed, delta)
    case None => m
  }

  /** The builder's state once every entry is seen. */
  datatype Acc = Acc(order: seq<Id>, tally: Tally, uses: map<Id, nat>, changes: map<Id, seq<real>>)

  function Accumulate(es: seq<Entry>): Acc {
    Acc(OrderAfter(es, |es|), TallyAfter(es, |es|, false), UsesAfter(es, |es|), ChangesAfter(es, |es|))
  }

  // ---------------------------------------------------------------------------------------
  // Reference definitions for the severity changes

  /** How many of the first `n` entries have a next entry. */
  function WithNext(es: seq<Entry>, n: nat): (r: nat)
    requires n <= |es|
    ensures r <= n && (r < |es| || r == 0)
  {
    if n < |es| then n else if n == 0 then 0 else n - 1
  }

  /** The entries that are followed by another one: all but the last. */
  function Followed(es: seq<Entry>): seq<Entry> {
    es[..WithNext(es, |es|)]
  }

  /** The changes intervention `i` collects from the first `n` entries: for each of them that
      has a next entry, the severity change to it, once per use of `i` in the entry. */
  function ChangeList(es: seq<Entry>, n: nat, i: Id): seq<real>
    requires n <= |es|
  {
    if n == 0 then []
    else
      ChangeList(es, n - 1, i)
      + (if n < |es| then Repeat(es[n].severity - es[n - 1].severity, CountOf(es[n - 1].interventionsUsed, i)) else [])
  }

  /** The sum of those changes: each entry's change to the next, times the uses of `i` in it. */
  function ChangeSum(es: seq<Entry>, n: nat, i: Id): real
    requires n <= |es|
  {
    if n == 0 then 0.0
    else
      ChangeSum(es, n - 1, i)
      + (if n < |es| then Scale(CountOf(es[n - 1].interventionsUsed, i), es[n].severity - es[n - 1].severity) else 0.0)
  }

  /** One change per use in an entry that has a next entry, adding up to `ChangeSum`. */
  lemma ChangeListTotals(es: seq<Entry>, n: nat, i: Id)
    requires n <= |es|
    ensures |ChangeList(es, n, i)| == Total(es[..WithNext(es, n)], Uses(i))
    ensures Sum(ChangeList(es, n, i)) == ChangeSum(es, n, i)
  {
    ChangeListLength(es, n, i);
    ChangeListSum(es, n, i);
  }

  lemma ChangeListLength(es: seq<Entry>, n: nat, i: Id)
    requires n <= |es|
    ensures |ChangeList(es, n, i)| == Total(es[..WithNext(es, n)], Uses(i))
  {
    if n < |es| {
      ChangeListLengthBelow(es, n, i);
    } else if n > 0 {
      ChangeListLengthBelow(es, n - 1, i);
      assert ChangeList(es, n, i) == ChangeList(es, n - 1, i) + [];
    }
  }

  lemma {:induction false} ChangeListLengthBelow(es: seq<Entry>, n: nat, i: Id)
    requires n < |es|
    ensures |ChangeList(es, n, i)| == Total(es[..n], Uses(i))
  {
    if n > 0 {
      ChangeListLengthBelow(es, n - 1, i);
      var c := CountOf(es[n - 1].interventionsUsed, i);
      assert ChangeList(es, n, i) == ChangeList(es, n - 1, i) + Repeat(es[n].severity - es[n - 1].severity, c);
      PrefixTotal(es, n, Uses(i));
    }
  }

  lemma {:induction false} ChangeListSum(es: seq<Entry>, n: nat, i: Id)
    requires n <= |es|
    ensures Sum(ChangeList(es, n, i)) == ChangeSum(es, n, i)
  {
    if n > 0 {
      ChangeListSum(es, n - 1, i);
      ChangeStep(es, n, i);
    }
  }

  /** One more entry adds its changes to the list and their total to the sum. */
  lemma ChangeStep(es: seq<Entry>, n: nat, i: Id)
    requires 0 < n <= |es|
    requires Sum(ChangeList(es, n - 1, i)) == ChangeSum(es, n - 1, i)
    ensures Sum(ChangeList(es, n, i)) == ChangeSum(es, n, i)
  {
    var prev := ChangeList(es, n - 1, i);
    if n < |es| {
      var c := CountOf(es[n - 1].interventionsUsed, i);
      var delta := es[n].severity - es[n - 1].severity;
      SumAppendRepeat(prev, delta, c);
    } else {
      assert ChangeList(es, n, i) == prev + [];
      assert prev + [] == prev;
    }
  }

  // ---------------------------------------------------------------------------------------
  // What the fold computes

  /** The node order lists each detected label and used intervention once. */
  ghost predicate OrderInvariant(es: seq<Entry>, n: nat)
    requires n <= |es|
  {
    var order := OrderAfter(es, n);
    && NoDup(order)
    && forall id :: id in order <==> id in Detected(es[..n]) || id in Used(es[..n])
  }

  lemma {:induction false} AccumulateOrder(es: seq<Entry>, n: nat)
    requires n <= |es|
    ensures OrderInvariant(es, n)
  {
    if n > 0 {
      AccumulateOrder(es, n - 1);
      OrderInvariantStep(es, n);
    }
  }

  lemma OrderInvariantStep(es: seq<Entry>, n: nat)
    requires 0 < n <= |es| && OrderInvariant(es, n - 1)
    ensures OrderInvariant(es, n)
  {
    OrderStep(OrderAfter(es, n - 1), es[n - 1]);
    PrefixSets(es, n);
  }

  lemma OrderStep(prev: seq<Id>, e: Entry)
    requires NoDup(prev)
    ensures var o := AppendNew(AppendNew(prev, Kinds(e.distortions)), e.interventionsUsed);
            && NoDup(o)
            && forall id :: id in o <==> id in prev || id in ToSet(Kinds(e.distortions)) || id in ToSet(e.interventionsUsed)
  {
  }

  lemma PrefixSets(es: seq<Entry>, n: nat)
    requires 0 < n <= |es|
    ensures Detected(es[..n]) == Detected(es[..n - 1]) + ToSet(Kinds(es[n - 1].distortions))
    ensures Used(es[..n]) == Used(es[..n - 1]) + ToSet(es[n - 1].interventionsUsed)
  {
    assert es[..n] == es[..n - 1] + [es[n - 1]];
    SnocSets(es[..n - 1], es[n - 1]);
  }

  /** The use counter holds the reference counts of the entries seen so far. */
  ghost predicate UsesInvariant(es: seq<Entry>, n: nat)
    requires n <= |es|
  {
    var uses := UsesAfter(es, n);
    && (forall i :: i in uses <==> i in Used(es[..n]))
    && (forall i :: Get0(uses, i) == Total(es[..n], Uses(i)))
  }

  lemma {:induction false} AccumulateUses(es: seq<Entry>, n: nat)
    requires n <= |es|
    ensures UsesInvariant(es, n)
  {
    if n > 0 {
      AccumulateUses(es, n - 1);
      UsesInvariantStep(es, n);
    }
  }

  lemma UsesInvariantStep(es: seq<Entry>, n: nat)
    requires 0 < n <= |es| && UsesInvariant(es, n - 1)
    ensures UsesInvariant(es, n)
  {
    var e := es[n - 1];
    assert es[..n] == es[..n - 1] + [e];
    UsesStep(UsesAfter(es, n - 1), es[..n - 1], e);
  }

  /** Counting the uses of one more entry keeps the use counter equal to the reference count. */
  lemma UsesStep(u: map<Id, nat>, es: seq<Entry>, e: Entry)
    requires forall i :: i in u <==> i in Used(es)
    requires forall i :: Get0(u, i) == Total(es, Uses(i))
    ensures var r := CountEach(u, e.interventionsUsed);
            && (forall i :: i in r <==> i in Used(es + [e]))
            && (forall i :: Get0(r, i) == Total(es + [e], Uses(i)))
  {
    SnocSets(es, e);
    forall i
      ensures Get0(CountEach(u, e.interventionsUsed), i) == Total(es + [e], Uses(i))
    {
      TotalSnoc(es, e, Uses(i));
    }
  }

  /** The change list of an intervention holds, in entry order, the change after each entry
      that has a next entry, once per use. */
  lemma AccumulateChanges(es: seq<Entry>, i: Id)
    ensures GetSeq(ChangesAfter(es, |es|), i) == ChangeList(es, |es|, i)
  {
    var m := 0;
    while m < |es|
      invariant m <= |es|
      invariant GetSeq(ChangesAfter(es, m), i) == ChangeList(es, m, i)
    {
      ChangesStep(es, m + 1, i);
      m := m + 1;
    }
  }

  lemma ChangesStep(es: seq<Entry>, n: nat, i: Id)
    requires 0 < n <= |es|
    requires GetSeq(ChangesAfter(es, n - 1), i) == ChangeList(es, n - 1, i)
    ensures GetSeq(ChangesAfter(es, n), i) == ChangeList(es, n, i)
  {
    if n < |es| {
      assert SeverityChange(es, n - 1) == Some(es[n].severity - es[n - 1].severity);
    } else {
      assert SeverityChange(es, n - 1) == None;
      assert ChangeList(es, n - 1, i) + [] == ChangeList(es, n - 1, i);
    }
  }

  // ---------------------------------------------------------------------------------------
  // The finished graph

  function InterventionAttrs(uses: nat, changes: seq<real>): NodeAttrs {
    if |changes| > 0 then PersonalIntervention(uses, Some(Mean(changes)), Some(-Mean(changes)))
    else PersonalIntervention(uses, None, None)
  }

  function NodeOf(acc: Acc, id: Id): NodeAttrs {
    if id in acc.tally.occurrences then
      PersonalDistortion(acc.tally.occurrences[id], GetR(acc.tally.confidence, id))
    else
      InterventionAttrs(Get0(acc.uses, id), GetSeq(acc.changes, id))
  }

  /** `addresses` edges carry the link counts; pairs seen at least twice become `co_occurs`
      edges (graph.py:56-58), added last. */
  function Assemble(acc: Acc): Digraph<EdgeAttrs> {
    var addresses := map k | k in acc.tally.links :: EdgeAttrs(acc.tally.links[k], Addresses, None);
    var coOccurs := map k | k in acc.tally.pairs && acc.tally.pairs[k] >= 2 :: EdgeAttrs(acc.tally.pairs[k], CoOccurs, None);
    Digraph(acc.order, map id | id in acc.order :: NodeOf(acc, id), addresses + coOccurs)
  }

  /** The graph-level attributes (graph.py:66-73). */
  function MetadataOf(j: Journey): Metadata {
    Metadata(j.userId, Some(j.journeyType), j.initialSeverity, j.finalSeverity, Some(j.improvement), j.assignedInterventions)
  }

  datatype Personal = Personal(graph: Digraph<EdgeAttrs>, meta: Metadata)

  /** The source raises a `KeyError` when one label is both a detected distortion and an
      intervention used, since the two node kinds carry different counters. */
  predicate Buildable(es: seq<Entry>) {
    Detected(es) !! Used(es)
  }

  /** The personal graph: a well-formed graph whose nodes are exactly the labels detected and
      the interventions used. */
  function BuildPersonalGraph(j: Journey): (p: Personal)
    requires Buildable(j.entries)
    ensures p.graph.Valid()
    ensures forall id :: id in p.graph.nodes <==> id in Detected(j.entries) || id in Used(j.entries)
    ensures forall id :: id in p.graph.attrs <==> id in p.graph.nodes
    ensures p.meta.userId == j.userId
  {
    var es := j.entries;
    var acc := Accumulate(es);
    Finished(es);
    var g := Assemble(acc);
    forall k | k in g.edges
      ensures k.0 in g.nodes && k.1 in g.nodes
    {
      if k in acc.tally.pairs && acc.tally.pairs[k] >= 2 {
        PairEndsDetected(es, false, k);
      } else {
        LinkEnds(es, k);
      }
    }
    Personal(g, MetadataOf(j))
  }

  // ---------------------------------------------------------------------------------------
  // Characterisation of the finished graph

  /** The state after the last entry, against the reference counts of the whole journey. */
  lemma Finished(es: seq<Entry>)
    ensures var acc := Accumulate(es);
            && NoDup(acc.order)
            && (forall id :: id in acc.order <==> id in Detected(es) || id in Used(es))
            && Counts(acc.tally, es, false)
            && (forall i :: Get0(acc.uses, i) == Total(es, Uses(i)))
  {
    AccumulateOrder(es, |es|);
    AccumulateUses(es, |es|);
    TallyAfterCounts(es, |es|, false);
    assert es[..|es|] == es;
  }

  /** A distortion node counts the label's detections and sums their confidences. */
  lemma DistortionNode(j: Journey, d: Id)
    requires Buildable(j.entries) && d in Detected(j.entries)
    ensures BuildPersonalGraph(j).graph.attrs[d]
         == PersonalDistortion(Total(j.entries, Occurrences(d)), Confidence(j.entries, d))
  {
    Finished(j.entries);
  }

  /** An intervention node counts the uses. When some use is followed by another entry, its
      average severity change is the use-weighted mean change to the next entry and its
      effectiveness score is the negation. Otherwise neither attribute is set. */
  lemma InterventionNode(j: Journey, i: Id)
    requires Buildable(j.entries) && i in Used(j.entries)
    ensures var a := BuildPersonalGraph(j).graph.attrs[i];
            var es := j.entries;
            var n := Total(Followed(es), Uses(i));
            && a.PersonalIntervention?
            && a.uses == Total(es, Uses(i))
            && (a.avgSeverityChange.Some? <==> n > 0)
            && (a.effectivenessScore.Some? <==> n > 0)
            && (n > 0 ==> a.avgSeverityChange.value == ChangeSum(es, |es|, i) / (n as real))
            && (n > 0 ==> a.effectivenessScore.value == -a.avgSeverityChange.value)
  {
    var es := j.entries;
    var acc := Accumulate(es);
    Finished(es);
    assert i !in acc.tally.occurrences;
    assert BuildPersonalGraph(j).graph.attrs[i] == InterventionAttrs(Get0(acc.uses, i), GetSeq(acc.changes, i));
    AccumulateChanges(es, i);
    ChangeListTotals(es, |es|, i);
  }

  /** `co_occurs` edges are the pairs of positions (first label, later label) of one entry
      counted at least twice over the journey; a label detected twice in an entry pairs with
      itself. Every such edge joins labels found in this order in some entry. */
  lemma CoOccursEdge(j: Journey, k: (Id, Id))
    requires Buildable(j.entries)
    ensures var g := BuildPersonalGraph(j).graph;
            && (k in g.edges && g.edges[k].edgeType == CoOccurs <==> Total(j.entries, Pairs(false, k)) >= 2)
            && (k in g.edges && g.edges[k].edgeType == CoOccurs ==> g.edges[k].weight == Total(j.entries, Pairs(false, k)))
  {
    var acc := Accumulate(j.entries);
    Finished(j.entries);
    CoOccursFromTally(acc, k);
    assert Get0(acc.tally.pairs, k) == Total(j.entries, Pairs(false, k));
  }

  /** In the assembled graph, a `co_occurs` edge is a pair counted at least twice, and it
      carries the pair's count. */
  lemma CoOccursFromTally(acc: Acc, k: (Id, Id))
    ensures var g := Assemble(acc);
            && ((k in g.edges && g.edges[k].edgeType == CoOccurs) <==> Get0(acc.tally.pairs, k) >= 2)
            && (k in g.edges && g.edges[k].edgeType == CoOccurs ==> g.edges[k].weight == Get0(acc.tally.pairs, k))
  {
  }

  /** A `co_occurs` edge (a, b) means `a` came before `b` in some entry. */
  lemma CoOccursOrdered(j: Journey, a: Id, b: Id)
    requires Buildable(j.entries)
    requires (a, b) in BuildPersonalGraph(j).graph.edges
    requires BuildPersonalGraph(j).graph.edges[(a, b)].edgeType == CoOccurs
    ensures exists n :: 0 <= n < |j.entries| && Precedes(Kinds(j.entries[n].distortions), a, b)
  {
    var es := j.entries;
    CoOccursEdge(j, (a, b));
    TotalPositive(es, Pairs(false, (a, b)));
    var n :| 0 <= n < |es| && Per(es[n], Pairs(false, (a, b))) > 0;
    PairsInUnsorted(Kinds(es[n].distortions), a, b);
  }

  /** `addresses` edges join an intervention to every label detected in an entry that used
      it; the weight is the number of (use, detection) combinations over the journey. */
  lemma AddressesEdge(j: Journey, i: Id, d: Id)
    requires Buildable(j.entries)
    ensures var g := BuildPersonalGraph(j).graph;
            && (((i, d) in g.edges && g.edges[(i, d)].edgeType == Addresses)
                <==> exists n :: 0 <= n < |j.entries| && i in j.entries[n].interventionsUsed
                                                    && d in Kinds(j.entries[n].distortions))
            && ((i, d) in g.edges && g.edges[(i, d)].edgeType == Addresses
                ==> g.edges[(i, d)].weight == Total(j.entries, Links((i, d))))
  {
    var es := j.entries;
    Finished(es);
    LinksPositive(es, i, d);
    AddressesFromTally(Accumulate(es), (i, d));
    if Total(es, Links((i, d))) > 0 {
      LinkEnds(es, (i, d));
      if Total(es, Pairs(false, (i, d))) > 0 {
        PairEndsDetected(es, false, (i, d));
      }
    }
  }

  /** In the assembled graph, an `addresses` edge is a counted link that no `co_occurs` edge
      replaced, and it carries the link's count. */
  lemma AddressesFromTally(acc: Acc, k: (Id, Id))
    ensures var g := Assemble(acc);
            && ((k in g.edges && g.edges[k].edgeType == Addresses)
                <==> k in acc.tally.links && !(k in acc.tally.pairs && acc.tally.pairs[k] >= 2))
            && (k in g.edges && g.edges[k].edgeType == Addresses ==> g.edges[k].weight == acc.tally.links[k])
  {
  }

  // ---------------------------------------------------------------------------------------
  // Additivity over a split journey

  function NodeOccurrences(g: Digraph<EdgeAttrs>, d: Id): nat {
    if d in g.attrs && g.attrs[d].PersonalDistortion? then g.attrs[d].occurrences else 0
  }

  function NodeUses(g: Digraph<EdgeAttrs>, i: Id): nat {
    if i in g.attrs && g.attrs[i].PersonalIntervention? then g.attrs[i].uses else 0
  }

  function NodeConfidence(g: Digraph<EdgeAttrs>, d: Id): real {
    if d in g.attrs && g.attrs[d].PersonalDistortion? then g.attrs[d].totalConfidence else 0.0
  }

  function AddressWeight(g: Digraph<EdgeAttrs>, k: (Id, Id)): nat {
    if k in g.edges && g.edges[k].edgeType == Addresses then g.edges[k].weight else 0
  }

  /** Reading a node's occurrences, confidence and uses, and an address edge's weight, gives the
      reference counts, with 0 where there is no such node or edge. */
  lemma OccurrencesRead(j: Journey, id: Id)
    requires Buildable(j.entries)
    ensures NodeOccurrences(BuildPersonalGraph(j).graph, id) == Total(j.entries, Occurrences(id))
  {
    DetectedIffOccurs(j.entries, id);
    if id in Detected(j.entries) {
      DistortionNode(j, id);
    } else if id in Used(j.entries) {
      InterventionNode(j, id);
    }
  }

  lemma UsesRead(j: Journey, id: Id)
    requires Buildable(j.entries)
    ensures NodeUses(BuildPersonalGraph(j).graph, id) == Total(j.entries, Uses(id))
  {
    UsedIffUses(j.entries, id);
    if id in Used(j.entries) {
      InterventionNode(j, id);
    } else if id in Detected(j.entries) {
      DistortionNode(j, id);
    }
  }

  lemma ConfidenceRead(j: Journey, id: Id)
    requires Buildable(j.entries)
    ensures NodeConfidence(BuildPersonalGraph(j).graph, id) == Confidence(j.entries, id)
  {
    if id in Detected(j.entries) {
      DistortionNode(j, id);
    } else {
      ConfidenceUndetected(j.entries, id);
      if id in Used(j.entries) {
        InterventionNode(j, id);
      }
    }
  }

  lemma AddressRead(j: Journey, k: (Id, Id))
    requires Buildable(j.entries)
    ensures AddressWeight(BuildPersonalGraph(j).graph, k) == Total(j.entries, Links(k))
  {
    AddressesEdge(j, k.0, k.1);
    LinksPositive(j.entries, k.0, k.1);
  }

  /** Building the graph of two consecutive stretches of a journey separately and adding the
      counters gives the counters of the whole journey. */
  lemma PersonalAdditive(j: Journey, j1: Journey, j2: Journey, id: Id, k: (Id, Id))
    requires j.entries == j1.entries + j2.entries
    requires Buildable(j.entries) && Buildable(j1.entries) && Buildable(j2.entries)
    ensures var g, g1, g2 := BuildPersonalGraph(j).graph, BuildPersonalGraph(j1).graph, BuildPersonalGraph(j2).graph;
            && NodeOccurrences(g, id) == NodeOccurrences(g1, id) + NodeOccurrences(g2, id)
            && NodeConfidence(g, id) == NodeConfidence(g1, id) + NodeConfidence(g2, id)
            && NodeUses(g, id) == NodeUses(g1, id) + NodeUses(g2, id)
            && AddressWeight(g, k) == AddressWeight(g1, k) + AddressWeight(g2, k)
  {
    OccurrencesRead(j, id);
    OccurrencesRead(j1, id);
    OccurrencesRead(j2, id);
    UsesRead(j, id);
    UsesRead(j1, id);
    UsesRead(j2, id);
    ConfidenceRead(j, id);
    ConfidenceRead(j1, id);
    ConfidenceRead(j2, id);
    AddressRead(j, k);
    AddressRead(j1, k);
    AddressRead(j2, k);
    TotalAppend(j1.entries, j2.entries, Occurrences(id));
    TotalAppend(j1.entries, j2.entries, Uses(id));
    TotalAppend(j1.entries, j2.entries, Links(k));
    ConfidenceAppend(j1.entries, j2.entries, id);
  }
}
