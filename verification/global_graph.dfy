/** `build_global_intervention_graph` (graph.py:77-159): one graph over a whole cohort of
    journeys. Distortion nodes total the detections of every entry; intervention nodes carry the
    mean improvement of the journeys that used them and improved; `co_occurs` edges join labels
    whose count of sorted position pairs over all entries reaches a tenth of the number of
    journeys, under an unordered (sorted) key; `targets` edges join an
    intervention to a label it was used alongside at least twice. */
module GlobalGraph {
  import opened Common
  import opened Entities
  import opened Tallies
  import LexOrder

  /** The entries of every journey, journey by journey. */
  function Flatten(js: seq<Journey>): seq<Entry> {
    if |js| == 0 then [] else Flatten(js[..|js| - 1]) + js[|js| - 1].entries
  }

  /** The labels detected in the entries, one per detection, in entry order. */
  function AllKinds(es: seq<Entry>): seq<Id> {
    if |es| == 0 then [] else AllKinds(es[..|es| - 1]) + Kinds(es[|es| - 1].distortions)
  }

  /** The interventions used in the entries, one per use, in entry order. */
  function AllUsed(es: seq<Entry>): seq<Id> {
    if |es| == 0 then [] else AllUsed(es[..|es| - 1]) + es[|es| - 1].interventionsUsed
  }

  lemma {:induction false} AllKindsDetected(es: seq<Entry>)
    ensures forall d :: d in AllKinds(es) <==> d in Detected(es)
  {
    if |es| > 0 {
      AllKindsDetected(es[..|es| - 1]);
    }
  }

  lemma {:induction false} AllUsedUsed(es: seq<Entry>)
    ensures forall i :: i in AllUsed(es) <==> i in Used(es)
  {
    if |es| > 0 {
      AllUsedUsed(es[..|es| - 1]);
    }
  }

  // ---------------------------------------------------------------------------------------
  // Outcomes of the journeys that improved

  /** `intervention_outcomes[i]`: the improvement credited to `i` and how many uses earned it. */
  datatype Outcome = Outcome(totalImprovement: real, count: nat)

  function OutcomeOf(m: map<Id, Outcome>, i: Id): Outcome {
    if i in m then m[i] else Outcome(0.0, 0)
  }

  /** Reference count: the uses of `i` in journeys whose improvement is positive. */
  function Helped(js: seq<Journey>, i: Id): nat {
    if |js| == 0 then 0
    else
      var j := js[|js| - 1];
      Helped(js[..|js| - 1], i) + (if j.improvement > 0.0 then Total(j.entries, Uses(i)) else 0)
  }

  /** Reference sum: each such use contributes its journey's improvement. */
  function Gain(js: seq<Journey>, i: Id): real {
    if |js| == 0 then 0.0
    else
      var j := js[|js| - 1];
      Gain(js[..|js| - 1], i) + (if j.improvement > 0.0 then Scale(Total(j.entries, Uses(i)), j.improvement) else 0.0)
  }

  /** `n` more uses in a journey with this improvement: credited only when it is positive. */
  function Credit(o: Outcome, n: nat, improvement: real): Outcome {
    if improvement > 0.0 then Outcome(o.totalImprovement + Scale(n, improvement), o.count + n) else o
  }

  /** The uses of one entry (graph.py:109-111). */
  function RecordUses(m: map<Id, Outcome>, used: seq<Id>, improvement: real): (r: map<Id, Outcome>)
    ensures forall i :: OutcomeOf(r, i) == Credit(OutcomeOf(m, i), CountOf(used, i), improvement)
    decreases |used|
  {
    if |used| == 0 then m
    else if improvement > 0.0 then
      var o := OutcomeOf(m, used[0]);
      var m' := m[used[0] := Outcome(o.totalImprovement + improvement, o.count + 1)];
      RecordUsesStep(m, m', used, improvement);
      RecordUses(m', used[1..], improvement)
    else
      RecordUses(m, used[1..], improvement)
  }

  lemma RecordUsesStep(m: map<Id, Outcome>, m': map<Id, Outcome>, used: seq<Id>, improvement: real)
    requires |used| > 0 && improvement > 0.0
    requires m' == m[used[0] := Outcome(OutcomeOf(m, used[0]).totalImprovement + improvement, OutcomeOf(m, used[0]).count + 1)]
    ensures forall i :: Credit(OutcomeOf(m', i), CountOf(used[1..], i), improvement)
                     == Credit(OutcomeOf(m, i), CountOf(used, i), improvement)
  {
    forall i
      ensures Credit(OutcomeOf(m', i), CountOf(used[1..], i), improvement)
           == Credit(OutcomeOf(m, i), CountOf(used, i), improvement)
    {
      RecordUsesAt(m, m', used, improvement, i);
    }
  }

  lemma RecordUsesAt(m: map<Id, Outcome>, m': map<Id, Outcome>, used: seq<Id>, improvement: real, i: Id)
    requires |used| > 0 && improvement > 0.0
    requires m' == m[used[0] := Outcome(OutcomeOf(m, used[0]).totalImprovement + improvement, OutcomeOf(m, used[0]).count + 1)]
    ensures Credit(OutcomeOf(m', i), CountOf(used[1..], i), improvement)
         == Credit(OutcomeOf(m, i), CountOf(used, i), improvement)
  {
    if i == used[0] {
      assert CountOf(used, i) == CountOf(used[1..], i) + 1;
      CreditOneMore(OutcomeOf(m, i), CountOf(used[1..], i), improvement);
    } else {
      assert CountOf(used, i) == CountOf(used[1..], i);
      assert OutcomeOf(m', i) == OutcomeOf(m, i);
    }
  }

  /** Crediting one use and then `n` more is crediting `n + 1`. */
  lemma CreditOneMore(o: Outcome, n: nat, improvement: real)
    requires improvement > 0.0
    ensures Credit(Outcome(o.totalImprovement + improvement, o.count + 1), n, improvement) == Credit(o, n + 1, improvement)
  {
    assert Scale(n + 1, improvement) == Scale(n, improvement) + improvement;
  }

  lemma {:induction false} ScaleAdd(a: nat, b: nat, x: real)
    ensures Scale(a + b, x) == Scale(a, x) + Scale(b, x)
  {
    if b > 0 {
      ScaleAdd(a, b - 1, x);
    }
  }

  /** The outcomes after the first `n` entries of one journey. */
  function EntriesOutcomes(m: map<Id, Outcome>, es: seq<Entry>, n: nat, improvement: real): map<Id, Outcome>
    requires n <= |es|
  {
    if n == 0 then m else RecordUses(EntriesOutcomes(m, es, n - 1, improvement), es[n - 1].interventionsUsed, improvement)
  }

  /** The outcomes after the first `n` journeys (graph.py:86-111). */
  function JourneysOutcomes(js: seq<Journey>, n: nat): map<Id, Outcome>
    requires n <= |js|
  {
    if n == 0 then map[]
    else
      var j := js[n - 1];
      EntriesOutcomes(JourneysOutcomes(js, n - 1), j.entries, |j.entries|, j.improvement)
  }

  lemma CreditTwice(o: Outcome, a: nat, b: nat, x: real)
    ensures Credit(Credit(o, a, x), b, x) == Credit(o, a + b, x)
  {
    ScaleAdd(a, b, x);
  }

  lemma {:induction false} EntriesOutcomesCredit(m: map<Id, Outcome>, es: seq<Entry>, n: nat, improvement: real, i: Id)
    requires n <= |es|
    ensures OutcomeOf(EntriesOutcomes(m, es, n, improvement), i) == Credit(OutcomeOf(m, i), Total(es[..n], Uses(i)), improvement)
  {
    if n > 0 {
      var prev := EntriesOutcomes(m, es, n - 1, improvement);
      var c := CountOf(es[n - 1].interventionsUsed, i);
      EntriesOutcomesCredit(m, es, n - 1, improvement, i);
      PrefixTotal(es, n, Uses(i));
      assert Per(es[n - 1], Uses(i)) == c;
      CreditChain(OutcomeOf(EntriesOutcomes(m, es, n, improvement), i), OutcomeOf(prev, i), OutcomeOf(m, i),
                  Total(es[..n - 1], Uses(i)), c, Total(es[..n], Uses(i)), improvement);
    }
  }

  lemma CreditChain(out: Outcome, mid: Outcome, o: Outcome, before: nat, c: nat, total: nat, x: real)
    requires out == Credit(mid, c, x) && mid == Credit(o, before, x) && total == before + c
    ensures out == Credit(o, total, x)
  {
    CreditTwice(o, before, c, x);
  }

  /** The outcome fold credits every intervention with exactly the reference sum and count. */
  lemma {:induction false} JourneysOutcomesSpec(js: seq<Journey>, n: nat, i: Id)
    requires n <= |js|
    ensures OutcomeOf(JourneysOutcomes(js, n), i) == Outcome(Gain(js[..n], i), Helped(js[..n], i))
  {
    if n > 0 {
      JourneysOutcomesSpec(js, n - 1, i);
      JourneysOutcomesStep(js, n, i);
    }
  }

  /** One more journey credits its uses to the reference sums. */
  lemma JourneysOutcomesStep(js: seq<Journey>, n: nat, i: Id)
    requires 0 < n <= |js|
    requires OutcomeOf(JourneysOutcomes(js, n - 1), i) == Outcome(Gain(js[..n - 1], i), Helped(js[..n - 1], i))
    ensures OutcomeOf(JourneysOutcomes(js, n), i) == Outcome(Gain(js[..n], i), Helped(js[..n], i))
  {
    var j := js[n - 1];
    EntriesOutcomesCredit(JourneysOutcomes(js, n - 1), j.entries, |j.entries|, j.improvement, i);
    assert j.entries[..|j.entries|] == j.entries;
    assert js[..n][..n - 1] == js[..n - 1];
  }

  /** `avg_improvement` (graph.py:131-137): 0 when nothing was credited. */
  function AvgImprovement(o: Outcome): real {
    if o.count > 0 then o.totalImprovement / (o.count as real) else 0.0
  }

  /** The reference value of the same average. */
  function MeanGain(js: seq<Journey>, i: Id): real {
    if Helped(js, i) > 0 then Gain(js, i) / (Helped(js, i) as real) else 0.0
  }

  // ---------------------------------------------------------------------------------------
  // The graph

  /** `count >= len(all_journeys) * 0.1` (graph.py:140-143), in exact arithmetic. */
  predicate Reaches(count: nat, journeys: nat) {
    (count as real) >= (journeys as real) * 0.1
  }

  /** The threshold compares a count of sorted position pairs over all entries with a tenth of
      the number of journeys. */
  lemma ReachesTenth(count: nat, journeys: nat)
    ensures Reaches(count, journeys) <==> 10 * count >= journeys
  {
  }

  function BuildGlobalGraph(js: seq<Journey>): (g: Digraph<EdgeAttrs>)
    ensures g.Valid()
    ensures forall id :: id in g.nodes <==> id in Detected(Flatten(js)) || id in Used(Flatten(js))
    ensures forall id :: id in g.attrs <==> id in g.nodes
  {
    var es := Flatten(js);
    AllKindsDetected(es);
    AllUsedUsed(es);
    GlobalEdgeEnds(js);
    Digraph(GlobalNodes(es), GlobalAttrs(js), GlobalEdges(TallyAfter(es, |es|, true), JourneysOutcomes(js, |js|), |js|))
  }

  /** The distortions in order of first detection, then the interventions not already
      present in order of first use. */
  function GlobalNodes(es: seq<Entry>): (r: seq<Id>)
    ensures NoDup(r)
    ensures forall id :: id in r <==> id in AllKinds(es) || id in AllUsed(es)
  {
    AppendNew(Dedup(AllKinds(es)), AllUsed(es))
  }

  /** Node attributes (graph.py:122-137): an intervention's `add_node` comes last, so its
      attributes are the ones a label that is both kinds ends up with. */
  function GlobalAttrs(js: seq<Journey>): map<Id, NodeAttrs> {
    var es := Flatten(js);
    var t := TallyAfter(es, |es|, true);
    var o := JourneysOutcomes(js, |js|);
    var used := AllUsed(es);
    map id | id in GlobalNodes(es) ::
      if id in used then GlobalIntervention(AvgImprovement(OutcomeOf(o, id)))
      else GlobalDistortion(Get0(t.occurrences, id), GetR(t.confidence, id))
  }

  /** Every edge joins a detected label or used intervention to a detected label. */
  lemma GlobalEdgeEnds(js: seq<Journey>)
    ensures var es := Flatten(js);
            forall k :: k in GlobalEdges(TallyAfter(es, |es|, true), JourneysOutcomes(js, |js|), |js|)
                ==> (k.0 in Detected(es) || k.0 in Used(es)) && k.1 in Detected(es)
  {
    var es := Flatten(js);
    var t := TallyAfter(es, |es|, true);
    var o := JourneysOutcomes(js, |js|);
    GlobalTallyCounts(js);
    forall k | k in GlobalEdges(t, o, |js|)
      ensures (k.0 in Detected(es) || k.0 in Used(es)) && k.1 in Detected(es)
    {
      GlobalEdgesRead(t, o, |js|, k);
      if k in t.links && t.links[k] >= 2 {
        LinkEnds(es, k);
      } else {
        PairEndsDetected(es, true, k);
      }
    }
  }

  /** `co_occurs` edges for the pairs that reach the threshold, then `targets` edges for the
      links counted at least twice; adding a `targets` edge over an existing one replaces all
      of its attributes. */
  function GlobalEdges(t: Tally, o: map<Id, Outcome>, journeys: nat): map<(Id, Id), EdgeAttrs> {
    var coOccurs := map k | k in t.pairs && Reaches(t.pairs[k], journeys) :: EdgeAttrs(t.pairs[k], CoOccurs, None);
    var targets := map k | k in t.links && t.links[k] >= 2 ::
      EdgeAttrs(t.links[k], Targets, Some(AvgImprovement(OutcomeOf(o, k.0))));
    coOccurs + targets
  }

  lemma GlobalEdgesRead(t: Tally, o: map<Id, Outcome>, journeys: nat, k: (Id, Id))
    ensures var e := GlobalEdges(t, o, journeys);
            && (k in e <==> (k in t.pairs && Reaches(t.pairs[k], journeys)) || (k in t.links && t.links[k] >= 2))
            && (k in e && e[k].edgeType == CoOccurs
                <==> k in t.pairs && Reaches(t.pairs[k], journeys) && !(k in t.links && t.links[k] >= 2))
            && (k in e && e[k].edgeType == CoOccurs ==> e[k].weight == t.pairs[k])
            && (k in e && e[k].edgeType == Targets <==> k in t.links && t.links[k] >= 2)
            && (k in e && e[k].edgeType == Targets
                ==> e[k].weight == t.links[k] && e[k].effectiveness == Some(AvgImprovement(OutcomeOf(o, k.0))))
  {
  }

  /** What the folds hold once every journey is seen. */
  lemma GlobalFinished(js: seq<Journey>)
    ensures var es := Flatten(js);
            && Counts(TallyAfter(es, |es|, true), es, true)
            && (forall i :: AvgImprovement(OutcomeOf(JourneysOutcomes(js, |js|), i)) == MeanGain(js, i))
            && (forall d :: d in AllKinds(es) <==> d in Detected(es))
            && (forall i :: i in AllUsed(es) <==> i in Used(es))
  {
    var es := Flatten(js);
    GlobalTallyCounts(js);
    forall i
      ensures AvgImprovement(OutcomeOf(JourneysOutcomes(js, |js|), i)) == MeanGain(js, i)
    {
      AvgIsMeanGain(js, i);
    }
    AllKindsDetected(es);
    AllUsedUsed(es);
  }

  lemma GlobalTallyCounts(js: seq<Journey>)
    ensures var es := Flatten(js); Counts(TallyAfter(es, |es|, true), es, true)
  {
    var es := Flatten(js);
    TallyAfterCounts(es, |es|, true);
    assert es[..|es|] == es;
  }

  lemma GlobalLinkCounts(js: seq<Journey>)
    ensures var es := Flatten(js); LinkCounts(TallyAfter(es, |es|, true).links, es)
  {
    GlobalTallyCounts(js);
  }

  lemma GlobalPairCounts(js: seq<Journey>)
    ensures var es := Flatten(js); PairCounts(TallyAfter(es, |es|, true).pairs, es, true)
  {
    GlobalTallyCounts(js);
  }

  /** The average the builder computes is the reference mean. */
  lemma AvgIsMeanGain(js: seq<Journey>, i: Id)
    ensures AvgImprovement(OutcomeOf(JourneysOutcomes(js, |js|), i)) == MeanGain(js, i)
  {
    JourneysOutcomesSpec(js, |js|, i);
    assert js[..|js|] == js;
  }

  // ---------------------------------------------------------------------------------------
  // What the graph holds

  /** A distortion node totals the label's detections and confidences over every entry of
      every journey. */
  lemma GlobalDistortionNode(js: seq<Journey>, d: Id)
    requires d in Detected(Flatten(js)) && d !in Used(Flatten(js))
    ensures BuildGlobalGraph(js).attrs[d]
         == GlobalDistortion(Total(Flatten(js), Occurrences(d)), Confidence(Flatten(js), d))
  {
    GlobalFinished(js);
  }

  /** An intervention node carries the mean improvement credited to it. A label that is both
      detected and used gets the intervention attributes. */
  lemma GlobalInterventionNode(js: seq<Journey>, i: Id)
    requires i in Used(Flatten(js))
    ensures BuildGlobalGraph(js).attrs[i] == GlobalIntervention(MeanGain(js, i))
  {
    GlobalFinished(js);
  }

  /** Global co-occurrence keys are sorted pairs, counted once per pair of positions in an
      entry whichever label came first. A `co_occurs` edge needs the count of such pairs over all entries
      to reach a tenth of the number of journeys, and a `targets` edge on the same key
      replaces it. */
  lemma GlobalCoOccursEdge(js: seq<Journey>, k: (Id, Id))
    ensures var g := BuildGlobalGraph(js);
            var c := Total(Flatten(js), Pairs(true, k));
            && (k in g.edges && g.edges[k].edgeType == CoOccurs
                <==> c > 0 && 10 * c >= |js| && Total(Flatten(js), Links(k)) < 2)
            && (k in g.edges && g.edges[k].edgeType == CoOccurs
                ==> g.edges[k].weight == c && LexOrder.LexLe(k.0, k.1))
  {
    var es := Flatten(js);
    GlobalPairCounts(js);
    GlobalLinkCounts(js);
    GlobalEdgesRead(TallyAfter(es, |es|, true), JourneysOutcomes(js, |js|), |js|, k);
    ReachesTenth(Total(es, Pairs(true, k)), |js|);
    TotalPairsSorted(es, k);
  }

  /** A `targets` edge joins an intervention to a label detected alongside its uses at least
      twice; its weight is that count and its effectiveness is the intervention's mean
      improvement. */
  lemma GlobalTargetsEdge(js: seq<Journey>, i: Id, d: Id)
    ensures var g := BuildGlobalGraph(js);
            var c := Total(Flatten(js), Links((i, d)));
            && ((i, d) in g.edges && g.edges[(i, d)].edgeType == Targets <==> c >= 2)
            && ((i, d) in g.edges && g.edges[(i, d)].edgeType == Targets
                ==> g.edges[(i, d)].weight == c && g.edges[(i, d)].effectiveness == Some(MeanGain(js, i)))
  {
    var es := Flatten(js);
    var t, o := TallyAfter(es, |es|, true), JourneysOutcomes(js, |js|);
    assert BuildGlobalGraph(js).edges == GlobalEdges(t, o, |js|);
    GlobalLinkCounts(js);
    TargetsFromLinks(t, o, |js|, es, (i, d));
    AvgIsMeanGain(js, i);
  }

  lemma TargetsFromLinks(t: Tally, o: map<Id, Outcome>, journeys: nat, es: seq<Entry>, k: (Id, Id))
    requires LinkCounts(t.links, es)
    ensures var e := GlobalEdges(t, o, journeys);
            && (k in e && e[k].edgeType == Targets <==> Total(es, Links(k)) >= 2)
            && (k in e && e[k].edgeType == Targets
                ==> e[k].weight == Total(es, Links(k)) && e[k].effectiveness == Some(AvgImprovement(OutcomeOf(o, k.0))))
  {
    GlobalEdgesRead(t, o, journeys, k);
  }

  /** Every `targets` edge of an intervention carries the same effectiveness, which is the
      `avg_improvement` of its node. */
  lemma TargetsShareEffectiveness(js: seq<Journey>, i: Id, d1: Id, d2: Id)
    requires var g := BuildGlobalGraph(js);
             && (i, d1) in g.edges && g.edges[(i, d1)].edgeType == Targets
             && (i, d2) in g.edges && g.edges[(i, d2)].edgeType == Targets
    ensures var g := BuildGlobalGraph(js);
            && g.edges[(i, d1)].effectiveness == g.edges[(i, d2)].effectiveness
            && i in g.attrs && g.attrs[i] == GlobalIntervention(g.edges[(i, d1)].effectiveness.value)
  {
    var es := Flatten(js);
    GlobalTargetsEdge(js, i, d1);
    GlobalTargetsEdge(js, i, d2);
    GlobalFinished(js);
    LinkEnds(es, (i, d1));
    GlobalInterventionNode(js, i);
  }

  // ---------------------------------------------------------------------------------------
  // The mean improvement

  /** Journey `j` credits intervention `i`: it improved and used `i`. */
  predicate Credits(j: Journey, i: Id) {
    j.improvement > 0.0 && Total(j.entries, Uses(i)) > 0
  }

  lemma {:induction false} HelpedPositive(js: seq<Journey>, i: Id)
    ensures Helped(js, i) > 0 <==> exists k :: 0 <= k < |js| && Credits(js[k], i)
  {
    if |js| > 0 {
      var init := js[..|js| - 1];
      HelpedPositive(init, i);
      if Helped(js, i) > 0 {
        if Helped(init, i) > 0 {
          var k :| 0 <= k < |init| && Credits(init[k], i);
          assert js[k] == init[k];
        } else {
          assert Credits(js[|js| - 1], i);
        }
      } else {
        forall k | 0 <= k < |js|
          ensures !Credits(js[k], i)
        {
          if k < |init| {
            assert js[k] == init[k];
          }
        }
      }
    }
  }

  /** When every crediting journey's improvement lies in [lo, hi], so does every credited use. */
  lemma {:induction false} GainBounds(js: seq<Journey>, i: Id, lo: real, hi: real)
    requires forall k :: 0 <= k < |js| && Credits(js[k], i) ==> lo <= js[k].improvement <= hi
    ensures Scale(Helped(js, i), lo) <= Gain(js, i) <= Scale(Helped(js, i), hi)
  {
    if |js| > 0 {
      var init, j := js[..|js| - 1], js[|js| - 1];
      assert forall k :: 0 <= k < |init| ==> init[k] == js[k];
      GainBounds(init, i, lo, hi);
      var n := if j.improvement > 0.0 then Total(j.entries, Uses(i)) else 0;
      ScaleAdd(Helped(init, i), n, lo);
      ScaleAdd(Helped(init, i), n, hi);
      if n > 0 {
        ScaleMonotone(n, lo, j.improvement);
        ScaleMonotone(n, j.improvement, hi);
      }
    }
  }

  lemma {:induction false} ScaleMonotone(n: nat, x: real, y: real)
    requires x <= y
    ensures Scale(n, x) <= Scale(n, y)
  {
    if n > 0 {
      ScaleMonotone(n - 1, x, y);
    }
  }

  lemma {:induction false} ScalePositive(n: nat, x: real)
    requires x > 0.0
    ensures Scale(n, x) >= 0.0
    ensures n > 0 ==> Scale(n, x) > 0.0
  {
    if n > 0 {
      ScalePositive(n - 1, x);
    }
  }

  /** `avg_improvement` is 0 exactly when no improving journey used the intervention. Otherwise
      it is positive and lies between the smallest and the largest improvement of the journeys
      that credited it. */
  lemma MeanGainBounds(js: seq<Journey>, i: Id, lo: real, hi: real)
    requires forall k :: 0 <= k < |js| && Credits(js[k], i) ==> lo <= js[k].improvement <= hi
    ensures MeanGain(js, i) == 0.0 <==> forall k :: 0 <= k < |js| ==> !Credits(js[k], i)
    ensures (exists k :: 0 <= k < |js| && Credits(js[k], i)) ==> 0.0 < MeanGain(js, i) && lo <= MeanGain(js, i) <= hi
  {
    HelpedPositive(js, i);
    var h := Helped(js, i);
    if h > 0 {
      GainBounds(js, i, lo, hi);
      GainPositive(js, i);
      DivideWithin(Gain(js, i), h, lo, hi);
    }
  }

  /** A credited use contributes a positive improvement. */
  lemma {:induction false} GainPositive(js: seq<Journey>, i: Id)
    ensures Helped(js, i) > 0 ==> Gain(js, i) > 0.0
    ensures Gain(js, i) >= 0.0
  {
    if |js| > 0 {
      var j := js[|js| - 1];
      GainPositive(js[..|js| - 1], i);
      if j.improvement > 0.0 {
        ScalePositive(Total(j.entries, Uses(i)), j.improvement);
      }
    }
  }
}
