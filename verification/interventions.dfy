/** Intervention assignment (add_interventions.py): a fixed catalogue of interventions with the
    distortions each one targets, a fixed table of the interventions each journey type is
    offered, matching of an entry's detected distortions against the offered interventions,
    a random pick of one or two matches per entry, and per-journey usage statistics.

    The random pick is a nondeterministic choice (`:|`): every outcome `random.sample` and
    `random.randint` can produce is allowed, and the contracts hold for each of them. */
module Interventions {
  import opened Common
  import opened Entities

  datatype Intervention = Intervention(name: string, targets: seq<Id>, effectiveness: real)

  /** The intervention catalogue. */
  const Catalog: map<Id, Intervention> := map[
    "thought_records" := Intervention(
      "Thought Records", ["all_or_nothing_thinking", "catastrophizing", "overgeneralization"], 0.75),
    "behavioral_experiments" := Intervention(
      "Behavioral Experiments", ["fortune_telling", "mind_reading", "catastrophizing"], 0.82),
    "examine_evidence" := Intervention(
      "Examining Evidence", ["mind_reading", "overgeneralization", "jumping_to_conclusions"], 0.78),
    "cognitive_restructuring" := Intervention(
      "Cognitive Restructuring", ["labeling", "should_statements", "emotional_reasoning"], 0.71),
    "mindfulness" := Intervention(
      "Mindfulness Practice", ["rumination", "emotional_reasoning", "mental_filter"], 0.68),
    "exposure_therapy" := Intervention(
      "Exposure Therapy", ["catastrophizing", "fortune_telling"], 0.85)
  ]

  /** The interventions offered to each journey type. */
  const JourneyInterventions: map<string, seq<Id>> := map[
    "improving" := ["thought_records", "examine_evidence"],
    "plateauing" := ["cognitive_restructuring", "mindfulness"],
    "worsening" := [],
    "fluctuating" := ["thought_records"],
    "rapid_improvement" := ["behavioral_experiments", "exposure_therapy", "examine_evidence"]
  ]

  /** The distortion labels the extractor can report (the keys of `DISTORTIONS` in
      kaggle_distortions.py). */
  const ExtractorKinds: set<Id> := {
    "all_or_nothing", "overgeneralization", "mental_filter", "mind_reading", "fortune_telling",
    "catastrophizing", "emotional_reasoning", "should_statements", "labeling", "personalization"
  }

  /** An intervention aimed at two or three distinct distortions, with an effectiveness in
      (0, 1]. */
  predicate Focused(x: Intervention) {
    2 <= |x.targets| <= 3 && NoDup(x.targets) && 0.0 < x.effectiveness <= 1.0
  }

  /** The catalogue holds six interventions, each of them focused. */
  lemma CatalogShape()
    ensures |Catalog.Keys| == 6
    ensures forall k :: k in Catalog ==> Focused(Catalog[k])
  {
    CatalogSize();
  }

  lemma CatalogSize()
    ensures |Catalog.Keys| == 6
  {
    assert Catalog.Keys == {"thought_records", "behavioral_experiments", "examine_evidence",
                            "cognitive_restructuring", "mindfulness", "exposure_therapy"};
  }

  /** Every intervention a journey type is offered is in the catalogue, once. */
  lemma TableInCatalog(t: string)
    requires t in JourneyInterventions
    ensures NoDup(JourneyInterventions[t])
    ensures forall k :: k in JourneyInterventions[t] ==> k in Catalog
  {
  }

  /** How many distinct distortions of `ds` the targets cover. */
  function Overlap(ds: seq<Id>, targets: seq<Id>): nat {
    |ToSet(ds) * ToSet(targets)|
  }

  /** The dict built by `get_matching_interventions`: its keys in insertion order and the overlap
      stored for each. */
  datatype Matches = Matches(keys: seq<Id>, overlap: map<Id, nat>)

  /** `get_matching_interventions`, one available intervention at a time. A label missing from
      the catalogue raises `KeyError` in the source, so callers must pass catalogue labels. */
  function MatchingInterventions(ds: seq<Id>, available: seq<Id>): (r: Matches)
    requires forall k :: k in available ==> k in Catalog
    ensures forall k :: k in r.overlap ==> k in available && r.overlap[k] >= 1
  {
    if |available| == 0 then Matches([], map[])
    else
      var m := MatchingInterventions(ds, available[..|available| - 1]);
      var k := available[|available| - 1];
      var n := Overlap(ds, Catalog[k].targets);
      if n > 0 then Matches(AppendNew(m.keys, [k]), m.overlap[k := n]) else m
  }

  /** The matches list each key once, and list exactly the keys they store. */
  lemma {:induction false} MatchingKeys(ds: seq<Id>, available: seq<Id>)
    requires forall k :: k in available ==> k in Catalog
    ensures var r := MatchingInterventions(ds, available);
            NoDup(r.keys) && forall k :: k in r.keys <==> k in r.overlap
  {
    if |available| > 0 {
      var init, k := available[..|available| - 1], available[|available| - 1];
      MatchingKeys(ds, init);
      AppendNewOne(MatchingInterventions(ds, init).keys, k);
    }
  }

  /** The matches are exactly the offered interventions sharing at least one distortion with
      the entry, each stored with that overlap. */
  lemma {:induction false} MatchingValues(ds: seq<Id>, available: seq<Id>)
    requires forall k :: k in available ==> k in Catalog
    ensures var r := MatchingInterventions(ds, available);
            && (forall k :: k in r.overlap <==> k in available && Overlap(ds, Catalog[k].targets) > 0)
            && (forall k :: k in r.overlap ==> r.overlap[k] == Overlap(ds, Catalog[k].targets) >= 1)
  {
    if |available| > 0 {
      var init, k := available[..|available| - 1], available[|available| - 1];
      MatchingValues(ds, init);
      assert forall x :: x in available <==> x in init || x == k;
    }
  }

  /** The matches, as `get_matching_interventions` promises them: each offered intervention that
      shares a distortion with the entry is listed once with its overlap, and nothing else is. */
  lemma MatchingExact(ds: seq<Id>, available: seq<Id>)
    requires forall k :: k in available ==> k in Catalog
    ensures var r := MatchingInterventions(ds, available);
            && NoDup(r.keys)
            && (forall k :: k in r.keys <==> k in available && Overlap(ds, Catalog[k].targets) > 0)
            && (forall k :: k in r.overlap <==> k in r.keys)
            && (forall k :: k in r.overlap ==> r.overlap[k] == Overlap(ds, Catalog[k].targets) >= 1)
  {
    MatchingKeys(ds, available);
    MatchingValues(ds, available);
  }

  /** Overlaps are computed on sets, so the matches depend only on which distortions occur,
      not on their order or on repeats. */
  lemma {:induction false} MatchingIgnoresRepeats(ds: seq<Id>, ds': seq<Id>, available: seq<Id>)
    requires forall k :: k in available ==> k in Catalog
    requires forall d :: d in ds <==> d in ds'
    ensures MatchingInterventions(ds, available) == MatchingInterventions(ds', available)
  {
    assert ToSet(ds) == ToSet(ds');
    if |available| > 0 {
      MatchingIgnoresRepeats(ds, ds', available[..|available| - 1]);
    }
  }

  /** The catalogue targets that no extractor label can equal: `thought_records` aims at
      `all_or_nothing_thinking` while the extractor reports `all_or_nothing`, and `rumination`
      and `jumping_to_conclusions` are not extractor labels at all. */
  lemma UnreachableTargets()
    ensures "all_or_nothing" in ExtractorKinds && "all_or_nothing_thinking" !in ExtractorKinds
    ensures "rumination" !in ExtractorKinds && "jumping_to_conclusions" !in ExtractorKinds
    ensures "all_or_nothing_thinking" in Catalog["thought_records"].targets
    ensures "rumination" in Catalog["mindfulness"].targets
    ensures "jumping_to_conclusions" in Catalog["examine_evidence"].targets
    ensures forall k :: k in Catalog ==>
              (forall t :: t in Catalog[k].targets && t !in ExtractorKinds ==>
                 t in {"all_or_nothing_thinking", "rumination", "jumping_to_conclusions"})
  {
  }

  /** A detection of `all_or_nothing` never counts towards `thought_records`. */
  lemma AllOrNothingNeverMatches(ds: seq<Id>)
    ensures Overlap(ds + ["all_or_nothing"], Catalog["thought_records"].targets)
         == Overlap(ds, Catalog["thought_records"].targets)
  {
    var targets := ToSet(Catalog["thought_records"].targets);
    assert ToSet(ds + ["all_or_nothing"]) * targets == ToSet(ds) * targets;
  }

  /** `assign_interventions_to_entry`: one or two distinct matching interventions drawn at random,
      or none when nothing matches. The draw of `randint(1, 2)` and the sample are choices. */
  method AssignInterventions(ds: seq<Id>, offered: seq<Id>) returns (used: seq<Id>)
    requires forall k :: k in offered ==> k in Catalog
    ensures var keys := MatchingInterventions(ds, offered).keys;
            && (keys == [] <==> used == [])
            && |used| <= 2 && |used| <= |keys|
            && NoDup(used)
            && forall u :: u in used ==> u in offered && Overlap(ds, Catalog[u].targets) >= 1
  {
    var keys := MatchingInterventions(ds, offered).keys;
    MatchingExact(ds, offered);
    if |keys| == 0 {
      return [];
    }
    var n :| 1 <= n <= 2;
    var i :| 0 <= i < |keys|;
    if Min(n, |keys|) == 1 {
      used := [keys[i]];
    } else {
      assert (if i == 0 then 1 else 0) != i;
      var j :| 0 <= j < |keys| && j != i;
      used := [keys[i], keys[j]];
    }
    assert forall u :: u in used ==> u in keys;
  }

  // ---------------------------------------------------------------------------------------
  // Per-journey statistics

  /** How many entries carry a non-empty intervention list. */
  function ActiveCount(es: seq<Entry>): (n: nat)
    ensures n <= |es|
  {
    if |es| == 0 then 0 else ActiveCount(es[..|es| - 1]) + (if es[|es| - 1].interventionActive then 1 else 0)
  }

  /** The total length of the entries' intervention lists. */
  function TotalUses(es: seq<Entry>): nat {
    if |es| == 0 then 0 else TotalUses(es[..|es| - 1]) + |es[|es| - 1].interventionsUsed|
  }

  /** The statistics of `add_interventions_to_data`; the source divides by the number of entries
      and fails on a journey without any. */
  function StatsOf(es: seq<Entry>): (r: Result<InterventionStats, string>)
    ensures r.Success? <==> |es| > 0
    ensures r.Success? ==> r.value.entriesWithInterventions <= |es|
  {
    if |es| == 0 then Failure("division by zero: journey without entries")
    else
      var active := ActiveCount(es);
      Success(InterventionStats(TotalUses(es), active, (active as real) / (|es| as real) * 100.0))
  }

  /** The percentage lies between 0 and 100: 0 exactly when no entry is active, 100 exactly when
      every entry is. */
  lemma PercentageBounds(es: seq<Entry>)
    requires |es| > 0
    ensures var p := StatsOf(es).value.percentage;
            && 0.0 <= p <= 100.0
            && (p == 0.0 <==> ActiveCount(es) == 0)
            && (p == 100.0 <==> ActiveCount(es) == |es|)
  {
    var q := (ActiveCount(es) as real) / (|es| as real);
    RatioFacts(ActiveCount(es), |es|);
    assert StatsOf(es).value.percentage == q * 100.0;
  }

  /** The entry after assignment: the interventions used, and the flag that says whether there
      are any. Nothing else about the entry changes. */
  function Assigned(e: Entry, used: seq<Id>): Entry {
    e.(interventionsUsed := used, interventionActive := |used| > 0)
  }

  /** One entry's assignment is admissible when it is an outcome `AssignInterventions` allows. */
  predicate Admissible(e: Entry, offered: seq<Id>, e': Entry)
    requires forall k :: k in offered ==> k in Catalog
  {
    var ds := Kinds(e.distortions);
    var keys := MatchingInterventions(ds, offered).keys;
    && e' == Assigned(e, e'.interventionsUsed)
    && (keys == [] <==> e'.interventionsUsed == [])
    && |e'.interventionsUsed| <= 2 && |e'.interventionsUsed| <= |keys|
    && NoDup(e'.interventionsUsed)
    && forall u :: u in e'.interventionsUsed ==> u in offered && Overlap(ds, Catalog[u].targets) >= 1
  }

  /** `j'` is `j` after the loop body: the journey's offered interventions recorded, every entry
      assigned admissibly, the statistics attached, and nothing else changed. */
  predicate Processed(j: Journey, j': Journey) {
    && j.journeyType in JourneyInterventions
    && (forall k :: k in JourneyInterventions[j.journeyType] ==> k in Catalog)
    && var offered := JourneyInterventions[j.journeyType];
    && j'.userId == j.userId && j'.journeyType == j.journeyType
    && j'.initialSeverity == j.initialSeverity && j'.finalSeverity == j.finalSeverity
    && j'.improvement == j.improvement
    && j'.assignedInterventions == offered
    && |j'.entries| == |j.entries| > 0
    && (forall i :: 0 <= i < |j.entries| ==> Admissible(j.entries[i], offered, j'.entries[i]))
    && j'.stats == Some(StatsOf(j'.entries).value)
  }

  /** The loop body of `add_interventions_to_data` for one journey: look up the interventions of
      its type (a `KeyError` for an unknown type), record them on the journey, assign each entry,
      and summarise. */
  method AddInterventionsToJourney(j: Journey) returns (r: Result<Journey, string>)
    ensures r.Failure? <==> j.journeyType !in JourneyInterventions || |j.entries| == 0
    ensures r.Success? ==> Processed(j, r.value)
  {
    if j.journeyType !in JourneyInterventions {
      return Failure("unknown journey type");
    }
    var offered := JourneyInterventions[j.journeyType];
    TableInCatalog(j.journeyType);
    var entries: seq<Entry> := [];
    var i := 0;
    while i < |j.entries|
      invariant 0 <= i <= |j.entries|
      invariant |entries| == i
      invariant forall k :: 0 <= k < i ==> Admissible(j.entries[k], offered, entries[k])
    {
      var e := j.entries[i];
      var used := AssignInterventions(Kinds(e.distortions), offered);
      AdmissibleStep(j.entries, entries, offered, Assigned(e, used));
      entries := entries + [Assigned(e, used)];
      i := i + 1;
    }
    var stats := StatsOf(entries);
    if stats.Failure? {
      return Failure(stats.error);
    }
    r := Success(j.(assignedInterventions := offered, entries := entries, stats := Some(stats.value)));
  }

  /** Extending the assigned prefix by one admissible entry. */
  lemma AdmissibleStep(es: seq<Entry>, done: seq<Entry>, offered: seq<Id>, e': Entry)
    requires forall k :: k in offered ==> k in Catalog
    requires |done| < |es|
    requires forall k :: 0 <= k < |done| ==> Admissible(es[k], offered, done[k])
    requires Admissible(es[|done|], offered, e')
    ensures forall k :: 0 <= k < |done| + 1 ==> Admissible(es[k], offered, (done + [e'])[k])
  {
    forall k | 0 <= k < |done| + 1
      ensures Admissible(es[k], offered, (done + [e'])[k])
    {
      if k < |done| {
        assert (done + [e'])[k] == done[k];
      } else {
        assert (done + [e'])[k] == e';
      }
    }
  }

  /** `add_interventions_to_data` without the file I/O: every journey in turn, failing as a whole
      when one of them fails. */
  method AddInterventions(js: seq<Journey>) returns (r: Result<seq<Journey>, string>)
    ensures r.Failure? <==> exists k :: 0 <= k < |js| && (js[k].journeyType !in JourneyInterventions || |js[k].entries| == 0)
    ensures r.Success? ==> |r.value| == |js| && forall k :: 0 <= k < |js| ==> Processed(js[k], r.value[k])
  {
    var out: seq<Journey> := [];
    var k := 0;
    while k < |js|
      invariant 0 <= k <= |js|
      invariant |out| == k
      invariant forall m :: 0 <= m < k ==> Processed(js[m], out[m])
    {
      var jr := AddInterventionsToJourney(js[k]);
      if jr.Failure? {
        return Failure(jr.error);
      }
      out := out + [jr.value];
      k := k + 1;
    }
    return Success(out);
  }

  // ---------------------------------------------------------------------------------------
  // Properties of the statistics

  lemma {:induction false} ActiveCountAll(es: seq<Entry>)
    ensures ActiveCount(es) == 0 <==> forall i :: 0 <= i < |es| ==> !es[i].interventionActive
  {
    if |es| > 0 {
      ActiveCountAll(es[..|es| - 1]);
    }
  }

  lemma {:induction false} TotalUsesZero(es: seq<Entry>)
    ensures TotalUses(es) == 0 <==> forall i :: 0 <= i < |es| ==> es[i].interventionsUsed == []
  {
    if |es| > 0 {
      TotalUsesZero(es[..|es| - 1]);
    }
  }

  /** An entry is active exactly when it used an intervention, so the active entries are at
      most the total uses, and the total uses at most twice the active entries. */
  lemma {:induction false} UsesBetween(es: seq<Entry>)
    requires forall i :: 0 <= i < |es| ==> es[i].interventionActive == (|es[i].interventionsUsed| > 0)
    requires forall i :: 0 <= i < |es| ==> |es[i].interventionsUsed| <= 2
    ensures ActiveCount(es) <= TotalUses(es) <= 2 * ActiveCount(es)
  {
    if |es| > 0 {
      UsesBetween(es[..|es| - 1]);
    }
  }

  /** A `worsening` journey is offered nothing, so every entry ends inactive with no
      interventions, and its statistics are all zero. */
  lemma WorseningUsesNothing(j: Journey, j': Journey)
    requires j.journeyType == "worsening"
    requires Processed(j, j')
    ensures j'.assignedInterventions == []
    ensures forall i :: 0 <= i < |j'.entries| ==> j'.entries[i].interventionsUsed == [] && !j'.entries[i].interventionActive
    ensures StatsOf(j'.entries) == Success(InterventionStats(0, 0, 0.0))
  {
    var es := j'.entries;
    forall i | 0 <= i < |es|
      ensures es[i].interventionsUsed == [] && !es[i].interventionActive
    {
      assert MatchingInterventions(Kinds(j.entries[i].distortions), []).keys == [];
    }
    ActiveCountAll(es);
    TotalUsesZero(es);
  }
}
