/** The records shared by the graph builder and the retrieval engine: journeys of journal entries,
    and directed graphs whose nodes are distortion and intervention labels. */
module Entities {
  import opened Common

  /** A distortion label (`catastrophizing`, ...) or an intervention label (`thought_records`, ...).
      Both kinds share one node namespace in every graph. */
  type Id = string

  /** One distortion found in an entry: its label, the phrase it was found in and the
      extractor's confidence. */
  datatype Detection = Detection(kind: Id, phrase: string, confidence: real)

  /** A journal entry. A missing `interventions_used` key is the empty sequence. */
  datatype Entry = Entry(
    week: int,
    distortions: seq<Detection>,
    severity: real,
    interventionsUsed: seq<Id>,
    interventionActive: bool)

  /** The per-journey summary written by the intervention assignment. */
  datatype InterventionStats = InterventionStats(
    totalInterventionsUsed: nat,
    entriesWithInterventions: nat,
    percentage: real)

  /** One user's journey. `assignedInterventions` is empty while none were assigned. */
  datatype Journey = Journey(
    userId: Id,
    journeyType: string,
    entries: seq<Entry>,
    initialSeverity: real,
    finalSeverity: real,
    improvement: real,
    assignedInterventions: seq<Id>,
    stats: Option<InterventionStats>)

  /** The labels detected in an entry, in detection order, repeats included. */
  function Kinds(ds: seq<Detection>): (r: seq<Id>)
    ensures |r| == |ds|
    ensures forall i :: 0 <= i < |ds| ==> r[i] == ds[i].kind
  {
    if |ds| == 0 then [] else [ds[0].kind] + Kinds(ds[1..])
  }

  /** Node attributes, one variant per node kind and graph: the personal graph's distortion and
      intervention nodes, and the global graph's. */
  datatype NodeAttrs =
    | PersonalDistortion(occurrences: nat, totalConfidence: real)
    | PersonalIntervention(uses: nat, avgSeverityChange: Option<real>, effectivenessScore: Option<real>)
    | GlobalDistortion(totalOccurrences: nat, totalConfidence: real)
    | GlobalIntervention(avgImprovement: real)
  {
    /** The `node_type` attribute, exported as `type`. */
    function NodeType(): string {
      if PersonalDistortion? || GlobalDistortion? then "distortion" else "intervention"
    }
  }

  datatype EdgeType = CoOccurs | Addresses | Targets

  /** Edge attributes; only global `targets` edges carry an `effectiveness`. */
  datatype EdgeAttrs = EdgeAttrs(weight: nat, edgeType: EdgeType, effectiveness: Option<real>)

  /** A directed graph without parallel edges: nodes in insertion order, attributes per node,
      and one value per (source, target) edge. */
  datatype Digraph<E> = Digraph(nodes: seq<Id>, attrs: map<Id, NodeAttrs>, edges: map<(Id, Id), E>) {
    /** What a networkx `DiGraph` guarantees: node ids are unique, attributes belong to nodes,
        and every edge joins two nodes of the graph. */
    predicate Valid() {
      && NoDup(nodes)
      && (forall n :: n in attrs ==> n in nodes)
      && (forall e :: e in edges ==> e.0 in nodes && e.1 in nodes)
    }
  }

  /** Graph-level attributes of a personal graph. The retrieval side tests whether `journey_type`
      and `improvement` are present, so those two are optional. */
  datatype Metadata = Metadata(
    userId: Id,
    journeyType: Option<string>,
    initialSeverity: real,
    finalSeverity: real,
    improvement: Option<real>,
    interventionsAssigned: seq<Id>)
}
