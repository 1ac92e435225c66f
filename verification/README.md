# Intervention graphs and graph retrieval, in Dafny

This project models the computational core of a system that analyses journals of cognitive
distortions and the interventions applied to them. The system has three parts:

- **Graph construction** (`InterventionGraphBuilder` in graph.py):
  - Each user's journey of entries is folded into a *personal graph*. It has distortion nodes
    (occurrences, total confidence) and intervention nodes (uses, mean severity change,
    effectiveness score).
  - It also has `addresses` edges from each intervention to the distortions of the same entry.
  - Pairs of distortions seen together at least twice become `co_occurs` edges.
  - The whole cohort is folded into a *global graph*:
    - co-occurrence counts are keyed by the sorted pair and thresholded at a tenth of the number
      of journeys;
    - `targets` edges need an (intervention, distortion) count of at least 2;
    - an intervention's `avg_improvement` is the use-weighted mean of the positive journey
      improvements.
  - `process_all_journeys` builds one personal graph per user and the global graph.
  - `export_for_gear` flattens all of them into node and edge lists.
- **Retrieval** (`GeARRetrieval` in gear_retrieval.py):
  - The flat lists are imported back into weighted digraphs.
  - A query of distortion labels becomes a small *query graph*.
  - Stored users are ranked by a similarity score that mixes node Jaccard, edge Jaccard and
    agreement of degree centrality.
  - Query nodes are ranked as *keystones* by betweenness and degree centrality.
  - *Cascades* (simple paths) are enumerated and ranked by total edge weight.
  - The outcomes of the most similar users are summarised.
  - `retrieve_interventions` composes all of these into one recommendation.
- **Intervention assignment** (add_interventions.py):
  - Each journey type is offered a fixed list of interventions from a catalogue.
  - Each entry is assigned one or two offered interventions whose targets overlap its
    distortions; the choice is random.
  - Per-journey usage statistics are computed.

Everything is pure and functional:
- Graphs are immutable values: a node sequence in insertion order, an attribute map, and an edge
  map keyed by (source, target).
- The builders are left folds over entry sequences. Each fold is proved equal to an independent
  reference count (`Tallies.Total`, `GlobalGraph.Gain`, `PersonalGraph.ChangeList`, ...).
- Python's sorts become a stable insertion sort (`StableSort.SortDesc`), proved sorted, a
  permutation, and order-preserving among equal keys.
- The random choice of the assignment is a nondeterministic choice (`:|`) inside a method.

Modules follow the program's structure:

| file | module |
|---|---|
| common.dfy | `Common` |
| entities.dfy | `Entities` |
| lex_order.dfy | `LexOrder` |
| tallies.dfy | `Tallies` |
| personal_graph.dfy | `PersonalGraph` |
| global_graph.dfy | `GlobalGraph` |
| export.dfy | `Export` |
| graph_import.dfy | `GraphImport` |
| pattern.dfy | `Pattern` |
| similarity.dfy | `Similarity` |
| stable_sort.dfy | `StableSort` |
| keystones.dfy | `Keystones` |
| cascades.dfy | `Cascades` |
| outcomes.dfy | `Outcomes` |
| retrieval.dfy | `Retrieval` |
| interventions.dfy | `Interventions` |

A few consequences of the code that are easy to miss:

- **Personal pair counters.** Personal pair counters are keyed by position order within an
  entry (earlier, later), so a label detected twice yields a `(d, d)` pair (`Tallies.SelfPairs`).
- **Global threshold.** The global threshold compares a count of sorted position pairs over all
  entries with `0.1 × len(all_journeys)`. One journey, or one entry that repeats its labels, can
  reach the threshold on its own (`GlobalGraph.GlobalCoOccursEdge`).
- **Single-node keystone.** A one-label query scores 0.4, not 0: the score adds 0.4 × degree
  centrality, and networkx defines the degree centrality of a one-node graph as 1
  (`Keystones.SingleKeystone`).
- **Success rate.** The success rate divides the number of similar users with a positive
  improvement by the number of similar users *with a known improvement*, not by all of them
  (`Outcomes.SuccessRate`).

## Model

| member | source | states |
|---|---|---|
| Entities.Kinds | graph.py:22 | the labels of an entry's detections, one per detection, in detection order |
| LexOrder.SortedPair | graph.py:101 | `tuple(sorted([d1, d2]))` is one of the two orders of the pair, and its first label is not after its second |
| LexOrder.SortedPairSymmetric | graph.py:101 | both orders of a pair get the same global key, so the key names an unordered pair |
| LexOrder.SortedPairFixed | graph.py:101 | a pair is its own key exactly when it is already in string order |
| LexOrder.LexLeTotal | graph.py:101 | string order is total: one of any two labels comes first |
| LexOrder.LexLeAntisymmetric | graph.py:101 | two labels that each come first are equal, so sorting a pair is well defined |
| Tallies.CountEach | graph.py:94-95 | a `defaultdict(int)` bumped once per element ends with each key's old count plus its occurrences, and has exactly the old keys and the listed ones |
| Tallies.AddConfidences | graph.py:94-96 | each label's confidence total grows by the sum of its detections' confidences; keys are the old ones plus the labels detected |
| Tallies.CountPairsWith | graph.py:100-102 | the inner loop adds, for every key, the number of later positions that pair with `d1` under that key; a key is present iff it was or got a positive count |
| Tallies.CountPairs | graph.py:99-102 | the pair loop adds, per key, the number of position pairs `p < q` with that key (sorted keys for the global graph, position order for the personal one); keys with a zero count stay absent |
| Tallies.CountLinksFor | graph.py:106-107 | one intervention's loop adds, for each label, its number of detections in the entry, and only under that intervention |
| Tallies.CountLinks | graph.py:105-107 | the entry's (intervention, distortion) counters grow by one per (use, detection) combination; keys with no combination stay absent |
| Tallies.TallyEntry | graph.py:89-107 | folding one entry into the counters adds exactly that entry's contribution to every occurrence, confidence, pair and link counter, and nothing else |
| Tallies.CountsStep | graph.py:89-107 | if the counters equal the reference counts of the entries folded so far, they still do after one more entry |
| Tallies.TallyAfterCounts | graph.py:86-107 | after folding any prefix of the entries, every counter equals its reference count over that prefix, and its keys are exactly the labels or pairs with a positive count |
| Tallies.TotalAppend | graph.py:21-54 | every counter is additive over a concatenation of entry lists |
| Tallies.ConfidenceAppend | graph.py:24-29 | confidence totals are additive over a concatenation of entry lists |
| Tallies.ConfidenceOfAbsent | graph.py:29 | an entry that does not detect a label adds no confidence to it |
| Tallies.ConfidenceUndetected | graph.py:29 | a label detected in no entry has total confidence 0 |
| Tallies.TotalPositive | graph.py:21-54 | a counter is positive iff some entry contributes to it |
| Tallies.DetectedIffOccurs | graph.py:24-28 | a label was detected somewhere iff its occurrence count is positive |
| Tallies.UsedIffUses | graph.py:35-40 | an intervention was used somewhere iff its use count is positive |
| Tallies.LinksPositive | graph.py:42-47 | the (I, d) link count is positive iff some single entry both uses I and detects d |
| Tallies.LinksInPositive | graph.py:42-47 | one entry links I to d iff it uses I and detects d |
| Tallies.LinksInProduct | graph.py:42-47 | one entry links I to d as many times as its uses of I times its detections of d |
| Tallies.PairsWithUnsorted | graph.py:32-33 | in position order, the pairs opened by `d1` with key `(d1, b)` number the later detections of `b` |
| Tallies.PairsInUnsorted | graph.py:31-33 | the position-ordered pair `(a, b)` is counted iff some detection of `a` comes before some detection of `b` |
| Tallies.SelfPairs | graph.py:31-33 | a label detected `c` times in one entry yields `c(c-1)/2` self-pairs `(d, d)` |
| Tallies.PairsBothOrders | graph.py:31-33 | for distinct labels, the two position orders together count every (a, b) combination: `count(a) × count(b)` |
| Tallies.PairsWithSorted | graph.py:100-102 | under sorted keys, the pairs opened by one position are those of both position orders of the key, and none for an unsorted key |
| Tallies.PairsInSorted | graph.py:99-102 | a sorted key counts both position orders of its pair (once for a self-pair), and an unsorted key counts nothing |
| Tallies.TotalPairsSorted | graph.py:99-102 | over many entries, a global co-occurrence count is the sum of both position-ordered counts |
| PersonalGraph.RecordChange | graph.py:53 | each use of an intervention in an entry appends the entry's severity change once to that intervention's list, and touches no other list |
| PersonalGraph.WithNext | graph.py:48 | only entries that have a next entry record a change, so never the last one |
| PersonalGraph.ChangeListTotals | graph.py:48-54 | an intervention collects one severity change per use in an entry that has a next entry, and the changes sum to the reference sum |
| PersonalGraph.ChangeListLengthBelow | graph.py:48-53 | before the last entry, every use so far has recorded a change |
| PersonalGraph.AccumulateChanges | graph.py:48-53 | the fold's change lists equal the reference lists |
| PersonalGraph.AccumulateOrder | graph.py:25-26 | the node order lists each label once, exactly the labels detected or used so far |
| PersonalGraph.AccumulateUses | graph.py:37-40 | the fold's use counters equal the reference use counts, with a key exactly per intervention used |
| PersonalGraph.BuildPersonalGraph | graph.py:14-75 | the personal graph is a well-formed digraph whose nodes are exactly the labels detected and the interventions used, each with attributes, and it records the user |
| PersonalGraph.Finished | graph.py:21-54 | after the pass over all entries, node order, counters and use counts equal their references |
| PersonalGraph.DistortionNode | graph.py:24-29 | a detected label's node holds its number of detections and the sum of their confidences |
| PersonalGraph.InterventionNode | graph.py:60-64 | a used intervention's node holds its uses; it has `avg_severity_change` and `effectiveness_score` iff it recorded a change, the mean of the changes and exactly its negation |
| PersonalGraph.CoOccursEdge | graph.py:56-58 | a personal `co_occurs` edge exists iff its position-ordered pair count is at least 2, and its weight is that count |
| PersonalGraph.CoOccursOrdered | graph.py:31-33 | a personal `co_occurs` edge a→b comes from an entry where a was detected before b |
| PersonalGraph.AddressesEdge | graph.py:42-47 | an `addresses` edge I→d exists iff some entry uses I and detects d (no threshold), and its weight counts every (entry, use, detection) combination |
| PersonalGraph.OccurrencesRead | graph.py:28 | reading a node's `occurrences` gives the reference count, 0 for a label that is not a distortion node |
| PersonalGraph.UsesRead | graph.py:40 | reading a node's `uses` gives the reference count, 0 for a label that is not an intervention node |
| PersonalGraph.AddressRead | graph.py:44-47 | reading an `addresses` weight gives the reference link count, 0 where there is no such edge |
| PersonalGraph.ConfidenceRead | graph.py:24-29 | reading a node's `total_confidence` gives the label's reference confidence total, 0.0 where there is no distortion node |
| PersonalGraph.PersonalAdditive | graph.py:21-54 | occurrences, total confidence, uses and `addresses` weights of the graph of a concatenation are the sums of those of the two parts |
| GlobalGraph.AllKindsDetected | graph.py:116-119 | the distortion node set collects exactly the labels detected |
| GlobalGraph.AllUsedUsed | graph.py:120-121 | the intervention node set collects exactly the interventions used |
| GlobalGraph.RecordUses | graph.py:109-111 | an entry credits each intervention once per use, adding the journey's improvement each time, and only when the improvement is positive |
| GlobalGraph.EntriesOutcomesCredit | graph.py:105-111 | a journey's entries credit each intervention with its total uses in the journey, if the improvement is positive |
| GlobalGraph.JourneysOutcomesSpec | graph.py:86-111 | after any prefix of journeys, an intervention's (total_improvement, count) equals the improvement-weighted sum and the number of its uses in journeys that improved |
| GlobalGraph.HelpedPositive | graph.py:109-111 | the outcome count is positive iff some improved journey used the intervention |
| GlobalGraph.GainPositive | graph.py:109-110 | the accumulated improvement is never negative, and positive once any use is credited |
| GlobalGraph.GainBounds | graph.py:109-111 | the accumulated improvement lies between count × the smallest and count × the largest contributing improvement |
| GlobalGraph.MeanGainBounds | graph.py:132-137 | `avg_improvement` is 0 iff no improved journey used the intervention; otherwise it is positive and between the smallest and largest contributing improvement |
| GlobalGraph.AvgIsMeanGain | graph.py:131-137 | the intervention's `avg_improvement` equals the reference mean of its credited improvements |
| GlobalGraph.ReachesTenth | graph.py:140-142 | `count >= len(all_journeys) * 0.1` holds iff `10 × count >= number of journeys` |
| GlobalGraph.BuildGlobalGraph | graph.py:77-159 | the global graph is well-formed and its nodes are exactly the labels detected and the interventions used in the cohort, each with attributes |
| GlobalGraph.GlobalNodes | graph.py:113-121 | the global node list names each detected label and used intervention once |
| GlobalGraph.GlobalEdgeEnds | graph.py:140-156 | every global edge ends at a detected label and starts at a detected label or a used intervention |
| GlobalGraph.GlobalEdgesRead | graph.py:140-156 | an edge exists iff its co-occurrence count reaches the threshold or its link count is at least 2; a `targets` edge overrides a `co_occurs` edge on the same pair; the weights and effectiveness are those counts and the intervention's average |
| GlobalGraph.GlobalFinished | graph.py:86-121 | after the pass over the cohort, counters, outcome averages and node sets equal their references |
| GlobalGraph.GlobalTallyCounts | graph.py:89-107 | the cohort counters equal the reference counts over all entries of all journeys |
| GlobalGraph.GlobalLinkCounts | graph.py:105-107 | the cohort link counters equal the reference link counts |
| GlobalGraph.GlobalPairCounts | graph.py:99-102 | the cohort co-occurrence counters equal the reference sorted-pair counts |
| GlobalGraph.GlobalDistortionNode | graph.py:123-129 | a detected label that is not also an intervention gets `total_occurrences` and `total_confidence` over the whole cohort |
| GlobalGraph.GlobalInterventionNode | graph.py:131-138 | a used intervention's node holds the mean of its credited improvements |
| GlobalGraph.GlobalCoOccursEdge | graph.py:140-143 | a global `co_occurs` edge exists iff its sorted-pair count is positive, is at least a tenth of the number of journeys, and is not overridden by a `targets` edge; its weight is that count and its ends are in string order |
| GlobalGraph.GlobalTargetsEdge | graph.py:145-156 | a `targets` edge I→d exists iff I and d meet in at least 2 (entry, use, detection) combinations; its weight is that count and its effectiveness is I's mean credited improvement |
| GlobalGraph.TargetsShareEffectiveness | graph.py:153-155 | all `targets` edges out of one intervention carry the same effectiveness, equal to the node's `avg_improvement` |
| Export.EdgeKeysOf | graph.py:299 | the edge list names exactly the edges between listed nodes, each once |
| Export.EdgeKeysExact | graph.py:293-300 | each edge of a well-formed graph is exported exactly once |
| Export.TargetsIn | graph.py:327-330 | an intervention's exported targets are exactly the heads of its `targets` edges, each once |
| Export.EffectivenessLookup | graph.py:323-331 | `intervention_effectiveness` has an entry exactly for the intervention nodes, holding `avg_improvement` and the distinct targets |
| Export.UserOrder | graph.py:265-268 | `personal_graphs` lists each user once, exactly the users of the journeys |
| Export.LatestJourney | graph.py:265-268 | each user keeps the index of one of their own journeys, and only users with a journey have one |
| Export.LatestIsLast | graph.py:268 | a user with several journeys keeps the last one, since each assignment overwrites the previous |
| Export.ProcessAllJourneys | graph.py:262-270 | the builder holds a personal graph for exactly the users that have a journey, each graph owned by its user and well-formed |
| Export.LastJourneyWins | graph.py:265-268 | the personal graph kept for a user is the graph of their last journey |
| Export.ExportedEffectiveness | graph.py:323-331 | the exported summary has an entry iff the intervention was used; it holds the mean credited improvement and exactly the labels it was linked to at least twice |
| Export.InterventionNodes | graph.py:323-326 | the global graph's intervention nodes are exactly the interventions used, and their `avg_improvement` is the mean credited improvement |
| Export.CohortTargets | graph.py:327-330 | an intervention's `targets` edges go to exactly the labels it was linked to at least twice |
| Export.ExportedUsers | graph.py:279-302 | `num_users` counts the exported personal graphs; a user is exported iff they have a journey, with metadata naming that user |
| Export.PersonalLookup | graph.py:283-302 | a user's exported record exists iff the user is listed, and carries their graph's metadata |
| Export.PersonalRecordOwner | graph.py:283-302 | the k-th personal record is keyed by the k-th user and carries that user's metadata |
| Export.NodeRecordsInOrder | graph.py:285-292 | node records follow node order, each with its node's `type` and attributes |
| Export.EdgeRecordsExact | graph.py:293-300 | every edge has a record, and every record is an edge with all its attributes |
| Export.ExportGraph | graph.py:283-321 | one graph's export: a record per node in node order with its `type` and attributes, a record for every edge, each record an edge with all its attributes, and the metadata passed in |
| Export.ExportForGear | graph.py:272-331 | the export holds one record per user in user order with that user's metadata, `num_users` equal to their number, the global graph with no metadata, and summaries for intervention nodes only |
| GraphImport.ImportGraph | gear_retrieval.py:37-52 | the imported graph is well-formed and its nodes are exactly the node-record ids and the edge endpoints |
| GraphImport.AttrsKeys | gear_retrieval.py:42-44 | a node has attributes exactly when some node record names it |
| GraphImport.AttrsOfLast | gear_retrieval.py:42-44 | a node's attributes come from the last record that names it |
| GraphImport.WeightsOfLast | gear_retrieval.py:49-50 | an edge exists exactly when some record connects the pair, and its weight is the last such record's |
| GraphImport.WeightsKeys | gear_retrieval.py:49-50 | every imported edge joins two endpoints named by the edge records |
| GraphImport.RecordIdsOf | graph.py:285-292 | the exported node records list the graph's nodes in node order |
| Export.NodeRecordAt | graph.py:285-292 | the k-th node record carries the k-th node's id, its `type` and its attributes |
| GraphImport.AttrsOfRecords | graph.py:285-292 | the exported node records carry each node's attributes |
| Export.EdgeRecordAt | graph.py:293-300 | the k-th edge record carries the k-th edge's ends and all of its attributes |
| GraphImport.WeightsOfRecords | graph.py:293-300 | the exported edge records carry each listed edge's weight |
| GraphImport.EndsAreNodes | graph.py:293-300 | every exported edge endpoint is a node of the graph |
| GraphImport.ImportExport | gear_retrieval.py:37-52 | importing an exported graph gives back the same nodes in the same order and the same node attributes, and keeps only the weight of each edge |
| GraphImport.ImportedAttrs | gear_retrieval.py:42-44 | importing the exported node records restores every node's attributes |
| GraphImport.ImportedWeights | gear_retrieval.py:49-50 | importing the exported edge records restores every edge's weight and drops `edge_type` and `effectiveness` |
| GraphImport.ImportedNodes | gear_retrieval.py:42-50 | the imported node order is the exported node order |
| GraphImport.LoadPersonalAt | gear_retrieval.py:29-35 | the k-th loaded personal graph is the import of the k-th record, with that record's user and metadata |
| GraphImport.PersonalRecordAt | graph.py:283-302 | the k-th exported personal record is the export of the k-th user's graph with its metadata |
| GraphImport.LoadExported | gear_retrieval.py:17-35 | loading what the builder exported gives the builder's global graph and each user's personal graph, in user order, with weights only and the user's metadata |
| Pattern.ProbeFrom | gear_retrieval.py:66-69 | the inner loop adds exactly the global edges from `d1` to a later label, with their global weights |
| Pattern.ProbeAllExact | gear_retrieval.py:65-69 | the probes add exactly the global edges a→b where a occurs before b in the query |
| Pattern.ExtractUserPattern | gear_retrieval.py:54-71 | the query graph is well-formed, its nodes are exactly the distinct query labels, and they have no attributes |
| Pattern.PatternEdge | gear_retrieval.py:65-69 | a query edge a→b exists iff a occurs before b in the query and the global graph has a→b, and it carries the global weight |
| Pattern.ForwardEdges | gear_retrieval.py:65-69 | with a duplicate-free query, every query edge points from an earlier label to a later one, so b→a is never probed |
| Similarity.Jaccard | gear_retrieval.py:117 | a Jaccard ratio lies in [0, 1] |
| Similarity.DegreeCentrality | gear_retrieval.py:131-132 | degree centrality is never negative; with several nodes it is the degree shared out over the other nodes, and 0 exactly for a node with no edge |
| Similarity.Combine | gear_retrieval.py:145-150 | the weights 0.4, 0.3, 0.3 sum to 1: three equal scores combine to that score, and scores in [0, 1] combine to a score in [0, 1] |
| Similarity.JaccardDisjoint | gear_retrieval.py:117 | disjoint sets have Jaccard ratio 0 |
| Similarity.GraphSimilarity | gear_retrieval.py:111-115 | the similarity is 0 when either graph has no node |
| Similarity.AgreementSumSymmetric | gear_retrieval.py:135-138 | the sum of centrality agreements does not depend on which graph is first |
| Similarity.AgreementSumSelf | gear_retrieval.py:135-138 | a graph agrees fully with itself on every node |
| Similarity.SimilaritySymmetric | gear_retrieval.py:101-151 | the similarity is symmetric in its two graphs |
| Similarity.SelfSimilarity | gear_retrieval.py:110-151 | a graph with nodes scores 1.0 against itself if it has an edge, and 0.7 if it has none |
| Similarity.DisjointSimilarity | gear_retrieval.py:110-151 | graphs with no node in common score 0 |
| StableSort.SortDesc | gear_retrieval.py:97 | sorting with `reverse=True` yields a permutation of the input with non-increasing keys |
| StableSort.SortDescStable | gear_retrieval.py:97 | the sort is stable: elements with equal keys keep their input order |
| StableSort.TakeKeepsBest | gear_retrieval.py:99 | any element cut by the top-k slice ranks no higher than the last kept one, and the slice is full |
| Common.Take | gear_retrieval.py:99 | the slice `s[:k]` has `min(k, len(s))` elements for `k >= 0`, drops `-k` from the end for `k < 0`, and is a prefix |
| Retrieval.Scores | gear_retrieval.py:84-94 | each stored user, in store order, is paired with the similarity of their graph to the query graph and with their metadata |
| Retrieval.FindSimilarPatterns | gear_retrieval.py:73-99 | the result has `min(top_k, number of stored users)` entries, by non-increasing similarity |
| Retrieval.SimilarFromStore | gear_retrieval.py:86-94 | every returned entry is a stored user with their own similarity and metadata |
| Retrieval.SimilarBest | gear_retrieval.py:96-99 | a user left out scores no higher than the last one returned, and the result is full |
| Retrieval.SimilarTiesInStoreOrder | gear_retrieval.py:97 | users with equal similarity are returned in store order, as a prefix of all such users |
| Retrieval.DescribeAll | gear_retrieval.py:254-262 | each similar user is reported with id, similarity, journey type and improvement, in order |
| Retrieval.DistinctCount | gear_retrieval.py:61-62 | the query graph has one node per distinct query label |
| Retrieval.RecommendationShape | gear_retrieval.py:231-272 | the recommendation echoes the query and reports the similar users in order; there are `min(3, distinct labels)` keystones and at most 5 cascades, and the outcomes are the empty-list reply exactly when no similar user was found |
| Retrieval.RetrieveInterventions | gear_retrieval.py:231-272 | the reply echoes the query, reports one entry per similar user, at most three keystones and at most five cascades, and empty-list outcomes exactly when no similar user was found |
| Retrieval.TopKeystonesSound | gear_retrieval.py:263-266 | the top 3 keystones are query labels with their scores, by non-increasing score |
| Retrieval.TopKeystonesBest | gear_retrieval.py:263-266 | a query label left out of the top 3 scores no higher than the third |
| Retrieval.RecommendedKeystones | gear_retrieval.py:263-266 | the recommendation's keystones are sound and keep the best three |
| Retrieval.TopFiveCascades | gear_retrieval.py:267-270 | the five reported cascades are cascades of the query graph, heaviest first, and a cascade left out weighs no more than the fifth |
| Retrieval.RecommendedCascades | gear_retrieval.py:267-270 | the recommendation's cascades are the five heaviest |
| Keystones.Scored | gear_retrieval.py:172-174 | each query node is paired with its score, in node order: `0.6·betweenness + 0.4·degree centrality`, or plain degree on the fallback branch |
| Keystones.Score | gear_retrieval.py:172 | a node's score is at least 0.4 of its degree centrality when its betweenness is not negative, and at most 1 when both measures are at most 1 |
| Keystones.KeyOf | gear_retrieval.py:170-185 | keys are never negative when betweenness is not; on the fallback branch, in a query graph with more than one node, a key is the degree, the degree centrality times the number of other nodes |
| Keystones.FindKeystones | gear_retrieval.py:153-186 | the keystones are empty iff the query is, and sorted by non-increasing score |
| Keystones.KeystonesExact | gear_retrieval.py:161-186 | there is one keystone per distinct query label, each with its own score, and no repeats |
| Keystones.SingleKeystone | gear_retrieval.py:167-178 | a one-label query has the single keystone `(x, 0.4)` when its betweenness is 0 |
| Cascades.ExtensionsExact | gear_retrieval.py:206-211 | the depth-first enumeration yields exactly the simple paths that extend the current path by one to `cutoff` nodes |
| Cascades.Extensions | gear_retrieval.py:201-206 | every path the enumeration yields extends the current path by one to `fuel` nodes, the first of them taken from the candidates |
| Cascades.PathsFromExact | gear_retrieval.py:203-214 | the paths from one source are exactly the simple paths of up to `cutoff` edges from it that end at another node |
| Cascades.AllPathsExact | gear_retrieval.py:202-216 | the candidates over a list of sources are exactly those paths from any of them |
| Cascades.CandidatesExact | gear_retrieval.py:201-216 | the candidates are exactly the simple paths of 2 to `max_length + 1` nodes |
| Cascades.WithWeights | gear_retrieval.py:219-225 | each candidate is paired with the sum of its edge weights |
| Cascades.RankedWeighed | gear_retrieval.py:218-227 | every ranked entry is a cascade paired with its own weight |
| Cascades.TopCascades | gear_retrieval.py:227-229 | at most `n` cascades are kept |
| Cascades.FindCascadePaths | gear_retrieval.py:188-229 | at most 10 cascades are returned |
| Cascades.CascadesSimple | gear_retrieval.py:201-216 | every returned cascade has 2 to `max_length + 1` distinct nodes joined by query edges |
| Cascades.CascadesHeaviestFirst | gear_retrieval.py:227 | returned cascades are by non-increasing total weight |
| Cascades.CascadesBest | gear_retrieval.py:227-229 | a cascade left out weighs no more than the last one returned, and the result is full |
| Cascades.TopOfTop | gear_retrieval.py:267-270 | the first `m` of the top `n` cascades are the top `m` |
| Cascades.CascadesInQueryOrder | gear_retrieval.py:65-69 | with a duplicate-free query, every cascade visits query labels in query order |
| Outcomes.TallyKeys | gear_retrieval.py:287-288 | the journey-type counter lists each type seen, once |
| Outcomes.TallyCounts | gear_retrieval.py:287-288 | each journey type's count is its number of occurrences |
| Outcomes.TallyFirstOrder | gear_retrieval.py:282-288 | the counter lists journey types in order of first appearance |
| Outcomes.FirstMax | gear_retrieval.py:293 | `max` over the counter has a result iff the counter is non-empty |
| Outcomes.FirstMaxIsFirstMode | gear_retrieval.py:293 | `max` returns a key with the largest count, the first such key in the counter's order |
| Outcomes.AnalyzeOutcomes | gear_retrieval.py:274-295 | the summary is the empty-list reply iff there is no similar user; otherwise `num_similar_cases` counts them |
| Outcomes.PositivesAll | gear_retrieval.py:294 | every improvement is positive iff all of them count as successes |
| Outcomes.PositivesNone | gear_retrieval.py:294 | no improvement counts as a success iff none is positive |
| Outcomes.SuccessRate | gear_retrieval.py:294 | the success rate lies in [0, 1]; it is 1 iff some improvement is known and all known ones are positive, and 0 iff no known one is positive |
| Outcomes.MeanBounds | gear_retrieval.py:292 | the mean improvement is 0 with no known improvement, and otherwise lies within any bounds of the known ones |
| Outcomes.ModeCountsMost | gear_retrieval.py:293 | the most common trajectory occurs at least as often as any other |
| Outcomes.ModeFirst | gear_retrieval.py:293 | every journey type seen before the most common one occurs strictly less often |
| Outcomes.MostCommonTrajectory | gear_retrieval.py:284-293 | `most_common_trajectory` is absent iff no journey type is known; otherwise it is a type of maximal count, the first seen among the ties |
| Interventions.CatalogShape | add_interventions.py:4-35 | the catalogue holds six interventions, each targeting two or three distinct distortions with an effectiveness in (0, 1] |
| Interventions.TableInCatalog | add_interventions.py:37-43 | each journey type is offered distinct interventions from the catalogue |
| Interventions.MatchingInterventions | add_interventions.py:45-57 | every match is an offered intervention stored with an overlap of at least 1 |
| Interventions.MatchingKeys | add_interventions.py:45-57 | the matches dict lists each key once, and its key list and its values agree on which interventions matched |
| Interventions.MatchingValues | add_interventions.py:49-55 | an offered intervention matches iff its targets overlap the distortions, and its value is the size of the overlap, at least 1 |
| Interventions.MatchingExact | add_interventions.py:45-57 | the matches are exactly the offered interventions with positive overlap, each once, with their overlap counts |
| Interventions.MatchingIgnoresRepeats | add_interventions.py:53 | repeating a distortion, or reordering them, changes no match |
| Interventions.UnreachableTargets | add_interventions.py:4-35 | the catalogue targets `all_or_nothing_thinking`, `rumination` and `jumping_to_conclusions`, which the extractor never reports (its key is `all_or_nothing`) |
| Interventions.AllOrNothingNeverMatches | add_interventions.py:7 | a detected `all_or_nothing` never adds to the overlap of `thought_records` |
| Interventions.AssignInterventions | add_interventions.py:59-77 | an entry gets no intervention iff nothing matches, and otherwise one or two distinct matching ones |
| Interventions.ActiveCount | add_interventions.py:108-111 | at most all entries are active |
| Interventions.StatsOf | add_interventions.py:113-119 | the statistics exist iff the journey has an entry, and count at most all entries as active |
| Interventions.PercentageBounds | add_interventions.py:118 | the percentage lies in [0, 100]; it is 0 iff no entry is active and 100 iff all are |
| Interventions.AddInterventionsToJourney | add_interventions.py:88-119 | processing a journey fails iff its type is unknown or it has no entry; otherwise it records the type's interventions, assigns every entry admissibly and attaches its statistics |
| Interventions.AddInterventions | add_interventions.py:79-119 | the cohort is processed iff every journey can be, and then each journey is processed in place |
| Interventions.ActiveCountAll | add_interventions.py:108-111 | no entry counts as active iff none is marked active |
| Interventions.TotalUsesZero | add_interventions.py:114-116 | the total use count is 0 iff no entry lists an intervention |
| Interventions.UsesBetween | add_interventions.py:99-116 | after assignment, total uses lie between the number of active entries and twice that |
| Interventions.WorseningUsesNothing | add_interventions.py:40 | a `worsening` journey is offered nothing, so every entry is inactive and its statistics are all zero |

## Left out

- File and JSON I/O, `datetime.now()` in the export metadata, the `__main__` blocks and all
  printing are not modelled. The export is the data value before `json.dump`.
- `visualize_intervention_graph` and all plotting are not modelled.
- `round(…, 3)` and numpy's `mean` are not modelled: all arithmetic is exact `real`
  arithmetic, with the mean written as sum over count.
- Betweenness centrality is a parameter (`Option<map<Id, real>>`). `None` stands for the
  library raising, which takes the plain-degree fallback. Its values are not computed.
- networkx defines degree centrality as degree over `n - 1`, and as 1 for a graph with at most
  one node. The model states both cases as a definition.
- `nx.all_simple_paths` is modelled by the model's own depth-first enumeration, proved to yield
  exactly the simple paths within the cutoff. Among cascades of equal weight, the enumeration
  order, and so the tie order, may differ from networkx's.
- `random.randint` and `random.sample` are a nondeterministic choice. The model states which
  outcomes are possible, not their distribution.
- Python set iteration order is not modelled.
  - The global graph's node order is the order in which labels are first seen.
  - The similarity's centrality mean is a sum over an unordered set, so its order does not
    matter in exact arithmetic.
- The edge insertion order of networkx adjacency is not modelled. Exported edges are listed by
  (source node order, target node order). Only list order is affected.
- GraphImport.ImportGraph: node records given as bare ids and edge records without a `weight`
  (default 1) are not modelled, because the exporter always writes both.
- GraphImport.AttrsOfLast: a repeated node id takes the later record's attributes whole, where
  networkx merges the two attribute dicts key by key. The exporter never repeats an id.
- GlobalGraph.BuildGlobalGraph: a label that is both a detected distortion and a used
  intervention becomes an intervention node. Its `total_occurrences` and `total_confidence`,
  which networkx would keep next to the new attributes, are dropped.
- GlobalGraph.GlobalDistortionNode: requires that the label is not also a used intervention,
  because such a label's node is an intervention node in this model (see the line above).
- `process_all_journeys` is modelled from an empty builder. Graphs left by an earlier call on
  the same builder object are not modelled.
- Errors:
  - A label that is both a distortion and an intervention in one personal graph raises
    `KeyError`; it is a precondition (`PersonalGraph.Buildable`).
  - An intervention key missing from the catalogue raises `KeyError`; it is a precondition.
  - An unknown journey type returns `Failure`.
  - A journey without entries (division by zero in the percentage) returns `Failure`.
- The bare `except` blocks in the similarity and cascade code are not modelled. Degree
  centrality and `all_simple_paths` between nodes of the graph do not raise.
- Similarity.GraphSimilarity: no [0, 1] bound is stated, because the code does not keep one.
  In a digraph, degree centrality counts in- and out-edges and can exceed 1, so the agreement
  `1 - |c1 - c2|` can be negative.
- Cascades.FindCascadePaths: the joining of each cascade into one arrow-separated string is
  not modelled. Cascades stay label sequences.
