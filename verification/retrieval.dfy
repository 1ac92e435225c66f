/** The retrieval entry points over a loaded store: the users whose graphs resemble the query
    (`find_similar_patterns`, gear_retrieval.py:73-99) and the complete recommendation
    (`retrieve_interventions`, gear_retrieval.py:231-272). Betweenness centrality of the query
    graph comes from the graph library and is passed in, as for the keystones. */
module Retrieval {
  import opened Common
  import opened Entities
  import opened StableSort
  import opened Pattern
  import opened Similarity
  import opened Keystones
  import opened Cascades
  import opened Outcomes
  import opened GraphImport

  /** Every stored user scored against the query graph, in store order. */
  ghost function Scores(q: Digraph<nat>, us: seq<UserGraph>): (r: seq<Similar>)
    ensures |r| == |us|
    ensures forall i :: 0 <= i < |us| ==>
              r[i] == Similar(us[i].userId, GraphSimilarity(q, us[i].graph), us[i].meta)
  {
    if |us| == 0 then []
    else [Similar(us[0].userId, GraphSimilarity(q, us[0].graph), us[0].meta)] + Scores(q, us[1..])
  }

  function SimilarityKey(x: Similar): real {
    x.similarity
  }

  /** All stored users, most similar first, ties in store order. */
  ghost function RankedUsers(store: Store, ds: seq<Id>): seq<Similar> {
    SortDesc(Scores(ExtractUserPattern(store.global, ds), store.personal), SimilarityKey)
  }

  /** `find_similar_patterns`: the `topK` most similar users, with Python's slice meaning for
      a negative `topK`. */
  ghost function FindSimilarPatterns(store: Store, ds: seq<Id>, topK: int): (r: seq<Similar>)
    ensures 0 <= topK ==> |r| == Min(topK, |store.personal|)
    ensures NonIncreasing(r, SimilarityKey)
  {
    var ranked := RankedUsers(store, ds);
    var r := Take(ranked, topK);
    assert forall i :: 0 <= i < |r| ==> r[i] == ranked[i];
    r
  }

  /** Each similar user is a stored user, carrying its stored metadata and its similarity to
      the query graph. */
  lemma SimilarFromStore(store: Store, ds: seq<Id>, topK: int, x: Similar)
    requires x in FindSimilarPatterns(store, ds, topK)
    ensures exists i :: 0 <= i < |store.personal|
              && x.userId == store.personal[i].userId
              && x.meta == store.personal[i].meta
              && x.similarity == GraphSimilarity(ExtractUserPattern(store.global, ds), store.personal[i].graph)
  {
    var scores := Scores(ExtractUserPattern(store.global, ds), store.personal);
    var ranked := RankedUsers(store, ds);
    var r := FindSimilarPatterns(store, ds, topK);
    var k :| 0 <= k < |r| && r[k] == x;
    assert ranked[k] == x;
    assert x in multiset(scores);
    var i :| 0 <= i < |scores| && scores[i] == x;
  }

  /** A stored user left out ranks no higher than the last one returned, and none is left out
      while fewer than `topK` are returned. */
  lemma SimilarBest(store: Store, ds: seq<Id>, topK: nat, i: nat)
    requires i < |store.personal|
    ensures var q := ExtractUserPattern(store.global, ds);
            var u := store.personal[i];
            var x := Similar(u.userId, GraphSimilarity(q, u.graph), u.meta);
            var r := FindSimilarPatterns(store, ds, topK);
            x !in r ==> |r| == topK && (0 < topK ==> x.similarity <= r[topK - 1].similarity)
  {
    var scores := Scores(ExtractUserPattern(store.global, ds), store.personal);
    assert scores[i] in scores;
    TakeKeepsBest(scores, SimilarityKey, topK);
  }

  /** Users with equal similarity come out in store order: those returned with a given score
      are the first users of the store with that score. */
  lemma SimilarTiesInStoreOrder(store: Store, ds: seq<Id>, topK: int, k: real)
    ensures var all := WithKey(Scores(ExtractUserPattern(store.global, ds), store.personal), SimilarityKey, k);
            var kept := WithKey(FindSimilarPatterns(store, ds, topK), SimilarityKey, k);
            |kept| <= |all| && kept == all[..|kept|]
  {
    var scores := Scores(ExtractUserPattern(store.global, ds), store.personal);
    var ranked := RankedUsers(store, ds);
    var r := FindSimilarPatterns(store, ds, topK);
    SortDescStable(scores, SimilarityKey, k);
    assert ranked == r + ranked[|r|..];
    WithKeyAppend(r, ranked[|r|..], SimilarityKey, k);
  }

  // ---------------------------------------------------------------------------------------
  // The recommendation

  /** One entry of `similar_users`: metadata keys that are absent read as `None`. The score is
      exact: rounding to three decimals is not modelled. */
  datatype SimilarUser = SimilarUser(userId: Id, similarity: real, journeyType: Option<string>, improvement: Option<real>)

  /** The reply of `retrieve_interventions`. Cascades stay sequences of labels; the source joins
      each into one string with arrows. */
  datatype Recommendation = Recommendation(
    queryDistortions: seq<Id>,
    similarUsers: seq<SimilarUser>,
    keystoneDistortions: seq<(Id, real)>,
    cascadePatterns: seq<seq<Id>>,
    outcomes: Outcomes)

  function Describe(x: Similar): SimilarUser {
    match x.meta
    case Some(m) => SimilarUser(x.userId, x.similarity, m.journeyType, m.improvement)
    case None => SimilarUser(x.userId, x.similarity, None, None)
  }

  function DescribeAll(xs: seq<Similar>): (r: seq<SimilarUser>)
    ensures |r| == |xs|
    ensures forall i :: 0 <= i < |xs| ==> r[i] == Describe(xs[i])
  {
    if |xs| == 0 then [] else [Describe(xs[0])] + DescribeAll(xs[1..])
  }

  /** `retrieve_interventions`, with the default cascade length of four edges. */
  ghost function RetrieveInterventions(store: Store, ds: seq<Id>, topK: int, betweenness: Option<map<Id, real>>): (r: Recommendation)
    ensures r.queryDistortions == ds
    ensures |r.similarUsers| == |FindSimilarPatterns(store, ds, topK)|
    ensures |r.keystoneDistortions| <= 3 && |r.cascadePatterns| <= 5
    ensures r.outcomes.NoCases? <==> r.similarUsers == []
  {
    var similar := FindSimilarPatterns(store, ds, topK);
    Recommendation(
      ds,
      DescribeAll(similar),
      Take(FindKeystones(store.global, ds, betweenness), 3),
      Take(FindCascadePaths(store.global, ds, 4), 5),
      AnalyzeOutcomes(similar))
  }

  /** The number of distinct labels in a query. */
  lemma DistinctCount(global: Digraph<nat>, ds: seq<Id>)
    ensures |ExtractUserPattern(global, ds).nodes| == |ToSet(ds)|
  {
    var q := ExtractUserPattern(global, ds);
    NoDupCard(q.nodes, ToSet(ds));
  }

  /** The shape of the reply: the query is echoed, one entry per similar user with its stored
      journey type and improvement, at most three keystones (fewer only when fewer distinct
      distortions were queried), at most five cascades, and outcomes exactly when some similar
      user was found. */
  lemma RecommendationShape(store: Store, ds: seq<Id>, topK: int, betweenness: Option<map<Id, real>>)
    ensures var r := RetrieveInterventions(store, ds, topK, betweenness);
            var similar := FindSimilarPatterns(store, ds, topK);
            && r.queryDistortions == ds
            && |r.similarUsers| == |similar|
            && (forall i :: 0 <= i < |similar| ==>
                  && r.similarUsers[i].userId == similar[i].userId
                  && r.similarUsers[i].similarity == similar[i].similarity
                  && (similar[i].meta.Some? ==>
                        r.similarUsers[i].journeyType == similar[i].meta.value.journeyType
                        && r.similarUsers[i].improvement == similar[i].meta.value.improvement)
                  && (similar[i].meta.None? ==> r.similarUsers[i].journeyType.None? && r.similarUsers[i].improvement.None?))
            && |r.keystoneDistortions| == Min(3, |ToSet(ds)|)
            && |r.cascadePatterns| <= 5
            && (r.outcomes.NoCases? <==> r.similarUsers == [])
  {
    KeystonesExact(store.global, ds, betweenness);
    DistinctCount(store.global, ds);
  }

  /** The first three keystones are query distortions with their own keys, best first. */
  lemma TopKeystonesSound(global: Digraph<nat>, ds: seq<Id>, betweenness: Option<map<Id, real>>)
    ensures var q := ExtractUserPattern(global, ds);
            var ks := Take(FindKeystones(global, ds, betweenness), 3);
            && NonIncreasing(ks, Second)
            && (forall p :: p in ks ==> p.0 in ds && p.1 == KeyOf(q, betweenness, p.0))
  {
    KeystonesExact(global, ds, betweenness);
    TakeSorted(FindKeystones(global, ds, betweenness), Second, 3);
  }

  /** A distinct query distortion left out of the first three keystones ranks no higher than
      the third. */
  lemma TopKeystonesBest(global: Digraph<nat>, ds: seq<Id>, betweenness: Option<map<Id, real>>, d: Id)
    requires d in ds
    ensures var q := ExtractUserPattern(global, ds);
            var ks := Take(FindKeystones(global, ds, betweenness), 3);
            (d, KeyOf(q, betweenness, d)) !in ks ==> |ks| == 3 && KeyOf(q, betweenness, d) <= ks[2].1
  {
    var q := ExtractUserPattern(global, ds);
    assert d in q.nodes;
    var scored := Scored(q, betweenness, q.nodes);
    assert FindKeystones(global, ds, betweenness) == SortDesc(scored, Second);
    var i :| 0 <= i < |q.nodes| && q.nodes[i] == d;
    assert scored[i] == (d, KeyOf(q, betweenness, d));
    TakeKeepsBest(scored, Second, 3);
  }

  /** The keystones reported are the three best-ranked distinct query distortions, each with its
      own key, best first; a distinct distortion left out ranks no higher than the third. */
  lemma RecommendedKeystones(store: Store, ds: seq<Id>, topK: int, betweenness: Option<map<Id, real>>, d: Id)
    requires d in ds
    ensures var q := ExtractUserPattern(store.global, ds);
            var ks := RetrieveInterventions(store, ds, topK, betweenness).keystoneDistortions;
            && NonIncreasing(ks, Second)
            && (forall p :: p in ks ==> p.0 in ds && p.1 == KeyOf(q, betweenness, p.0))
            && ((d, KeyOf(q, betweenness, d)) !in ks ==> |ks| == 3 && KeyOf(q, betweenness, d) <= ks[2].1)
  {
    TopKeystonesSound(store.global, ds, betweenness);
    TopKeystonesBest(store.global, ds, betweenness, d);
  }

  /** The five heaviest cascades of at most four edges, heaviest first; a cascade left out
      weighs no more than the fifth. */
  lemma TopFiveCascades(global: Digraph<nat>, ds: seq<Id>, p: seq<Id>)
    ensures var q := ExtractUserPattern(global, ds);
            var cs := TopCascades(global, ds, 4, 5);
            && (forall c :: c in cs ==> Cascade(q, 4, c))
            && (forall i, j :: 0 <= i < j < |cs| ==>
                  Chain(q, cs[i]) && Chain(q, cs[j]) && PathWeight(q, cs[i]) >= PathWeight(q, cs[j]))
            && (Cascade(q, 4, p) && p !in cs ==>
                  |cs| == 5 && Chain(q, cs[4]) && PathWeight(q, p) <= PathWeight(q, cs[4]))
  {
    var q := ExtractUserPattern(global, ds);
    var cs := TopCascades(global, ds, 4, 5);
    forall c | c in cs
      ensures Cascade(q, 4, c)
    {
      CascadesSimple(global, ds, 4, 5, c);
    }
    forall i, j | 0 <= i < j < |cs|
      ensures Chain(q, cs[i]) && Chain(q, cs[j]) && PathWeight(q, cs[i]) >= PathWeight(q, cs[j])
    {
      CascadesHeaviestFirst(global, ds, 4, 5, i, j);
    }
    if Cascade(q, 4, p) {
      CascadesBest(global, ds, 4, 5, p);
    }
  }

  /** The cascades reported are the first five of the ten `find_cascade_paths` returns: the five
      heaviest, as `TopFiveCascades` states. */
  lemma RecommendedCascades(store: Store, ds: seq<Id>, topK: int, betweenness: Option<map<Id, real>>)
    ensures var cs := RetrieveInterventions(store, ds, topK, betweenness).cascadePatterns;
            cs == TopCascades(store.global, ds, 4, 5)
  {
    TopOfTop(store.global, ds, 4, 10, 5);
  }
}
