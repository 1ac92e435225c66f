/** What happened to the similar users (`_analyze_outcomes`, gear_retrieval.py:274-294): how
    many there are, their mean improvement, the journey type seen most often and the share of
    them that improved. Rounding to three decimals is not modelled: the mean is exact. */
module Outcomes {
  import opened Common
  import opened Entities

  /** One result of `find_similar_patterns`: the user, the similarity score and the graph-level
      metadata, which is absent when the stored graph carried none. */
  datatype Similar = Similar(userId: Id, similarity: real, meta: Option<Metadata>)

  datatype Outcomes =
    /** The reply for an empty list: success rate and mean improvement both 0. */
    | NoCases
    | Summary(numSimilarCases: nat, avgImprovement: real, mostCommonTrajectory: Option<string>, successRate: real)

  /** The improvements recorded in the metadata, in order. */
  function Improvements(sims: seq<Similar>): seq<real> {
    if |sims| == 0 then []
    else
      var last := sims[|sims| - 1];
      Improvements(sims[..|sims| - 1])
      + (if last.meta.Some? && last.meta.value.improvement.Some? then [last.meta.value.improvement.value] else [])
  }

  /** The journey types recorded in the metadata, in order. */
  function Trajectories(sims: seq<Similar>): seq<string> {
    if |sims| == 0 then []
    else
      var last := sims[|sims| - 1];
      Trajectories(sims[..|sims| - 1])
      + (if last.meta.Some? && last.meta.value.journeyType.Some? then [last.meta.value.journeyType.value] else [])
  }

  /** The `defaultdict(int)` of journey types: the keys in insertion order and their counts. */
  datatype Tally = Tally(order: seq<string>, counts: map<string, nat>)

  function TallyOf(ts: seq<string>): Tally {
    if |ts| == 0 then Tally([], map[])
    else
      var t := TallyOf(ts[..|ts| - 1]);
      var x := ts[|ts| - 1];
      Tally(AppendNew(t.order, [x]), Bump(t.counts, x, 1))
  }

  /** The tally lists each journey type once. */
  lemma {:induction false} TallyKeys(ts: seq<string>)
    ensures NoDup(TallyOf(ts).order)
    ensures forall x :: x in TallyOf(ts).order <==> x in ts
  {
    if |ts| > 0 {
      TallyKeys(ts[..|ts| - 1]);
      assert ts == ts[..|ts| - 1] + [ts[|ts| - 1]];
    }
  }

  /** The tally counts the occurrences of each journey type. */
  lemma {:induction false} TallyCounts(ts: seq<string>)
    ensures forall x :: Get0(TallyOf(ts).counts, x) == CountOf(ts, x)
  {
    if |ts| > 0 {
      var init, x := ts[..|ts| - 1], ts[|ts| - 1];
      TallyCounts(init);
      assert ts == init + [x];
      forall y
        ensures Get0(TallyOf(ts).counts, y) == CountOf(ts, y)
      {
        CountOfAppend(init, [x], y);
        assert CountOf([x], y) == if x == y then 1 else 0;
      }
    }
  }

  /** Python's `max(items, key=count)`: the first key, in insertion order, whose count no later
      key exceeds. */
  function FirstMax(order: seq<string>, counts: map<string, nat>): (r: Option<string>)
    ensures r.None? <==> |order| == 0
  {
    if |order| == 0 then None
    else
      var best := FirstMax(order[..|order| - 1], counts);
      var x := order[|order| - 1];
      if best.Some? && Get0(counts, best.value) >= Get0(counts, x) then best else Some(x)
  }

  /** The winner has the largest count, and every key before it has a strictly smaller one. */
  lemma {:induction false} FirstMaxIsFirstMode(order: seq<string>, counts: map<string, nat>)
    requires |order| > 0
    ensures var t := FirstMax(order, counts).value;
            exists k :: 0 <= k < |order| && order[k] == t
                     && (forall i :: 0 <= i < k ==> Get0(counts, order[i]) < Get0(counts, t))
                     && (forall i :: 0 <= i < |order| ==> Get0(counts, order[i]) <= Get0(counts, t))
  {
    var init, x := order[..|order| - 1], order[|order| - 1];
    var t := FirstMax(order, counts).value;
    if |init| == 0 {
      assert order[0] == t;
    } else {
      FirstMaxIsFirstMode(init, counts);
      var b := FirstMax(init, counts).value;
      var k :| 0 <= k < |init| && init[k] == b
              && (forall i :: 0 <= i < k ==> Get0(counts, init[i]) < Get0(counts, b))
              && (forall i :: 0 <= i < |init| ==> Get0(counts, init[i]) <= Get0(counts, b));
      if Get0(counts, b) >= Get0(counts, x) {
        assert order[k] == t;
        assert forall i :: 0 <= i < |init| ==> order[i] == init[i];
      } else {
        assert order[|order| - 1] == t;
        assert forall i :: 0 <= i < |init| ==> order[i] == init[i];
      }
    }
  }

  /** How many of `xs` are positive. */
  function Positives(xs: seq<real>): (n: nat)
    ensures n <= |xs|
  {
    if |xs| == 0 then 0 else Positives(xs[..|xs| - 1]) + (if xs[|xs| - 1] > 0.0 then 1 else 0)
  }

  /** `_analyze_outcomes`. */
  function AnalyzeOutcomes(sims: seq<Similar>): (r: Outcomes)
    ensures r.NoCases? <==> sims == []
    ensures r.Summary? ==> r.numSimilarCases == |sims|
  {
    if |sims| == 0 then NoCases
    else
      var imps := Improvements(sims);
      var tally := TallyOf(Trajectories(sims));
      Summary(
        |sims|,
        if |imps| > 0 then Mean(imps) else 0.0,
        FirstMax(tally.order, tally.counts),
        if |imps| > 0 then (Positives(imps) as real) / (|imps| as real) else 0.0)
  }

  // ---------------------------------------------------------------------------------------
  // Properties

  lemma {:induction false} PositivesAll(xs: seq<real>)
    ensures Positives(xs) == |xs| <==> forall i :: 0 <= i < |xs| ==> xs[i] > 0.0
  {
    if |xs| > 0 {
      PositivesAll(xs[..|xs| - 1]);
    }
  }

  lemma {:induction false} PositivesNone(xs: seq<real>)
    ensures Positives(xs) == 0 <==> forall i :: 0 <= i < |xs| ==> xs[i] <= 0.0
  {
    if |xs| > 0 {
      PositivesNone(xs[..|xs| - 1]);
    }
  }

  lemma SuccessRateOf(sims: seq<Similar>)
    requires sims != []
    ensures var imps := Improvements(sims);
            AnalyzeOutcomes(sims).successRate
              == if |imps| > 0 then (Positives(imps) as real) / (|imps| as real) else 0.0
  {
  }

  /** The success rate lies between 0 and 1; it is 1 exactly when some improvement is known and
      every known improvement is positive, and 0 exactly when none is positive. */
  lemma SuccessRate(sims: seq<Similar>)
    requires sims != []
    ensures var r := AnalyzeOutcomes(sims);
            var imps := Improvements(sims);
            && 0.0 <= r.successRate <= 1.0
            && (r.successRate == 1.0 <==> |imps| > 0 && forall i :: 0 <= i < |imps| ==> imps[i] > 0.0)
            && (r.successRate == 0.0 <==> forall i :: 0 <= i < |imps| ==> imps[i] <= 0.0)
  {
    var imps := Improvements(sims);
    SuccessRateOf(sims);
    PositivesAll(imps);
    PositivesNone(imps);
    if |imps| > 0 {
      RatioFacts(Positives(imps), |imps|);
    }
  }

  lemma {:induction false} SumBounds(s: seq<real>, lo: real, hi: real)
    requires forall i :: 0 <= i < |s| ==> lo <= s[i] <= hi
    ensures Scale(|s|, lo) <= Sum(s) <= Scale(|s|, hi)
  {
    if |s| > 0 {
      SumBounds(s[..|s| - 1], lo, hi);
    }
  }

  /** The mean of values between two bounds lies between them. */
  lemma {:induction false} MeanWithin(s: seq<real>, lo: real, hi: real)
    requires |s| > 0
    requires forall i :: 0 <= i < |s| ==> lo <= s[i] <= hi
    ensures lo <= Mean(s) <= hi
  {
    SumBounds(s, lo, hi);
    DivideWithin(Sum(s), |s|, lo, hi);
  }

  /** The mean improvement is the mean of the known improvements, or 0 when there are none,
      and so lies between the smallest and the largest known improvement. */
  lemma MeanBounds(sims: seq<Similar>, lo: real, hi: real)
    requires sims != []
    requires forall x :: x in Improvements(sims) ==> lo <= x <= hi
    ensures var imps := Improvements(sims);
            var avg := AnalyzeOutcomes(sims).avgImprovement;
            && (|imps| == 0 ==> avg == 0.0)
            && (|imps| > 0 ==> lo <= avg <= hi)
  {
    var imps := Improvements(sims);
    if |imps| > 0 {
      assert forall i :: 0 <= i < |imps| ==> imps[i] in imps;
      MeanWithin(imps, lo, hi);
    }
  }

  /** Index of the first occurrence of `x`, or the length when there is none. */
  function FirstAt(s: seq<string>, x: string): (i: nat)
    ensures x in s ==> i < |s| && s[i] == x && forall j :: 0 <= j < i ==> s[j] != x
    ensures x !in s ==> i == |s|
  {
    if |s| == 0 then 0 else if s[0] == x then 0 else 1 + FirstAt(s[1..], x)
  }

  lemma {:induction false} FirstAtAppend(a: seq<string>, b: seq<string>, y: string)
    ensures y in a ==> FirstAt(a + b, y) == FirstAt(a, y)
    ensures y !in a ==> FirstAt(a + b, y) == |a| + FirstAt(b, y)
  {
    if |a| == 0 {
      assert a + b == b;
    } else {
      assert (a + b)[1..] == a[1..] + b;
      FirstAtAppend(a[1..], b, y);
    }
  }

  /** `o` lists keys in the order of their first appearance in `ts`. */
  predicate FirstSeenOrder(ts: seq<string>, o: seq<string>) {
    forall k, m :: 0 <= k < m < |o| ==> FirstAt(ts, o[k]) < FirstAt(ts, o[m])
  }

  /** The tally lists journey types in order of first appearance. */
  lemma {:induction false} TallyFirstOrder(ts: seq<string>)
    ensures FirstSeenOrder(ts, TallyOf(ts).order)
  {
    if |ts| > 0 {
      var init := ts[..|ts| - 1];
      TallyFirstOrder(init);
      TallyKeys(init);
      TallyStep(ts);
      AppendNewOne(TallyOf(init).order, ts[|ts| - 1]);
      FirstOrderStep(ts, TallyOf(init).order);
    }
  }

  /** The tally's key order after one more journey type. */
  lemma TallyStep(ts: seq<string>)
    requires |ts| > 0
    ensures TallyOf(ts).order == AppendNew(TallyOf(ts[..|ts| - 1]).order, [ts[|ts| - 1]])
  {
  }

  /** One more journey type keeps a listing of the earlier ones in first-seen order. */
  lemma FirstOrderStep(ts: seq<string>, o0: seq<string>)
    requires |ts| > 0
    requires forall y :: y in o0 <==> y in ts[..|ts| - 1]
    requires FirstSeenOrder(ts[..|ts| - 1], o0)
    ensures FirstSeenOrder(ts, if ts[|ts| - 1] in o0 then o0 else o0 + [ts[|ts| - 1]])
  {
    var init, x := ts[..|ts| - 1], ts[|ts| - 1];
    assert ts == init + [x];
    forall y | y in o0
      ensures FirstAt(ts, y) == FirstAt(init, y) < |init|
    {
      FirstAtAppend(init, [x], y);
    }
    forall k, m | 0 <= k < m < |o0|
      ensures FirstAt(ts, o0[k]) < FirstAt(ts, o0[m])
    {
      assert o0[k] in o0 && o0[m] in o0;
    }
    if x !in o0 {
      FirstAtAppend(init, [x], x);
      assert FirstAt([x], x) == 0;
      forall k | 0 <= k < |o0|
        ensures FirstAt(ts, o0[k]) < FirstAt(ts, x)
      {
        assert o0[k] in o0;
      }
      AppendedLast(ts, o0, x);
    }
  }

  /** Appending a key first seen after every listed one keeps the listing in first-seen order. */
  lemma AppendedLast(ts: seq<string>, o0: seq<string>, x: string)
    requires FirstSeenOrder(ts, o0)
    requires forall k :: 0 <= k < |o0| ==> FirstAt(ts, o0[k]) < FirstAt(ts, x)
    ensures FirstSeenOrder(ts, o0 + [x])
  {
    var o := o0 + [x];
    forall k, m | 0 <= k < m < |o|
      ensures FirstAt(ts, o[k]) < FirstAt(ts, o[m])
    {
      assert o[k] == o0[k];
      if m < |o0| {
        assert o[m] == o0[m];
      }
    }
  }

  /** Every type met before the winner's first appearance is listed before it. */
  lemma BeforeWinner(ts: seq<string>, k: nat, i: nat)
    requires k < |TallyOf(ts).order|
    requires i < FirstAt(ts, TallyOf(ts).order[k])
    ensures exists m :: 0 <= m < k && TallyOf(ts).order[m] == ts[i]
  {
    var o := TallyOf(ts).order;
    TallyKeys(ts);
    TallyCounts(ts);
    TallyFirstOrder(ts);
    assert ts[i] in ts;
    var m :| 0 <= m < |o| && o[m] == ts[i];
    assert FirstAt(ts, o[m]) <= i;
    assert m < k;
  }

  /** The winner of the tally is a journey type seen at least as often as any other. */
  lemma ModeCountsMost(ts: seq<string>)
    requires ts != []
    ensures var tally := TallyOf(ts);
            var w := FirstMax(tally.order, tally.counts);
            && w.Some?
            && w.value in ts
            && forall y :: y in ts ==> CountOf(ts, y) <= CountOf(ts, w.value)
  {
    var tally := TallyOf(ts);
    TallyKeys(ts);
    TallyCounts(ts);
    assert ts[0] in tally.order;
    FirstMaxIsFirstMode(tally.order, tally.counts);
    var t := FirstMax(tally.order, tally.counts).value;
    forall y | y in ts
      ensures CountOf(ts, y) <= CountOf(ts, t)
    {
      var i :| 0 <= i < |tally.order| && tally.order[i] == y;
    }
  }

  /** The winner of the tally is seen strictly more often than every type met before its own
      first appearance. */
  lemma ModeFirst(ts: seq<string>)
    requires ts != []
    ensures var tally := TallyOf(ts);
            var w := FirstMax(tally.order, tally.counts);
            w.Some? && forall i :: 0 <= i < FirstAt(ts, w.value) ==> CountOf(ts, ts[i]) < CountOf(ts, w.value)
  {
    var tally := TallyOf(ts);
    TallyKeys(ts);
    assert ts[0] in tally.order;
    FirstMaxIsFirstMode(tally.order, tally.counts);
    var t := FirstMax(tally.order, tally.counts).value;
    var k :| 0 <= k < |tally.order| && tally.order[k] == t
             && (forall i :: 0 <= i < k ==> Get0(tally.counts, tally.order[i]) < Get0(tally.counts, t));
    WinnerFirst(ts, k);
  }

  /** A type whose count beats every type listed before it beats every type met before its
      own first appearance. */
  lemma WinnerFirst(ts: seq<string>, k: nat)
    requires k < |TallyOf(ts).order|
    requires var tally := TallyOf(ts);
             forall i :: 0 <= i < k ==> Get0(tally.counts, tally.order[i]) < Get0(tally.counts, tally.order[k])
    ensures var t := TallyOf(ts).order[k];
            forall i :: 0 <= i < FirstAt(ts, t) ==> CountOf(ts, ts[i]) < CountOf(ts, t)
  {
    var t := TallyOf(ts).order[k];
    TallyCounts(ts);
    forall i | 0 <= i < FirstAt(ts, t)
      ensures CountOf(ts, ts[i]) < CountOf(ts, t)
    {
      BeforeWinner(ts, k, i);
    }
  }

  /** The most common trajectory is absent exactly when no journey type is known; otherwise it
      is a journey type seen at least as often as any other, and strictly more often than every
      type met before its own first appearance. */
  lemma MostCommonTrajectory(sims: seq<Similar>)
    requires sims != []
    ensures var r := AnalyzeOutcomes(sims);
            var ts := Trajectories(sims);
            && (r.mostCommonTrajectory.None? <==> ts == [])
            && (r.mostCommonTrajectory.Some? ==>
                  var t := r.mostCommonTrajectory.value;
                  && t in ts
                  && (forall y :: y in ts ==> CountOf(ts, y) <= CountOf(ts, t))
                  && (forall i :: 0 <= i < FirstAt(ts, t) ==> CountOf(ts, ts[i]) < CountOf(ts, t)))
  {
    var ts := Trajectories(sims);
    var tally := TallyOf(ts);
    assert AnalyzeOutcomes(sims).mostCommonTrajectory == FirstMax(tally.order, tally.counts);
    if ts != [] {
      ModeCountsMost(ts);
      ModeFirst(ts);
    }
  }
}
