/** The counters both graph builders keep while they walk over entries (graph.py): label
    occurrences and confidences, co-occurring pairs, and (intervention, distortion) links. Each
    counter is a left fold whose contract says what it adds per key; `Total` is the independent
    per-key count over a list of entries that the folds are proved against. */
module Tallies {
  import opened Common
  import opened Entities
  import LexOrder

  // ---------------------------------------------------------------------------------------
  // Reference counts

  /** The key under which labels found at positions p < q of one entry are counted: in position
      order for a personal graph (graph.py:33), sorted for the global graph (graph.py:101). */
  function PairKey(sorted: bool, a: Id, b: Id): (Id, Id) {
    if sorted then LexOrder.SortedPair(a, b) else (a, b)
  }

  /** Number of positions of `rest` whose label, paired after `a`, has key `k`. */
  function PairsWith(a: Id, rest: seq<Id>, sorted: bool, k: (Id, Id)): nat {
    if |rest| == 0 then 0
    else (if PairKey(sorted, a, rest[0]) == k then 1 else 0) + PairsWith(a, rest[1..], sorted, k)
  }

  /** Number of position pairs p < q of `ts` whose key is `k`. */
  function PairsIn(ts: seq<Id>, sorted: bool, k: (Id, Id)): nat {
    if |ts| == 0 then 0 else PairsWith(ts[0], ts[1..], sorted, k) + PairsIn(ts[1..], sorted, k)
  }

  /** Number of (use of `k.0`, detection of `k.1`) combinations in one entry. */
  function LinksIn(used: seq<Id>, ts: seq<Id>, k: (Id, Id)): nat {
    if |used| == 0 then 0
    else (if used[0] == k.0 then CountOf(ts, k.1) else 0) + LinksIn(used[1..], ts, k)
  }

  /** Sum of the confidences of the detections of label `d`. */
  function ConfidenceOf(ds: seq<Detection>, d: Id): real {
    if |ds| == 0 then 0.0
    else (if ds[0].kind == d then ds[0].confidence else 0.0) + ConfidenceOf(ds[1..], d)
  }

  /** What one entry contributes to a counter. */
  datatype Measure =
    | Occurrences(distortion: Id)
    | Pairs(sorted: bool, key: (Id, Id))
    | Links(link: (Id, Id))
    | Uses(intervention: Id)

  function Per(e: Entry, m: Measure): nat {
    var ts := Kinds(e.distortions);
    match m
    case Occurrences(d) => CountOf(ts, d)
    case Pairs(sorted, k) => PairsIn(ts, sorted, k)
    case Links(k) => LinksIn(e.interventionsUsed, ts, k)
    case Uses(i) => CountOf(e.interventionsUsed, i)
  }

  /** A counter's value over a list of entries. */
  function Total(es: seq<Entry>, m: Measure): nat {
    if |es| == 0 then 0 else Total(es[..|es| - 1], m) + Per(es[|es| - 1], m)
  }

  /** Total confidence of label `d` over a list of entries. */
  function Confidence(es: seq<Entry>, d: Id): real {
    if |es| == 0 then 0.0 else Confidence(es[..|es| - 1], d) + ConfidenceOf(es[|es| - 1].distortions, d)
  }

  /** The labels detected in any of the entries. */
  function Detected(es: seq<Entry>): set<Id> {
    if |es| == 0 then {} else Detected(es[..|es| - 1]) + ToSet(Kinds(es[|es| - 1].distortions))
  }

  /** The interventions used in any of the entries. */
  function Used(es: seq<Entry>): set<Id> {
    if |es| == 0 then {} else Used(es[..|es| - 1]) + ToSet(es[|es| - 1].interventionsUsed)
  }

  // ---------------------------------------------------------------------------------------
  // Properties of the reference counts

  /** Counters are additive over a concatenation of entry lists. */
  lemma {:induction false} TotalAppend(a: seq<Entry>, b: seq<Entry>, m: Measure)
    ensures Total(a + b, m) == Total(a, m) + Total(b, m)
  {
    if |b| > 0 {
      assert (a + b)[..|a + b| - 1] == a + b[..|b| - 1];
      TotalAppend(a, b[..|b| - 1], m);
    } else {
      assert a + b == a;
    }
  }

  lemma {:induction false} ConfidenceAppend(a: seq<Entry>, b: seq<Entry>, d: Id)
    ensures Confidence(a + b, d) == Confidence(a, d) + Confidence(b, d)
  {
    if |b| > 0 {
      assert (a + b)[..|a + b| - 1] == a + b[..|b| - 1];
      ConfidenceAppend(a, b[..|b| - 1], d);
    } else {
      assert a + b == a;
    }
  }

  /** A label an entry does not detect contributes no confidence. */
  lemma {:induction false} ConfidenceOfAbsent(ds: seq<Detection>, d: Id)
    requires d !in Kinds(ds)
    ensures ConfidenceOf(ds, d) == 0.0
  {
    if |ds| > 0 {
      assert Kinds(ds[1..]) == Kinds(ds)[1..];
      ConfidenceOfAbsent(ds[1..], d);
    }
  }

  /** A label detected nowhere has total confidence 0. */
  lemma {:induction false} ConfidenceUndetected(es: seq<Entry>, d: Id)
    requires d !in Detected(es)
    ensures Confidence(es, d) == 0.0
  {
    if |es| > 0 {
      ConfidenceUndetected(es[..|es| - 1], d);
      ConfidenceOfAbsent(es[|es| - 1].distortions, d);
    }
  }

  /** A counter is positive exactly when some entry contributes to it. */
  lemma {:induction false} TotalPositive(es: seq<Entry>, m: Measure)
    ensures Total(es, m) > 0 <==> exists i :: 0 <= i < |es| && Per(es[i], m) > 0
  {
    if |es| > 0 {
      var init, last := es[..|es| - 1], es[|es| - 1];
      TotalPositive(init, m);
      assert Total(es, m) == Total(init, m) + Per(last, m);
      if Total(es, m) > 0 {
        if Total(init, m) > 0 {
          var i :| 0 <= i < |init| && Per(init[i], m) > 0;
          assert es[i] == init[i];
        } else {
          assert Per(es[|es| - 1], m) > 0;
        }
      } else {
        forall i | 0 <= i < |es|
          ensures Per(es[i], m) == 0
        {
          if i < |init| {
            assert es[i] == init[i];
          }
        }
      }
    }
  }

  /** A label is detected exactly when its occurrence count is positive. */
  lemma {:induction false} DetectedIffOccurs(es: seq<Entry>, d: Id)
    ensures d in Detected(es) <==> Total(es, Occurrences(d)) > 0
  {
    if |es| > 0 {
      DetectedIffOccurs(es[..|es| - 1], d);
    }
  }

  /** An intervention is used exactly when its use count is positive. */
  lemma {:induction false} UsedIffUses(es: seq<Entry>, i: Id)
    ensures i in Used(es) <==> Total(es, Uses(i)) > 0
  {
    if |es| > 0 {
      UsedIffUses(es[..|es| - 1], i);
    }
  }

  /** A link is counted exactly when one entry both uses the intervention and detects the label. */
  lemma LinksPositive(es: seq<Entry>, i: Id, d: Id)
    ensures Total(es, Links((i, d))) > 0
        <==> exists n :: 0 <= n < |es| && i in es[n].interventionsUsed && d in Kinds(es[n].distortions)
  {
    TotalPositive(es, Links((i, d)));
    forall n | 0 <= n < |es|
      ensures Per(es[n], Links((i, d))) > 0 <==> i in es[n].interventionsUsed && d in Kinds(es[n].distortions)
    {
      LinksInPositive(es[n].interventionsUsed, Kinds(es[n].distortions), (i, d));
    }
  }

  lemma {:induction false} LinksInPositive(used: seq<Id>, ts: seq<Id>, k: (Id, Id))
    ensures LinksIn(used, ts, k) > 0 <==> k.0 in used && k.1 in ts
  {
    if |used| > 0 {
      LinksInPositive(used[1..], ts, k);
    }
  }

  lemma MulSucc(x: nat, y: nat)
    ensures (x + 1) * y == x * y + y
  {
  }

  /** A link's count in one entry is the product of the intervention's uses and the label's
      detections. */
  lemma {:induction false} LinksInProduct(used: seq<Id>, ts: seq<Id>, k: (Id, Id))
    ensures LinksIn(used, ts, k) == CountOf(used, k.0) * CountOf(ts, k.1)
  {
    if |used| > 0 {
      LinksInProduct(used[1..], ts, k);
      if used[0] == k.0 {
        MulSucc(CountOf(used[1..], k.0), CountOf(ts, k.1));
      }
    }
  }

  lemma {:induction false} PairsWithUnsorted(a: Id, rest: seq<Id>, k: (Id, Id))
    ensures PairsWith(a, rest, false, k) == if a == k.0 then CountOf(rest, k.1) else 0
  {
    if |rest| > 0 {
      PairsWithUnsorted(a, rest[1..], k);
    }
  }

  /** Personal pair counters are keyed by position order: (a, b) is counted once per pair of
      positions with `a` first. */
  lemma {:induction false} PairsInUnsorted(ts: seq<Id>, a: Id, b: Id)
    ensures PairsIn(ts, false, (a, b)) > 0 <==> Precedes(ts, a, b)
  {
    if |ts| > 0 {
      PairsWithUnsorted(ts[0], ts[1..], (a, b));
      PairsInUnsorted(ts[1..], a, b);
      PrecedesCons(ts, a, b);
    }
  }

  /** A label detected c times in one entry forms c(c-1)/2 self-pairs (d, d). */
  lemma {:induction false} SelfPairs(ts: seq<Id>, d: Id)
    ensures var c: int := CountOf(ts, d); 2 * PairsIn(ts, false, (d, d)) == c * (c - 1)
  {
    if |ts| > 0 {
      var rest := ts[1..];
      var c: int := CountOf(rest, d);
      PairsWithUnsorted(ts[0], rest, (d, d));
      SelfPairs(rest, d);
      assert PairsIn(ts, false, (d, d)) == PairsWith(ts[0], rest, false, (d, d)) + PairsIn(rest, false, (d, d));
      if ts[0] == d {
        assert CountOf(ts, d) == c + 1;
        SquareStep(c);
      } else {
        assert CountOf(ts, d) == c;
      }
    }
  }

  lemma SquareStep(c: int)
    ensures (c + 1) * c == c * (c - 1) + 2 * c
  {
  }

  /** For two different labels, the pairs counted in either order make up every combination
      of an occurrence of one with an occurrence of the other. */
  lemma {:induction false} PairsBothOrders(ts: seq<Id>, a: Id, b: Id)
    requires a != b
    ensures PairsIn(ts, false, (a, b)) + PairsIn(ts, false, (b, a)) == CountOf(ts, a) * CountOf(ts, b)
  {
    if |ts| > 0 {
      var rest := ts[1..];
      PairsWithUnsorted(ts[0], rest, (a, b));
      PairsWithUnsorted(ts[0], rest, (b, a));
      PairsBothOrders(rest, a, b);
      var ca, cb := CountOf(rest, a), CountOf(rest, b);
      var below := PairsIn(rest, false, (a, b)) + PairsIn(rest, false, (b, a));
      var here := PairsWith(ts[0], rest, false, (a, b)) + PairsWith(ts[0], rest, false, (b, a));
      assert PairsIn(ts, false, (a, b)) + PairsIn(ts, false, (b, a)) == here + below;
      assert below == ca * cb;
      if ts[0] == a {
        assert here == cb;
        assert CountOf(ts, a) == ca + 1 && CountOf(ts, b) == cb;
        MulSucc(ca, cb);
      } else if ts[0] == b {
        assert here == ca;
        assert CountOf(ts, a) == ca && CountOf(ts, b) == cb + 1;
        MulSuccRight(ca, cb);
      } else {
        assert here == 0;
        assert CountOf(ts, a) == ca && CountOf(ts, b) == cb;
      }
    }
  }

  lemma MulSuccRight(x: nat, y: nat)
    ensures x * (y + 1) == x * y + x
  {
  }

  lemma {:induction false} PairsWithSorted(a: Id, rest: seq<Id>, k: (Id, Id))
    ensures PairsWith(a, rest, true, k)
         == if !LexOrder.LexLe(k.0, k.1) then 0
            else if k.0 == k.1 then PairsWith(a, rest, false, k)
            else PairsWith(a, rest, false, k) + PairsWith(a, rest, false, (k.1, k.0))
  {
    if |rest| > 0 {
      PairsWithSorted(a, rest[1..], k);
      var r := rest[0];
      LexOrder.SortedPairSymmetric(a, r);
      if LexOrder.LexLe(k.0, k.1) && k.0 != k.1 && (r, a) == k {
        LexOrder.SortedPairFixed(r, a);
      }
      if LexOrder.LexLe(k.0, k.1) && (a, r) == k {
        LexOrder.SortedPairFixed(a, r);
      }
    }
  }

  /** Global pair counters are unordered: the sorted key of two different labels counts the
      pairs found in either order, and a key out of order is never counted. */
  lemma {:induction false} PairsInSorted(ts: seq<Id>, k: (Id, Id))
    ensures PairsIn(ts, true, k)
         == if !LexOrder.LexLe(k.0, k.1) then 0
            else if k.0 == k.1 then PairsIn(ts, false, k)
            else PairsIn(ts, false, k) + PairsIn(ts, false, (k.1, k.0))
  {
    if |ts| > 0 {
      PairsWithSorted(ts[0], ts[1..], k);
      PairsInSorted(ts[1..], k);
    }
  }

  /** The same, summed over a list of entries. */
  lemma {:induction false} TotalPairsSorted(es: seq<Entry>, k: (Id, Id))
    ensures Total(es, Pairs(true, k))
         == if !LexOrder.LexLe(k.0, k.1) then 0
            else if k.0 == k.1 then Total(es, Pairs(false, k))
            else Total(es, Pairs(false, k)) + Total(es, Pairs(false, (k.1, k.0)))
  {
    if |es| > 0 {
      TotalPairsSorted(es[..|es| - 1], k);
      PairsInSorted(Kinds(es[|es| - 1].distortions), k);
    }
  }

  lemma PrefixTotal(es: seq<Entry>, n: nat, m: Measure)
    requires 0 < n <= |es|
    ensures Total(es[..n], m) == Total(es[..n - 1], m) + Per(es[n - 1], m)
  {
    assert es[..n][..n - 1] == es[..n - 1];
  }

  // ---------------------------------------------------------------------------------------
  // The counters as folds

  /** `m[x] += 1` for every element of `xs`: occurrences (graph.py:28, 95) and uses (graph.py:40). */
  function CountEach(m: map<Id, nat>, xs: seq<Id>): (r: map<Id, nat>)
    ensures r.Keys == m.Keys + ToSet(xs)
    ensures forall x :: Get0(r, x) == Get0(m, x) + CountOf(xs, x)
    decreases |xs|
  {
    if |xs| == 0 then m else CountEach(Bump(m, xs[0], 1), xs[1..])
  }

  /** `total_confidence += confidence` for every detection (graph.py:29, 96). */
  function AddConfidences(m: map<Id, real>, ds: seq<Detection>): (r: map<Id, real>)
    ensures r.Keys == m.Keys + ToSet(Kinds(ds))
    ensures forall d :: GetR(r, d) == GetR(m, d) + ConfidenceOf(ds, d)
    decreases |ds|
  {
    if |ds| == 0 then m
    else AddConfidences(m[ds[0].kind := GetR(m, ds[0].kind) + ds[0].confidence], ds[1..])
  }

  /** The inner pair loop for the label at one position and the labels after it. */
  function CountPairsWith(m: map<(Id, Id), nat>, a: Id, rest: seq<Id>, sorted: bool): (r: map<(Id, Id), nat>)
    ensures forall k :: Get0(r, k) == Get0(m, k) + PairsWith(a, rest, sorted, k)
    ensures forall k :: k in r <==> k in m || PairsWith(a, rest, sorted, k) > 0
    decreases |rest|
  {
    if |rest| == 0 then m
    else CountPairsWith(Bump(m, PairKey(sorted, a, rest[0]), 1), a, rest[1..], sorted)
  }

  /** The nested pair loops over one entry's labels (graph.py:31-33, 99-102). */
  function CountPairs(m: map<(Id, Id), nat>, ts: seq<Id>, sorted: bool): (r: map<(Id, Id), nat>)
    ensures forall k :: Get0(r, k) == Get0(m, k) + PairsIn(ts, sorted, k)
    ensures forall k :: k in r <==> k in m || PairsIn(ts, sorted, k) > 0
    decreases |ts|
  {
    if |ts| == 0 then m
    else CountPairs(CountPairsWith(m, ts[0], ts[1..], sorted), ts[1..], sorted)
  }

  /** One increment of (i, d) for every detected label d. */
  function CountLinksFor(m: map<(Id, Id), nat>, i: Id, ts: seq<Id>): (r: map<(Id, Id), nat>)
    ensures forall k :: Get0(r, k) == Get0(m, k) + (if k.0 == i then CountOf(ts, k.1) else 0)
    ensures forall k :: k in r <==> k in m || (k.0 == i && k.1 in ts)
    decreases |ts|
  {
    if |ts| == 0 then m else CountLinksFor(Bump(m, (i, ts[0]), 1), i, ts[1..])
  }

  /** The (intervention, distortion) loops of one entry (graph.py:36-47, 105-107). */
  function CountLinks(m: map<(Id, Id), nat>, used: seq<Id>, ts: seq<Id>): (r: map<(Id, Id), nat>)
    ensures forall k :: Get0(r, k) == Get0(m, k) + LinksIn(used, ts, k)
    ensures forall k :: k in r <==> k in m || LinksIn(used, ts, k) > 0
    decreases |used|
  {
    if |used| == 0 then m
    else CountLinks(CountLinksFor(m, used[0], ts), used[1..], ts)
  }

  /** The counters both builders keep. */
  datatype Tally = Tally(
    occurrences: map<Id, nat>,
    confidence: map<Id, real>,
    pairs: map<(Id, Id), nat>,
    links: map<(Id, Id), nat>)

  const NoTally := Tally(map[], map[], map[], map[])

  /** Everything one entry adds to the counters. */
  function TallyEntry(t: Tally, e: Entry, sorted: bool): (r: Tally)
    ensures r.occurrences.Keys == t.occurrences.Keys + ToSet(Kinds(e.distortions))
    ensures forall d :: Get0(r.occurrences, d) == Get0(t.occurrences, d) + Per(e, Occurrences(d))
    ensures forall d :: GetR(r.confidence, d) == GetR(t.confidence, d) + ConfidenceOf(e.distortions, d)
    ensures forall k :: Get0(r.pairs, k) == Get0(t.pairs, k) + Per(e, Pairs(sorted, k))
    ensures forall k :: k in r.pairs <==> k in t.pairs || Per(e, Pairs(sorted, k)) > 0
    ensures forall k :: Get0(r.links, k) == Get0(t.links, k) + Per(e, Links(k))
    ensures forall k :: k in r.links <==> k in t.links || Per(e, Links(k)) > 0
  {
    var ts := Kinds(e.distortions);
    Tally(
      CountEach(t.occurrences, ts),
      AddConfidences(t.confidence, e.distortions),
      CountPairs(t.pairs, ts, sorted),
      CountLinks(t.links, e.interventionsUsed, ts))
  }

  /** `t` holds exactly the counts of the entries `es`. */
  ghost predicate Counts(t: Tally, es: seq<Entry>, sorted: bool) {
    && OccurrenceCounts(t.occurrences, es)
    && ConfidenceSums(t.confidence, es)
    && PairCounts(t.pairs, es, sorted)
    && LinkCounts(t.links, es)
  }

  ghost predicate OccurrenceCounts(m: map<Id, nat>, es: seq<Entry>) {
    && (forall d :: d in m <==> d in Detected(es))
    && (forall d :: Get0(m, d) == Total(es, Occurrences(d)))
  }

  ghost predicate ConfidenceSums(m: map<Id, real>, es: seq<Entry>) {
    forall d :: GetR(m, d) == Confidence(es, d)
  }

  ghost predicate PairCounts(m: map<(Id, Id), nat>, es: seq<Entry>, sorted: bool) {
    && (forall k :: Get0(m, k) == Total(es, Pairs(sorted, k)))
    && (forall k :: k in m <==> Total(es, Pairs(sorted, k)) > 0)
  }

  ghost predicate LinkCounts(m: map<(Id, Id), nat>, es: seq<Entry>) {
    && (forall k :: Get0(m, k) == Total(es, Links(k)))
    && (forall k :: k in m <==> Total(es, Links(k)) > 0)
  }

  lemma CountsNone(sorted: bool)
    ensures Counts(NoTally, [], sorted)
  {
  }

  lemma TotalSnoc(es: seq<Entry>, e: Entry, m: Measure)
    ensures Total(es + [e], m) == Total(es, m) + Per(e, m)
  {
    assert (es + [e])[..|es|] == es;
  }

  lemma SnocSets(es: seq<Entry>, e: Entry)
    ensures Detected(es + [e]) == Detected(es) + ToSet(Kinds(e.distortions))
    ensures Used(es + [e]) == Used(es) + ToSet(e.interventionsUsed)
    ensures forall d :: Confidence(es + [e], d) == Confidence(es, d) + ConfidenceOf(e.distortions, d)
  {
    assert (es + [e])[..|es|] == es;
  }

  /** Tallying one more entry keeps the counters equal to the reference counts. */
  lemma CountsStep(t: Tally, es: seq<Entry>, e: Entry, sorted: bool)
    requires Counts(t, es, sorted)
    ensures Counts(TallyEntry(t, e, sorted), es + [e], sorted)
  {
    OccurrencesStep(t, es, e, sorted);
    ConfidenceStep(t, es, e, sorted);
    PairsStep(t, es, e, sorted);
    LinksStep(t, es, e, sorted);
  }

  lemma OccurrencesStep(t: Tally, es: seq<Entry>, e: Entry, sorted: bool)
    requires OccurrenceCounts(t.occurrences, es)
    ensures OccurrenceCounts(TallyEntry(t, e, sorted).occurrences, es + [e])
  {
    var r := TallyEntry(t, e, sorted);
    SnocSets(es, e);
    forall d
      ensures Get0(r.occurrences, d) == Total(es + [e], Occurrences(d))
    {
      TotalSnoc(es, e, Occurrences(d));
    }
  }

  lemma ConfidenceStep(t: Tally, es: seq<Entry>, e: Entry, sorted: bool)
    requires ConfidenceSums(t.confidence, es)
    ensures ConfidenceSums(TallyEntry(t, e, sorted).confidence, es + [e])
  {
    SnocSets(es, e);
  }

  lemma PairsStep(t: Tally, es: seq<Entry>, e: Entry, sorted: bool)
    requires PairCounts(t.pairs, es, sorted)
    ensures PairCounts(TallyEntry(t, e, sorted).pairs, es + [e], sorted)
  {
    var r := TallyEntry(t, e, sorted);
    forall k: (Id, Id)
      ensures Get0(r.pairs, k) == Total(es + [e], Pairs(sorted, k))
      ensures k in r.pairs <==> Total(es + [e], Pairs(sorted, k)) > 0
    {
      TotalSnoc(es, e, Pairs(sorted, k));
    }
  }

  lemma LinksStep(t: Tally, es: seq<Entry>, e: Entry, sorted: bool)
    requires LinkCounts(t.links, es)
    ensures LinkCounts(TallyEntry(t, e, sorted).links, es + [e])
  {
    var r := TallyEntry(t, e, sorted);
    forall k: (Id, Id)
      ensures Get0(r.links, k) == Total(es + [e], Links(k))
      ensures k in r.links <==> Total(es + [e], Links(k)) > 0
    {
      TotalSnoc(es, e, Links(k));
    }
  }

  /** The counters after the first `n` entries. */
  function TallyAfter(es: seq<Entry>, n: nat, sorted: bool): Tally
    requires n <= |es|
  {
    if n == 0 then NoTally else TallyEntry(TallyAfter(es, n - 1, sorted), es[n - 1], sorted)
  }

  lemma {:induction false} TallyAfterCounts(es: seq<Entry>, n: nat, sorted: bool)
    requires n <= |es|
    ensures Counts(TallyAfter(es, n, sorted), es[..n], sorted)
  {
    if n == 0 {
      CountsNone(sorted);
    } else {
      TallyAfterCounts(es, n - 1, sorted);
      assert es[..n] == es[..n - 1] + [es[n - 1]];
      CountsStep(TallyAfter(es, n - 1, sorted), es[..n - 1], es[n - 1], sorted);
    }
  }

  /** The two labels of a counted pair were both detected. */
  lemma PairEndsDetected(es: seq<Entry>, sorted: bool, k: (Id, Id))
    requires Total(es, Pairs(sorted, k)) > 0
    ensures k.0 in Detected(es) && k.1 in Detected(es)
  {
    TotalPositive(es, Pairs(sorted, k));
    var n :| 0 <= n < |es| && Per(es[n], Pairs(sorted, k)) > 0;
    var ts := Kinds(es[n].distortions);
    var a, b := k.0, k.1;
    if sorted {
      PairsInSorted(ts, k);
      if PairsIn(ts, false, k) == 0 {
        PairsInUnsorted(ts, b, a);
      } else {
        PairsInUnsorted(ts, a, b);
      }
    } else {
      PairsInUnsorted(ts, a, b);
    }
    assert a in ts && b in ts;
    DetectedAt(es, n, a);
    DetectedAt(es, n, b);
  }

  lemma DetectedAt(es: seq<Entry>, n: nat, d: Id)
    requires n < |es| && d in Kinds(es[n].distortions)
    ensures d in Detected(es)
  {
    TotalPositive(es, Occurrences(d));
    DetectedIffOccurs(es, d);
  }

  lemma UsedAt(es: seq<Entry>, n: nat, i: Id)
    requires n < |es| && i in es[n].interventionsUsed
    ensures i in Used(es)
  {
    TotalPositive(es, Uses(i));
    UsedIffUses(es, i);
  }

  /** A counted link joins a used intervention to a detected label. */
  lemma LinkEnds(es: seq<Entry>, k: (Id, Id))
    requires Total(es, Links(k)) > 0
    ensures k.0 in Used(es) && k.1 in Detected(es)
  {
    LinksPositive(es, k.0, k.1);
    var n :| 0 <= n < |es| && k.0 in es[n].interventionsUsed && k.1 in Kinds(es[n].distortions);
    DetectedAt(es, n, k.1);
    UsedAt(es, n, k.0);
  }
}
