/** Scoring a bucket against its baseline, and replaying a pool's history (internal/detect/detector.go). */
module Detector {
  import opened Common
  import opened RobustStats

  /** A pool's activity in one window; volumes and flows are in token units, ts is the window's start. */
  datatype Bucket = Bucket(ts: int, swapCount: nat, vol0: real, vol1: real, netflow0: real, netflow1: real)

  datatype Metric = SwapCount | Vol0 | Vol1 | Netflow0 | Netflow1

  const METRICS: seq<Metric> := [SwapCount, Vol0, Vol1, Netflow0, Netflow1]

  const SWAP_COUNT_FLOOR := 10.0

  datatype MetricResult = MetricResult(metric: Metric, z: real, latest: real, median: real, mad: real)

  function MetricValue(b: Bucket, m: Metric): real {
    match m
    case SwapCount => b.swapCount as real
    case Vol0 => b.vol0
    case Vol1 => b.vol1
    case Netflow0 => b.netflow0
    case Netflow1 => b.netflow1
  }

  function AbsFloorOK(m: Metric, latest: real, median: real): bool {
    if m == SwapCount then latest >= SWAP_COUNT_FLOOR else median > 0.0 && latest > 0.0
  }

  /** One metric over a whole baseline. */
  function Samples(baseline: seq<Bucket>, m: Metric): seq<real> {
    seq(|baseline|, i requires 0 <= i < |baseline| => MetricValue(baseline[i], m))
  }

  /** The z-threshold and the absolute floor, given the baseline's statistics. */
  function Gate(m: Metric, v: real, median: real, mad: real, zt: real): Option<MetricResult> {
    var z := ModifiedZ(v, median, mad);
    if Abs(z) < zt || !AbsFloorOK(m, v, median) then None
    else Some(MetricResult(m, z, v, median, mad))
  }

  /** What metric m says about the latest bucket; None when it cannot fire. */
  function Candidate(latest: Bucket, baseline: seq<Bucket>, zt: real, m: Metric): Option<MetricResult> {
    if baseline == [] then None
    else
      var xs := Samples(baseline, m);
      Gate(m, MetricValue(latest, m), MedianOf(xs), MadOf(xs), zt)
  }

  /** The candidate kept when c comes after best: only a strictly larger |z| replaces. */
  function Better(best: Option<MetricResult>, c: Option<MetricResult>): Option<MetricResult> {
    if c.Some? && (best.None? || Abs(c.value.z) > Abs(best.value.z)) then c else best
  }

  function BestOf(latest: Bucket, baseline: seq<Bucket>, zt: real, n: nat): Option<MetricResult>
    requires n <= |METRICS|
  {
    if n == 0 then None
    else Better(BestOf(latest, baseline, zt, n - 1), Candidate(latest, baseline, zt, METRICS[n - 1]))
  }

  function Score(latest: Bucket, baseline: seq<Bucket>, zt: real): Option<MetricResult> {
    BestOf(latest, baseline, zt, |METRICS|)
  }

  /** r is the first candidate with the largest |z| among the first n metrics; None when there is no candidate. */
  ghost predicate IsBest(latest: Bucket, baseline: seq<Bucket>, zt: real, n: nat, r: Option<MetricResult>)
    requires n <= |METRICS|
  {
    if r.None? then forall j | 0 <= j < n :: Candidate(latest, baseline, zt, METRICS[j]).None?
    else exists k | 0 <= k < n :: FirstLargest(latest, baseline, zt, n, k, r)
  }

  ghost predicate FirstLargest(latest: Bucket, baseline: seq<Bucket>, zt: real, n: nat, k: nat, r: Option<MetricResult>)
    requires k < n <= |METRICS| && r.Some?
  {
    && Candidate(latest, baseline, zt, METRICS[k]) == r
    && forall j | 0 <= j < n && Candidate(latest, baseline, zt, METRICS[j]).Some? ::
         var z := Candidate(latest, baseline, zt, METRICS[j]).value.z;
         Abs(z) <= Abs(r.value.z) && (j < k ==> Abs(z) < Abs(r.value.z))
  }

  lemma {:induction false} BestIsFirstLargest(latest: Bucket, baseline: seq<Bucket>, zt: real, n: nat)
    requires n <= |METRICS|
    ensures IsBest(latest, baseline, zt, n, BestOf(latest, baseline, zt, n))
  {
    hide Candidate, Abs;
    if n > 0 {
      BestIsFirstLargest(latest, baseline, zt, n - 1);
      var before, c := BestOf(latest, baseline, zt, n - 1), Candidate(latest, baseline, zt, METRICS[n - 1]);
      var r := Better(before, c);
      if r.Some? {
        if r == before {
          var k :| 0 <= k < n - 1 && FirstLargest(latest, baseline, zt, n - 1, k, before);
          assert FirstLargest(latest, baseline, zt, n, k, r);
        } else {
          assert FirstLargest(latest, baseline, zt, n, n - 1, r);
        }
      }
    }
  }

  // ---------- What the score says of the bucket ----------

  function SwapCounts(bs: seq<Bucket>): seq<real> {
    seq(|bs|, i requires 0 <= i < |bs| => bs[i].swapCount as real)
  }

  function Vol0s(bs: seq<Bucket>): seq<real> {
    seq(|bs|, i requires 0 <= i < |bs| => bs[i].vol0)
  }

  function Vol1s(bs: seq<Bucket>): seq<real> {
    seq(|bs|, i requires 0 <= i < |bs| => bs[i].vol1)
  }

  function Netflow0s(bs: seq<Bucket>): seq<real> {
    seq(|bs|, i requires 0 <= i < |bs| => bs[i].netflow0)
  }

  function Netflow1s(bs: seq<Bucket>): seq<real> {
    seq(|bs|, i requires 0 <= i < |bs| => bs[i].netflow1)
  }

  /** v lies, on either side, less than zt MADs (of 1 / 0.6745 standard deviations) from the median of xs; without
      spread nothing reaches a positive threshold. */
  ghost predicate Within(v: real, xs: seq<real>, zt: real)
    requires xs != []
  {
    var d := if v < MedianOf(xs) then MedianOf(xs) - v else v - MedianOf(xs);
    if MadOf(xs) <= 0.0 then zt > 0.0 else 0.6745 * d < zt * MadOf(xs)
  }

  /** An amount that does not count: the floor asks for a positive median and a positive latest value. */
  ghost predicate Faint(v: real, xs: seq<real>)
    requires xs != []
  {
    MedianOf(xs) <= 0.0 || v <= 0.0
  }

  /** No metric of the bucket stands out. */
  ghost predicate Silent(latest: Bucket, baseline: seq<Bucket>, zt: real) {
    baseline == [] ||
    (&& (latest.swapCount < 10 || Within(latest.swapCount as real, SwapCounts(baseline), zt))
     && (Faint(latest.vol0, Vol0s(baseline)) || Within(latest.vol0, Vol0s(baseline), zt))
     && (Faint(latest.vol1, Vol1s(baseline)) || Within(latest.vol1, Vol1s(baseline), zt))
     && (Faint(latest.netflow0, Netflow0s(baseline)) || Within(latest.netflow0, Netflow0s(baseline), zt))
     && (Faint(latest.netflow1, Netflow1s(baseline)) || Within(latest.netflow1, Netflow1s(baseline), zt)))
  }

  /** v against the statistics of xs, and the signed score. */
  ghost predicate Measures(r: MetricResult, v: real, xs: seq<real>) {
    && xs != [] && r.latest == v && r.median == MedianOf(xs) && r.mad == MadOf(xs)
    && r.z == if MadOf(xs) <= 0.0 then 0.0 else 0.6745 * (v - MedianOf(xs)) / MadOf(xs)
  }

  /** The result is about the metric it names. */
  ghost predicate Reports(r: MetricResult, latest: Bucket, baseline: seq<Bucket>) {
    match r.metric
    case SwapCount => Measures(r, latest.swapCount as real, SwapCounts(baseline))
    case Vol0 => Measures(r, latest.vol0, Vol0s(baseline))
    case Vol1 => Measures(r, latest.vol1, Vol1s(baseline))
    case Netflow0 => Measures(r, latest.netflow0, Netflow0s(baseline))
    case Netflow1 => Measures(r, latest.netflow1, Netflow1s(baseline))
  }

  lemma Columns(bs: seq<Bucket>)
    ensures Samples(bs, SwapCount) == SwapCounts(bs)
    ensures Samples(bs, Vol0) == Vol0s(bs) && Samples(bs, Vol1) == Vol1s(bs)
    ensures Samples(bs, Netflow0) == Netflow0s(bs) && Samples(bs, Netflow1) == Netflow1s(bs)
  {
  }

  /** The absolute score is below the threshold exactly within that distance. */
  lemma BelowThresholdIff(v: real, median: real, mad: real, zt: real)
    ensures Abs(ModifiedZ(v, median, mad)) < zt <==>
              if mad <= 0.0 then zt > 0.0 else 0.6745 * (if v < median then median - v else v - median) < zt * mad
  {
    if mad > 0.0 {
      var d := 0.6745 * (if v < median then median - v else v - median);
      AbsOfQuotient(0.6745 * (v - median), mad);
      QuotientBelowIff(d, mad, zt);
    }
  }

  lemma AbsOfQuotient(x: real, d: real)
    requires d > 0.0
    ensures Abs(x / d) == Abs(x) / d
  {
    if x < 0.0 {
      assert x / d < 0.0 && -(x / d) == -x / d;
    } else {
      assert x / d >= 0.0;
    }
  }

  lemma QuotientBelowIff(x: real, d: real, zt: real)
    requires d > 0.0
    ensures x / d < zt <==> x < zt * d
  {
    var q := x / d;
    assert x == q * d;
    if q < zt {
      assert q * d < zt * d;
    } else {
      assert q * d >= zt * d;
    }
  }

  /** When one metric is no candidate, and what it reports when it is. */
  lemma CandidateIff(latest: Bucket, baseline: seq<Bucket>, zt: real, m: Metric)
    requires baseline != []
    ensures |Samples(baseline, m)| == |baseline|
    ensures var v, xs, c := MetricValue(latest, m), Samples(baseline, m), Candidate(latest, baseline, zt, m);
            && (c.None? <==> Within(v, xs, zt) || if m == SwapCount then v < 10.0 else Faint(v, xs))
            && (c.Some? ==> c.value.metric == m && Measures(c.value, v, xs))
  {
    hide MedianOf, MadOf, MetricValue, ModifiedZ, Abs;
    var v, xs := MetricValue(latest, m), Samples(baseline, m);
    BelowThresholdIff(v, MedianOf(xs), MadOf(xs), zt);
    ZIs(v, MedianOf(xs), MadOf(xs));
  }

  lemma ZIs(v: real, median: real, mad: real)
    ensures ModifiedZ(v, median, mad) == if mad <= 0.0 then 0.0 else 0.6745 * (v - median) / mad
  {
  }

  lemma NothingBestIff(latest: Bucket, baseline: seq<Bucket>, zt: real, r: Option<MetricResult>)
    requires IsBest(latest, baseline, zt, |METRICS|, r)
    ensures r.None? <==> && Candidate(latest, baseline, zt, SwapCount).None?
                         && Candidate(latest, baseline, zt, Vol0).None? && Candidate(latest, baseline, zt, Vol1).None?
                         && Candidate(latest, baseline, zt, Netflow0).None?
                         && Candidate(latest, baseline, zt, Netflow1).None?
    ensures r.Some? ==> Candidate(latest, baseline, zt, r.value.metric) == r
  {
    hide Candidate, Abs;
    assert METRICS[0] == SwapCount && METRICS[1] == Vol0 && METRICS[2] == Vol1
        && METRICS[3] == Netflow0 && METRICS[4] == Netflow1;
    forall m
      ensures Candidate(latest, baseline, zt, m).Some? ==> Candidate(latest, baseline, zt, m).value.metric == m
    {
      CandidateNames(latest, baseline, zt, m);
    }
    if r.Some? {
      var k :| 0 <= k < |METRICS| && FirstLargest(latest, baseline, zt, |METRICS|, k, r);
    }
  }

  lemma CandidateNames(latest: Bucket, baseline: seq<Bucket>, zt: real, m: Metric)
    ensures Candidate(latest, baseline, zt, m).Some? ==> Candidate(latest, baseline, zt, m).value.metric == m
  {
    hide MedianOf, MadOf, MetricValue, ModifiedZ, Abs;
  }

  /** A bucket fires unless every metric is faint or within the threshold of its median, and the result is the named
      metric's value, median, MAD and signed score. */
  lemma ScoreMeans(latest: Bucket, baseline: seq<Bucket>, zt: real, r: Option<MetricResult>)
    requires IsBest(latest, baseline, zt, |METRICS|, r)
    ensures r.None? <==> Silent(latest, baseline, zt)
    ensures r.Some? ==> Reports(r.value, latest, baseline)
  {
    NothingBestIff(latest, baseline, zt, r);
    hide Candidate, Within, Faint, Measures, IsBest, Silent, Reports;
    if baseline == [] {
      NoBaseline(latest, zt);
    } else {
      SilentIff(latest, baseline, zt);
      if r.Some? {
        CandidateReports(latest, baseline, zt, r.value.metric);
      }
    }
  }

  lemma SilentIff(latest: Bucket, baseline: seq<Bucket>, zt: real)
    requires baseline != []
    ensures Silent(latest, baseline, zt) <==>
              && Candidate(latest, baseline, zt, SwapCount).None?
              && Candidate(latest, baseline, zt, Vol0).None? && Candidate(latest, baseline, zt, Vol1).None?
              && Candidate(latest, baseline, zt, Netflow0).None? && Candidate(latest, baseline, zt, Netflow1).None?
  {
    hide Candidate, Samples, Within, Faint, Measures, SwapCounts, Vol0s, Vol1s, Netflow0s, Netflow1s;
    Columns(baseline);
    CandidateIff(latest, baseline, zt, SwapCount);
    CandidateIff(latest, baseline, zt, Vol0);
    CandidateIff(latest, baseline, zt, Vol1);
    CandidateIff(latest, baseline, zt, Netflow0);
    CandidateIff(latest, baseline, zt, Netflow1);
  }

  lemma CandidateReports(latest: Bucket, baseline: seq<Bucket>, zt: real, m: Metric)
    requires baseline != [] && Candidate(latest, baseline, zt, m).Some?
    ensures Reports(Candidate(latest, baseline, zt, m).value, latest, baseline)
  {
    hide Candidate, Samples, Within, Faint, Measures, SwapCounts, Vol0s, Vol1s, Netflow0s, Netflow1s;
    Columns(baseline);
    CandidateIff(latest, baseline, zt, m);
  }

  lemma NoBaseline(latest: Bucket, zt: real)
    ensures Silent(latest, [], zt) && forall m :: Candidate(latest, [], zt, m).None?
  {
  }

  method ScoreBucket(latest: Bucket, baseline: seq<Bucket>, zt: real) returns (best: Option<MetricResult>)
    ensures best == Score(latest, baseline, zt)
    ensures IsBest(latest, baseline, zt, |METRICS|, best)
    ensures best.None? <==> Silent(latest, baseline, zt)
    ensures best.Some? ==> Reports(best.value, latest, baseline)
  {
    hide Silent, Reports, IsBest, Candidate, Samples, MedianOf, MadOf, ModifiedZ, Abs, AbsFloorOK, Sort;
    best := None;
    for n := 0 to |METRICS|
      invariant best == BestOf(latest, baseline, zt, n)
    {
      var c := EvaluateMetric(latest, baseline, zt, METRICS[n]);
      if c.Some? && (best.None? || Abs(c.value.z) > Abs(best.value.z)) {
        best := c;
      }
    }
    BestIsFirstLargest(latest, baseline, zt, |METRICS|);
    ScoreMeans(latest, baseline, zt, best);
  }

  /** The body of the scoring loop. */
  method EvaluateMetric(latest: Bucket, baseline: seq<Bucket>, zt: real, m: Metric) returns (c: Option<MetricResult>)
    ensures c == Candidate(latest, baseline, zt, m)
  {
    hide MedianOf, MadOf, Sort;
    var v := MetricValue(latest, m);
    var sample: seq<real> := [];
    for i := 0 to |baseline|
      invariant |sample| == i && forall k | 0 <= k < i :: sample[k] == MetricValue(baseline[k], m)
    {
      sample := sample + [MetricValue(baseline[i], m)];
    }
    assert sample == Samples(baseline, m);
    if |sample| == 0 {
      return None;
    }
    var stats := MedianAndMAD(sample);
    var (median, mad) := stats.value;
    var z := ModifiedZ(v, median, mad);
    if Abs(z) < zt || !AbsFloorOK(m, v, median) {
      return None;
    }
    return Some(MetricResult(m, z, v, median, mad));
  }

  // ---------- Change of unit ----------

  /** The factor a metric picks up when token0 amounts are multiplied by c0 and token1 amounts by c1. */
  function Factor(m: Metric, c0: real, c1: real): real {
    match m
    case SwapCount => 1.0
    case Vol0 => c0
    case Netflow0 => c0
    case Vol1 => c1
    case Netflow1 => c1
  }

  function Scale(c: real, x: real): real {
    c * x
  }

  function Rescaled(b: Bucket, c0: real, c1: real): Bucket {
    Bucket(b.ts, b.swapCount, Scale(c0, b.vol0), Scale(c1, b.vol1), Scale(c0, b.netflow0), Scale(c1, b.netflow1))
  }

  function RescaledAll(bs: seq<Bucket>, c0: real, c1: real): seq<Bucket> {
    seq(|bs|, i requires 0 <= i < |bs| => Rescaled(bs[i], c0, c1))
  }

  function RescaledResult(r: Option<MetricResult>, c0: real, c1: real): Option<MetricResult> {
    if r.None? then None
    else
      var MetricResult(m, z, latest, median, mad) := r.value;
      var c := Factor(m, c0, c1);
      Some(MetricResult(m, z, Scale(c, latest), Scale(c, median), Scale(c, mad)))
  }

  lemma ValueScales(b: Bucket, c0: real, c1: real, m: Metric)
    ensures MetricValue(Rescaled(b, c0, c1), m) == Scale(Factor(m, c0, c1), MetricValue(b, m))
  {
  }

  lemma SamplesScale(bs: seq<Bucket>, c0: real, c1: real, m: Metric)
    ensures Samples(RescaledAll(bs, c0, c1), m) == Map(Times(Factor(m, c0, c1)), Samples(bs, m))
  {
    hide Map;
    var c := Factor(m, c0, c1);
    var a, b := Samples(RescaledAll(bs, c0, c1), m), Map(Times(c), Samples(bs, m));
    forall i | 0 <= i < |bs|
      ensures a[i] == b[i]
    {
      ValueScales(bs[i], c0, c1, m);
      TimesAt(c, Samples(bs, m), i);
    }
  }

  lemma FloorScales(m: Metric, c0: real, c1: real, latest: real, median: real, cl: real, cm: real)
    requires c0 > 0.0 && c1 > 0.0 && cl == Scale(Factor(m, c0, c1), latest) && cm == Scale(Factor(m, c0, c1), median)
    ensures AbsFloorOK(m, cl, cm) == AbsFloorOK(m, latest, median)
  {
    TimesIsOrdered(Factor(m, c0, c1), latest, 0.0);
    TimesIsOrdered(Factor(m, c0, c1), median, 0.0);
  }

  lemma BaselineScales(c: real, xs: seq<real>, other: seq<real>)
    requires c > 0.0 && xs != [] && other == Map(Times(c), xs)
    ensures other != [] && MedianOf(other) == Scale(c, MedianOf(xs)) && MadOf(other) == Scale(c, MadOf(xs))
  {
    hide MedianOf, MadOf, Map;
    StatsScale(c, xs);
  }

  lemma ScoreScales(c: real, v: real, median: real, mad: real)
    requires c > 0.0
    ensures ModifiedZ(Scale(c, v), Scale(c, median), Scale(c, mad)) == ModifiedZ(v, median, mad)
  {
  }

  lemma GateScales(m: Metric, v: real, median: real, mad: real, zt: real, c0: real, c1: real, cv: real, cm: real,
      cd: real)
    requires c0 > 0.0 && c1 > 0.0
    requires cv == Scale(Factor(m, c0, c1), v) && cm == Scale(Factor(m, c0, c1), median)
            && cd == Scale(Factor(m, c0, c1), mad)
    ensures Gate(m, cv, cm, cd, zt) == RescaledResult(Gate(m, v, median, mad, zt), c0, c1)
  {
    hide ModifiedZ, Abs, AbsFloorOK, Factor, Scale;
    FactorIsPositive(m, c0, c1);
    ScoreScales(Factor(m, c0, c1), v, median, mad);
    FloorScales(m, c0, c1, v, median, cv, cm);
  }

  lemma FactorIsPositive(m: Metric, c0: real, c1: real)
    requires c0 > 0.0 && c1 > 0.0
    ensures Factor(m, c0, c1) > 0.0
  {
  }

  lemma CandidateScales(latest: Bucket, baseline: seq<Bucket>, zt: real, c0: real, c1: real, m: Metric)
    requires c0 > 0.0 && c1 > 0.0
    ensures Candidate(Rescaled(latest, c0, c1), RescaledAll(baseline, c0, c1), zt, m)
         == RescaledResult(Candidate(latest, baseline, zt, m), c0, c1)
  {
    hide Samples, MedianOf, MadOf, Gate, Sort, Map, Rescaled, MetricValue, RescaledResult, Factor, Scale;
    FactorIsPositive(m, c0, c1);
    if baseline != [] {
      var c, xs, v := Factor(m, c0, c1), Samples(baseline, m), MetricValue(latest, m);
      var other := Samples(RescaledAll(baseline, c0, c1), m);
      SamplesAreAsMany(baseline, m);
      ValueScales(latest, c0, c1, m);
      SamplesScale(baseline, c0, c1, m);
      BaselineScales(c, xs, other);
      GateScales(m, v, MedianOf(xs), MadOf(xs), zt, c0, c1,
                 MetricValue(Rescaled(latest, c0, c1), m), MedianOf(other), MadOf(other));
      assert Candidate(latest, baseline, zt, m) == Gate(m, v, MedianOf(xs), MadOf(xs), zt);
    } else {
      NothingScales(c0, c1);
    }
  }

  lemma NothingScales(c0: real, c1: real)
    ensures RescaledResult(None, c0, c1) == None
  {
  }

  lemma SamplesAreAsMany(baseline: seq<Bucket>, m: Metric)
    ensures |Samples(baseline, m)| == |baseline|
  {
  }

  lemma {:induction false} BestScales(latest: Bucket, baseline: seq<Bucket>, zt: real, c0: real, c1: real, n: nat)
    requires c0 > 0.0 && c1 > 0.0 && n <= |METRICS|
    ensures BestOf(Rescaled(latest, c0, c1), RescaledAll(baseline, c0, c1), zt, n)
         == RescaledResult(BestOf(latest, baseline, zt, n), c0, c1)
  {
    hide Candidate, Rescaled, RescaledAll, Abs;
    if n > 0 {
      BestScales(latest, baseline, zt, c0, c1, n - 1);
      CandidateScales(latest, baseline, zt, c0, c1, METRICS[n - 1]);
    }
  }

  /** The decision does not depend on the unit either token is counted in: the same metric fires with the same z. */
  lemma ScoreIsUnitFree(latest: Bucket, baseline: seq<Bucket>, zt: real, c0: real, c1: real)
    requires c0 > 0.0 && c1 > 0.0
    ensures var r := Score(latest, baseline, zt);
            var t := Score(Rescaled(latest, c0, c1), RescaledAll(baseline, c0, c1), zt);
            t.Some? == r.Some? && (r.Some? ==> t.value.metric == r.value.metric && t.value.z == r.value.z)
  {
    BestScales(latest, baseline, zt, c0, c1, |METRICS|);
  }

  // ---------- Greedy selection under a cooldown ----------

  /** Bucket i comes too soon after a fire at j. */
  predicate Blocked(ts: seq<int>, cooldown: int, j: nat, i: nat)
    requires j < |ts| && i < |ts|
  {
    cooldown > 0 && ts[i] - ts[j] < cooldown
  }

  /** The indices that fire among the first n: each admissible one not blocked by the last fire before it. */
  function Greedy(adm: seq<bool>, ts: seq<int>, cooldown: int, n: nat): (r: seq<nat>)
    requires n <= |adm| == |ts|
    ensures forall k | 0 <= k < |r| :: r[k] < n
  {
    if n == 0 then []
    else
      var before := Greedy(adm, ts, cooldown, n - 1);
      if adm[n - 1] && (before == [] || !Blocked(ts, cooldown, before[|before| - 1], n - 1)) then before + [n - 1]
      else before
  }

  ghost predicate Increasing(s: seq<nat>) {
    forall a, b | 0 <= a < b < |s| :: s[a] < s[b]
  }

  ghost predicate AscendingTimes(ts: seq<int>) {
    forall i, j | 0 <= i < j < |ts| :: ts[i] <= ts[j]
  }

  /** s is a choice of admissible indices no one of which blocks a later one. */
  ghost predicate Separated(adm: seq<bool>, ts: seq<int>, cooldown: int, s: seq<nat>)
    requires |adm| == |ts|
  {
    && (forall k | 0 <= k < |s| :: s[k] < |ts| && adm[s[k]])
    && Increasing(s)
    && forall a, b | 0 <= a < b < |s| :: !Blocked(ts, cooldown, s[a], s[b])
  }

  /** An admissible index that did not fire comes within the cooldown after one that did. */
  ghost predicate Excused(adm: seq<bool>, ts: seq<int>, cooldown: int, fired: seq<nat>, i: nat)
    requires i < |adm| == |ts| && forall k | 0 <= k < |fired| :: fired[k] < |ts|
  {
    adm[i] ==> exists k | 0 <= k < |fired| :: fired[k] == i || (fired[k] < i && Blocked(ts, cooldown, fired[k], i))
  }

  lemma {:induction false} GreedyIsIncreasing(adm: seq<bool>, ts: seq<int>, cooldown: int, n: nat)
    requires n <= |adm| == |ts|
    ensures Increasing(Greedy(adm, ts, cooldown, n))
  {
    if n > 0 {
      GreedyIsIncreasing(adm, ts, cooldown, n - 1);
    }
  }

  lemma {:induction false} GreedyIsSeparated(adm: seq<bool>, ts: seq<int>, cooldown: int, n: nat)
    requires n <= |adm| == |ts| && AscendingTimes(ts)
    ensures Separated(adm, ts, cooldown, Greedy(adm, ts, cooldown, n))
  {
    if n > 0 {
      GreedyIsIncreasing(adm, ts, cooldown, n);
      GreedyIsSeparated(adm, ts, cooldown, n - 1);
      var before := Greedy(adm, ts, cooldown, n - 1);
      if |before| > 0 {
        LastBlocksMost(adm, ts, cooldown, before, n - 1);
      }
    }
  }

  /** Whatever an earlier fire blocks, the last one blocks. */
  lemma LastBlocksMost(adm: seq<bool>, ts: seq<int>, cooldown: int, s: seq<nat>, i: nat)
    requires |adm| == |ts| && Separated(adm, ts, cooldown, s) && s != [] && i < |ts| && AscendingTimes(ts)
    ensures !Blocked(ts, cooldown, s[|s| - 1], i) ==> forall a | 0 <= a < |s| :: !Blocked(ts, cooldown, s[a], i)
  {
  }

  lemma {:induction false} GreedyExcuses(adm: seq<bool>, ts: seq<int>, cooldown: int, n: nat, i: nat)
    requires i < n <= |adm| == |ts|
    ensures Excused(adm, ts, cooldown, Greedy(adm, ts, cooldown, n), i)
  {
    var before, fired := Greedy(adm, ts, cooldown, n - 1), Greedy(adm, ts, cooldown, n);
    if i < n - 1 {
      GreedyExcuses(adm, ts, cooldown, n - 1, i);
      if adm[i] {
        var k :| 0 <= k < |before| && (before[k] == i || (before[k] < i && Blocked(ts, cooldown, before[k], i)));
        assert fired[k] == before[k];
      }
    } else if adm[i] && fired == before {
      assert before[|before| - 1] < i;
    } else if adm[i] {
      assert fired[|fired| - 1] == i;
    }
  }

  /** Greedy stays ahead: its k-th choice exists and is no later than any other selection's. */
  lemma {:induction false} StaysAhead(adm: seq<bool>, ts: seq<int>, cooldown: int, s: seq<nat>, k: nat)
    requires |adm| == |ts| && AscendingTimes(ts) && Separated(adm, ts, cooldown, s) && k < |s|
    ensures var fired := Greedy(adm, ts, cooldown, |ts|); k < |fired| && fired[k] <= s[k]
  {
    hide Greedy;
    var fired, i := Greedy(adm, ts, cooldown, |ts|), s[k];
    GreedyIsIncreasing(adm, ts, cooldown, |ts|);
    GreedyExcuses(adm, ts, cooldown, |ts|, i);
    var m :| 0 <= m < |fired| && (fired[m] == i || (fired[m] < i && Blocked(ts, cooldown, fired[m], i)));
    if k > 0 {
      StaysAhead(adm, ts, cooldown, s, k - 1);
      assert s[k - 1] < i && !Blocked(ts, cooldown, s[k - 1], i);
      NotEarlier(ts, cooldown, fired, m, k - 1, s[k - 1], i);
    }
  }

  lemma NotEarlier(ts: seq<int>, cooldown: int, fired: seq<nat>, m: nat, p: nat, j: nat, i: nat)
    requires AscendingTimes(ts) && Increasing(fired) && m < |fired| && p < |fired|
    requires forall k | 0 <= k < |fired| :: fired[k] < |ts|
    requires fired[p] <= j < i < |ts| && !Blocked(ts, cooldown, j, i)
    requires fired[m] == i || (fired[m] < i && Blocked(ts, cooldown, fired[m], i))
    ensures p < m
  {
  }

  /** Greedy is optimal: no selection of admissible buckets a cooldown apart is larger. */
  lemma GreedyIsOptimal(adm: seq<bool>, ts: seq<int>, cooldown: int, s: seq<nat>)
    requires |adm| == |ts| && AscendingTimes(ts) && Separated(adm, ts, cooldown, s)
    ensures |s| <= |Greedy(adm, ts, cooldown, |ts|)|
  {
    if s != [] {
      StaysAhead(adm, ts, cooldown, s, |s| - 1);
    }
  }

  // ---------- Selecting over a history ----------

  /** The buckets a candidate at i is scored against. */
  function Window(buckets: seq<Bucket>, baselineN: nat, i: nat): seq<Bucket>
    requires i < |buckets|
  {
    buckets[if i > baselineN then i - baselineN else 0..i]
  }

  function StartTimes(buckets: seq<Bucket>): seq<int> {
    seq(|buckets|, i requires 0 <= i < |buckets| => buckets[i].ts)
  }

  predicate Admissible(buckets: seq<Bucket>, baselineN: nat, warmup: nat, zt: real, i: nat)
    requires i < |buckets|
  {
    |Window(buckets, baselineN, i)| >= warmup && Score(buckets[i], Window(buckets, baselineN, i), zt).Some?
  }

  function Admissibles(buckets: seq<Bucket>, baselineN: nat, warmup: nat, zt: real): seq<bool> {
    seq(|buckets|, i requires 0 <= i < |buckets| => Admissible(buckets, baselineN, warmup, zt, i))
  }

  lemma AdmissiblesAreAsMany(buckets: seq<Bucket>, baselineN: nat, warmup: nat, zt: real)
    ensures |Admissibles(buckets, baselineN, warmup, zt)| == |buckets|
  {
  }

  lemma AdmissibleAt(buckets: seq<Bucket>, baselineN: nat, warmup: nat, zt: real, i: nat)
    requires i < |buckets| && |Admissibles(buckets, baselineN, warmup, zt)| == |buckets|
    ensures Admissibles(buckets, baselineN, warmup, zt)[i]
         == (|Window(buckets, baselineN, i)| >= warmup && Score(buckets[i], Window(buckets, baselineN, i), zt).Some?)
  {
  }

  function Fired(buckets: seq<Bucket>, baselineN: nat, warmup: nat, zt: real, cooldown: int): (r: seq<nat>)
  {
    Greedy(Admissibles(buckets, baselineN, warmup, zt), StartTimes(buckets), cooldown, |buckets|)
  }

  function Warmup(baselineN: nat): nat {
    if baselineN / 4 < 12 then 12 else baselineN / 4
  }

  /** Nothing fires before the warmup. */
  lemma {:induction false} NothingEarly(buckets: seq<Bucket>, baselineN: nat, warmup: nat, zt: real, cooldown: int,
      n: nat)
    requires n <= warmup && n <= |buckets|
    ensures Greedy(Admissibles(buckets, baselineN, warmup, zt), StartTimes(buckets), cooldown, n) == []
  {
    hide Score;
    if n > 0 {
      NothingEarly(buckets, baselineN, warmup, zt, cooldown, n - 1);
      assert |Window(buckets, baselineN, n - 1)| < warmup;
    }
  }

  method SelectReplay(buckets: seq<Bucket>, baselineN: nat, warmup: nat, cooldown: int, zt: real)
    returns (fired: seq<nat>)
    ensures fired == Fired(buckets, baselineN, warmup, zt, cooldown)
  {
    hide Silent, Reports, Score, IsBest, Admissibles;
    AdmissiblesAreAsMany(buckets, baselineN, warmup, zt);
    fired := [];
    if |buckets| <= warmup {
      NothingEarly(buckets, baselineN, warmup, zt, cooldown, |buckets|);
      return;
    }
    ghost var adm, ts := Admissibles(buckets, baselineN, warmup, zt), StartTimes(buckets);
    NothingEarly(buckets, baselineN, warmup, zt, cooldown, warmup);
    var haveFire, lastFire := false, 0;
    for i := warmup to |buckets|
      invariant fired == Greedy(adm, ts, cooldown, i)
      invariant haveFire == (fired != []) && (haveFire ==> lastFire == ts[fired[|fired| - 1]])
    {
      var latest := buckets[i];
      var lo := if i > baselineN then i - baselineN else 0;
      var baseline := buckets[lo..i];
      assert baseline == Window(buckets, baselineN, i);
      AdmissibleAt(buckets, baselineN, warmup, zt, i);
      if |baseline| < warmup {
        continue;
      }
      var best := ScoreBucket(latest, baseline, zt);
      if best.None? {
        continue;
      }
      if haveFire && cooldown > 0 && latest.ts - lastFire < cooldown {
        continue;
      }
      fired := fired + [i];
      lastFire := latest.ts;
      haveFire := true;
    }
  }

  /** What a replay fires, over every history in time order: a selection of admissible buckets a cooldown apart;
      every other admissible bucket comes within the cooldown after a fired one; and no selection is larger. */
  lemma ReplayIsOptimal(buckets: seq<Bucket>, baselineN: nat, warmup: nat, zt: real, cooldown: int, s: seq<nat>)
    requires AscendingTimes(StartTimes(buckets))
    ensures var adm, ts := Admissibles(buckets, baselineN, warmup, zt), StartTimes(buckets);
            var fired := Fired(buckets, baselineN, warmup, zt, cooldown);
            && Separated(adm, ts, cooldown, fired)
            && (forall i | 0 <= i < |buckets| :: Excused(adm, ts, cooldown, fired, i))
            && (Separated(adm, ts, cooldown, s) ==> |s| <= |fired|)
  {
    hide Admissibles, Greedy, Separated, Excused;
    var adm, ts := Admissibles(buckets, baselineN, warmup, zt), StartTimes(buckets);
    AdmissiblesAreAsMany(buckets, baselineN, warmup, zt);
    GreedyIsSeparated(adm, ts, cooldown, |ts|);
    forall i | 0 <= i < |buckets|
      ensures Excused(adm, ts, cooldown, Fired(buckets, baselineN, warmup, zt, cooldown), i)
    {
      GreedyExcuses(adm, ts, cooldown, |ts|, i);
    }
    if Separated(adm, ts, cooldown, s) {
      GreedyIsOptimal(adm, ts, cooldown, s);
    }
  }

  /** The window of candidate i: the up to baselineN buckets just before it. */
  lemma WindowMeans(buckets: seq<Bucket>, baselineN: nat, i: nat)
    requires i < |buckets|
    ensures var w := Window(buckets, baselineN, i);
            && |w| == (if i < baselineN then i else baselineN)
            && forall k | 0 <= k < |w| :: w[k] == buckets[i - |w| + k]
  {
  }

  /** A quarter of the baseline, and at least 12. */
  lemma WarmupMeans(baselineN: nat)
    ensures if baselineN < 48 then Warmup(baselineN) == 12
            else 4 * Warmup(baselineN) <= baselineN < 4 * Warmup(baselineN) + 4
  {
  }

  /** A bucket that replay may fire: its window is long enough and something in it stands out. */
  ghost predicate Stands(buckets: seq<Bucket>, baselineN: nat, warmup: nat, zt: real, i: nat)
    requires i < |buckets|
  {
    (if i < baselineN then i else baselineN) >= warmup && !Silent(buckets[i], Window(buckets, baselineN, i), zt)
  }

  lemma StandsIff(buckets: seq<Bucket>, baselineN: nat, warmup: nat, zt: real, i: nat)
    requires i < |buckets|
    ensures Admissible(buckets, baselineN, warmup, zt, i) <==> Stands(buckets, baselineN, warmup, zt, i)
  {
    hide Silent, Reports, IsBest, BestOf;
    var w := Window(buckets, baselineN, i);
    BestIsFirstLargest(buckets[i], w, zt, |METRICS|);
    ScoreMeans(buckets[i], w, zt, Score(buckets[i], w, zt));
  }

  /** The same said of the history: every fired bucket stands out, fired ones start at least the cooldown apart, and
      a bucket that stands out but is not fired starts less than the cooldown after one that is. */
  lemma ReplayMeans(buckets: seq<Bucket>, baselineN: nat, warmup: nat, zt: real, cooldown: int)
    requires AscendingTimes(StartTimes(buckets))
    ensures var fired := Fired(buckets, baselineN, warmup, zt, cooldown);
            && (forall a | 0 <= a < |fired| ::
                  fired[a] < |buckets| && Stands(buckets, baselineN, warmup, zt, fired[a]))
            && (forall a, b | 0 <= a < b < |fired| ::
                  fired[a] < fired[b] && (cooldown > 0 ==> buckets[fired[b]].ts >= buckets[fired[a]].ts + cooldown))
            && (forall i: nat | i < |buckets| && Stands(buckets, baselineN, warmup, zt, i) && i !in fired ::
                  exists f <- fired :: f < i && buckets[i].ts < buckets[f].ts + cooldown)
  {
    hide Admissible, Stands, Greedy;
    var adm, ts := Admissibles(buckets, baselineN, warmup, zt), StartTimes(buckets);
    var fired := Fired(buckets, baselineN, warmup, zt, cooldown);
    GreedyIsSeparated(adm, ts, cooldown, |ts|);
    forall i: nat | i < |buckets|
      ensures adm[i] <==> Stands(buckets, baselineN, warmup, zt, i)
      ensures Excused(adm, ts, cooldown, fired, i)
    {
      StandsIff(buckets, baselineN, warmup, zt, i);
      GreedyExcuses(adm, ts, cooldown, |ts|, i);
    }
    forall i: nat | i < |buckets| && Stands(buckets, baselineN, warmup, zt, i) && i !in fired
      ensures exists f <- fired :: f < i && buckets[i].ts < buckets[f].ts + cooldown
    {
      var k :| 0 <= k < |fired| && (fired[k] == i || (fired[k] < i && Blocked(ts, cooldown, fired[k], i)));
      assert fired[k] in fired;
    }
  }

  /** A baseline shorter than the warmup silences replay whatever the history holds. */
  lemma ShortBaselineNeverFires(buckets: seq<Bucket>, baselineN: nat, zt: real, cooldown: int, n: nat)
    requires baselineN < 12 && n <= |buckets|
    ensures Greedy(Admissibles(buckets, baselineN, Warmup(baselineN), zt), StartTimes(buckets), cooldown, n) == []
  {
  }

  /** A history of n calm buckets, half at volume 1 and half at 3, and one at volume v. */
  function Spike(n: nat, v: real): seq<Bucket> {
    seq(n + 1, (i: nat) => Bucket(i, 1, if i == n then v else if i < n / 2 then 1.0 else 3.0, 0.0, 0.0, 0.0))
  }

  function Halves(n: nat): seq<real> {
    seq(n, (i: nat) => if i < n / 2 then 1.0 else 3.0)
  }

  lemma SortedStays(s: seq<real>)
    requires Sorted(s)
    ensures Sort(s) == s
  {
    SortIsSorted(s);
    SortedIsUnique(Sort(s), s);
  }

  lemma HalvesStats(n: nat)
    requires n >= 2 && n % 2 == 0
    ensures Halves(n) != [] && MedianOf(Halves(n)) == 2.0 && MadOf(Halves(n)) == 1.0
  {
    hide Sort, Map;
    var xs := Halves(n);
    SortedStays(xs);
    assert MedianOf(xs) == 2.0;
    var devs := Map(Distance(2.0), xs);
    forall i | 0 <= i < n
      ensures devs[i] == 1.0
    {
      DistanceAt(2.0, xs, i);
    }
    SortedStays(devs);
    assert MadOf(xs) == MedianOf(devs);
  }

  /** The z-score threshold is within reach of a large enough last bucket. */
  function LoudEnough(zt: real): real {
    2.0 + (if zt > 0.0 then zt else 0.0) / 0.6745
  }

  lemma SpikeScores(n: nat, baselineN: nat, zt: real)
    requires n >= 2 && n % 2 == 0 && n <= baselineN
    ensures var bs := Spike(n, LoudEnough(zt));
            Window(bs, baselineN, n) == bs[..n] && Score(bs[n], Window(bs, baselineN, n), zt).Some?
  {
    hide Sort, Map, MedianOf, MadOf, BestOf;
    var bs := Spike(n, LoudEnough(zt));
    var w := Window(bs, baselineN, n);
    assert w == bs[..n] && |w| == n;
    assert Samples(w, Vol0) == Halves(n);
    HalvesStats(n);
    var v, z := LoudEnough(zt), ModifiedZ(LoudEnough(zt), 2.0, 1.0);
    assert z == 0.6745 * (v - 2.0) && z >= zt && z >= 0.0;
    assert Candidate(bs[n], w, zt, METRICS[1]).Some?;
    BestIsFirstLargest(bs[n], w, zt, |METRICS|);
  }

  lemma SpikeFires(baselineN: nat, zt: real, cooldown: int) returns (bs: seq<Bucket>)
    requires baselineN >= 12
    ensures AscendingTimes(StartTimes(bs)) && Fired(bs, baselineN, Warmup(baselineN), zt, cooldown) != []
  {
    hide Score;
    var warmup := Warmup(baselineN);
    var n := warmup + warmup % 2;
    bs := Spike(n, LoudEnough(zt));
    SpikeScores(n, baselineN, zt);
    assert Admissibles(bs, baselineN, warmup, zt)[n];
    GreedyExcuses(Admissibles(bs, baselineN, warmup, zt), StartTimes(bs), cooldown, |bs|, n);
  }

  /** Replay can fire at all exactly with a baseline of at least 12: below, it is silent on every history;
      from there on, for every threshold and cooldown, some history fires. */
  lemma ReplayCanFireIff(baselineN: nat, zt: real, cooldown: int)
    ensures (exists bs :: AscendingTimes(StartTimes(bs)) && Fired(bs, baselineN, Warmup(baselineN), zt, cooldown) != [])
            <==> baselineN >= 12
  {
    hide Greedy, Warmup;
    if baselineN >= 12 {
      var bs := SpikeFires(baselineN, zt, cooldown);
    } else {
      forall bs
        ensures Fired(bs, baselineN, Warmup(baselineN), zt, cooldown) == []
      {
        ShortBaselineNeverFires(bs, baselineN, zt, cooldown, |bs|);
      }
    }
  }

  // ---------- Live scoring against replay ----------

  /** What the live detector does when bucket i is the newest: it reads the last baselineN + 1 buckets, asks for
      warmup of them counting the candidate, and scores the last against the rest. */
  function LiveScore(buckets: seq<Bucket>, baselineN: nat, warmup: nat, zt: real, i: nat): Option<MetricResult>
    requires i < |buckets|
  {
    var recent := buckets[if i > baselineN then i - baselineN else 0..i + 1];
    if |recent| < warmup then None else Score(recent[|recent| - 1], recent[..|recent| - 1], zt)
  }

  /** Live admits a bucket exactly when replay does, except where the window holds one sample less than the warmup
      and scores: there live fires and replay, which does not count the candidate, stays silent. */
  lemma LiveAgreesIff(buckets: seq<Bucket>, baselineN: nat, warmup: nat, zt: real, i: nat)
    requires i < |buckets|
    ensures var w := Window(buckets, baselineN, i);
            (LiveScore(buckets, baselineN, warmup, zt, i).Some? <==> Admissible(buckets, baselineN, warmup, zt, i))
            <==> !(|w| + 1 == warmup && Score(buckets[i], w, zt).Some?)
  {
    hide Score;
    var w := Window(buckets, baselineN, i);
    var recent := buckets[if i > baselineN then i - baselineN else 0..i + 1];
    assert recent[..|recent| - 1] == w && recent[|recent| - 1] == buckets[i];
  }

  // ---------- Replay ----------

  /** A flow signal as stored for one pool; metric and bucketTS are its unique key there. */
  datatype Signal = Signal(zscore: real, windowBuckets: nat, latest: real, median: real, mad: real)

  datatype Key = Key(metric: Metric, bucketTS: int)

  datatype Outcome = Emitted(signals: seq<Key>) | RescoreDisagreed

  type Table = map<Key, Signal>

  function Inserted(t: Table, k: Key, s: Signal): Table {
    if k in t then t else t[k := s]
  }

  /** The row replay writes for a fired index. */
  function RowOf(buckets: seq<Bucket>, baselineN: nat, zt: real, i: nat): (Key, Signal)
    requires i < |buckets| && Score(buckets[i], Window(buckets, baselineN, i), zt).Some?
  {
    var w := Window(buckets, baselineN, i);
    var r := Score(buckets[i], w, zt).value;
    (Key(r.metric, buckets[i].ts), Signal(r.z, |w|, r.latest, r.median, r.mad))
  }

  /** The row is the fired bucket's: its start, the metric that fired and that metric's numbers over the window. */
  lemma RowReports(buckets: seq<Bucket>, baselineN: nat, zt: real, i: nat)
    requires i < |buckets| && Score(buckets[i], Window(buckets, baselineN, i), zt).Some?
    ensures var (k, s) := RowOf(buckets, baselineN, zt, i);
            && k.bucketTS == buckets[i].ts && s.windowBuckets == (if i < baselineN then i else baselineN)
            && Reports(MetricResult(k.metric, s.zscore, s.latest, s.median, s.mad), buckets[i],
                       Window(buckets, baselineN, i))
  {
    hide Reports, BestOf, IsBest;
    var w := Window(buckets, baselineN, i);
    BestIsFirstLargest(buckets[i], w, zt, |METRICS|);
    ScoreMeans(buckets[i], w, zt, Score(buckets[i], w, zt));
  }

  function RowsOf(buckets: seq<Bucket>, baselineN: nat, zt: real, fired: seq<nat>): (r: seq<(Key, Signal)>)
    requires forall k | 0 <= k < |fired| ::
               fired[k] < |buckets| && Score(buckets[fired[k]], Window(buckets, baselineN, fired[k]), zt).Some?
  {
    seq(|fired|, k requires 0 <= k < |fired| => RowOf(buckets, baselineN, zt, fired[k]))
  }

  /** The table after inserting rows in order, skipping keys it holds, and the keys that were new. */
  function InsertAll(t: Table, rows: seq<(Key, Signal)>): (r: (Table, seq<Key>)) {
    if rows == [] then (t, [])
    else
      var before := InsertAll(t, rows[..|rows| - 1]);
      var (k, s) := rows[|rows| - 1];
      (Inserted(before.0, k, s), if k in before.0 then before.1 else before.1 + [k])
  }

  class SignalTable {
    var rows: Table

    method InsertSignal(k: Key, s: Signal) returns (inserted: bool)
      modifies this
      ensures rows == Inserted(old(rows), k, s) && inserted == (k !in old(rows))
    {
      inserted := k !in rows;
      if inserted {
        rows := rows[k := s];
      }
    }

    /** One pool's replay. The rescore never disagrees: it sees the window that admitted the index. */
    method ReplayPool(buckets: seq<Bucket>, baselineN: nat, cooldown: int, zt: real) returns (out: Outcome)
      modifies this
      ensures forall i <- Fired(buckets, baselineN, Warmup(baselineN), zt, cooldown) ::
                i < |buckets| && Score(buckets[i], Window(buckets, baselineN, i), zt).Some?
      ensures var fired := Fired(buckets, baselineN, Warmup(baselineN), zt, cooldown);
              var after := InsertAll(old(rows), RowsOf(buckets, baselineN, zt, fired));
              rows == after.0 && out == Emitted(after.1)
    {
      hide Score, Greedy, Admissibles, IsBest;
      var fired := SelectReplay(buckets, baselineN, Warmup(baselineN), cooldown, zt);
      FiredScore(buckets, baselineN, Warmup(baselineN), zt, cooldown);
      ghost var want := RowsOf(buckets, baselineN, zt, fired);
      var keys: seq<Key> := [];
      for n := 0 to |fired|
        invariant (rows, keys) == InsertAll(old(rows), want[..n])
      {
        var i := fired[n];
        var baseline := buckets[if i > baselineN then i - baselineN else 0..i];
        assert baseline == Window(buckets, baselineN, i);
        var best := ScoreBucket(buckets[i], baseline, zt);
        if best.None? {
          assert false;
          return RescoreDisagreed;
        }
        var r := best.value;
        assert want[..n + 1][..n] == want[..n] && want[..n + 1][n] == RowOf(buckets, baselineN, zt, i);
        var inserted := InsertSignal(Key(r.metric, buckets[i].ts), Signal(r.z, |baseline|, r.latest, r.median, r.mad));
        if inserted {
          keys := keys + [Key(r.metric, buckets[i].ts)];
        }
      }
      assert want[..|fired|] == want;
      return Emitted(keys);
    }
  }

  lemma FiredScore(buckets: seq<Bucket>, baselineN: nat, warmup: nat, zt: real, cooldown: int)
    ensures forall i <- Fired(buckets, baselineN, warmup, zt, cooldown) ::
              i < |buckets| && Score(buckets[i], Window(buckets, baselineN, i), zt).Some?
  {
    hide Score;
    GreedyIsAdmissible(Admissibles(buckets, baselineN, warmup, zt), StartTimes(buckets), cooldown, |buckets|);
  }

  lemma {:induction false} GreedyIsAdmissible(adm: seq<bool>, ts: seq<int>, cooldown: int, n: nat)
    requires n <= |adm| == |ts|
    ensures forall i <- Greedy(adm, ts, cooldown, n) :: i < n && adm[i]
  {
    if n > 0 {
      GreedyIsAdmissible(adm, ts, cooldown, n - 1);
    }
  }

  lemma {:induction false} InsertAllKeeps(t: Table, rows: seq<(Key, Signal)>)
    ensures forall k <- t :: k in InsertAll(t, rows).0 && InsertAll(t, rows).0[k] == t[k]
    ensures forall i | 0 <= i < |rows| :: rows[i].0 in InsertAll(t, rows).0
  {
    if rows != [] {
      InsertAllKeeps(t, rows[..|rows| - 1]);
      forall i | 0 <= i < |rows|
        ensures rows[i].0 in InsertAll(t, rows).0
      {
        assert i < |rows| - 1 ==> rows[i] == rows[..|rows| - 1][i];
      }
    }
  }

  lemma {:induction false} HeldRowsAreSkipped(t: Table, rows: seq<(Key, Signal)>)
    requires forall i | 0 <= i < |rows| :: rows[i].0 in t
    ensures InsertAll(t, rows) == (t, [])
  {
    if rows != [] {
      HeldRowsAreSkipped(t, rows[..|rows| - 1]);
      assert rows[|rows| - 1].0 in t;
    }
  }

  /** Running the same replay again writes nothing and emits nothing. */
  lemma ReplayIsIdempotent(t: Table, rows: seq<(Key, Signal)>)
    ensures InsertAll(InsertAll(t, rows).0, rows) == (InsertAll(t, rows).0, [])
  {
    InsertAllKeeps(t, rows);
    HeldRowsAreSkipped(InsertAll(t, rows).0, rows);
  }

  // ---------- Replay in other units ----------

  lemma WindowRescales(buckets: seq<Bucket>, c0: real, c1: real, baselineN: nat, i: nat)
    requires i < |buckets|
    ensures Window(RescaledAll(buckets, c0, c1), baselineN, i) == RescaledAll(Window(buckets, baselineN, i), c0, c1)
  {
  }

  /** A whole replay is unit-free: rescaling either token's amounts throughout the history fires the same buckets. */
  lemma ReplayIsUnitFree(buckets: seq<Bucket>, c0: real, c1: real, baselineN: nat, warmup: nat, zt: real, cooldown: int)
    requires c0 > 0.0 && c1 > 0.0
    ensures Fired(RescaledAll(buckets, c0, c1), baselineN, warmup, zt, cooldown)
         == Fired(buckets, baselineN, warmup, zt, cooldown)
  {
    hide Score, Window, Greedy;
    var other := RescaledAll(buckets, c0, c1);
    forall i | 0 <= i < |buckets|
      ensures Admissible(other, baselineN, warmup, zt, i) == Admissible(buckets, baselineN, warmup, zt, i)
    {
      WindowRescales(buckets, c0, c1, baselineN, i);
      ScoreIsUnitFree(buckets[i], Window(buckets, baselineN, i), zt, c0, c1);
    }
    assert Admissibles(other, baselineN, warmup, zt) == Admissibles(buckets, baselineN, warmup, zt);
    assert StartTimes(other) == StartTimes(buckets);
  }
}
