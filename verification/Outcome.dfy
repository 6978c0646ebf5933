/** Grading a matured signal by what happened after it (internal/outcome/outcome.go). */
module Outcome {
  import opened Common
  import opened RobustStats
  import opened Detector

  const FT_TARGET := 2.0
  const ESC_TARGET := 3.0
  const DC_TARGET := 1.0

  const WEIGHT_FT := 0.40
  const WEIGHT_PER := 0.30
  const WEIGHT_ESC := 0.20
  const WEIGHT_DC := 0.10

  const MIN_PRE_BUCKETS := 3

  const GRADE_A := 85
  const GRADE_B := 70
  const GRADE_C := 55
  const GRADE_D := 40

  /** A signal's metric: one of the bucket metrics, a single large swap, or anything else. */
  datatype SignalMetric = Flow(metric: Metric) | WhaleSwap | Other

  datatype Facets = Facets(followThrough: real, escalation: real, persistence: real, direction: Option<real>)

  datatype Subs = Subs(ft: real, esc: real, per: real, dc: Option<real>)

  datatype Verdict = Verdict(subs: Subs, grade: int, letter: char, confirmed: bool)

  datatype Card = Card(preMedian: real, facets: Facets, verdict: Verdict)

  /** The non-negative bucket metric a signal is graded by; None when no bucket carries it. */
  function MeasuredMetric(m: SignalMetric): Option<Metric> {
    match m
    case Flow(Netflow0) => Some(Vol0)
    case Flow(Netflow1) => Some(Vol1)
    case Flow(x) => Some(x)
    case WhaleSwap => Some(Vol0)
    case Other => None
  }

  predicate IsNetflow(m: SignalMetric) {
    m == Flow(Netflow0) || m == Flow(Netflow1)
  }

  function Clamp(x: real): real {
    if x < 0.0 then 0.0 else if x > 100.0 then 100.0 else x
  }

  function Sum(s: seq<real>): real {
    if s == [] then 0.0 else Sum(s[..|s| - 1]) + s[|s| - 1]
  }

  function Larger(a: real, b: real): real {
    if b > a then b else a
  }

  function Largest(s: seq<real>): real
    requires s != []
  {
    if |s| == 1 then s[0] else Larger(Largest(s[..|s| - 1]), s[|s| - 1])
  }

  function AtLeast(s: seq<real>, m: real): (n: nat)
    ensures n <= |s|
  {
    if s == [] then 0 else AtLeast(s[..|s| - 1], m) + if s[|s| - 1] >= m then 1 else 0
  }

  function Mean(s: seq<real>): real
    requires s != []
  {
    Sum(s) / |s| as real
  }

  function Ratio(a: real, b: real): real
    requires b != 0.0
  {
    a / b
  }

  function FacetsOf(post: seq<real>, preMedian: real, direction: Option<real>): Facets
    requires post != [] && preMedian > 0.0
  {
    Facets(Ratio(Mean(post), preMedian), Ratio(Largest(post), preMedian),
           AtLeast(post, preMedian) as real / |post| as real, direction)
  }

  /** Mean flow after the signal against the flow it fired on, for net-flow signals with a non-zero one. */
  function DirectionOf(m: SignalMetric, latest: real, post: seq<Bucket>): Option<real>
    requires post != []
  {
    if !IsNetflow(m) || latest == 0.0 then None
    else
      SamplesAreAsMany(post, m.metric);
      Some(Ratio(Mean(Samples(post, m.metric)), latest))
  }

  /** Rounds half away from zero. */
  function Round(x: real): int {
    if x < 0.0 then 0 - (0.5 - x).Floor else (x + 0.5).Floor
  }

  /** Over the sub-scores there are: without a direction the other three weights are renormalised. */
  function WeightedMean(ft: real, per: real, esc: real, dc: Option<real>): real {
    var sum := ft * WEIGHT_FT + per * WEIGHT_PER + esc * WEIGHT_ESC + if dc.Some? then dc.value * WEIGHT_DC else 0.0;
    var total := WEIGHT_FT + WEIGHT_PER + WEIGHT_ESC + if dc.Some? then WEIGHT_DC else 0.0;
    sum / total
  }

  function Grade(mean: real): int {
    var g := Round(mean);
    if g < 0 then 0 else if g > 100 then 100 else g
  }

  function CompositeGrade(ft: real, per: real, esc: real, dc: Option<real>): int {
    Grade(WeightedMean(ft, per, esc, dc))
  }

  function LetterFor(grade: int): char {
    if grade >= GRADE_A then 'A'
    else if grade >= GRADE_B then 'B'
    else if grade >= GRADE_C then 'C'
    else if grade >= GRADE_D then 'D'
    else 'F'
  }

  function Percent(x: real): real {
    Clamp(x * 100.0)
  }

  function SubsOf(f: Facets): Subs {
    Subs(Percent((f.followThrough - 1.0) / (FT_TARGET - 1.0)),
         Percent((f.escalation - 1.0) / (ESC_TARGET - 1.0)),
         Percent(f.persistence),
         if f.direction.Some? then Some(Percent(f.direction.value / DC_TARGET)) else None)
  }

  function VerdictOf(f: Facets): Verdict {
    var s := SubsOf(f);
    var grade := CompositeGrade(s.ft, s.per, s.esc, s.dc);
    Verdict(s, grade, LetterFor(grade), grade >= GRADE_C)
  }

  /** None when there is not enough data to grade. latest is the payload's value, 0 when it has none. */
  function ScoreOutcome(m: SignalMetric, latest: real, pre: seq<Bucket>, post: seq<Bucket>): Option<Card> {
    if |pre| < MIN_PRE_BUCKETS || post == [] || MeasuredMetric(m).None? then None
    else CardOf(m, MeasuredMetric(m).value, latest, pre, post)
  }

  function CardOf(m: SignalMetric, mm: Metric, latest: real, pre: seq<Bucket>, post: seq<Bucket>): Option<Card>
    requires pre != [] && post != []
  {
    SamplesAreAsMany(pre, mm);
    SamplesAreAsMany(post, mm);
    var median := MedianOf(Samples(pre, mm));
    if median <= 0.0 then None
    else
      var f := FacetsOf(Samples(post, mm), median, DirectionOf(m, latest, post));
      Some(Card(median, f, VerdictOf(f)))
  }

  // ---------- The scorer ----------

  method Collect(bs: seq<Bucket>, m: Metric) returns (vals: seq<real>)
    ensures vals == Samples(bs, m)
  {
    vals := [];
    for i := 0 to |bs|
      invariant |vals| == i && forall k | 0 <= k < i :: vals[k] == MetricValue(bs[k], m)
    {
      vals := vals + [MetricValue(bs[i], m)];
    }
  }

  /** The post-window loop: sum, largest value, and how many reach the median. */
  method PostStats(post: seq<Bucket>, mm: Metric, median: real) returns (sum: real, largest: real, atOrAbove: nat)
    requires post != []
    ensures var vals := Samples(post, mm);
            vals != [] && sum == Sum(vals) && largest == Largest(vals) && atOrAbove == AtLeast(vals, median)
  {
    ghost var vals := Samples(post, mm);
    sum, largest, atOrAbove := 0.0, 0.0, 0;
    var haveMax := false;
    for i := 0 to |post|
      invariant sum == Sum(vals[..i]) && atOrAbove == AtLeast(vals[..i], median)
      invariant haveMax == (i > 0) && (i > 0 ==> largest == Largest(vals[..i]))
    {
      hide Samples;
      var v := MetricValue(post[i], mm);
      SampleAt(post, mm, i);
      assert vals[..i + 1][..i] == vals[..i];
      sum := sum + v;
      if !haveMax || v > largest {
        largest := v;
        haveMax := true;
      }
      if v >= median {
        atOrAbove := atOrAbove + 1;
      }
    }
    assert vals[..|post|] == vals;
  }

  lemma SampleAt(bs: seq<Bucket>, m: Metric, i: nat)
    requires i < |bs|
    ensures |Samples(bs, m)| == |bs| && Samples(bs, m)[i] == MetricValue(bs[i], m)
  {
  }

  method Score(m: SignalMetric, latest: real, pre: seq<Bucket>, post: seq<Bucket>) returns (card: Option<Card>)
    ensures card == ScoreOutcome(m, latest, pre, post)
  {
    hide Sum, Largest, AtLeast, MedianOf, MadOf, Samples, VerdictOf;
    if |pre| < MIN_PRE_BUCKETS || |post| == 0 || MeasuredMetric(m).None? {
      return None;
    }
    var mm := MeasuredMetric(m).value;
    SamplesAreAsMany(pre, mm);
    SamplesAreAsMany(post, mm);
    var preVals := Collect(pre, mm);
    var stats := MedianAndMAD(preVals);
    var preMedian := stats.value.0;
    if preMedian <= 0.0 {
      return None;
    }
    var sum, largest, atOrAbove := PostStats(post, mm, preMedian);
    var direction := None;
    if IsNetflow(m) && latest != 0.0 {
      SamplesAreAsMany(post, m.metric);
      var net, _, _ := PostStats(post, m.metric, preMedian);
      direction := Some(Ratio(net / |post| as real, latest));
    }
    var f := Facets(Ratio(sum / |post| as real, preMedian), Ratio(largest, preMedian),
                    atOrAbove as real / |post| as real, direction);
    return Some(Card(preMedian, f, VerdictOf(f)));
  }

  // ---------- Change of unit ----------

  lemma {:induction false} SumScales(c: real, s: seq<real>)
    ensures Sum(Map(Times(c), s)) == c * Sum(s)
  {
    hide Map;
    if s != [] {
      var t, n := Map(Times(c), s), |s| - 1;
      MapSplit(Times(c), s, n);
      TimesAt(c, s, n);
      SumScales(c, s[..n]);
      assert t[..n] == Map(Times(c), s[..n]);
    }
  }

  lemma ScaledAt(c: real, s: seq<real>, i: nat)
    requires i < |s|
    ensures Map(Times(c), s)[i] == Scale(c, s[i])
  {
  }

  lemma ScaleIsOrdered(c: real, a: real, b: real)
    requires c > 0.0
    ensures a <= b <==> Scale(c, a) <= Scale(c, b)
  {
  }

  lemma LargerScales(c: real, a: real, b: real)
    requires c > 0.0
    ensures Larger(Scale(c, a), Scale(c, b)) == Scale(c, Larger(a, b))
  {
  }

  lemma {:induction false} LargestScales(c: real, s: seq<real>)
    requires c > 0.0 && s != []
    ensures Largest(Map(Times(c), s)) == Scale(c, Largest(s))
  {
    hide Map, Larger, Scale;
    var t, n := Map(Times(c), s), |s| - 1;
    ScaledAt(c, s, n);
    if n > 0 {
      MapSplit(Times(c), s, n);
      LargestScales(c, s[..n]);
      assert t[..n] == Map(Times(c), s[..n]);
      LargerScales(c, Largest(s[..n]), s[n]);
    }
  }

  lemma {:induction false} AtLeastScales(c: real, s: seq<real>, m: real)
    requires c > 0.0
    ensures AtLeast(Map(Times(c), s), Scale(c, m)) == AtLeast(s, m)
  {
    hide Map, Scale;
    if s != [] {
      var t, n := Map(Times(c), s), |s| - 1;
      MapSplit(Times(c), s, n);
      ScaledAt(c, s, n);
      AtLeastScales(c, s[..n], m);
      assert t[..n] == Map(Times(c), s[..n]);
      ScaleIsOrdered(c, m, s[n]);
    }
  }

  lemma MeanScales(c: real, s: seq<real>)
    requires s != []
    ensures Map(Times(c), s) != [] && Mean(Map(Times(c), s)) == Scale(c, Mean(s))
  {
    hide Map, Sum;
    SumScales(c, s);
    var n := |s| as real;
    assert c * Sum(s) / n == c * (Sum(s) / n);
  }

  lemma RatioScales(c: real, a: real, b: real)
    requires c > 0.0 && b != 0.0
    ensures Scale(c, b) != 0.0 && Ratio(Scale(c, a), Scale(c, b)) == Ratio(a, b)
  {
  }

  lemma FacetsScale(c: real, post: seq<real>, median: real, direction: Option<real>)
    requires c > 0.0 && post != [] && median > 0.0
    ensures var t := Map(Times(c), post);
            t != [] && Scale(c, median) > 0.0
              && FacetsOf(t, Scale(c, median), direction) == FacetsOf(post, median, direction)
  {
    hide Map, Mean, Largest, AtLeast, Scale, Ratio;
    MeanScales(c, post);
    LargestScales(c, post);
    AtLeastScales(c, post, median);
    RatioScales(c, Mean(post), median);
    RatioScales(c, Largest(post), median);
    ScaleIsPositive(c, median);
  }

  lemma ScaleIsPositive(c: real, x: real)
    requires c > 0.0
    ensures Scale(c, x) > 0.0 <==> x > 0.0
    ensures Scale(c, x) == 0.0 <==> x == 0.0
  {
  }

  /** The factor for the payload's value; only net-flow signals read it. */
  function LatestFactor(m: SignalMetric, c0: real, c1: real): real {
    if m.Flow? then Factor(m.metric, c0, c1) else c0
  }

  lemma DirectionScales(m: SignalMetric, latest: real, post: seq<Bucket>, c0: real, c1: real)
    requires c0 > 0.0 && c1 > 0.0 && post != []
    ensures |RescaledAll(post, c0, c1)| == |post|
    ensures DirectionOf(m, Scale(LatestFactor(m, c0, c1), latest), RescaledAll(post, c0, c1))
            == DirectionOf(m, latest, post)
  {
    hide Mean, Ratio, Samples, Scale, Map, Factor;
    if m.Flow? {
      var c := Factor(m.metric, c0, c1);
      FactorIsPositive(m.metric, c0, c1);
      ScaleIsPositive(c, latest);
      SamplesAreAsMany(post, m.metric);
      SamplesScale(post, c0, c1, m.metric);
      MeanScales(c, Samples(post, m.metric));
      if latest != 0.0 {
        RatioScales(c, Mean(Samples(post, m.metric)), latest);
      }
    }
  }

  /** Counting either token in another unit changes neither whether a signal is graded nor its facets, sub-scores,
      grade, letter and status. */
  lemma OutcomeIsUnitFree(m: SignalMetric, latest: real, pre: seq<Bucket>, post: seq<Bucket>, c0: real, c1: real)
    requires c0 > 0.0 && c1 > 0.0
    ensures var a := ScoreOutcome(m, latest, pre, post);
            var b := ScoreOutcome(m, Scale(LatestFactor(m, c0, c1), latest), RescaledAll(pre, c0, c1),
                RescaledAll(post, c0, c1));
            a.Some? == b.Some? && (a.Some? ==> a.value.facets == b.value.facets && a.value.verdict == b.value.verdict)
  {
    hide FacetsOf, DirectionOf, VerdictOf, Samples, MedianOf, MadOf, Map, Scale, Factor;
    if |pre| >= MIN_PRE_BUCKETS && post != [] && MeasuredMetric(m).Some? {
      var mm := MeasuredMetric(m).value;
      var c, before, after := Factor(mm, c0, c1), Samples(pre, mm), Samples(post, mm);
      FactorIsPositive(mm, c0, c1);
      SamplesAreAsMany(pre, mm);
      SamplesAreAsMany(post, mm);
      SamplesScale(pre, c0, c1, mm);
      SamplesScale(post, c0, c1, mm);
      BaselineScales(c, before, Samples(RescaledAll(pre, c0, c1), mm));
      DirectionScales(m, latest, post, c0, c1);
      ScaleIsPositive(c, MedianOf(before));
      if MedianOf(before) > 0.0 {
        FacetsScale(c, after, MedianOf(before), DirectionOf(m, latest, post));
      }
    }
  }

  // ---------- What the facets and the grade say ----------

  lemma {:induction false} LargestReaches(s: seq<real>, m: real)
    requires s != []
    ensures Largest(s) >= m <==> AtLeast(s, m) > 0
  {
    var n := |s| - 1;
    if n > 0 {
      LargestReaches(s[..n], m);
    } else {
      assert s[..0] == [];
    }
  }

  lemma {:induction false} SumIsAtMost(s: seq<real>, big: real)
    requires s == [] || Largest(s) <= big
    ensures Sum(s) <= |s| as real * big
  {
    if s != [] {
      SumIsAtMost(s[..|s| - 1], big);
      OneMore(|s| - 1, big);
    }
  }

  lemma {:induction false} SumIsAtLeast(s: seq<real>, m: real)
    requires AtLeast(s, m) == |s|
    ensures Sum(s) >= |s| as real * m
  {
    if s != [] {
      SumIsAtLeast(s[..|s| - 1], m);
      OneMore(|s| - 1, m);
    }
  }

  lemma OneMore(n: nat, x: real)
    ensures (n + 1) as real * x == n as real * x + x
  {
  }

  lemma Divides(a: real, n: real, b: real)
    requires n > 0.0
    ensures a <= n * b <==> a / n <= b
    ensures a >= n * b <==> a / n >= b
  {
  }

  /** The facets agree with each other: the peak is at least the average; some window reached the baseline exactly
      when the peak did; and if all did, so did the average. */
  lemma FacetsAgree(post: seq<real>, median: real, direction: Option<real>)
    requires post != [] && median > 0.0
    ensures var f := FacetsOf(post, median, direction);
            && 0.0 <= f.persistence <= 1.0
            && f.followThrough <= f.escalation
            && (f.persistence > 0.0 <==> f.escalation >= 1.0)
            && (f.persistence == 1.0 ==> f.followThrough >= 1.0)
  {
    hide Sum, Largest, AtLeast;
    var n, k := |post| as real, AtLeast(post, median);
    LargestReaches(post, median);
    SumIsAtMost(post, Largest(post));
    if k == |post| {
      SumIsAtLeast(post, median);
    }
    Divides(Sum(post), n, Largest(post));
    Divides(Sum(post), n, median);
    Divides(k as real, n, 1.0);
    Divides(k as real, n, 0.0);
    Divides(Largest(post), median, 1.0);
    Divides(Mean(post), median, 1.0);
    Divides(Mean(post), median, Ratio(Largest(post), median));
  }

  lemma MeanIs(ft: real, per: real, esc: real, dc: Option<real>)
    ensures WeightedMean(ft, per, esc, dc)
         == if dc.Some? then 0.4 * ft + 0.3 * per + 0.2 * esc + 0.1 * dc.value
            else (4.0 * ft + 3.0 * per + 2.0 * esc) / 9.0
  {
  }

  lemma PercentIsInRange(x: real)
    ensures 0.0 <= Percent(x) <= 100.0
  {
  }

  lemma GradeIsNearest(mean: real)
    requires 0.0 <= mean <= 100.0
    ensures 0 <= Grade(mean) <= 100 && Grade(mean) as real - 0.5 <= mean < Grade(mean) as real + 0.5
    ensures Grade(mean) == Round(mean)
  {
  }

  /** The grade is the weighted mean of the sub-scores to the nearest integer, so the clamp after the rounding never
      acts; and a signal is confirmed exactly with a letter of C or better. */
  lemma GradeIsNearTheMean(f: Facets)
    ensures var v := VerdictOf(f);
            var s := v.subs;
            var mean := if s.dc.Some?
                        then 0.4 * s.ft + 0.3 * s.per + 0.2 * s.esc + 0.1 * s.dc.value
                        else (4.0 * s.ft + 3.0 * s.per + 2.0 * s.esc) / 9.0;
            && v.grade == Round(mean) && 0 <= v.grade <= 100
            && v.grade as real - 0.5 <= mean < v.grade as real + 0.5
            && (v.confirmed <==> v.letter in {'A', 'B', 'C'})
            && (v.letter == 'A' <==> v.grade >= 85) && (v.letter == 'B' <==> 70 <= v.grade < 85)
            && (v.letter == 'C' <==> 55 <= v.grade < 70) && (v.letter == 'D' <==> 40 <= v.grade < 55)
            && (v.letter == 'F' <==> v.grade < 40)
  {
    hide WeightedMean, Percent, Grade, Round;
    var s := SubsOf(f);
    MeanIs(s.ft, s.per, s.esc, s.dc);
    PercentIsInRange((f.followThrough - 1.0) / (FT_TARGET - 1.0));
    PercentIsInRange((f.escalation - 1.0) / (ESC_TARGET - 1.0));
    PercentIsInRange(f.persistence);
    if f.direction.Some? {
      PercentIsInRange(f.direction.value / DC_TARGET);
    }
    GradeIsNearest(WeightedMean(s.ft, s.per, s.esc, s.dc));
  }

  /** x as a percentage, kept between 0 and 100. */
  ghost predicate IsPercentOf(p: real, x: real) {
    p == if x <= 0.0 then 0.0 else if x >= 1.0 then 100.0 else 100.0 * x
  }

  /** The sub-scores: the mean from one to two baselines, the peak from one to three, the persistence and the direction
      as they are. */
  lemma SubsMean(f: Facets)
    ensures var s := SubsOf(f);
            && IsPercentOf(s.ft, f.followThrough - 1.0) && IsPercentOf(s.esc, (f.escalation - 1.0) / 2.0)
            && IsPercentOf(s.per, f.persistence) && s.dc.Some? == f.direction.Some?
            && (s.dc.Some? ==> IsPercentOf(s.dc.value, f.direction.value))
  {
  }

  lemma SubsKeepOrder(f: Facets, g: Facets)
    requires f.followThrough <= g.followThrough && f.escalation <= g.escalation && f.persistence <= g.persistence
    requires f.direction.Some? == g.direction.Some?
    requires f.direction.Some? ==> f.direction.value <= g.direction.value
    ensures var a, b := SubsOf(f), SubsOf(g);
            && a.ft <= b.ft && a.esc <= b.esc && a.per <= b.per && a.dc.Some? == b.dc.Some?
            && (a.dc.Some? ==> a.dc.value <= b.dc.value)
  {
  }

  lemma GradeKeepsOrder(x: real, y: real)
    requires x <= y
    ensures Grade(x) <= Grade(y)
  {
  }

  /** Raising any facet never lowers the grade. */
  lemma GradeIsMonotone(f: Facets, g: Facets)
    requires f.followThrough <= g.followThrough && f.escalation <= g.escalation && f.persistence <= g.persistence
    requires f.direction.Some? == g.direction.Some?
    requires f.direction.Some? ==> f.direction.value <= g.direction.value
    ensures VerdictOf(f).grade <= VerdictOf(g).grade
    ensures VerdictOf(f).confirmed ==> VerdictOf(g).confirmed
  {
    hide WeightedMean, SubsOf, Grade;
    var a, b := SubsOf(f), SubsOf(g);
    SubsKeepOrder(f, g);
    MeanIs(a.ft, a.per, a.esc, a.dc);
    MeanIs(b.ft, b.per, b.esc, b.dc);
    GradeKeepsOrder(WeightedMean(a.ft, a.per, a.esc, a.dc), WeightedMean(b.ft, b.per, b.esc, b.dc));
  }

  // ---------- The card, said of the buckets ----------

  /** What a signal is graded by: its own count or volume, the volume of its flow's token, or token0's volume. */
  ghost function Sizes(m: SignalMetric, bs: seq<Bucket>): (xs: seq<real>)
    requires !m.Other?
    ensures |xs| == |bs|
  {
    if m == Flow(SwapCount) then SwapCounts(bs)
    else if m == Flow(Vol1) || m == Flow(Netflow1) then Vol1s(bs)
    else Vol0s(bs)
  }

  lemma SizesAre(m: SignalMetric, bs: seq<Bucket>)
    requires !m.Other?
    ensures MeasuredMetric(m).Some? && Samples(bs, MeasuredMetric(m).value) == Sizes(m, bs)
  {
    Columns(bs);
  }

  /** A card is drawn up for a known metric, three windows before, one after and a positive baseline. */
  lemma GradedIff(m: SignalMetric, latest: real, pre: seq<Bucket>, post: seq<Bucket>)
    ensures ScoreOutcome(m, latest, pre, post).Some? <==>
              !m.Other? && |pre| >= 3 && post != [] && MedianOf(Sizes(m, pre)) > 0.0
  {
    hide Samples, MedianOf, VerdictOf, Sizes, FacetsOf, DirectionOf;
    if !m.Other? {
      SizesAre(m, pre);
    }
  }

  /** Where the values of xs reach m. */
  ghost function Reaching(xs: seq<real>, m: real): set<nat> {
    set i: nat | i < |xs| && xs[i] >= m
  }

  lemma {:induction false} AtLeastIsReaching(xs: seq<real>, m: real)
    ensures AtLeast(xs, m) == |Reaching(xs, m)|
  {
    if xs != [] {
      var n := |xs| - 1;
      AtLeastIsReaching(xs[..n], m);
      assert forall i: nat :: i in Reaching(xs[..n], m) <==> i in Reaching(xs, m) && i != n;
      assert Reaching(xs, m) == Reaching(xs[..n], m) + if xs[n] >= m then {n} else {};
    }
  }

  lemma {:induction false} LargestIs(xs: seq<real>)
    requires xs != []
    ensures Largest(xs) in xs && forall x <- xs :: x <= Largest(xs)
  {
    var n := |xs| - 1;
    if n > 0 {
      LargestIs(xs[..n]);
      assert xs == xs[..n] + [xs[n]];
    }
  }

  /** The mean, the largest value and how many reach the baseline, all against the baseline. */
  ghost predicate Compares(f: Facets, xs: seq<real>, base: real) {
    && f.followThrough * base * |xs| as real == Sum(xs)
    && (exists x <- xs :: x == f.escalation * base) && (forall x <- xs :: x <= f.escalation * base)
    && f.persistence * |xs| as real == |Reaching(xs, base)| as real
  }

  /** The facets of a card in terms of the windows: the mean, the peak and the share of windows that reach the baseline,
      and for a net flow that fired on something, the mean signed flow of that same token, over what it fired on. */
  lemma CardMeans(m: SignalMetric, latest: real, pre: seq<Bucket>, post: seq<Bucket>, card: Card)
    requires ScoreOutcome(m, latest, pre, post) == Some(card)
    ensures !m.Other? && post != []
    ensures var base, xs, n := MedianOf(Sizes(m, pre)), Sizes(m, post), |post| as real;
            var f := card.facets;
            && card.preMedian == base > 0.0 && card.verdict == VerdictOf(f) && Compares(f, xs, base)
            && (f.direction.Some? <==> (m == Flow(Netflow0) || m == Flow(Netflow1)) && latest != 0.0)
            && (f.direction.Some? && m == Flow(Netflow0) ==> f.direction.value * latest * n == Sum(Netflow0s(post)))
            && (f.direction.Some? && m == Flow(Netflow1) ==> f.direction.value * latest * n == Sum(Netflow1s(post)))
  {
    hide Samples, MedianOf, VerdictOf, Sizes, Sum, Reaching, FacetsOf, Compares;
    GradedIff(m, latest, pre, post);
    SizesAre(m, pre);
    SizesAre(m, post);
    FacetsMean(Sizes(m, post), MedianOf(Sizes(m, pre)), DirectionOf(m, latest, post));
    DirectionMeans(m, latest, post);
    assert card.facets == FacetsOf(Sizes(m, post), MedianOf(Sizes(m, pre)), DirectionOf(m, latest, post));
  }

  lemma FacetsMean(xs: seq<real>, base: real, direction: Option<real>)
    requires xs != [] && base > 0.0
    ensures Compares(FacetsOf(xs, base, direction), xs, base) && FacetsOf(xs, base, direction).direction == direction
  {
    hide Sum, Largest, AtLeast, Reaching;
    AtLeastIsReaching(xs, base);
    LargestIs(xs);
    QuotientIs(Largest(xs), base);
    MeanOver(xs, base);
    QuotientIs(|Reaching(xs, base)| as real, |xs| as real);
    var f := FacetsOf(xs, base, direction);
    assert f.escalation * base == Largest(xs) && f.followThrough * base * |xs| as real == Sum(xs);
    assert f.persistence * |xs| as real == |Reaching(xs, base)| as real;
  }

  lemma DirectionMeans(m: SignalMetric, latest: real, post: seq<Bucket>)
    requires post != []
    ensures var d, n := DirectionOf(m, latest, post), |post| as real;
            && (d.Some? <==> (m == Flow(Netflow0) || m == Flow(Netflow1)) && latest != 0.0)
            && (d.Some? && m == Flow(Netflow0) ==> d.value * latest * n == Sum(Netflow0s(post)))
            && (d.Some? && m == Flow(Netflow1) ==> d.value * latest * n == Sum(Netflow1s(post)))
  {
    Columns(post);
    hide Samples, Sum, Mean;
    if IsNetflow(m) && latest != 0.0 {
      SamplesAreAsMany(post, m.metric);
      MeanOver(Samples(post, m.metric), latest);
    }
  }

  lemma QuotientIs(a: real, b: real)
    requires b != 0.0
    ensures a / b * b == a
  {
  }

  lemma MeanOver(xs: seq<real>, b: real)
    requires xs != [] && b != 0.0
    ensures Ratio(Mean(xs), b) * b * |xs| as real == Sum(xs)
  {
    hide Sum;
    QuotientIs(Mean(xs), b);
    QuotientIs(Sum(xs), |xs| as real);
  }
}
