/** Median and median absolute deviation over reals (internal/detect/zscore.go). */
module RobustStats {
  import opened Common

  ghost predicate Sorted(s: seq<real>) {
    forall i, j | 0 <= i < j < |s| :: s[i] <= s[j]
  }

  // ---------- Sorting ----------

  function Insert(x: real, s: seq<real>): seq<real> {
    if s == [] || x <= s[0] then [x] + s else [s[0]] + Insert(x, s[1..])
  }

  /** The ascending order the library's sort produces. */
  function Sort(s: seq<real>): seq<real> {
    if s == [] then [] else Insert(s[0], Sort(s[1..]))
  }

  lemma {:induction false} InsertHolds(x: real, s: seq<real>)
    ensures multiset(Insert(x, s)) == multiset(s) + multiset{x} && |Insert(x, s)| == |s| + 1
  {
    if s != [] && x > s[0] {
      InsertHolds(x, s[1..]);
      assert s == [s[0]] + s[1..];
    }
  }

  lemma {:induction false} InsertIsSorted(x: real, s: seq<real>)
    requires Sorted(s)
    ensures Sorted(Insert(x, s)) && (Insert(x, s)[0] == x || (s != [] && Insert(x, s)[0] == s[0]))
  {
    if s != [] && x > s[0] {
      InsertIsSorted(x, s[1..]);
      SortedCons(s[0], Insert(x, s[1..]));
    } else {
      SortedCons(x, s);
    }
  }

  lemma SortedCons(x: real, s: seq<real>)
    requires Sorted(s) && (s == [] || x <= s[0])
    ensures Sorted([x] + s)
  {
  }

  lemma {:induction false} SortIsSorted(s: seq<real>)
    ensures Sorted(Sort(s)) && multiset(Sort(s)) == multiset(s) && |Sort(s)| == |s|
  {
    if s != [] {
      SortIsSorted(s[1..]);
      InsertIsSorted(s[0], Sort(s[1..]));
      InsertHolds(s[0], Sort(s[1..]));
      assert s == [s[0]] + s[1..];
      assert |multiset(Sort(s))| == |Sort(s)|;
    }
  }

  lemma FirstIsLeast(a: seq<real>, x: real)
    requires Sorted(a) && x in multiset(a)
    ensures a != [] && a[0] <= x
  {
  }

  lemma RestHolds(a: seq<real>)
    requires a != []
    ensures multiset(a[1..]) == multiset(a) - multiset{a[0]}
  {
    assert a == [a[0]] + a[1..];
  }

  /** Two lists in ascending order with the same contents start alike, and so do what follows. */
  lemma SameStart(a: seq<real>, b: seq<real>)
    requires Sorted(a) && Sorted(b) && multiset(a) == multiset(b) && a != [] && b != []
    ensures a[0] == b[0] && Sorted(a[1..]) && Sorted(b[1..]) && multiset(a[1..]) == multiset(b[1..])
  {
    assert a[0] in multiset(a) && b[0] in multiset(b);
    FirstIsLeast(a, b[0]);
    FirstIsLeast(b, a[0]);
    RestHolds(a);
    RestHolds(b);
  }

  /** There is one ascending order. */
  lemma {:induction false} SortedIsUnique(a: seq<real>, b: seq<real>)
    requires Sorted(a) && Sorted(b) && multiset(a) == multiset(b)
    ensures a == b
  {
    hide Sorted;
    assert |a| == |multiset(a)| == |multiset(b)| == |b|;
    if a != [] {
      SameStart(a, b);
      SortedIsUnique(a[1..], b[1..]);
      assert a == [a[0]] + a[1..] && b == [b[0]] + b[1..];
    }
  }

  lemma SortAnyOrder(a: seq<real>, b: seq<real>)
    requires multiset(a) == multiset(b)
    ensures Sort(a) == Sort(b)
  {
    SortIsSorted(a);
    SortIsSorted(b);
    SortedIsUnique(Sort(a), Sort(b));
  }

  // ---------- The two statistics ----------

  /** Of an already sorted slice. */
  function Median(sorted: seq<real>): real
    requires sorted != []
  {
    var n := |sorted|;
    if n % 2 == 1 then sorted[n / 2] else (sorted[n / 2 - 1] + sorted[n / 2]) / 2.0
  }

  function Abs(x: real): real {
    if x < 0.0 then -x else x
  }

  function Map(f: real -> real, s: seq<real>): (r: seq<real>)
    ensures |r| == |s| && forall i | 0 <= i < |s| :: r[i] == f(s[i])
  {
    if s == [] then [] else [f(s[0])] + Map(f, s[1..])
  }

  function Distance(m: real): real -> real {
    x => Abs(x - m)
  }

  function MedianOf(xs: seq<real>): real
    requires xs != []
  {
    SortIsSorted(xs);
    Median(Sort(xs))
  }

  /** The median distance from the median. */
  function MadOf(xs: seq<real>): real
    requires xs != []
  {
    MedianOf(Map(Distance(MedianOf(xs)), xs))
  }

  /** The middle of the samples in any ascending arrangement, or halfway between the two middle ones. */
  lemma MedianMeans(xs: seq<real>, s: seq<real>)
    requires xs != [] && Sorted(s) && multiset(s) == multiset(xs)
    ensures |s| == |xs|
    ensures MedianOf(xs) == if |xs| % 2 == 1 then s[|xs| / 2] else (s[|xs| / 2 - 1] + s[|xs| / 2]) / 2.0
  {
    hide Sort;
    SortIsSorted(xs);
    SortedIsUnique(Sort(xs), s);
  }

  /** The MAD is the median of how far each sample is, either way, from the median. */
  lemma MadMeans(xs: seq<real>, devs: seq<real>)
    requires xs != [] && |devs| == |xs|
    requires forall i | 0 <= i < |xs| ::
               devs[i] == if xs[i] < MedianOf(xs) then MedianOf(xs) - xs[i] else xs[i] - MedianOf(xs)
    ensures MadOf(xs) == MedianOf(devs)
  {
    hide MedianOf, Map;
    forall i | 0 <= i < |xs|
      ensures Map(Distance(MedianOf(xs)), xs)[i] == devs[i]
    {
      DistanceAt(MedianOf(xs), xs, i);
    }
    assert Map(Distance(MedianOf(xs)), xs) == devs;
  }

  /** None stands for the two NaNs of an empty slice. */
  method MedianAndMAD(xs: seq<real>) returns (r: Option<(real, real)>)
    ensures r == if xs == [] then None else Some((MedianOf(xs), MadOf(xs)))
  {
    if xs == [] {
      return None;
    }
    hide Sort, Map;
    SortIsSorted(xs);
    var sorted := Sort(xs);
    var median := Median(sorted);
    var deviations := new real[|sorted|];
    for i := 0 to |sorted|
      invariant forall k | 0 <= k < i :: deviations[k] == Abs(sorted[k] - median)
    {
      var v := sorted[i];
      deviations[i] := if v < median then median - v else v - median;
    }
    DeviationsAnyOrder(deviations[..], sorted, xs, median);
    return Some((median, Median(Sort(deviations[..]))));
  }

  lemma DeviationsAnyOrder(devs: seq<real>, sorted: seq<real>, xs: seq<real>, m: real)
    requires |devs| == |sorted| && forall k | 0 <= k < |devs| :: devs[k] == Abs(sorted[k] - m)
    requires multiset(sorted) == multiset(xs)
    ensures Sort(devs) == Sort(Map(Distance(m), xs)) && |Sort(devs)| == |xs|
  {
    hide Sort, Map;
    var t := Map(Distance(m), sorted);
    forall k | 0 <= k < |devs|
      ensures t[k] == devs[k]
    {
      DistanceAt(m, sorted, k);
    }
    assert devs == t;
    MapAnyOrder(Distance(m), sorted, xs);
    SortAnyOrder(devs, Map(Distance(m), xs));
    SortIsSorted(Map(Distance(m), xs));
  }

  /** 0.6745 times the distance from the median in MADs; 0 without spread. */
  function ModifiedZ(value: real, median: real, mad: real): real {
    if mad <= 0.0 then 0.0 else 0.6745 * (value - median) / mad
  }

  lemma MapConcat(f: real -> real, a: seq<real>, b: seq<real>)
    ensures Map(f, a + b) == Map(f, a) + Map(f, b)
  {
  }

  lemma DistanceAt(m: real, s: seq<real>, i: nat)
    requires i < |s|
    ensures Map(Distance(m), s)[i] == Abs(s[i] - m)
  {
  }

  lemma TimesAt(c: real, s: seq<real>, i: nat)
    requires i < |s|
    ensures Map(Times(c), s)[i] == c * s[i]
  {
  }

  lemma MapSplit(f: real -> real, s: seq<real>, j: nat)
    requires j < |s|
    ensures Map(f, s)[..j] == Map(f, s[..j]) && Map(f, s)[j + 1..] == Map(f, s[j + 1..])
  {
    hide Map;
  }

  lemma MapWithout(f: real -> real, s: seq<real>, j: nat)
    requires j < |s|
    ensures multiset(Map(f, s)) == multiset(Map(f, Without(s, j))) + multiset{f(s[j])}
  {
    hide Map;
    MapConcat(f, s[..j], s[j + 1..]);
    MapSplit(f, s, j);
    WithoutOne(Map(f, s), j);
  }

  lemma {:induction false} MapAnyOrder(f: real -> real, a: seq<real>, b: seq<real>)
    requires multiset(a) == multiset(b)
    ensures multiset(Map(f, a)) == multiset(Map(f, b))
    decreases |a|
  {
    hide Map;
    assert |a| == |multiset(a)| == |multiset(b)| == |b|;
    if a != [] {
      assert a[0] in multiset(b);
      var j :| 0 <= j < |b| && b[j] == a[0];
      WithoutOne(a, 0);
      WithoutOne(b, j);
      MapAnyOrder(f, Without(a, 0), Without(b, j));
      MapWithout(f, a, 0);
      MapWithout(f, b, j);
    } else {
      assert Map(f, a) == Map(f, b);
    }
  }

  /** Neither statistic depends on the order of the samples. */
  lemma StatsAnyOrder(a: seq<real>, b: seq<real>)
    requires a != [] && multiset(a) == multiset(b)
    ensures b != [] && MedianOf(a) == MedianOf(b) && MadOf(a) == MadOf(b)
  {
    assert |b| == |multiset(b)| == |multiset(a)|;
    SortAnyOrder(a, b);
    MapAnyOrder(Distance(MedianOf(a)), a, b);
    SortAnyOrder(Map(Distance(MedianOf(a)), a), Map(Distance(MedianOf(b)), b));
  }

  // ---------- The breakdown bound ----------

  /** How many samples satisfy p. */
  function Count(s: seq<real>, p: real -> bool): nat {
    if s == [] then 0 else (if p(s[0]) then 1 else 0) + Count(s[1..], p)
  }

  lemma {:induction false} CountConcat(a: seq<real>, b: seq<real>, p: real -> bool)
    ensures Count(a + b, p) == Count(a, p) + Count(b, p)
  {
    if a == [] {
      assert a + b == b;
    } else {
      assert (a + b)[1..] == a[1..] + b;
      CountConcat(a[1..], b, p);
    }
  }

  lemma CountWithout(s: seq<real>, j: nat, p: real -> bool)
    requires j < |s|
    ensures Count(s, p) == Count(Without(s, j), p) + if p(s[j]) then 1 else 0
  {
    hide Count;
    var c, d := s[..j], s[j + 1..];
    assert s == c + ([s[j]] + d);
    CountConcat(c, [s[j]] + d, p);
    CountConcat(c, d, p);
    CountFirst(s[j], d, p);
  }

  lemma CountFirst(x: real, s: seq<real>, p: real -> bool)
    ensures Count([x] + s, p) == Count(s, p) + if p(x) then 1 else 0
  {
    assert ([x] + s)[1..] == s;
  }

  lemma {:induction false} CountAnyOrder(a: seq<real>, b: seq<real>, p: real -> bool)
    requires multiset(a) == multiset(b)
    ensures Count(a, p) == Count(b, p)
    decreases |a|
  {
    hide Count;
    assert |a| == |multiset(a)| == |multiset(b)| == |b|;
    if a != [] {
      assert a[0] in multiset(b);
      var j :| 0 <= j < |b| && b[j] == a[0];
      WithoutOne(a, 0);
      WithoutOne(b, j);
      CountAnyOrder(Without(a, 0), Without(b, j), p);
      CountWithout(a, 0, p);
      CountWithout(b, j, p);
    }
  }

  lemma {:induction false} CountAll(s: seq<real>, p: real -> bool)
    requires forall i | 0 <= i < |s| :: p(s[i])
    ensures Count(s, p) == |s|
  {
    if s != [] {
      assert p(s[0]);
      CountAll(s[1..], p);
    }
  }

  function Above(hi: real): real -> bool {
    x => x > hi
  }

  function Below(lo: real): real -> bool {
    x => x < lo
  }

  /** In sorted samples, everything after a value above hi is above hi too; likewise below. */
  lemma TailsCount(s: seq<real>, k: nat, lo: real, hi: real)
    requires Sorted(s) && k < |s|
    ensures s[k] > hi ==> Count(s, Above(hi)) >= |s| - k
    ensures s[k] < lo ==> Count(s, Below(lo)) >= k + 1
  {
    assert s == s[..k] + s[k..] && s == s[..k + 1] + s[k + 1..];
    CountConcat(s[..k], s[k..], Above(hi));
    CountConcat(s[..k + 1], s[k + 1..], Below(lo));
    if s[k] > hi {
      CountAll(s[k..], Above(hi));
    }
    if s[k] < lo {
      CountAll(s[..k + 1], Below(lo));
    }
  }

  /** With more than half of the samples at most hi, so is the median; likewise from below. */
  lemma MedianWithin(xs: seq<real>, lo: real, hi: real)
    requires xs != []
    ensures 2 * Count(xs, Above(hi)) < |xs| ==> MedianOf(xs) <= hi
    ensures 2 * Count(xs, Below(lo)) < |xs| ==> MedianOf(xs) >= lo
  {
    hide Sort, Count, Above, Below;
    var s, n := Sort(xs), |xs|;
    SortIsSorted(xs);
    CountAnyOrder(s, xs, Above(hi));
    CountAnyOrder(s, xs, Below(lo));
    TailsCount(s, n / 2, lo, hi);
    if n % 2 == 0 {
      TailsCount(s, n / 2 - 1, lo, hi);
      assert s[n / 2 - 1] <= s[n / 2];
    }
  }

  /** How many samples differ between two lists of the same length. */
  function Changed(xs: seq<real>, ys: seq<real>): nat
    requires |xs| == |ys|
  {
    if xs == [] then 0 else (if xs[0] != ys[0] then 1 else 0) + Changed(xs[1..], ys[1..])
  }

  lemma {:induction false} CountAtMostChanged(xs: seq<real>, ys: seq<real>, f: real -> real, p: real -> bool)
    requires |xs| == |ys| && forall i | 0 <= i < |xs| && xs[i] == ys[i] :: !p(f(ys[i]))
    ensures Count(Map(f, ys), p) <= Changed(xs, ys)
  {
    if xs != [] {
      assert Map(f, ys)[1..] == Map(f, ys[1..]);
      CountAtMostChanged(xs[1..], ys[1..], f, p);
    }
  }

  /** Replacing fewer than half of the samples by arbitrary values leaves the median within the range of
      the untouched ones, and the MAD at most the width of that range. */
  lemma Breakdown(xs: seq<real>, ys: seq<real>, lo: real, hi: real)
    requires |xs| == |ys| && 2 * Changed(xs, ys) < |xs|
    requires forall i | 0 <= i < |xs| && xs[i] == ys[i] :: lo <= xs[i] <= hi
    ensures lo <= MedianOf(ys) <= hi && 0.0 <= MadOf(ys) <= hi - lo
  {
    var same: real -> real := x => x;
    assert Map(same, ys) == ys;
    CountAtMostChanged(xs, ys, same, Above(hi));
    CountAtMostChanged(xs, ys, same, Below(lo));
    MedianWithin(ys, lo, hi);
    DistancesWithin(xs, ys, lo, hi, MedianOf(ys));
  }

  lemma DistanceBetween(y: real, m: real, lo: real, hi: real)
    requires lo <= m <= hi && lo <= y <= hi
    ensures !Above(hi - lo)(Distance(m)(y))
  {
    assert Distance(m)(y) == Abs(y - m);
    assert Above(hi - lo)(Abs(y - m)) == (Abs(y - m) > hi - lo);
  }

  lemma NotBelow(x: real)
    ensures !Below(0.0)(Abs(x))
  {
  }

  lemma DistancesWithin(xs: seq<real>, ys: seq<real>, lo: real, hi: real, m: real)
    requires |xs| == |ys| && 2 * Changed(xs, ys) < |xs| && lo <= m <= hi
    requires forall i | 0 <= i < |xs| && xs[i] == ys[i] :: lo <= xs[i] <= hi
    ensures 0.0 <= MedianOf(Map(Distance(m), ys)) <= hi - lo
  {
    hide Map, Count, Changed, MedianOf;
    var devs := Map(Distance(m), ys);
    forall i | 0 <= i < |xs| && xs[i] == ys[i]
      ensures !Above(hi - lo)(Distance(m)(ys[i]))
    {
      hide *;
      DistanceBetween(ys[i], m, lo, hi);
    }
    CountAtMostChanged(xs, ys, Distance(m), Above(hi - lo));
    forall i | 0 <= i < |devs|
      ensures !Below(0.0)(devs[i])
    {
      DistanceAt(m, ys, i);
      NotBelow(ys[i] - m);
    }
    CountNone(devs, Below(0.0));
    MedianWithin(devs, 0.0, hi - lo);
  }

  lemma {:induction false} CountNone(s: seq<real>, p: real -> bool)
    requires forall i | 0 <= i < |s| :: !p(s[i])
    ensures Count(s, p) == 0
  {
    if s != [] {
      CountNone(s[1..], p);
    }
  }

  // ---------- Change of unit ----------

  function Times(c: real): real -> real {
    x => c * x
  }

  lemma TimesIsOrdered(c: real, x: real, y: real)
    requires c > 0.0
    ensures x <= y <==> c * x <= c * y
    ensures x > 0.0 <==> c * x > 0.0
  {
  }

  lemma SortScales(c: real, s: seq<real>)
    requires c > 0.0
    ensures Sort(Map(Times(c), s)) == Map(Times(c), Sort(s))
  {
    hide Sort, Map;
    SortIsSorted(s);
    SortIsSorted(Map(Times(c), s));
    MapAnyOrder(Times(c), Sort(s), s);
    ScaledIsSorted(c, Sort(s));
    SortedIsUnique(Sort(Map(Times(c), s)), Map(Times(c), Sort(s)));
  }

  lemma ScaledIsSorted(c: real, s: seq<real>)
    requires c > 0.0 && Sorted(s)
    ensures Sorted(Map(Times(c), s))
  {
    hide Map;
    var t := Map(Times(c), s);
    forall i, j | 0 <= i < j < |t|
      ensures t[i] <= t[j]
    {
      assert t[i] == Times(c)(s[i]) && t[j] == Times(c)(s[j]);
      TimesIsOrdered(c, s[i], s[j]);
    }
  }

  lemma MidScales(c: real, x: real, y: real)
    ensures (c * x + c * y) / 2.0 == c * ((x + y) / 2.0)
  {
  }

  lemma MedianScales(c: real, s: seq<real>)
    requires c > 0.0 && s != []
    ensures MedianOf(Map(Times(c), s)) == c * MedianOf(s)
  {
    hide Sort;
    SortScales(c, s);
    SortIsSorted(s);
    var t, n := Sort(s), |s|;
    assert forall i | 0 <= i < n :: Map(Times(c), t)[i] == c * t[i];
    if n % 2 == 0 {
      MidScales(c, t[n / 2 - 1], t[n / 2]);
    }
  }

  lemma DistanceScales(c: real, x: real, m: real)
    requires c > 0.0
    ensures Abs(c * x - c * m) == c * Abs(x - m)
  {
  }

  lemma DistancesScale(c: real, s: seq<real>, m: real)
    requires c > 0.0
    ensures Map(Distance(c * m), Map(Times(c), s)) == Map(Times(c), Map(Distance(m), s))
  {
    hide Map;
    var a, b := Map(Distance(c * m), Map(Times(c), s)), Map(Times(c), Map(Distance(m), s));
    forall i | 0 <= i < |s|
      ensures a[i] == b[i]
    {
      DistanceScales(c, s[i], m);
      TimesAt(c, s, i);
      DistanceAt(m, s, i);
      DistanceAt(c * m, Map(Times(c), s), i);
      TimesAt(c, Map(Distance(m), s), i);
    }
  }

  /** Rescaling the samples rescales both statistics. */
  lemma StatsScale(c: real, s: seq<real>)
    requires c > 0.0 && s != []
    ensures var t := Map(Times(c), s);
            t != [] && MedianOf(t) == c * MedianOf(s) && MadOf(t) == c * MadOf(s)
  {
    hide Map, MedianOf;
    var m, t := MedianOf(s), Map(Times(c), s);
    var devs, n := Map(Distance(m), s), MedianOf(t);
    MedianScales(c, s);
    assert n == c * m;
    DistancesScale(c, s, m);
    MedianScales(c, devs);
    assert Map(Distance(n), t) == Map(Times(c), devs);
    assert MadOf(t) == MedianOf(Map(Distance(n), t));
    assert MadOf(s) == MedianOf(devs);
  }

  /** And leaves the z-score alone. */
  lemma ZScales(c: real, value: real, median: real, mad: real, cvalue: real, cmedian: real, cmad: real)
    requires c > 0.0 && cvalue == c * value && cmedian == c * median && cmad == c * mad
    ensures ModifiedZ(cvalue, cmedian, cmad) == ModifiedZ(value, median, mad)
  {
  }
}
