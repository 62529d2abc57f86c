/** Compound growth of the band boundaries from the first to the last year,
    and the projection of the bands two years ahead. */
module Projection {
  import opened Wrappers
  import opened Bands
  import opened Penetration

  /** x to the power n. */
  function Pow(x: real, n: nat): real {
    if n == 0 then 1.0 else x * Pow(x, n - 1)
  }

  /** Python's `x ** (1 / k)` is a real number when the exponent is 1.0
      (k == 1) or the base is not negative; otherwise it is complex. */
  predicate HasRealRoot(x: real, k: nat) {
    k == 1 || x >= 0.0
  }

  /** `root` is the value Python computes for `x ** (1 / k)`: the k-th root
      of x, and the non-negative one when k > 1. */
  ghost predicate IsPrincipalRoot(root: real, x: real, k: nat) {
    k >= 1 && Pow(root, k) == x && (k == 1 || root >= 0.0)
  }

  /** The last value of a series over its first. */
  function Ratio(series: seq<real>): real
    requires |series| >= 1 && series[0] != 0.0
  {
    series[|series| - 1] / series[0]
  }

  /** The first and last value being equal, a series with a non-zero start
      has ratio 1. */
  lemma RatioOfEqualEnds(series: seq<real>)
    requires |series| >= 1 && series[0] != 0.0 && series[0] == series[|series| - 1]
    ensures Ratio(series) == 1.0
  {
    var a := series[0];
    assert Ratio(series) == a / a;
  }

  /** A root requirement the caller meets for one series: wherever Python
      would compute a real root of last/first over n - 1 periods, `factor`
      is that root. */
  ghost predicate FactorFor(series: seq<real>, factor: real) {
    |series| >= 2 &&
    (series[0] != 0.0 && HasRealRoot(Ratio(series), |series| - 1) ==>
       IsPrincipalRoot(factor, Ratio(series), |series| - 1))
  }

  /** The average yearly growth of a series, from its first and last values
      only: `(last / first) ** (1 / (n - 1)) - 1`. The root is supplied as
      `factor`. A zero first value is the division by zero the source raises
      on; a negative ratio under a root of degree 2 or more has no real value. */
  function GrowthRate(series: seq<real>, factor: real): (g: Result<real, EngineError>)
    requires FactorFor(series, factor)
    ensures series[0] == 0.0 <==> g == Failure(ZeroFirstValue)
    ensures g.Success? <==> series[0] != 0.0 && HasRealRoot(Ratio(series), |series| - 1)
    ensures g.Failure? ==> g.error == ZeroFirstValue || g.error == NonRealRoot
  {
    if series[0] == 0.0 then
      Failure(ZeroFirstValue)
    else if !HasRealRoot(Ratio(series), |series| - 1) then
      Failure(NonRealRoot)
    else
      Success(factor - 1.0)
  }

  /** Starting from the first value, growing at rate g for every period of
      the series ends at its last value. */
  ghost predicate Compounds(series: seq<real>, g: real) {
    |series| >= 1 && series[0] * Pow(1.0 + g, |series| - 1) == series[|series| - 1]
  }

  /** What a growth rate means: compounded over the n - 1 periods it leads
      from the first value to the last. */
  lemma GrowthRateCompounds(series: seq<real>, factor: real)
    requires FactorFor(series, factor) && GrowthRate(series, factor).Success?
    ensures Compounds(series, GrowthRate(series, factor).value)
  {
  }

  /** With two years the growth rate is exactly last / first - 1, and a
      series that ends where it started has not grown. */
  lemma GrowthRateSpecialCases(series: seq<real>, factor: real)
    requires FactorFor(series, factor) && GrowthRate(series, factor).Success?
    ensures var g := GrowthRate(series, factor).value;
            && (|series| == 2 ==> g == series[1] / series[0] - 1.0)
            && (series[0] == series[|series| - 1] ==> g == 0.0)
  {
    var k := |series| - 1;
    assert k == 1 ==> factor == Ratio(series) by {
      if k == 1 { assert Pow(factor, 1) == factor; }
    }
    assert series[0] == series[k] ==> factor == 1.0 by {
      if series[0] == series[k] {
        RatioOfEqualEnds(series);
        if k > 1 {
          UnitRootIsOne(factor, k);
        } else {
          assert Pow(factor, 1) == factor;
        }
      }
    }
  }

  /** A power of a number above 1 is above 1. */
  lemma {:induction false} PowAboveOne(x: real, k: nat)
    requires x > 1.0 && k >= 1
    ensures Pow(x, k) > 1.0
  {
    if k > 1 {
      PowAboveOne(x, k - 1);
      assert x * Pow(x, k - 1) > 1.0 * Pow(x, k - 1);
    }
  }

  /** A power of a number in [0, 1) is below 1. */
  lemma {:induction false} PowBelowOne(x: real, k: nat)
    requires 0.0 <= x < 1.0 && k >= 1
    ensures 0.0 <= Pow(x, k) < 1.0
  {
    if k > 1 {
      PowBelowOne(x, k - 1);
      assert x * Pow(x, k - 1) <= 1.0 * Pow(x, k - 1);
      assert x * Pow(x, k - 1) >= 0.0;
    }
  }

  /** The only non-negative k-th root of 1 is 1. */
  lemma UnitRootIsOne(x: real, k: nat)
    requires x >= 0.0 && k >= 1 && Pow(x, k) == 1.0
    ensures x == 1.0
  {
    if x > 1.0 {
      PowAboveOne(x, k);
    } else if x < 1.0 {
      PowBelowOne(x, k);
    }
  }

  /** The largest value of a non-empty sequence of years. */
  function SeqMax(s: seq<int>): (m: int)
    requires |s| >= 1
    ensures m in s
    ensures forall k :: 0 <= k < |s| ==> s[k] <= m
  {
    if |s| == 1 then s[0]
    else
      var rest := SeqMax(s[1..]);
      assert forall k :: 1 <= k < |s| ==> s[k] == s[1..][k - 1];
      if s[0] >= rest then s[0] else rest
  }

  /** The two years after the latest year: `max(years) + 1` and `+ 2`. */
  function FutureYears(years: seq<int>): (f: seq<int>)
    requires |years| >= 1
    ensures |f| == 2 && f[1] == f[0] + 1
    ensures forall k :: 0 <= k < |years| ==> years[k] < f[0]
    ensures f[0] - 1 in years
  {
    var m := SeqMax(years);
    [m + 1, m + 2]
  }

  /** The two projected values of a series: its last value grown at rate g
      for one and for two years. */
  function ProjectSeries(last: real, g: real): (p: seq<real>)
    ensures |p| == 2
    ensures p[0] == last * (1.0 + g)
    ensures p[1] == p[0] * (1.0 + g)
  {
    assert Pow(1.0 + g, 1) == 1.0 + g;
    assert Pow(1.0 + g, 2) == (1.0 + g) * (1.0 + g);
    [last * Pow(1.0 + g, 1), last * Pow(1.0 + g, 2)]
  }

  /** Python's `zip` of two band-boundary lists into the adjusted salaries
      at one rate; it stops at the shorter list. */
  function ZipAdjusted(los: seq<real>, his: seq<real>, rate: real): (r: seq<real>)
    ensures |r| == if |los| < |his| then |los| else |his|
    ensures forall i :: 0 <= i < |r| ==> r[i] == Adjusted(los[i], his[i], rate)
  {
    if los == [] || his == [] then []
    else [Adjusted(los[0], his[0], rate)] + ZipAdjusted(los[1..], his[1..], rate)
  }

  function Years(ranges: seq<YearRange>): (s: seq<int>)
    ensures |s| == |ranges| && forall i :: 0 <= i < |s| ==> s[i] == ranges[i].year
  {
    seq(|ranges|, i requires 0 <= i < |ranges| => ranges[i].year)
  }

  function Mins(ranges: seq<YearRange>): (s: seq<real>)
    ensures |s| == |ranges| && forall i :: 0 <= i < |s| ==> s[i] == ranges[i].min
  {
    seq(|ranges|, i requires 0 <= i < |ranges| => ranges[i].min)
  }

  function Maxs(ranges: seq<YearRange>): (s: seq<real>)
    ensures |s| == |ranges| && forall i :: 0 <= i < |s| ==> s[i] == ranges[i].max
  {
    seq(|ranges|, i requires 0 <= i < |ranges| => ranges[i].max)
  }

  function Medians(ranges: seq<YearRange>): (s: seq<real>)
    ensures |s| == |ranges| && forall i :: 0 <= i < |s| ==> s[i] == ranges[i].median
  {
    seq(|ranges|, i requires 0 <= i < |ranges| => ranges[i].median)
  }

  /** The result of a projection: the three growth rates, the per-year
      penetration rates, the two future years with their projected bands and
      adjusted salaries, and the historical series followed by the projected
      ones. */
  datatype Projection = Projection(
    minGrowth: real, maxGrowth: real, medianGrowth: real,
    penetrationRates: seq<real>,
    futureYears: seq<int>,
    projectedMin: seq<real>, projectedMax: seq<real>, projectedMedian: seq<real>,
    projectedAdjusted: seq<real>,
    allYears: seq<int>,
    allMin: seq<real>, allMax: seq<real>, allMedian: seq<real>,
    allAdjusted: seq<real>)

  /** With fewer than two years there is no trend to project. */
  datatype Trend = InsufficientData | Projected(projection: Projection)

  /** Every series of the records has a usable growth rate and every band a
      non-zero width, so that the projection completes. */
  predicate Projectable(ranges: seq<YearRange>)
    requires |ranges| >= 2
  {
    && Mins(ranges)[0] != 0.0 && HasRealRoot(Ratio(Mins(ranges)), |ranges| - 1)
    && Maxs(ranges)[0] != 0.0 && HasRealRoot(Ratio(Maxs(ranges)), |ranges| - 1)
    && Medians(ranges)[0] != 0.0 && HasRealRoot(Ratio(Medians(ranges)), |ranges| - 1)
    && forall i :: 0 <= i < |ranges| ==> ranges[i].max != ranges[i].min
  }

  /** The growth rates lead from the first year's boundaries to the last
      year's. */
  ghost predicate GrowthLeadsToLast(ranges: seq<YearRange>, p: Projection) {
    && Compounds(Mins(ranges), p.minGrowth)
    && Compounds(Maxs(ranges), p.maxGrowth)
    && Compounds(Medians(ranges), p.medianGrowth)
  }

  /** One penetration rate per historical year, each of its own salary. */
  ghost predicate RatesPerYear(ranges: seq<YearRange>, p: Projection) {
    |p.penetrationRates| == |ranges|
    && forall i :: 0 <= i < |ranges| ==> BandRate(ranges[i]) == Success(p.penetrationRates[i])
  }

  /** Exactly two future years, right after the latest one. */
  ghost predicate TwoFollowingYears(ranges: seq<YearRange>, p: Projection) {
    && |p.futureYears| == 2 && p.futureYears[1] == p.futureYears[0] + 1
    && (forall i :: 0 <= i < |ranges| ==> ranges[i].year < p.futureYears[0])
    && p.futureYears[0] - 1 in Years(ranges)
  }

  /** A projected series holds the last value grown for one and for two
      years. */
  ghost predicate CompoundsFrom(projected: seq<real>, last: real, g: real) {
    |projected| == 2
    && forall i :: 0 <= i < 2 ==> projected[i] == last * Pow(1.0 + g, i + 1)
  }

  /** Projected boundaries compound from the last year, and the projected
      salaries keep the base year's relative position. */
  ghost predicate CompoundsFromLast(ranges: seq<YearRange>, rate: real, p: Projection)
    requires |ranges| >= 2
  {
    var last := ranges[|ranges| - 1];
    && CompoundsFrom(p.projectedMin, last.min, p.minGrowth)
    && CompoundsFrom(p.projectedMax, last.max, p.maxGrowth)
    && CompoundsFrom(p.projectedMedian, last.median, p.medianGrowth)
    && |p.projectedAdjusted| == 2
    && (forall i :: 0 <= i < 2 ==>
          p.projectedAdjusted[i] == Adjusted(p.projectedMin[i], p.projectedMax[i], rate))
  }

  /** The combined series are the unchanged history followed by the
      projection, two entries longer. */
  ghost predicate HistoryThenProjection(ranges: seq<YearRange>, adjusted: seq<real>, p: Projection) {
    && p.allYears == Years(ranges) + p.futureYears
    && p.allMin == Mins(ranges) + p.projectedMin
    && p.allMax == Maxs(ranges) + p.projectedMax
    && p.allMedian == Medians(ranges) + p.projectedMedian
    && p.allAdjusted == adjusted + p.projectedAdjusted
  }

  /** What a completed projection states about the records it came from,
      the base year's rate and the adjusted salaries. */
  ghost predicate IsProjectionOf(ranges: seq<YearRange>, rate: real, adjusted: seq<real>, p: Projection) {
    && |ranges| >= 2
    && GrowthLeadsToLast(ranges, p)
    && RatesPerYear(ranges, p)
    && TwoFollowingYears(ranges, p)
    && CompoundsFromLast(ranges, rate, p)
    && HistoryThenProjection(ranges, adjusted, p)
  }

  /** The combined series of a projection are two entries longer than the
      historical ones. */
  lemma ProjectionLengths(ranges: seq<YearRange>, rate: real, adjusted: seq<real>, p: Projection)
    requires IsProjectionOf(ranges, rate, adjusted, p)
    ensures |p.allYears| == |p.allMin| == |p.allMax| == |p.allMedian| == |ranges| + 2
    ensures |p.allAdjusted| == |adjusted| + 2
    ensures p.allMin[..|ranges|] == Mins(ranges) && p.allAdjusted[..|adjusted|] == adjusted
  {
  }

  /** The projection assembled from the growth rates and per-year rates. */
  function Project(ranges: seq<YearRange>, rate: real, adjusted: seq<real>,
                   gMin: real, gMax: real, gMedian: real, rates: seq<real>): Projection
    requires |ranges| >= 2
  {
    var n := |ranges|;
    var futureYears := FutureYears(Years(ranges));
    var projectedMin := ProjectSeries(ranges[n - 1].min, gMin);
    var projectedMax := ProjectSeries(ranges[n - 1].max, gMax);
    var projectedMedian := ProjectSeries(ranges[n - 1].median, gMedian);
    var projectedAdjusted := ZipAdjusted(projectedMin, projectedMax, rate);
    Projection(
      gMin, gMax, gMedian, rates, futureYears,
      projectedMin, projectedMax, projectedMedian, projectedAdjusted,
      Years(ranges) + futureYears,
      Mins(ranges) + projectedMin, Maxs(ranges) + projectedMax, Medians(ranges) + projectedMedian,
      adjusted + projectedAdjusted)
  }

  /** The assembled projection keeps the growth rates it was given. */
  lemma ProjectGrowth(ranges: seq<YearRange>, rate: real, adjusted: seq<real>,
                      gMin: real, gMax: real, gMedian: real, rates: seq<real>)
    requires |ranges| >= 2
    requires Compounds(Mins(ranges), gMin) && Compounds(Maxs(ranges), gMax)
    requires Compounds(Medians(ranges), gMedian)
    ensures GrowthLeadsToLast(ranges, Project(ranges, rate, adjusted, gMin, gMax, gMedian, rates))
  {
  }

  /** The assembled projection compounds from the last year. */
  lemma ProjectCompounds(ranges: seq<YearRange>, rate: real, adjusted: seq<real>,
                         gMin: real, gMax: real, gMedian: real, rates: seq<real>)
    requires |ranges| >= 2
    ensures CompoundsFromLast(ranges, rate, Project(ranges, rate, adjusted, gMin, gMax, gMedian, rates))
  {
    var n := |ranges|;
    var p := Project(ranges, rate, adjusted, gMin, gMax, gMedian, rates);
    var last := ranges[n - 1];
    assert p.projectedMin == ProjectSeries(last.min, gMin);
    assert p.projectedMax == ProjectSeries(last.max, gMax);
    assert p.projectedMedian == ProjectSeries(last.median, gMedian);
    assert p.projectedAdjusted == ZipAdjusted(p.projectedMin, p.projectedMax, rate);
    ProjectSeriesPowers(last.min, gMin);
    ProjectSeriesPowers(last.max, gMax);
    ProjectSeriesPowers(last.median, gMedian);
  }

  /** The assembled projection has every property a projection promises. */
  lemma ProjectIsProjection(ranges: seq<YearRange>, rate: real, adjusted: seq<real>,
                            gMin: real, gMax: real, gMedian: real, rates: seq<real>)
    requires |ranges| >= 2
    requires Compounds(Mins(ranges), gMin) && Compounds(Maxs(ranges), gMax)
    requires Compounds(Medians(ranges), gMedian)
    requires |rates| == |ranges|
    requires forall i :: 0 <= i < |ranges| ==> BandRate(ranges[i]) == Success(rates[i])
    ensures IsProjectionOf(ranges, rate, adjusted, Project(ranges, rate, adjusted, gMin, gMax, gMedian, rates))
  {
    var p := Project(ranges, rate, adjusted, gMin, gMax, gMedian, rates);
    ProjectGrowth(ranges, rate, adjusted, gMin, gMax, gMedian, rates);
    ProjectCompounds(ranges, rate, adjusted, gMin, gMax, gMedian, rates);
    assert RatesPerYear(ranges, p);
    assert TwoFollowingYears(ranges, p);
    assert HistoryThenProjection(ranges, adjusted, p);
  }

  /** The trend projection: growth rates from the first and last years,
      per-year penetration rates, and two projected years in which the user
      keeps the base year's relative position `rate`. The checks come in the
      order the source's divisions happen: the three growth rates, then the
      per-year rates. */
  method ProjectTrend(ranges: seq<YearRange>, rate: real, adjusted: seq<real>,
                      minFactor: real, maxFactor: real, medianFactor: real)
    returns (res: Result<Trend, EngineError>)
    requires |ranges| >= 2 ==>
               FactorFor(Mins(ranges), minFactor) && FactorFor(Maxs(ranges), maxFactor)
               && FactorFor(Medians(ranges), medianFactor)
    ensures |ranges| < 2 <==> res == Success(InsufficientData)
    ensures |ranges| >= 2 ==> (res.Success? <==> Projectable(ranges))
    ensures res.Success? && res.value.Projected? ==>
              IsProjectionOf(ranges, rate, adjusted, res.value.projection)
  {
    var n := |ranges|;
    if n < 2 {
      return Success(InsufficientData);
    }
    var minGrowth := GrowthRate(Mins(ranges), minFactor);
    if minGrowth == Failure(ZeroFirstValue) {
      return Failure(ZeroFirstValue);
    }
    var maxGrowth := GrowthRate(Maxs(ranges), maxFactor);
    if maxGrowth == Failure(ZeroFirstValue) {
      return Failure(ZeroFirstValue);
    }
    var medianGrowth := GrowthRate(Medians(ranges), medianFactor);
    if medianGrowth == Failure(ZeroFirstValue) {
      return Failure(ZeroFirstValue);
    }
    var rates := PenetrationRates(ranges);
    if rates.Failure? {
      return Failure(rates.error);
    }
    if minGrowth.Failure? || maxGrowth.Failure? || medianGrowth.Failure? {
      return Failure(NonRealRoot);
    }
    GrowthRateCompounds(Mins(ranges), minFactor);
    GrowthRateCompounds(Maxs(ranges), maxFactor);
    GrowthRateCompounds(Medians(ranges), medianFactor);
    ProjectIsProjection(ranges, rate, adjusted, minGrowth.value, maxGrowth.value, medianGrowth.value, rates.value);
    res := Success(Projected(Project(ranges, rate, adjusted,
                                     minGrowth.value, maxGrowth.value, medianGrowth.value, rates.value)));
  }

  /** The projected values are the last value times (1 + g)^(i + 1). */
  lemma ProjectSeriesPowers(last: real, g: real)
    ensures CompoundsFrom(ProjectSeries(last, g), last, g)
  {
  }
}
