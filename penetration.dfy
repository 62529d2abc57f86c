/** The penetration rate of a salary within its band, and the salary that
    keeps the same position in the other years' bands. */
module Penetration {
  import opened Wrappers
  import opened Bands

  /** The ways the engine fails. `ZeroWidthBand` and `ZeroFirstValue` are the
      divisions by zero Python raises on; `NonRealRoot` is the case where
      Python's fractional power of a negative number gives a complex value. */
  datatype EngineError = ZeroWidthBand(year: int) | ZeroFirstValue | NonRealRoot

  /** The salary at relative position `rate` in the band [lo, hi]. */
  function Adjusted(lo: real, hi: real, rate: real): real {
    lo + rate * (hi - lo)
  }

  /** The adjusted salary sits at relative position `rate` of its band: the
      rate read back from it is `rate` again. */
  lemma AdjustedKeepsPosition(lo: real, hi: real, rate: real)
    requires hi != lo
    ensures (Adjusted(lo, hi, rate) - lo) / (hi - lo) == rate
  {
  }

  /** A rate in [0, 1] keeps the adjusted salary inside an ordered band; the
      ends of that interval give the ends of the band. */
  lemma AdjustedWithinBand(lo: real, hi: real, rate: real)
    requires lo <= hi
    ensures 0.0 <= rate <= 1.0 ==> lo <= Adjusted(lo, hi, rate) <= hi
    ensures Adjusted(lo, hi, 0.0) == lo && Adjusted(lo, hi, 1.0) == hi
  {
    var w := hi - lo;
    assert Adjusted(lo, hi, 0.0) == lo + 0.0 * w == lo;
    assert Adjusted(lo, hi, 1.0) == lo + 1.0 * w == hi;
    if 0.0 <= rate <= 1.0 {
      ScaledFraction(rate, w);
      assert Adjusted(lo, hi, rate) == lo + rate * w;
    }
  }

  /** The relative position of `actual` in the band of `range`. It is not
      clamped: a salary below the band gives a negative rate, one above it a
      rate above 1. A band of zero width is the division by zero the source
      raises on. */
  function BandRate(range: YearRange): (r: Result<real, EngineError>)
    ensures r.Failure? <==> range.max == range.min
    ensures r.Failure? ==> r.error == ZeroWidthBand(range.year)
    ensures r.Success? ==> Adjusted(range.min, range.max, r.value) == range.actual
    ensures r.Success? && range.min < range.max ==>
              (r.value < 0.0 <==> range.actual < range.min)
              && (r.value > 1.0 <==> range.actual > range.max)
              && (0.0 <= r.value <= 1.0 <==> range.min <= range.actual <= range.max)
  {
    if range.max == range.min then
      Failure(ZeroWidthBand(range.year))
    else
      var width := range.max - range.min;
      var rate := (range.actual - range.min) / width;
      assert rate * width == range.actual - range.min;
      assert range.min < range.max ==> (rate < 0.0 <==> range.actual < range.min) by {
        if range.min < range.max {
          QuotientSign(rate, range.actual - range.min, width);
        }
      }
      assert range.min < range.max ==> (rate > 1.0 <==> range.actual > range.max) by {
        if range.min < range.max {
          assert (rate - 1.0) * width == range.actual - range.max;
          QuotientSign(rate - 1.0, range.actual - range.max, width);
        }
      }
      Success(rate)
  }

  /** A quotient by a positive number has the sign of the dividend. */
  lemma QuotientSign(q: real, x: real, d: real)
    requires d > 0.0 && q * d == x
    ensures q < 0.0 <==> x < 0.0
    ensures q > 0.0 <==> x > 0.0
  {
  }

  /** A fraction of a non-negative width lies between 0 and that width. */
  lemma ScaledFraction(rate: real, w: real)
    requires 0.0 <= rate <= 1.0 && w >= 0.0
    ensures 0.0 <= rate * w <= w
  {
  }

  /** One adjusted salary per record, in record order, all from the one rate. */
  method AdjustedSalaries(ranges: seq<YearRange>, rate: real) returns (adjusted: seq<real>)
    ensures |adjusted| == |ranges|
    ensures forall i :: 0 <= i < |ranges| ==> adjusted[i] == Adjusted(ranges[i].min, ranges[i].max, rate)
  {
    adjusted := [];
    for i := 0 to |ranges|
      invariant |adjusted| == i
      invariant forall k :: 0 <= k < i ==> adjusted[k] == Adjusted(ranges[k].min, ranges[k].max, rate)
    {
      adjusted := adjusted + [Adjusted(ranges[i].min, ranges[i].max, rate)];
    }
  }

  /** The outcome of the comparison: the base record's index, its
      penetration rate and the adjusted salary for every record. */
  datatype Comparison = Comparison(baseIndex: nat, rate: real, adjusted: seq<real>)

  /** Chooses the base year, computes its penetration rate and applies it to
      every record's band. */
  method Compare(ranges: seq<YearRange>) returns (res: Result<Comparison, EngineError>)
    requires |ranges| >= 1
    ensures var b := BaseYearIndex(|ranges|);
            res.Failure? <==> ranges[b].max == ranges[b].min
    ensures var b := BaseYearIndex(|ranges|);
            res.Failure? ==> res.error == ZeroWidthBand(ranges[b].year)
    ensures res.Success? ==>
              var c := res.value;
              && c.baseIndex == BaseYearIndex(|ranges|)
              && BandRate(ranges[c.baseIndex]) == Success(c.rate)
              && |c.adjusted| == |ranges|
              && (forall i :: 0 <= i < |ranges| ==>
                    c.adjusted[i] == Adjusted(ranges[i].min, ranges[i].max, c.rate))
              // the base year's adjusted salary is the salary entered for it
              && c.adjusted[c.baseIndex] == ranges[c.baseIndex].actual
              // every other year's adjusted salary sits at the same relative position
              && (forall i :: 0 <= i < |ranges| && ranges[i].max != ranges[i].min ==>
                    BandRate(ranges[i].(actual := c.adjusted[i])) == Success(c.rate))
              && (forall i :: 0 <= i < |ranges| && 0.0 <= c.rate <= 1.0 && ranges[i].min <= ranges[i].max ==>
                    ranges[i].min <= c.adjusted[i] <= ranges[i].max)
  {
    var b := BaseYearIndex(|ranges|);
    var rate := BandRate(ranges[b]);
    if rate.Failure? {
      return Failure(rate.error);
    }
    var adjusted := AdjustedSalaries(ranges, rate.value);
    forall i | 0 <= i < |ranges| && ranges[i].max != ranges[i].min
      ensures BandRate(ranges[i].(actual := adjusted[i])) == Success(rate.value)
    {
      AdjustedKeepsPosition(ranges[i].min, ranges[i].max, rate.value);
    }
    forall i | 0 <= i < |ranges| && ranges[i].min <= ranges[i].max
      ensures 0.0 <= rate.value <= 1.0 ==> ranges[i].min <= adjusted[i] <= ranges[i].max
    {
      AdjustedWithinBand(ranges[i].min, ranges[i].max, rate.value);
    }
    res := Success(Comparison(b, rate.value, adjusted));
  }

  /** The penetration rate of every record against its own salary; the
      first record with a zero-width band is the division by zero the
      source raises on. */
  method PenetrationRates(ranges: seq<YearRange>) returns (res: Result<seq<real>, EngineError>)
    ensures res.Success? <==> forall i :: 0 <= i < |ranges| ==> ranges[i].max != ranges[i].min
    ensures res.Success? ==>
              |res.value| == |ranges|
              && forall i :: 0 <= i < |ranges| ==> BandRate(ranges[i]) == Success(res.value[i])
    ensures res.Failure? ==>
              exists i :: 0 <= i < |ranges| && ranges[i].max == ranges[i].min
                          && res.error == ZeroWidthBand(ranges[i].year)
                          && forall k :: 0 <= k < i ==> ranges[k].max != ranges[k].min
  {
    var rates: seq<real> := [];
    for i := 0 to |ranges|
      invariant |rates| == i
      invariant forall k :: 0 <= k < i ==> BandRate(ranges[k]) == Success(rates[k])
    {
      var r := BandRate(ranges[i]);
      if r.Failure? {
        return Failure(r.error);
      }
      rates := rates + [r.value];
    }
    res := Success(rates);
  }

  /** The per-year rates agree with the comparison at the base year. */
  lemma RatesAgreeAtBase(ranges: seq<YearRange>, c: Comparison, rates: seq<real>)
    requires c.baseIndex < |ranges| && BandRate(ranges[c.baseIndex]) == Success(c.rate)
    requires |rates| == |ranges|
    requires forall i :: 0 <= i < |ranges| ==> BandRate(ranges[i]) == Success(rates[i])
    ensures rates[c.baseIndex] == c.rate
  {
  }

  /** Stamps the base-year rate onto every record in place. The records are
      shared with the list the comparison was built from, so an array of
      records updated in place stands for them. */
  method StampPenetrationRate(values: array<YearRange>, rate: real)
    modifies values
    ensures forall i :: 0 <= i < values.Length ==>
              values[i] == old(values[i]).(penetrationRate := Some(rate))
  {
    for i := 0 to values.Length
      invariant forall k :: 0 <= k < i ==> values[k] == old(values[k]).(penetrationRate := Some(rate))
      invariant forall k :: i <= k < values.Length ==> values[k] == old(values[k])
    {
      values[i] := values[i].(penetrationRate := Some(rate));
    }
  }
}
