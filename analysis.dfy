/** The salary comparison as a whole, in the order the dashboard runs it:
    build the records, compare against the base year, stamp the base rate
    on every record, then project the trend two years ahead. */
module Analysis {
  import opened Wrappers
  import opened Bands
  import opened Penetration
  import opened Projection

  /** What the comparison shows: the records, the base-year comparison,
      the records with the rate stamped on them and the projection. */
  datatype Report = Report(ranges: seq<YearRange>, comparison: Comparison, values: seq<YearRange>, projection: Projection)

  method Analyze(row2023: Option<MidZoneRow>, row2024: MidZoneRow, row2025: MiddleRow,
                 actual2023: real, actual2024: real, actual2025: real,
                 minFactor: real, maxFactor: real, medianFactor: real)
    returns (res: Result<Report, EngineError>)
    requires var ranges := ExpectedRanges(row2023, row2024, row2025, actual2023, actual2024, actual2025);
             FactorFor(Mins(ranges), minFactor) && FactorFor(Maxs(ranges), maxFactor)
             && FactorFor(Medians(ranges), medianFactor)
    ensures row2024.maximum == row2024.minimum ==> res == Failure(ZeroWidthBand(2024))
    ensures res.Success? <==>
              Projectable(ExpectedRanges(row2023, row2024, row2025, actual2023, actual2024, actual2025))
    ensures res.Success? ==>
              var r := res.value;
              var b := r.comparison.baseIndex;
              && r.ranges == ExpectedRanges(row2023, row2024, row2025, actual2023, actual2024, actual2025)
              && b < |r.ranges| == |r.comparison.adjusted| && r.ranges[b].year == 2024
              // the salary entered for 2024 is where every band's adjusted salary is placed
              && BandRate(r.ranges[b]) == Success(r.comparison.rate)
              && r.comparison.adjusted[b] == actual2024
              && (forall i :: 0 <= i < |r.ranges| ==>
                    r.comparison.adjusted[i] == Adjusted(r.ranges[i].min, r.ranges[i].max, r.comparison.rate))
              && |r.values| == |r.ranges|
              && (forall i :: 0 <= i < |r.ranges| ==>
                    r.values[i] == r.ranges[i].(penetrationRate := Some(r.comparison.rate)))
              && IsProjectionOf(r.ranges, r.comparison.rate, r.comparison.adjusted, r.projection)
  {
    var ranges := BuildRanges(row2023, row2024, row2025, actual2023, actual2024, actual2025);
    BaseYearIs2024(row2023, row2024, row2025, actual2023, actual2024, actual2025);
    var comparison := Compare(ranges);
    if comparison.Failure? {
      return Failure(comparison.error);
    }
    var c := comparison.value;
    var values := new YearRange[|ranges|](i requires 0 <= i < |ranges| => ranges[i]);
    StampPenetrationRate(values, c.rate);
    var trend := ProjectTrend(ranges, c.rate, c.adjusted, minFactor, maxFactor, medianFactor);
    if trend.Failure? {
      return Failure(trend.error);
    }
    res := Success(Report(ranges, c, values[..], trend.value.projection));
  }

  /** A worked two-year comparison: bands 100-200 in 2024 and 110-220 in
      2025 with 150 earned in 2024. The rate is one half, so 165 is the
      matching 2025 salary; both boundaries grow by a tenth a year, and the
      next two years' bands and adjusted salaries follow. */
  lemma TwoYearExample()
    ensures var ranges := ExpectedRanges(None, MidZoneRow(100.0, 200.0, 140.0, 160.0),
                                         MiddleRow(110.0, 220.0, 150.0, 170.0), 0.0, 150.0, 0.0);
            && |ranges| == 2
            && BandRate(ranges[BaseYearIndex(2)]) == Success(0.5)
            && Adjusted(ranges[1].min, ranges[1].max, 0.5) == 165.0
            && FactorFor(Mins(ranges), 1.1) && GrowthRate(Mins(ranges), 1.1) == Success(0.1)
            && FactorFor(Maxs(ranges), 1.1) && GrowthRate(Maxs(ranges), 1.1) == Success(0.1)
            && ProjectSeries(110.0, 0.1) == [121.0, 133.1]
            && ProjectSeries(220.0, 0.1) == [242.0, 266.2]
            && Adjusted(121.0, 242.0, 0.5) == 181.5
  {
  }
}
