/** The band normaliser: the per-year salary rows, read from two CSV
    layouts, become one canonical record per year. */
module Bands {
  import opened Wrappers

  /** A row in the 2023 and 2024 layout. */
  datatype MidZoneRow = MidZoneRow(minimum: real, maximum: real, lowerMidZone: real, upperMidZone: real)

  /** A row in the 2025 layout. */
  datatype MiddleRow = MiddleRow(lowerMin: real, upperMax: real, middleMin: real, middleMax: real)

  /** The two layouts as one tagged union. */
  datatype BandRow = MidZone(mz: MidZoneRow) | Middle(md: MiddleRow)

  /** The canonical per-year record: the band, its median, the salary the
      user entered for that year, and the penetration rate once it has been
      stamped onto the record. */
  datatype YearRange = YearRange(
    year: int,
    min: real,
    max: real,
    median: real,
    actual: real,
    penetrationRate: Option<real>)

  /** The lower and upper boundary of the middle zone of a row. */
  function MiddleLow(row: BandRow): real {
    match row
    case MidZone(r) => r.lowerMidZone
    case Middle(r) => r.middleMin
  }

  function MiddleHigh(row: BandRow): real {
    match row
    case MidZone(r) => r.upperMidZone
    case Middle(r) => r.middleMax
  }

  /** A row whose boundaries are in the order the layout implies. */
  predicate WellOrdered(row: BandRow) {
    match row
    case MidZone(r) => r.minimum <= r.lowerMidZone <= r.upperMidZone <= r.maximum
    case Middle(r) => r.lowerMin <= r.middleMin <= r.middleMax <= r.upperMax
  }

  /** One row to the canonical record. The band boundaries are the outer
      fields of the layout; the median is never read from a field but is
      the midpoint of the middle zone. */
  function Normalize(year: int, row: BandRow, actual: real): (r: YearRange)
    ensures r.year == year && r.actual == actual && r.penetrationRate == None
    ensures row.MidZone? ==> r.min == row.mz.minimum && r.max == row.mz.maximum
    ensures row.Middle? ==> r.min == row.md.lowerMin && r.max == row.md.upperMax
    ensures r.median - MiddleLow(row) == MiddleHigh(row) - r.median
    ensures WellOrdered(row) ==> r.min <= MiddleLow(row) <= r.median <= MiddleHigh(row) <= r.max
  {
    match row
    case MidZone(z) =>
      YearRange(year, z.minimum, z.maximum, (z.lowerMidZone + z.upperMidZone) / 2.0, actual, None)
    case Middle(m) =>
      YearRange(year, m.lowerMin, m.upperMax, (m.middleMin + m.middleMax) / 2.0, actual, None)
  }

  /** The two layouts agree: the same four numbers give the same record
      whichever layout they come in. */
  lemma LayoutsAgree(year: int, lo: real, hi: real, midLo: real, midHi: real, actual: real)
    ensures Normalize(year, MidZone(MidZoneRow(lo, hi, midLo, midHi)), actual)
         == Normalize(year, Middle(MiddleRow(lo, hi, midLo, midHi)), actual)
  {
  }

  /** The records the comparison is built from: 2023 when its data was
      loaded, then 2024, then 2025. */
  function ExpectedRanges(row2023: Option<MidZoneRow>, row2024: MidZoneRow, row2025: MiddleRow,
                          actual2023: real, actual2024: real, actual2025: real): seq<YearRange>
  {
    (if row2023.Some? then [Normalize(2023, MidZone(row2023.value), actual2023)] else [])
    + [Normalize(2024, MidZone(row2024), actual2024), Normalize(2025, Middle(row2025), actual2025)]
  }

  /** Builds the list of records by successive appends. */
  method BuildRanges(row2023: Option<MidZoneRow>, row2024: MidZoneRow, row2025: MiddleRow,
                     actual2023: real, actual2024: real, actual2025: real)
    returns (ranges: seq<YearRange>)
    ensures ranges == ExpectedRanges(row2023, row2024, row2025, actual2023, actual2024, actual2025)
    ensures |ranges| == if row2023.Some? then 3 else 2
    ensures forall i :: 0 <= i < |ranges| ==> ranges[i].year == 2026 - |ranges| + i
    ensures ranges[|ranges| - 1].actual == actual2025 && ranges[|ranges| - 2].actual == actual2024
  {
    ranges := [];
    if row2023.Some? {
      ranges := ranges + [Normalize(2023, MidZone(row2023.value), actual2023)];
    }
    ranges := ranges + [Normalize(2024, MidZone(row2024), actual2024)];
    ranges := ranges + [Normalize(2025, Middle(row2025), actual2025)];
  }

  /** The index of the base year: the second record when three are present
      (2023 data loaded), the first otherwise. */
  function BaseYearIndex(n: nat): (i: nat)
    requires n >= 1
    ensures i < n
    ensures n >= 3 ==> i == 1
    ensures n <= 2 ==> i == 0
  {
    if n > 2 then 1 else 0
  }

  /** In the comparison as built, the base year is always 2024, whether or
      not 2023 data was loaded. */
  lemma BaseYearIs2024(row2023: Option<MidZoneRow>, row2024: MidZoneRow, row2025: MiddleRow,
                       actual2023: real, actual2024: real, actual2025: real)
    ensures var ranges := ExpectedRanges(row2023, row2024, row2025, actual2023, actual2024, actual2025);
            ranges[BaseYearIndex(|ranges|)].year == 2024
            && ranges[BaseYearIndex(|ranges|)].actual == actual2024
  {
  }
}
