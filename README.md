# Salary penetration rate and achievements dashboard, modelled in Dafny

The repository is a personal dashboard with two computational parts.
This project models both and proves what they promise.

**Salary comparison (`src/main.py`).**
- Each year's salary band is read from one of two CSV layouts and mapped to a record `{year, min, max, median}`.
- A base year is chosen. The user's salary in that year gives a *penetration rate*, the relative position `(actual - min) / (max - min)` inside the band.
- That position is applied to every year's band, giving an *adjusted salary* per year.
- The rate is stamped on every record in place.
- Compound growth rates are derived from the first and last year of each boundary series (min, max, median).
- The bands are projected two years ahead. The adjusted salary is projected along with them.

**Achievements (`src/achievements_dashboard.py`).**
- Markdown files with YAML front matter are collected. `CLAUDE.md` and `plan.md` are skipped.
- Each file is dated by its file name or by its metadata.
- The files are sorted newest first.
- The dashboard counts achievements per category and per month, and picks the "highest impact" achievement (the one with the most metrics).
- It filters by category, tag and date range, then names the top category and the top achievement.

Modules:
- `Wrappers`: `Option` and `Result`.
- `Text`: Python's `str.isspace`, `strip`, slicing and string order.
- `Bands`: normalisation, the list of records and the base year.
- `Penetration`: rate, adjusted salaries, per-year rates and the in-place stamp.
- `Projection`: growth rates and the projection.
- `Analysis`: the comparison in the order the dashboard runs it.
- `FrontMatter`: splitting off the front matter.
- `Achievements`: collection, dating and sorting.
- `Metrics`: `generate_achievement_metrics`.
- `Dashboard`: filters, top category and top achievement.

Modelling choices:
- Amounts are `real`. Years are `int`; the source keeps them as strings and converts them with `int()` before projecting.
- A division by zero in the source (Python raises `ZeroDivisionError`) is a `Failure` of the model's `Result`.
- The fractional power `(last / first) ** (1 / (n - 1))` cannot be computed over the reals here. The caller supplies it as a growth *factor*. The precondition `FactorFor` says that wherever Python computes a real root, the factor is that root. Where Python computes a complex number (a negative ratio under a root of degree 2 or more), the model reports `NonRealRoot`.
- Python dicts keep insertion order, and `max` returns the first maximal item. So counters are association lists `seq<(string, nat)>` in insertion order.
- `list.sort` is stable. The newest-first sort is a stable insertion sort, and its stability is proved.
- Dates are `YYYY-MM-DD` strings. They compare by Python string order (`Text.LexLe`), which is date order for such strings.
- The YAML decoder is a function parameter that returns decoded metadata or an error.

What the code does not check, and what it needs:
- No check that `min <= median <= max` is made on a record.
- The base year is not chosen by year. The code takes index 1 when three records exist and index 0 otherwise, which in the dashboard is always 2024 (`Bands.BaseYearIs2024`).
- A negative boundary does not by itself stop the growth rate. Python only leaves the reals when the *ratio* last/first is negative and the root degree is at least 2.
- Projection needs at least two records. Their years are not required to be distinct.
- Every included year must have a non-zero band width for the projection to complete. The code divides by every band's width when computing the per-year rates.

## Model

| member | source | states |
|---|---|---|
| Bands.Normalize | src/main.py:94-139 | min and max come from `Minimum`/`Maximum` (2023 and 2024 layout) or from `Lower_Min`/`Upper_Max` (2025 layout); the median is the midpoint of the two middle fields, never read from a field; the record's order follows when the row's fields are ordered |
| Bands.LayoutsAgree | src/main.py:94-139 | the two layouts carrying the same four numbers give the same record |
| Bands.BuildRanges | src/main.py:89-139 | the appends give 2023 (only when loaded), 2024 and 2025 in that order: three or two records with consecutive years and the matching salaries |
| Bands.BaseYearIndex | src/main.py:141-144 | the base index is a valid index: 1 when three records exist, 0 otherwise |
| Bands.BaseYearIs2024 | src/main.py:141-145 | in the records as built, the base year is 2024 with the 2024 salary, whether or not 2023 was loaded |
| Penetration.BandRate | src/main.py:147-151 | fails exactly on a zero-width band, naming its year; otherwise placing the rate back in the band gives the salary; the rate is below 0, above 1 or within [0, 1] exactly when the salary is below, above or within the band |
| Penetration.AdjustedKeepsPosition | src/main.py:153-159 | an adjusted salary sits at the given relative position of its band |
| Penetration.AdjustedWithinBand | src/main.py:153-159 | a rate in [0, 1] keeps the adjusted salary inside a well-ordered band; rates 0 and 1 give its ends |
| Penetration.AdjustedSalaries | src/main.py:152-159 | one adjusted salary per record, in record order, all from the one base rate |
| Penetration.Compare | src/main.py:141-159 | fails exactly when the base band has zero width; otherwise every year's adjusted salary is min + rate·(max - min) of its band at the base rate, the base year's adjusted salary is its entered salary, every non-degenerate band's adjusted salary has the base rate as its own rate, and a rate in [0, 1] keeps every adjusted salary inside its band |
| Penetration.PenetrationRates | src/main.py:342-348 | succeeds exactly when no band has zero width, with one rate per year, each against that year's own salary; otherwise fails on the first zero-width band |
| Penetration.RatesAgreeAtBase | src/main.py:342-348 | the per-year rate at the base index equals the base-year rate |
| Penetration.StampPenetrationRate | src/main.py:161-164 | every record of the array gets the base rate and nothing else changes |
| Projection.GrowthRate | src/main.py:331-340 | fails with a division by zero exactly when the first value is 0, and succeeds exactly when, besides, a real root exists |
| Projection.GrowthRateCompounds | src/main.py:331-340 | the first value grown at the rate for n - 1 years is the last value |
| Projection.GrowthRateSpecialCases | src/main.py:331-340 | with two years the rate is last/first - 1; equal first and last values give rate 0 |
| Projection.FutureYears | src/main.py:350-352 | two consecutive years, both after every historical year, the first right after the latest one |
| Projection.ProjectSeries | src/main.py:354-364 | the first projected value is the last value grown once, and the second grows the first once more |
| Projection.ProjectSeriesPowers | src/main.py:354-364 | the i-th projected value is last times (1 + g) to the power i + 1 |
| Projection.ZipAdjusted | src/main.py:366-370 | `zip` stops at the shorter list, and each entry is the adjusted salary of its pair at the base rate |
| Projection.ProjectionLengths | src/main.py:372-378 | every combined series is two entries longer than its history and starts with the unchanged history |
| Projection.ProjectIsProjection | src/main.py:350-378 | the assembled projection has growth leading to the last year, one rate per year, two following years, compounding projections with adjusted salaries at the base rate, and history followed by projection |
| Projection.ProjectTrend | src/main.py:329-378 | fewer than two records means insufficient data; otherwise it succeeds exactly when every series has a non-zero start and a real root and no band has zero width, and its result is a projection of the records |
| Analysis.Analyze | src/main.py:89-164 | the comparison as run: a zero-width 2024 band fails it; it succeeds exactly when the records are projectable; then the base year is 2024, the 2024 adjusted salary is the 2024 salary, every year's adjusted salary is its band's min + rate·(max - min), every record carries the base rate, and the trend is a projection of the records |
| Analysis.TwoYearExample | src/main.py:147-370 | bands 100-200 and 110-220 with 150 earned in 2024 give rate 0.5, 165 for 2025, growth 0.1, projected bands 121-242 and 133.1-266.2, and 181.5 as the next year's adjusted salary |
| Text.Strip | src/achievements_dashboard.py:21-22 | the result is a slice of the text with only whitespace cut from each end, and it neither starts nor ends with whitespace |
| Text.StripIdempotent | src/achievements_dashboard.py:21-22 | stripping twice is stripping once |
| FrontMatter.SplitFrontMatter | src/achievements_dashboard.py:18-22 | a split exists exactly when the text starts with `---` and has another `---` from index 3 on; the parts are then the stripped text up to the first such fence and the stripped text after it |
| FrontMatter.SplitOfAssembled | src/achievements_dashboard.py:18-22 | a front matter without a fence, put between two fences before a body, splits back into the stripped front matter and the stripped body |
| FrontMatter.FirstFenceUnique | src/achievements_dashboard.py:19-20 | the fence the split uses is unique |
| FrontMatter.ParseMarkdown | src/achievements_dashboard.py:12-31 | no result exactly when a front matter exists and does not decode; without a split, the whole text with empty metadata; otherwise the decoded metadata and the stripped body |
| Achievements.FileDate | src/achievements_dashboard.py:52-59 | a name starting `DDDD-DD-DD-` gives its first ten characters; otherwise the metadata date, or "Unknown" without one |
| Achievements.CollectedFromFiles | src/achievements_dashboard.py:40-61 | every collected achievement has a name that is not skipped and comes from a file of that name whose text parsed |
| Achievements.CollectedNotSkipped | src/achievements_dashboard.py:42-44 | no collected achievement is named `CLAUDE.md` or `plan.md` |
| Achievements.CollectedOnce | src/achievements_dashboard.py:40-61 | with distinct file names, each file that is not skipped and parses gives exactly one collected achievement of its name |
| Achievements.SortNewestFirstSorted | src/achievements_dashboard.py:63-64 | the sorted list has non-increasing dates |
| Achievements.SortNewestFirstPermutes | src/achievements_dashboard.py:63-64 | the sorted list is a permutation of its input |
| Achievements.SortNewestFirstStable | src/achievements_dashboard.py:63-64 | achievements with the same date keep their relative order |
| Achievements.GetAllAchievements | src/achievements_dashboard.py:34-65 | the result is sorted newest first, is a permutation of the collected achievements and is stable per date, and no skipped name appears |
| Metrics.CategoryOf | src/achievements_dashboard.py:85-87 | a missing category counts as "Uncategorized" |
| Metrics.MonthOf | src/achievements_dashboard.py:97 | the month key is the first seven characters of the date, or all of a shorter one |
| Metrics.Tally | src/achievements_dashboard.py:84-99 | the counter loop gives each key once, in order of first occurrence, with its number of occurrences; the counts sum to the number of keys |
| Metrics.TallyMeaning | src/achievements_dashboard.py:84-99 | a tally has distinct keys, exactly the keys that occur, and positive counts |
| Metrics.MonthKeysMeaning | src/achievements_dashboard.py:92-99 | one month key per dated achievement, and a month is a key exactly when some dated achievement has it |
| Metrics.SortByKeyAscending | src/achievements_dashboard.py:101-102 | sorting distinct keys gives strictly ascending keys |
| Metrics.SortByKeyPermutes | src/achievements_dashboard.py:101-102 | sorting keeps exactly the items |
| Metrics.SortByKeySum | src/achievements_dashboard.py:101-102 | sorting keeps the total of the counts |
| Metrics.SortedTally | src/achievements_dashboard.py:92-102 | the sorted month tally has ascending keys, exactly the months that occur and their counts, and the same total |
| Metrics.HighestImpact | src/achievements_dashboard.py:104-116 | None exactly when no achievement has metrics; otherwise the title of the first achievement with the most metrics |
| Metrics.FirstMostMetricsUnique | src/achievements_dashboard.py:104-116 | at most one achievement is the first with the most metrics |
| Metrics.TitleOf | src/achievements_dashboard.py:114-116 | a missing title reads "Unknown" |
| Metrics.GenerateMetrics | src/achievements_dashboard.py:79-123 | the total is the input length; the category counts are a tally whose keys are exactly the achievements' categories and whose counts sum to the total; the trend is the month tally of the dated achievements in ascending month order, summing to their number; the highest impact as above |
| Dashboard.Filter | src/achievements_dashboard.py:246-251 | a comprehension keeps a subsequence in which every kept item occurs as often as in the input and every dropped item not at all |
| Dashboard.FilterByCategory | src/achievements_dashboard.py:244-251 | an empty selection keeps everything; otherwise exactly the achievements whose category is selected, in order |
| Dashboard.FilterByTags | src/achievements_dashboard.py:253-262 | an empty selection keeps everything; otherwise exactly the achievements sharing a selected tag, in order |
| Dashboard.FirstBadDate | src/achievements_dashboard.py:268-275 | finds the first achievement whose known date is not `YYYY-MM-DD`, or reports that there is none |
| Dashboard.FilterByDate | src/achievements_dashboard.py:264-275 | fails exactly when a known date is not `YYYY-MM-DD`, naming the first such date; otherwise exactly the achievements with a known date inside the inclusive range, in order |
| Dashboard.ApplyFilters | src/achievements_dashboard.py:241-275 | category, then tags, then date: fails only through the date filter on what the first two kept; otherwise a subsequence holding exactly the achievements that pass all three, each as often as in the input |
| Dashboard.FilterMeaning | src/achievements_dashboard.py:241-275 | an achievement is kept exactly when it is in the input and passes every selection |
| Dashboard.TopIndex | src/achievements_dashboard.py:289-291 | `max` with a key picks the first item with the largest count |
| Dashboard.TopCategory | src/achievements_dashboard.py:288-294 | no top category exactly when there are no counts; otherwise the first item with the largest count |
| Dashboard.TopCategoryIsMostFrequent | src/achievements_dashboard.py:288-291 | on a tally the top category occurs, its count is its number of occurrences, and no key occurs more often |
| Dashboard.TopAchievement | src/achievements_dashboard.py:474-482 | None exactly when no filtered achievement has metrics; otherwise the first filtered achievement with the most metrics |

## Left out

- Streamlit widgets, the sidebar, tabs and all `st.*` output: user interface. The selections they produce (salaries entered, categories, tags, date range) are parameters.
- The `locals()` checks for `date_range` and `top_category`: the date range is an `Option` parameter instead.
- Matplotlib charts, label offsets and the leaderboard chart: presentation only.
- The pandas `sort_values(...).head(10)` impact leaderboard: an unstable library sort used for display.
- CSV loading, the DataFrame lookups of a level's row and `load_summary_yaml`: file I/O and foreign library code. The band rows are given as numbers.
- Finding the Markdown files with `glob` and reading them: file I/O. The files are given as a list of names and texts in the order `glob` returns them.
- `yaml.safe_load`: a foreign parser, modelled as a decode function parameter. A front matter that decodes to `null` or to a non-mapping is not modelled. On such input the source fails with an attribute error.
- Metadata values of other types than strings (a YAML date object, a number as a title) are not modelled. A date object would make the date comparison and `strptime` fail.
- `\d` in the file-name pattern also matches non-ASCII digits. The model accepts ASCII digits only.
- `datetime.strptime` calendar checks (day 31 of a 30-day month) and its acceptance of unpadded fields (`2024-1-5`) are not modelled. Only the strict `YYYY-MM-DD` shape counts as a valid date.
- The date widget's defaults from the earliest and latest date are not modelled. The range is a parameter.
- Month-name rendering with `strftime`, percentage and thousands formatting, and the summary text around `top_impact`: string formatting for display.
- IEEE floating-point rounding: amounts are exact reals.
- Projection.GrowthRate: the fractional root is not computed. The caller supplies it through the `FactorFor` precondition.
- Projection.ProjectTrend: where Python computes a complex growth rate and carries it into the projection without raising, the model stops with `NonRealRoot`.
- Projection.ProjectTrend: the order in which the failures are reported is the order of the source's divisions, first the three growth rates and then the per-year rates. A complex root is reported last.
- Penetration.StampPenetrationRate: the dicts that `values = ranges.copy()` shares with `ranges` are modelled as one array of records updated in place. The model does not show that both lists see the change.
- Analysis.Analyze: the growth table shown after the projection (src/main.py:490) divides by the last historical adjusted salary and fails when that is 0; that display-code division is outside the model, so "succeeds exactly when projectable" does not cover it.
