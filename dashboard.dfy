/** The selections of the achievements dashboard: the category, tag and
    date filters, the top category and the top achievement. The selections
    themselves come from widgets and are passed in. */
module Dashboard {
  import opened Wrappers
  import opened Text
  import opened Achievements
  import opened Metrics

  /** `t` is `s` with some items left out, the rest in their order. */
  predicate IsSubsequence(t: seq<Achievement>, s: seq<Achievement>) {
    t == [] || (s != [] && ((t[0] == s[0] && IsSubsequence(t[1..], s[1..])) || IsSubsequence(t, s[1..])))
  }

  lemma {:induction false} SubsequenceReflexive(s: seq<Achievement>)
    ensures IsSubsequence(s, s)
  {
    if s != [] {
      SubsequenceReflexive(s[1..]);
    }
  }

  lemma {:induction false} SubsequenceTransitive(a: seq<Achievement>, b: seq<Achievement>, c: seq<Achievement>)
    requires IsSubsequence(a, b) && IsSubsequence(b, c)
    ensures IsSubsequence(a, c)
    decreases |c|
  {
    if a != [] {
      if IsSubsequence(b, c[1..]) {
        SubsequenceTransitive(a, b, c[1..]);
      } else {
        assert b[0] == c[0] && IsSubsequence(b[1..], c[1..]);
        if a[0] == b[0] && IsSubsequence(a[1..], b[1..]) {
          SubsequenceTransitive(a[1..], b[1..], c[1..]);
        } else {
          SubsequenceTransitive(a, b[1..], c[1..]);
        }
      }
    }
  }

  /** A list comprehension `[a for a in s if keep(a)]`. */
  function Filter(s: seq<Achievement>, keep: Achievement -> bool): (r: seq<Achievement>)
    ensures IsSubsequence(r, s)
    ensures forall a :: multiset(r)[a] == if keep(a) then multiset(s)[a] else 0
    ensures forall a :: a in r <==> a in s && keep(a)
  {
    if s == [] then []
    else
      var rest := Filter(s[1..], keep);
      assert s == [s[0]] + s[1..];
      if keep(s[0]) then
        assert ([s[0]] + rest)[1..] == rest;
        [s[0]] + rest
      else rest
  }

  /** Whether an achievement shares a tag with the selection. */
  predicate SharesTag(a: Achievement, selected: seq<string>) {
    exists t :: t in selected && t in a.metadata.tags
  }

  /** Whether an achievement has a known date between `start` and `end`
      inclusive; dates compare as `YYYY-MM-DD` strings. */
  predicate InDateRange(a: Achievement, start: string, end: string) {
    a.fileDate != "Unknown" && LexLe(start, a.fileDate) && LexLe(a.fileDate, end)
  }

  /** `strptime` fails on a date that is known but not `YYYY-MM-DD`. */
  predicate HasBadDate(a: Achievement) {
    a.fileDate != "Unknown" && !IsIsoDate(a.fileDate)
  }

  /** The filter by category; an empty selection keeps everything. */
  function FilterByCategory(s: seq<Achievement>, selected: seq<string>): (r: seq<Achievement>)
    ensures selected == [] ==> r == s
    ensures IsSubsequence(r, s)
    ensures forall a :: multiset(r)[a] == if selected == [] || CategoryOf(a) in selected then multiset(s)[a] else 0
  {
    SubsequenceReflexive(s);
    if selected == [] then s else Filter(s, a => CategoryOf(a) in selected)
  }

  /** The filter by tags; an empty selection keeps everything. */
  function FilterByTags(s: seq<Achievement>, selected: seq<string>): (r: seq<Achievement>)
    ensures selected == [] ==> r == s
    ensures IsSubsequence(r, s)
    ensures forall a :: multiset(r)[a] == if selected == [] || SharesTag(a, selected) then multiset(s)[a] else 0
  {
    SubsequenceReflexive(s);
    if selected == [] then s else Filter(s, a => SharesTag(a, selected))
  }

  /** The reason the date filter stops: the first known date that does not parse. */
  datatype FilterError = BadDate(date: string)

  /** The index of the first achievement whose known date does not parse. */
  function FirstBadDate(s: seq<Achievement>): (r: Option<nat>)
    ensures r.None? <==> forall i :: 0 <= i < |s| ==> !HasBadDate(s[i])
    ensures r.Some? ==>
      r.value < |s| && HasBadDate(s[r.value]) && forall j :: 0 <= j < r.value ==> !HasBadDate(s[j])
  {
    if s == [] then None
    else if HasBadDate(s[0]) then Some(0)
    else
      assert forall j :: 1 <= j < |s| ==> s[j] == s[1..][j - 1];
      match FirstBadDate(s[1..])
      case None => None
      case Some(k) => Some(k + 1)
  }

  /** The filter by date range. The comprehension parses every known date
      in order, so the first one that is not `YYYY-MM-DD` ends it with an
      error. */
  function FilterByDate(s: seq<Achievement>, start: string, end: string): (r: Result<seq<Achievement>, FilterError>)
    ensures r.Failure? <==> exists i :: 0 <= i < |s| && HasBadDate(s[i])
    ensures r.Failure? ==>
      exists i :: (0 <= i < |s| && HasBadDate(s[i]) && r.error == BadDate(s[i].fileDate)
                   && forall j :: 0 <= j < i ==> !HasBadDate(s[j]))
    ensures r.Success? ==> IsSubsequence(r.value, s)
    ensures r.Success? ==>
      forall a :: multiset(r.value)[a] == if InDateRange(a, start, end) then multiset(s)[a] else 0
  {
    match FirstBadDate(s)
    case Some(i) => Failure(BadDate(s[i].fileDate))
    case None => Success(Filter(s, a => InDateRange(a, start, end)))
  }

  /** Whether an achievement passes all three filters. */
  predicate Selected(a: Achievement, categories: seq<string>, tags: seq<string>, dateRange: Option<(string, string)>) {
    && (categories == [] || CategoryOf(a) in categories)
    && (tags == [] || SharesTag(a, tags))
    && (dateRange.Some? ==> InDateRange(a, dateRange.value.0, dateRange.value.1))
  }

  /** The filters in the dashboard's order: category, then tags, then the
      date range when there is one. */
  function ApplyFilters(s: seq<Achievement>, categories: seq<string>, tags: seq<string>, dateRange: Option<(string, string)>)
    : (r: Result<seq<Achievement>, FilterError>)
    ensures r.Failure? <==>
      dateRange.Some? && exists i :: 0 <= i < |FilterByTags(FilterByCategory(s, categories), tags)|
                                     && HasBadDate(FilterByTags(FilterByCategory(s, categories), tags)[i])
    ensures r.Success? ==> IsSubsequence(r.value, s)
    ensures r.Success? ==>
      forall a :: multiset(r.value)[a] == if Selected(a, categories, tags, dateRange) then multiset(s)[a] else 0
  {
    var byCategory := FilterByCategory(s, categories);
    var byTags := FilterByTags(byCategory, tags);
    SubsequenceTransitive(byTags, byCategory, s);
    match dateRange
    case None => Success(byTags)
    case Some(range) =>
      match FilterByDate(byTags, range.0, range.1)
      case Failure(e) => Failure(e)
      case Success(byDate) =>
        SubsequenceTransitive(byDate, byTags, s);
        Success(byDate)
  }

  /** Every item the filters keep passes them, and every item that passes
      them is kept. */
  lemma FilterMeaning(s: seq<Achievement>, categories: seq<string>, tags: seq<string>, dateRange: Option<(string, string)>, a: Achievement)
    requires ApplyFilters(s, categories, tags, dateRange).Success?
    ensures a in ApplyFilters(s, categories, tags, dateRange).value <==> a in s && Selected(a, categories, tags, dateRange)
  {
  }

  /** Python's `max(counts.items(), key=count)`: the index of the first
      item with the largest count. */
  function TopIndex(counts: Counts): (k: nat)
    requires |counts| > 0
    ensures k < |counts|
    ensures forall j :: 0 <= j < |counts| ==> counts[j].1 <= counts[k].1
    ensures forall j :: 0 <= j < k ==> counts[j].1 < counts[k].1
  {
    if |counts| == 1 then 0
    else
      var k := TopIndex(counts[..|counts| - 1]);
      if counts[|counts| - 1].1 > counts[k].1 then |counts| - 1 else k
  }

  /** The top category of the category counts, if there are any. */
  function TopCategory(counts: Counts): (top: Option<(string, nat)>)
    ensures top.None? <==> counts == []
    ensures top.Some? ==>
      exists k :: (0 <= k < |counts| && top.value == counts[k]
                   && (forall j :: 0 <= j < |counts| ==> counts[j].1 <= counts[k].1)
                   && (forall j :: 0 <= j < k ==> counts[j].1 < counts[k].1))
  {
    if counts == [] then None else Some(counts[TopIndex(counts)])
  }

  /** On a tally, the top category is a most frequent key and its count is
      its number of occurrences. */
  lemma TopCategoryIsMostFrequent(counts: Counts, keys: seq<string>)
    requires IsTallyOf(counts, keys)
    ensures TopCategory(counts).None? <==> keys == []
    ensures TopCategory(counts).Some? ==>
      var (c, n) := TopCategory(counts).value;
      c in keys && n == Occurrences(keys, c) && n >= 1
      && forall k :: k in keys ==> Occurrences(keys, k) <= n
  {
    TallyMeaning(counts, keys);
    if keys != [] {
      assert keys[0] in Keys(counts);
    }
    if counts != [] {
      assert counts[0].0 in Keys(counts);
      forall k | k in keys
        ensures Occurrences(keys, k) <= TopCategory(counts).value.1
      {
        var j :| 0 <= j < |counts| && counts[j].0 == k;
      }
    }
  }

  /** The "top achievement" scan over the filtered list: the first
      achievement with the most metrics, or None when none has any. */
  method TopAchievement(filtered: seq<Achievement>) returns (top: Option<Achievement>)
    ensures top.None? <==> forall j :: 0 <= j < |filtered| ==> MetricCount(filtered[j]) == 0
    ensures top.Some? ==> exists i :: IsFirstMostMetrics(filtered, i) && top.value == filtered[i]
  {
    top := None;
    ghost var best := -1;
    for i := 0 to |filtered|
      invariant top.None? <==> forall j :: 0 <= j < i ==> MetricCount(filtered[j]) == 0
      invariant top.Some? ==> IsFirstMostMetrics(filtered[..i], best) && top.value == filtered[best]
    {
      var metricsList := filtered[i].metadata.metrics;
      if |metricsList| > 0 && (top.None? || |metricsList| > |top.value.metadata.metrics|) {
        top := Some(filtered[i]);
        best := i;
      }
    }
    assert filtered[..|filtered|] == filtered;
  }
}
