/** `generate_achievement_metrics`: the number of achievements, the count per
    category, the count per month and the achievement with the most metrics. */
module Metrics {
  import opened Wrappers
  import opened Text
  import opened FrontMatter
  import opened Achievements

  /** A Python dict of counters as its items in insertion order. */
  type Counts = seq<(string, nat)>

  function Keys(counts: Counts): (ks: seq<string>)
    ensures |ks| == |counts| && forall i :: 0 <= i < |counts| ==> ks[i] == counts[i].0
  {
    seq(|counts|, i requires 0 <= i < |counts| => counts[i].0)
  }

  predicate DistinctKeys(counts: Counts) {
    forall i, j :: 0 <= i < j < |counts| ==> counts[i].0 != counts[j].0
  }

  /** The sum of the counts. */
  function Sum(counts: Counts): nat {
    if counts == [] then 0 else counts[0].1 + Sum(counts[1..])
  }

  lemma {:induction false} SumAppend(counts: Counts, p: (string, nat))
    ensures Sum(counts + [p]) == Sum(counts) + p.1
  {
    if counts != [] {
      assert (counts + [p])[1..] == counts[1..] + [p];
      SumAppend(counts[1..], p);
    }
  }

  lemma {:induction false} SumUpdate(counts: Counts, k: nat, p: (string, nat))
    requires k < |counts|
    ensures Sum(counts[k := p]) + counts[k].1 == Sum(counts) + p.1
  {
    if k > 0 {
      assert counts[k := p][1..] == counts[1..][k - 1 := p];
      SumUpdate(counts[1..], k - 1, p);
    }
  }

  /** How often `k` occurs in `keys`. */
  function Occurrences(keys: seq<string>, k: string): nat {
    if keys == [] then 0
    else Occurrences(keys[..|keys| - 1], k) + if keys[|keys| - 1] == k then 1 else 0
  }

  lemma {:induction false} OccurrencesOfAbsent(keys: seq<string>, k: string)
    requires k !in keys
    ensures Occurrences(keys, k) == 0
  {
    if keys != [] {
      assert keys[|keys| - 1] in keys;
      var init := keys[..|keys| - 1];
      assert forall x :: x in init ==> x in keys;
      OccurrencesOfAbsent(init, k);
    }
  }

  lemma {:induction false} OccurrencesOfPresent(keys: seq<string>, i: int)
    requires 0 <= i < |keys|
    ensures Occurrences(keys, keys[i]) >= 1
  {
    if i < |keys| - 1 {
      OccurrencesOfPresent(keys[..|keys| - 1], i);
    }
  }

  /** The keys in order of first occurrence: the key order of a dict that
      is filled in `keys` order. */
  function Dedup(keys: seq<string>): seq<string> {
    if keys == [] then []
    else
      var d := Dedup(keys[..|keys| - 1]);
      if keys[|keys| - 1] in d then d else d + [keys[|keys| - 1]]
  }

  /** Dedup keeps every key once, and only the keys there are. */
  lemma {:induction false} DedupMeaning(keys: seq<string>)
    ensures forall i, j :: 0 <= i < j < |Dedup(keys)| ==> Dedup(keys)[i] != Dedup(keys)[j]
    ensures forall k :: k in Dedup(keys) <==> k in keys
  {
    if keys != [] {
      var init := keys[..|keys| - 1];
      DedupMeaning(init);
      assert keys == init + [keys[|keys| - 1]];
    }
  }

  /** The index of `key` among the keys, if it is one. */
  function FindKey(counts: Counts, key: string): (r: Option<nat>)
    ensures r.Some? ==> r.value < |counts| && counts[r.value].0 == key
    ensures r.None? ==> forall i :: 0 <= i < |counts| ==> counts[i].0 != key
  {
    if counts == [] then None
    else if counts[0].0 == key then Some(0)
    else
      assert forall i :: 1 <= i < |counts| ==> counts[i] == counts[1..][i - 1];
      match FindKey(counts[1..], key)
      case None => None
      case Some(k) => Some(k + 1)
  }

  /** `counts` is the dict a counting loop builds over `keys`: its keys in
      order of first occurrence, each with the number of its occurrences. */
  ghost predicate IsTallyOf(counts: Counts, keys: seq<string>) {
    Keys(counts) == Dedup(keys)
    && forall i :: 0 <= i < |counts| ==> counts[i].1 == Occurrences(keys, counts[i].0)
  }

  /** What a tally guarantees beyond its definition: distinct keys, every
      key that occurs, each with a positive count. */
  lemma TallyMeaning(counts: Counts, keys: seq<string>)
    requires IsTallyOf(counts, keys)
    ensures DistinctKeys(counts)
    ensures forall k :: k in keys <==> k in Keys(counts)
    ensures forall i :: 0 <= i < |counts| ==> counts[i].1 >= 1
  {
    DedupMeaning(keys);
    forall i | 0 <= i < |counts|
      ensures counts[i].1 >= 1
    {
      assert counts[i].0 in Keys(counts);
      var j :| 0 <= j < |keys| && keys[j] == counts[i].0;
      OccurrencesOfPresent(keys, j);
    }
  }

  /** Counting a key that is already there adds one to its entry. */
  lemma TallyStepFound(counts: Counts, keys: seq<string>, key: string, k: nat)
    requires IsTallyOf(counts, keys) && k < |counts| && counts[k].0 == key
    ensures IsTallyOf(counts[k := (key, counts[k].1 + 1)], keys + [key])
  {
    var next := keys + [key];
    assert next[..|next| - 1] == keys;
    assert Keys(counts)[k] == key;
    DedupMeaning(keys);
    assert Keys(counts[k := (key, counts[k].1 + 1)]) == Keys(counts);
  }

  /** Counting a new key appends it with count 1. */
  lemma TallyStepNew(counts: Counts, keys: seq<string>, key: string)
    requires IsTallyOf(counts, keys) && forall i :: 0 <= i < |counts| ==> counts[i].0 != key
    ensures IsTallyOf(counts + [(key, 1)], keys + [key])
  {
    assert key !in Keys(counts);
    var next := keys + [key];
    assert next[..|next| - 1] == keys;
    DedupMeaning(keys);
    OccurrencesOfAbsent(keys, key);
    assert Keys(counts + [(key, 1)]) == Keys(counts) + [key];
  }

  /** The counting loop of `generate_achievement_metrics`:
      `counts[key] = counts.get(key, 0) + 1` for every key in order. */
  method Tally(keys: seq<string>) returns (counts: Counts)
    ensures IsTallyOf(counts, keys)
    ensures Sum(counts) == |keys|
  {
    counts := [];
    for i := 0 to |keys|
      invariant IsTallyOf(counts, keys[..i])
      invariant Sum(counts) == i
    {
      var key := keys[i];
      assert keys[..i + 1] == keys[..i] + [key];
      match FindKey(counts, key) {
        case Some(k) =>
          TallyStepFound(counts, keys[..i], key, k);
          SumUpdate(counts, k, (key, counts[k].1 + 1));
          counts := counts[k := (key, counts[k].1 + 1)];
        case None =>
          TallyStepNew(counts, keys[..i], key);
          SumAppend(counts, (key, 1));
          counts := counts + [(key, 1)];
      }
    }
    assert keys[..|keys|] == keys;
  }

  /** The category an achievement is counted under. */
  function CategoryOf(a: Achievement): (c: string)
    ensures a.metadata.category.None? ==> c == "Uncategorized"
    ensures a.metadata.category.Some? ==> c == a.metadata.category.value
  {
    a.metadata.category.GetOr("Uncategorized")
  }

  /** Whether an achievement takes part in the trend: its date is known. */
  predicate IsDated(a: Achievement) {
    a.fileDate != "" && a.fileDate != "Unknown"
  }

  /** The year-month key of a date, the first seven characters. */
  function MonthOf(a: Achievement): (m: string)
    ensures |m| == if |a.fileDate| < 7 then |a.fileDate| else 7
    ensures m == a.fileDate[..|m|]
  {
    Take(a.fileDate, 7)
  }

  /** The keys the category loop counts, one per achievement. */
  function CategoryKeys(s: seq<Achievement>): (ks: seq<string>)
    ensures |ks| == |s| && forall i :: 0 <= i < |s| ==> ks[i] == CategoryOf(s[i])
  {
    seq(|s|, i requires 0 <= i < |s| => CategoryOf(s[i]))
  }

  /** The keys the date loop counts: the month of every dated achievement, in order. */
  function MonthKeys(s: seq<Achievement>): seq<string> {
    if s == [] then []
    else MonthKeys(s[..|s| - 1]) + if IsDated(s[|s| - 1]) then [MonthOf(s[|s| - 1])] else []
  }

  /** The number of dated achievements. */
  function CountDated(s: seq<Achievement>): nat {
    if s == [] then 0
    else CountDated(s[..|s| - 1]) + if IsDated(s[|s| - 1]) then 1 else 0
  }

  /** The months are exactly those of the dated achievements, one per dated achievement. */
  lemma {:induction false} MonthKeysMeaning(s: seq<Achievement>)
    ensures |MonthKeys(s)| == CountDated(s)
    ensures forall m :: m in MonthKeys(s) <==> exists a :: a in s && IsDated(a) && MonthOf(a) == m
  {
    if s != [] {
      var init := s[..|s| - 1];
      MonthKeysMeaning(init);
      assert s == init + [s[|s| - 1]];
      forall m | m in MonthKeys(s)
        ensures exists a :: a in s && IsDated(a) && MonthOf(a) == m
      {
        if m in MonthKeys(init) {
          var a :| a in init && IsDated(a) && MonthOf(a) == m;
          assert a in s;
        } else {
          assert IsDated(s[|s| - 1]) && m == MonthOf(s[|s| - 1]);
        }
      }
    }
  }

  /** Python string order on keys, strict. */
  predicate StrictlyAscending(counts: Counts) {
    forall i, j :: 0 <= i < j < |counts| ==> LexLt(counts[i].0, counts[j].0)
  }

  /** Inserts an item before the first one whose key is not smaller. */
  function InsertByKey(p: (string, nat), t: Counts): Counts {
    if t == [] || LexLe(p.0, t[0].0) then [p] + t
    else [t[0]] + InsertByKey(p, t[1..])
  }

  /** `sorted(dates.items())`: the items in ascending key order. */
  function SortByKey(c: Counts): Counts {
    if c == [] then [] else InsertByKey(c[0], SortByKey(c[1..]))
  }

  lemma {:induction false} InsertByKeyPermutes(p: (string, nat), t: Counts)
    ensures multiset(InsertByKey(p, t)) == multiset([p] + t)
  {
    if !(t == [] || LexLe(p.0, t[0].0)) {
      InsertByKeyPermutes(p, t[1..]);
      assert t == [t[0]] + t[1..];
    }
  }

  lemma {:induction false} SortByKeyPermutes(c: Counts)
    ensures multiset(SortByKey(c)) == multiset(c)
  {
    if c != [] {
      SortByKeyPermutes(c[1..]);
      InsertByKeyPermutes(c[0], SortByKey(c[1..]));
      assert c == [c[0]] + c[1..];
    }
  }

  lemma {:induction false} InsertByKeyItems(p: (string, nat), t: Counts)
    ensures forall x :: x in InsertByKey(p, t) <==> x == p || x in t
  {
    if !(t == [] || LexLe(p.0, t[0].0)) {
      InsertByKeyItems(p, t[1..]);
      assert t == [t[0]] + t[1..];
    }
  }

  lemma {:induction false} InsertByKeyAscending(p: (string, nat), t: Counts)
    requires StrictlyAscending(t)
    requires forall i :: 0 <= i < |t| ==> t[i].0 != p.0
    ensures StrictlyAscending(InsertByKey(p, t))
  {
    var r := InsertByKey(p, t);
    if t == [] || LexLe(p.0, t[0].0) {
      forall i, j | 0 <= i < j < |r|
        ensures LexLt(r[i].0, r[j].0)
      {
        if i == 0 && j > 1 {
          LexLtTransitive(p.0, t[0].0, t[j - 1].0);
        }
      }
    } else {
      LexLeTotal(p.0, t[0].0);
      var rest := InsertByKey(p, t[1..]);
      InsertByKeyAscending(p, t[1..]);
      InsertByKeyItems(p, t[1..]);
      forall j | 0 <= j < |rest|
        ensures LexLt(t[0].0, rest[j].0)
      {
        assert rest[j] in rest;
        if rest[j] != p {
          var k :| 0 <= k < |t[1..]| && t[1..][k] == rest[j];
          assert t[k + 1] == rest[j];
        }
      }
      assert r == [t[0]] + rest;
    }
  }

  lemma {:induction false} SortByKeyAscending(c: Counts)
    requires DistinctKeys(c)
    ensures StrictlyAscending(SortByKey(c))
  {
    if c != [] {
      SortByKeyAscending(c[1..]);
      SortByKeyPermutes(c[1..]);
      var t := SortByKey(c[1..]);
      forall i | 0 <= i < |t|
        ensures t[i].0 != c[0].0
      {
        assert t[i] in multiset(c[1..]);
        var k :| 0 <= k < |c[1..]| && c[1..][k] == t[i];
        assert c[k + 1] == t[i];
      }
      InsertByKeyAscending(c[0], t);
    }
  }

  lemma {:induction false} InsertByKeySum(p: (string, nat), t: Counts)
    ensures Sum(InsertByKey(p, t)) == p.1 + Sum(t)
  {
    if !(t == [] || LexLe(p.0, t[0].0)) {
      InsertByKeySum(p, t[1..]);
      assert ([t[0]] + InsertByKey(p, t[1..]))[1..] == InsertByKey(p, t[1..]);
    } else {
      assert ([p] + t)[1..] == t;
    }
  }

  /** Sorting keeps the total. */
  lemma {:induction false} SortByKeySum(c: Counts)
    ensures Sum(SortByKey(c)) == Sum(c)
  {
    if c != [] {
      SortByKeySum(c[1..]);
      InsertByKeySum(c[0], SortByKey(c[1..]));
    }
  }

  /** `counts` is a tally of `keys` in ascending key order. */
  ghost predicate IsSortedTallyOf(counts: Counts, keys: seq<string>) {
    StrictlyAscending(counts)
    && (forall k :: k in keys <==> k in Keys(counts))
    && forall i :: 0 <= i < |counts| ==> counts[i].1 == Occurrences(keys, counts[i].0)
  }

  /** A permutation has the same items. */
  lemma SameItems(c: Counts, d: Counts)
    requires multiset(c) == multiset(d)
    ensures forall x :: x in c <==> x in d
  {
    forall x
      ensures x in c <==> x in d
    {
      assert x in c <==> x in multiset(c);
      assert x in d <==> x in multiset(d);
    }
  }

  /** Items of a permutation of a tally carry their numbers of occurrences,
      and its keys are the tally's keys. */
  lemma PermutedTally(counts: Counts, keys: seq<string>, sorted: Counts)
    requires IsTallyOf(counts, keys)
    requires forall x :: x in sorted <==> x in counts
    ensures forall i :: 0 <= i < |sorted| ==> sorted[i].1 == Occurrences(keys, sorted[i].0)
    ensures forall k :: k in Keys(counts) <==> k in Keys(sorted)
  {
    forall i | 0 <= i < |sorted|
      ensures sorted[i].1 == Occurrences(keys, sorted[i].0) && sorted[i].0 in Keys(counts)
    {
      assert sorted[i] in sorted;
      var k :| 0 <= k < |counts| && counts[k] == sorted[i];
      assert Keys(counts)[k] == sorted[i].0;
    }
    forall k | k in Keys(counts)
      ensures k in Keys(sorted)
    {
      var j :| 0 <= j < |counts| && counts[j].0 == k;
      assert counts[j] in counts;
      var i :| 0 <= i < |sorted| && sorted[i] == counts[j];
      assert Keys(sorted)[i] == k;
    }
  }

  /** Sorting a tally by key gives the sorted tally with the same total. */
  lemma SortedTally(counts: Counts, keys: seq<string>)
    requires IsTallyOf(counts, keys)
    ensures IsSortedTallyOf(SortByKey(counts), keys)
    ensures Sum(SortByKey(counts)) == Sum(counts)
  {
    TallyMeaning(counts, keys);
    var sorted := SortByKey(counts);
    SortByKeyAscending(counts);
    SortByKeyPermutes(counts);
    SortByKeySum(counts);
    SameItems(sorted, counts);
    PermutedTally(counts, keys, sorted);
  }

  /** The number of metrics an achievement records. */
  function MetricCount(a: Achievement): nat {
    |a.metadata.metrics|
  }

  /** `s[i]` has metrics, as many as any achievement in `s`, and strictly
      more than every achievement before it: the one a scan that replaces
      its choice only on a strictly larger count ends with. */
  ghost predicate IsFirstMostMetrics(s: seq<Achievement>, i: int) {
    0 <= i < |s|
    && MetricCount(s[i]) > 0
    && (forall j :: 0 <= j < |s| ==> MetricCount(s[j]) <= MetricCount(s[i]))
    && (forall j :: 0 <= j < i ==> MetricCount(s[j]) < MetricCount(s[i]))
  }

  /** At most one achievement is the first with the most metrics. */
  lemma FirstMostMetricsUnique(s: seq<Achievement>, i: int, j: int)
    requires IsFirstMostMetrics(s, i) && IsFirstMostMetrics(s, j)
    ensures i == j
  {
  }

  /** The title shown for an achievement. */
  function TitleOf(a: Achievement): (t: string)
    ensures a.metadata.title.None? ==> t == "Unknown"
    ensures a.metadata.title.Some? ==> t == a.metadata.title.value
  {
    a.metadata.title.GetOr("Unknown")
  }

  /** The "highest impact" scan: the title of the first achievement with
      the most metrics, or None when no achievement has any. */
  method HighestImpact(achievements: seq<Achievement>) returns (highest: Option<string>)
    ensures highest.None? <==> forall j :: 0 <= j < |achievements| ==> MetricCount(achievements[j]) == 0
    ensures highest.Some? ==>
      exists i :: IsFirstMostMetrics(achievements, i) && highest.value == TitleOf(achievements[i])
  {
    highest := None;
    var highestMetrics: seq<Metric> := [];
    ghost var best := -1;
    for i := 0 to |achievements|
      invariant highest.None? <==> forall j :: 0 <= j < i ==> MetricCount(achievements[j]) == 0
      invariant highest.None? ==> highestMetrics == []
      invariant highest.Some? ==>
        IsFirstMostMetrics(achievements[..i], best)
        && highest.value == TitleOf(achievements[best])
        && highestMetrics == achievements[best].metadata.metrics
    {
      var metrics := achievements[i].metadata.metrics;
      if |metrics| > 0 && (highest.None? || |metrics| > |highestMetrics|) {
        highest := Some(TitleOf(achievements[i]));
        highestMetrics := metrics;
        best := i;
      }
    }
    assert achievements[..|achievements|] == achievements;
  }

  /** The result of `generate_achievement_metrics`. */
  datatype AchievementMetrics = AchievementMetrics(
    totalAchievements: nat,
    categories: Counts,
    trendOverTime: Counts,
    highestImpact: Option<string>)

  /** `generate_achievement_metrics`: the total, the count per category in
      order of first appearance, the count per month of the dated
      achievements in month order, and the highest-impact title. */
  method GenerateMetrics(achievements: seq<Achievement>) returns (m: AchievementMetrics)
    ensures m.totalAchievements == |achievements|
    ensures IsTallyOf(m.categories, CategoryKeys(achievements))
    ensures DistinctKeys(m.categories)
    ensures forall k :: k in Keys(m.categories) <==> exists a :: a in achievements && CategoryOf(a) == k
    ensures Sum(m.categories) == m.totalAchievements
    ensures IsSortedTallyOf(m.trendOverTime, MonthKeys(achievements))
    ensures forall k :: k in Keys(m.trendOverTime) <==> exists a :: a in achievements && IsDated(a) && MonthOf(a) == k
    ensures Sum(m.trendOverTime) == CountDated(achievements)
    ensures m.highestImpact.None? <==> forall a :: a in achievements ==> MetricCount(a) == 0
    ensures m.highestImpact.Some? ==>
      exists i :: IsFirstMostMetrics(achievements, i) && m.highestImpact.value == TitleOf(achievements[i])
  {
    var categoryKeys := CategoryKeys(achievements);
    var categories := Tally(categoryKeys);
    TallyMeaning(categories, categoryKeys);
    forall k | k in categoryKeys
      ensures exists a :: a in achievements && CategoryOf(a) == k
    {
      var i :| 0 <= i < |categoryKeys| && categoryKeys[i] == k;
      assert achievements[i] in achievements;
    }
    var monthKeys := MonthKeys(achievements);
    var dates := Tally(monthKeys);
    MonthKeysMeaning(achievements);
    SortedTally(dates, monthKeys);
    TallyMeaning(dates, monthKeys);
    var highest := HighestImpact(achievements);
    m := AchievementMetrics(|achievements|, categories, SortByKey(dates), highest);
  }
}
