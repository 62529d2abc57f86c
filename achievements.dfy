/** Collecting the achievement files of a directory: which files count,
    the date each one is filed under, and the newest-first order. */
module Achievements {
  import opened Wrappers
  import opened Text
  import opened FrontMatter

  /** A Markdown file of the achievements directory: its base name and its
      text. Finding and reading the files is outside the model. */
  datatype MarkdownFile = MarkdownFile(name: string, text: string)

  /** A collected achievement: the parsed file, its name and the date it is
      filed under. */
  datatype Achievement = Achievement(metadata: Metadata, content: string, filename: string, fileDate: string)

  /** The two files of the directory that are not achievements. */
  predicate IsSkipped(name: string) {
    name == "CLAUDE.md" || name == "plan.md"
  }

  predicate IsDigit(c: char) {
    '0' <= c <= '9'
  }

  /** A `YYYY-MM-DD` string. */
  predicate IsIsoDate(d: string) {
    && |d| == 10
    && IsDigit(d[0]) && IsDigit(d[1]) && IsDigit(d[2]) && IsDigit(d[3]) && d[4] == '-'
    && IsDigit(d[5]) && IsDigit(d[6]) && d[7] == '-'
    && IsDigit(d[8]) && IsDigit(d[9])
  }

  /** The name matches `(\d{4}-\d{2}-\d{2})-.*` from its start. */
  predicate HasDatePrefix(name: string) {
    |name| >= 11 && IsIsoDate(name[..10]) && name[10] == '-'
  }

  /** The date an achievement is filed under: the date its name starts
      with, else the `date` of its metadata, else "Unknown". */
  function FileDate(name: string, metadata: Metadata): (d: string)
    ensures HasDatePrefix(name) ==> d == name[..10] && IsIsoDate(d)
    ensures !HasDatePrefix(name) && metadata.date.Some? ==> d == metadata.date.value
    ensures !HasDatePrefix(name) && metadata.date.None? ==> d == "Unknown"
  {
    if HasDatePrefix(name) then name[..10] else metadata.date.GetOr("Unknown")
  }

  /** The achievement one file contributes, if any: none for a skipped
      name or a front matter that does not decode. */
  function Entry(file: MarkdownFile, decode: string -> Decoded): Option<Achievement> {
    if IsSkipped(file.name) then None
    else
      match ParseMarkdown(file.text, decode)
      case None => None
      case Some(p) => Some(Achievement(p.metadata, p.content, file.name, FileDate(file.name, p.metadata)))
  }

  /** The achievements of a list of files, in file order, before sorting. */
  function Collect(files: seq<MarkdownFile>, decode: string -> Decoded): seq<Achievement> {
    if files == [] then []
    else
      var last := files[|files| - 1];
      Collect(files[..|files| - 1], decode)
      + match Entry(last, decode) case None => [] case Some(a) => [a]
  }

  /** No skipped name is ever collected, and every collected achievement
      comes from a file of that name that parsed. */
  lemma {:induction false} CollectedFromFiles(files: seq<MarkdownFile>, decode: string -> Decoded, a: Achievement)
    requires a in Collect(files, decode)
    ensures !IsSkipped(a.filename)
    ensures exists i :: 0 <= i < |files| && Entry(files[i], decode) == Some(a)
  {
    var init := files[..|files| - 1];
    if a in Collect(init, decode) {
      CollectedFromFiles(init, decode, a);
      var i :| 0 <= i < |init| && Entry(init[i], decode) == Some(a);
      assert files[i] == init[i];
    } else {
      assert Entry(files[|files| - 1], decode) == Some(a);
    }
  }

  /** The number of collected achievements that carry a given file name. */
  function CountNamed(s: seq<Achievement>, name: string): nat {
    if s == [] then 0
    else CountNamed(s[..|s| - 1], name) + if s[|s| - 1].filename == name then 1 else 0
  }

  /** With distinct file names, every file that is not skipped and parses
      is collected exactly once. */
  lemma {:induction false} CollectedOnce(files: seq<MarkdownFile>, decode: string -> Decoded, i: int)
    requires forall j, k :: 0 <= j < k < |files| ==> files[j].name != files[k].name
    requires 0 <= i < |files| && Entry(files[i], decode).Some?
    ensures CountNamed(Collect(files, decode), files[i].name) == 1
  {
    var init := files[..|files| - 1];
    var last := files[|files| - 1];
    var tail := match Entry(last, decode) case None => [] case Some(a) => [a];
    assert Collect(files, decode) == Collect(init, decode) + tail;
    assert forall j :: 0 <= j < |init| ==> init[j] == files[j];
    CountNamedAppend(Collect(init, decode), tail, files[i].name);
    if i == |files| - 1 {
      NotNamedInCollect(init, decode, last.name);
      assert tail[..0] == [];
      assert CountNamed(tail, last.name) == 1;
    } else {
      CollectedOnce(init, decode, i);
      if tail != [] {
        assert tail[..0] == [];
        assert tail[0].filename == last.name != files[i].name;
      }
      assert CountNamed(tail, files[i].name) == 0;
    }
  }

  lemma {:induction false} NotNamedInCollect(files: seq<MarkdownFile>, decode: string -> Decoded, name: string)
    requires forall j :: 0 <= j < |files| ==> files[j].name != name
    ensures CountNamed(Collect(files, decode), name) == 0
  {
    if files != [] {
      var init := files[..|files| - 1];
      var last := files[|files| - 1];
      var tail := match Entry(last, decode) case None => [] case Some(a) => [a];
      CountNamedAppend(Collect(init, decode), tail, name);
      NotNamedInCollect(init, decode, name);
    }
  }

  lemma {:induction false} CountNamedAppend(s: seq<Achievement>, t: seq<Achievement>, name: string)
    ensures CountNamed(s + t, name) == CountNamed(s, name) + CountNamed(t, name)
  {
    if t != [] {
      assert (s + t)[..|s + t| - 1] == s + t[..|t| - 1];
      CountNamedAppend(s, t[..|t| - 1], name);
    } else {
      assert s + t == s;
    }
  }

  /** Newest first: file dates never increase along the list. */
  ghost predicate NewestFirst(s: seq<Achievement>) {
    forall i, j :: 0 <= i < j < |s| ==> LexLe(s[j].fileDate, s[i].fileDate)
  }

  /** The achievements filed under one date, in list order. */
  function FiledUnder(s: seq<Achievement>, d: string): seq<Achievement> {
    if s == [] then []
    else (if s[0].fileDate == d then [s[0]] else []) + FiledUnder(s[1..], d)
  }

  /** Places `a` before the first achievement that is not newer than it. */
  function InsertNewest(a: Achievement, s: seq<Achievement>): seq<Achievement> {
    if s == [] || LexLe(s[0].fileDate, a.fileDate) then [a] + s
    else [s[0]] + InsertNewest(a, s[1..])
  }

  /** Python's stable `sort(key=file_date, reverse=True)`. */
  function SortNewestFirst(s: seq<Achievement>): seq<Achievement> {
    if s == [] then [] else InsertNewest(s[0], SortNewestFirst(s[1..]))
  }

  lemma {:induction false} InsertNewestPermutes(a: Achievement, s: seq<Achievement>)
    ensures multiset(InsertNewest(a, s)) == multiset(s) + multiset{a}
  {
    if s != [] && !LexLe(s[0].fileDate, a.fileDate) {
      InsertNewestPermutes(a, s[1..]);
      assert s == [s[0]] + s[1..];
    }
  }

  lemma {:induction false} InsertNewestSorted(a: Achievement, s: seq<Achievement>)
    requires NewestFirst(s)
    ensures NewestFirst(InsertNewest(a, s))
  {
    if s == [] {
    } else if LexLe(s[0].fileDate, a.fileDate) {
      forall j | 0 <= j < |s|
        ensures LexLe(s[j].fileDate, a.fileDate)
      {
        if j > 0 {
          LexLeTransitive(s[j].fileDate, s[0].fileDate, a.fileDate);
        }
      }
    } else {
      LexLeTotal(s[0].fileDate, a.fileDate);
      var rest := InsertNewest(a, s[1..]);
      InsertNewestSorted(a, s[1..]);
      InsertNewestPermutes(a, s[1..]);
      forall j | 0 <= j < |rest|
        ensures LexLe(rest[j].fileDate, s[0].fileDate)
      {
        assert rest[j] in multiset(rest);
        assert rest[j] == a || rest[j] in s[1..];
      }
    }
  }

  lemma {:induction false} InsertNewestStable(a: Achievement, s: seq<Achievement>, d: string)
    ensures FiledUnder(InsertNewest(a, s), d)
            == (if a.fileDate == d then [a] else []) + FiledUnder(s, d)
  {
    if s == [] {
    } else if LexLe(s[0].fileDate, a.fileDate) {
      assert ([a] + s)[1..] == s;
    } else {
      var rest := InsertNewest(a, s[1..]);
      InsertNewestStable(a, s[1..], d);
      var r := [s[0]] + rest;
      assert r[0] == s[0] && r[1..] == rest;
      var head := if s[0].fileDate == d then [s[0]] else [];
      assert FiledUnder(r, d) == head + FiledUnder(rest, d);
      if a.fileDate == d {
        LexLeReflexive(a.fileDate);
        assert head == [];
      }
    }
  }

  /** The sort orders newest first. */
  lemma {:induction false} SortNewestFirstSorted(s: seq<Achievement>)
    ensures NewestFirst(SortNewestFirst(s))
  {
    if s != [] {
      SortNewestFirstSorted(s[1..]);
      InsertNewestSorted(s[0], SortNewestFirst(s[1..]));
    }
  }

  /** The sort neither loses nor adds an achievement. */
  lemma {:induction false} SortNewestFirstPermutes(s: seq<Achievement>)
    ensures multiset(SortNewestFirst(s)) == multiset(s)
  {
    if s != [] {
      SortNewestFirstPermutes(s[1..]);
      InsertNewestPermutes(s[0], SortNewestFirst(s[1..]));
      assert s == [s[0]] + s[1..];
    }
  }

  /** The sort is stable: achievements filed under the same date keep their
      relative order. */
  lemma {:induction false} SortNewestFirstStable(s: seq<Achievement>, d: string)
    ensures FiledUnder(SortNewestFirst(s), d) == FiledUnder(s, d)
  {
    if s != [] {
      SortNewestFirstStable(s[1..], d);
      InsertNewestStable(s[0], SortNewestFirst(s[1..]), d);
    }
  }

  /** No collected achievement has a skipped name. */
  lemma CollectedNotSkipped(files: seq<MarkdownFile>, decode: string -> Decoded)
    ensures forall a :: a in Collect(files, decode) ==> !IsSkipped(a.filename)
  {
  }

  /** `get_all_achievements`: collects the achievements of the files by
      successive appends and sorts them newest first. */
  method GetAllAchievements(files: seq<MarkdownFile>, decode: string -> Decoded)
    returns (achievements: seq<Achievement>)
    ensures achievements == SortNewestFirst(Collect(files, decode))
    ensures NewestFirst(achievements)
    ensures multiset(achievements) == multiset(Collect(files, decode))
    ensures forall d :: FiledUnder(achievements, d) == FiledUnder(Collect(files, decode), d)
    ensures forall a :: a in achievements ==> !IsSkipped(a.filename)
  {
    achievements := [];
    for i := 0 to |files|
      invariant achievements == Collect(files[..i], decode)
    {
      assert files[..i + 1][..i] == files[..i];
      var entry := Entry(files[i], decode);
      if entry.Some? {
        achievements := achievements + [entry.value];
      }
    }
    assert files[..|files|] == files;
    var collected := achievements;
    achievements := SortNewestFirst(collected);
    SortNewestFirstSorted(collected);
    SortNewestFirstPermutes(collected);
    forall d
      ensures FiledUnder(achievements, d) == FiledUnder(collected, d)
    {
      SortNewestFirstStable(collected, d);
    }
    CollectedNotSkipped(files, decode);
    forall a | a in achievements
      ensures a in collected
    {
      assert a in multiset(collected);
    }
  }
}
