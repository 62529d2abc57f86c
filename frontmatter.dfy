/** Splitting a Markdown file into its YAML front matter and its body. The
    YAML decoder itself is outside the model: it is passed in as a function
    from the front-matter text to a decoded record or an error. */
module FrontMatter {
  import opened Wrappers
  import opened Text

  /** One entry of an achievement's `metrics` list. */
  datatype Metric = Metric(key: Option<string>, value: Option<string>)

  /** The keys of the front matter the dashboard reads; `None` is a key
      that is absent. */
  datatype Metadata = Metadata(
    title: Option<string>,
    category: Option<string>,
    date: Option<string>,
    tags: seq<string>,
    metrics: seq<Metric>)

  /** The metadata of a file without front matter: `{}`. */
  const NO_METADATA := Metadata(None, None, None, [], [])

  /** What the YAML decoder makes of the front-matter text. */
  datatype Decoded = YamlError | Decoded(metadata: Metadata)

  /** A parsed file: its metadata and its Markdown body. */
  datatype Parsed = Parsed(metadata: Metadata, content: string)

  /** The delimiter `---` starts at index k of s. */
  predicate FenceAt(s: string, k: int) {
    0 <= k && k + 3 <= |s| && s[k..k + 3] == "---"
  }

  /** k is the first delimiter at or after `from`: Python's `str.find`. */
  ghost predicate IsFirstFenceFrom(s: string, from: int, k: int) {
    from <= k && FenceAt(s, k) && forall j :: from <= j < k ==> !FenceAt(s, j)
  }

  /** The first delimiter at or after `from`, if there is one. */
  function FindFence(s: string, from: nat): (r: Option<nat>)
    decreases |s| - from
    ensures r.Some? ==> IsFirstFenceFrom(s, from, r.value)
    ensures r.None? ==> forall k :: from <= k ==> !FenceAt(s, k)
  {
    if from + 3 > |s| then None
    else if FenceAt(s, from) then Some(from)
    else FindFence(s, from + 1)
  }

  /** Python's `content.startswith("---")` followed by
      `content.split("---", 2)` yielding three parts: the stripped text
      between the opening delimiter and the next one, and the stripped rest.
      `None` when the text has no such pair of delimiters. */
  function SplitFrontMatter(content: string): (r: Option<(string, string)>)
    ensures r.Some? <==> FenceAt(content, 0) && exists k :: 3 <= k && FenceAt(content, k)
    ensures r.Some? ==>
              exists k :: IsFirstFenceFrom(content, 3, k)
                          && r.value == (Strip(content[3..k]), Strip(content[k + 3..]))
  {
    if !FenceAt(content, 0) then None
    else
      match FindFence(content, 3)
      case None => None
      case Some(k) => Some((Strip(content[3..k]), Strip(content[k + 3..])))
  }

  /** Splitting a text assembled from a front matter and a body gives both
      back, stripped, when the front matter cannot be mistaken for the
      closing delimiter. */
  lemma SplitOfAssembled(front: string, body: string)
    requires forall j :: 0 <= j < |front| ==> !FenceAt(front + "---", j)
    ensures SplitFrontMatter("---" + front + "---" + body) == Some((Strip(front), Strip(body)))
  {
    var content := "---" + front + "---" + body;
    var k := 3 + |front|;
    assert content[..3] == "---";
    assert FenceAt(content, 0);
    assert content[k..k + 3] == "---";
    assert FenceAt(content, k);
    forall j | 3 <= j < k
      ensures !FenceAt(content, j)
    {
      assert content[j..j + 3] == (front + "---")[j - 3..j];
      assert !FenceAt(front + "---", j - 3);
    }
    assert IsFirstFenceFrom(content, 3, k);
    FirstFenceUnique(content, 3, k, FindFence(content, 3).value);
    assert content[3..k] == front;
    assert content[k + 3..] == body;
  }

  lemma FirstFenceUnique(s: string, from: int, k: int, k': int)
    requires IsFirstFenceFrom(s, from, k) && IsFirstFenceFrom(s, from, k')
    ensures k == k'
  {
  }

  /** `parse_markdown_with_yaml` on a file's text. `None` exactly when the
      front matter does not decode; a text without front matter is kept
      whole, unstripped, with empty metadata. */
  function ParseMarkdown(content: string, decode: string -> Decoded): (r: Option<Parsed>)
    ensures r.None? <==> SplitFrontMatter(content).Some? && decode(SplitFrontMatter(content).value.0).YamlError?
    ensures SplitFrontMatter(content).None? ==> r == Some(Parsed(NO_METADATA, content))
    ensures r.Some? && SplitFrontMatter(content).Some? ==>
              Decoded(r.value.metadata) == decode(SplitFrontMatter(content).value.0)
              && r.value.content == SplitFrontMatter(content).value.1
  {
    match SplitFrontMatter(content)
    case None => Some(Parsed(NO_METADATA, content))
    case Some((front, body)) =>
      match decode(front)
      case YamlError => None
      case Decoded(m) => Some(Parsed(m, body))
  }
}
