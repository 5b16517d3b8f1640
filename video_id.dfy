/**
  Extraction of a YouTube video identifier from a URL (`extract_video_id`,
  app.py lines 24-42).

  Each of the three patterns is a literal prefix followed by a capture group of
  exactly eleven characters from `[A-Za-z0-9_-]`. A pattern matches at position
  `i` when the prefix occurs at `i` and eleven identifier characters follow it;
  nothing is required of the character after those eleven. `re.search` returns
  the leftmost such position, and the patterns are tried in their fixed order,
  the first that matches anywhere deciding the result.
*/
module VideoId {
  import opened Wrappers

  /** Length of a video identifier: the `{11}` of every pattern. */
  const IdLength: nat := 11

  /** The literal prefixes of the three patterns, in the order they are tried. */
  const WatchPrefix: string := "v="
  const ShortLinkPrefix: string := "youtu.be/"
  const ShortsPrefix: string := "youtube.com/shorts/"
  const Patterns: seq<string> := [WatchPrefix, ShortLinkPrefix, ShortsPrefix]

  /** The character class `[a-zA-Z0-9_-]`. */
  predicate IsIdChar(c: char) {
    ('a' <= c <= 'z') || ('A' <= c <= 'Z') || ('0' <= c <= '9') || c == '_' || c == '-'
  }

  /** A well-formed video identifier: eleven characters of the class. */
  predicate IsVideoId(s: string) {
    |s| == IdLength && forall k :: 0 <= k < |s| ==> IsIdChar(s[k])
  }

  /** The pattern `prefix([a-zA-Z0-9_-]{11})` matches `url` starting at index `i`. */
  predicate MatchesAt(url: string, prefix: string, i: int)
  {
    && 0 <= i
    && i + |prefix| + IdLength <= |url|
    && url[i..i + |prefix|] == prefix
    && forall j :: i + |prefix| <= j < i + |prefix| + IdLength ==> IsIdChar(url[j])
  }

  /** `match.group(1)` of a match at `i`: the eleven characters after the prefix. */
  function Capture(url: string, prefix: string, i: int): (id: string)
    requires MatchesAt(url, prefix, i)
    ensures IsVideoId(id)
    ensures url[i..i + |prefix|] + id == url[i..i + |prefix| + IdLength]
  {
    url[i + |prefix|..i + |prefix| + IdLength]
  }

  /** The pattern for `prefix` matches nowhere in `url`. */
  ghost predicate NoMatch(url: string, prefix: string) {
    forall j :: 0 <= j ==> !MatchesAt(url, prefix, j)
  }

  /**
    The scan `re.search` performs: the first position at or after `start` where
    the pattern matches, or `None` when there is none.
  */
  function SearchFrom(url: string, prefix: string, start: nat): (r: Option<nat>)
    decreases |url| - start
    ensures r.Some? ==> start <= r.value && MatchesAt(url, prefix, r.value)
    ensures r.Some? ==> forall j :: start <= j < r.value ==> !MatchesAt(url, prefix, j)
    ensures r.None? ==> forall j :: start <= j ==> !MatchesAt(url, prefix, j)
  {
    if |url| < start + |prefix| + IdLength then None
    else if MatchesAt(url, prefix, start) then Some(start)
    else SearchFrom(url, prefix, start + 1)
  }

  /** `re.search(prefix + "([a-zA-Z0-9_-]{11})", url)`: the leftmost match position. */
  function Search(url: string, prefix: string): (r: Option<nat>)
    ensures r.Some? ==> MatchesAt(url, prefix, r.value)
    ensures r.Some? ==> forall j :: 0 <= j < r.value ==> !MatchesAt(url, prefix, j)
    ensures r.None? <==> NoMatch(url, prefix)
  {
    SearchFrom(url, prefix, 0)
  }

  /**
    The `for pattern in patterns` loop: the capture of the first pattern in
    `patterns` that matches anywhere in `url`, or `None`.
  */
  function FirstMatch(url: string, patterns: seq<string>): (r: Option<string>)
    decreases |patterns|
    ensures r.Some? ==> IsVideoId(r.value)
    ensures r.None? <==> forall k :: 0 <= k < |patterns| ==> NoMatch(url, patterns[k])
  {
    if patterns == [] then None
    else match Search(url, patterns[0])
      case Some(i) => Some(Capture(url, patterns[0], i))
      case None =>
        var r := FirstMatch(url, patterns[1..]);
        assert forall k :: 1 <= k < |patterns| ==> patterns[k] == patterns[1..][k - 1];
        r
  }

  /** `extract_video_id(url)`. */
  function ExtractVideoId(url: string): (r: Option<string>)
    ensures r.Some? ==> IsVideoId(r.value)
    ensures r.None? <==>
      NoMatch(url, WatchPrefix) && NoMatch(url, ShortLinkPrefix) && NoMatch(url, ShortsPrefix)
  {
    var r := FirstMatch(url, Patterns);
    assert Patterns[0] == WatchPrefix && Patterns[1] == ShortLinkPrefix && Patterns[2] == ShortsPrefix;
    r
  }

  /**
    Pattern `k` of `patterns` wins at position `i`: it matches there, it matches
    nowhere further left, and no pattern tried before it matches anywhere.
  */
  ghost predicate Wins(url: string, patterns: seq<string>, k: nat, i: nat) {
    && k < |patterns|
    && MatchesAt(url, patterns[k], i)
    && (forall j :: 0 <= j < i ==> !MatchesAt(url, patterns[k], j))
    && (forall k' :: 0 <= k' < k ==> NoMatch(url, patterns[k']))
  }

  /** The winning pattern and position determine the result of the search. */
  lemma {:induction false} FirstMatchOfWinner(url: string, patterns: seq<string>, k: nat, i: nat)
    requires Wins(url, patterns, k, i)
    ensures FirstMatch(url, patterns) == Some(Capture(url, patterns[k], i))
    decreases k
  {
    if k == 0 {
      var r := Search(url, patterns[0]);
      assert r.Some?;
      assert r.value == i;
    } else {
      assert NoMatch(url, patterns[0]);
      var rest := patterns[1..];
      assert rest[k - 1] == patterns[k];
      forall k' | 0 <= k' < k - 1 ensures NoMatch(url, rest[k']) {
        assert rest[k'] == patterns[k' + 1];
      }
      FirstMatchOfWinner(url, rest, k - 1, i);
    }
  }

  /** Every result comes from a winning pattern and position. */
  lemma {:induction false} FirstMatchHasWinner(url: string, patterns: seq<string>)
    requires FirstMatch(url, patterns).Some?
    ensures exists k: nat, i: nat ::
              Wins(url, patterns, k, i) && FirstMatch(url, patterns).value == Capture(url, patterns[k], i)
    decreases |patterns|
  {
    match Search(url, patterns[0])
    case Some(i) =>
      assert Wins(url, patterns, 0, i);
    case None =>
      var rest := patterns[1..];
      FirstMatchHasWinner(url, rest);
      var k: nat, i: nat :| Wins(url, rest, k, i) && FirstMatch(url, rest).value == Capture(url, rest[k], i);
      assert rest[k] == patterns[k + 1];
      forall k' | 0 <= k' < k + 1 ensures NoMatch(url, patterns[k']) {
        if k' > 0 { assert patterns[k'] == rest[k' - 1]; }
      }
      assert Wins(url, patterns, k + 1, i);
  }

  /**
    Priority and leftmost choice: when pattern `k` wins at `i` (no earlier
    pattern matches anywhere, and `i` is its leftmost match), the extracted
    identifier is the eleven characters after that pattern's prefix at `i`,
    whatever the later patterns match and wherever.
  */
  lemma ExtractOfWinner(url: string, k: nat, i: nat)
    requires Wins(url, Patterns, k, i)
    ensures ExtractVideoId(url) == Some(Capture(url, Patterns[k], i))
  {
    FirstMatchOfWinner(url, Patterns, k, i);
  }

  /**
    Soundness of position: an extracted identifier stands in the URL right after
    the prefix of the pattern that won, at that pattern's leftmost match.
  */
  lemma ExtractHasWinner(url: string)
    requires ExtractVideoId(url).Some?
    ensures exists k: nat, i: nat ::
              Wins(url, Patterns, k, i) && ExtractVideoId(url).value == Capture(url, Patterns[k], i)
  {
    FirstMatchHasWinner(url, Patterns);
  }

  /** A `v=` match anywhere beats every `youtu.be/` and `shorts/` match. */
  lemma WatchPatternFirst(url: string, i: nat)
    requires MatchesAt(url, WatchPrefix, i)
    requires forall j :: 0 <= j < i ==> !MatchesAt(url, WatchPrefix, j)
    ensures ExtractVideoId(url) == Some(url[i + 2..i + 2 + IdLength])
  {
  }

  /** Without a `v=` match, a `youtu.be/` match beats every `shorts/` match. */
  lemma ShortLinkBeforeShorts(url: string, i: nat)
    requires NoMatch(url, WatchPrefix)
    requires MatchesAt(url, ShortLinkPrefix, i)
    requires forall j :: 0 <= j < i ==> !MatchesAt(url, ShortLinkPrefix, j)
    ensures ExtractVideoId(url) == Some(url[i + 9..i + 9 + IdLength])
  {
    assert Wins(url, Patterns, 1, i);
    ExtractOfWinner(url, 1, i);
  }

  /** When neither other pattern matches anywhere, the leftmost `shorts/` match decides. */
  lemma ShortsLast(url: string, i: nat)
    requires NoMatch(url, WatchPrefix) && NoMatch(url, ShortLinkPrefix)
    requires MatchesAt(url, ShortsPrefix, i)
    requires forall j :: 0 <= j < i ==> !MatchesAt(url, ShortsPrefix, j)
    ensures ExtractVideoId(url) == Some(url[i + 19..i + 19 + IdLength])
  {
    assert Wins(url, Patterns, 2, i);
    ExtractOfWinner(url, 2, i);
  }
}
