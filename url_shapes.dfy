/**
  The three URL shapes `extract_video_id` supports, as general statements. A URL
  `page + prefix + id + rest` gives back the well-formed identifier `id` when:
  - for `v=`: `page` holds no `v`, and `rest` is anything;
  - for `youtu.be/`: `page` holds no `y` and no `=`, and `id + rest` holds no
    `v=` match;
  - for `youtube.com/shorts/`: `page` holds no `y` and no `=`, and `id + rest`
    holds neither a `v=` nor a `youtu.be/` match.
  The page conditions rule out an earlier match of any pattern, the pattern's own
  included, in front of the identifier. Worked URLs follow, including shared
  links with query parameters, one on which the patterns conflict, and one from
  another site.
*/
module UrlShapes {
  import opened Wrappers
  import opened VideoId

  /** A pattern cannot match where the URL differs from its prefix. */
  lemma NotAt(url: string, prefix: string, j: int, m: nat)
    requires m < |prefix| && 0 <= j && j + m < |url| && url[j + m] != prefix[m]
    ensures !MatchesAt(url, prefix, j)
  {
  }

  /** A pattern whose prefix holds a character absent from the URL matches nowhere. */
  lemma NoMatchWithout(url: string, prefix: string, m: nat)
    requires m < |prefix| && prefix[m] !in url
    ensures NoMatch(url, prefix)
  {
  }

  /** No match starts before `n` when the prefix's first character does not occur there. */
  lemma NoMatchBefore(url: string, prefix: string, n: nat)
    requires 0 < |prefix| && n <= |url| && prefix[0] !in url[..n]
    ensures forall j :: 0 <= j < n ==> !MatchesAt(url, prefix, j)
  {
  }

  /** An identifier holds no `=`, so a `v=` match cannot end inside one. */
  lemma IdHasNoEquals(id: string)
    requires IsVideoId(id)
    ensures '=' !in id
  {
  }

  /** A prefix followed by an identifier matches there and captures that identifier. */
  lemma MatchAfter(page: string, prefix: string, id: string, rest: string)
    requires IsVideoId(id)
    ensures MatchesAt(page + (prefix + (id + rest)), prefix, |page|)
    ensures Capture(page + (prefix + (id + rest)), prefix, |page|) == id
  {
  }

  /**
    `…?…v=ID…`: a page part without the letter `v`, then `v=` and an identifier,
    then anything at all, gives that identifier.
  */
  lemma WatchUrlShape(page: string, id: string, rest: string)
    requires 'v' !in page
    requires IsVideoId(id)
    ensures ExtractVideoId(page + "v=" + id + rest) == Some(id)
  {
    var url := page + (WatchPrefix + (id + rest));
    assert page + "v=" + id + rest == url;
    MatchAfter(page, WatchPrefix, id, rest);
    assert url[..|page|] == page;
    NoMatchBefore(url, WatchPrefix, |page|);
    WatchPatternFirst(url, |page|);
  }

  /** A match inside `s` is a match of `a + s` shifted by `|a|`, and conversely. */
  lemma MatchInSuffix(a: string, s: string, prefix: string, j: nat)
    ensures MatchesAt(a + s, prefix, |a| + j) <==> MatchesAt(s, prefix, j)
  {
    var n := |a| + j;
    if n + |prefix| + IdLength <= |a + s| {
      assert (a + s)[n..n + |prefix|] == s[j..j + |prefix|];
      assert forall k :: j <= k < |s| ==> (a + s)[|a| + k] == s[k];
    }
  }

  /**
    No `v=` match can start in `page` or in a prefix that hold no `=`: the `=`
    would have to come right after, and the tail does not start with one. So a
    `v=` match of the whole URL is a `v=` match of the tail.
  */
  lemma NoWatchMatchAround(page: string, prefix: string, tail: string)
    requires '=' !in page && '=' !in prefix
    requires tail != [] && tail[0] != '='
    requires NoMatch(tail, WatchPrefix)
    ensures NoMatch(page + prefix + tail, WatchPrefix)
  {
    var head := page + prefix;
    var url := head + tail;
    forall j | 0 <= j ensures !MatchesAt(url, WatchPrefix, j) {
      if j < |head| {
        if j + 1 < |head| {
          assert url[j + 1] == head[j + 1];
          if j + 1 < |page| {
            assert head[j + 1] == page[j + 1];
          } else {
            assert head[j + 1] == prefix[j + 1 - |page|];
          }
        } else {
          assert url[j + 1] == tail[0];
        }
        NotAt(url, WatchPrefix, j, 1);
      } else {
        MatchInSuffix(head, tail, WatchPrefix, j - |head|);
      }
    }
  }

  /**
    `…youtu.be/ID…`: a page part without `y` or `=`, then `youtu.be/` and an
    identifier, then any text such that the identifier and that text hold no
    `v=` match, gives that identifier. `?si=…`, `?t=42` and
    `?feature=share` are such texts.
  */
  lemma ShortLinkShape(page: string, id: string, rest: string)
    requires 'y' !in page && '=' !in page
    requires IsVideoId(id)
    requires NoMatch(id + rest, WatchPrefix)
    ensures ExtractVideoId(page + "youtu.be/" + id + rest) == Some(id)
  {
    var url := page + (ShortLinkPrefix + (id + rest));
    assert page + "youtu.be/" + id + rest == url;
    assert page + ShortLinkPrefix + (id + rest) == url;
    IdHasNoEquals(id);
    assert (id + rest)[0] == id[0];
    NoWatchMatchAround(page, ShortLinkPrefix, id + rest);
    MatchAfter(page, ShortLinkPrefix, id, rest);
    assert url[..|page|] == page;
    NoMatchBefore(url, ShortLinkPrefix, |page|);
    ShortLinkBeforeShorts(url, |page|);
  }

  /**
    `…youtube.com/shorts/ID…`: a page part without `y` or `=`, then
    `youtube.com/shorts/` and an identifier, then any text such that the
    identifier and that text hold neither a `v=` nor a `youtu.be/` match, gives
    that identifier.
  */
  lemma ShortsShape(page: string, id: string, rest: string)
    requires 'y' !in page && '=' !in page
    requires IsVideoId(id)
    requires NoMatch(id + rest, WatchPrefix) && NoMatch(id + rest, ShortLinkPrefix)
    ensures ExtractVideoId(page + "youtube.com/shorts/" + id + rest) == Some(id)
  {
    var tail := id + rest;
    var url := page + (ShortsPrefix + tail);
    assert page + "youtube.com/shorts/" + id + rest == url;
    assert page + ShortsPrefix + tail == url;
    IdHasNoEquals(id);
    assert tail[0] == id[0];
    NoWatchMatchAround(page, ShortsPrefix, tail);
    var p := |page|;
    forall j | 0 <= j ensures !MatchesAt(url, ShortLinkPrefix, j) {
      if j < p {
        assert url[j] == page[j];
        NotAt(url, ShortLinkPrefix, j, 0);
      } else if j < p + 19 {
        assert url[j] == ShortsPrefix[j - p];
        if j == p {
          assert url[j + 5] == ShortsPrefix[5];
          NotAt(url, ShortLinkPrefix, j, 5);
        } else {
          NotAt(url, ShortLinkPrefix, j, 0);
        }
      } else {
        MatchInSuffix(page + ShortsPrefix, tail, ShortLinkPrefix, j - p - 19);
      }
    }
    MatchAfter(page, ShortsPrefix, id, rest);
    assert url[..p] == page;
    NoMatchBefore(url, ShortsPrefix, p);
    ShortsLast(url, p);
  }

  lemma WatchUrlExample()
    ensures ExtractVideoId("https://www.youtube.com/watch?v=dQw4w9WgXcQ") == Some("dQw4w9WgXcQ")
  {
    assert "https://www.youtube.com/watch?v=dQw4w9WgXcQ"
        == "https://www.youtube.com/watch?" + "v=" + "dQw4w9WgXcQ" + "";
    WatchUrlShape("https://www.youtube.com/watch?", "dQw4w9WgXcQ", "");
  }

  lemma ShortLinkExample()
    ensures ExtractVideoId("https://youtu.be/dQw4w9WgXcQ") == Some("dQw4w9WgXcQ")
  {
    assert "https://youtu.be/dQw4w9WgXcQ" == "https://" + "youtu.be/" + "dQw4w9WgXcQ" + "";
    NoMatchWithout("dQw4w9WgXcQ" + "", WatchPrefix, 1);
    ShortLinkShape("https://", "dQw4w9WgXcQ", "");
  }

  /** A shared short link: the `=` of its `si` parameter does not follow a `v`. */
  lemma ShareLinkExample()
    ensures ExtractVideoId("https://youtu.be/dQw4w9WgXcQ?si=abc123") == Some("dQw4w9WgXcQ")
  {
    assert "https://youtu.be/dQw4w9WgXcQ?si=abc123"
        == "https://" + "youtu.be/" + "dQw4w9WgXcQ" + "?si=abc123";
    NoMatchWithout("dQw4w9WgXcQ" + "?si=abc123", WatchPrefix, 0);
    ShortLinkShape("https://", "dQw4w9WgXcQ", "?si=abc123");
  }

  lemma ShortsExample()
    ensures ExtractVideoId("https://www.youtube.com/shorts/dQw4w9WgXcQ") == Some("dQw4w9WgXcQ")
  {
    assert "https://www.youtube.com/shorts/" == "https://www." + "youtube.com/shorts/";
    assert "https://www.youtube.com/shorts/dQw4w9WgXcQ"
        == "https://www.youtube.com/shorts/" + "dQw4w9WgXcQ";
    assert "https://www.youtube.com/shorts/dQw4w9WgXcQ"
        == "https://www.youtube.com/shorts/dQw4w9WgXcQ" + "";
    NoMatchWithout("dQw4w9WgXcQ" + "", WatchPrefix, 1);
    NoMatchWithout("dQw4w9WgXcQ" + "", ShortLinkPrefix, 5);
    ShortsShape("https://www.", "dQw4w9WgXcQ", "");
  }

  /** A shared Shorts link with a `feature` parameter. */
  lemma ShortsShareExample()
    ensures ExtractVideoId("https://youtube.com/shorts/dQw4w9WgXcQ?feature=share") == Some("dQw4w9WgXcQ")
  {
    assert "https://youtube.com/shorts/" == "https://" + "youtube.com/shorts/";
    assert "https://youtube.com/shorts/dQw4w9WgXcQ"
        == "https://youtube.com/shorts/" + "dQw4w9WgXcQ";
    assert "https://youtube.com/shorts/dQw4w9WgXcQ?feature=share"
        == "https://youtube.com/shorts/dQw4w9WgXcQ" + "?feature=share";
    NoMatchWithout("dQw4w9WgXcQ" + "?feature=share", WatchPrefix, 0);
    NoMatchWithout("dQw4w9WgXcQ" + "?feature=share", ShortLinkPrefix, 5);
    ShortsShape("https://", "dQw4w9WgXcQ", "?feature=share");
  }

  /**
    A short link that also carries a `v=` parameter: the `v=` pattern is tried
    first, so its capture wins although the `youtu.be/` match lies further left.
  */
  lemma PriorityExample()
    ensures ExtractVideoId("https://youtu.be/AAAAAAAAAAA?v=BBBBBBBBBBB") == Some("BBBBBBBBBBB")
  {
    assert "https://youtu.be/AAAAAAAAAAA?v=BBBBBBBBBBB"
        == "https://youtu.be/AAAAAAAAAAA?" + "v=" + "BBBBBBBBBBB" + "";
    WatchUrlShape("https://youtu.be/AAAAAAAAAAA?", "BBBBBBBBBBB", "");
  }

  /** No boundary is required after the identifier: a longer run gives its first eleven characters. */
  lemma LongRunExample()
    ensures ExtractVideoId("https://youtu.be/dQw4w9WgXcQ-and-more") == Some("dQw4w9WgXcQ")
  {
    assert "https://youtu.be/dQw4w9WgXcQ-and-more"
        == "https://" + "youtu.be/" + "dQw4w9WgXcQ" + "-and-more";
    NoMatchWithout("dQw4w9WgXcQ" + "-and-more", WatchPrefix, 1);
    ShortLinkShape("https://", "dQw4w9WgXcQ", "-and-more");
  }

  lemma OtherSiteExample()
    ensures ExtractVideoId("https://vimeo.com/123456789") == None
  {
    var url := "https://vimeo.com/123456789";
    NoMatchWithout(url, WatchPrefix, 1);
    NoMatchWithout(url, ShortLinkPrefix, 0);
    NoMatchWithout(url, ShortsPrefix, 0);
  }
}
