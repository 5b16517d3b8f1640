# YouTube comment sentiment service: a verified model of its request logic

The service takes a YouTube URL, extracts the 11-character video identifier,
fetches up to 50 top-level comments from the YouTube Data API, scores each with
the VADER sentiment analyzer and answers with one
`{comment, sentiment, confidence}` record per comment. This project models the
deterministic part of `app.py` in Dafny and proves what it promises:

- `video_id.dfy` (module `VideoId`): `extract_video_id`. The `re.search` scan for
  one pattern is `SearchFrom`/`Search`. The `for pattern in patterns` loop with its
  early return is `FirstMatch`, and `ExtractVideoId` is the function itself. A
  pattern "matches at `i`" (`MatchesAt`) when its literal prefix (`v=`,
  `youtu.be/` or `youtube.com/shorts/`) stands at `i` and eleven characters of
  `[A-Za-z0-9_-]` follow it. `Wins` says which pattern and position decide the
  result: the first pattern in order that matches anywhere, at its leftmost match.
- `url_shapes.dfy` (module `UrlShapes`): the three supported URL shapes, each
  proved to give back the identifier it carries, for every well-formed
  identifier. Each shape has conditions on the text before the pattern (`page`)
  and on the identifier with the text after it (`id + rest`):
  - `page + "v=" + id + rest`: `page` holds no `v`; `rest` is arbitrary.
  - `page + "youtu.be/" + id + rest`: `page` holds no `y` and no `=`, and
    `id + rest` holds no `v=` match.
  - `page + "youtube.com/shorts/" + id + rest`: `page` holds no `y` and no `=`,
    and `id + rest` holds neither a `v=` match nor a `youtu.be/` match.

  The page conditions hold for `https://www.youtube.com/watch?` in the first
  shape and for `https://`, `https://www.` and `https://m.` in the others. The
  trailing conditions cover share parameters such as `?si=…` and
  `?feature=share`. Worked URLs follow, including one where the patterns
  conflict.
- `sentiment.dfy` (module `Sentiment`): the threshold labelling and the
  per-comment record. `Analyzed` is the reference definition of the result list.
- `analyze.dfy` (module `Analyze`): `analyze_youtube` as a method. It runs the two
  input checks, then the upstream fetch, then the labelling loop `Assemble`, which
  appends one record per comment.
- `wrappers.dfy` (module `Wrappers`): `Option`, standing for Python's `None`.

The VADER compound score is the parameter `score: string -> real`. Nothing about
it is assumed. The comment fetch is the parameter `fetch: string -> FetchOutcome`,
from the video identifier to either the comment texts under `items` or a failure
with its description.

Two consequences of the code are worth stating:

- The three patterns can conflict: a `youtu.be/` URL that also has a `v=`
  parameter yields the `v=` capture (`PriorityExample`).
- An empty `url` is refused with the same message as a missing one.

The handler's `if not video_id` test also refuses an empty identifier. The model
keeps that test, but an extracted identifier is never empty (`ExtractVideoId`
proves it has eleven characters), so only `None` reaches that branch.

## Model

| member | source | states |
|---|---|---|
| VideoId.IsVideoId | app.py:32-34 | an identifier is exactly 11 characters, each from `[A-Za-z0-9_-]` |
| VideoId.MatchesAt | app.py:32-34 | definition of a match at `i`: the literal prefix stands at `i` and eleven characters of `[A-Za-z0-9_-]` follow it, inside the URL; `Capture` states what a match yields |
| VideoId.Capture | app.py:38-40 | `group(1)` of a match is a well-formed identifier, and in the URL it follows the pattern's prefix directly |
| VideoId.SearchFrom | app.py:38 | the scan from `start` returns a position where the pattern matches, with no match between `start` and it; `None` means no match at or after `start` |
| VideoId.Search | app.py:38 | `re.search` gives the leftmost match position; it is `None` exactly when the pattern matches nowhere |
| VideoId.FirstMatch | app.py:37-42 | trying a list of patterns in order gives a well-formed identifier, or `None` exactly when no pattern of the list matches anywhere |
| VideoId.ExtractVideoId | app.py:24-42 | every extracted id has 11 characters from `[A-Za-z0-9_-]`; the result is `None` exactly when none of `v=`, `youtu.be/`, `youtube.com/shorts/` matches at any position |
| VideoId.FirstMatchOfWinner | app.py:37-40 | when pattern `k` matches at `i`, nowhere further left, and no earlier pattern matches anywhere, the search returns the capture of pattern `k` at `i` |
| VideoId.FirstMatchHasWinner | app.py:37-40 | every result of the search is the capture of some winning pattern and position |
| VideoId.ExtractOfWinner | app.py:31-40 | pattern priority and leftmost choice decide the extracted id: it is the capture of the winning pattern at its leftmost match, whatever the later patterns match |
| VideoId.ExtractHasWinner | app.py:31-40 | an extracted id stands in the URL immediately after the prefix of the pattern that won, at that pattern's leftmost match |
| VideoId.WatchPatternFirst | app.py:32 | a `v=` match anywhere wins, even over `youtu.be/` or `shorts/` matches further left; the id is the 11 characters after the leftmost `v=` match |
| VideoId.ShortLinkBeforeShorts | app.py:33 | without any `v=` match, the leftmost `youtu.be/` match wins over every `shorts/` match |
| VideoId.ShortsLast | app.py:34 | when neither other pattern matches anywhere, the leftmost `youtube.com/shorts/` match decides |
| UrlShapes.NotAt | app.py:38 | a pattern cannot match at a position where the URL differs from its prefix |
| UrlShapes.NoMatchWithout | app.py:38 | a pattern whose prefix holds a character absent from the URL matches nowhere |
| UrlShapes.NoMatchBefore | app.py:38 | no match starts before `n` when the prefix's first character does not occur there |
| UrlShapes.IdHasNoEquals | app.py:32-34 | a well-formed identifier holds no `=`, which lies outside the identifier class |
| UrlShapes.MatchAfter | app.py:38-40 | a prefix followed by a well-formed identifier matches there and captures exactly that identifier |
| UrlShapes.WatchUrlShape | app.py:27 | a URL `page + "v=" + id + rest`, with no `v` in `page`, gives `id` for every well-formed `id` and every `rest` |
| UrlShapes.MatchInSuffix | app.py:38 | a match at `j` inside `s` is exactly a match inside `a + s` at `j` shifted by the length of `a` |
| UrlShapes.NoWatchMatchAround | app.py:32-38 | when `page` and a prefix hold no `=` and the tail does not start with one, a `v=` match of `page + prefix + tail` can only be one of the tail |
| UrlShapes.ShortLinkShape | app.py:28 | a URL `page + "youtu.be/" + id + rest` gives `id` when `page` has no `y` or `=` and `id + rest` holds no `v=` match, so that no `v=` match can take priority |
| UrlShapes.ShortsShape | app.py:29 | a URL `page + "youtube.com/shorts/" + id + rest` gives `id` when `page` has no `y` or `=` and `id + rest` holds neither a `v=` nor a `youtu.be/` match, so that neither earlier pattern can match |
| UrlShapes.WatchUrlExample | app.py:27 | `https://www.youtube.com/watch?v=dQw4w9WgXcQ` gives `dQw4w9WgXcQ` |
| UrlShapes.ShortLinkExample | app.py:28 | `https://youtu.be/dQw4w9WgXcQ` gives `dQw4w9WgXcQ` |
| UrlShapes.ShareLinkExample | app.py:28 | `https://youtu.be/dQw4w9WgXcQ?si=abc123` gives `dQw4w9WgXcQ` |
| UrlShapes.ShortsExample | app.py:29 | `https://www.youtube.com/shorts/dQw4w9WgXcQ` gives `dQw4w9WgXcQ` |
| UrlShapes.ShortsShareExample | app.py:29 | `https://youtube.com/shorts/dQw4w9WgXcQ?feature=share` gives `dQw4w9WgXcQ` |
| UrlShapes.PriorityExample | app.py:31-40 | `https://youtu.be/AAAAAAAAAAA?v=BBBBBBBBBBB` gives `BBBBBBBBBBB`: the `v=` pattern is tried first |
| UrlShapes.LongRunExample | app.py:33 | `https://youtu.be/dQw4w9WgXcQ-and-more` gives the first eleven identifier characters, `dQw4w9WgXcQ`: there is no boundary check |
| UrlShapes.OtherSiteExample | app.py:42 | a URL matching none of the patterns gives `None` |
| Sentiment.Label.Name | app.py:78-82 | `Positive`, `Neutral` and `Negative` are written as `"positive"`, `"neutral"` and `"negative"`, each string for exactly its label |
| Sentiment.ClassifiedName | app.py:78-82 | the `sentiment` string is `"positive"` exactly above 0.05, `"negative"` exactly below -0.05, and `"neutral"` exactly on [-0.05, 0.05] |
| Sentiment.Classify | app.py:78-82 | positive exactly when the score is above 0.05, negative exactly when below -0.05, neutral exactly on the closed band [-0.05, 0.05], both ends included |
| Sentiment.Rate | app.py:84-88 | a record keeps the comment text unchanged, has the compound score as its confidence, and the label of that score |
| Sentiment.Analyzed | app.py:71-88 | reference definition of the result list: each comment's record, in the comments' order; `AnalyzedAt` and `AnalyzedAppend` state its properties |
| Sentiment.AnalyzedAt | app.py:71-88 | the result list has one record per comment, in order, and record `i` is the record of comment `i` |
| Sentiment.AnalyzedAppend | app.py:71-88 | comments are rated independently: the results for `a + b` are the results for `a` followed by those for `b` |
| Analyze.Assemble | app.py:71-88 | the labelling loop builds exactly the reference result list: same length, same order, text unchanged, confidence equal to the score, label from the thresholds; no comments give an empty list |
| Analyze.Response.StatusCode | app.py:50-90 | 400 exactly for the client errors, 500 exactly for the upstream error, 200 exactly for the result list |
| Wrappers.Option.GetOr | app.py:73 | `response.get("items", [])`: the present value, or the default when absent |
| Analyze.AnalyzeYoutube | app.py:46-90 | a missing or empty URL gives "YouTube URL missing" before extraction; a URL without an id gives "Invalid YouTube URL" before any fetch; a failed fetch gives the 500 error with its details and no results; otherwise the reply is the result list for the fetched comments, and missing `items` counts as none |

## Left out

- Flask routing, `jsonify`, CORS and the `GET /` liveness route are framework I/O. The reply is the `Response` value instead.
- Reading `YOUTUBE_API_KEY`, the `RuntimeError` at start-up and the port setting are process configuration.
- `request.get_json()` on a body that is not a JSON object is not modelled. A `url` that is present but not a string (a number, a list) is not modelled either. The `url` is `Option<string>`, with `None` for an absent or null field.
- The YouTube Data API client is the `fetch` parameter. Its request arguments (`part`, `maxResults=50`, `textFormat`) are not modelled, so nothing bounds the number of comments.
- The nested `snippet`/`topLevelComment`/`textDisplay` lookup is not modelled: comments arrive as plain strings, and an item of another shape (a `KeyError`) is out of scope.
- The VADER analyzer is the `score` parameter. How it scores text is not modelled. Its determinism holds because `score` is a function.
- Scores and the 0.05 thresholds are exact reals, not IEEE-754 doubles. Rounding at the boundary is not modelled.
- Python strings are sequences of code points, and Dafny `char`s are Unicode scalar values. Surrogate code points, which Python allows in a `str`, are not modelled.
