/**
  The request handler `analyze_youtube` (app.py lines 45-90): the two input
  checks, the upstream fetch, and the loop that labels each comment and appends
  its record to the result list.

  The HTTP layer is reduced to a `Response` value carrying what would be
  serialised and its status code. The comment fetch is a parameter
  `fetch: string -> FetchOutcome` from the video identifier to the API's answer,
  and the analyzer's compound score a parameter `score: string -> real`.
*/
module Analyze {
  import opened Wrappers
  import opened VideoId
  import opened Sentiment

  const MissingUrlMessage: string := "YouTube URL missing"
  const InvalidUrlMessage: string := "Invalid YouTube URL"
  const UpstreamMessage: string := "Comments unavailable or API error"

  /**
    What the comment-listing call gives back: the comment texts under `items`
    (which the response may lack), or a failure with its description.
  */
  datatype FetchOutcome = Fetched(items: Option<seq<string>>) | FetchFailed(details: string)

  /** The handler's reply: a 400 error, a 500 error, or the 200 result list. */
  datatype Response =
    | ClientError(error: string)
    | UpstreamError(error: string, details: string)
    | Analysis(results: seq<SentimentResult>)
  {
    function StatusCode(): (code: int)
      ensures code in {200, 400, 500}
      ensures code == 200 <==> this.Analysis?
      ensures code == 400 <==> this.ClientError?
      ensures code == 500 <==> this.UpstreamError?
    {
      match this
      case ClientError(_) => 400
      case UpstreamError(_, _) => 500
      case Analysis(_) => 200
    }
  }

  /**
    The labelling loop: walks the comments in order, sets the label to neutral
    and overrides it when the score passes either threshold, and appends one
    record per comment.
  */
  method Assemble(comments: seq<string>, score: string -> real) returns (results: seq<SentimentResult>)
    ensures results == Analyzed(comments, score)
    ensures |results| == |comments|
    ensures forall i :: 0 <= i < |comments| ==>
              && results[i].comment == comments[i]
              && results[i].confidence == score(comments[i])
              && results[i].sentiment == Classify(score(comments[i]))
  {
    results := [];
    for i := 0 to |comments|
      invariant results == Analyzed(comments[..i], score)
    {
      var comment := comments[i];
      var compound := score(comment);
      var sentiment := Neutral;
      if compound > Threshold {
        sentiment := Positive;
      } else if compound < -Threshold {
        sentiment := Negative;
      }
      AnalyzedAppend(comments[..i], [comment], score);
      assert comments[..i + 1] == comments[..i] + [comment];
      results := results + [SentimentResult(comment, sentiment, compound)];
    }
    assert comments[..|comments|] == comments;
    AnalyzedAt(comments, score);
  }

  /**
    `analyze_youtube` for a request whose `url` field is `url` (`None` when the
    field is absent or null). A missing or empty URL is refused before any
    extraction; a URL without an identifier is refused before any fetch; a
    failed fetch yields only the error, never part of the results.
  */
  method AnalyzeYoutube(url: Option<string>, fetch: string -> FetchOutcome, score: string -> real)
    returns (r: Response)
    ensures url.None? || url.value == [] ==> r == ClientError(MissingUrlMessage)
    ensures url.Some? && url.value != [] && ExtractVideoId(url.value).None? ==>
              r == ClientError(InvalidUrlMessage)
    ensures url.Some? && url.value != [] && ExtractVideoId(url.value).Some? ==>
              r == match fetch(ExtractVideoId(url.value).value)
                   case FetchFailed(details) => UpstreamError(UpstreamMessage, details)
                   case Fetched(items) => Analysis(Analyzed(items.GetOr([]), score))
    ensures r.StatusCode() == 400 <==> url.None? || url.value == [] || ExtractVideoId(url.value).None?
  {
    if url.None? || url.value == [] {
      return ClientError(MissingUrlMessage);
    }
    var videoId := ExtractVideoId(url.value);
    if videoId.None? || videoId.value == [] {
      return ClientError(InvalidUrlMessage);
    }
    var response := fetch(videoId.value);
    if response.FetchFailed? {
      return UpstreamError(UpstreamMessage, response.details);
    }
    var results := Assemble(response.items.GetOr([]), score);
    return Analysis(results);
  }
}
