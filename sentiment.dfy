/**
  The mapping from a compound polarity score to a label and the per-comment
  record (app.py lines 76-88), with the reference definition of the whole
  result list that the request handler builds.

  The compound score itself comes from an external lexicon-based analyzer; here
  it is a parameter `score: string -> real` about which nothing is assumed.
*/
module Sentiment {

  /** The fixed, strict cut-off on either side of zero. */
  const Threshold: real := 0.05

  datatype Label = Positive | Neutral | Negative {

    /** The string placed in the `sentiment` field of the JSON record. */
    function Name(): (s: string)
      ensures s == "positive" <==> this == Positive
      ensures s == "neutral" <==> this == Neutral
      ensures s == "negative" <==> this == Negative
    {
      match this
      case Positive => "positive"
      case Neutral => "neutral"
      case Negative => "negative"
    }
  }

  /**
    The label of a compound score: strictly above the threshold is positive,
    strictly below its negation is negative, and the closed band between them,
    both end points included, is neutral.
  */
  function Classify(compound: real): (l: Label)
    ensures l == Positive <==> compound > Threshold
    ensures l == Negative <==> compound < -Threshold
    ensures l == Neutral <==> -Threshold <= compound <= Threshold
  {
    if compound > Threshold then Positive
    else if compound < -Threshold then Negative
    else Neutral
  }

  /** The string written into the `sentiment` field for a compound score. */
  lemma ClassifiedName(s: real)
    ensures Classify(s).Name() == "positive" <==> s > Threshold
    ensures Classify(s).Name() == "negative" <==> s < -Threshold
    ensures Classify(s).Name() == "neutral" <==> -Threshold <= s <= Threshold
  {
  }

  /** One `{comment, sentiment, confidence}` record of the response. */
  datatype SentimentResult = SentimentResult(comment: string, sentiment: Label, confidence: real)

  /**
    The record for one comment: the text unchanged, the label of its score, and
    the score itself as the confidence.
  */
  function Rate(comment: string, score: string -> real): (r: SentimentResult)
    ensures r.comment == comment && r.confidence == score(comment)
    ensures r.sentiment == Classify(r.confidence)
  {
    SentimentResult(comment, Classify(score(comment)), score(comment))
  }

  /** Reference definition of the result list: each comment rated, in order. */
  function Analyzed(comments: seq<string>, score: string -> real): seq<SentimentResult>
    decreases |comments|
  {
    if comments == [] then []
    else [Rate(comments[0], score)] + Analyzed(comments[1..], score)
  }

  /** The result list has one record per comment, the record of that comment. */
  lemma {:induction false} AnalyzedAt(comments: seq<string>, score: string -> real)
    ensures |Analyzed(comments, score)| == |comments|
    ensures forall i :: 0 <= i < |comments| ==> Analyzed(comments, score)[i] == Rate(comments[i], score)
    decreases |comments|
  {
    if comments != [] {
      AnalyzedAt(comments[1..], score);
      forall i | 1 <= i < |comments|
        ensures Analyzed(comments, score)[i] == Rate(comments[i], score)
      {
        assert comments[1..][i - 1] == comments[i];
      }
    }
  }

  /** Rating distributes over concatenation: comments are rated independently. */
  lemma {:induction false} AnalyzedAppend(a: seq<string>, b: seq<string>, score: string -> real)
    ensures Analyzed(a + b, score) == Analyzed(a, score) + Analyzed(b, score)
    decreases |a|
  {
    if a == [] {
      assert a + b == b;
    } else {
      assert (a + b)[1..] == a[1..] + b;
      AnalyzedAppend(a[1..], b, score);
    }
  }
}
