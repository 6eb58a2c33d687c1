/** Segment-level sentiment: every timestamped transcript segment is copied
    and given a score and a label. */
module Segments {

  import opened Sentiment

  datatype Segment = Segment(start: real, end: real, text: string)

  /** A labelled segment; `score` is the compound score times 100 (the
      two-decimal rounding is not modelled). */
  datatype ScoredSegment = ScoredSegment(start: real, end: real, text: string, score: real, polarity: Label)

  /** Forgets the score and the label of a labelled segment. */
  function Unscored(s: ScoredSegment): Segment {
    Segment(s.start, s.end, s.text)
  }

  function UnscoredAll(ss: seq<ScoredSegment>): seq<Segment> {
    seq(|ss|, i requires 0 <= i < |ss| => Unscored(ss[i]))
  }

  /** `analyze_sentiment`: one labelled record per segment, in the same order,
      none dropped (not even one with empty text). Forgetting the scores gives
      back exactly the input. */
  method AnalyzeSegments(scorer: Scorer, segments: seq<Segment>) returns (r: seq<ScoredSegment>)
    ensures UnscoredAll(r) == segments
    ensures forall i :: 0 <= i < |r| ==>
              && r[i].score == 100.0 * scorer(segments[i].text)
              && r[i].polarity == Classify(scorer(segments[i].text))
  {
    r := [];
    var i := 0;
    while i < |segments|
      invariant i <= |segments| && |r| == i
      invariant forall k :: 0 <= k < i ==> Unscored(r[k]) == segments[k]
      invariant forall k :: 0 <= k < i ==>
                  && r[k].score == 100.0 * scorer(segments[k].text)
                  && r[k].polarity == Classify(scorer(segments[k].text))
    {
      var seg := segments[i];
      var compound := scorer(seg.text);
      r := r + [ScoredSegment(seg.start, seg.end, seg.text, 100.0 * compound, Classify(compound))];
      i := i + 1;
    }
    assert UnscoredAll(r) == segments;
  }
}
