/** The sentiment scorer boundary and the three-way labelling shared by the
    sentence pipeline and the segment labeller. */
module Sentiment {

  datatype Label = Positive | Neutral | Negative

  /** The lexicon analyser's compound score for a text. Its internals belong
      to an external library, so every operation takes it as a parameter. */
  type Scorer = string -> real

  const PositiveThreshold: real := 0.05
  const NegativeThreshold: real := -0.05

  /** The label of a whole text from its compound score. */
  function Classify(compound: real): (l: Label)
    ensures l == Positive <==> compound >= PositiveThreshold
    ensures l == Negative <==> compound <= NegativeThreshold
    ensures l == Neutral <==> NegativeThreshold < compound < PositiveThreshold
  {
    if compound >= PositiveThreshold then Positive
    else if compound <= NegativeThreshold then Negative
    else Neutral
  }

  /** Orders labels from most negative to most positive. */
  function Rank(l: Label): int {
    match l
    case Negative => -1
    case Neutral => 0
    case Positive => 1
  }

  /** A higher score never gets a lower label. */
  lemma ClassifyMonotone(a: real, b: real)
    requires a <= b
    ensures Rank(Classify(a)) <= Rank(Classify(b))
  {
  }

  /** A word's score counts only when its magnitude reaches 0.1. */
  const WordThreshold: real := 0.1

  predicate Significant(score: real) {
    score >= WordThreshold || score <= -WordThreshold
  }

  /** The label of a single word: its sign only, so never Neutral. */
  function WordLabel(score: real): (l: Label)
    ensures l != Neutral
    ensures l == Positive <==> score > 0.0
  {
    if score > 0.0 then Positive else Negative
  }
}
