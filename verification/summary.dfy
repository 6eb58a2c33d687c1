/** The summary record built from the sentence results: label counts,
    positivity, the most common positive and negative words, the best and
    worst sentences and the templated insight. */
module Summary {

  import opened Outcome
  import opened Decimal
  import opened Sentiment
  import opened Sentences
  import opened Ranking

  /** The sentence a summary points at. */
  datatype Highlight = Highlight(number: nat, text: string, score: real)

  datatype Report = Report(
    average: real,
    positive: nat,
    neutral: nat,
    negative: nat,
    total: nat,
    positivity: real,
    topPositive: seq<WordCount>,
    topNegative: seq<WordCount>,
    best: Highlight,
    worst: Highlight,
    insight: string)

  /** How many words each top list holds at most. */
  const TopCount: nat := 5

  /** `labels.count(l)`: at most the number of results, zero exactly when
      no result has the label and all of them exactly when every one has. */
  function CountLabel(rs: seq<SentenceResult>, l: Label): (n: nat)
    ensures n <= |rs|
    ensures n == 0 <==> forall i :: 0 <= i < |rs| ==> rs[i].polarity != l
    ensures n == |rs| <==> forall i :: 0 <= i < |rs| ==> rs[i].polarity == l
  {
    if |rs| == 0 then 0
    else (if rs[0].polarity == l then 1 else 0) + CountLabel(rs[1..], l)
  }

  /** Every result has exactly one of the three labels. */
  lemma {:induction false} LabelCountsAddUp(rs: seq<SentenceResult>)
    ensures CountLabel(rs, Positive) + CountLabel(rs, Neutral) + CountLabel(rs, Negative) == |rs|
  {
    if |rs| > 0 {
      LabelCountsAddUp(rs[1..]);
    }
  }

  function Scores(rs: seq<SentenceResult>): (xs: seq<real>)
    ensures |xs| == |rs| && forall i :: 0 <= i < |rs| ==> xs[i] == rs[i].score
  {
    seq(|rs|, i requires 0 <= i < |rs| => rs[i].score)
  }

  function Sum(xs: seq<real>): real {
    if |xs| == 0 then 0.0 else xs[0] + Sum(xs[1..])
  }

  /** A mean of values within [lo, hi] lies within [lo, hi]. */
  lemma MeanBetween(s: real, n: real, lo: real, hi: real)
    requires n > 0.0 && n * lo <= s <= n * hi
    ensures lo <= s / n <= hi
  {
    var a := s / n;
    assert (a - lo) * n == s - lo * n;
    assert (hi - a) * n == hi * n - s;
  }

  /** A sum of values within [lo, hi] lies within [n*lo, n*hi]. */
  lemma {:induction false} SumBounds(xs: seq<real>, lo: real, hi: real)
    requires forall i :: 0 <= i < |xs| ==> lo <= xs[i] <= hi
    ensures (|xs| as real) * lo <= Sum(xs) <= (|xs| as real) * hi
  {
    if |xs| > 0 {
      SumBounds(xs[1..], lo, hi);
    }
  }

  /** `max(xs)` by position: the first position holding the largest value. */
  function FirstMax(xs: seq<real>): (m: nat)
    requires |xs| > 0
    ensures m < |xs|
    ensures forall j :: 0 <= j < |xs| ==> xs[j] <= xs[m]
    ensures forall j :: 0 <= j < m ==> xs[j] < xs[m]
  {
    if |xs| == 1 then 0
    else
      var m := FirstMax(xs[..|xs| - 1]);
      if xs[|xs| - 1] > xs[m] then |xs| - 1 else m
  }

  /** `min(xs)` by position: the first position holding the smallest value. */
  function FirstMin(xs: seq<real>): (m: nat)
    requires |xs| > 0
    ensures m < |xs|
    ensures forall j :: 0 <= j < |xs| ==> xs[m] <= xs[j]
    ensures forall j :: 0 <= j < m ==> xs[m] < xs[j]
  {
    if |xs| == 1 then 0
    else
      var m := FirstMin(xs[..|xs| - 1]);
      if xs[|xs| - 1] < xs[m] then |xs| - 1 else m
  }

  /** The words of the contributions carrying label `l`, in order. */
  function Tagged(cs: seq<WordContribution>, l: Label): (ws: seq<string>)
    ensures |ws| <= |cs|
    ensures forall w :: w in ws <==> exists j :: 0 <= j < |cs| && cs[j].polarity == l && cs[j].word == w
  {
    if |cs| == 0 then []
    else (if cs[0].polarity == l then [cs[0].word] else []) + Tagged(cs[1..], l)
  }

  /** The words with label `l` over all results, sentence by sentence: a
      word is collected exactly when some sentence has it with that label. */
  function WordsWith(rs: seq<SentenceResult>, l: Label): (ws: seq<string>)
    ensures forall w :: w in ws <==>
              exists i, j :: 0 <= i < |rs| && 0 <= j < |rs[i].words|
                             && rs[i].words[j].polarity == l && rs[i].words[j].word == w
  {
    if |rs| == 0 then [] else Tagged(rs[0].words, l) + WordsWith(rs[1..], l)
  }

  /** Sentences are collected one after another: the words of a
      concatenation are the concatenated words, so sentence order is kept. */
  lemma {:induction false} WordsWithAppend(a: seq<SentenceResult>, b: seq<SentenceResult>, l: Label)
    ensures WordsWith(a + b, l) == WordsWith(a, l) + WordsWith(b, l)
  {
    if |a| == 0 {
      assert a + b == b;
    } else {
      var ab := a + b;
      var head := Tagged(a[0].words, l);
      assert ab[0] == a[0] && ab[1..] == a[1..] + b;
      assert WordsWith(ab, l) == head + WordsWith(a[1..] + b, l);
      WordsWithAppend(a[1..], b, l);
      assert WordsWith(a, l) == head + WordsWith(a[1..], l);
      assert head + (WordsWith(a[1..], l) + WordsWith(b, l))
          == (head + WordsWith(a[1..], l)) + WordsWith(b, l);
    }
  }

  function HighlightOf(r: SentenceResult): Highlight {
    Highlight(r.number, r.text, r.score)
  }

  // The two later pieces are written with their leading space apart: that
  // space is what ends the number before it, and the verifier sees the first
  // character of `" " + …` at once, while in a single long literal it does
  // not reach it within its resource bound.
  const InsightHead := "Sentence "
  const InsightMiddle := " " + "made the sentiment score lower, while Sentence "
  const InsightTail := " " + "had the most positive tone overall."

  /** The insight sentence naming the worst and then the best sentence; both
      numbers read back out of it, in that order. */
  function Insight(worst: nat, best: nat): (s: string)
    ensures ParseInsight(s) == Some((worst, best))
  {
    InsightRoundTrip(worst, best);
    InsightHead + (Show(worst) + (InsightMiddle + (Show(best) + InsightTail)))
  }

  /** Reads the best sentence's number back out of `<digits>` followed by
      the closing words. */
  function ParseTail(s: string): Option<nat> {
    var d := LeadingDigits(s);
    if |d| == 0 || s[|d|..] != InsightTail then None else Some(Value(d))
  }

  /** Reads the best sentence's number back out of the text after the worst
      sentence's number. */
  function ParseMiddle(s: string): Option<nat> {
    if |s| < |InsightMiddle| || s[..|InsightMiddle|] != InsightMiddle then None
    else ParseTail(s[|InsightMiddle|..])
  }

  /** Reads the two sentence numbers back out of an insight sentence. */
  function ParseInsight(s: string): Option<(nat, nat)> {
    if |s| < |InsightHead| || s[..|InsightHead|] != InsightHead then None
    else
      var s1 := s[|InsightHead|..];
      var d := LeadingDigits(s1);
      if |d| == 0 then None
      else
        match ParseMiddle(s1[|d|..])
        case None => None
        case Some(best) => Some((Value(d), best))
  }

  lemma Halves(a: string, b: string)
    ensures (a + b)[..|a|] == a && (a + b)[|a|..] == b
  {
  }

  lemma TailRoundTrip(best: nat)
    ensures ParseTail(Show(best) + InsightTail) == Some(best)
  {
    var tail := InsightTail;
    assert tail[0] == ' ';
    LeadingDigitsOfShow(best, tail);
    Halves(Show(best), tail);
    ValueShow(best);
  }

  lemma MiddleRoundTrip(best: nat)
    ensures ParseMiddle(InsightMiddle + (Show(best) + InsightTail)) == Some(best)
  {
    Halves(InsightMiddle, Show(best) + InsightTail);
    TailRoundTrip(best);
  }

  /** The insight cites the worst sentence's number, then the best one's. */
  lemma InsightRoundTrip(worst: nat, best: nat)
    ensures ParseInsight(InsightHead + (Show(worst) + (InsightMiddle + (Show(best) + InsightTail))))
            == Some((worst, best))
  {
    var s2 := InsightMiddle + (Show(best) + InsightTail);
    var s1 := Show(worst) + s2;
    Halves(InsightHead, s1);
    assert s2[0] == ' ';
    LeadingDigitsOfShow(worst, s2);
    Halves(Show(worst), s2);
    MiddleRoundTrip(best);
    ValueShow(worst);
  }

  /** Sentences without contributing words give no words to count. */
  lemma {:induction false} NoContributionsNoWords(rs: seq<SentenceResult>, l: Label)
    requires forall i :: 0 <= i < |rs| ==> rs[i].words == []
    ensures WordsWith(rs, l) == []
  {
    if |rs| > 0 {
      NoContributionsNoWords(rs[1..], l);
      assert rs[0].words == [];
    }
  }

  /** The first word of a most-common list, if any, is one of the words. */
  lemma FirstTopWord(ws: seq<string>, top: seq<WordCount>, n: nat)
    requires IsMostCommon(ws, top, n)
    ensures |top| == 0 || top[0].word in ws
  {
  }

  /** A most-common list of no words is empty. */
  lemma NothingToCount(top: seq<WordCount>, n: nat)
    requires IsMostCommon([], top, n)
    ensures top == []
  {
    FirstTopWord([], top, n);
  }

  /** A summary of sentences without contributing words has empty top-word
      lists. */
  lemma NoContributionsNoTopWords(rs: seq<SentenceResult>)
    requires |rs| > 0 && forall i :: 0 <= i < |rs| ==> rs[i].words == []
    ensures Summarize(rs).Ok?
    ensures Summarize(rs).value.topPositive == [] && Summarize(rs).value.topNegative == []
  {
    NoContributionsNoWords(rs, Positive);
    NoContributionsNoWords(rs, Negative);
    var r := Summarize(rs).value;
    NothingToCount(r.topPositive, TopCount);
    NothingToCount(r.topNegative, TopCount);
  }

  /** The first sentence with the highest score. */
  function Best(rs: seq<SentenceResult>): (h: Highlight)
    requires |rs| > 0
    ensures exists b :: 0 <= b < |rs| && h == HighlightOf(rs[b])
              && (forall j :: 0 <= j < |rs| ==> rs[j].score <= rs[b].score)
              && (forall j :: 0 <= j < b ==> rs[j].score < rs[b].score)
  {
    var b := FirstMax(Scores(rs));
    HighlightOf(rs[b])
  }

  /** The first sentence with the lowest score. */
  function Worst(rs: seq<SentenceResult>): (h: Highlight)
    requires |rs| > 0
    ensures exists w :: 0 <= w < |rs| && h == HighlightOf(rs[w])
              && (forall j :: 0 <= j < |rs| ==> rs[w].score <= rs[j].score)
              && (forall j :: 0 <= j < w ==> rs[w].score < rs[j].score)
  {
    var w := FirstMin(Scores(rs));
    HighlightOf(rs[w])
  }

  /** The mean of values within [low, high] lies within [low, high]. */
  lemma MeanOfBounded(xs: seq<real>, low: real, high: real)
    requires |xs| > 0
    requires forall i :: 0 <= i < |xs| ==> low <= xs[i] <= high
    ensures low <= Sum(xs) / (|xs| as real) <= high
  {
    SumBounds(xs, low, high);
    MeanBetween(Sum(xs), |xs| as real, low, high);
  }

  /** The mean sentence score, which lies between the lowest and the highest. */
  function Average(rs: seq<SentenceResult>): (a: real)
    requires |rs| > 0
    ensures exists i, j :: 0 <= i < |rs| && 0 <= j < |rs| && rs[i].score <= a <= rs[j].score
  {
    var scores := Scores(rs);
    var lo := FirstMin(scores);
    var hi := FirstMax(scores);
    var a := Sum(scores) / (|rs| as real);
    MeanOfBounded(scores, scores[lo], scores[hi]);
    assert rs[lo].score <= a <= rs[hi].score;
    a
  }

  /** `(positive / total) * 100`: the share of positive sentences as a
      percentage. */
  function Percentage(part: nat, total: nat): (p: real)
    requires part <= total && total > 0
    ensures p * (total as real) == 100.0 * (part as real)
    ensures 0.0 <= p <= 100.0
  {
    var q := part as real / total as real;
    assert q * (total as real) == part as real;
    assert (1.0 - q) * (total as real) == (total - part) as real;
    q * 100.0
  }

  /** The summary part of `summarize_and_plot`. An empty result list fails,
      as the average divides by zero. */
  function Summarize(rs: seq<SentenceResult>): (r: Result<Report>)
    ensures r.Err? <==> |rs| == 0
    ensures r.Err? ==> r.error == ZeroDivisionError
    ensures r.Ok? ==> r.value.total == |rs|
    ensures r.Ok? ==> r.value.positive == CountLabel(rs, Positive)
    ensures r.Ok? ==> r.value.neutral == CountLabel(rs, Neutral)
    ensures r.Ok? ==> r.value.negative == CountLabel(rs, Negative)
    ensures r.Ok? ==> r.value.positive + r.value.neutral + r.value.negative == r.value.total
    ensures r.Ok? ==> r.value.positivity == Percentage(r.value.positive, r.value.total)
    ensures r.Ok? ==> r.value.best == Best(rs) && r.value.worst == Worst(rs)
    ensures r.Ok? ==> r.value.worst.score <= r.value.average <= r.value.best.score
    ensures r.Ok? ==> IsMostCommon(WordsWith(rs, Positive), r.value.topPositive, TopCount)
    ensures r.Ok? ==> IsMostCommon(WordsWith(rs, Negative), r.value.topNegative, TopCount)
    ensures r.Ok? ==> ParseInsight(r.value.insight) == Some((r.value.worst.number, r.value.best.number))
  {
    if |rs| == 0 then Err(ZeroDivisionError)
    else
      var positive := CountLabel(rs, Positive);
      var best := Best(rs);
      var worst := Worst(rs);
      LabelCountsAddUp(rs);
      var share := Percentage(positive, |rs|);
      Ok(Report(
        Average(rs), positive, CountLabel(rs, Neutral), CountLabel(rs, Negative), |rs|,
        share,
        MostCommon(WordsWith(rs, Positive), TopCount),
        MostCommon(WordsWith(rs, Negative), TopCount),
        best, worst,
        Insight(worst.number, best.number)))
  }
}
