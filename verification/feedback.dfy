/** The scoring and feedback arithmetic behind a practice-mode submission:
    the two stored results are scaled to buckets out of ten, combined into a
    final score, and turned into a rank, a tier message and two table
    lookups. */
module Feedback {

  import opened Outcome
  import opened Decimal
  import Ranking
  import Sentences
  import Summary

  // ---------------------------------------------------------------------
  // Python's round()
  // ---------------------------------------------------------------------

  /** `n` is what Python's one-argument `round` gives for `x`: an integer
      within one half of `x`, and the even one when `x` lies exactly halfway
      between two integers. */
  predicate RoundsTo(x: real, n: int) {
    && x - 0.5 <= n as real <= x + 0.5
    && ((n as real - x == 0.5 || x - n as real == 0.5) ==> n % 2 == 0)
  }

  /** `round(x)`: to the nearest integer, ties to even. */
  function RoundHalfEven(x: real): (n: int)
    ensures RoundsTo(x, n)
  {
    var f := x.Floor;
    var d := x - f as real;
    if d < 0.5 then f
    else if d > 0.5 then f + 1
    else if f % 2 == 0 then f
    else f + 1
  }

  /** The description above pins down one integer, so `RoundHalfEven` is
      the only rounding that meets it. */
  lemma RoundsToUnique(x: real, m: int, n: int)
    requires RoundsTo(x, m) && RoundsTo(x, n)
    ensures m == n
  {
  }

  /** The description is monotone: a larger argument never allows a
      smaller integer. */
  lemma RoundsToMonotone(x: real, y: real, m: int, n: int)
    requires x <= y && RoundsTo(x, m) && RoundsTo(y, n)
    ensures m <= n
  {
  }

  /** A larger argument never rounds to a smaller integer. */
  lemma RoundMonotone(x: real, y: real)
    requires x <= y
    ensures RoundHalfEven(x) <= RoundHalfEven(y)
  {
    RoundsToMonotone(x, y, RoundHalfEven(x), RoundHalfEven(y));
  }

  /** Whole numbers round to themselves. */
  lemma RoundWhole(k: int)
    ensures RoundHalfEven(k as real) == k
  {
    RoundsToUnique(k as real, RoundHalfEven(k as real), k);
  }

  // ---------------------------------------------------------------------
  // Scaling the stored results
  // ---------------------------------------------------------------------

  /** A value looked up by key in a parsed JSON document. */
  datatype Field =
    | Absent              // the key is missing
    | Number(value: real) // a JSON number
    | Flag(flag: bool)    // `true` or `false`, which Python divides as 1 and 0
    | Other               // `null`, a string, a list or an object

  /** `data.get(key, 0)` as a number, or the `TypeError` that dividing it
      raises. */
  function Numeric(f: Field): (r: Result<real>)
    ensures r.Err? <==> f.Other?
    ensures r.Err? ==> r.error == TypeError
    ensures f.Absent? ==> r == Ok(0.0)
    ensures f.Number? ==> r == Ok(f.value)
  {
    match f
    case Absent => Ok(0.0)
    case Number(v) => Ok(v)
    case Flag(b) => Ok(if b then 1.0 else 0.0)
    case Other => Err(TypeError)
  }

  /** `round(data.get(key, 0) / 10)`: a stored result scaled to a bucket
      out of ten. */
  function Bucket(f: Field): (r: Result<int>)
    ensures r.Err? <==> f.Other?
    ensures r.Err? ==> r.error == TypeError
    ensures r.Ok? ==> RoundsTo(Numeric(f).value / 10.0, r.value)
  {
    match Numeric(f)
    case Ok(v) => Ok(RoundHalfEven(v / 10.0))
    case Err(e) => Err(e)
  }

  /** A result between `10 * lo` and `10 * hi` lands in a bucket between
      `lo` and `hi`: a relevance score out of 100 gives 0..10, and an average
      sentiment between -100 and 100 gives -10..10. */
  lemma BucketRange(v: real, lo: int, hi: int)
    requires 10.0 * lo as real <= v <= 10.0 * hi as real
    ensures lo <= Bucket(Number(v)).value <= hi
  {
    RoundMonotone(lo as real, v / 10.0);
    RoundMonotone(v / 10.0, hi as real);
    RoundWhole(lo);
    RoundWhole(hi);
  }

  /** `round((sentiment + relevance) / 2)`. */
  function FinalScore(sentiment: int, relevance: int): (n: int)
    ensures RoundsTo((sentiment + relevance) as real / 2.0, n)
  {
    RoundHalfEven((sentiment + relevance) as real / 2.0)
  }

  /** The final score never leaves the range spanned by the two buckets. */
  lemma FinalBetween(sentiment: int, relevance: int)
    ensures sentiment <= relevance ==> sentiment <= FinalScore(sentiment, relevance) <= relevance
    ensures relevance <= sentiment ==> relevance <= FinalScore(sentiment, relevance) <= sentiment
  {
    var mid := (sentiment + relevance) as real / 2.0;
    RoundWhole(sentiment);
    RoundWhole(relevance);
    if sentiment <= relevance {
      RoundMonotone(sentiment as real, mid);
      RoundMonotone(mid, relevance as real);
    } else {
      RoundMonotone(relevance as real, mid);
      RoundMonotone(mid, sentiment as real);
    }
  }

  /** `f"{final_score}/10"`, which reads back as the final score. */
  function ScoreText(n: int): (t: string)
    ensures ParseScoreText(t) == Some(n)
  {
    ScoreTextRoundTrip(n);
    ShowInt(n) + "/10"
  }

  /** Reads a score text back. */
  function ParseScoreText(t: string): Option<int> {
    if |t| >= 3 && t[|t| - 3..] == "/10" then ParseInt(t[..|t| - 3]) else None
  }

  /** The displayed score text carries the final score without loss. */
  lemma ScoreTextRoundTrip(n: int)
    ensures ParseScoreText(ShowInt(n) + "/10") == Some(n)
  {
    var t := ShowInt(n) + "/10";
    assert t[..|t| - 3] == ShowInt(n);
    assert t[|t| - 3..] == "/10";
    ParseShowInt(n);
  }

  // ---------------------------------------------------------------------
  // Rank and tier
  // ---------------------------------------------------------------------

  const TopRank := "Top 5% applicant"
  const LowerRank := "Needs improvement"

  /** The candidate rank: the top label exactly from a final score of 8. */
  function Rank(n: int): (r: string)
    ensures r == TopRank <==> n >= 8
    ensures r == LowerRank <==> n < 8
  {
    if n >= 8 then TopRank else LowerRank
  }

  /** The four overall verdicts, best first. */
  datatype Tier = Excellent | Strong | Fair | Weak

  /** Position of a tier, 0 for the best. */
  function Standing(t: Tier): nat {
    match t
    case Excellent => 0
    case Strong => 1
    case Fair => 2
    case Weak => 3
  }

  /** The tier a final score falls into: from 9, from 7, from 5, below. */
  function TierOf(n: int): (t: Tier)
    ensures t == Excellent <==> n >= 9
    ensures t == Strong <==> 7 <= n < 9
    ensures t == Fair <==> 5 <= n < 7
    ensures t == Weak <==> n < 5
  {
    if n >= 9 then Excellent
    else if n >= 7 then Strong
    else if n >= 5 then Fair
    else Weak
  }

  /** A higher final score never earns a worse tier. */
  lemma TierMonotone(m: int, n: int)
    requires m <= n
    ensures Standing(TierOf(n)) <= Standing(TierOf(m))
  {
  }

  /** The rank and the tier agree: every top-ranked score is at least a
      strong one, and every excellent one is top-ranked. */
  lemma RankAndTier(n: int)
    ensures Rank(n) == TopRank ==> TierOf(n) in {Excellent, Strong}
    ensures TierOf(n) == Excellent ==> Rank(n) == TopRank
    ensures TierOf(n) in {Fair, Weak} ==> Rank(n) == LowerRank
  {
  }

  /** The message of each tier. */
  function TierMessage(t: Tier): string {
    match t
    case Excellent => "Excellent performance. You're well-prepared and articulate."
    case Strong => "Strong answers with minor areas to polish. Keep practicing."
    case Fair => "Fair attempt, but consider refining your answers and delivery."
    case Weak => "Your responses need improvement in clarity and relevance."
  }

  /** The four messages end in four different words: the third letter
      from the end tells them apart. */
  lemma TierMessageMark(t: Tier)
    ensures |TierMessage(t)| >= 3
    ensures TierMessage(t)[|TierMessage(t)| - 3] == match t
                                                    case Excellent => 't'
                                                    case Strong => 'n'
                                                    case Fair => 'r'
                                                    case Weak => 'c'
  {
  }

  /** Different tiers read differently, so the message names its tier. */
  lemma TierMessageInjective(s: Tier, t: Tier)
    ensures TierMessage(s) == TierMessage(t) ==> s == t
  {
    TierMessageMark(s);
    TierMessageMark(t);
  }

  /** The overall feedback sentence for a final score: each tier's message
      is given exactly on that tier's range of scores. */
  function FinalFeedback(n: int): (r: string)
    ensures r == TierMessage(Excellent) <==> n >= 9
    ensures r == TierMessage(Strong) <==> 7 <= n < 9
    ensures r == TierMessage(Fair) <==> 5 <= n < 7
    ensures r == TierMessage(Weak) <==> n < 5
  {
    TierMessageInjective(TierOf(n), Excellent);
    TierMessageInjective(TierOf(n), Strong);
    TierMessageInjective(TierOf(n), Fair);
    TierMessageInjective(TierOf(n), Weak);
    TierMessage(TierOf(n))
  }

  // ---------------------------------------------------------------------
  // Feedback tables
  // ---------------------------------------------------------------------

  const SentimentTable: map<int, string> := map[
    10 := "You conveyed your message with confidence and warmth. Great job!",
    9 := "Confident and friendly tone throughout your answer.",
    8 := "Clear and warm delivery. Slightly more variation could help.",
    7 := "Good tone but felt a bit flat at times.",
    6 := "Delivery was calm, but lacked expressiveness.",
    5 := "Seemed slightly nervous. Try to relax and smile naturally.",
    4 := "Tone felt robotic or disconnected. Bring more energy.",
    3 := "Low confidence detected in your voice.",
    2 := "You sounded very unsure. Practice speaking clearly.",
    1 := "Nervous and unclear. Mock interviews will help a lot."]

  const SentimentDefault := "Sentiment feedback unavailable."

  const RelevanceTable: map<int, string> := map[
    10 := "Your answer directly addressed the question with full clarity.",
    9 := "Highly relevant with detailed explanation.",
    8 := "Good response — mostly on track.",
    7 := "Relevant, but had minor digressions.",
    6 := "Wavered slightly off-topic at moments.",
    5 := "General response. Lacked clear link to the question.",
    4 := "Somewhat vague and indirect.",
    3 := "Did not clearly address the core of the question.",
    2 := "Mostly off-topic — revise your understanding of the question.",
    1 := "Unrelated answer — make sure to listen/read carefully."]

  const RelevanceDefault := "Relevance feedback unavailable."

  /** `table.get(key, default)`. */
  function Lookup(table: map<int, string>, key: int, default: string): (r: string)
    ensures key in table ==> r == table[key]
    ensures key !in table ==> r == default
  {
    if key in table then table[key] else default
  }

  /** The tone table is keyed by exactly the buckets 1 to 10, holds ten
      different messages, and never holds its own default. */
  lemma SentimentTableShape()
    ensures forall k :: k in SentimentTable <==> 1 <= k <= 10
    ensures forall a, b :: a in SentimentTable && b in SentimentTable && a != b ==> SentimentTable[a] != SentimentTable[b]
    ensures forall k :: k in SentimentTable ==> SentimentTable[k] != SentimentDefault
  {
  }

  /** The same for the relevance table. */
  lemma RelevanceTableShape()
    ensures forall k :: k in RelevanceTable <==> 1 <= k <= 10
    ensures forall a, b :: a in RelevanceTable && b in RelevanceTable && a != b ==> RelevanceTable[a] != RelevanceTable[b]
    ensures forall k :: k in RelevanceTable ==> RelevanceTable[k] != RelevanceDefault
  {
  }

  /** The tone message for a sentiment bucket. */
  function SentimentFeedback(bucket: int): (r: string)
    ensures r == SentimentDefault <==> !(1 <= bucket <= 10)
  {
    SentimentTableShape();
    Lookup(SentimentTable, bucket, SentimentDefault)
  }

  /** The relevance message for a relevance bucket. */
  function RelevanceFeedback(bucket: int): (r: string)
    ensures r == RelevanceDefault <==> !(1 <= bucket <= 10)
  {
    RelevanceTableShape();
    Lookup(RelevanceTable, bucket, RelevanceDefault)
  }

  /** A table message names its bucket: two buckets in range with the same
      message are the same bucket. */
  lemma FeedbackNamesBucket(a: int, b: int)
    requires 1 <= a <= 10 && 1 <= b <= 10
    ensures SentimentFeedback(a) == SentimentFeedback(b) ==> a == b
    ensures RelevanceFeedback(a) == RelevanceFeedback(b) ==> a == b
  {
    SentimentTableShape();
    RelevanceTableShape();
  }

  // ---------------------------------------------------------------------
  // The submission
  // ---------------------------------------------------------------------

  /** One row of the word table: its `Type`, `word` and `count` cells. */
  datatype WordRow = WordRow(kind: string, word: string, count: nat)

  /** The rows for one list of top words, each tagged with `kind`. */
  function TagRows(kind: string, top: seq<Ranking.WordCount>): (rows: seq<WordRow>)
    ensures |rows| == |top|
    ensures forall i :: 0 <= i < |top| ==> rows[i] == WordRow(kind, top[i].word, top[i].count)
  {
    if |top| == 0 then [] else [WordRow(kind, top[0].word, top[0].count)] + TagRows(kind, top[1..])
  }

  /** The word table as it is meant to read: every positive word with its
      count, then every negative word with its count, and no rows at all
      when there are no words. */
  function WordRows(pos: seq<Ranking.WordCount>, neg: seq<Ranking.WordCount>): (rows: seq<WordRow>)
    ensures |rows| == |pos| + |neg|
    ensures forall i :: 0 <= i < |pos| ==> rows[i] == WordRow("Positive", pos[i].word, pos[i].count)
    ensures forall i :: 0 <= i < |neg| ==> rows[|pos| + i] == WordRow("Negative", neg[i].word, neg[i].count)
  {
    TagRows("Positive", pos) + TagRows("Negative", neg)
  }

  /** What a submission shows: the score text, the rank, the two buckets
      with their table messages, the relevance observation, the sentiment
      insight and the word table. `finalScore` is the number behind
      `score`. */
  datatype Submission = Submission(
    finalScore: int,
    score: string,
    rank: string,
    sentiment: int,
    relevance: int,
    sentimentFeedback: string,
    relevanceFeedback: string,
    observation: string,
    insight: string,
    wordTable: seq<WordRow>)

  const NoObservation := "No observation available."
  const NoInsight := "No insight available."

  /** A bucket that the score pie `[b, 10 - b]` can draw: matplotlib refuses
      a negative wedge with ValueError, so the bucket must lie in 0..10. */
  predicate PieDrawable(b: int) {
    0 <= b <= 10
  }

  /** A stored result between 0 and 100 always gives a drawable bucket. */
  lemma DrawableRange(v: real)
    requires 0.0 <= v <= 100.0
    ensures PieDrawable(Bucket(Number(v)).value)
  {
    BucketRange(v, 0, 10);
  }

  /** `dummy_submit`, given the stored average sentiment, the stored
      relevance score, the two stored texts and the two stored top-word
      lists (a missing list is empty). The two pie charts come first and
      raise ValueError for a bucket outside 0..10. After them, a pandas
      frame built from an empty list has no columns, so when both lists are
      empty the table has no `word` or `count` column to select and the
      selection raises KeyError. */
  function Submit(
    average: Field, relevanceScore: Field, observation: Option<string>, insight: Option<string>,
    pos: seq<Ranking.WordCount>, neg: seq<Ranking.WordCount>): (r: Result<Submission>)
    ensures r.Err? <==>
              || average.Other? || relevanceScore.Other?
              || !PieDrawable(Bucket(average).value) || !PieDrawable(Bucket(relevanceScore).value)
              || (|pos| == 0 && |neg| == 0)
    ensures r.Err? ==> (r.error == TypeError <==> average.Other? || relevanceScore.Other?)
    ensures r.Err? && r.error != TypeError ==>
              (r.error == ValueError <==>
                 !PieDrawable(Bucket(average).value) || !PieDrawable(Bucket(relevanceScore).value))
    ensures r.Err? ==> r.error == TypeError || r.error == ValueError || r.error == KeyError
    ensures r.Ok? ==>
              && RoundsTo(Numeric(average).value / 10.0, r.value.sentiment)
              && RoundsTo(Numeric(relevanceScore).value / 10.0, r.value.relevance)
              && PieDrawable(r.value.sentiment) && PieDrawable(r.value.relevance)
              && RoundsTo((r.value.sentiment + r.value.relevance) as real / 2.0, r.value.finalScore)
              && ParseScoreText(r.value.score) == Some(r.value.finalScore)
              && (r.value.rank == TopRank <==> r.value.finalScore >= 8)
              && r.value.sentimentFeedback == Lookup(SentimentTable, r.value.sentiment, SentimentDefault)
              && r.value.relevanceFeedback == Lookup(RelevanceTable, r.value.relevance, RelevanceDefault)
              && (observation.Some? ==> r.value.observation == observation.value)
              && (observation.None? ==> r.value.observation == NoObservation)
              && (insight.Some? ==> r.value.insight == insight.value)
              && (insight.None? ==> r.value.insight == NoInsight)
              && r.value.wordTable == WordRows(pos, neg)
  {
    match Bucket(average)
    case Err(e) => Err(e)
    case Ok(s) =>
      match Bucket(relevanceScore)
      case Err(e) => Err(e)
      case Ok(v) =>
        if !PieDrawable(s) || !PieDrawable(v) then Err(ValueError)
        else if |pos| == 0 && |neg| == 0 then Err(KeyError)
        else
          var n := FinalScore(s, v);
          Ok(Submission(
            n, ScoreText(n), Rank(n), s, v,
            SentimentFeedback(s), RelevanceFeedback(v),
            if observation.Some? then observation.value else NoObservation,
            if insight.Some? then insight.value else NoInsight,
            WordRows(pos, neg)))
  }

  /** An answer in which no word scores at least 0.1 either way: the summary
      has no top words, and submitting it fails on the word table whenever
      the two pie charts can be drawn. */
  lemma QuietAnswerFails(rs: seq<Sentences.SentenceResult>, average: Field, relevanceScore: Field)
    requires |rs| > 0 && forall i :: 0 <= i < |rs| ==> rs[i].words == []
    requires !average.Other? && !relevanceScore.Other?
    ensures Summary.Summarize(rs).Ok?
    ensures Summary.Summarize(rs).value.topPositive == [] && Summary.Summarize(rs).value.topNegative == []
    ensures Submit(average, relevanceScore, None, None,
                   Summary.Summarize(rs).value.topPositive, Summary.Summarize(rs).value.topNegative)
            == if PieDrawable(Bucket(average).value) && PieDrawable(Bucket(relevanceScore).value)
               then Err(KeyError) else Err(ValueError)
  {
    Summary.NoContributionsNoTopWords(rs);
  }

  // ---------------------------------------------------------------------
  // Worked values
  // ---------------------------------------------------------------------

  /** Halves go to the even neighbour: 85 scales to 8 and 75 to 8, while 87
      scales to 9; a missing key counts as 0. */
  lemma BucketExamples()
    ensures Bucket(Number(85.0)) == Ok(8)
    ensures Bucket(Number(75.0)) == Ok(8)
    ensures Bucket(Number(87.0)) == Ok(9)
    ensures Bucket(Number(-45.0)) == Ok(-4)
    ensures Bucket(Absent) == Ok(0)
  {
    RoundsToUnique(8.5, RoundHalfEven(8.5), 8);
    RoundsToUnique(7.5, RoundHalfEven(7.5), 8);
    RoundsToUnique(8.7, RoundHalfEven(8.7), 9);
    RoundsToUnique(-4.5, RoundHalfEven(-4.5), -4);
    RoundWhole(0);
  }

  /** Buckets 9 and 8 average to 8.5, which rounds down to 8: still the top
      rank, but only the strong tier. */
  /** A mildly negative average of -45 scales to -4, and a relevance score
      of 999 scales to 100: either pie gets a negative wedge. */
  lemma OutOfRangeFails()
    ensures Submit(Number(-45.0), Number(80.0), None, None, [Ranking.WordCount("good", 1)], [])
            == Err(ValueError)
    ensures Submit(Number(80.0), Number(999.0), None, None, [Ranking.WordCount("good", 1)], [])
            == Err(ValueError)
  {
    RoundsToUnique(-4.5, RoundHalfEven(-4.5), -4);
    RoundsToUnique(99.9, RoundHalfEven(99.9), 100);
  }

  lemma SubmitExample()
    ensures Submit(Number(87.0), Number(85.0), None, None, [Ranking.WordCount("clear", 2)], []).Ok?
    ensures Submit(Number(87.0), Number(85.0), None, None, [Ranking.WordCount("clear", 2)], []).value.score == "8/10"
    ensures Submit(Number(87.0), Number(85.0), None, None, [Ranking.WordCount("clear", 2)], []).value.rank == TopRank
    ensures TierOf(Submit(Number(87.0), Number(85.0), None, None, [Ranking.WordCount("clear", 2)], []).value.finalScore) == Strong
  {
    BucketExamples();
    RoundsToUnique(8.5, FinalScore(9, 8), 8);
    assert ShowInt(8) == "8";
  }
}
