# Interview practice: transcript sentiment, relevance scoring and interview flow

This project models the deterministic core of an interview-practice tool written in Python. The tool works in four steps:

- A speech recogniser turns an answer into timestamped text.
- A lexicon-based sentiment analyser (VADER) scores that text, either sentence by sentence or segment by segment.
- A language model is asked to grade the answer. A score and an observation are pulled out of its free-text reply.
- A web front end turns the stored results into a score out of ten, a rank and feedback messages. It also runs a timed five-question interview.

The model keeps everything the repository itself decides:

- **Sentence pipeline** (`Text`, `Sentiment`, `Sentences`):
  - The recogniser's chunks are joined into one transcript.
  - The transcript is split on every literal period. Each piece is stripped, blank pieces are dropped, and the period is put back.
  - Each sentence gets a label from fixed thresholds.
  - Each whitespace token whose own score reaches 0.1 in magnitude is listed as a contributing word.
- **Summary** (`Ranking`, `Summary`):
  - label counts and the positivity percentage;
  - the five most common positive and negative words (`Counter.most_common`: highest count first, ties in first-seen order);
  - the first best and first worst sentence;
  - the templated insight sentence;
  - the division by zero on an empty transcript.
- **Segment labeller** (`Segments`): one labelled record per transcript segment, in order.
- **Relevance extractor** (`Relevance`):
  - The pattern `score(?:[:\s]*| is | of )(\d{1,3})` (case-insensitive) is a hand-written left-to-right matcher.
  - The matcher is proved equal to a plain description of the pattern.
  - The score is read from the leftmost match.
  - The observation removes every match in one pass and is then stripped.
- **Practice scoring** (`Feedback`):
  - Python's `round` (ties to even) turns the stored averages into buckets out of ten.
  - The buckets combine into a final score, a rank, a tier message and two lookup tables with defaults.
  - Two pie charts draw each bucket against the rest of ten. The charting library refuses a negative wedge with ValueError, so a bucket outside 0..10 fails. That happens for a stored average below -5 or a relevance score above 105.
  - The two stored top-word lists become a word table. When both lists are empty, building it fails with KeyError; see "## Findings".
- **Interview mode** (`Interview`):
  - The start button, the next-question button and the once-a-second timer handler are pure functions on the page state.
  - The interview is proved to be a transition system with a valid-state invariant and a terminal "complete" screen.

The sentiment analyser is a parameter `Scorer = string -> real` throughout. Python floats are Dafny `real`s. Python integers are unbounded `int`s, as in Python.

## Model

| member | source | states |
|---|---|---|
| Text.Strip | src/final_sentence_wise_sentiment.py:31 | `str.strip()`: the result is a slice of the input with no whitespace at either end, and it is empty exactly when the input is all whitespace |
| Text.StripPadded | src/relevance.py:39 | stripping removes exactly the whitespace padding around a non-empty trimmed text |
| Text.Split | src/final_sentence_wise_sentiment.py:31 | `text.split('.')` yields at least one piece and no piece contains the separator |
| Text.JoinSplit | src/final_sentence_wise_sentiment.py:31 | joining the pieces of a split with the separator rebuilds the input: no character is lost or added |
| Text.SplitJoin | src/final_sentence_wise_sentiment.py:12 | splitting a join of separator-free parts gives the parts back |
| Text.Words | src/final_sentence_wise_sentiment.py:15 | `sentence.split()` yields non-empty tokens without whitespace |
| Text.WordsCoverVisible | src/final_sentence_wise_sentiment.py:15 | the tokens of `split()` hold exactly the non-whitespace characters of the sentence, in order |
| Text.WordsOfJoin | src/final_sentence_wise_sentiment.py:15 | splitting words joined by single spaces gives the words back |
| Text.WordsAtSpace | src/final_sentence_wise_sentiment.py:15 | every whitespace character, not only a space, ends a token: the tokens of `a`, a whitespace character, then `b` are the tokens of `a` followed by the tokens of `b` |
| Text.Join | src/final_sentence_wise_sentiment.py:12 | no contract of its own; `Text.JoinSplit` and `Text.SplitJoin` prove that joining with a separator is the inverse of splitting on it, for parts without the separator |
| Decimal.ParseShowInt | src/frontend.py:70 | the decimal text of any integer reads back as that integer |
| Decimal.ParseShowNegative | src/frontend.py:70 | a minus sign followed by the digits of a positive number reads back as its negation |
| Sentiment.Classify | src/final_sentence_wise_sentiment.py:39-44 | the label is Positive iff compound ≥ 0.05, Negative iff compound ≤ -0.05, and Neutral iff strictly between |
| Sentiment.ClassifyMonotone | src/final_sentence_wise_sentiment.py:39-44 | a higher compound score never gets a more negative label |
| Sentiment.WordLabel | src/final_sentence_wise_sentiment.py:24 | a word's label is never Neutral, and it is Positive iff its score is positive |
| Sentences.TranscriptText | src/final_sentence_wise_sentiment.py:9-12 | no chunks give the empty transcript and one chunk gives itself; `Sentences.TranscriptWords` states what the join keeps for any number of chunks |
| Sentences.TranscriptSplitsBack | src/final_sentence_wise_sentiment.py:12 | the join puts exactly one space between chunks: splitting on spaces recovers space-free chunks |
| Sentences.TranscriptWords | src/final_sentence_wise_sentiment.py:12 | for any chunks, with or without spaces inside them, the transcript's tokens are the chunks' tokens in order: the join never glues two tokens together and never splits one |
| Sentences.Contributions | src/final_sentence_wise_sentiment.py:18-25 | every kept token is one of the input tokens, carries its own score, has magnitude ≥ 0.1, and is labelled by the sign of that score |
| Sentences.ContributionsAppend | src/final_sentence_wise_sentiment.py:18-25 | tokens are judged one at a time and in order: the contributions of a concatenation concatenate |
| Sentences.ContributionOfToken | src/final_sentence_wise_sentiment.py:20 | a token is kept exactly when its score is at least 0.1 in magnitude |
| Sentences.WordContributions | src/final_sentence_wise_sentiment.py:14-27 | every contributing word is a whitespace token of the sentence |
| Sentences.LastWordKeepsEnd | src/final_sentence_wise_sentiment.py:35-46 | the last token of a sentence ends with its final character, so it keeps the appended period |
| Sentences.FragmentsShaped | src/final_sentence_wise_sentiment.py:31-35 | every kept fragment is non-empty and trimmed, ends with its one period, and has no other period |
| Sentences.Fragments | src/final_sentence_wise_sentiment.py:31 | the comprehension keeps at most one sentence per piece; `Sentences.FragmentsShaped`, `Sentences.FragmentsAppend` and `Sentences.FragmentOfPiece` state which ones and how |
| Sentences.FragmentsAppend | src/final_sentence_wise_sentiment.py:31 | pieces are kept or dropped one by one: fragments keep input order |
| Sentences.FragmentOfPiece | src/final_sentence_wise_sentiment.py:31-35 | a whitespace-only piece gives no sentence, and any other piece gives its stripped text plus a period |
| Sentences.SentenceTexts | src/final_sentence_wise_sentiment.py:31-35 | every sentence text is shaped as above, and there are no more sentences than period-separated pieces |
| Sentences.ScoreAll | src/final_sentence_wise_sentiment.py:34-54 | one result per text, in order, numbered 1..n, with score = 100 × compound, the threshold label and the word contributions |
| Sentences.AnalyzeSentences | src/final_sentence_wise_sentiment.py:29-56 | the results are exactly the sentence texts of the transcript, in order, numbered 1..n, each sentence-shaped, scored and labelled |
| Segments.AnalyzeSegments | src/analyze_sentiment_from_json.py:11-35 | dropping the added fields gives back exactly the input segments (same length, order, start, end and text); each score is 100 × compound and each label follows the thresholds |
| Ranking.FirstIndex | src/final_sentence_wise_sentiment.py:84-85 | the position where a word is first met, with no earlier occurrence |
| Ranking.BeforeTotal | src/final_sentence_wise_sentiment.py:84-85 | any two different words are ranked one way or the other, so the tie-break leaves no tie |
| Ranking.Distinct | src/final_sentence_wise_sentiment.py:84 | the words counted, each once, are exactly the words of the list |
| Ranking.BestIndex | src/final_sentence_wise_sentiment.py:84-85 | the chosen word ranks ahead of every other candidate |
| Ranking.RemoveAt | src/final_sentence_wise_sentiment.py:84-85 | removing the chosen word leaves every other candidate, once each |
| Ranking.TopK | src/final_sentence_wise_sentiment.py:84-85 | takes min(k, candidates) words in strict ranking order, and every word left out ranks behind all words taken |
| Ranking.MostCommon | src/final_sentence_wise_sentiment.py:84-85 | `most_common(n)`: at most n distinct words with their true counts, highest count first, ties in first-seen order, no better word left out |
| Ranking.MostCommonOrder | src/final_sentence_wise_sentiment.py:84-85 | in a most-common list, counts never increase, and equal counts appear in first-seen order |
| Summary.LabelCountsAddUp | src/final_sentence_wise_sentiment.py:69-72 | the positive, neutral and negative counts add up to the number of sentences |
| Summary.CountLabel | src/final_sentence_wise_sentiment.py:69-71 | `labels.count(l)` is at most the number of sentences, zero exactly when no sentence has the label, and the number of sentences exactly when all do |
| Summary.Tagged | src/final_sentence_wise_sentiment.py:78-82 | a word of one sentence is collected exactly when one of its contributions carries it with the label |
| Summary.WordsWith | src/final_sentence_wise_sentiment.py:77-82 | a word is collected exactly when some sentence has it as a contributing word with the label |
| Summary.WordsWithAppend | src/final_sentence_wise_sentiment.py:77-82 | sentences are visited in order: the words collected from a concatenation are the two collections concatenated |
| Summary.NoContributionsNoWords | src/final_sentence_wise_sentiment.py:77-82 | sentences without contributing words give no words to collect |
| Summary.NothingToCount | src/final_sentence_wise_sentiment.py:84-85 | `most_common` of an empty list is empty |
| Summary.NoContributionsNoTopWords | src/final_sentence_wise_sentiment.py:84-85 | a summary of sentences without contributing words has two empty top-word lists |
| Summary.SumBounds | src/final_sentence_wise_sentiment.py:68 | a sum of n scores within [lo, hi] lies within [n·lo, n·hi] |
| Summary.MeanBetween | src/final_sentence_wise_sentiment.py:68 | a mean of values within [lo, hi] stays within [lo, hi] |
| Summary.MeanOfBounded | src/final_sentence_wise_sentiment.py:68 | the mean of a non-empty list of scores within [lo, hi] lies within [lo, hi] |
| Summary.FirstMax | src/final_sentence_wise_sentiment.py:87 | `max` with a key: a position holding the highest score, with every earlier score strictly lower |
| Summary.FirstMin | src/final_sentence_wise_sentiment.py:88 | `min` with a key: a position holding the lowest score, with every earlier score strictly higher |
| Summary.Best | src/final_sentence_wise_sentiment.py:87 | the best sentence is the first one with the highest score |
| Summary.Worst | src/final_sentence_wise_sentiment.py:88 | the worst sentence is the first one with the lowest score |
| Summary.Average | src/final_sentence_wise_sentiment.py:68 | the average lies between some sentence's score and some sentence's score |
| Summary.Percentage | src/final_sentence_wise_sentiment.py:96 | the positivity times the total is 100 × the positive count, and it lies in [0, 100] |
| Summary.InsightRoundTrip | src/final_sentence_wise_sentiment.py:109 | the f-string with the worst sentence's number first and the best one's second reads back as exactly those two numbers |
| Summary.Insight | src/final_sentence_wise_sentiment.py:109 | both sentence numbers read back out of the insight text, the worst sentence's first |
| Summary.Summarize | src/final_sentence_wise_sentiment.py:63-110 | fails with ZeroDivisionError exactly on an empty list; otherwise the counts, total, positivity, best, worst, both top-5 lists and insight as stated above, and worst ≤ average ≤ best |
| Relevance.LiteralAtChars | src/relevance.py:35 | a literal matches exactly when every character, after ASCII lower-casing, equals the literal's character at the same place |
| Relevance.DigitRunEnd | src/relevance.py:35 | `\d{1,3}` is greedy: it takes one to three digits, and stops before a fourth only when three were taken |
| Relevance.SeparatorRunEnd | src/relevance.py:35 | `[:\s]*` is greedy: the run it takes ends at the text's end or at a character that is neither a colon nor whitespace |
| Relevance.SeparatorRun | src/relevance.py:35 | every character the `[:\s]*` run passes over is a colon or whitespace |
| Relevance.MatchAt | src/relevance.py:35 | a reported match starts at the word `score`, and its digits start at least five characters later and run greedily |
| Relevance.MatchAtAgrees | src/relevance.py:35 | the matcher reports a match at a position exactly when the pattern occurs there, and every match it reports fits the pattern |
| Relevance.Search | src/relevance.py:35 | `re.search` reports a position inside the text where the matcher succeeds |
| Relevance.SearchLeftmost | src/relevance.py:35 | the reported position is the leftmost match start, and an empty result means no position matches |
| Relevance.SearchFinds | src/relevance.py:35 | the search reports the first position where the matcher succeeds, however many follow |
| Relevance.SearchMisses | src/relevance.py:35-36 | with no match start anywhere, the search reports nothing |
| Relevance.RemoveNoMatch | src/relevance.py:39 | where no match starts, `re.sub` leaves the text unchanged |
| Relevance.RemoveUpTo | src/relevance.py:39 | `re.sub` copies every character before the first match start unchanged |
| Relevance.RemoveLeftmost | src/relevance.py:39 | `re.sub` keeps the text before the leftmost match, drops the match, and continues after it, so every non-overlapping match is removed in one pass |
| Relevance.Remove | src/relevance.py:39 | `re.sub` never lengthens the text and keeps only characters of it; `Relevance.RemoveNoMatch`, `Relevance.RemoveUpTo` and `Relevance.RemoveLeftmost` pin what it keeps |
| Relevance.NoPatternBefore | src/relevance.py:35 | no match reported before a position means no occurrence of the pattern before it |
| Relevance.RunDigits | src/relevance.py:36 | the captured group is all digits and `int` of it is at most 999 |
| Relevance.ScoreOf | src/relevance.py:35-36 | the score, when found, is at most 999; `Relevance.ScoreOfLeftmost` and `Relevance.EvaluateAgrees` tie it to the leftmost match |
| Relevance.ObservationOf | src/relevance.py:39 | the observation has no whitespace at either end; `Relevance.ObservationOfSingle` and `Relevance.Unmatched` pin its text |
| Relevance.Evaluate | src/relevance.py:33-43 | the score, when present, is at most 999 and is not clamped to 100; the observation never has leading or trailing whitespace |
| Relevance.EvaluateAgrees | src/relevance.py:33-43 | the score is absent iff the pattern occurs nowhere; otherwise it is `int` of the digits of the leftmost occurrence; with no score the observation is the stripped input, so an `Error: …` reply with no occurrence of the pattern comes back whole, only stripped |
| Relevance.ScoreOfLeftmost | src/relevance.py:35-36 | the score comes from the leftmost match, whatever matches follow it |
| Relevance.ObservationOfSingle | src/relevance.py:39 | with a single match, the observation is the text on both sides of it, joined and stripped |
| Relevance.Unmatched | src/relevance.py:35-39 | with no match anywhere there is no score and the observation is the stripped text |
| RelevanceExamples.ColonForm | src/relevance.py:34-39 | `Score: 85` followed by an explanation gives 85 and the explanation alone |
| RelevanceExamples.IsForm | src/relevance.py:34-39 | `score is 90` inside a sentence gives 90, and its removal joins the two sides as they stood |
| RelevanceExamples.OfForm | src/relevance.py:34-39 | `score of 75` gives 75 and an empty observation |
| RelevanceExamples.FourDigits | src/relevance.py:35-39 | `Score: 1234` gives 123 and leaves `4` as the observation |
| RelevanceExamples.NoNumber | src/relevance.py:35-39 | the word `score` without a number gives no score and the whole text as the observation |
| RelevanceExamples.SkipsBareWord | src/relevance.py:35-39 | a `score` not followed by a separator and digits is skipped, the search continues to a later one, and the skipped word stays in the observation |
| RelevanceExamples.TwoMatches | src/relevance.py:34-39 | `score 1 score 2` gives 1 from the first match, and one pass removes both matches, so only the space between them is left and stripped away |
| Feedback.RoundHalfEven | src/frontend.py:67-69 | `round(x)`: an integer within one half of x, the even one on a tie |
| Feedback.RoundsToUnique | src/frontend.py:67-69 | that description fixes the result, so it characterises Python's `round` completely |
| Feedback.RoundMonotone | src/frontend.py:67-69 | a larger argument never rounds lower |
| Feedback.RoundWhole | src/frontend.py:69 | a whole number rounds to itself |
| Feedback.Numeric | src/frontend.py:67-68 | a missing key reads as 0; a null, string, list or object fails with TypeError when divided |
| Feedback.Bucket | src/frontend.py:67-68 | `round(value / 10)` with that default and that failure |
| Feedback.BucketRange | src/frontend.py:67-68 | a value between 10·lo and 10·hi gives a bucket between lo and hi |
| Feedback.FinalScore | src/frontend.py:69 | `round((sentiment + relevance) / 2)` with ties to even |
| Feedback.FinalBetween | src/frontend.py:69 | the final score lies between the two buckets |
| Feedback.ScoreTextRoundTrip | src/frontend.py:70 | the digits of any integer followed by `/10` read back as that integer |
| Feedback.ScoreText | src/frontend.py:70 | the `n/10` text reads back as the final score |
| Feedback.Rank | src/frontend.py:71 | the rank is "Top 5% applicant" iff the final score is at least 8, otherwise "Needs improvement" |
| Feedback.TierOf | src/frontend.py:73-78 | exactly one of four tiers, chosen by final ≥ 9, ≥ 7, ≥ 5, or below |
| Feedback.TierMonotone | src/frontend.py:73-78 | a higher final score never earns a worse tier |
| Feedback.RankAndTier | src/frontend.py:71-78 | a top-ranked score is at least Strong, and an Excellent score is top-ranked |
| Feedback.TierMessageInjective | src/frontend.py:73-78 | the four tier messages are pairwise different |
| Feedback.FinalFeedback | src/frontend.py:73-78 | each tier's message is given exactly on that tier's scores: from 9, 7 to 8, 5 to 6, and below 5 |
| Feedback.SentimentTableShape | src/frontend.py:80-91 | the tone table has exactly the keys 1..10, ten different messages, none equal to the default |
| Feedback.RelevanceTableShape | src/frontend.py:93-104 | the relevance table has exactly the keys 1..10, ten different messages, none equal to the default |
| Feedback.Lookup | src/frontend.py:91 | `dict.get(key, default)` |
| Feedback.SentimentFeedback | src/frontend.py:80-91 | the default tone message is given exactly for buckets outside 1..10 |
| Feedback.RelevanceFeedback | src/frontend.py:93-104 | the default relevance message is given exactly for buckets outside 1..10 |
| Feedback.FeedbackNamesBucket | src/frontend.py:80-104 | two buckets in 1..10 with the same message are the same bucket |
| Feedback.TagRows | src/frontend.py:143-146 | one row per word, in order, with its count and the list's `Type` |
| Feedback.WordRows | src/frontend.py:143-147 | the word table lists every positive word with its count, then every negative word with its count, and has no rows when there are no words |
| Feedback.Submit | src/frontend.py:65-148 | fails with TypeError exactly when a stored value cannot be divided; otherwise with ValueError exactly when a bucket lies outside 0..10, the pie charts' negative wedge; otherwise with KeyError exactly when both top-word lists are empty; otherwise both buckets lie in 0..10, the buckets and the final score round as Python does, the score text reads back as the final score, the rank follows the threshold, the feedback comes from the tables, and a missing observation or insight is replaced by its default text; the word table is `Feedback.WordRows` of the two lists |
| Feedback.QuietAnswerFails | src/frontend.py:143-147 | an answer in which no word scores 0.1 either way gives two empty top-word lists; submitting it fails with KeyError when both buckets lie in 0..10, and with the pie charts' ValueError otherwise |
| Feedback.DrawableRange | src/frontend.py:67-68 | a stored value between 0 and 100 gives a bucket in 0..10, which the pie charts can draw |
| Feedback.OutOfRangeFails | src/frontend.py:110-120 | a stored average of -45 (bucket -4) or a relevance score of 999 (bucket 100) makes submitting fail with ValueError |
| Feedback.BucketExamples | src/frontend.py:67-68 | 85 and 75 both scale to 8 (ties to even), 87 to 9, -45 to -4, and a missing key to 0 |
| Feedback.SubmitExample | src/frontend.py:67-71 | buckets 9 and 8 give a final 8.5 rounded to 8: "8/10", top rank, Strong tier |
| Interview.PyIndex | src/frontend.py:227 | Python list indexing: valid from -len to len-1, negative indices count from the end, anything else is IndexError |
| Interview.TimerTextRoundTrip | src/frontend.py:231-232 | the `m:ss` countdown text shows exactly the seconds it was made from |
| Interview.TimerText | src/frontend.py:231-232 | no contract of its own; `Interview.TimerTextRoundTrip` proves the `m:ss` text reads back as the seconds it was made from |
| Interview.FullTimeText | src/frontend.py:269 | the full 90 seconds read "Time Left: 1:30" |
| Interview.Start | src/frontend.py:264-274 | whatever the state, the first question at index 0, with 90 seconds shown and left, the next button visible, and both timer flags on |
| Interview.RunInterview | src/frontend.py:202-262 | IndexError exactly when the target index is below -5; the index never decreases and advances by at most one past the target; the closing screen exactly from index 5 on; otherwise the question at the index, counted down by one with its seconds shown, or the next question with a full clock once time is up |
| Interview.Tick | src/frontend.py:424-449 | with the timer flag off, nothing changes and the timer is switched off; otherwise one step of the interview, with the timer left on |
| Interview.InitialValid | src/frontend.py:354-357 | the page as loaded is a valid state |
| Interview.StartValid | src/frontend.py:264-274 | starting from any state gives a valid state showing question 1 |
| Interview.StepsPreserveValid | src/frontend.py:202-262 | skip and tick never fail on a valid state and keep it valid; skip advances exactly one question and a tick at most one |
| Interview.TickCountsDown | src/frontend.py:229-233 | a tick with time left keeps the question, shows the seconds left, and takes one second off |
| Interview.TickShowsSeconds | src/frontend.py:229-233 | the text a counting-down tick shows reads back as the seconds that were left before it |
| Interview.TickExpires | src/frontend.py:234-252 | a tick at zero moves to the next question with 90 seconds, or closes the interview after the fifth |
| Interview.SkipShowsNext | src/frontend.py:204-233 | a skip to an existing question shows it with "Time Left: 1:30" and leaves 89 seconds |
| Interview.Skip | src/frontend.py:204-207 | fails exactly when the next index is below -5; past the last question, the closing screen; otherwise the next question with the full time shown and one second already taken, whatever the clock showed before |
| Interview.SkipsFrom | src/frontend.py:204-207 | k skips from a question move exactly k questions on |
| Interview.Countdown | src/frontend.py:229-233 | n ticks on a question with at least n seconds left keep that question up, leave both timer flags on, keep the state valid and take exactly n seconds off |
| Interview.FiveSkipsComplete | src/frontend.py:204-219 | five skips from the start reach the closing screen with index 5 |
| Interview.FirstQuestionCountdown | src/frontend.py:229-233 | for 90 ticks after the start the first question stays up while the clock runs down to zero |
| Interview.SecondQuestionAfterExpiry | src/frontend.py:234-242 | the 91st tick brings up the second question with a full clock, so each question lasts 91 ticks |

## Left out

- File and JSON input/output are not modelled: reading the recogniser's output and the transcript, the stored JSON results, saving results and summaries, and module-level loading and exit. The model starts from the parsed values.
- The sentiment analyser's internals (VADER) are not modelled. Every operation takes the compound score as the parameter `Scorer`.
- `round(x, 2)` on sentence and segment scores, and on the summary's average and percentage, is not modelled. Scores are exact reals. Floating-point representation is not modelled either.
- `evaluate_answer`, the language-model call in src/relevance.py:6-30, is not modelled because it is a network call. Only the reply text it returns is an input to `Relevance.Evaluate`, including its `Error: …` text.
- Relevance.LiteralAtChars: case folding is ASCII lower-casing only. Python's `re.IGNORECASE` also lets `ſ` (U+017F) match `s`, and `ı` (U+0131) and `İ` (U+0130) match `i`, so a reply such as `score ıs 90` scores 90 in Python but has no score here.
- Relevance.MatchAt: inherits the ASCII-only case folding above, so the `ſ`, `ı` and `İ` spellings of `score`, ` is ` and the other words are not matched.
- Relevance.MatchAt: `\d` matches ASCII digits only. Python's `\d` also matches other Unicode decimal digits, which `int` converts; that is not modelled.
- Relevance.EvaluateAgrees: pins the observation only when there is no match. In the matched case, `Relevance.RemoveLeftmost`, `Relevance.RemoveNoMatch` and `Relevance.ObservationOfSingle` describe it, as do the worked examples.
- Summary.Average: the contract places the mean between two sentence scores. It does not state the exact quotient, because an exact ensures would only repeat the body's `Sum(scores) / |rs|`; the bound is the property the rest of the model uses.
- Sentences.Fragments: its own contract only bounds the length. The shape, order and per-piece behaviour are stated by `Sentences.FragmentsShaped`, `Sentences.FragmentsAppend` and `Sentences.FragmentOfPiece`.
- Plots, image encoding, HTML tables, CSS and the insight's HTML markup are not modelled. Of the pie charts, only their ValueError for a negative wedge is modelled, in `Feedback.Submit`. Submit keeps the observation and insight texts the markup would show.
- `final_feedback` is computed in `dummy_submit` and never returned. The model defines it as `Feedback.FinalFeedback` and leaves it out of `Feedback.Submit`, as the code does.
- The word table's HTML is not modelled; its rows are `Feedback.WordRows`. The stored top-word lists are modelled as lists of word and count pairs, with a missing list read as the empty list. A list stored as JSON `null` or another non-list value, and list items without a `word` or `count` key, are not modelled.
- The word cloud (src/frontend.py:151-190) is not modelled.
- Feedback.Field covers the JSON values that matter: a missing key, a number, a boolean, and everything else. A large JSON integer that Python divides as an inexact float is not modelled.
- Gradio scheduling is not modelled: when the timer component fires, `gr.update` and the `gr.Timer` object. The next button's visibility and the timer's active flag are booleans, and a tick is an input event.
- `random.choice` question selection, `get_random_question`, `reset_ui`, `save_video` (a file copy before scoring) and the practice question list are not modelled because they are random or file operations.
- src/run.py is not part of this model. It runs the recorder and recogniser as subprocesses.

## Findings

| source | as written | input that shows it | evidently intended | confidence | as-written member | corrected member |
|---|---|---|---|---|---|---|
| src/frontend.py:143-147 | the word table selects the `word` and `count` columns from frames built from the two top-word lists; a frame built from an empty list has no columns, so when both lists are empty the selection raises KeyError and the submission shows nothing | any answer in which no word scores at least 0.1 either way, with both buckets in 0..10 so that the pie charts are drawn: every sentence has no contributing words, so both top-5 lists are empty | an empty word table, just as the word cloud falls back to a placeholder for the same two empty lists at lines 154 and 189-190 | not executed | Feedback.QuietAnswerFails | Feedback.WordRows |
