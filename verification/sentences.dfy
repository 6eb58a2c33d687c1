/** Sentence-level sentiment of a transcript: period-only splitting, per
    sentence labels and the per-word contributions. */
module Sentences {

  import opened Text
  import opened Sentiment

  datatype WordContribution = WordContribution(word: string, score: real, polarity: Label)

  /** One analysed sentence; `score` is the compound score times 100 (the
      two-decimal rounding is not modelled). */
  datatype SentenceResult = SentenceResult(
    number: nat,
    text: string,
    score: real,
    polarity: Label,
    words: seq<WordContribution>)

  /** The transcript text: the chunk texts of the recogniser's output joined
      by single spaces. */
  function TranscriptText(chunks: seq<string>): (text: string)
    ensures |chunks| == 0 ==> text == ""
    ensures |chunks| == 1 ==> text == chunks[0]
  {
    Join(chunks, ' ')
  }

  /** The join puts exactly one space between neighbouring chunks: when no
      chunk holds a space itself, splitting on spaces recovers the chunks. */
  lemma TranscriptSplitsBack(chunks: seq<string>)
    requires |chunks| >= 1
    requires forall i :: 0 <= i < |chunks| ==> ' ' !in chunks[i]
    ensures Split(TranscriptText(chunks), ' ') == chunks
  {
    SplitJoin(chunks, ' ');
  }

  /** The tokens of each chunk, chunk by chunk. */
  function ChunkWords(chunks: seq<string>): seq<string> {
    if |chunks| == 0 then [] else Words(chunks[0]) + ChunkWords(chunks[1..])
  }

  /** The join never glues two chunks' tokens together and never splits a
      token: the transcript's tokens are the chunks' tokens, in order. */
  lemma {:induction false} TranscriptWords(chunks: seq<string>)
    ensures Words(TranscriptText(chunks)) == ChunkWords(chunks)
  {
    if |chunks| == 1 {
      assert ChunkWords(chunks[1..]) == [];
      assert Words(chunks[0]) + [] == Words(chunks[0]);
    } else if |chunks| > 1 {
      TranscriptWords(chunks[1..]);
      WordsAtSpace(chunks[0], ' ', Join(chunks[1..], ' '));
    }
  }

  /** The contributions of a sequence of tokens: the tokens whose own score
      is significant, in order, each labelled by the sign of its score. */
  function Contributions(scorer: Scorer, tokens: seq<string>): (r: seq<WordContribution>)
    ensures |r| <= |tokens|
    ensures forall i :: 0 <= i < |r| ==>
              && r[i].word in tokens
              && r[i].score == scorer(r[i].word)
              && Significant(r[i].score)
              && r[i].polarity != Neutral
              && (r[i].polarity == Positive <==> r[i].score > 0.0)
  {
    if |tokens| == 0 then []
    else
      var s := scorer(tokens[0]);
      var rest := Contributions(scorer, tokens[1..]);
      if Significant(s) then [WordContribution(tokens[0], s, WordLabel(s))] + rest
      else rest
  }

  /** Contributions are computed token by token: the result for a
      concatenation is the concatenation of the results, so token order is
      kept and each token is kept or dropped on its own score alone. */
  lemma {:induction false} ContributionsAppend(scorer: Scorer, a: seq<string>, b: seq<string>)
    ensures Contributions(scorer, a + b) == Contributions(scorer, a) + Contributions(scorer, b)
  {
    if |a| == 0 {
      assert a + b == b;
    } else {
      ContributionsAppend(scorer, a[1..], b);
      assert (a + b)[1..] == a[1..] + b;
    }
  }

  /** A single token is kept exactly when its score is significant. */
  lemma ContributionOfToken(scorer: Scorer, w: string)
    ensures |Contributions(scorer, [w])| == (if Significant(scorer(w)) then 1 else 0)
  {
    assert [w][1..] == [];
  }

  /** `get_word_contributions`: the whitespace tokens of the sentence, the
      appended period included, that carry a significant score. */
  function WordContributions(scorer: Scorer, sentence: string): (r: seq<WordContribution>)
    ensures forall i :: 0 <= i < |r| ==>
              r[i].word in Words(sentence) && r[i].word != [] && NoSpace(r[i].word)
  {
    Contributions(scorer, Words(sentence))
  }

  /** The last whitespace token of a text that ends in a non-space character
      ends with that character; so the last token of a sentence keeps its
      period. */
  lemma {:induction false} LastWordKeepsEnd(s: string)
    requires |s| > 0 && !IsSpace(s[|s| - 1])
    ensures |Words(s)| > 0
    ensures var w := Words(s)[|Words(s)| - 1]; w[|w| - 1] == s[|s| - 1]
    decreases |s|
  {
    if IsSpace(s[0]) {
      assert Words(s) == Words(s[1..]);
      LastWordKeepsEnd(s[1..]);
    } else {
      var n := NonSpaceSpan(s);
      var rest := Words(s[n..]);
      assert Words(s) == [s[..n]] + rest;
      if n < |s| {
        assert s[n..][|s| - n - 1] == s[|s| - 1];
        LastWordKeepsEnd(s[n..]);
        assert Words(s)[|Words(s)| - 1] == rest[|rest| - 1];
      } else {
        assert s[..n] == s;
      }
    }
  }

  /** A sentence text: a non-empty trimmed fragment followed by one period,
      with no other period in it. */
  predicate SentenceShaped(t: string) {
    && |t| >= 2
    && t[|t| - 1] == '.'
    && '.' !in t[..|t| - 1]
    && Trimmed(t[..|t| - 1])
  }

  /** The fragments kept from the period-split pieces: each non-blank piece,
      stripped, with the period added back. */
  function Fragments(pieces: seq<string>): (r: seq<string>)
    ensures |r| <= |pieces|
  {
    if |pieces| == 0 then []
    else
      var s := Strip(pieces[0]);
      if s == "" then Fragments(pieces[1..]) else [s + "."] + Fragments(pieces[1..])
  }

  /** Pieces without periods yield sentence-shaped fragments. */
  lemma {:induction false} FragmentsShaped(pieces: seq<string>)
    requires forall j :: 0 <= j < |pieces| ==> '.' !in pieces[j]
    ensures forall i :: 0 <= i < |Fragments(pieces)| ==> SentenceShaped(Fragments(pieces)[i])
  {
    if |pieces| > 0 {
      FragmentsShaped(pieces[1..]);
      var s := Strip(pieces[0]);
      if s != "" {
        StrippedHasNoPeriod(pieces[0]);
        var t := s + ".";
        assert t[..|t| - 1] == s;
        assert SentenceShaped(t);
      }
    }
  }

  lemma StrippedHasNoPeriod(p: string)
    requires '.' !in p
    ensures '.' !in Strip(p)
  {
    var a, b := StripStart(p), StripEnd(p);
    assert forall k :: 0 <= k < b - a ==> Strip(p)[k] == p[a + k];
  }

  /** Filtering is piece by piece: fragments of a concatenation are the
      concatenated fragments, so input order is kept. */
  lemma {:induction false} FragmentsAppend(a: seq<string>, b: seq<string>)
    ensures Fragments(a + b) == Fragments(a) + Fragments(b)
  {
    if |a| == 0 {
      assert a + b == b;
    } else {
      var c := a + b;
      assert c[0] == a[0];
      assert c[1..] == a[1..] + b;
      FragmentsAppend(a[1..], b);

    }
  }

  /** A blank piece contributes no sentence; any other piece contributes its
      stripped text with a period. */
  lemma FragmentOfPiece(p: string)
    ensures Fragments([p]) == if AllSpace(p) then [] else [Strip(p) + "."]
  {
    assert [p][1..] == [];
  }

  /** The sentence texts of a transcript: split on every literal period,
      strip each piece, drop the blank ones and put the period back. */
  function SentenceTexts(transcript: string): (r: seq<string>)
    ensures forall i :: 0 <= i < |r| ==> SentenceShaped(r[i])
    ensures |r| <= |Split(transcript, '.')|
  {
    FragmentsShaped(Split(transcript, '.'));
    Fragments(Split(transcript, '.'))
  }

  function ScoreSentence(scorer: Scorer, number: nat, text: string): SentenceResult {
    var compound := scorer(text);
    SentenceResult(number, text, 100.0 * compound, Classify(compound), WordContributions(scorer, text))
  }

  /** Scores each text in order, numbering them from 1. */
  method ScoreAll(scorer: Scorer, texts: seq<string>) returns (r: seq<SentenceResult>)
    ensures |r| == |texts|
    ensures forall i :: 0 <= i < |r| ==>
              && r[i].number == i + 1
              && r[i].text == texts[i]
              && r[i].score == 100.0 * scorer(r[i].text)
              && r[i].polarity == Classify(scorer(r[i].text))
              && r[i].words == WordContributions(scorer, r[i].text)
  {
    r := [];
    var i := 0;
    while i < |texts|
      invariant i <= |texts| && |r| == i
      invariant forall k :: 0 <= k < i ==> r[k] == ScoreSentence(scorer, k + 1, texts[k])
    {
      r := r + [ScoreSentence(scorer, i + 1, texts[i])];
      i := i + 1;
    }
  }

  /** `analyze_sentences_period_only`: one result per sentence text, in
      order, numbered from 1. */
  method AnalyzeSentences(scorer: Scorer, transcript: string) returns (r: seq<SentenceResult>)
    ensures |r| == |SentenceTexts(transcript)|
    ensures forall i :: 0 <= i < |r| ==>
              && r[i].number == i + 1
              && SentenceShaped(r[i].text)
              && r[i].text == SentenceTexts(transcript)[i]
              && r[i].score == 100.0 * scorer(r[i].text)
              && r[i].polarity == Classify(scorer(r[i].text))
              && r[i].words == WordContributions(scorer, r[i].text)
  {
    r := ScoreAll(scorer, SentenceTexts(transcript));
  }
}
