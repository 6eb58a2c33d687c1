/** The documented inputs of the relevance extractor, worked through. */
module RelevanceExamples {

  import opened Outcome
  import opened Text
  import opened Decimal
  import opened Relevance

  /** Positions holding no letter `s` cannot start a match. */
  lemma NoMatchWithoutS(t: string, p: nat, q: nat)
    requires q <= |t|
    requires forall j :: p <= j < q ==> Lower(t[j]) != 's'
    ensures forall j :: p <= j < q ==> MatchAt(t, j).None?
  {
    forall j | p <= j < q
      ensures MatchAt(t, j).None?
    {
      assert !ScoreWordAt(t, j);
    }
  }

  lemma ColonMatch(t: string)
    requires |t| >= 10 && t[..9] == "Score: 85" && t[9] == '\n'
    ensures MatchAt(t, 0) == Some(Match(0, 7, 9))
  {
    assert t[0] == 'S' && t[1] == 'c' && t[2] == 'o' && t[3] == 'r' && t[4] == 'e';
    assert ScoreWordAt(t, 0);
    assert t[5] == ':' && t[6] == ' ' && t[7] == '8' && t[8] == '5';
    assert SeparatorRunEnd(t, 7) == 7;
    assert SeparatorRunEnd(t, 5) == 7;
    assert DigitRunEnd(t, 7) == 9;
  }

  lemma ColonScore(t: string)
    requires t == "Score: 85" + "\n\n" + "Explanation: good"
    ensures ScoreOf(t) == Some(85)
  {
    assert t[..9] == "Score: 85" && t[9] == '\n';
    ColonMatch(t);
    ScoreOfLeftmost(t, Match(0, 7, 9));
    assert t[7..9] == "85";
    assert Value("85") == 85;
  }

  lemma ColonOnly(t: string)
    requires t == "Score: 85" + "\n\n" + "Explanation: good"
    ensures MatchAt(t, 0) == Some(Match(0, 7, 9))
    ensures forall j :: 9 <= j < |t| ==> MatchAt(t, j).None?
  {
    assert t[..9] == "Score: 85" && t[9] == '\n';
    ColonMatch(t);
    NoMatchWithoutS(t, 9, |t|);
  }

  lemma ColonRemoved(t: string)
    requires t == "Score: 85" + "\n\n" + "Explanation: good"
    ensures ObservationOf(t) == Strip(t[..0] + t[9..])
  {
    ColonOnly(t);
    ObservationOfSingle(t, Match(0, 7, 9));
  }

  lemma ColonStripped(t: string)
    requires t == "Score: 85" + "\n\n" + "Explanation: good"
    ensures Strip(t[..0] + t[9..]) == "Explanation: good"
  {
    var gap, body := "\n\n", "Explanation: good";
    assert t[..0] + t[9..] == gap + body + "";
    assert AllSpace(gap) && Trimmed(body) && body != [];
    StripPadded(gap, body, "");
  }

  lemma ColonObservation(t: string)
    requires t == "Score: 85" + "\n\n" + "Explanation: good"
    ensures ObservationOf(t) == "Explanation: good"
  {
    ColonRemoved(t);
    ColonStripped(t);
  }

  /** The colon form with a blank line before the explanation. */
  lemma ColonForm()
    ensures Evaluate("Score: 85" + "\n\n" + "Explanation: good") == Evaluation(Some(85), "Explanation: good")
  {
    ColonScore("Score: 85" + "\n\n" + "Explanation: good");
    ColonObservation("Score: 85" + "\n\n" + "Explanation: good");
  }

  lemma IsMatch(t: string)
    requires |t| >= 16 && t[..15] == "The score is 90" && t[15] == ' '
    ensures MatchAt(t, 4) == Some(Match(4, 13, 15))
  {
    assert t[4] == 's' && t[5] == 'c' && t[6] == 'o' && t[7] == 'r' && t[8] == 'e';
    assert ScoreWordAt(t, 4);
    assert t[9] == ' ' && t[10] == 'i' && t[11] == 's' && t[12] == ' ';
    assert t[13] == '9' && t[14] == '0';
    assert SeparatorRunEnd(t, 10) == 10;
    assert SeparatorRunEnd(t, 9) == 10;
    assert LinkWordAt(t, 9);
    assert DigitRunEnd(t, 13) == 15;
  }

  lemma IsOnly(t: string)
    requires t == "The score is 90" + " overall"
    ensures MatchAt(t, 4) == Some(Match(4, 13, 15))
    ensures forall j :: 0 <= j < 4 ==> MatchAt(t, j).None?
    ensures forall j :: 15 <= j < |t| ==> MatchAt(t, j).None?
  {
    assert t[..15] == "The score is 90" && t[15] == ' ';
    IsMatch(t);
    assert t[0] == 'T' && t[1] == 'h' && t[2] == 'e' && t[3] == ' ';
    NoMatchWithoutS(t, 0, 4);
    assert t[15..] == " overall";
    NoMatchWithoutS(t, 15, |t|);
  }

  lemma IsScore(t: string)
    requires t == "The score is 90" + " overall"
    ensures ScoreOf(t) == Some(90)
  {
    IsOnly(t);
    ScoreOfLeftmost(t, Match(4, 13, 15));
    assert t[13..15] == "90";
    assert Value("90") == 90;
  }

  lemma IsRemoved(t: string)
    requires t == "The score is 90" + " overall"
    ensures ObservationOf(t) == Strip(t[..4] + t[15..])
  {
    IsOnly(t);
    ObservationOfSingle(t, Match(4, 13, 15));
  }

  lemma IsStripped(t: string)
    requires t == "The score is 90" + " overall"
    ensures Strip(t[..4] + t[15..]) == "The " + " overall"
  {
    assert t[..4] + t[15..] == "" + ("The " + " overall") + "";
    StripPadded("", "The " + " overall", "");
  }

  lemma IsObservation(t: string)
    requires t == "The score is 90" + " overall"
    ensures ObservationOf(t) == "The " + " overall"
  {
    IsRemoved(t);
    IsStripped(t);
  }

  /** The ` is ` alternative: the phrase is cut out of the middle of the
      text and the two sides are joined as they stood. */
  lemma IsForm()
    ensures Evaluate("The score is 90" + " overall") == Evaluation(Some(90), "The " + " overall")
  {
    IsScore("The score is 90" + " overall");
    IsObservation("The score is 90" + " overall");
  }

  lemma LongMatch(t: string)
    requires t == "Score: 1234"
    ensures MatchAt(t, 0) == Some(Match(0, 7, 10))
    ensures forall j :: 10 <= j < |t| ==> MatchAt(t, j).None?
  {
    assert t[0] == 'S' && t[1] == 'c' && t[2] == 'o' && t[3] == 'r' && t[4] == 'e';
    assert ScoreWordAt(t, 0);
    assert t[5] == ':' && t[6] == ' ' && t[7] == '1' && t[8] == '2' && t[9] == '3';
    assert SeparatorRunEnd(t, 7) == 7;
    assert SeparatorRunEnd(t, 5) == 7;
    assert DigitRunEnd(t, 7) == 10;
    assert t[10] == '4';
    NoMatchWithoutS(t, 10, |t|);
  }

  lemma LongScore(t: string)
    requires t == "Score: 1234"
    ensures ScoreOf(t) == Some(123)
  {
    LongMatch(t);
    ScoreOfLeftmost(t, Match(0, 7, 10));
    assert t[7..10] == "123";
    assert Value("123") == 123 by {
      assert "123"[..2] == "12" && "12"[..1] == "1" && "1"[..0] == "";
    }
  }

  lemma LongRemoved(t: string)
    requires t == "Score: 1234"
    ensures ObservationOf(t) == Strip(t[..0] + t[10..])
  {
    LongMatch(t);
    ObservationOfSingle(t, Match(0, 7, 10));
  }

  lemma LongStripped(t: string)
    requires t == "Score: 1234"
    ensures Strip(t[..0] + t[10..]) == "4"
  {
    assert t[..0] + t[10..] == "" + "4" + "";
    StripPadded("", "4", "");
  }

  lemma LongObservation(t: string)
    requires t == "Score: 1234"
    ensures ObservationOf(t) == "4"
  {
    LongRemoved(t);
    LongStripped(t);
  }

  /** At most three digits are taken; a fourth is left in the observation. */
  lemma FourDigits()
    ensures Evaluate("Score: 1234") == Evaluation(Some(123), "4")
  {
    LongScore("Score: 1234");
    LongObservation("Score: 1234");
  }

  lemma WordWithoutNumber(t: string)
    requires t == "No score here"
    ensures MatchAt(t, 3).None?
  {
    assert ScoreWordAt(t, 3);
    assert t[8] == ' ' && t[9] == 'h';
    assert SeparatorRunEnd(t, 9) == 9;
    assert SeparatorRunEnd(t, 8) == 9;
    assert !LinkWordAt(t, 8);
  }

  lemma NothingInNoScore(t: string)
    requires t == "No score here"
    ensures forall j :: 0 <= j < |t| ==> MatchAt(t, j).None?
  {
    WordWithoutNumber(t);
    assert t[0] == 'N' && t[1] == 'o' && t[2] == ' ';
    NoMatchWithoutS(t, 0, 3);
    assert t[4] == 'c' && t[5] == 'o' && t[6] == 'r' && t[7] == 'e' && t[8] == ' ';
    assert t[9] == 'h' && t[10] == 'e' && t[11] == 'r' && t[12] == 'e';
    NoMatchWithoutS(t, 4, |t|);
  }

  lemma NoNumberStripped(t: string)
    requires t == "No score here"
    ensures Strip(t) == t
  {
    assert t[0] == 'N' && t[12] == 'e';
    StripPadded("", t, "");
    assert "" + t + "" == t;
  }

  lemma NoNumberOf(t: string)
    requires t == "No score here"
    ensures Evaluate(t) == Evaluation(None, t)
  {
    NothingInNoScore(t);
    Unmatched(t);
    NoNumberStripped(t);
  }

  /** The word alone is not enough: without a number there is no score and
      the text comes back whole. */
  lemma NoNumber()
    ensures Evaluate("No score here") == Evaluation(None, "No score here")
  {
    NoNumberOf("No score here");
  }

  lemma OfMatch(t: string)
    requires t == "score of 75"
    ensures MatchAt(t, 0) == Some(Match(0, 9, 11))
  {
    assert t[0] == 's' && t[1] == 'c' && t[2] == 'o' && t[3] == 'r' && t[4] == 'e';
    assert ScoreWordAt(t, 0);
    assert t[5] == ' ' && t[6] == 'o' && t[7] == 'f' && t[8] == ' ';
    assert t[9] == '7' && t[10] == '5';
    assert SeparatorRunEnd(t, 6) == 6;
    assert SeparatorRunEnd(t, 5) == 6;
    assert LinkWordAt(t, 5);
    assert DigitRunEnd(t, 9) == 11;
  }

  lemma OfScore(t: string)
    requires t == "score of 75"
    ensures ScoreOf(t) == Some(75)
  {
    OfMatch(t);
    ScoreOfLeftmost(t, Match(0, 9, 11));
    assert t[9..11] == "75";
    assert Value("75") == 75;
  }

  lemma OfObservation(t: string)
    requires t == "score of 75"
    ensures ObservationOf(t) == ""
  {
    OfMatch(t);
    ObservationOfSingle(t, Match(0, 9, 11));
    assert t[..0] + t[11..] == "";
  }

  /** The ` of ` alternative; a text that is all match leaves nothing behind. */
  lemma OfForm()
    ensures Evaluate("score of 75") == Evaluation(Some(75), "")
  {
    OfScore("score of 75");
    OfObservation("score of 75");
  }

  lemma BareWord(t: string)
    requires t == "score x score 7"
    ensures MatchAt(t, 0).None?
  {
    assert ScoreWordAt(t, 0);
    assert t[5] == ' ' && t[6] == 'x' && t[7] == ' ';
    assert SeparatorRunEnd(t, 6) == 6;
    assert SeparatorRunEnd(t, 5) == 6;
    assert !LinkWordAt(t, 5);
  }

  lemma SecondWord(t: string)
    requires t == "score x score 7"
    ensures MatchAt(t, 8) == Some(Match(8, 14, 15))
    ensures forall j :: 0 <= j < 8 ==> MatchAt(t, j).None?
  {
    BareWord(t);
    assert t[1] == 'c' && t[2] == 'o' && t[3] == 'r' && t[4] == 'e';
    assert t[5] == ' ' && t[6] == 'x' && t[7] == ' ';
    NoMatchWithoutS(t, 1, 8);
    assert t[8] == 's' && t[9] == 'c' && t[10] == 'o' && t[11] == 'r' && t[12] == 'e';
    assert ScoreWordAt(t, 8);
    assert t[13] == ' ' && t[14] == '7';
    assert SeparatorRunEnd(t, 14) == 14;
    assert SeparatorRunEnd(t, 13) == 14;
    assert DigitRunEnd(t, 14) == 15;
  }

  lemma SkipScore(t: string)
    requires t == "score x score 7"
    ensures ScoreOf(t) == Some(7)
  {
    SecondWord(t);
    ScoreOfLeftmost(t, Match(8, 14, 15));
    assert t[14..15] == "7";
    assert Value("7") == 7;
  }

  lemma SkipRemoved(t: string)
    requires t == "score x score 7"
    ensures ObservationOf(t) == Strip(t[..8] + t[15..])
  {
    SecondWord(t);
    ObservationOfSingle(t, Match(8, 14, 15));
  }

  lemma SkipStripped(t: string)
    requires t == "score x score 7"
    ensures Strip(t[..8] + t[15..]) == "score x"
  {
    assert t[..8] + t[15..] == "" + "score x" + " ";
    StripPadded("", "score x", " ");
  }

  /** A `score` with no number after it is passed over; the search goes on
      to the next one, and the first stays in the observation. */
  lemma SkipsBareWord()
    ensures Evaluate("score x score 7") == Evaluation(Some(7), "score x")
  {
    SkipScore("score x score 7");
    SkipRemoved("score x score 7");
    SkipStripped("score x score 7");
  }

  lemma FirstOfTwo(t: string)
    requires t == "score 1 score 2"
    ensures MatchAt(t, 0) == Some(Match(0, 6, 7))
  {
    assert ScoreWordAt(t, 0);
    assert t[5] == ' ' && t[6] == '1' && t[7] == ' ';
    assert SeparatorRunEnd(t, 6) == 6;
    assert SeparatorRunEnd(t, 5) == 6;
    assert DigitRunEnd(t, 6) == 7;
  }

  lemma SecondOfTwo(t: string)
    requires t == "score 1 score 2"
    ensures MatchAt(t, 7).None?
    ensures MatchAt(t, 8) == Some(Match(8, 14, 15))
  {
    assert t[7] == ' ' && !ScoreWordAt(t, 7);
    assert t[8] == 's' && t[9] == 'c' && t[10] == 'o' && t[11] == 'r' && t[12] == 'e';
    assert ScoreWordAt(t, 8);
    assert t[13] == ' ' && t[14] == '2';
    assert SeparatorRunEnd(t, 14) == 14;
    assert SeparatorRunEnd(t, 13) == 14;
    assert DigitRunEnd(t, 14) == 15;
  }

  lemma TwoScore(t: string)
    requires t == "score 1 score 2"
    ensures ScoreOf(t) == Some(1)
  {
    FirstOfTwo(t);
    ScoreOfLeftmost(t, Match(0, 6, 7));
    assert t[6..7] == "1";
    assert Value("1") == 1;
  }

  lemma TwoRemoved(t: string)
    requires t == "score 1 score 2"
    ensures Remove(t, 0) == " "
  {
    FirstOfTwo(t);
    SecondOfTwo(t);
    RemoveLeftmost(t, 0, 0);
    RemoveLeftmost(t, 7, 8);
    assert Remove(t, 15) == "";
    assert t[0..0] == "" && t[7..8] == " ";
  }

  lemma TwoObservation(t: string)
    requires t == "score 1 score 2"
    ensures ObservationOf(t) == ""
  {
    TwoRemoved(t);
    assert AllSpace(" ") by {
      assert IsSpace(" "[0]);
    }
  }

  /** Two matches: the score comes from the first, and one pass removes
      both, leaving only the space between them, which is stripped. */
  lemma TwoMatches()
    ensures Evaluate("score 1 score 2") == Evaluation(Some(1), "")
  {
    TwoScore("score 1 score 2");
    TwoObservation("score 1 score 2");
  }
}
