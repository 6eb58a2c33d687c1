/** Extraction of the relevance score and the observation from the free text
    returned by the external judge. The one regular expression used,
    `score(?:[:\s]*| is | of )(\d{1,3})` with case folding, is written out
    as a hand-made left-to-right matcher. */
module Relevance {

  import opened Outcome
  import opened Text
  import opened Decimal

  /** Lower-cases ASCII letters and leaves every other character alone. */
  function Lower(c: char): char {
    if 'A' <= c <= 'Z' then (c as int + 32) as char else c
  }

  /** The lower-case literal `w` at `i`, the text's letters compared in
      lower case. */
  predicate LiteralAt(t: string, i: nat, w: string)
    decreases |w|
  {
    |w| == 0 || (i < |t| && Lower(t[i]) == w[0] && LiteralAt(t, i + 1, w[1..]))
  }

  /** The literal read character by character. */
  lemma {:induction false} LiteralAtChars(t: string, i: nat, w: string)
    requires i <= |t|
    ensures LiteralAt(t, i, w) <==>
              i + |w| <= |t| && forall k :: 0 <= k < |w| ==> Lower(t[i + k]) == w[k]
    decreases |w|
  {
    if |w| > 0 && i < |t| {
      LiteralAtChars(t, i + 1, w[1..]);
      if LiteralAt(t, i, w) {
        forall k | 0 <= k < |w|
          ensures Lower(t[i + k]) == w[k]
        {
          if k > 0 {
            assert Lower(t[i + 1 + (k - 1)]) == w[1..][k - 1];
          }
        }
      }
      if i + |w| <= |t| && forall k :: 0 <= k < |w| ==> Lower(t[i + k]) == w[k] {
        assert Lower(t[i + 0]) == w[0];
        forall k | 0 <= k < |w| - 1
          ensures Lower(t[i + 1 + k]) == w[1..][k]
        {
          assert Lower(t[i + (k + 1)]) == w[k + 1];
        }
      }
    }
  }

  /** The word `score` at `i`, letters in any case. */
  predicate ScoreWordAt(t: string, i: nat) {
    i + 5 <= |t| && LiteralAt(t, i, "score")
  }

  /** ` is ` or ` of ` at `j`, letters in any case, the spaces literal. */
  predicate LinkWordAt(t: string, j: nat) {
    j + 4 <= |t| && (LiteralAt(t, j, " is ") || LiteralAt(t, j, " of "))
  }

  /** The class `[:\s]`. */
  predicate IsSeparator(c: char) {
    c == ':' || IsSpace(c)
  }

  /** The pattern read as a plain description: the word `score` at `i`, then
      a possibly empty run of separators, ` is ` or ` of `, then a digit at
      `k`. */
  predicate PatternAt(t: string, i: nat, k: nat) {
    && ScoreWordAt(t, i)
    && i + 5 <= k < |t|
    && IsDigit(t[k])
    && (|| (forall m :: i + 5 <= m < k ==> IsSeparator(t[m]))
        || (k == i + 9 && LinkWordAt(t, i + 5)))
  }

  /** Where the greedy run of separators starting at `j` ends. */
  function SeparatorRunEnd(t: string, j: nat): (e: nat)
    requires j <= |t|
    ensures j <= e <= |t|
    ensures e == |t| || !IsSeparator(t[e])
    decreases |t| - j
  {
    if j < |t| && IsSeparator(t[j]) then SeparatorRunEnd(t, j + 1) else j
  }

  /** Everything the greedy run passes over is a separator. */
  lemma {:induction false} SeparatorRun(t: string, j: nat)
    requires j <= |t|
    ensures forall m :: j <= m < SeparatorRunEnd(t, j) ==> IsSeparator(t[m])
    decreases |t| - j
  {
    if j < |t| && IsSeparator(t[j]) {
      SeparatorRun(t, j + 1);
    }
  }

  /** Where the greedy run of one to three digits starting at `k` ends. */
  function DigitRunEnd(t: string, k: nat): (e: nat)
    requires k < |t| && IsDigit(t[k])
    ensures k < e <= k + 3 && e <= |t|
    ensures (k + 1 < e ==> IsDigit(t[k + 1])) && (k + 2 < e ==> IsDigit(t[k + 2]))
    ensures e == k + 3 || e == |t| || !IsDigit(t[e])
  {
    if k + 1 < |t| && IsDigit(t[k + 1]) then
      if k + 2 < |t| && IsDigit(t[k + 2]) then k + 3 else k + 2
    else k + 1
  }

  /** A match: where it starts, where its digits start, where it ends. */
  datatype Match = Match(start: nat, digits: nat, end: nat)

  /** The pattern tried at position `i`, alternatives in order. */
  function MatchAt(t: string, i: nat): (m: Option<Match>)
    ensures m.Some? ==> && m.value.start == i
                        && i + 5 <= m.value.digits < m.value.end <= |t|
                        && IsDigit(t[m.value.digits])
                        && m.value.end == DigitRunEnd(t, m.value.digits)
  {
    if !ScoreWordAt(t, i) then None
    else
      var e := SeparatorRunEnd(t, i + 5);
      if e < |t| && IsDigit(t[e]) then Some(Match(i, e, DigitRunEnd(t, e)))
      else if LinkWordAt(t, i + 5) && i + 9 < |t| && IsDigit(t[i + 9]) then
        Some(Match(i, i + 9, DigitRunEnd(t, i + 9)))
      else
        None
  }

  /** Every match the matcher reports fits the plain description, and where
      it reports none there is none: the matcher and the pattern agree. */
  lemma MatchAtAgrees(t: string, i: nat)
    ensures MatchAt(t, i).Some? ==> PatternAt(t, i, MatchAt(t, i).value.digits)
    ensures MatchAt(t, i).None? <==> forall k :: !PatternAt(t, i, k)
  {
    if ScoreWordAt(t, i) {
      var e := SeparatorRunEnd(t, i + 5);
      SeparatorRun(t, i + 5);
      if e < |t| && IsDigit(t[e]) {
        assert PatternAt(t, i, e);
      } else if LinkWordAt(t, i + 5) && i + 9 < |t| && IsDigit(t[i + 9]) {
        assert PatternAt(t, i, i + 9);
      } else {
        NoMatchAt(t, i, e);
      }
    }
  }

  lemma NoMatchAt(t: string, i: nat, e: nat)
    requires ScoreWordAt(t, i)
    requires e == SeparatorRunEnd(t, i + 5)
    requires !(e < |t| && IsDigit(t[e]))
    requires !(LinkWordAt(t, i + 5) && i + 9 < |t| && IsDigit(t[i + 9]))
    ensures forall k :: !PatternAt(t, i, k)
  {
    SeparatorRun(t, i + 5);
    forall k | i + 5 <= k < |t| && IsDigit(t[k])
      ensures !(forall m :: i + 5 <= m < k ==> IsSeparator(t[m]))
    {
      if e < k {
        assert !IsSeparator(t[e]);
      }
    }
  }

  /** `re.search`: the position of the leftmost match at or after `from`. */
  function Search(t: string, from: nat): (found: Option<nat>)
    ensures found.Some? ==> from <= found.value < |t| && MatchAt(t, found.value).Some?
    decreases |t| - from
  {
    if from >= |t| then None
    else if MatchAt(t, from).Some? then Some(from)
    else Search(t, from + 1)
  }

  /** The position found is the leftmost match start, and an empty search
      means there is none at all. */
  lemma {:induction false} SearchLeftmost(t: string, from: nat)
    ensures Search(t, from).Some? ==> forall i :: from <= i < Search(t, from).value ==> MatchAt(t, i).None?
    ensures Search(t, from).None? ==> forall i :: from <= i < |t| ==> MatchAt(t, i).None?
    decreases |t| - from
  {
    if from < |t| && MatchAt(t, from).None? {
      SearchLeftmost(t, from + 1);
    }
  }

  /** The search stops at the first position where the matcher succeeds. */
  lemma {:induction false} SearchFinds(t: string, from: nat, i: nat)
    requires from <= i < |t| && MatchAt(t, i).Some?
    requires forall j :: from <= j < i ==> MatchAt(t, j).None?
    ensures Search(t, from) == Some(i)
    decreases i - from
  {
    if from < i {
      assert MatchAt(t, from).None?;
      SearchFinds(t, from + 1, i);
    }
  }

  /** With no match start left, the search comes back empty. */
  lemma {:induction false} SearchMisses(t: string, from: nat)
    requires forall j :: from <= j < |t| ==> MatchAt(t, j).None?
    ensures Search(t, from).None?
    decreases |t| - from
  {
    if from < |t| {
      assert MatchAt(t, from).None?;
      SearchMisses(t, from + 1);
    }
  }

  /** `re.sub(pattern, "", t[p..])`: one left-to-right pass that drops every
      match and keeps every other character. */
  function Remove(t: string, p: nat): (r: string)
    ensures p <= |t| ==> |r| <= |t| - p
    ensures forall c :: c in r ==> c in t
    decreases |t| - p
  {
    if p >= |t| then ""
    else
      match MatchAt(t, p)
      case Some(m) => Remove(t, m.end)
      case None => [t[p]] + Remove(t, p + 1)
  }

  /** Where nothing matches, nothing is removed. */
  lemma {:induction false} RemoveNoMatch(t: string, p: nat)
    requires forall i :: p <= i < |t| ==> MatchAt(t, i).None?
    ensures Remove(t, p) == if p <= |t| then t[p..] else ""
    decreases |t| - p
  {
    if p < |t| {
      RemoveNoMatch(t, p + 1);
      assert t[p..] == [t[p]] + t[p + 1..];
    }
  }

  lemma RemoveStep(t: string, p: nat)
    requires p < |t|
    ensures MatchAt(t, p).Some? ==> Remove(t, p) == Remove(t, MatchAt(t, p).value.end)
    ensures MatchAt(t, p).None? ==> Remove(t, p) == [t[p]] + Remove(t, p + 1)
  {
  }

  /** The pass keeps the text before the leftmost match, drops the match, and
      carries on after it. */
  lemma ConsAppend(c: char, a: string, b: string)
    ensures [c] + (a + b) == ([c] + a) + b
  {
  }

  /** Text holding no match start is copied through unchanged. */
  lemma {:induction false} RemoveUpTo(t: string, p: nat, i: nat)
    requires p <= i <= |t|
    requires forall j :: p <= j < i ==> MatchAt(t, j).None?
    ensures Remove(t, p) == t[p..i] + Remove(t, i)
    decreases i - p
  {
    if p == i {
      assert t[p..i] == [];
    } else {
      var rest := Remove(t, i);
      assert MatchAt(t, p).None?;
      RemoveStep(t, p);
      RemoveUpTo(t, p + 1, i);
      calc {
        Remove(t, p);
        [t[p]] + Remove(t, p + 1);
        [t[p]] + (t[p + 1..i] + rest);
        { ConsAppend(t[p], t[p + 1..i], rest); }
        ([t[p]] + t[p + 1..i]) + rest;
        { assert [t[p]] + t[p + 1..i] == t[p..i]; }
        t[p..i] + rest;
      }
    }
  }

  lemma RemoveLeftmost(t: string, p: nat, i: nat)
    requires p <= i < |t| && MatchAt(t, i).Some?
    requires forall j :: p <= j < i ==> MatchAt(t, j).None?
    ensures Remove(t, p) == t[p..i] + Remove(t, MatchAt(t, i).value.end)
  {
    RemoveUpTo(t, p, i);
    RemoveStep(t, i);
  }

  /** No reported match before `upto` means no pattern occurrence before it. */
  lemma NoPatternBefore(t: string, upto: nat)
    requires forall i :: 0 <= i < upto && i < |t| ==> MatchAt(t, i).None?
    ensures forall i: nat, k: nat :: i < upto ==> !PatternAt(t, i, k)
  {
    forall i: nat, k: nat | i < upto
      ensures !PatternAt(t, i, k)
    {
      if i < |t| {
        MatchAtAgrees(t, i);
      }
    }
  }

  /** What is returned: the score, if any, and the observation text. */
  datatype Evaluation = Evaluation(score: Option<nat>, observation: string)

  /** The digits of a run read as a number of at most three digits. */
  lemma RunDigits(t: string, k: nat)
    requires k < |t| && IsDigit(t[k])
    ensures AllDigits(t[k..DigitRunEnd(t, k)]) && Value(t[k..DigitRunEnd(t, k)]) <= 999
  {
    var digits := t[k..DigitRunEnd(t, k)];
    assert forall j :: 0 <= j < |digits| ==> digits[j] == t[k + j];
    ValueBound(digits);
    assert Pow10(|digits|) <= 1000 by {
      assert Pow10(1) == 10 && Pow10(2) == 100 && Pow10(3) == 1000;
    }
  }

  /** The number written by the run of one to three digits at `k`: `int`
      of the captured group. */
  function RunValue(t: string, k: nat): (v: nat)
    requires k < |t| && IsDigit(t[k])
    ensures v <= 999
  {
    RunDigits(t, k);
    Value(t[k..DigitRunEnd(t, k)])
  }

  /** The score: the number of the leftmost match, if there is one. */
  function ScoreOf(text: string): (score: Option<nat>)
    ensures score.Some? ==> score.value <= 999
  {
    match Search(text, 0)
    case None => None
    case Some(i) => Some(RunValue(text, MatchAt(text, i).value.digits))
  }

  /** The observation: every match removed, then the ends stripped. */
  function ObservationOf(text: string): (observation: string)
    ensures Trimmed(observation)
  {
    Strip(Remove(text, 0))
  }

  /** `extract_score_and_observation`. */
  function Evaluate(text: string): (r: Evaluation)
    ensures r.score.Some? ==> r.score.value <= 999
    ensures Trimmed(r.observation)
  {
    Evaluation(ScoreOf(text), ObservationOf(text))
  }

  /** A score is found exactly when the pattern occurs, and it is read from
      the digits of the leftmost occurrence; with no score the observation is
      the whole text, stripped. */
  lemma EvaluateAgrees(text: string)
    ensures Evaluate(text).score.None? <==> forall i: nat, k: nat :: !PatternAt(text, i, k)
    ensures Evaluate(text).score.Some? ==>
              exists i: nat, k: nat ::
                && PatternAt(text, i, k)
                && (forall j: nat, k': nat :: j < i ==> !PatternAt(text, j, k'))
                && Evaluate(text).score.value == RunValue(text, k)
    ensures Evaluate(text).score.None? ==> Evaluate(text).observation == Strip(text)
  {
    SearchLeftmost(text, 0);
    match Search(text, 0)
    case None =>
      RemoveNoMatch(text, 0);
      NoPatternBefore(text, |text|);
    case Some(i) =>
      var m := MatchAt(text, i).value;
      MatchAtAgrees(text, i);
      NoPatternBefore(text, i);
      assert PatternAt(text, i, m.digits);
  }

  /** The score is the number of the leftmost match, wherever later ones are. */
  lemma ScoreOfLeftmost(t: string, m: Match)
    requires MatchAt(t, m.start) == Some(m)
    requires forall j :: 0 <= j < m.start ==> MatchAt(t, j).None?
    ensures ScoreOf(t) == Some(RunValue(t, m.digits))
  {
    SearchFinds(t, 0, m.start);
  }

  /** With a single match, the observation is the text on both sides of it,
      joined and stripped. */
  lemma ObservationOfSingle(t: string, m: Match)
    requires MatchAt(t, m.start) == Some(m)
    requires forall j :: 0 <= j < m.start ==> MatchAt(t, j).None?
    requires forall j :: m.end <= j < |t| ==> MatchAt(t, j).None?
    ensures ObservationOf(t) == Strip(t[..m.start] + t[m.end..])
  {
    RemoveLeftmost(t, 0, m.start);
    RemoveNoMatch(t, m.end);
  }

  /** With no match anywhere there is no score and the text is only stripped. */
  lemma Unmatched(t: string)
    requires forall j :: 0 <= j < |t| ==> MatchAt(t, j).None?
    ensures Evaluate(t) == Evaluation(None, Strip(t))
  {
    SearchMisses(t, 0);
    RemoveNoMatch(t, 0);
  }
}
