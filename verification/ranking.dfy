/** Word frequencies and the top-N ranking of `Counter(words).most_common(n)`:
    highest count first, equal counts in the order the words were first met. */
module Ranking {

  datatype WordCount = WordCount(word: string, count: nat)

  /** How many times `w` occurs in `ws`. */
  function Occurrences(ws: seq<string>, w: string): nat {
    if |ws| == 0 then 0
    else (if ws[0] == w then 1 else 0) + Occurrences(ws[1..], w)
  }

  /** The position where `w` is first met in `ws` (|ws| when it is absent). */
  function FirstIndex(ws: seq<string>, w: string): (k: nat)
    ensures k <= |ws|
    ensures w in ws ==> k < |ws| && ws[k] == w
    ensures forall j :: 0 <= j < k ==> ws[j] != w
  {
    if |ws| == 0 then 0
    else if ws[0] == w then 0
    else 1 + FirstIndex(ws[1..], w)
  }

  /** `a` ranks ahead of `b`: more occurrences, or as many and met earlier. */
  predicate Before(ws: seq<string>, a: string, b: string) {
    || Occurrences(ws, a) > Occurrences(ws, b)
    || (Occurrences(ws, a) == Occurrences(ws, b) && FirstIndex(ws, a) < FirstIndex(ws, b))
  }

  /** Any two different words of `ws` are ranked one way or the other. */
  lemma BeforeTotal(ws: seq<string>, a: string, b: string)
    requires a in ws && b in ws && a != b
    ensures Before(ws, a, b) || Before(ws, b, a)
  {
    assert FirstIndex(ws, a) != FirstIndex(ws, b);
  }

  predicate NoRepeats(xs: seq<string>) {
    forall i, j :: 0 <= i < j < |xs| ==> xs[i] != xs[j]
  }

  /** The distinct words of `ws`, in the order they are first met. */
  function Distinct(ws: seq<string>): (d: seq<string>)
    ensures NoRepeats(d)
    ensures forall x :: x in d <==> x in ws
  {
    if |ws| == 0 then []
    else
      var rest := Distinct(ws[..|ws| - 1]);
      var x := ws[|ws| - 1];
      assert ws == ws[..|ws| - 1] + [x];
      if x in rest then rest else rest + [x]
  }

  /** The position of the candidate that ranks ahead of all the others. */
  function BestIndex(ws: seq<string>, cands: seq<string>): (b: nat)
    requires |cands| > 0 && NoRepeats(cands)
    requires forall i :: 0 <= i < |cands| ==> cands[i] in ws
    ensures b < |cands|
    ensures forall j :: 0 <= j < |cands| && j != b ==> Before(ws, cands[b], cands[j])
  {
    if |cands| == 1 then 0
    else
      var b := BestIndex(ws, cands[1..]) + 1;
      assert forall j :: 1 <= j < |cands| && j != b ==> Before(ws, cands[b], cands[j]) by {
        forall j | 1 <= j < |cands| && j != b
          ensures Before(ws, cands[b], cands[j])
        {
          assert cands[1..][j - 1] == cands[j];
        }
      }
      if Before(ws, cands[0], cands[b]) then 0
      else
        BeforeTotal(ws, cands[0], cands[b]);
        b
  }

  lemma RemoveAt(cands: seq<string>, b: nat)
    requires b < |cands| && NoRepeats(cands)
    ensures var rest := cands[..b] + cands[b + 1..];
            && |rest| == |cands| - 1
            && NoRepeats(rest)
            && forall x :: x in rest <==> x in cands && x != cands[b]
  {
    var rest := cands[..b] + cands[b + 1..];
    assert forall i :: 0 <= i < |rest| ==> rest[i] == if i < b then cands[i] else cands[i + 1];
    forall x | x in cands && x != cands[b]
      ensures x in rest
    {
      var i :| 0 <= i < |cands| && cands[i] == x;
      if i < b {
        assert rest[i] == x;
      } else {
        assert rest[i - 1] == x;
      }
    }
  }

  /** The first `k` candidates in ranking order, by repeatedly taking the
      best remaining one. */
  function TopK(ws: seq<string>, cands: seq<string>, k: nat): (r: seq<string>)
    requires NoRepeats(cands)
    requires forall i :: 0 <= i < |cands| ==> cands[i] in ws
    ensures |r| == if k < |cands| then k else |cands|
    ensures forall i :: 0 <= i < |r| ==> r[i] in cands
    ensures forall i, j :: 0 <= i < j < |r| ==> Before(ws, r[i], r[j])
    ensures forall x, i :: x in cands && x !in r && 0 <= i < |r| ==> Before(ws, r[i], x)
    ensures k >= |cands| ==> forall x :: x in cands ==> x in r
    decreases k
  {
    if k == 0 || |cands| == 0 then []
    else
      var b := BestIndex(ws, cands);
      var best := cands[b];
      var rest := cands[..b] + cands[b + 1..];
      RemoveAt(cands, b);
      assert forall x :: x in rest ==> Before(ws, best, x) by {
        forall x | x in rest
          ensures Before(ws, best, x)
        {
          var j :| 0 <= j < |cands| && cands[j] == x;
        }
      }
      var tail := TopK(ws, rest, k - 1);
      [best] + tail
  }

  /** The word counts of `top` are a correct `most_common(n)` answer for `ws`:
      at most `n` distinct words of `ws` with their true counts, strictly in
      ranking order, and every word left out ranks behind all listed ones
      (which can only happen when `n` words are listed). */
  predicate IsMostCommon(ws: seq<string>, top: seq<WordCount>, n: nat) {
    && |top| <= n
    && (forall i :: 0 <= i < |top| ==>
          top[i].word in ws && top[i].count == Occurrences(ws, top[i].word))
    && (forall i, j :: 0 <= i < j < |top| ==> Before(ws, top[i].word, top[j].word))
    && (forall w :: w in ws && w !in WordsOf(top) ==>
          |top| == n && forall i :: 0 <= i < |top| ==> Before(ws, top[i].word, w))
  }

  function WordsOf(top: seq<WordCount>): seq<string> {
    seq(|top|, i requires 0 <= i < |top| => top[i].word)
  }

  /** `Counter(ws).most_common(n)`. */
  function MostCommon(ws: seq<string>, n: nat): (top: seq<WordCount>)
    ensures IsMostCommon(ws, top, n)
  {
    var d := Distinct(ws);
    var t := TopK(ws, d, n);
    var top := seq(|t|, i requires 0 <= i < |t| => WordCount(t[i], Occurrences(ws, t[i])));
    assert WordsOf(top) == t;
    assert forall w :: w in ws && w !in t ==> |t| == n by {
      forall w | w in ws && w !in t
        ensures |t| == n
      {
        assert w in d;
      }
    }
    top
  }

  /** In a ranking, counts never increase, and equal counts keep the order in
      which the words were first met. */
  lemma MostCommonOrder(ws: seq<string>, top: seq<WordCount>, n: nat, i: nat, j: nat)
    requires IsMostCommon(ws, top, n)
    requires i < j < |top|
    ensures top[i].count >= top[j].count
    ensures top[i].count == top[j].count ==> FirstIndex(ws, top[i].word) < FirstIndex(ws, top[j].word)
  {
  }
}
