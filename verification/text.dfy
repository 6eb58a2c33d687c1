/** Python's string primitives used by the pipeline: whitespace, `str.strip()`,
    `str.split(sep)`, `sep.join(...)` and the separator-less `str.split()`. */
module Text {

  /** `str.isspace()` on one character. `str.strip()`, `str.split()` and the
      regular-expression class `\s` all use this same set. */
  predicate IsSpace(c: char) {
    var n := c as int;
    (9 <= n <= 13) || (28 <= n <= 32) || n == 0x85 || n == 0xA0 || n == 0x1680
    || (0x2000 <= n <= 0x200A) || n == 0x2028 || n == 0x2029 || n == 0x202F
    || n == 0x205F || n == 0x3000
  }

  predicate AllSpace(s: string) {
    forall i :: 0 <= i < |s| ==> IsSpace(s[i])
  }

  predicate NoSpace(s: string) {
    forall i :: 0 <= i < |s| ==> !IsSpace(s[i])
  }

  /** True when `s` neither starts nor ends with whitespace. */
  predicate Trimmed(s: string) {
    s == [] || (!IsSpace(s[0]) && !IsSpace(s[|s| - 1]))
  }

  /** Where the whitespace run starting at `i` ends. */
  function SpaceRunEnd(s: string, i: nat): (e: nat)
    requires i <= |s|
    ensures i <= e <= |s|
    ensures forall m :: i <= m < e ==> IsSpace(s[m])
    ensures e == |s| || !IsSpace(s[e])
    decreases |s| - i
  {
    if i < |s| && IsSpace(s[i]) then SpaceRunEnd(s, i + 1) else i
  }

  /** Where the whitespace run ending just before `j` starts. */
  function SpaceRunStart(s: string, j: nat): (b: nat)
    requires j <= |s|
    ensures b <= j
    ensures forall m :: b <= m < j ==> IsSpace(s[m])
    ensures b == 0 || !IsSpace(s[b - 1])
  {
    if j > 0 && IsSpace(s[j - 1]) then SpaceRunStart(s, j - 1) else j
  }

  /** The run end is the first non-space position from `i` on. */
  lemma SpaceRunEndAt(s: string, i: nat, k: nat)
    requires i <= k <= |s|
    requires forall m :: i <= m < k ==> IsSpace(s[m])
    requires k == |s| || !IsSpace(s[k])
    ensures SpaceRunEnd(s, i) == k
  {
  }

  /** The run start is just after the last non-space position before `j`. */
  lemma SpaceRunStartAt(s: string, j: nat, k: nat)
    requires k <= j <= |s|
    requires forall m :: k <= m < j ==> IsSpace(s[m])
    requires k == 0 || !IsSpace(s[k - 1])
    ensures SpaceRunStart(s, j) == k
  {
  }

  /** Where the text kept by `strip` starts. */
  function StripStart(s: string): nat
    ensures StripStart(s) <= |s|
  {
    SpaceRunEnd(s, 0)
  }

  /** Where the text kept by `strip` ends. */
  function StripEnd(s: string): (b: nat)
    ensures StripStart(s) <= b <= |s|
  {
    var a := SpaceRunEnd(s, 0);
    if a == |s| then a
    else
      var b := SpaceRunStart(s, |s|);
      assert !IsSpace(s[a]);
      b
  }

  /** `s.strip()`: the slice of `s` left once the whitespace runs at both
      ends are cut off. */
  function Strip(s: string): (r: string)
    ensures Trimmed(r)
    ensures r == s[StripStart(s)..StripEnd(s)]
    ensures AllSpace(s[..StripStart(s)]) && AllSpace(s[StripEnd(s)..])
    ensures r == [] <==> AllSpace(s)
  {
    var a, b := StripStart(s), StripEnd(s);
    assert forall m :: 0 <= m < a ==> s[..a][m] == s[m];
    assert forall m :: 0 <= m < |s| - b ==> s[b..][m] == s[b + m];
    assert a < b ==> !IsSpace(s[a]) && !IsSpace(s[b - 1]);
    assert a == b ==> AllSpace(s);
    s[a..b]
  }

  /** Stripping removes exactly the whitespace padding around a trimmed,
      non-empty text. */
  lemma StripPadded(a: string, x: string, b: string)
    requires AllSpace(a) && AllSpace(b) && x != [] && Trimmed(x)
    ensures Strip(a + x + b) == x
  {
    var t := a + x + b;
    var i, j := |a|, |a| + |x|;
    assert forall m :: 0 <= m < i ==> t[m] == a[m];
    assert forall m :: j <= m < |t| ==> t[m] == b[m - j];
    assert t[i] == x[0] && t[j - 1] == x[|x| - 1];
    SpaceRunEndAt(t, 0, i);
    SpaceRunStartAt(t, |t|, j);
    assert t[i..j] == x;
  }

  /** `s.split(sep)` for a one-character separator: the pieces between the
      separators, always at least one. */
  function Split(s: string, sep: char): (pieces: seq<string>)
    ensures |pieces| >= 1
    ensures forall i :: 0 <= i < |pieces| ==> sep !in pieces[i]
  {
    if |s| == 0 then [""]
    else
      var rest := Split(s[1..], sep);
      if s[0] == sep then [""] + rest
      else [[s[0]] + rest[0]] + rest[1..]
  }

  /** `sep.join(xs)` for a one-character separator. */
  function Join(xs: seq<string>, sep: char): string {
    if |xs| == 0 then ""
    else if |xs| == 1 then xs[0]
    else xs[0] + [sep] + Join(xs[1..], sep)
  }

  /** Joining the pieces of a split gives back the original string. */
  lemma {:induction false} JoinSplit(s: string, sep: char)
    ensures Join(Split(s, sep), sep) == s
  {
    if |s| > 0 {
      var rest := Split(s[1..], sep);
      JoinSplit(s[1..], sep);
      if s[0] == sep {
        assert ([""] + rest)[1..] == rest;
      } else {
        var p := [[s[0]] + rest[0]] + rest[1..];
        if |rest| == 1 {
          assert Join(p, sep) == [s[0]] + rest[0];
        } else {
          assert p[1..] == rest[1..];
          assert Join(rest, sep) == rest[0] + [sep] + Join(rest[1..], sep);
        }
        assert s == [s[0]] + s[1..];
      }
    }
  }

  lemma {:induction false} SplitPrefix(a: string, t: string, sep: char)
    requires sep !in a
    ensures Split(a + t, sep) == [a + Split(t, sep)[0]] + Split(t, sep)[1..]
  {
    if |a| > 0 {
      SplitPrefix(a[1..], t, sep);
      var p := Split(t, sep);
      var rest := Split(a[1..] + t, sep);
      assert (a + t)[1..] == a[1..] + t;
      assert (a + t)[0] == a[0] && a[0] != sep;
      assert Split(a + t, sep) == [[a[0]] + rest[0]] + rest[1..];
      assert rest[0] == a[1..] + p[0] && rest[1..] == p[1..];
      assert [a[0]] + (a[1..] + p[0]) == a + p[0];
    } else {
      var p := Split(t, sep);
      assert a + t == t && a + p[0] == p[0];
      assert p == [p[0]] + p[1..];
    }
  }

  /** Splitting a join recovers the parts, provided none of them contains
      the separator. */
  lemma {:induction false} SplitJoin(xs: seq<string>, sep: char)
    requires |xs| >= 1
    requires forall i :: 0 <= i < |xs| ==> sep !in xs[i]
    ensures Split(Join(xs, sep), sep) == xs
  {
    if |xs| == 1 {
      SplitPrefix(xs[0], "", sep);
      assert xs[0] + "" == xs[0];
      assert Split("", sep) == [""];
      assert Split(xs[0], sep) == [xs[0] + ""] + [];
    } else {
      var tail := Join(xs[1..], sep);
      SplitJoin(xs[1..], sep);
      SplitPrefix(xs[0], [sep] + tail, sep);
      assert Join(xs, sep) == xs[0] + ([sep] + tail);
      assert ([sep] + tail)[1..] == tail;
      assert Split([sep] + tail, sep) == [""] + xs[1..];
      assert xs[0] + "" == xs[0];
      assert xs == [xs[0]] + xs[1..];
    }
  }

  /** Length of the longest whitespace-free prefix. */
  function NonSpaceSpan(s: string): (n: nat)
    ensures n <= |s| && NoSpace(s[..n])
    ensures n == |s| || IsSpace(s[n])
  {
    if |s| == 0 || IsSpace(s[0]) then 0
    else
      var m := NonSpaceSpan(s[1..]);
      assert s[..m + 1] == [s[0]] + s[1..][..m];
      m + 1
  }

  /** `s.split()`: the maximal runs of non-whitespace characters, in order. */
  function Words(s: string): (ws: seq<string>)
    ensures forall i :: 0 <= i < |ws| ==> ws[i] != [] && NoSpace(ws[i])
    decreases |s|
  {
    if |s| == 0 then []
    else if IsSpace(s[0]) then Words(s[1..])
    else
      var n := NonSpaceSpan(s);
      [s[..n]] + Words(s[n..])
  }

  /** The characters of `s` that are not whitespace, in order. */
  function Visible(s: string): string {
    if |s| == 0 then ""
    else if IsSpace(s[0]) then Visible(s[1..])
    else [s[0]] + Visible(s[1..])
  }

  function Concat(xs: seq<string>): string {
    if |xs| == 0 then "" else xs[0] + Concat(xs[1..])
  }

  lemma {:induction false} VisibleAppend(a: string, b: string)
    ensures Visible(a + b) == Visible(a) + Visible(b)
  {
    if |a| > 0 {
      VisibleAppend(a[1..], b);
      assert (a + b)[1..] == a[1..] + b;
    } else {
      assert a + b == b;
    }
  }

  lemma {:induction false} VisibleOfNoSpace(a: string)
    requires NoSpace(a)
    ensures Visible(a) == a
  {
    if |a| > 0 {
      VisibleOfNoSpace(a[1..]);
    }
  }

  /** The words hold exactly the non-whitespace characters of the string. */
  lemma {:induction false} WordsCoverVisible(s: string)
    ensures Concat(Words(s)) == Visible(s)
    decreases |s|
  {
    if |s| > 0 {
      if IsSpace(s[0]) {
        WordsCoverVisible(s[1..]);
      } else {
        var n := NonSpaceSpan(s);
        WordsCoverVisible(s[n..]);
        assert s == s[..n] + s[n..];
        VisibleAppend(s[..n], s[n..]);
        VisibleOfNoSpace(s[..n]);
        assert ([s[..n]] + Words(s[n..]))[1..] == Words(s[n..]);
      }
    }
  }

  lemma {:induction false} WordsSkipSpace(w: string, rest: string)
    requires NoSpace(w) && w != []
    ensures Words(w + [' '] + rest) == [w] + Words(rest)
  {
    var s := w + [' '] + rest;
    var n := NonSpaceSpan(s);
    assert s[|w|] == ' ';
    assert forall i :: 0 <= i < |w| ==> s[i] == w[i];
    assert n == |w|;
    assert s[..n] == w;
    assert s[n..] == [' '] + rest;
    assert ([' '] + rest)[1..] == rest;
  }

  /** Splitting words joined by single spaces gives the words back. */
  lemma {:induction false} WordsOfJoin(ws: seq<string>)
    requires forall i :: 0 <= i < |ws| ==> ws[i] != [] && NoSpace(ws[i])
    ensures Words(Join(ws, ' ')) == ws
  {
    if |ws| == 1 {
      var w := ws[0];
      var n := NonSpaceSpan(w);
      assert n == |w|;
      assert w[..n] == w && w[n..] == [];
    } else if |ws| > 1 {
      WordsOfJoin(ws[1..]);
      WordsSkipSpace(ws[0], Join(ws[1..], ' '));
      assert ws == [ws[0]] + ws[1..];
    }
  }

  /** The whitespace-free prefix ends at the first whitespace character. */
  lemma {:induction false} NonSpaceSpanAt(s: string, k: nat)
    requires k <= |s| && NoSpace(s[..k])
    requires k == |s| || IsSpace(s[k])
    ensures NonSpaceSpan(s) == k
  {
    if k > 0 {
      assert s[0] == s[..k][0];
      assert s[1..][..k - 1] == s[..k][1..];
      NonSpaceSpanAt(s[1..], k - 1);
    }
  }

  /** The first token of `a + [c] + b` is the first token of `a`. */
  lemma FirstTokenBeforeSpace(a: string, c: char, b: string)
    requires IsSpace(c) && |a| > 0 && !IsSpace(a[0])
    ensures NonSpaceSpan(a) > 0
    ensures Words(a + [c] + b) == [a[..NonSpaceSpan(a)]] + Words(a[NonSpaceSpan(a)..] + [c] + b)
  {
    var s := a + [c] + b;
    var m := NonSpaceSpan(a);
    assert s[..m] == a[..m];
    assert m == |a| ==> s[m] == c;
    assert m < |a| ==> s[m] == a[m];
    NonSpaceSpanAt(s, m);
    assert s[m..] == a[m..] + [c] + b;
  }

  /** Every whitespace character separates tokens: `split()` never glues the
      tokens on either side of one together, and never splits a token. */
  lemma {:induction false} WordsAtSpace(a: string, c: char, b: string)
    requires IsSpace(c)
    ensures Words(a + [c] + b) == Words(a) + Words(b)
    decreases |a|
  {
    if |a| == 0 {
      assert (a + [c] + b)[1..] == b;
    } else if IsSpace(a[0]) {
      assert (a + [c] + b)[1..] == a[1..] + [c] + b;
      WordsAtSpace(a[1..], c, b);
    } else {
      var m := NonSpaceSpan(a);
      FirstTokenBeforeSpace(a, c, b);
      WordsAtSpace(a[m..], c, b);
    }
  }
}
