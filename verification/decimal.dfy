/** Decimal text of integers: Python's `str(n)`, `int(s)` on ASCII digits and
    the `{n:02d}` format. */
module Decimal {

  import opened Outcome

  predicate IsDigit(c: char) {
    '0' <= c <= '9'
  }

  predicate AllDigits(s: string) {
    forall i :: 0 <= i < |s| ==> IsDigit(s[i])
  }

  function DigitChar(d: nat): (c: char)
    requires d < 10
    ensures IsDigit(c) && c as int - '0' as int == d
  {
    ('0' as int + d) as char
  }

  /** `str(n)` for a non-negative `n`: no sign and no leading zero. */
  function Show(n: nat): (s: string)
    ensures |s| >= 1 && AllDigits(s)
    ensures s[0] == '0' ==> n == 0 && |s| == 1
  {
    if n < 10 then [DigitChar(n)] else Show(n / 10) + [DigitChar(n % 10)]
  }

  /** `str(i)` for any integer. */
  function ShowInt(i: int): string {
    if i < 0 then "-" + Show(-i) else Show(i)
  }

  /** `f"{n:02d}"`: zero-padded to two characters. */
  function Pad2(n: nat): string {
    if n < 10 then "0" + Show(n) else Show(n)
  }

  /** `int(s)` for a string of ASCII digits; leading zeros are allowed. */
  function Value(s: string): nat
    requires AllDigits(s)
  {
    if |s| == 0 then 0
    else 10 * Value(s[..|s| - 1]) + (s[|s| - 1] as int - '0' as int)
  }

  function Pow10(k: nat): nat {
    if k == 0 then 1 else 10 * Pow10(k - 1)
  }

  /** A string of `k` digits denotes a number below 10^k. */
  lemma {:induction false} ValueBound(s: string)
    requires AllDigits(s)
    ensures Value(s) < Pow10(|s|)
  {
    if |s| > 0 {
      ValueBound(s[..|s| - 1]);
    }
  }

  /** Reading back the decimal text of `n` gives `n`. */
  lemma {:induction false} ValueShow(n: nat)
    ensures Value(Show(n)) == n
  {
    if n >= 10 {
      ValueShow(n / 10);
      var s := Show(n);
      assert s[..|s| - 1] == Show(n / 10);
    }
  }

  lemma PadValue(n: nat)
    requires n < 100
    ensures |Pad2(n)| == 2 && AllDigits(Pad2(n)) && Value(Pad2(n)) == n
  {
    ValueShow(n);
    if n < 10 {
      assert Pad2(n)[..1] == "0";
    } else {
      ValueShow(n / 10);
    }
  }

  /** The longest prefix of `s` made of digits. */
  function LeadingDigits(s: string): (d: string)
    ensures |d| <= |s| && d == s[..|d|] && AllDigits(d)
    ensures |d| == |s| || !IsDigit(s[|d|])
  {
    if |s| == 0 || !IsDigit(s[0]) then ""
    else
      var rest := LeadingDigits(s[1..]);
      assert [s[0]] + rest == s[..|rest| + 1];
      [s[0]] + rest
  }

  /** Decimal text followed by a non-digit is recovered whole. */
  lemma LeadingDigitsOfShow(n: nat, rest: string)
    requires rest == [] || !IsDigit(rest[0])
    ensures LeadingDigits(Show(n) + rest) == Show(n)
  {
    var s := Show(n) + rest;
    var d := LeadingDigits(s);
    var k := |Show(n)|;
    assert forall i :: 0 <= i < k ==> s[i] == Show(n)[i] && IsDigit(s[i]);
    assert rest != [] ==> s[k] == rest[0];
    assert |d| >= k;
    assert |d| <= k by {
      assert forall i :: 0 <= i < |d| ==> d[i] == s[i];
    }
  }

  /** `int(s)` for an optionally signed string of digits. */
  function ParseInt(s: string): Option<int> {
    if |s| >= 2 && s[0] == '-' && AllDigits(s[1..]) then Some(-(Value(s[1..]) as int))
    else if |s| >= 1 && AllDigits(s) then Some(Value(s))
    else None
  }

  lemma ParseShowNat(n: nat)
    ensures ParseInt(Show(n)) == Some(n)
  {
    ValueShow(n);
    assert Show(n)[0] != '-';
  }

  lemma ParseShowNegative(n: nat)
    requires n > 0
    ensures ParseInt("-" + Show(n)) == Some(-(n as int))
  {
    ValueShow(n);
    var s := "-" + Show(n);
    assert s[1..] == Show(n);
  }

  /** The decimal text of an integer reads back as that integer. */
  lemma ParseShowInt(i: int)
    ensures ParseInt(ShowInt(i)) == Some(i)
  {
    if i < 0 {
      ParseShowNegative(-i);
    } else {
      ParseShowNat(i);
    }
  }
}
