/** Decimal notation: how JavaScript prints a natural number, and reading digits back. */
module Decimal {
  import opened Text

  function DigitChar(d: nat): (c: char)
    requires d < 10
    ensures IsDigit(c) && DigitValue(c) == d
  {
    (d + 48) as char
  }

  function DigitValue(c: char): nat
    requires IsDigit(c)
  {
    c as int - 48
  }

  predicate AllDigits(s: string) {
    forall k :: 0 <= k < |s| ==> IsDigit(s[k])
  }

  function Dec(n: nat): (s: string)
    ensures s != "" && AllDigits(s)
  {
    if n < 10 then [DigitChar(n)] else Dec(n / 10) + [DigitChar(n % 10)]
  }

  function Value(s: string): nat
    requires AllDigits(s)
  {
    if s == "" then 0 else Value(s[..|s| - 1]) * 10 + DigitValue(s[|s| - 1])
  }

  /** No superfluous leading zero. */
  predicate Canonical(s: string) {
    s != "" && AllDigits(s) && (|s| > 1 ==> s[0] != '0')
  }

  lemma {:induction false} DecValue(n: nat)
    ensures Value(Dec(n)) == n
    ensures Canonical(Dec(n))
    ensures n > 0 ==> Dec(n)[0] != '0'
  {
    if n >= 10 {
      DecValue(n / 10);
      assert Dec(n)[..|Dec(n)| - 1] == Dec(n / 10);
    }
  }

  lemma {:induction false} ValueDec(s: string)
    requires Canonical(s)
    ensures Dec(Value(s)) == s
    ensures s[0] != '0' ==> Value(s) > 0
  {
    var before, c := s[..|s| - 1], s[|s| - 1];
    DigitRoundTrip(c);
    assert s == before + [c];
    if before == "" {
      assert Value(before) == 0;
    } else {
      assert before[0] == s[0];
      ValueDec(before);
      DecPush(Value(before), DigitValue(c));
    }
  }

  lemma DigitRoundTrip(c: char)
    requires IsDigit(c)
    ensures DigitChar(DigitValue(c)) == c
  {
  }

  lemma DecPush(a: nat, d: nat)
    requires a > 0 && d < 10
    ensures Dec(a * 10 + d) == Dec(a) + [DigitChar(d)]
  {
    TenTimes(a, d);
  }

  lemma TenTimes(a: nat, d: nat)
    requires d < 10
    ensures (a * 10 + d) / 10 == a && (a * 10 + d) % 10 == d
  {
  }

  /** The last `width` digits of `n`, zeros in front. */
  function Pad(width: nat, n: nat): (s: string)
    ensures |s| == width && AllDigits(s)
  {
    if width == 0 then "" else Pad(width - 1, n / 10) + [DigitChar(n % 10)]
  }

  lemma PadPush(width: nat, a: nat, d: nat)
    requires d < 10
    ensures Pad(width + 1, a * 10 + d) == Pad(width, a) + [DigitChar(d)]
  {
    TenTimes(a, d);
  }
}
