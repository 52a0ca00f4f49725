/** Decimal text: the digits a number is written with, and the number digits read as. */
module Decimals {
  import TextOrder

  predicate IsDigit(c: char) { '0' <= c <= '9' }
  predicate Digits(s: string) { forall i | 0 <= i < |s| :: IsDigit(s[i]) }

  function DigitOf(n: int): (c: char)
    requires 0 <= n < 10
    ensures IsDigit(c) && ValueOf(c) == n
  {
    '0' + n as char
  }

  function ValueOf(c: char): (n: int)
    requires IsDigit(c)
    ensures 0 <= n < 10
  {
    c as int - '0' as int
  }

  /** The number a digit string reads as. */
  function Value(s: string): (n: nat)
    requires Digits(s)
  {
    if s == "" then 0 else Value(s[..|s| - 1]) * 10 + ValueOf(s[|s| - 1])
  }

  function Power10(k: nat): (p: nat)
    ensures p > 0
  {
    if k == 0 then 1 else 10 * Power10(k - 1)
  }

  lemma Powers()
    ensures Power10(2) == 100 && Power10(4) == 10000
  {
    assert Power10(3) == 10 * Power10(2) == 1000;
  }

  /** The last `width` digits of a number: `padStart` with zeros, for numbers that fit. */
  function Pad(n: nat, width: nat): (s: string)
    ensures |s| == width && Digits(s)
  {
    if width == 0 then "" else Pad(n / 10, width - 1) + [DigitOf(n % 10)]
  }

  /** `String(n)`: no leading zero. */
  function Decimal(n: nat): (s: string)
    ensures Digits(s) && s != "" && (n > 0 ==> s[0] != '0')
  {
    if n < 10 then [DigitOf(n)] else Decimal(n / 10) + [DigitOf(n % 10)]
  }

  lemma {:induction false} PadReads(n: nat, width: nat)
    requires n < Power10(width)
    ensures Value(Pad(n, width)) == n
  {
    if width > 0 {
      PadReads(n / 10, width - 1);
      assert Pad(n, width)[..width - 1] == Pad(n / 10, width - 1);
    }
  }

  lemma {:induction false} ReadPads(s: string)
    requires Digits(s)
    ensures Value(s) < Power10(|s|) && Pad(Value(s), |s|) == s
  {
    if s != "" {
      ReadPads(s[..|s| - 1]);
      var v := Value(s[..|s| - 1]);
      assert Value(s) / 10 == v && Value(s) % 10 == ValueOf(s[|s| - 1]);
      assert s == s[..|s| - 1] + [s[|s| - 1]];
    }
  }

  /** Numbers of exactly four digits need no padding. */
  lemma FourDigits(n: nat)
    requires 1000 <= n <= 9999
    ensures Decimal(n) == Pad(n, 4)
  {
    assert Decimal(n / 1000) == [DigitOf(n / 1000)];
    assert n / 10 / 10 / 10 == n / 1000 && n / 10 / 10 == n / 100;
    assert Decimal(n / 100) == [DigitOf(n / 1000)] + [DigitOf(n / 100 % 10)];
    assert Decimal(n / 10) == Decimal(n / 100) + [DigitOf(n / 10 % 10)];
    assert Pad(n / 1000, 1) == Pad(n / 10000, 0) + [DigitOf(n / 1000 % 10)];
    assert Pad(n / 100, 2) == Pad(n / 1000, 1) + [DigitOf(n / 100 % 10)];
    assert Pad(n / 10, 3) == Pad(n / 100, 2) + [DigitOf(n / 10 % 10)];
  }

  /** Numbers of fewer digits than the width are written with a zero in front. */
  lemma {:induction false} LeadingZero(n: nat, width: nat)
    requires width > 0 && n < Power10(width - 1)
    ensures Pad(n, width)[0] == '0'
  {
    if width == 1 {
      assert Pad(n, 1) == Pad(0, 0) + [DigitOf(0)];
    } else {
      LeadingZero(n / 10, width - 1);
    }
  }

  /** Digit strings of one length compare as their numbers. */
  lemma {:induction false} DigitsOrder(s: string, t: string)
    requires Digits(s) && Digits(t) && |s| == |t|
    ensures TextOrder.Before(s, t) <==> Value(s) < Value(t)
    ensures Value(s) == Value(t) ==> s == t
    decreases |s|
  {
    if s != "" {
      hide TextOrder.Before;
      var n := |s| - 1;
      DigitsOrder(s[..n], t[..n]);
      assert s == s[..n] + [s[n]] && t == t[..n] + [t[n]];
      TextOrder.HeadFirst(s[..n], [s[n]], t[..n], [t[n]]);
      TextOrder.OneCharacter(s[n], t[n]);
    }
  }

  /** A whole number as text, with its sign. */
  function Signed(n: int): (s: string)
    ensures s != "" && (n < 0 <==> s[0] == '-')
  {
    if n < 0 then "-" + Decimal(-n) else Decimal(n)
  }

  lemma {:induction false} DecimalReads(n: nat)
    ensures Value(Decimal(n)) == n
  {
    if n < 10 {
      assert Decimal(n)[..0] == "";
    } else {
      DecimalReads(n / 10);
      assert Decimal(n)[..|Decimal(n)| - 1] == Decimal(n / 10);
    }
  }

  /** Different numbers are written differently. */
  lemma SignedDistinct(m: int, n: int)
    requires Signed(m) == Signed(n)
    ensures m == n
  {
    if m < 0 && n < 0 {
      assert Signed(m)[1..] == Decimal(-m) && Signed(n)[1..] == Decimal(-n);
      DecimalReads(-m);
      DecimalReads(-n);
    } else {
      DecimalReads(m);
      DecimalReads(n);
    }
  }
}
