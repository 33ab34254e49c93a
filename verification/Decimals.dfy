/** Decimal text of natural numbers: unpadded as %d and strconv write it, padded as %06d does. */
module Decimals {

  function Pow10(k: nat): (p: nat)
    ensures p > 0
  {
    if k == 0 then 1 else 10 * Pow10(k - 1)
  }

  predicate IsDigit(c: char) { '0' <= c <= '9' }

  predicate AllDigits(s: string) {
    forall i :: 0 <= i < |s| ==> IsDigit(s[i])
  }

  function DigitChar(d: nat): (c: char)
    requires d < 10
    ensures IsDigit(c) && DigitValue(c) == d
  {
    ('0' as int + d) as char
  }

  function DigitValue(c: char): (d: nat)
    requires IsDigit(c)
    ensures d < 10 && c == ('0' as int + d) as char
  {
    c as int - '0' as int
  }

  /** The number a digit string denotes. */
  function NatOf(s: string): nat
    requires AllDigits(s)
  {
    if s == [] then 0 else NatOf(s[..|s| - 1]) * 10 + DigitValue(s[|s| - 1])
  }

  function Dec(n: nat): (s: string)
    ensures s != [] && AllDigits(s)
  {
    if n < 10 then [DigitChar(n)] else Dec(n / 10) + [DigitChar(n % 10)]
  }

  function Padded(n: nat, width: nat): (s: string)
    ensures |s| == width && AllDigits(s)
  {
    if width == 0 then [] else Padded(n / 10, width - 1) + [DigitChar(n % 10)]
  }

  predicate Canonical(s: string) {
    s != [] && AllDigits(s) && (s[0] == '0' ==> |s| == 1)
  }

  lemma {:induction false} DecDenotes(n: nat)
    ensures NatOf(Dec(n)) == n && Canonical(Dec(n))
  {
    if n >= 10 {
      DecDenotes(n / 10);
      assert Dec(n)[..|Dec(n)| - 1] == Dec(n / 10);
      DecOfPositive(n / 10);
    }
  }

  lemma {:induction false} DecOfPositive(n: nat)
    requires n > 0
    ensures Dec(n)[0] != '0'
  {
    if n >= 10 { DecOfPositive(n / 10); }
  }

  /** A digit string without a superfluous leading zero is the text of its number. */
  lemma {:induction false} CanonicalIsDec(s: string)
    requires Canonical(s)
    ensures Dec(NatOf(s)) == s
  {
    if |s| > 1 {
      var front := s[..|s| - 1];
      CanonicalIsDec(front);
      PositiveNumber(front);
      assert NatOf(s) / 10 == NatOf(front) && NatOf(s) % 10 == DigitValue(s[|s| - 1]);
    } else {
      assert s[..0] == [];
      assert s == [s[0]];
    }
  }

  lemma {:induction false} PositiveNumber(s: string)
    requires s != [] && AllDigits(s) && s[0] != '0'
    ensures NatOf(s) > 0
  {
    if |s| > 1 { PositiveNumber(s[..|s| - 1]); }
  }

  lemma {:induction false} PaddedDenotes(n: nat, width: nat)
    requires n < Pow10(width)
    ensures NatOf(Padded(n, width)) == n
  {
    if width > 0 {
      PaddedDenotes(n / 10, width - 1);
      assert Padded(n, width)[..width - 1] == Padded(n / 10, width - 1);
    }
  }

  /** Fixed-width digit strings and numbers below a power of ten correspond one to one. */
  lemma {:induction false} NumberBelow(s: string)
    requires AllDigits(s)
    ensures NatOf(s) < Pow10(|s|) && Padded(NatOf(s), |s|) == s
  {
    if s != [] {
      NumberBelow(s[..|s| - 1]);
      assert NatOf(s) / 10 == NatOf(s[..|s| - 1]);
    }
  }

  lemma {:induction false} NatOfConcat(a: string, b: string)
    requires AllDigits(a) && AllDigits(b)
    ensures NatOf(a + b) == NatOf(a) * Pow10(|b|) + NatOf(b)
  {
    if b == [] {
      assert a + b == a;
    } else {
      var front := b[..|b| - 1];
      NatOfConcat(a, front);
      assert (a + b)[..|a + b| - 1] == a + front;
      var x, p := NatOf(a), Pow10(|front|);
      assert NatOf(a + b) == (x * p + NatOf(front)) * 10 + DigitValue(b[|b| - 1]);
      Shift(x, p);
      assert Pow10(|b|) == 10 * p;
    }
  }

  lemma Shift(x: nat, p: nat)
    ensures x * p * 10 == x * (10 * p)
  {
  }
}
