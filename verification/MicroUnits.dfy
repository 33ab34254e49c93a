/** USDT amounts: decimal text with at most six places, and int64 counts of micro-units. */
module MicroUnits {
  import opened Common
  import opened Decimals

  const MICRO := 1_000_000

  /** What the Go functions return: a count and whether to believe it. */
  datatype Parsed = Parsed(minor: int, ok: bool)

  /** Where strings.SplitN cuts: the first dot, or the end. */
  function DotIndex(value: string): (i: nat)
    ensures i <= |value| && '.' !in value[..i]
    ensures i < |value| ==> value[i] == '.'
  {
    if value == [] || value[0] == '.' then 0
    else
      var i := DotIndex(value[1..]);
      assert value[..i + 1] == [value[0]] + value[1..][..i];
      i + 1
  }

  function Whole(value: string): string { value[..DotIndex(value)] }

  function Fraction(value: string): string {
    if DotIndex(value) == |value| then [] else value[DotIndex(value) + 1..]
  }

  /** No sign, no superfluous zero, and after a dot one to six digits. */
  predicate Grammatical(value: string) {
    && Canonical(Whole(value)) && AllDigits(Fraction(value))
    && (DotIndex(value) < |value| ==> 1 <= |Fraction(value)| <= 6)
  }

  function Zeroes(n: nat): (s: string)
    ensures |s| == n && AllDigits(s)
  {
    seq(n, _ => '0')
  }

  /** The amount in micro-units: the number left when the dot is moved six places. */
  function Units(value: string): nat
    requires Grammatical(value)
  {
    NatOf(Whole(value) + Fraction(value) + Zeroes(6 - |Fraction(value)|))
  }

  /** parseUSDTMicroUnitsAllowZero: int64 arithmetic that checks before it can overflow. */
  function ParseAllowZero(value: string): Parsed {
    if !Grammatical(value) || NatOf(Whole(value)) > MAX_INT64 then Parsed(0, false)
    else
      var whole := NatOf(Whole(value));
      var fraction := NatOf(Fraction(value) + Zeroes(6 - |Fraction(value)|));
      if whole > (MAX_INT64 - fraction) / MICRO then Parsed(0, false)
      else Parsed(whole * MICRO + fraction, true)
  }

  function Parse(value: string): Parsed {
    var parsed := ParseAllowZero(value);
    Parsed(parsed.minor, parsed.ok && parsed.minor > 0)
  }

  function TrimZeroes(s: string): string {
    if s != [] && s[|s| - 1] == '0' then TrimZeroes(s[..|s| - 1]) else s
  }

  function Format(value: nat): string {
    if value % MICRO == 0 then Dec(value / MICRO)
    else Dec(value / MICRO) + "." + TrimZeroes(Padded(value % MICRO, 6))
  }

  // ---- parsing ------------------------------------------------------------------------------

  lemma SixDigits(s: string)
    requires AllDigits(s) && |s| == 6
    ensures NatOf(s) < MICRO && Padded(NatOf(s), 6) == s && Pow10(6) == MICRO
  {
    NumberBelow(s);
    assert Pow10(6) == MICRO;
  }

  lemma UnitsSplit(value: string)
    requires Grammatical(value)
    ensures var fraction := Fraction(value) + Zeroes(6 - |Fraction(value)|);
      Units(value) == NatOf(Whole(value)) * MICRO + NatOf(fraction) && NatOf(fraction) < MICRO
  {
    var fraction := Fraction(value) + Zeroes(6 - |Fraction(value)|);
    assert Whole(value) + Fraction(value) + Zeroes(6 - |Fraction(value)|) == Whole(value) + fraction;
    NatOfConcat(Whole(value), fraction);
    SixDigits(fraction);
  }

  /** A text parses exactly when it is grammatical and its value fits int64, and to that value. */
  lemma ParseIffFits(value: string)
    ensures ParseAllowZero(value).ok <==> Grammatical(value) && Units(value) <= MAX_INT64
    ensures ParseAllowZero(value).ok ==> ParseAllowZero(value).minor == Units(value)
    ensures !ParseAllowZero(value).ok ==> ParseAllowZero(value).minor == 0
  {
    if Grammatical(value) { UnitsSplit(value); }
  }

  // ---- formatting ---------------------------------------------------------------------------

  lemma {:induction false} TrimmedZeroes(s: string)
    requires AllDigits(s)
    ensures AllDigits(TrimZeroes(s)) && |TrimZeroes(s)| <= |s|
    ensures s == TrimZeroes(s) + Zeroes(|s| - |TrimZeroes(s)|)
    ensures TrimZeroes(s) == [] ==> NatOf(s) == 0
    ensures TrimZeroes(s) != [] ==> TrimZeroes(s)[|TrimZeroes(s)| - 1] != '0'
  {
    if s != [] && s[|s| - 1] == '0' {
      TrimmedZeroes(s[..|s| - 1]);
      assert s == s[..|s| - 1] + ['0'];
    }
  }

  lemma {:induction false} DotAfter(whole: string, rest: string)
    requires AllDigits(whole)
    ensures DotIndex(whole) == |whole| && DotIndex(whole + "." + rest) == |whole|
  {
    if whole != [] {
      assert IsDigit(whole[0]);
      assert (whole + "." + rest)[1..] == whole[1..] + "." + rest;
      DotAfter(whole[1..], rest);
    }
  }

  lemma FormattedParts(value: nat)
    ensures Grammatical(Format(value)) && Whole(Format(value)) == Dec(value / MICRO)
    ensures Fraction(Format(value)) == if value % MICRO == 0 then [] else TrimZeroes(Padded(value % MICRO, 6))
  {
    var whole, fraction := Dec(value / MICRO), TrimZeroes(Padded(value % MICRO, 6));
    DecDenotes(value / MICRO);
    DotAfter(whole, fraction);
    if value % MICRO == 0 {
      assert whole[..|whole|] == whole;
    } else {
      var text := whole + "." + fraction;
      assert text[..|whole|] == whole && text[|whole| + 1..] == fraction;
      TrimmedZeroes(Padded(value % MICRO, 6));
      assert Pow10(6) == MICRO;
      PaddedDenotes(value % MICRO, 6);
    }
  }

  /** The fraction padded back to six places is the one that was formatted. */
  lemma FractionPadded(value: nat)
    ensures var fraction := Fraction(Format(value));
      |fraction| <= 6 && fraction + Zeroes(6 - |fraction|) == Padded(value % MICRO, 6)
  {
    FormattedParts(value);
    if value % MICRO == 0 {
      ZeroPadded();
      assert [] + Zeroes(6) == Zeroes(6);
    } else {
      TrimmedZeroes(Padded(value % MICRO, 6));
    }
  }

  lemma ZeroPadded()
    ensures NatOf(Zeroes(6)) == 0 && Padded(0, 6) == Zeroes(6)
  {
    AllZeroes(6);
    NumberBelow(Zeroes(6));
  }

  lemma UnitsOfFormat(value: nat)
    ensures Grammatical(Format(value))
    ensures Units(Format(value)) == NatOf(Dec(value / MICRO)) * MICRO + NatOf(Padded(value % MICRO, 6))
  {
    FormattedParts(value);
    FractionPadded(value);
    UnitsSplit(Format(value));
  }

  lemma SixPlaces(n: nat)
    requires n < MICRO
    ensures NatOf(Padded(n, 6)) == n
  {
    assert Pow10(6) == MICRO;
    PaddedDenotes(n, 6);
  }

  lemma FormatDenotes(value: nat)
    ensures Grammatical(Format(value)) && Units(Format(value)) == value
  {
    UnitsOfFormat(value);
    DecDenotes(value / MICRO);
    SixPlaces(value % MICRO);
  }

  lemma {:induction false} AllZeroes(n: nat)
    ensures NatOf(Zeroes(n)) == 0
  {
    if n > 0 {
      assert Zeroes(n)[..n - 1] == Zeroes(n - 1);
      AllZeroes(n - 1);
    }
  }

  /** Parsing undoes formatting on every non-negative int64. */
  lemma ParseUndoesFormat(value: nat)
    requires value <= MAX_INT64
    ensures ParseAllowZero(Format(value)) == Parsed(value, true)
    ensures Parse(Format(value)) == Parsed(value, value > 0)
  {
    FormatDenotes(value);
    ParseIffFits(Format(value));
  }

  /** Without superfluous trailing zeroes the text is the only one for its amount. */
  predicate Shortest(value: string) {
    Grammatical(value) && (Fraction(value) != [] ==> Fraction(value)[|Fraction(value)| - 1] != '0')
  }

  lemma {:induction false} TrimUndoesPadding(s: string, n: nat)
    requires s != [] ==> s[|s| - 1] != '0'
    ensures TrimZeroes(s + Zeroes(n)) == s
  {
    if n > 0 {
      assert (s + Zeroes(n))[..|s| + n - 1] == s + Zeroes(n - 1);
      TrimUndoesPadding(s, n - 1);
    } else {
      assert s + Zeroes(0) == s;
    }
  }

  lemma PartsOfUnits(value: string)
    requires Grammatical(value)
    ensures var fraction := Fraction(value) + Zeroes(6 - |Fraction(value)|);
      && Units(value) / MICRO == NatOf(Whole(value)) && Dec(NatOf(Whole(value))) == Whole(value)
      && Units(value) % MICRO == NatOf(fraction) && Padded(NatOf(fraction), 6) == fraction
  {
    UnitsSplit(value);
    SixDigits(Fraction(value) + Zeroes(6 - |Fraction(value)|));
    CanonicalIsDec(Whole(value));
  }

  lemma WholeIsFormatted(value: string)
    requires Grammatical(value) && Fraction(value) == []
    ensures Format(Units(value)) == value
  {
    PartsOfUnits(value);
    ZeroPadded();
    assert [] + Zeroes(6) == Zeroes(6);
    assert value == Whole(value);
  }

  lemma FractionIsFormatted(value: string)
    requires Shortest(value) && Fraction(value) != []
    ensures Format(Units(value)) == value
  {
    var fraction := Fraction(value);
    PartsOfUnits(value);
    PositiveFraction(fraction);
    TrimUndoesPadding(fraction, 6 - |fraction|);
    assert value == Whole(value) + "." + fraction;
  }

  /** Formatting undoes parsing on exactly the texts written without superfluous zeroes. */
  lemma FormatUndoesParseIff(value: string)
    requires Grammatical(value)
    ensures Format(Units(value)) == value <==> Shortest(value)
  {
    if Fraction(value) == [] {
      WholeIsFormatted(value);
    } else if Shortest(value) {
      FractionIsFormatted(value);
    } else {
      FormattedParts(Units(value));
      TrimmedZeroes(Padded(Units(value) % MICRO, 6));
    }
  }

  lemma PositiveFraction(fraction: string)
    requires AllDigits(fraction) && 1 <= |fraction| <= 6 && fraction[|fraction| - 1] != '0'
    ensures NatOf(fraction + Zeroes(6 - |fraction|)) > 0
  {
    var n: nat := 6 - |fraction|;
    NatOfConcat(fraction, Zeroes(n));
    assert NatOf(fraction) >= DigitValue(fraction[|fraction| - 1]) > 0;
    Positive(NatOf(fraction), Pow10(n));
  }

  lemma Positive(a: nat, b: nat)
    requires a > 0 && b > 0
    ensures a * b > 0
  {
  }

  // ---- a new withdrawal ---------------------------------------------------------------------

  datatype Amounts = TooLow | Amounts(minor: int, fee: int, net: int, feeText: string, netText: string)

  /** The amounts createCregisWithdrawal stores for a customer's amount and the fee rule's. */
  function AmountsFor(minor: int, fee: nat): Amounts {
    if minor <= fee then TooLow
    else Amounts(minor, fee, minor - fee, Format(fee), Format(minor - fee))
  }

  /** Stored amounts add up, leave something to pay, and both texts read back as stored. */
  lemma StoredAmountsReadBack(amount: string, fee: nat)
    requires Parse(amount).ok && fee <= MAX_INT64
    ensures var stored := AmountsFor(Parse(amount).minor, fee);
      if stored == TooLow then Units(amount) <= fee
      else && stored.net + stored.fee == stored.minor == Units(amount) && stored.net > 0
           && Parse(stored.netText) == Parsed(stored.net, true)
           && ParseAllowZero(stored.feeText) == Parsed(stored.fee, true)
  {
    ParseIffFits(amount);
    var stored := AmountsFor(Parse(amount).minor, fee);
    if stored != TooLow {
      ParseUndoesFormat(stored.net);
      ParseUndoesFormat(stored.fee);
    }
  }
}
