/**
 Recognising a TRON address: 34 base-58 characters starting with 'T' that decode to 25 bytes,
 a version byte and twenty more followed by four bytes of a double hash.
 */
module Base58 {
  import opened Bytes

  const ALPHABET := "123456789ABCDEFGHJKLMNPQRSTUVWXYZabcdefghijkmnopqrstuvwxyz"

  /** A SHA-256 digest. The hash itself is a parameter. */
  type Digest = d: seq<Byte> | |d| == 32 witness seq(32, _ => 0)

  /** strings.IndexRune: the first position, or -1. */
  function IndexOf(s: string, c: char): (i: int)
    ensures -1 <= i < |s|
    ensures i >= 0 <==> c in s
    ensures i >= 0 ==> s[i] == c
  {
    if s == [] then -1
    else if s[0] == c then 0
    else
      var i := IndexOf(s[1..], c);
      if i < 0 then -1 else i + 1
  }

  function Position(c: char): (d: int)
    ensures -1 <= d < 58
  {
    assert |ALPHABET| == 58;
    IndexOf(ALPHABET, c)
  }

  predicate InAlphabet(text: string) {
    forall i :: 0 <= i < |text| ==> Position(text[i]) >= 0
  }

  type Digit = d: int | 0 <= d < 58

  function DigitOf(c: char): Digit
    requires Position(c) >= 0
  {
    Position(c)
  }

  function Digits(text: string): seq<Digit>
    requires InAlphabet(text)
  {
    seq(|text|, i requires 0 <= i < |text| => DigitOf(text[i]))
  }

  lemma DigitsDiffer(a: char, b: char)
    requires Position(a) >= 0 && Position(a) == Position(b)
    ensures a == b
  {
    assert ALPHABET[Position(a)] == a && ALPHABET[Position(b)] == b;
  }

  function Denoted(digits: seq<Digit>): nat {
    if digits == [] then 0 else Denoted(digits[..|digits| - 1]) * 58 + digits[|digits| - 1]
  }

  /** The number a base-58 text denotes. */
  function Value(text: string): nat
    requires InAlphabet(text)
  {
    Denoted(Digits(text))
  }

  // ---- decoding -----------------------------------------------------------------------------

  /** Multiplies the number in the buffer by 58 and adds a digit, carrying from the last byte up. */
  method MultiplyAdd(decoded: seq<Byte>, digit: nat) returns (result: seq<Byte>)
    requires digit < 58
    requires decoded != [] ==> decoded[0] != 0
    ensures Number(result) == Number(decoded) * 58 + digit
    ensures result != [] ==> result[0] != 0
  {
    var carry: nat;
    result, carry := CarryThrough(decoded, digit);
    if carry == 0 { NoLeadingZero(decoded, result, digit); }
    while carry > 0
      invariant Number(decoded) * 58 + digit == Extended(carry, result)
      invariant carry == 0 && result != [] ==> result[0] != 0
      decreases carry
    {
      ExtendByByte(carry, result);
      result := [carry % 256] + result;
      carry := carry / 256;
    }
    FullyWritten(result);
  }

  method CarryThrough(decoded: seq<Byte>, digit: nat) returns (result: seq<Byte>, carry: nat)
    ensures |result| == |decoded| && Number(decoded) * 58 + digit == Extended(carry, result)
  {
    result, carry := decoded, digit;
    var index := |decoded| - 1;
    assert Carried(decoded, digit, result, index + 1, carry) by {
      assert decoded[..|decoded|] == decoded && result[|decoded|..] == [];
    }
    while index >= 0
      invariant -1 <= index < |decoded| == |result|
      invariant Carried(decoded, digit, result, index + 1, carry)
    {
      var last: nat := result[index];
      CarryOne(decoded, digit, result, index, carry, last);
      carry := carry + last * 58;
      result := result[index := carry % 256];
      carry := carry / 256;
      index := index - 1;
    }
    assert result[0..] == result && decoded[..0] == [];
  }

  /** The first n bytes are still to be multiplied; the carry out of the others is pending. */
  predicate Carried(decoded: seq<Byte>, digit: nat, result: seq<Byte>, n: nat, carry: nat)
    requires n <= |decoded| == |result|
  {
    && result[..n] == decoded[..n]
    && Number(decoded) * 58 + digit == Extended(Number(decoded[..n]) * 58 + carry, result[n..])
  }

  lemma CarryOne(decoded: seq<Byte>, digit: nat, result: seq<Byte>, index: nat, carry: nat, last: nat)
    requires index < |decoded| == |result| && last == result[index]
    requires Carried(decoded, digit, result, index + 1, carry)
    ensures var c := carry + last * 58; Carried(decoded, digit, result[index := c % 256], index, c / 256)
  {
    var c, front := carry + last * 58, decoded[..index + 1];
    assert front[..index] == decoded[..index] && front[index] == result[..index + 1][index] == result[index];
    CarryStep(front, last, carry, result[index + 1..]);
    assert result[index := c % 256][index..] == [c % 256] + result[index + 1..];
    assert result[index := c % 256][..index] == result[..index + 1][..index] == front[..index];
  }

  lemma CarryStep(front: seq<Byte>, last: nat, carry: nat, low: seq<Byte>)
    requires front != [] && last == front[|front| - 1]
    ensures var c := carry + last * 58;
      Extended(Number(front) * 58 + carry, low)
      == Extended(Number(front[..|front| - 1]) * 58 + c / 256, [c % 256] + low)
  {
    var c, rest := carry + last * 58, Number(front[..|front| - 1]);
    SplitHigh(Number(front) * 58 + carry, rest * 58, c);
    ExtendByByte(Number(front) * 58 + carry, low);
  }

  lemma SplitHigh(high: nat, rest: nat, c: nat)
    requires high == rest * 256 + c
    ensures high / 256 == rest + c / 256 && high % 256 == c % 256
  {
  }

  lemma {:induction false} NumberBounds(bytes: seq<Byte>)
    ensures Number(bytes) < Pow256(|bytes|)
    ensures bytes != [] ==> (bytes[0] != 0 <==> Number(bytes) >= Pow256(|bytes| - 1))
  {
    if bytes != [] {
      var front := bytes[..|bytes| - 1];
      NumberBounds(front);
      if front == [] { assert bytes[..0] == [] && Number(bytes) == bytes[0]; }
    }
  }

  lemma NoLeadingZero(decoded: seq<Byte>, result: seq<Byte>, digit: nat)
    requires decoded != [] ==> decoded[0] != 0
    requires |result| == |decoded| && Number(decoded) * 58 + digit == Extended(0, result)
    ensures result != [] ==> result[0] != 0
  {
    FullyWritten(result);
    NumberBounds(decoded);
    NumberBounds(result);
  }

  lemma ValueOfPrefix(text: string, i: nat)
    requires i < |text| && InAlphabet(text[..i]) && Position(text[i]) >= 0
    ensures InAlphabet(text[..i + 1]) && Value(text[..i + 1]) == Value(text[..i]) * 58 + DigitOf(text[i])
  {
    assert text[..i + 1] == text[..i] + [text[i]];
    var digits := Digits(text[..i + 1]);
    assert digits[..i] == Digits(text[..i]);
  }

  /** The buffer holds the shortest byte string of the text's number, and only alphabet texts decode. */
  method Decode(text: string) returns (decoded: seq<Byte>, ok: bool)
    ensures ok <==> InAlphabet(text)
    ensures ok ==> decoded == Shortest(Value(text))
  {
    decoded, ok := [], true;
    var i := 0;
    while i < |text|
      invariant 0 <= i <= |text|
      invariant InAlphabet(text[..i])
      invariant Number(decoded) == Value(text[..i])
      invariant decoded != [] ==> decoded[0] != 0
    {
      if Position(text[i]) < 0 { return [], false; }
      var position := DigitOf(text[i]);
      ValueOfPrefix(text, i);
      decoded := MultiplyAdd(decoded, position);
      i := i + 1;
    }
    assert text[..|text|] == text;
    ShortestIsUnique(decoded);
  }

  predicate Checksummed(sha: seq<Byte> -> Digest, decoded: seq<Byte>) {
    |decoded| == 25 && decoded[0] == 0x41 && decoded[21..] == sha(sha(decoded[..21]))[..4]
  }

  function LeadingOnes(text: string): nat {
    if text == [] || text[0] != '1' then 0 else 1 + LeadingOnes(text[1..])
  }

  /** Leading '1' characters add zero bytes. */
  method PrependZeroes(text: string, decoded: seq<Byte>) returns (result: seq<Byte>)
    ensures result == seq(LeadingOnes(text), _ => 0) + decoded
  {
    result := decoded;
    var i := 0;
    while i < |text|
      invariant 0 <= i <= |text|
      invariant LeadingOnes(text) == i + LeadingOnes(text[i..])
      invariant result == seq(i, _ => 0) + decoded
    {
      if text[i] != '1' { break; }
      assert text[i..][1..] == text[i + 1..];
      result := [0] + result;
      i := i + 1;
    }
  }

  lemma NoLeadingOne(text: string, decoded: seq<Byte>)
    requires text != [] && text[0] != '1'
    ensures seq(LeadingOnes(text), _ => 0) + decoded == decoded
  {
  }

  method VerifyChecksum(sha: seq<Byte> -> Digest, decoded: seq<Byte>) returns (valid: bool)
    ensures valid <==> Checksummed(sha, decoded)
  {
    if |decoded| != 25 || decoded[0] != 0x41 { return false; }
    var first := sha(decoded[..21]);
    var second := sha(first);
    valid := decoded[21..] == second[..4];
  }

  method ValidTronAddress(sha: seq<Byte> -> Digest, value: string) returns (valid: bool)
    ensures valid <==>
      && |value| == 34 && value[0] == 'T' && InAlphabet(value)
      && var bytes := Shortest(Value(value));
         |bytes| == 25 && bytes[0] == 65 && bytes[21..] == sha(sha(bytes[..21]))[..4]
  {
    if |value| != 34 || value[0] != 'T' { return false; }
    var decoded, ok := Decode(value);
    if !ok { return false; }
    NoLeadingOne(value, decoded);
    decoded := PrependZeroes(value, decoded);
    valid := VerifyChecksum(sha, decoded);
  }

  // ---- length and uniqueness ------------------------------------------------------------------

  /** The digit d followed by k zero digits. */
  function Leading(d: nat, k: nat): nat { if k == 0 then d else Leading(d, k - 1) * 58 }

  lemma {:induction false} DenotedBounds(digits: seq<Digit>, d: nat)
    requires digits != [] && digits[0] == d
    ensures Leading(d, |digits| - 1) <= Denoted(digits) < Leading(d + 1, |digits| - 1)
  {
    var front := digits[..|digits| - 1];
    if front == [] {
      assert Denoted(front) == 0;
    } else {
      DenotedBounds(front, d);
    }
  }

  lemma DigitOfT()
    ensures Position('T') == 26
  {
    assert ALPHABET[26] == 'T';
    assert ALPHABET[..26] == "123456789ABCDEFGHJKLMNPQRS";
    FirstIndex(ALPHABET, 'T', 26);
  }

  lemma {:induction false} FirstIndex(s: string, c: char, i: nat)
    requires i < |s| && s[i] == c && c !in s[..i]
    ensures IndexOf(s, c) == i
  {
    if i > 0 {
      assert s[0] in s[..i];
      assert s[1..][..i - 1] == s[..i][1..];
      FirstIndex(s[1..], c, i - 1);
    }
  }

  lemma {:induction false} LeadingAdd(d: nat, a: nat, b: nat)
    ensures Leading(d, a + b) == Leading(Leading(d, a), b)
  {
    if b > 0 { LeadingAdd(d, a, b - 1); }
  }

  /** 26 * 58^33 and 27 * 58^33, the bounds of a text whose first character is 'T'. */
  lemma LeadingT(k: nat)
    requires k == 33
    ensures Leading(26, k) == 405599242792452071692181165407807628555274003324395520524288
    ensures Leading(27, k) == 421199213669084843680341979461954075807399926529179963621376
  {
    Leading26(k);
    Leading27(k);
  }

  lemma Leading26(k: nat)
    requires k == 33
    ensures Leading(26, k) == 405599242792452071692181165407807628555274003324395520524288
  {
    LeadingAdd(26, 11, 22);
    assert Leading(26, 11) == 649652744004303982592;
    LeadingAdd(649652744004303982592, 11, 11);
    assert Leading(649652744004303982592, 11) == 16232641838166220161617714967775086116864;
  }

  lemma Leading27(k: nat)
    requires k == 33
    ensures Leading(27, k) == 421199213669084843680341979461954075807399926529179963621376
  {
    LeadingAdd(27, 11, 22);
    assert Leading(27, 11) == 674639388004469520384;
    LeadingAdd(674639388004469520384, 11, 11);
    assert Leading(674639388004469520384, 11) == 16856974216557228629372242466535666352128;
  }

  /** 256^24 and 256^25. */
  lemma PowersOf256(k: nat)
    requires k == 24
    ensures Pow256(k) == 6277101735386680763835789423207666416102355444464034512896
    ensures Pow256(k + 1) == 1606938044258990275541962092341162602522202993782792835301376
  {
    assert Pow256(12) == 79228162514264337593543950336;
    assert Pow256(24) == 6277101735386680763835789423207666416102355444464034512896;
  }

  lemma Take25Bytes(digits: seq<Digit>)
    requires |digits| == 34 && digits[0] == 26
    ensures |Shortest(Denoted(digits))| == 25
  {
    var k: nat := |digits| - 1;
    DenotedBounds(digits, 26);
    LeadingT(k);
    PowersOf256(k - 9);
    ShortestLength(Denoted(digits), k - 9);
  }

  /** Every 34-character alphabet text that starts with 'T' decodes to exactly 25 bytes. */
  lemma TronTextIs25Bytes(text: string)
    requires |text| == 34 && text[0] == 'T' && InAlphabet(text)
    ensures |Shortest(Value(text))| == 25
  {
    DigitOfT();
    Take25Bytes(Digits(text));
  }

  lemma UniqueDigits(high: nat, low: nat, other: nat, last: nat)
    requires high * 58 + low == other * 58 + last && low < 58 && last < 58
    ensures high == other && low == last
  {
  }

  lemma {:induction false} DenotedDetermines(a: seq<Digit>, b: seq<Digit>)
    requires |a| == |b| && Denoted(a) == Denoted(b)
    ensures a == b
  {
    if a != [] {
      var n := |a| - 1;
      UniqueDigits(Denoted(a[..n]), a[n], Denoted(b[..n]), b[n]);
      DenotedDetermines(a[..n], b[..n]);
      assert a == a[..n] + [a[n]] && b == b[..n] + [b[n]];
    }
  }

  lemma SameValueSameText(a: string, b: string)
    requires InAlphabet(a) && InAlphabet(b) && |a| == |b| && Value(a) == Value(b)
    ensures a == b
  {
    DenotedDetermines(Digits(a), Digits(b));
    forall i | 0 <= i < |a| ensures a[i] == b[i] {
      assert Digits(a)[i] == Digits(b)[i];
      DigitsDiffer(a[i], b[i]);
    }
  }

  /** Texts of one length that decode to the same bytes are the same text. */
  lemma DecodingIsInjective(a: string, b: string)
    requires InAlphabet(a) && InAlphabet(b) && |a| == |b|
    requires Shortest(Value(a)) == Shortest(Value(b))
    ensures a == b
  {
    ShortestDenotes(Value(a));
    ShortestDenotes(Value(b));
    SameValueSameText(a, b);
  }
}
