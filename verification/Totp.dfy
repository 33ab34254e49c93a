/**
 Checking a six-digit time-based code: the counter becomes eight big-endian bytes, the keyed
 digest of those bytes is truncated as in section 5.3 of RFC 4226, and the first matching time
 step among the previous, the current and the next one is accepted.
 */
module Totp {
  import opened Bytes
  import opened Decimals

  /** An HMAC-SHA-1 digest. The keyed digest itself is a parameter. */
  type Digest = d: seq<Byte> | |d| == 20 witness seq(20, _ => 0)

  const PERIOD := 30

  /** Section 5.3 of RFC 4226: four bytes at the offset in the last nibble, without the top bit. */
  function Truncated(digest: Digest): nat {
    var offset := digest[19] % 16;
    Number(digest[offset..offset + 4]) % 0x8000_0000
  }

  function CodeAt(mac: seq<Byte> -> Digest, counter: nat): string {
    Padded(Truncated(mac(BigEndian(counter, 8))) % 1_000_000, 6)
  }

  /** Go's integer division truncates toward zero. */
  function Quotient(a: int, b: int): int
    requires b > 0
  {
    if a >= 0 then a / b else -((-a) / b)
  }

  predicate Matches(mac: seq<Byte> -> Digest, code: string, unix: int, minimum: int, counter: int) {
    && Quotient(unix, PERIOD) - 1 <= counter <= Quotient(unix, PERIOD) + 1
    && counter > minimum && counter >= 0
    && CodeAt(mac, counter) == code
  }

  function Weighted(a: int, b: int, c: int, d: int): int {
    a * 0x100_0000 + b * 0x1_0000 + c * 0x100 + d
  }

  lemma NumberOfFour(four: seq<Byte>)
    requires |four| == 4
    ensures Number(four) == Weighted(four[0], four[1], four[2], four[3])
  {
    assert four[..3][..2] == four[..2] && four[..2][..1] == four[..1] && four[..1][..0] == [];
    assert Number(four[..1]) == four[0];
    assert Number(four[..2]) == Number(four[..1]) * 256 + four[1];
    assert Number(four[..3]) == Number(four[..2]) * 256 + four[2];
  }

  /** The eight message bytes, written from the last to the first. */
  method Message(counter: nat) returns (message: seq<Byte>)
    requires counter < Pow256(8)
    ensures message == BigEndian(counter, 8) && Number(message) == counter
  {
    var buffer := new Byte[8];
    var rest := counter;
    var index := 7;
    while index >= 0
      invariant -1 <= index <= 7
      invariant rest >= 0
      invariant BigEndian(counter, 8) == BigEndian(rest, index + 1) + buffer[index + 1..]
    {
      buffer[index] := rest % 256;
      assert BigEndian(rest, index + 1) == BigEndian(rest / 256, index) + [rest % 256];
      assert buffer[index..] == [buffer[index]] + buffer[index + 1..];
      rest := rest / 256;
      index := index - 1;
    }
    message := buffer[..];
    assert buffer[0..] == buffer[..];
    BigEndianDenotes(counter, 8);
  }

  lemma ClearTopBit(a: nat, rest: nat)
    requires rest < 0x100_0000
    ensures (a * 0x100_0000 + rest) % 0x8000_0000 == a % 128 * 0x100_0000 + rest
  {
    var kept := a % 128 * 0x100_0000 + rest;
    assert a * 0x100_0000 + rest == a / 128 * 0x8000_0000 + kept;
    assert kept < 0x8000_0000;
  }

  /** Clearing the top bit of the first byte is reducing the number modulo 2^31. */
  method Truncate(digest: Digest) returns (value: nat)
    ensures value == Truncated(digest) && value < 0x8000_0000
    ensures var o := digest[19] % 16;
      value == Weighted(digest[o] % 128, digest[o + 1], digest[o + 2], digest[o + 3])
  {
    var position := digest[19] % 16;
    var a, b, c, d := digest[position], digest[position + 1], digest[position + 2], digest[position + 3];
    value := Weighted(a % 128, b, c, d);
    assert Truncated(digest) == value by {
      NumberOfFour(digest[position..position + 4]);
      ClearTopBit(a, Weighted(0, b, c, d));
    }
  }

  /** Six digits that denote the truncated digest of the step's eight bytes, reduced by a million. */
  lemma CodeMeans(mac: seq<Byte> -> Digest, step: nat)
    requires step < 0x8000_0000_0000_0000
    ensures |CodeAt(mac, step)| == 6 && AllDigits(CodeAt(mac, step))
    ensures exists message :: |message| == 8 && Number(message) == step
                              && NatOf(CodeAt(mac, step)) == Truncated(mac(message)) % 1_000_000
  {
    assert step < Pow256(8) by { assert Pow256(8) == 0x1_0000_0000_0000_0000; }
    BigEndianDenotes(step, 8);
    assert Pow10(6) == 1_000_000;
    PaddedDenotes(Truncated(mac(BigEndian(step, 8))) % 1_000_000, 6);
  }

  method ExpectedCode(mac: seq<Byte> -> Digest, step: nat) returns (expected: string)
    requires step < 0x8000_0000_0000_0000
    ensures expected == CodeAt(mac, step)
  {
    assert step < Pow256(8) by { assert Pow256(8) == 0x1_0000_0000_0000_0000; }
    var message := Message(step);
    var value := Truncate(mac(message));
    expected := Padded(value % 1_000_000, 6);
  }

  method VerifyTOTPCode(mac: seq<Byte> -> Digest, secretDecodes: bool, code: string, unix: int, minimum: int)
    returns (counter: int, ok: bool)
    requires -0x8000_0000_0000_0000 <= unix < 0x8000_0000_0000_0000
    ensures ok ==> secretDecodes && Matches(mac, code, unix, minimum, counter) && minimum < counter
    ensures ok ==> forall c :: c < counter ==> !Matches(mac, code, unix, minimum, c)
    ensures !ok && secretDecodes ==> forall c :: !Matches(mac, code, unix, minimum, c)
  {
    if |code| != 6 || !secretDecodes { return 0, false; }
    var current := Quotient(unix, PERIOD);
    var offset := -1;
    while offset <= 1
      invariant -1 <= offset <= 2
      invariant forall c :: c < current + offset ==> !Matches(mac, code, unix, minimum, c)
    {
      var step := current + offset;
      if step > minimum && step >= 0 {
        var expected := ExpectedCode(mac, step);
        if expected == code { return step, true; }
      }
      offset := offset + 1;
    }
    return 0, false;
  }

  /**
   The codes of the current half minute and of its two neighbours are accepted, as long as their
   steps come after the last one used.
   */
  lemma NeighbouringCodesMatch(mac: seq<Byte> -> Digest, unix: nat, minimum: int, step: nat)
    requires minimum < step && 30 * step <= unix + 30 && unix < 30 * (step + 2)
    ensures Matches(mac, CodeAt(mac, step), unix, minimum, step)
  {
    assert unix / 30 - 1 <= step <= unix / 30 + 1;
  }

  /** An accepted code was current at most one period before or two periods after its step began. */
  lemma AcceptedCodesAreRecent(mac: seq<Byte> -> Digest, code: string, unix: int, minimum: int, counter: int)
    requires unix >= 0 && Matches(mac, code, unix, minimum, counter)
    ensures 30 * counter - 30 <= unix < 30 * counter + 60 && minimum < counter
    ensures |code| == 6 && AllDigits(code)
  {
    assert unix / PERIOD - 1 <= counter <= unix / PERIOD + 1;
  }
}
