/** Byte strings read as big-endian numbers. */
module Bytes {

  type Byte = b: int | 0 <= b < 256

  /** The number a big-endian byte string denotes. */
  function Number(bytes: seq<Byte>): nat {
    if bytes == [] then 0 else Number(bytes[..|bytes| - 1]) * 256 + bytes[|bytes| - 1]
  }

  function Pow256(k: nat): (p: nat) ensures p > 0 { if k == 0 then 1 else 256 * Pow256(k - 1) }

  function BigEndian(n: nat, width: nat): (bytes: seq<Byte>)
    ensures |bytes| == width
  {
    if width == 0 then [] else BigEndian(n / 256, width - 1) + [n % 256]
  }

  /** The bytes determine the number they were written from. */
  lemma {:induction false} BigEndianDenotes(n: nat, width: nat)
    requires n < Pow256(width)
    ensures Number(BigEndian(n, width)) == n
  {
    if width > 0 {
      BigEndianDenotes(n / 256, width - 1);
      assert BigEndian(n, width)[..width - 1] == BigEndian(n / 256, width - 1);
    }
  }

  /** The shortest byte string that denotes n. */
  function Shortest(n: nat): (bytes: seq<Byte>)
    ensures bytes != [] ==> bytes[0] != 0
  {
    if n == 0 then [] else Shortest(n / 256) + [n % 256]
  }

  /** A byte string without leading zeroes is the shortest one of its number. */
  lemma {:induction false} ShortestIsUnique(bytes: seq<Byte>)
    requires bytes != [] ==> bytes[0] != 0
    ensures Shortest(Number(bytes)) == bytes
  {
    if bytes != [] {
      var front := bytes[..|bytes| - 1];
      ShortestIsUnique(front);
      assert Number(bytes) / 256 == Number(front) && Number(bytes) % 256 == bytes[|bytes| - 1];
      if front == [] { assert bytes == [bytes[0]]; }
    }
  }

  lemma {:induction false} ShortestDenotes(n: nat)
    ensures Number(Shortest(n)) == n
  {
    if n > 0 {
      ShortestDenotes(n / 256);
      assert Shortest(n)[..|Shortest(n)| - 1] == Shortest(n / 256);
    }
  }

  /** Numbers between two powers of 256 need exactly the larger power's number of bytes. */
  lemma {:induction false} ShortestLength(n: nat, k: nat)
    requires Pow256(k) <= n < Pow256(k + 1)
    ensures |Shortest(n)| == k + 1
  {
    if k > 0 {
      assert Pow256(k - 1) <= n / 256 < Pow256(k);
      ShortestLength(n / 256, k - 1);
    } else {
      assert Pow256(1) == 256 * Pow256(0) == 256;
      assert n / 256 == 0 && Shortest(n) == Shortest(0) + [n % 256];
    }
  }

  /** The number whose low end is already written out in bytes. */
  function Extended(high: nat, low: seq<Byte>): nat
    decreases |low|
  {
    if low == [] then high else Extended(high * 256 + low[0], low[1..])
  }

  /** Moving the lowest byte of the high part over to the low part. */
  lemma ExtendByByte(high: nat, low: seq<Byte>)
    ensures Extended(high / 256, [high % 256] + low) == Extended(high, low)
  {
    assert ([high % 256] + low)[1..] == low;
  }

  lemma {:induction false} ExtendedLast(high: nat, low: seq<Byte>)
    requires low != []
    ensures Extended(high, low) == Extended(high, low[..|low| - 1]) * 256 + low[|low| - 1]
    decreases |low|
  {
    if |low| > 1 {
      ExtendedLast(high * 256 + low[0], low[1..]);
      assert low[1..][..|low| - 2] == low[..|low| - 1][1..];
    } else {
      assert low[1..] == [] && low[..0] == [];
    }
  }

  lemma {:induction false} FullyWritten(bytes: seq<Byte>)
    ensures Extended(0, bytes) == Number(bytes)
  {
    if bytes != [] {
      ExtendedLast(0, bytes);
      FullyWritten(bytes[..|bytes| - 1]);
    }
  }
}
