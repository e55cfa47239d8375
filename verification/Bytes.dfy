/** Bytes, and numbers laid out in them low byte first, as memcpy lays them out on the
    platforms the library is built for. */
module Bytes {

  type Byte = x: int | 0 <= x < 256 witness 0

  const UINT16 := 0x1_0000
  const UINT32 := 0x1_0000_0000

  type Uint16 = x: int | 0 <= x < 0x1_0000 witness 0

  type Uint32 = x: int | 0 <= x < 0x1_0000_0000 witness 0

  type Uint64 = x: int | 0 <= x < 0x1_0000_0000_0000_0000 witness 0

  /** One more than the largest number `n` bytes hold. */
  function Limit(n: nat): nat {
    if n == 0 then 1 else 256 * Limit(n - 1)
  }

  function ToBytes(v: nat, n: nat): (s: seq<Byte>)
    ensures |s| == n
  {
    if n == 0 then [] else [v % 256] + ToBytes(v / 256, n - 1)
  }

  function FromBytes(s: seq<Byte>): nat {
    if s == [] then 0 else s[0] + 256 * FromBytes(s[1..])
  }

  /** A number that fits comes back. */
  lemma {:induction false} BytesRoundTrip(v: nat, n: nat)
    requires v < Limit(n)
    ensures FromBytes(ToBytes(v, n)) == v
  {
    if n > 0 {
      BytesRoundTrip(v / 256, n - 1);
      assert ToBytes(v, n)[1..] == ToBytes(v / 256, n - 1);
    }
  }

  lemma {:induction false} FromBytesFits(s: seq<Byte>)
    ensures FromBytes(s) < Limit(|s|)
  {
    if s != [] { FromBytesFits(s[1..]); }
  }

  /** The widths of the unsigned types on the wire. */
  datatype Width = W16 | W32 | W64 {
    function Size(): nat {
      match this
      case W16 => 2
      case W32 => 4
      case W64 => 8
    }

    ghost function Bound(): nat { Limit(Size()) }
  }

  lemma Bounds()
    ensures W16.Bound() == 0x1_0000 && W32.Bound() == 0x1_0000_0000 && W64.Bound() == 0x1_0000_0000_0000_0000
  {
    assert Limit(1) == 256;
    assert Limit(2) == 0x1_0000;
    assert Limit(3) == 0x100_0000;
    assert Limit(4) == 0x1_0000_0000;
    assert Limit(5) == 0x100_0000_0000;
    assert Limit(6) == 0x1_0000_0000_0000;
    assert Limit(7) == 0x100_0000_0000_0000;
  }

  // ---------------------------------------------------------------- a flag word

  /** A 32-bit word, lowest bit first. */
  type Word = b: seq<bool> | |b| == 32 witness ValueBits(0, 32)

  function BitsValue(b: seq<bool>): nat {
    if b == [] then 0 else (if b[0] then 1 else 0) + 2 * BitsValue(b[1..])
  }

  function ValueBits(v: nat, n: nat): (b: seq<bool>)
    ensures |b| == n
  {
    if n == 0 then [] else [v % 2 == 1] + ValueBits(v / 2, n - 1)
  }

  ghost function Power2(n: nat): nat { if n == 0 then 1 else 2 * Power2(n - 1) }

  lemma {:induction false} BitsRoundTrip(b: seq<bool>)
    ensures ValueBits(BitsValue(b), |b|) == b && BitsValue(b) < Power2(|b|)
  {
    if b != [] { BitsRoundTrip(b[1..]); }
  }

  /** A word fits four bytes. */
  lemma {:induction false} WordFits(b: Word)
    ensures BitsValue(b) < W32.Bound() && ValueBits(BitsValue(b), 32) == b
  {
    BitsRoundTrip(b);
    Power2Is256(4);
    assert Power2(8 * 4) == Power2(|b|);
  }

  lemma {:induction false} Power2Is256(n: nat)
    ensures Power2(8 * n) == Limit(n)
  {
    if n > 0 {
      Power2Is256(n - 1);
      assert Power2(8 * n) == 2 * Power2(8 * n - 1);
      assert Power2(8 * n - 1) == 2 * Power2(8 * n - 2);
      assert Power2(8 * n - 2) == 2 * Power2(8 * n - 3);
      assert Power2(8 * n - 3) == 2 * Power2(8 * n - 4);
      assert Power2(8 * n - 4) == 2 * Power2(8 * n - 5);
      assert Power2(8 * n - 5) == 2 * Power2(8 * n - 6);
      assert Power2(8 * n - 6) == 2 * Power2(8 * n - 7);
      assert Power2(8 * n - 7) == 2 * Power2(8 * n - 8);
    }
  }

  lemma {:induction false} ZeroBits(v: nat, n: nat)
    requires v < Power2(n)
    ensures true !in ValueBits(v, n) <==> v == 0
  {
    if n > 0 { ZeroBits(v / 2, n - 1); }
  }

  lemma {:induction false} ZeroBytes(s: seq<Byte>)
    ensures FromBytes(s) == 0 <==> forall k :: 0 <= k < |s| ==> s[k] == 0
  {
    if s != [] {
      ZeroBytes(s[1..]);
      assert forall k :: 1 <= k < |s| ==> s[k] == s[1..][k - 1];
    }
  }

  lemma Assoc(a: seq<Byte>, b: seq<Byte>, c: seq<Byte>)
    ensures (a + b) + c == a + (b + c)
  {
  }
}
