/** Bytes, bits and the big-endian 32-bit words that the drivers put on the wire. */
module Bytes {

  type Byte = x: int | 0 <= x < 256

  const TWO_32: int := 0x1_0000_0000

  /** Bit i of x, as JavaScript's `x & (1 << i)` tests it for non-negative x. */
  predicate BitSet(x: nat, i: nat)
    decreases i
  {
    if i == 0 then x % 2 == 1 else BitSet(x / 2, i - 1)
  }

  function Pow2(n: nat): (r: nat)
    ensures r >= 1
  {
    if n == 0 then 1 else 2 * Pow2(n - 1)
  }

  /** No bit of 0 is set. */
  lemma {:induction false} BitSetZero(i: nat)
    ensures !BitSet(0, i)
  {
    if i > 0 {
      BitSetZero(i - 1);
    }
  }

  lemma {:induction false} Pow2Add(a: nat, b: nat)
    ensures Pow2(a + b) == Pow2(a) * Pow2(b)
  {
    if a > 0 {
      Pow2Add(a - 1, b);
    }
  }

  lemma Pow2Word()
    ensures Pow2(32) == TWO_32
  {
    assert Pow2(4) == 16;
    Pow2Add(4, 4);
    assert Pow2(8) == 256;
    Pow2Add(8, 8);
    assert Pow2(16) == 0x1_0000;
    Pow2Add(16, 16);
  }

  /** x with bit i made b: JavaScript's `x | (1 << i)` for b and `x & ~(1 << i)`
      otherwise, for non-negative x. */
  function WithBit(x: nat, i: nat, b: bool): nat
    decreases i
  {
    if i == 0 then 2 * (x / 2) + (if b then 1 else 0)
    else 2 * WithBit(x / 2, i - 1, b) + x % 2
  }

  /** Bit i of WithBit(x, i, b) is b; every other bit is that of x. */
  lemma {:induction false} WithBitBits(x: nat, i: nat, b: bool, j: nat)
    ensures BitSet(WithBit(x, i, b), j) == if j == i then b else BitSet(x, j)
    decreases i
  {
    var y := WithBit(x, i, b);
    if i == 0 {
      assert y / 2 == x / 2 && y % 2 == (if b then 1 else 0);
    } else {
      assert y / 2 == WithBit(x / 2, i - 1, b) && y % 2 == x % 2;
      if j > 0 {
        WithBitBits(x / 2, i - 1, b, j - 1);
      }
    }
  }

  /** Making a bit b and then c is making it c. */
  lemma {:induction false} WithBitTwice(x: nat, i: nat, b: bool, c: bool)
    ensures WithBit(WithBit(x, i, b), i, c) == WithBit(x, i, c)
    decreases i
  {
    var y := WithBit(x, i, b);
    if i == 0 {
      assert y / 2 == x / 2;
    } else {
      assert y / 2 == WithBit(x / 2, i - 1, b) && y % 2 == x % 2;
      WithBitTwice(x / 2, i - 1, b, c);
    }
  }

  /** WithBit adds 2^i when it sets a clear bit, takes it away when it clears a set
      one, and otherwise changes nothing. */
  lemma {:induction false} WithBitValue(x: nat, i: nat, b: bool)
    ensures b == BitSet(x, i) ==> WithBit(x, i, b) == x
    ensures b && !BitSet(x, i) ==> WithBit(x, i, b) == x + Pow2(i)
    ensures !b && BitSet(x, i) ==> WithBit(x, i, b) + Pow2(i) == x
    decreases i
  {
    if i > 0 {
      WithBitValue(x / 2, i - 1, b);
    }
  }

  /** Changing a bit below w keeps a number below 2^w. */
  lemma {:induction false} WithBitBound(x: nat, i: nat, b: bool, w: nat)
    requires x < Pow2(w) && i < w
    ensures WithBit(x, i, b) < Pow2(w)
    decreases i
  {
    var h := Pow2(w - 1);
    assert Pow2(w) == 2 * h;
    assert x / 2 < h;
    if i > 0 {
      WithBitBound(x / 2, i - 1, b, w - 1);
    }
  }

  /** JavaScript's ToUint32: the value modulo 2^32 (what `writeUInt32BE` stores
      for a value that does not fit, and the two's complement of a negative one). */
  function ToUInt32(v: int): (r: nat)
    ensures r < TWO_32
    ensures (r - v) % TWO_32 == 0
  {
    v % TWO_32
  }

  /** The byte `writeUInt8` stores for v: v modulo 2^8, the low byte of ToUInt32(v). */
  function ByteOf(v: int): (r: Byte)
    ensures (r - v) % 256 == 0 && r == ToUInt32(v) % 256
    ensures 0 <= v < 256 ==> r == v
  {
    v % 256
  }

  /** JavaScript's ToInt32: the 32-bit two's complement reading, which the
      bitwise operators return. */
  function ToInt32(v: int): (r: int)
    ensures -0x8000_0000 <= r < 0x8000_0000
    ensures ToUInt32(r) == ToUInt32(v)
  {
    var u := ToUInt32(v);
    if u >= 0x8000_0000 then u - TWO_32 else u
  }

  /** The 4 bytes `writeUInt32BE` writes, most significant first. */
  function UInt32ToBE(v: nat): (b: seq<Byte>)
    requires v < TWO_32
    ensures |b| == 4
  {
    [v / 0x100_0000, (v / 0x1_0000) % 0x100, (v / 0x100) % 0x100, v % 0x100]
  }

  /** The number `readUInt32BE` reads from 4 bytes. */
  function BEToUInt32(b: seq<Byte>): (v: nat)
    requires |b| == 4
    ensures v < TWO_32
  {
    (b[0] as int) * 0x100_0000 + (b[1] as int) * 0x1_0000 + (b[2] as int) * 0x100 + b[3] as int
  }

  /** Reading back what was written gives the word. */
  lemma BERoundTrip(v: nat)
    requires v < TWO_32
    ensures BEToUInt32(UInt32ToBE(v)) == v
  {
    var b := UInt32ToBE(v);
    assert v == (v / 0x100) * 0x100 + v % 0x100;
    assert v / 0x100 == (v / 0x1_0000) * 0x100 + (v / 0x100) % 0x100;
    assert v / 0x1_0000 == (v / 0x100_0000) * 0x100 + (v / 0x1_0000) % 0x100;
  }

  /** Writing what was read gives the bytes back. */
  lemma BERoundTripBytes(b: seq<Byte>)
    requires |b| == 4
    ensures UInt32ToBE(BEToUInt32(b)) == b
  {
    var v := BEToUInt32(b);
    assert v / 0x100 == (b[0] as int) * 0x1_0000 + (b[1] as int) * 0x100 + b[2] as int;
    assert v / 0x1_0000 == (b[0] as int) * 0x100 + b[1] as int;
    assert v / 0x100_0000 == b[0];
  }
}
