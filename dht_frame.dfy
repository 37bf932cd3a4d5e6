/** The 40-bit answer of a DHT11/DHT22 sensor, shared by both decoders: 16 bits of
    humidity, 16 bits of temperature and an 8-bit check byte, most significant bit
    first; both readings in sign-magnitude form. */
module DhtFrame {
  import opened Options
  import opened Bytes

  /** The number the bits stand for, most significant first. */
  function BitsValue(bs: seq<bool>): (v: nat)
    ensures v < Pow2(|bs|)
  {
    if bs == [] then 0
    else 2 * BitsValue(bs[..|bs| - 1]) + (if bs[|bs| - 1] then 1 else 0)
  }

  /** The w low bits of v, most significant first. */
  function ToBits(v: nat, w: nat): (bs: seq<bool>)
    ensures |bs| == w
  {
    if w == 0 then [] else ToBits(v / 2, w - 1) + [v % 2 == 1]
  }

  lemma {:induction false} ToBitsValue(v: nat, w: nat)
    requires v < Pow2(w)
    ensures BitsValue(ToBits(v, w)) == v
  {
    if w > 0 {
      ToBitsValue(v / 2, w - 1);
      var bs := ToBits(v, w);
      assert bs[..|bs| - 1] == ToBits(v / 2, w - 1);
    }
  }

  /** The three accumulators, `_hum`, `_temp` and `_check`. */
  datatype Frame = Frame(hum: nat, temp: nat, check: nat)

  /** Shifting bit number n (counted from 1) into its accumulator, as
      `x = (x << 1) | bit`: bits 1-16 go to hum, 17-32 to temp, the rest to check. */
  function Shift(f: Frame, n: nat, b: bool): Frame {
    var bit := if b then 1 else 0;
    if n <= 16 then f.(hum := 2 * f.hum + bit)
    else if n <= 32 then f.(temp := 2 * f.temp + bit)
    else f.(check := 2 * f.check + bit)
  }

  /** The accumulators after the bits were shifted in, one per edge. */
  function Accumulate(bits: seq<bool>): Frame {
    if bits == [] then Frame(0, 0, 0)
    else Shift(Accumulate(bits[..|bits| - 1]), |bits|, bits[|bits| - 1])
  }

  /** While the first 16 bits come in, hum holds their value. */
  lemma {:induction false} AccumulateHum(bits: seq<bool>)
    requires |bits| <= 40
    ensures Accumulate(bits).hum == BitsValue(bits[..if |bits| < 16 then |bits| else 16])
  {
    var n := |bits|;
    if n > 0 {
      var p := bits[..n - 1];
      AccumulateHum(p);
      assert Accumulate(bits) == Shift(Accumulate(p), n, bits[n - 1]);
      if n <= 16 {
        assert bits[..n] == bits && p[..n - 1] == p;
      } else {
        assert bits[..16] == p[..16];
      }
    }
  }

  /** Bits 17-32 make up temp. */
  lemma {:induction false} AccumulateTemp(bits: seq<bool>)
    requires |bits| <= 40
    ensures Accumulate(bits).temp == if |bits| <= 16 then 0
      else BitsValue(bits[16..if |bits| < 32 then |bits| else 32])
  {
    var n := |bits|;
    if n > 0 {
      var p := bits[..n - 1];
      AccumulateTemp(p);
      assert Accumulate(bits) == Shift(Accumulate(p), n, bits[n - 1]);
      if 16 < n <= 32 {
        BitsValueStep(bits, 16, n);
        assert p[16..n - 1] == bits[16..n - 1];
      } else if n > 32 {
        assert bits[16..32] == p[16..32];
      }
    }
  }

  /** One more bit at the end of a slice doubles its value and adds the bit. */
  lemma BitsValueStep(bits: seq<bool>, a: nat, n: nat)
    requires a < n <= |bits|
    ensures BitsValue(bits[a..n]) == 2 * BitsValue(bits[a..n - 1]) + (if bits[n - 1] then 1 else 0)
  {
    var s := bits[a..n];
    assert s[..|s| - 1] == bits[a..n - 1];
  }

  /** Bits 33-40 make up check. */
  lemma {:induction false} AccumulateCheck(bits: seq<bool>)
    requires |bits| <= 40
    ensures Accumulate(bits).check == if |bits| <= 32 then 0 else BitsValue(bits[32..])
  {
    var n := |bits|;
    if n > 0 {
      var p := bits[..n - 1];
      AccumulateCheck(p);
      if n > 32 {
        assert bits[32..][..n - 33] == p[32..];
        if n == 33 {
          assert p[32..] == [];
        }
      }
    }
  }

  /** What the callback receives: an error message, or temperature and humidity
      in sensor units (the scaling to degrees and percent is not modelled). */
  datatype Reading = Failed(message: string) | Measured(temp: int, hum: int)

  const WRONG_SIGNAL := "wrong signal"
  const WRONG_CHECKSUM := "wrong checksum"
  const NOT_CONNECTED := "not connected"
  const ALREADY_MEASURING := "already measuring"

  /** A 16-bit sign-magnitude word: bit 15 is the sign, bits 0-14 the magnitude. */
  function SignMagnitude(v: nat): int {
    if (v / 0x8000) % 2 == 1 then -(v % 0x8000) else v
  }

  /** The raw word a sensor sends for a reading: the inverse of SignMagnitude. */
  function SignMagnitudeWord(x: int): (v: nat)
    requires -0x8000 < x < 0x8000
    ensures v < 0x1_0000
  {
    if x < 0 then 0x8000 - x else x
  }

  lemma SignMagnitudeRoundTrip(x: int)
    requires -0x8000 < x < 0x8000
    ensures SignMagnitude(SignMagnitudeWord(x)) == x
  {
  }

  /** The end of a measurement once the last bit is in: the check byte must be
      `(hum >> 8) + hum + (temp >> 8) + temp` modulo 256, then both words are
      read in sign-magnitude form. */
  function Finish(f: Frame): Reading {
    if f.check % 0x100 != (f.hum / 0x100 + f.hum + f.temp / 0x100 + f.temp) % 0x100
    then Failed(WRONG_CHECKSUM)
    else Measured(SignMagnitude(f.temp), SignMagnitude(f.hum))
  }

  /** The reading a complete 40-bit answer yields. */
  function Decode(bits: seq<bool>): Reading
    requires |bits| == 40
  {
    Finish(Accumulate(bits))
  }

  /** The check byte of a humidity and a temperature word: the low byte of the sum
      of their four bytes. */
  function CheckByte(h: nat, t: nat): (c: nat)
    ensures c < 0x100
  {
    (h / 0x100 + h % 0x100 + t / 0x100 + t % 0x100) % 0x100
  }

  /** The accumulators' checksum test is the byte-sum rule of the sensors. */
  lemma ChecksumIsByteSum(h: nat, t: nat)
    ensures (h / 0x100 + h + t / 0x100 + t) % 0x100 == CheckByte(h, t)
  {
    var hs := h / 0x100 + t / 0x100;
    assert h == 0x100 * (h / 0x100) + h % 0x100;
    assert t == 0x100 * (t / 0x100) + t % 0x100;
    assert h / 0x100 + h + t / 0x100 + t
        == 0x100 * (h / 0x100 + t / 0x100) + (h / 0x100 + h % 0x100 + t / 0x100 + t % 0x100);
  }

  /** A 40-bit answer, byte by byte: it is accepted exactly when its last byte is the
      byte sum of the first four, and then yields the two sign-magnitude words. */
  lemma DecodeSpec(bits: seq<bool>)
    requires |bits| == 40
    ensures var h := BitsValue(bits[..16]);
      var t := BitsValue(bits[16..32]);
      var c := BitsValue(bits[32..]);
      && c < 0x100
      && Decode(bits) == if c != CheckByte(h, t) then Failed(WRONG_CHECKSUM)
                         else Measured(SignMagnitude(t), SignMagnitude(h))
  {
    AccumulateHum(bits);
    AccumulateTemp(bits);
    AccumulateCheck(bits);
    var h := BitsValue(bits[..16]);
    var t := BitsValue(bits[16..32]);
    var c := BitsValue(bits[32..]);
    assert Accumulate(bits) == Frame(h, t, c);
    assert Pow2(8) == 0x100;
    assert c % 0x100 == c;
    ChecksumIsByteSum(h, t);
  }

  /** The 40 bits a sensor sends for a temperature and a humidity. */
  function Encode(temp: int, hum: int): (bits: seq<bool>)
    requires -0x8000 < temp < 0x8000 && -0x8000 < hum < 0x8000
    ensures |bits| == 40
  {
    var h := SignMagnitudeWord(hum);
    var t := SignMagnitudeWord(temp);
    ToBits(h, 16) + ToBits(t, 16) + ToBits(CheckByte(h, t), 8)
  }

  /** Every reading a sensor can send is decoded as sent. */
  lemma EncodeDecode(temp: int, hum: int)
    requires -0x8000 < temp < 0x8000 && -0x8000 < hum < 0x8000
    ensures Decode(Encode(temp, hum)) == Measured(temp, hum)
  {
    var h := SignMagnitudeWord(hum);
    var t := SignMagnitudeWord(temp);
    var bits := Encode(temp, hum);
    assert Pow2(16) == 0x1_0000 && Pow2(8) == 0x100;
    assert bits[..16] == ToBits(h, 16);
    assert bits[16..32] == ToBits(t, 16);
    assert bits[32..] == ToBits(CheckByte(h, t), 8);
    ToBitsValue(h, 16);
    ToBitsValue(t, 16);
    ToBitsValue(CheckByte(h, t), 8);
    DecodeSpec(bits);
    SignMagnitudeRoundTrip(temp);
    SignMagnitudeRoundTrip(hum);
  }

  /** What a finished measurement hands back: the callback to call, with what, and
      the delay after which a periodic measurement starts again (none if not
      periodic). */
  datatype Completion = Completion(callback: nat, reading: Reading, again: Option<int>)
}
