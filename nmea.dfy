/** The helpers of the NMEA 0183 GPS driver (drivers/sensors/nmea_gps.js): the
    checksum test a sentence `$<body>*<hh>` must pass before it is read, the names
    of the fix qualities, and the degree-minute-second text of a latitude or
    longitude. */
module Nmea {
  import opened Options
  import opened Bytes
  import opened Text

  /** `a ^ b` on non-negative numbers, bit by bit. */
  function Xor(a: nat, b: nat): nat
    decreases a + b
  {
    if a == 0 && b == 0 then 0 else 2 * Xor(a / 2, b / 2) + (a % 2 + b % 2) % 2
  }

  /** Two numbers of w bits have an exclusive or of w bits. */
  lemma {:induction false} XorBound(a: nat, b: nat, w: nat)
    requires a < Pow2(w) && b < Pow2(w)
    ensures Xor(a, b) < Pow2(w)
    decreases a + b
  {
    if !(a == 0 && b == 0) {
      assert w > 0;
      XorBound(a / 2, b / 2, w - 1);
    }
  }

  /** The exclusive or of the character codes of s. */
  function XorAll(s: string): nat {
    if s == [] then 0 else Xor(XorAll(s[..|s| - 1]), s[|s| - 1] as nat)
  }

  predicate Ascii(s: string) {
    forall i :: 0 <= i < |s| ==> s[i] as int < 128
  }

  lemma {:induction false} XorAllAscii(s: string)
    requires Ascii(s)
    ensures XorAll(s) < 128
  {
    assert Pow2(7) == 128;
    if s != [] {
      XorAllAscii(s[..|s| - 1]);
      XorBound(XorAll(s[..|s| - 1]), s[|s| - 1] as nat, 7);
    }
  }

  /** A line is read when it starts with '$', has a '*', and the hexadecimal number
      after the first '*' is the exclusive or of the codes between the two; with
      nothing between them the sum stays undefined and matches no number. */
  predicate Accepted(line: string) {
    && |line| > 0 && line[0] == '$'
    && IndexOf(line, "*", 0).Some?
    && var pos := IndexOf(line, "*", 0).value;
       pos > 1 && ParseInt(line[pos + 1..], 16) == Some(XorAll(line[1..pos]))
  }

  /** The loop of `_handleLine` over the characters between '$' and '*': the sum
      starts undefined, and `undefined ^ c` is c. */
  method XorBetween(line: string, pos: nat) returns (sum: Option<nat>)
    requires 1 <= pos <= |line|
    ensures sum == if pos == 1 then None else Some(XorAll(line[1..pos]))
  {
    sum := None;
    var i := 1;
    while i < pos
      invariant 1 <= i <= pos
      invariant sum == if i == 1 then None else Some(XorAll(line[1..i]))
    {
      assert line[1..i + 1][..i - 1] == line[1..i];
      sum := Some(Xor(if sum.None? then 0 else sum.value, line[i] as nat));
      i := i + 1;
    }
  }

  /** The checksum gate of `_handleLine`. */
  method CheckLine(line: string) returns (ok: bool)
    ensures ok == Accepted(line)
  {
    if |line| == 0 || line[0] != '$' {
      return false;
    }
    var found := IndexOf(line, "*", 0);
    if found.None? {
      return false;
    }
    var pos := found.value;
    var sum := XorBetween(line, pos);
    if sum.None? {
      // `undefined != parseInt(...)`: no checksum matches
      return false;
    }
    AcceptedAt(line, pos);
    ok := ParseInt(line[pos + 1..], 16) == Some(sum.value);
  }

  /** Past the '$' and the first '*', with something in between, only the
      checksum decides. */
  lemma AcceptedAt(line: string, pos: nat)
    requires |line| > 0 && line[0] == '$' && IndexOf(line, "*", 0) == Some(pos) && pos > 1
    ensures Accepted(line) == (ParseInt(line[pos + 1..], 16) == Some(XorAll(line[1..pos])))
  {
  }

  function HexDigit(d: nat): (c: char)
    requires d < 16
    ensures DigitValue(c, 16) == Some(d) && !IsSpace(c) && c != 'x' && c != 'X'
  {
    if d < 10 then ('0' as int + d) as char else ('A' as int + d - 10) as char
  }

  /** The two hexadecimal digits of a checksum byte. */
  function HexByte(y: nat): string
    requires y < 256
  {
    [HexDigit(y / 16), HexDigit(y % 16)]
  }

  lemma ParseHexByte(y: nat)
    requires y < 256
    ensures ParseInt(HexByte(y), 16) == Some(y)
  {
    var s := HexByte(y);
    assert s[..2] == s && s[..1] == [s[0]] && s[..1][..0] == [];
    ParseIntHexRun(s, 2);
    assert DigitsValue(s[..1], 16) == y / 16;
  }

  /** A sentence carrying a checksum is read exactly when the checksum is that of
      its body. */
  lemma SentenceAccepted(body: string, y: nat)
    requires body != [] && Ascii(body) && '*' !in body && y < 256
    ensures Accepted("$" + body + "*" + HexByte(y)) <==> y == XorAll(body)
  {
    var line := "$" + body + "*" + HexByte(y);
    var pos := |body| + 1;
    assert OccursAt(line, "*", pos);
    forall j | 0 <= j < pos ensures !OccursAt(line, "*", j) {
      assert line[j..j + 1] == [line[j]];
      if j > 0 {
        assert line[j] == body[j - 1];
      }
    }
    assert IndexOf(line, "*", 0) == Some(pos);
    assert line[1..pos] == body;
    assert line[pos + 1..] == HexByte(y);
    ParseHexByte(y);
  }

  /** A sentence with nothing between '$' and '*' is never read. */
  lemma EmptyBodyRejected(rest: string)
    ensures !Accepted("$*" + rest)
  {
    var line := "$*" + rest;
    assert line[0..1] == "$";
    assert OccursAt(line, "*", 1) && !OccursAt(line, "*", 0);
  }

  /** `quality2txt(quality)`. */
  function QualityText(quality: int): string {
    match quality
    case 0 => "no fix"
    case 1 => "GPS"
    case 2 => "Differential GPS"
    case 3 => "Real-Time Kinematic"
    case 4 => "Real-Time Kinematic"
    case _ => "unknown"
  }

  /** Every fix quality from 0 to 4 has a name of its own, except that 3 and 4
      (fixed and floating RTK) share one; any other is "unknown". */
  lemma QualityTextSpec(q: int, r: int)
    ensures QualityText(q) == "unknown" <==> !(0 <= q <= 4)
    ensures 0 <= q <= 4 && 0 <= r <= 4 && q != r ==>
      (QualityText(q) == QualityText(r) <==> {q, r} == {3, 4})
  {
  }

  /** An angle in whole degrees, minutes, seconds and tenths of a second. */
  datatype Dms = Dms(deg: nat, min: nat, sec: nat, tenth: nat)

  /** The angle, rounded to a tenth of a second, in tenths: `(val * 36000 + 0.5) | 0`. */
  function Tenths(v: real): (t: nat)
    requires v >= 0.0
    ensures t as real <= v * 36000.0 + 0.5 < t as real + 1.0
  {
    (v * 36000.0 + 0.5).Floor
  }

  /** The splitting of `lat2txt`: a tenth is 1, a second 10, a minute 600 and a
      degree 36000. */
  function Split(t: nat): (d: Dms)
    ensures d.deg * 36000 + d.min * 600 + d.sec * 10 + d.tenth == t
    ensures d.min < 60 && d.sec < 60 && d.tenth < 10
  {
    var deg := t / 36000;
    var r := t - deg * 36000;
    var min := r / 600;
    var r2 := r - min * 600;
    var sec := r2 / 10;
    Dms(deg, min, sec, r2 - sec * 10)
  }

  /** Every angle is split in one way only. */
  lemma SplitUnique(t: nat, d: Dms)
    requires d.deg * 36000 + d.min * 600 + d.sec * 10 + d.tenth == t
    requires d.min < 60 && d.sec < 60 && d.tenth < 10
    ensures Split(t) == d
  {
    var e := Split(t);
    assert d.min * 600 + d.sec * 10 + d.tenth < 36000;
    assert e.min * 600 + e.sec * 10 + e.tenth < 36000;
    assert d.deg == e.deg;
    assert d.sec * 10 + d.tenth < 600 && e.sec * 10 + e.tenth < 600;
    assert d.min == e.min;
    assert d.sec == e.sec;
  }

  /** The seconds and tenths after the minutes: nothing if both are zero, else the
      seconds, then the tenths after a point unless zero, then '"'. */
  function SecondsText(sec: nat, tenth: nat): string {
    if sec == 0 && tenth == 0 then ""
    else NatToString(sec) + (if tenth == 0 then "" else "." + NatToString(tenth)) + "\""
  }

  /** The minutes and what follows: nothing if all three parts are zero. */
  function MinutesText(min: nat, sec: nat, tenth: nat): string {
    if min == 0 && sec == 0 && tenth == 0 then "" else NatToString(min) + "'" + SecondsText(sec, tenth)
  }

  /** The text of an angle: the degrees, a degree sign, and the minutes if anything
      smaller is not zero, the seconds if seconds or tenths are not zero, the tenths
      if they are not zero. */
  function DmsText(d: Dms): string {
    NatToString(d.deg) + "°" + MinutesText(d.min, d.sec, d.tenth)
  }

  /** The marks in the text of an angle: a degree sign always, a minute sign when
      anything below the degrees is not zero, a second sign when seconds or tenths
      are not zero, a point when the tenths are not zero. */
  lemma DmsTextMarks(d: Dms)
    ensures '°' in DmsText(d)
    ensures '\'' in DmsText(d) <==> d.min != 0 || d.sec != 0 || d.tenth != 0
    ensures '"' in DmsText(d) <==> d.sec != 0 || d.tenth != 0
    ensures '.' in DmsText(d) <==> d.tenth != 0
  {
    NatToStringDigits(d.deg);
    NatToStringDigits(d.min);
    NatToStringDigits(d.sec);
    NatToStringDigits(d.tenth);
    var deg := NatToString(d.deg);
    assert DmsText(d)[|deg|] == '°';
    var m := MinutesText(d.min, d.sec, d.tenth);
    var sec := SecondsText(d.sec, d.tenth);
    assert '\'' in m <==> d.min != 0 || d.sec != 0 || d.tenth != 0;
    assert '"' in sec <==> d.sec != 0 || d.tenth != 0;
    assert '.' in sec <==> d.tenth != 0;
  }

  predicate Digits(s: string) {
    forall i :: 0 <= i < |s| ==> IsDigit(s[i])
  }

  /** A run of digits ends where a non-digit starts: the split is unique. */
  lemma DigitsSplit(x: string, r: string, y: string, t: string)
    requires Digits(x) && Digits(y)
    requires r != [] && t != [] && !IsDigit(r[0]) && !IsDigit(t[0])
    requires x + r == y + t
    ensures x == y && r == t
  {
    var k := if |x| < |y| then |x| else |y|;
    assert (x + r)[k] == (y + t)[k];
    assert |x| == |y|;
    assert x == (x + r)[..|x|] && y == (y + t)[..|y|];
    assert r == (x + r)[|x|..] && t == (y + t)[|y|..];
  }

  lemma DecimalSplit(m: nat, r: string, n: nat, t: string)
    requires r != [] && t != [] && !IsDigit(r[0]) && !IsDigit(t[0])
    requires NatToString(m) + r == NatToString(n) + t
    ensures m == n && r == t
  {
    NatToStringDigits(m);
    NatToStringDigits(n);
    DigitsSplit(NatToString(m), r, NatToString(n), t);
    NatToStringInjective(m, n);
  }

  lemma SecondsTextInjective(s1: nat, t1: nat, s2: nat, t2: nat)
    requires SecondsText(s1, t1) == SecondsText(s2, t2)
    ensures s1 == s2 && t1 == t2
  {
    var x := SecondsText(s1, t1);
    if x != [] {
      var r1 := (if t1 == 0 then "" else "." + NatToString(t1)) + "\"";
      var r2 := (if t2 == 0 then "" else "." + NatToString(t2)) + "\"";
      assert x == NatToString(s1) + r1 && x == NatToString(s2) + r2;
      DecimalSplit(s1, r1, s2, r2);
      if t1 != 0 && t2 != 0 {
        assert r1[1..|r1| - 1] == NatToString(t1) && r2[1..|r2| - 1] == NatToString(t2);
        NatToStringInjective(t1, t2);
      }
    }
  }

  lemma MinutesTextInjective(m1: nat, s1: nat, t1: nat, m2: nat, s2: nat, t2: nat)
    requires MinutesText(m1, s1, t1) == MinutesText(m2, s2, t2)
    ensures m1 == m2 && s1 == s2 && t1 == t2
  {
    var x := MinutesText(m1, s1, t1);
    if x != [] {
      var r1 := "'" + SecondsText(s1, t1);
      var r2 := "'" + SecondsText(s2, t2);
      assert x == NatToString(m1) + r1 && x == NatToString(m2) + r2;
      DecimalSplit(m1, r1, m2, r2);
      assert r1[1..] == SecondsText(s1, t1) && r2[1..] == SecondsText(s2, t2);
      SecondsTextInjective(s1, t1, s2, t2);
    }
  }

  /** A number, a mark that is not a digit, and the rest: the split is unique. */
  lemma MarkSplit(m: nat, c: char, x: string, n: nat, y: string)
    requires !IsDigit(c)
    requires NatToString(m) + [c] + x == NatToString(n) + [c] + y
    ensures m == n && x == y
  {
    assert NatToString(m) + [c] + x == NatToString(m) + ([c] + x);
    assert NatToString(n) + [c] + y == NatToString(n) + ([c] + y);
    DecimalSplit(m, [c] + x, n, [c] + y);
    assert ([c] + x)[1..] == x && ([c] + y)[1..] == y;
  }

  /** The text of an angle tells its parts: different splits read differently. */
  lemma DmsTextInjective(a: Dms, b: Dms)
    requires DmsText(a) == DmsText(b)
    ensures a == b
  {
    MarkSplit(a.deg, '°', MinutesText(a.min, a.sec, a.tenth), b.deg, MinutesText(b.min, b.sec, b.tenth));
    MinutesTextInjective(a.min, a.sec, a.tenth, b.min, b.sec, b.tenth);
  }

  /** The magnitude of an angle. */
  function Magnitude(v: real): (m: real)
    ensures m >= 0.0 && (m == v || m == -v)
  {
    if v < 0.0 then -v else v
  }

  /** A latitude (`lat2txt`, units N and S) or longitude (`lon2txt`, E and W): "-"
      for none; else the text of the magnitude and then the unit of its sign. */
  function AngleText(val: Option<real>, positive: char, negative: char): (s: string)
    requires positive != negative
    ensures val.None? ==> s == "-"
    ensures val.Some? ==>
      && |s| > 0 && s[..|s| - 1] == DmsText(Split(Tenths(Magnitude(val.value))))
      && (s[|s| - 1] == negative <==> val.value < 0.0)
      && (s[|s| - 1] == positive <==> val.value >= 0.0)
  {
    match val
    case None => "-"
    case Some(v) =>
      var unit := if v < 0.0 then negative else positive;
      var text := DmsText(Split(Tenths(Magnitude(v))));
      assert (text + [unit])[..|text|] == text;
      text + [unit]
  }

  function Lat2Txt(val: Option<real>): (s: string)
    ensures val.None? ==> s == "-"
    ensures val.Some? ==> |s| > 0 && (s[|s| - 1] == 'S' <==> val.value < 0.0) && (s[|s| - 1] == 'N' <==> val.value >= 0.0)
  {
    AngleText(val, 'N', 'S')
  }

  function Lon2Txt(val: Option<real>): (s: string)
    ensures val.None? ==> s == "-"
    ensures val.Some? ==> |s| > 0 && (s[|s| - 1] == 'W' <==> val.value < 0.0) && (s[|s| - 1] == 'E' <==> val.value >= 0.0)
  {
    AngleText(val, 'E', 'W')
  }
}
