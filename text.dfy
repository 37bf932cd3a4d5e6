/** The string operations of JavaScript the drivers rely on, on strings of
    characters: decimal rendering of a non-negative integer (`'' + n`), `indexOf`, `lastIndexOf`,
    and `parseInt` with radix 10, 16 or none. */
module Text {
  import opened Options

  predicate IsDigit(c: char) {
    '0' <= c <= '9'
  }

  /** The value of c as a digit in base radix (2 to 36), if it is one. */
  function DigitValue(c: char, radix: nat): (d: Option<nat>)
    ensures d.Some? ==> d.value < radix
    ensures IsDigit(c) && c as int - '0' as int < radix ==> d == Some(c as int - '0' as int)
  {
    var v :=
      if IsDigit(c) then c as int - '0' as int
      else if 'a' <= c <= 'z' then c as int - 'a' as int + 10
      else if 'A' <= c <= 'Z' then c as int - 'A' as int + 10
      else radix;
    if v < radix then Some(v) else None
  }

  predicate AllDigits(s: string, radix: nat) {
    forall i :: 0 <= i < |s| ==> DigitValue(s[i], radix).Some?
  }

  /** The number a string of digits stands for in base radix. */
  function DigitsValue(s: string, radix: nat): nat
    requires AllDigits(s, radix)
  {
    if s == [] then 0
    else DigitsValue(s[..|s| - 1], radix) * radix + DigitValue(s[|s| - 1], radix).value
  }

  function DigitChar(d: nat): (c: char)
    requires d < 10
    ensures IsDigit(c) && c as int - '0' as int == d
  {
    ('0' as int + d) as char
  }

  /** The decimal digits of n: no sign, no leading zero (except for 0 itself). */
  function NatToString(n: nat): string
    decreases n
  {
    if n < 10 then [DigitChar(n)] else NatToString(n / 10) + [DigitChar(n % 10)]
  }

  /** NatToString writes decimal digits only, without a leading zero, and they read
      back as n. */
  lemma {:induction false} NatToStringDigits(n: nat)
    ensures var s := NatToString(n);
      && 0 < |s| && (forall i :: 0 <= i < |s| ==> IsDigit(s[i])) && AllDigits(s, 10)
      && (|s| > 1 ==> s[0] != '0')
      && DigitsValue(s, 10) == n
    decreases n
  {
    if n >= 10 {
      NatToStringDigits(n / 10);
      var s := NatToString(n);
      var p := NatToString(n / 10);
      assert s == p + [DigitChar(n % 10)];
      assert s[..|s| - 1] == p;
      assert s[0] == p[0];
    }
  }

  /** Different numbers are written differently. */
  lemma NatToStringInjective(m: nat, n: nat)
    requires NatToString(m) == NatToString(n)
    ensures m == n
  {
    NatToStringDigits(m);
    NatToStringDigits(n);
  }

  predicate OccursAt(s: string, pat: string, j: nat) {
    j + |pat| <= |s| && s[j..j + |pat|] == pat
  }

  /** `s.indexOf(pat, from)`: where pat first occurs in s at or after from. */
  function IndexOf(s: string, pat: string, from: nat): (r: Option<nat>)
    ensures r.Some? ==> from <= r.value && OccursAt(s, pat, r.value)
    ensures r.Some? ==> forall j :: from <= j < r.value ==> !OccursAt(s, pat, j)
    ensures r.None? ==> forall j :: from <= j ==> !OccursAt(s, pat, j)
    decreases |s| - from
  {
    if from + |pat| > |s| then None
    else if OccursAt(s, pat, from) then Some(from)
    else IndexOf(s, pat, from + 1)
  }

  /** `s.lastIndexOf(c)`: where c last occurs in s. */
  function LastIndexOf(s: string, c: char): (r: Option<nat>)
    ensures r.Some? ==> r.value < |s| && s[r.value] == c
    ensures r.Some? ==> forall j :: r.value < j < |s| ==> s[j] != c
    ensures r.None? ==> forall j :: 0 <= j < |s| ==> s[j] != c
  {
    if s == [] then None
    else if s[|s| - 1] == c then Some(|s| - 1)
    else LastIndexOf(s[..|s| - 1], c)
  }

  predicate StartsWith(s: string, p: string) {
    |p| <= |s| && s[..|p|] == p
  }

  /** The white space `parseInt` skips (sections 7.2 and 7.3 of ECMA-262, 5.1
      edition): tab, vertical tab, form feed, the byte order mark, the line
      terminators and the space separators of Unicode category Zs. */
  predicate IsSpace(c: char) {
    || c == '\t' || c == '\U{000B}' || c == '\U{000C}' || c == '\U{FEFF}'
    || c == '\n' || c == '\r' || c == '\U{2028}' || c == '\U{2029}'
    || c == ' ' || c == '\U{00A0}' || c == '\U{1680}' || '\U{2000}' <= c <= '\U{200A}'
    || c == '\U{202F}' || c == '\U{205F}' || c == '\U{3000}'
  }

  function TrimStart(s: string): (t: string)
    ensures |t| <= |s| && t == s[|s| - |t|..]
    ensures t == [] || !IsSpace(t[0])
    ensures forall i :: 0 <= i < |s| - |t| ==> IsSpace(s[i])
  {
    if s != [] && IsSpace(s[0]) then TrimStart(s[1..]) else s
  }

  /** The length of the run of base-radix digits s starts with. */
  function DigitRun(s: string, radix: nat): (n: nat)
    ensures n <= |s| && AllDigits(s[..n], radix)
    ensures n < |s| ==> DigitValue(s[n], radix).None?
  {
    if s != [] && DigitValue(s[0], radix).Some? then
      var n := DigitRun(s[1..], radix) + 1;
      assert forall i :: 1 <= i < n ==> s[..n][i] == s[1..][..n - 1][i - 1];
      n
    else 0
  }

  predicate HasHexPrefix(s: string) {
    |s| >= 2 && s[0] == '0' && (s[1] == 'x' || s[1] == 'X')
  }

  /** `parseInt(s, radix)` for radix 10 or 16, or `parseInt(s)` for radix 0: after
      white space and a sign, the longest run of digits, read in the radix (16 for
      radix 0 when a `0x` prefix is there, else 10); None stands for NaN: no digit. */
  function ParseInt(s: string, radix: nat): Option<int>
    requires radix == 0 || radix == 10 || radix == 16
  {
    var t := TrimStart(s);
    var negative := t != [] && t[0] == '-';
    var u := if t != [] && (t[0] == '-' || t[0] == '+') then t[1..] else t;
    var base := if radix == 0 then (if HasHexPrefix(u) then 16 else 10) else radix;
    var v := if base == 16 && HasHexPrefix(u) then u[2..] else u;
    var n := DigitRun(v, base);
    if n == 0 then None
    else
      var m: int := DigitsValue(v[..n], base);
      Some(if negative then -m else m)
  }

  /** A run of digits followed by a non-digit is counted exactly. */
  lemma {:induction false} DigitRunOf(s: string, rest: string, radix: nat)
    requires AllDigits(s, radix)
    requires rest == [] || DigitValue(rest[0], radix).None?
    ensures DigitRun(s + rest, radix) == |s|
    decreases |s|
  {
    if s != [] {
      assert (s + rest)[1..] == s[1..] + rest;
      DigitRunOf(s[1..], rest, radix);
    } else {
      assert s + rest == rest;
    }
  }

  /** Without white space, sign or (without radix) hexadecimal prefix in front,
      parseInt in radix 10 reads the leading run of decimal digits. */
  lemma ParseIntPlain(t: string, radix: nat)
    requires radix == 0 || radix == 10
    requires t != [] && !IsSpace(t[0]) && t[0] != '-' && t[0] != '+'
    requires radix == 0 ==> !HasHexPrefix(t)
    ensures var n := DigitRun(t, 10);
      ParseInt(t, radix) == if n == 0 then None else Some(DigitsValue(t[..n], 10))
  {
    assert TrimStart(t) == t;
  }

  lemma DecimalDigits(s: string)
    requires forall i :: 0 <= i < |s| ==> IsDigit(s[i])
    ensures AllDigits(s, 10)
  {
    forall i | 0 <= i < |s| ensures DigitValue(s[i], 10).Some? {
      assert IsDigit(s[i]);
    }
  }

  /** parseInt reads a run of k decimal digits at the very start of t. */
  lemma ParseIntRun(t: string, radix: nat, k: nat)
    requires radix == 0 || radix == 10
    requires 0 < k <= |t| && AllDigits(t[..k], 10) && IsDigit(t[0])
    requires k < |t| ==> !IsDigit(t[k])
    requires radix == 0 ==> !HasHexPrefix(t)
    ensures ParseInt(t, radix) == Some(DigitsValue(t[..k], 10))
  {
    assert t[..k] + t[k..] == t;
    DigitRunOf(t[..k], t[k..], 10);
    ParseIntPlain(t, radix);
  }

  /** parseInt in radix 16 reads a run of k hexadecimal digits at the very start
      of t, when no sign, space or `0x` prefix comes first. */
  lemma ParseIntHexRun(t: string, k: nat)
    requires 0 < k <= |t| && AllDigits(t[..k], 16)
    requires !IsSpace(t[0]) && t[0] != '-' && t[0] != '+' && !HasHexPrefix(t)
    requires k < |t| ==> DigitValue(t[k], 16).None?
    ensures ParseInt(t, 16) == Some(DigitsValue(t[..k], 16))
  {
    assert TrimStart(t) == t;
    assert t[..k] + t[k..] == t;
    DigitRunOf(t[..k], t[k..], 16);
  }

  /** Decimal digits read back, with or without radix 10, whatever follows them,
      as long as it is not a digit (nor, after a lone 0 read without radix, the x
      of a hexadecimal prefix). */
  lemma ParseIntDigits(s: string, rest: string, radix: nat)
    requires radix == 0 || radix == 10
    requires s != [] && forall i :: 0 <= i < |s| ==> IsDigit(s[i])
    requires |s| > 1 ==> s[0] != '0'
    requires rest == [] || !IsDigit(rest[0])
    requires radix == 0 && rest != [] ==> rest[0] != 'x' && rest[0] != 'X'
    ensures AllDigits(s, 10) && ParseInt(s + rest, radix) == Some(DigitsValue(s, 10))
  {
    var t := s + rest;
    DecimalDigits(s);
    assert t[..|s|] == s && t[0] == s[0];
    assert |s| < |t| ==> t[|s|] == rest[0];
    assert |t| >= 2 ==> t[1] == if |s| > 1 then s[1] else rest[0];
    ParseIntRun(t, radix, |s|);
  }

  /** A number written in decimal reads back, under the same conditions. */
  lemma ParseIntNatToString(n: nat, rest: string, radix: nat)
    requires radix == 0 || radix == 10
    requires rest == [] || !IsDigit(rest[0])
    requires radix == 0 && rest != [] ==> rest[0] != 'x' && rest[0] != 'X'
    ensures ParseInt(NatToString(n) + rest, radix) == Some(n)
  {
    NatToStringDigits(n);
    ParseIntDigits(NatToString(n), rest, radix);
  }
}
