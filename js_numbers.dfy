/**
 * Number <-> text conversions of JavaScript as the score screens use them:
 * `parseInt(s)` with no radix, `String(n)` of an integer, and
 * `padStart(2, '0')` of a clock component. Numbers are unbounded integers.
 */
module JsNumbers {
  import opened Wrappers
  import JsText

  predicate IsDecimalDigit(c: char) {
    '0' <= c <= '9'
  }

  predicate AllDecimalDigits(s: string) {
    forall i :: 0 <= i < |s| ==> IsDecimalDigit(s[i])
  }

  /** The value of `c` as a digit of the given radix (10 or 16), if it is one. */
  function DigitValue(c: char, radix: nat): Option<nat> {
    if '0' <= c <= '9' then Some(c as int - '0' as int)
    else if radix == 16 && 'a' <= c <= 'f' then Some(c as int - 'a' as int + 10)
    else if radix == 16 && 'A' <= c <= 'F' then Some(c as int - 'A' as int + 10)
    else None
  }

  predicate IsDigit(c: char, radix: nat) {
    DigitValue(c, radix).Some?
  }

  predicate AllDigits(s: string, radix: nat) {
    forall i :: 0 <= i < |s| ==> IsDigit(s[i], radix)
  }

  /** Length of the longest prefix of `s` made of digits of `radix`. */
  function DigitRun(s: string, radix: nat): (n: nat)
    ensures n <= |s| && AllDigits(s[..n], radix)
    ensures n < |s| ==> !IsDigit(s[n], radix)
  {
    if s == [] || !IsDigit(s[0], radix) then 0
    else
      var n := 1 + DigitRun(s[1..], radix);
      assert forall i :: 1 <= i < n ==> s[..n][i] == s[1..][..n - 1][i - 1];
      n
  }

  /** The value of a string of digits read most significant first. */
  function DigitsValue(s: string, radix: nat): nat
    requires AllDigits(s, radix)
  {
    if s == [] then 0
    else DigitsValue(s[..|s| - 1], radix) * radix + DigitValue(s[|s| - 1], radix).value
  }

  function DigitChar(d: nat): (c: char)
    requires d < 10
    ensures IsDecimalDigit(c) && DigitValue(c, 10) == Some(d)
  {
    "0123456789"[d]
  }

  /** `String(n)` for a non-negative integer: its decimal digits, no leading zero. */
  function NatToString(n: nat): string {
    if n < 10 then [DigitChar(n)] else NatToString(n / 10) + [DigitChar(n % 10)]
  }

  /** A canonical decimal numeral: at least one digit, and no leading zero
      unless the numeral is "0". */
  predicate Canonical(s: string) {
    |s| >= 1 && AllDecimalDigits(s) && AllDigits(s, 10) && (|s| > 1 ==> s[0] != '0')
  }

  /** `String(n)` for any integer: a minus sign before the digits of |n|
      when n < 0. It is canonical, and `parseInt` reads it back as n. */
  function IntToString(n: int): (r: string)
    ensures |r| > 0 && ParseInt(r) == Some(n)
    ensures n >= 0 ==> Canonical(r) && DigitsValue(r, 10) == n
    ensures n < 0 ==> r[0] == '-' && Canonical(r[1..]) && DigitsValue(r[1..], 10) == -n
  {
    var m := if n < 0 then -n else n;
    NatToStringDigits(m);
    ParseMagnitudeOfNat(m);
    var d := NatToString(m);
    if n < 0 then
      ParseIntOfSignedDigits('-', d);
      "-" + d
    else
      ParseIntOfDigits(d);
      d
  }

  /** `parseInt(s)` with the radix left out: leading whitespace is skipped,
      then an optional sign, then an optional `0x`/`0X` prefix that selects
      radix 16 (radix 10 otherwise); the longest run of digits that follows
      is the value, and no digit at all gives `NaN`, here `None`. */
  function ParseInt(s: string): (r: Option<int>)
    ensures (forall k :: 0 <= k < |s| ==> !IsDecimalDigit(s[k])) ==> r.None?
  {
    var t := JsText.TrimStart(s);
    assert forall k :: 0 <= k < |t| ==> t[k] == s[|s| - |t| + k];
    ParseSigned(t)
  }

  /** The part of `parseInt` after the whitespace: the sign. */
  function ParseSigned(t: string): (r: Option<int>)
    ensures (forall k :: 0 <= k < |t| ==> !IsDecimalDigit(t[k])) ==> r.None?
  {
    if t != [] && t[0] == '-' then
      match ParseMagnitude(t[1..])
      case None => None
      case Some(m) => Some(-m)
    else if t != [] && t[0] == '+' then ParseMagnitude(t[1..])
    else ParseMagnitude(t)
  }

  /** The part of `parseInt` after the sign: the radix prefix and the digits. */
  function ParseMagnitude(u: string): (r: Option<int>)
    ensures (forall k :: 0 <= k < |u| ==> !IsDecimalDigit(u[k])) ==> r.None?
  {
    var hex := |u| >= 2 && u[0] == '0' && (u[1] == 'x' || u[1] == 'X');
    var radix := if hex then 16 else 10;
    var v := if hex then u[2..] else u;
    var n := DigitRun(v, radix);
    if n == 0 then None else Some(DigitsValue(v[..n], radix))
  }

  /** The decimal rendering of n is a non-empty run of digits with no
      leading zero whose value is n. */
  lemma {:induction false} NatToStringDigits(n: nat)
    ensures var s := NatToString(n);
      |s| >= 1 && AllDecimalDigits(s) && AllDigits(s, 10) &&
      (|s| > 1 ==> s[0] != '0') && DigitsValue(s, 10) == n
  {
    var s := NatToString(n);
    if n >= 10 {
      NatToStringDigits(n / 10);
      var p := NatToString(n / 10);
      assert s[..|s| - 1] == p;
      assert s[0] == p[0];
    }
  }

  /** A canonical numeral is the decimal rendering of its value, so two
      canonical numerals with the same value are the same text. */
  lemma {:induction false} CanonicalIsNatToString(s: string)
    requires Canonical(s)
    ensures NatToString(DigitsValue(s, 10)) == s
  {
    var last := s[|s| - 1];
    var d := DigitValue(last, 10).value;
    assert DigitChar(d) == last;
    if |s| > 1 {
      var p := s[..|s| - 1];
      assert p[0] == s[0];
      assert Canonical(p);
      CanonicalIsNatToString(p);
      CanonicalPositive(p);
      var v := DigitsValue(s, 10);
      assert v == DigitsValue(p, 10) * 10 + d;
      assert v / 10 == DigitsValue(p, 10) && v % 10 == d;
      assert s == p + [last];
    }
  }

  /** A numeral of digits that does not start with '0' has a positive value. */
  lemma {:induction false} CanonicalPositive(s: string)
    requires |s| >= 1 && AllDigits(s, 10) && s[0] != '0'
    ensures DigitsValue(s, 10) >= 1
  {
    if |s| > 1 {
      var p := s[..|s| - 1];
      assert p[0] == s[0];
      CanonicalPositive(p);
    }
  }

  /** `String(n)` is the only canonical numeral whose value is n. */
  lemma IntToStringIsUnique(n: nat, s: string)
    requires Canonical(s) && DigitsValue(s, 10) == n
    ensures s == IntToString(n)
  {
    CanonicalIsNatToString(s);
  }

  /** The digits of a non-negative integer read back as that integer. */
  lemma ParseMagnitudeOfNat(n: nat)
    ensures ParseMagnitude(NatToString(n)) == Some(n)
  {
    var d := NatToString(n);
    NatToStringDigits(n);
    if |d| >= 2 {
      assert IsDecimalDigit(d[1]);
    }
    assert d[..|d|] == d;
    assert DigitRun(d, 10) == |d|;
  }

  /** Text that starts with a digit is read by its digits alone. */
  lemma ParseIntOfDigits(d: string)
    requires d != [] && IsDecimalDigit(d[0])
    ensures ParseInt(d) == ParseMagnitude(d)
  {
    assert !JsText.IsWhitespace(d[0]) && d[0] != '-' && d[0] != '+';
    JsText.TrimStartKeeps(d);
  }

  /** A sign followed by a digit is read as the sign applied to the digits. */
  lemma ParseIntOfSignedDigits(sign: char, d: string)
    requires sign == '-' || sign == '+'
    requires d != [] && IsDecimalDigit(d[0])
    ensures ParseInt([sign] + d) ==
      if sign == '+' then ParseMagnitude(d)
      else match ParseMagnitude(d)
        case None => None
        case Some(m) => Some(-m)
  {
    var s := [sign] + d;
    assert s[0] == sign && s[1..] == d;
    JsText.TrimStartKeeps(s);
  }

  /** `parseInt` also accepts an explicit plus sign. */
  lemma ParseIntOfPlusSigned(n: nat)
    ensures ParseInt("+" + NatToString(n)) == Some(n)
  {
    NatToStringDigits(n);
    ParseMagnitudeOfNat(n);
    ParseIntOfSignedDigits('+', NatToString(n));
  }

  /** `n.toString().padStart(2, '0')`: a single digit gets a leading '0',
      and a number of two or more digits is its canonical numeral. */
  function Pad2(n: nat): (r: string)
    ensures |r| >= 2 && AllDecimalDigits(r) && AllDigits(r, 10) && DigitsValue(r, 10) == n
    ensures n < 10 ==> r[0] == '0' && |r| == 2
    ensures n >= 10 ==> Canonical(r)
  {
    var s := NatToString(n);
    NatToStringDigits(n);
    if |s| < 2 then
      var r := "0" + s;
      assert r[..1] == "0" && r[..1][..0] == [];
      r
    else s
  }

  /** A clock component below 100 pads to exactly two decimal digits that
      read back as the component. */
  lemma Pad2Digits(n: nat)
    requires n < 100
    ensures var r := Pad2(n);
      |r| == 2 && AllDecimalDigits(r) && AllDigits(r, 10) && DigitsValue(r, 10) == n
  {
    if n >= 10 {
      assert NatToString(n) == NatToString(n / 10) + [DigitChar(n % 10)];
    }
  }
}
