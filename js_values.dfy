/**
 * The small part of JavaScript's value semantics the core relies on:
 * JSON request bodies, string truthiness, and the global `parseInt`
 * (section 18.2.5 of ECMAScript 2015, called without a radix).
 */
module JsValues {
  import opened Wrappers

  /** A decoded JSON value. Numbers are modelled as integers only. */
  datatype Json =
    | JNull
    | JBool(b: bool)
    | JNum(n: int)
    | JStr(s: string)
    | JArr(items: seq<Json>)
    | JObj(fields: map<string, Json>)

  /** A JavaScript number as far as the core can produce one: an integer or NaN. */
  datatype JsNumber = Finite(value: int) | NaN

  /** `if (x)` on an optional string: only a present, non-empty string is truthy. */
  predicate Truthy(o: Option<string>) {
    o.Some? && o.value != ""
  }

  /** StrWhiteSpaceChar: WhiteSpace and LineTerminator code points. */
  predicate IsStrWhiteSpace(c: char) {
    || ('\t' <= c <= '\r')
    || c == ' ' || c == '\U{00A0}' || c == '\U{1680}'
    || ('\U{2000}' <= c <= '\U{200A}')
    || c == '\U{2028}' || c == '\U{2029}' || c == '\U{202F}' || c == '\U{205F}'
    || c == '\U{3000}' || c == '\U{FEFF}'
  }

  /** Leading white space removed, as parseInt's first step does. */
  function TrimStart(s: string): (r: string)
    ensures |r| <= |s| && r == s[|s| - |r|..]
    ensures forall i :: 0 <= i < |s| - |r| ==> IsStrWhiteSpace(s[i])
    ensures r != [] ==> !IsStrWhiteSpace(r[0])
  {
    if s != [] && IsStrWhiteSpace(s[0]) then
      var r := TrimStart(s[1..]);
      assert forall i :: 1 <= i < |s| - |r| ==> s[i] == s[1..][i - 1];
      r
    else s
  }

  predicate IsDigit(c: char, radix: nat) {
    if radix == 16 then ('0' <= c <= '9') || ('a' <= c <= 'f') || ('A' <= c <= 'F')
    else '0' <= c <= '9'
  }

  function DigitValue(c: char, radix: nat): (v: nat)
    requires IsDigit(c, radix)
    ensures v < (if radix == 16 then 16 else 10)
  {
    if '0' <= c <= '9' then (c as int - '0' as int)
    else if 'a' <= c <= 'f' then (c as int - 'a' as int) + 10
    else (c as int - 'A' as int) + 10
  }

  /** The longest prefix of `s` made of radix digits. */
  function DigitPrefix(s: string, radix: nat): (d: string)
    ensures |d| <= |s| && d == s[..|d|]
    ensures forall i :: 0 <= i < |d| ==> IsDigit(d[i], radix)
    ensures |d| < |s| ==> !IsDigit(s[|d|], radix)
  {
    if s != [] && IsDigit(s[0], radix) then [s[0]] + DigitPrefix(s[1..], radix) else []
  }

  /** The value of a digit string, most significant digit first. */
  function DigitsValue(d: string, radix: nat): nat
    requires forall i :: 0 <= i < |d| ==> IsDigit(d[i], radix)
  {
    if d == [] then 0
    else DigitsValue(d[..|d| - 1], radix) * (if radix == 16 then 16 else 10)
         + DigitValue(d[|d| - 1], radix)
  }

  /** An optional leading sign: whether it was '-', and what follows it. */
  function StripSign(t: string): (r: (bool, string))
    ensures r.1 == if t != [] && (t[0] == '-' || t[0] == '+') then t[1..] else t
    ensures r.0 <==> t != [] && t[0] == '-'
  {
    if t != [] && (t[0] == '-' || t[0] == '+') then (t[0] == '-', t[1..]) else (false, t)
  }

  /** A "0x"/"0X" prefix selects radix 16; anything else reads in radix 10. */
  function StripRadixPrefix(u: string): (r: (nat, string))
    ensures r.0 == 16 || r.0 == 10
    ensures r.0 == 16 <==> |u| >= 2 && u[0] == '0' && (u[1] == 'x' || u[1] == 'X')
    ensures r.1 == if r.0 == 16 then u[2..] else u
  {
    if |u| >= 2 && u[0] == '0' && (u[1] == 'x' || u[1] == 'X') then (16, u[2..]) else (10, u)
  }

  /**
   * `parseInt(s)`: skip white space, take an optional sign, a "0x"/"0X"
   * prefix selects radix 16, then read the longest digit prefix; no digit
   * at all gives NaN.
   */
  function ParseInt(s: string): JsNumber
  {
    var (negative, u) := StripSign(TrimStart(s));
    var (radix, v) := StripRadixPrefix(u);
    var d := DigitPrefix(v, radix);
    if d == [] then NaN
    else Finite(if negative then -(DigitsValue(d, radix) as int) else DigitsValue(d, radix))
  }

  function DecimalDigit(n: nat): (c: char)
    requires n < 10
    ensures IsDigit(c, 10) && DigitValue(c, 10) == n
  {
    ('0' as int + n) as char
  }

  /** The decimal spelling of a natural number, as `String(n)` writes it. */
  function NatToDecimal(n: nat): (s: string)
    ensures s != [] && forall i :: 0 <= i < |s| ==> IsDigit(s[i], 10)
  {
    if n < 10 then [DecimalDigit(n)] else NatToDecimal(n / 10) + [DecimalDigit(n % 10)]
  }

  /** The decimal spelling of an integer, with a leading '-' when negative. */
  function IntToDecimal(n: int): string {
    if n < 0 then "-" + NatToDecimal(-n) else NatToDecimal(n)
  }

  lemma {:induction false} DigitsValueOfDecimal(n: nat)
    ensures DigitsValue(NatToDecimal(n), 10) == n
  {
    if n >= 10 {
      var s := NatToDecimal(n);
      assert s[..|s| - 1] == NatToDecimal(n / 10);
      DigitsValueOfDecimal(n / 10);
    }
  }

  lemma {:induction false} DecimalLeadingZero(n: nat)
    ensures NatToDecimal(n)[0] == '0' ==> n == 0
  {
    if n >= 10 {
      DecimalLeadingZero(n / 10);
    }
  }

  lemma DigitPrefixOfDigits(s: string, radix: nat)
    requires forall i :: 0 <= i < |s| ==> IsDigit(s[i], radix)
    ensures DigitPrefix(s, radix) == s
  {
  }

  lemma TrimStartNoSpace(s: string)
    requires s != [] && !IsStrWhiteSpace(s[0])
    ensures TrimStart(s) == s
  {
  }

  /** parseInt on a string that starts with a radix-10 digit other than a "0x" prefix. */
  lemma ParseIntUnsigned(s: string)
    requires s != [] && IsDigit(s[0], 10)
    requires |s| >= 2 && s[0] == '0' ==> s[1] != 'x' && s[1] != 'X'
    ensures ParseInt(s) == Finite(DigitsValue(DigitPrefix(s, 10), 10))
  {
    TrimStartNoSpace(s);
    assert StripSign(s) == (false, s);
    assert StripRadixPrefix(s) == (10, s);
  }

  /** parseInt on an unsigned radix-10 digit string whose suffix stops the digits. */
  lemma ParseIntDecimalRun(d: string, tail: string)
    requires d != [] && forall i :: 0 <= i < |d| ==> IsDigit(d[i], 10)
    requires |d| == 1 || d[0] != '0'
    requires tail == [] || !IsDigit(tail[0], 10)
    requires |d| == 1 && d[0] == '0' && tail != [] ==> tail[0] != 'x' && tail[0] != 'X'
    ensures ParseInt(d + tail) == Finite(DigitsValue(d, 10))
  {
    var s := d + tail;
    assert s[0] == d[0];
    assert |s| >= 2 ==> s[1] == if |d| >= 2 then d[1] else tail[0];
    ParseIntUnsigned(s);
    if tail == [] {
      assert s == d;
      DigitPrefixOfDigits(d, 10);
    } else {
      DigitPrefixStopsAt(d, tail, 10);
    }
  }

  /** parseInt reads back exactly what `String(n)` writes. */
  lemma ParseIntOfDecimal(n: int)
    ensures ParseInt(IntToDecimal(n)) == Finite(n)
  {
    var m: nat := if n < 0 then -n else n;
    var d := NatToDecimal(m);
    DecimalLeadingZero(m);
    DigitsValueOfDecimal(m);
    if n >= 0 {
      ParseIntDecimalRun(d, []);
      assert d + [] == d;
    } else {
      var s := IntToDecimal(n);
      assert s == "-" + d && s[0] == '-';
      TrimStartNoSpace(s);
      assert StripSign(s) == (true, d);
      assert StripRadixPrefix(d) == (10, d);
      DigitPrefixOfDigits(d, 10);
    }
  }

  /**
   * parseInt stops at the first character that is not a digit, so "12abc"
   * reads as 12; the one exception is "0x…"/"0X…", which switches to radix 16.
   */
  lemma ParseIntIgnoresSuffix(n: nat, c: char, rest: string)
    requires !IsDigit(c, 10)
    requires n == 0 ==> c != 'x' && c != 'X'
    ensures ParseInt(NatToDecimal(n) + [c] + rest) == Finite(n)
  {
    var d := NatToDecimal(n);
    var tail := [c] + rest;
    assert d + [c] + rest == d + tail;
    DecimalRunOf(n, tail);
  }

  /** The decimal spelling of `n`, followed by a string that stops the digits, reads as `n`. */
  lemma DecimalRunOf(n: nat, tail: string)
    requires tail != [] && !IsDigit(tail[0], 10)
    requires n == 0 ==> tail[0] != 'x' && tail[0] != 'X'
    ensures ParseInt(NatToDecimal(n) + tail) == Finite(n)
  {
    DecimalLeadingZero(n);
    DigitsValueOfDecimal(n);
    ParseIntDecimalRun(NatToDecimal(n), tail);
  }

  lemma {:induction false} DigitPrefixStopsAt(d: string, tail: string, radix: nat)
    requires forall i :: 0 <= i < |d| ==> IsDigit(d[i], radix)
    requires tail != [] && !IsDigit(tail[0], radix)
    ensures DigitPrefix(d + tail, radix) == d
  {
    if d != [] {
      assert (d + tail)[1..] == d[1..] + tail;
      DigitPrefixStopsAt(d[1..], tail, radix);
    } else {
      assert d + tail == tail;
    }
  }

  /** parseInt on a string with no leading white space or sign, read in `radix` from `v`. */
  lemma ParseIntUnsignedIn(s: string, radix: nat, v: string)
    requires s != [] && !IsStrWhiteSpace(s[0]) && s[0] != '-' && s[0] != '+'
    requires StripRadixPrefix(s) == (radix, v)
    ensures ParseInt(s) == if DigitPrefix(v, radix) == [] then NaN
                           else Finite(DigitsValue(DigitPrefix(v, radix), radix))
  {
    TrimStartNoSpace(s);
    assert StripSign(s) == (false, s);
  }

  /**
   * A "0x"/"0X" prefix switches parseInt to radix 16: the hexadecimal digits
   * that follow are read up to the first character that is not one.
   */
  lemma ParseIntHexPrefix(x: char, d: string, tail: string)
    requires x == 'x' || x == 'X'
    requires d != [] && forall i :: 0 <= i < |d| ==> IsDigit(d[i], 16)
    requires tail == [] || !IsDigit(tail[0], 16)
    ensures ParseInt(['0', x] + (d + tail)) == Finite(DigitsValue(d, 16))
  {
    var u := d + tail;
    HexDigitsOf(d, tail);
    HexRadixPrefix(x, u);
    ParseIntUnsignedIn(['0', x] + u, 16, u);
  }

  /** "0x" followed by no hexadecimal digit is NaN, not 0: the prefix is consumed first. */
  lemma ParseIntHexPrefixWithoutDigits(x: char, tail: string)
    requires x == 'x' || x == 'X'
    requires tail == [] || !IsDigit(tail[0], 16)
    ensures ParseInt(['0', x] + tail) == NaN
  {
    HexRadixPrefix(x, tail);
    ParseIntUnsignedIn(['0', x] + tail, 16, tail);
  }

  lemma HexDigitsOf(d: string, tail: string)
    requires d != [] && forall i :: 0 <= i < |d| ==> IsDigit(d[i], 16)
    requires tail == [] || !IsDigit(tail[0], 16)
    ensures DigitPrefix(d + tail, 16) == d
  {
    if tail == [] {
      assert d + tail == d;
      DigitPrefixOfDigits(d, 16);
    } else {
      DigitPrefixStopsAt(d, tail, 16);
    }
  }

  lemma HexRadixPrefix(x: char, u: string)
    requires x == 'x' || x == 'X'
    ensures StripRadixPrefix(['0', x] + u) == (16, u)
  {
    var s := ['0', x] + u;
    assert s[0] == '0' && s[1] == x && s[2..] == u;
  }
}
