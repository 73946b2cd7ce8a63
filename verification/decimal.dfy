/** Decimal text of integers: `Number.parseInt(text, 10)` and the text that a
    template literal gives a whole number. */
module Decimal {
  import opened JsValues

  predicate IsDigit(c: char) {
    '0' <= c <= '9'
  }

  predicate AllDigits(s: string) {
    forall i :: 0 <= i < |s| ==> IsDigit(s[i])
  }

  /** The characters ECMAScript's string trimming skips: white space
      (tab, vertical tab, form feed, byte order mark and every space
      separator) and line terminators. */
  predicate IsWhiteSpace(c: char) {
    || c == '\t' || c == '\U{000B}' || c == '\U{000C}' || c == '\U{FEFF}'
    || c == ' ' || c == '\U{00A0}' || c == '\U{1680}'
    || ('\U{2000}' <= c <= '\U{200A}')
    || c == '\U{202F}' || c == '\U{205F}' || c == '\U{3000}'
    || c == '\n' || c == '\r' || c == '\U{2028}' || c == '\U{2029}'
  }

  function DigitValue(c: char): (d: nat)
    requires IsDigit(c)
    ensures d < 10
  {
    c as int - '0' as int
  }

  function DigitChar(d: nat): (c: char)
    requires d < 10
    ensures IsDigit(c) && DigitValue(c) == d
  {
    ('0' as int + d) as char
  }

  /** The value of a string of decimal digits, most significant first. */
  function DigitsValue(s: string): (v: nat)
    requires AllDigits(s)
  {
    if s == [] then 0 else DigitsValue(s[..|s| - 1]) * 10 + DigitValue(s[|s| - 1])
  }

  /** The shortest decimal digits of a natural number. */
  function NatToDigits(n: nat): (s: string)
    ensures |s| > 0 && AllDigits(s)
    ensures s[0] == '0' ==> n == 0
  {
    if n < 10 then [DigitChar(n)] else NatToDigits(n / 10) + [DigitChar(n % 10)]
  }

  /** The text `${n}` of a whole number: an optional minus sign, then digits. */
  function DecimalString(n: int): (s: string)
    ensures |s| > 0
    ensures s[0] == '-' <==> n < 0
    ensures ':' !in s && '/' !in s
    ensures var m := if n < 0 then s[1..] else s; m != [] && AllDigits(m) && (m[0] == '0' ==> n == 0)
  {
    var s := if n < 0 then "-" + NatToDigits(-n) else NatToDigits(n);
    assert forall i :: 0 <= i < |s| ==> IsDigit(s[i]) || s[i] == '-';
    s
  }

  /** The length of the longest prefix of `s` made of digits. */
  function DigitPrefixLength(s: string): (k: nat)
    ensures k <= |s| && AllDigits(s[..k])
    ensures k < |s| ==> !IsDigit(s[k])
  {
    if s == [] || !IsDigit(s[0]) then 0 else 1 + DigitPrefixLength(s[1..])
  }

  function TrimStart(s: string): (t: string)
    ensures t == [] || !IsWhiteSpace(t[0])
    ensures |t| <= |s| && t == s[|s| - |t|..]
  {
    if s != [] && IsWhiteSpace(s[0]) then TrimStart(s[1..]) else s
  }

  /** The text after one leading sign character, if there is one. */
  function Unsigned(t: string): (u: string) {
    if t != [] && (t[0] == '-' || t[0] == '+') then t[1..] else t
  }

  /** `Number.parseInt(s, 10)`: skip leading white space, read an optional
      sign, then the longest run of decimal digits; no digit gives NaN. */
  function ParseInt(s: string): (r: Number)
    ensures var u := Unsigned(TrimStart(s)); r == NaN <==> u == [] || !IsDigit(u[0])
  {
    ParseTrimmed(TrimStart(s))
  }

  /** The parse of text that starts with its sign or its first digit. */
  function ParseTrimmed(t: string): (r: Number)
    ensures r == NaN <==> Unsigned(t) == [] || !IsDigit(Unsigned(t)[0])
  {
    var u := Unsigned(t);
    var k := DigitPrefixLength(u);
    if k == 0 then NaN
    else
      var m: int := DigitsValue(u[..k]);
      Num(if t[0] == '-' then -m else m)
  }

  lemma {:induction false} DigitsValueOfNatToDigits(n: nat)
    ensures DigitsValue(NatToDigits(n)) == n
  {
    if n >= 10 {
      var s := NatToDigits(n);
      assert s[..|s| - 1] == NatToDigits(n / 10);
      DigitsValueOfNatToDigits(n / 10);
    }
  }

  /** The digit run ends exactly where the digits `d` end. */
  lemma {:induction false} DigitPrefixOfDigits(d: string, rest: string)
    requires AllDigits(d)
    requires rest == [] || !IsDigit(rest[0])
    ensures DigitPrefixLength(d + rest) == |d|
  {
    if d != [] {
      assert (d + rest)[1..] == d[1..] + rest;
      DigitPrefixOfDigits(d[1..], rest);
    }
  }

  /** Text that begins with digits parses to the value of those digits,
      whatever follows them (as in "8080abc"). */
  lemma ParseIntLeadingDigits(d: string, rest: string)
    requires d != [] && AllDigits(d)
    requires rest == [] || !IsDigit(rest[0])
    ensures ParseInt(d + rest) == Num(DigitsValue(d))
  {
    var s := d + rest;
    assert s[0] == d[0];
    assert !IsWhiteSpace(s[0]);
    assert TrimStart(s) == s;
    assert Unsigned(s) == s;
    DigitPrefixOfDigits(d, rest);
    assert s[..|d|] == d;
  }

  lemma {:induction false} TrimStartWhiteSpace(ws: string, t: string)
    requires forall i :: 0 <= i < |ws| ==> IsWhiteSpace(ws[i])
    requires t == [] || !IsWhiteSpace(t[0])
    ensures TrimStart(ws + t) == t
  {
    if ws != [] {
      assert (ws + t)[0] == ws[0];
      assert (ws + t)[1..] == ws[1..] + t;
      TrimStartWhiteSpace(ws[1..], t);
    }
  }

  /** Once white space and sign are removed, the digit run gives the value. */
  lemma ParseTrimmedDigits(t: string, d: string, rest: string)
    requires d != [] && AllDigits(d)
    requires rest == [] || !IsDigit(rest[0])
    requires Unsigned(t) == d + rest
    ensures ParseTrimmed(t) == Num(if t[0] == '-' then -(DigitsValue(d) as int) else DigitsValue(d))
  {
    DigitPrefixOfDigits(d, rest);
    assert (d + rest)[..|d|] == d;
  }

  /** Leading white space does not change the parse. */
  lemma ParseIntAfterWhiteSpace(ws: string, t: string)
    requires forall i :: 0 <= i < |ws| ==> IsWhiteSpace(ws[i])
    requires t == [] || !IsWhiteSpace(t[0])
    ensures ParseInt(ws + t) == ParseInt(t)
  {
    TrimStartWhiteSpace(ws, t);
    TrimStartWhiteSpace([], t);
    assert [] + t == t;
  }

  lemma SignedDigits(sign: string, d: string, rest: string)
    requires sign == "" || sign == "+" || sign == "-"
    requires d != [] && AllDigits(d)
    ensures var t := sign + d + rest;
      && t != [] && !IsWhiteSpace(t[0]) && TrimStart(t) == t
      && Unsigned(t) == d + rest
      && (t[0] == '-' <==> sign == "-")
  {
    var t := sign + d + rest;
    if sign == "" {
      assert t == d + rest && t[0] == d[0];
    } else {
      assert t == [sign[0]] + (d + rest);
    }
  }

  /** Leading white space is skipped, one sign is read, and the digits that
      follow give the value, negated after a minus sign (as in "  -80x"). */
  lemma ParseIntSigned(ws: string, sign: string, d: string, rest: string)
    requires forall i :: 0 <= i < |ws| ==> IsWhiteSpace(ws[i])
    requires sign == "" || sign == "+" || sign == "-"
    requires d != [] && AllDigits(d)
    requires rest == [] || !IsDigit(rest[0])
    ensures ParseInt(ws + sign + d + rest) == Num(if sign == "-" then -(DigitsValue(d) as int) else DigitsValue(d))
  {
    var t := sign + d + rest;
    assert ws + sign + d + rest == ws + t;
    SignedDigits(sign, d, rest);
    TrimStartWhiteSpace(ws, t);
    ParseTrimmedDigits(t, d, rest);
  }

  /** Parsing the decimal text of a whole number gives the number back. */
  lemma ParseIntOfDecimalString(n: int)
    ensures ParseInt(DecimalString(n)) == Num(n)
  {
    var m: nat := if n < 0 then -n else n;
    var d := NatToDigits(m);
    DigitsValueOfNatToDigits(m);
    if n < 0 {
      var s := "-" + d;
      assert s == DecimalString(n);
      assert TrimStart(s) == s;
      assert Unsigned(s) == d;
      DigitPrefixOfDigits(d, []);
      assert d + [] == d;
      assert d[..|d|] == d;
    } else {
      ParseIntLeadingDigits(d, []);
      assert d + [] == d;
    }
  }
}
