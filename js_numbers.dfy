/** JavaScript numbers as the page agent produces them, and the global
    `parseInt` called with no radix. Only integer values and `NaN` arise
    there, so a number is either `NaN` or an unbounded integer. */
module JsNumbers {
  import opened JsStrings

  datatype Number = NaN | Int(value: int)

  /** `n * k`: `NaN` absorbs. */
  function Times(n: Number, k: int): Number {
    match n
    case NaN => NaN
    case Int(v) => Int(v * k)
  }

  /** `m + n`: `NaN` absorbs. */
  function Plus(m: Number, n: Number): Number {
    if m.NaN? || n.NaN? then NaN else Int(m.value + n.value)
  }

  /** The value ECMAScript gives a digit of radix up to 36; 36 for any other character. */
  function DigitValue(c: char): nat {
    if '0' <= c <= '9' then c as int - '0' as int
    else if 'a' <= c <= 'z' then c as int - 'a' as int + 10
    else if 'A' <= c <= 'Z' then c as int - 'A' as int + 10
    else 36
  }

  predicate IsDecimalDigit(c: char) {
    '0' <= c <= '9'
  }

  /** A non-empty run of decimal digits: no sign, no space, nothing else. */
  predicate IsDecimal(s: string) {
    |s| > 0 && AllDecimalDigits(s)
  }

  predicate AllDecimalDigits(s: string) {
    forall k :: 0 <= k < |s| ==> IsDecimalDigit(s[k])
  }

  /** The longest prefix of `s` made of digits of the given radix. */
  function DigitPrefix(s: string, radix: nat): string {
    if |s| > 0 && DigitValue(s[0]) < radix then [s[0]] + DigitPrefix(s[1..], radix) else []
  }

  /** The value of a run of decimal digits, most significant first. */
  function DecimalValue(z: string): nat {
    if z == [] then 0
    else DecimalValue(z[..|z| - 1]) * 10 + DigitValue(z[|z| - 1])
  }

  /** The value of a run of hexadecimal digits, most significant first. */
  function HexValue(z: string): nat {
    if z == [] then 0
    else HexValue(z[..|z| - 1]) * 16 + DigitValue(z[|z| - 1])
  }

  /** Global `parseInt(s)` without a radix: skip leading white space, take
      an optional sign, then read the digits that follow. */
  function ParseInt(s: string): Number {
    var t := TrimStart(s);
    if |t| > 0 && t[0] == '-' then Negate(ParseUnsigned(t[1..]))
    else if |t| > 0 && t[0] == '+' then ParseUnsigned(t[1..])
    else ParseUnsigned(t)
  }

  function Negate(n: Number): Number {
    match n
    case NaN => NaN
    case Int(v) => Int(-v)
  }

  /** The digits after the sign: hexadecimal after `0x` or `0X`, decimal
      otherwise, up to the first character that is not a digit; `NaN`
      when there is not a single digit. */
  function ParseUnsigned(u: string): Number {
    var hex := |u| >= 2 && u[0] == '0' && (u[1] == 'x' || u[1] == 'X');
    var radix := if hex then 16 else 10;
    var z := DigitPrefix(if hex then u[2..] else u, radix);
    if z == [] then NaN
    else Int(if hex then HexValue(z) else DecimalValue(z))
  }

  /** A decimal field surrounded by white space, and followed by anything
      that neither continues it nor turns a leading `0` into `0x`, reads
      as its decimal value. */
  lemma ParseIntDecimal(w: string, d: string, rest: string)
    requires forall k :: 0 <= k < |w| ==> IsWhiteSpace(w[k])
    requires IsDecimal(d)
    requires rest == [] || (!IsDecimalDigit(rest[0]) && !(d == "0" && (rest[0] == 'x' || rest[0] == 'X')))
    ensures ParseInt(w + d + rest) == Int(DecimalValue(d))
  {
    var t := d + rest;
    assert w + d + rest == w + t;
    assert IsDecimalDigit(t[0]);
    TrimStartSkips(w, t);
    UnsignedDecimal(d, rest);
  }

  /** A minus sign before the field negates its value. */
  lemma ParseIntNegative(w: string, d: string, rest: string)
    requires forall k :: 0 <= k < |w| ==> IsWhiteSpace(w[k])
    requires IsDecimal(d)
    requires rest == [] || (!IsDecimalDigit(rest[0]) && !(d == "0" && (rest[0] == 'x' || rest[0] == 'X')))
    ensures ParseInt(w + "-" + d + rest) == Int(-(DecimalValue(d) as int))
  {
    var t := "-" + d + rest;
    assert w + "-" + d + rest == w + t;
    TrimStartSkips(w, t);
    assert t[1..] == d + rest;
    UnsignedDecimal(d, rest);
  }

  lemma UnsignedDecimal(d: string, rest: string)
    requires IsDecimal(d)
    requires rest == [] || (!IsDecimalDigit(rest[0]) && !(d == "0" && (rest[0] == 'x' || rest[0] == 'X')))
    ensures ParseUnsigned(d + rest) == Int(DecimalValue(d))
  {
    var t := d + rest;
    if |t| >= 2 {
      assert !(t[0] == '0' && (t[1] == 'x' || t[1] == 'X')) by {
        assert t[0] == d[0];
        if |d| >= 2 {
          assert t[1] == d[1];
        } else {
          assert t[1] == rest[0];
          assert d == [d[0]];
        }
      }
    }
    DecimalPrefix(d, rest);
  }

  lemma {:induction false} DecimalPrefix(d: string, rest: string)
    requires AllDecimalDigits(d)
    requires rest == [] || !IsDecimalDigit(rest[0])
    ensures DigitPrefix(d + rest, 10) == d
  {
    if d != [] {
      assert (d + rest)[1..] == d[1..] + rest;
      assert IsDecimalDigit(d[0]);
      DecimalPrefix(d[1..], rest);
    } else if rest != [] {
      assert DigitValue(rest[0]) >= 10;
    }
  }

  /** A string in which no character is a decimal digit reads as `NaN`. */
  lemma ParseIntNoDigits(s: string)
    requires forall k :: 0 <= k < |s| ==> !IsDecimalDigit(s[k])
    ensures ParseInt(s) == NaN
  {
    var t := TrimStart(s);
    TrimStartCuts(s);
    assert t == s[|s| - |t|..];
    if |t| > 0 {
      NoDigitsUnsigned(t[1..]);
      NoDigitsUnsigned(t);
    }
  }

  /** `parseInt` stops at the first character after the white space: when
      that is neither a digit nor a sign, the result is `NaN`, whatever
      digits come later. */
  lemma ParseIntNonDigitStart(w: string, c: char, rest: string)
    requires forall k :: 0 <= k < |w| ==> IsWhiteSpace(w[k])
    requires !IsDecimalDigit(c) && !IsWhiteSpace(c) && c != '-' && c != '+'
    ensures ParseInt(w + [c] + rest) == NaN
  {
    TrimStartSkips(w, [c] + rest);
    assert w + [c] + rest == w + ([c] + rest);
    UnsignedNonDigitStart(c, rest);
  }

  /** The same after a sign: a sign not followed by a digit is `NaN`. */
  lemma ParseIntSignNonDigit(w: string, sign: char, c: char, rest: string)
    requires forall k :: 0 <= k < |w| ==> IsWhiteSpace(w[k])
    requires sign == '-' || sign == '+'
    requires !IsDecimalDigit(c)
    ensures ParseInt(w + [sign] + [c] + rest) == NaN
  {
    var t := [sign] + [c] + rest;
    assert w + [sign] + [c] + rest == w + t;
    TrimStartSkips(w, t);
    assert t[1..] == [c] + rest;
    UnsignedNonDigitStart(c, rest);
  }

  lemma UnsignedNonDigitStart(c: char, rest: string)
    requires !IsDecimalDigit(c)
    ensures ParseUnsigned([c] + rest) == NaN
  {
    assert DigitValue(c) >= 10;
  }

  lemma NoDigitsUnsigned(u: string)
    requires forall k :: 0 <= k < |u| ==> !IsDecimalDigit(u[k])
    ensures ParseUnsigned(u) == NaN
  {
    if |u| > 0 {
      assert DigitValue(u[0]) >= 10;
    }
  }
}
