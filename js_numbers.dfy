/**
 * The part of JavaScript's number parsing that the migration router relies on:
 * `parseInt(s, 10)` (ECMAScript's parseInt with an explicit radix of 10),
 * together with the decimal rendering of an integer, so that the two can be
 * shown to round-trip.
 */
module JsNumbers {
  import opened Wrappers

  predicate IsDigit(c: char) {
    '0' <= c <= '9'
  }

  function DigitValue(c: char): (d: nat)
    requires IsDigit(c)
    ensures d < 10
  {
    c as int - '0' as int
  }

  function DigitChar(d: nat): (c: char)
    requires d < 10
    ensures IsDigit(c) && DigitValue(c) == d
  {
    ('0' as int + d) as char
  }

  /**
   * The characters that parseInt skips before the number: ECMAScript's
   * white space (tab, vertical tab, form feed, the byte order mark and every
   * space separator) and its line terminators.
   */
  predicate IsJsWhitespace(c: char) {
    var n := c as int;
    n == 0x09 || n == 0x0B || n == 0x0C || n == 0x20 || n == 0xA0 || n == 0xFEFF
    || n == 0x1680 || (0x2000 <= n <= 0x200A) || n == 0x202F || n == 0x205F || n == 0x3000
    || n == 0x0A || n == 0x0D || n == 0x2028 || n == 0x2029
  }

  /** `s` with its leading white space removed. */
  function TrimStart(s: string): (t: string)
    ensures |t| <= |s| && t == s[|s| - |t|..]
    ensures forall i :: 0 <= i < |s| - |t| ==> IsJsWhitespace(s[i])
    ensures t == [] || !IsJsWhitespace(t[0])
  {
    if s != [] && IsJsWhitespace(s[0]) then TrimStart(s[1..]) else s
  }

  /** The longest prefix of `s` made of decimal digits. */
  function LeadingDigits(s: string): (d: string)
    ensures d <= s
    ensures forall i :: 0 <= i < |d| ==> IsDigit(d[i])
    ensures |d| == |s| || !IsDigit(s[|d|])
  {
    if s != [] && IsDigit(s[0]) then [s[0]] + LeadingDigits(s[1..]) else []
  }

  /** The value of a string of decimal digits, most significant digit first. */
  function DigitsValue(d: string): nat
    requires forall i :: 0 <= i < |d| ==> IsDigit(d[i])
  {
    if d == [] then 0 else 10 * DigitsValue(d[..|d| - 1]) + DigitValue(d[|d| - 1])
  }

  /**
   * parseInt(s, 10): skip leading white space, read an optional sign, then
   * as many decimal digits as follow; None stands for NaN (no digit at all).
   * With radix 10 a "0x" prefix is not special: "0x1A" reads as 0.
   */
  function ParseInt10(s: string): Option<int>
  {
    ParseSigned(TrimStart(s))
  }

  /** parseInt's reading of a string that no longer starts with white space. */
  function ParseSigned(t: string): Option<int>
  {
    var negative := t != [] && t[0] == '-';
    var unsigned := if t != [] && (t[0] == '-' || t[0] == '+') then t[1..] else t;
    var digits := LeadingDigits(unsigned);
    var magnitude: int := DigitsValue(digits);
    if digits == [] then None
    else if negative then Some(-magnitude)
    else Some(magnitude)
  }

  /** Decimal rendering of a natural number, without leading zeros. */
  function NatDigits(n: nat): (s: string)
    ensures s != []
    ensures forall i :: 0 <= i < |s| ==> IsDigit(s[i])
  {
    if n < 10 then [DigitChar(n)] else NatDigits(n / 10) + [DigitChar(n % 10)]
  }

  /** Decimal rendering of an integer, with a leading '-' when negative. */
  function Decimal(n: int): string
  {
    if n < 0 then "-" + NatDigits(-n) else NatDigits(n)
  }

  lemma {:induction false} NatDigitsValue(n: nat)
    ensures DigitsValue(NatDigits(n)) == n
  {
    if n >= 10 {
      var s := NatDigits(n);
      var p := NatDigits(n / 10);
      assert s[..|s| - 1] == p;
      NatDigitsValue(n / 10);
    }
  }

  /** parseInt(String(n), 10) gives n back, for every integer n. */
  lemma {:induction false} ParseIntDecimal(n: int)
    ensures ParseInt10(Decimal(n)) == Some(n)
  {
    var s := Decimal(n);
    ParseIntIgnoresPadding([], n, []);
    assert [] + s + [] == s;
  }

  /**
   * Leading white space and trailing text that does not start with a digit
   * do not change what parseInt reads from the decimal form of any integer.
   */
  lemma {:induction false} ParseIntIgnoresPadding(ws: string, n: int, rest: string)
    requires forall i :: 0 <= i < |ws| ==> IsJsWhitespace(ws[i])
    requires rest == [] || !IsDigit(rest[0])
    ensures ParseInt10(ws + Decimal(n) + rest) == Some(n)
  {
    var m: nat := if n < 0 then -n else n;
    var d := NatDigits(m);
    NatDigitsValue(m);
    var sign: string := if n < 0 then "-" else "";
    assert Decimal(n) == sign + d;
    ConcatAssoc(ws, sign + d, rest);
    ParseIntReadsDigits(ws, sign, d, rest);
  }

  /**
   * What parseInt reads: after leading white space, an optional sign, then a
   * run of digits (leading zeros allowed) ended by the end of the string or by
   * a non-digit, the value of those digits with the sign applied.
   */
  lemma {:induction false} ParseIntReadsDigits(ws: string, sign: string, d: string, rest: string)
    requires forall i :: 0 <= i < |ws| ==> IsJsWhitespace(ws[i])
    requires sign == "" || sign == "-" || sign == "+"
    requires d != [] && forall i :: 0 <= i < |d| ==> IsDigit(d[i])
    requires rest == [] || !IsDigit(rest[0])
    ensures ParseInt10(ws + (sign + d + rest)) ==
              Some(if sign == "-" then -(DigitsValue(d) as int) else DigitsValue(d) as int)
  {
    var t := sign + d + rest;
    assert t[0] == if sign == "" then d[0] else sign[0];
    DigitIsNotBlank(d[0]);
    TrimStartPrefix(ws, t);
    ParseSignedDigits(sign, d, rest);
  }

  /** The sign-and-digits step of parseInt, once the white space is gone. */
  lemma {:induction false} ParseSignedDigits(sign: string, d: string, rest: string)
    requires sign == "" || sign == "-" || sign == "+"
    requires d != [] && forall i :: 0 <= i < |d| ==> IsDigit(d[i])
    requires rest == [] || !IsDigit(rest[0])
    ensures ParseSigned(sign + d + rest) ==
              Some(if sign == "-" then -(DigitsValue(d) as int) else DigitsValue(d) as int)
  {
    var u := d + rest;
    LeadingDigitsThenStop(d, rest);
    ConcatAssoc(sign, d, rest);
    if sign == "" {
      assert sign + u == u;
      UnsignedDigits(u);
    } else {
      assert sign + u == [sign[0]] + u;
      SignThenDigits(sign[0], u);
    }
  }

  /** Without a sign, parseInt reads the leading digits as they are. */
  lemma {:induction false} UnsignedDigits(u: string)
    requires LeadingDigits(u) != []
    ensures ParseSigned(u) == Some(DigitsValue(LeadingDigits(u)) as int)
  {
    DigitIsNotBlank(u[0]);
  }

  /** A sign in front of the digits negates them for '-' and leaves them for '+'. */
  lemma {:induction false} SignThenDigits(c: char, u: string)
    requires c == '-' || c == '+'
    requires LeadingDigits(u) != []
    ensures ParseSigned([c] + u) ==
              Some(if c == '-' then -(DigitsValue(LeadingDigits(u)) as int)
                   else DigitsValue(LeadingDigits(u)) as int)
  {
    assert ([c] + u)[1..] == u;
  }

  lemma ConcatAssoc(a: string, b: string, c: string)
    ensures a + b + c == a + (b + c)
  {
  }

  lemma DigitIsNotBlank(c: char)
    requires IsDigit(c)
    ensures !IsJsWhitespace(c) && c != '-' && c != '+'
  {
    assert 0x30 <= c as int <= 0x39;
  }

  lemma {:induction false} TrimStartPrefix(ws: string, t: string)
    requires forall i :: 0 <= i < |ws| ==> IsJsWhitespace(ws[i])
    requires t != [] && !IsJsWhitespace(t[0])
    ensures TrimStart(ws + t) == t
  {
    if ws != [] {
      assert (ws + t)[1..] == ws[1..] + t;
      TrimStartPrefix(ws[1..], t);
    }
  }

  lemma {:induction false} LeadingDigitsThenStop(d: string, rest: string)
    requires forall i :: 0 <= i < |d| ==> IsDigit(d[i])
    requires rest == [] || !IsDigit(rest[0])
    ensures LeadingDigits(d + rest) == d
  {
    if d != [] {
      assert (d + rest)[1..] == d[1..] + rest;
      LeadingDigitsThenStop(d[1..], rest);
    } else {
      assert d + rest == rest;
    }
  }

  /**
   * parseInt gives NaN exactly when no digit follows the leading blanks and the
   * optional sign: "abc", "", "-", "+x" and " -%" all read as NaN.
   */
  lemma {:induction false} ParseIntNaN(s: string)
    requires var t := TrimStart(s);
             var u := if t != [] && (t[0] == '-' || t[0] == '+') then t[1..] else t;
             u == [] || !IsDigit(u[0])
    ensures ParseInt10(s) == None
  {
    var t := TrimStart(s);
    var u := if t != [] && (t[0] == '-' || t[0] == '+') then t[1..] else t;
    assert LeadingDigits(u) == [];
  }
}
