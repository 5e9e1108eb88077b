/**
 * JavaScript's global `parseInt(string)` with no radix argument, as the
 * route handlers use it for `:id` path parameters (ECMAScript, section
 * 19.2.5 of ECMA-262): leading white space is skipped, one sign is taken,
 * a "0x"/"0X" prefix selects radix 16, and the longest run of digits is
 * read; no digits at all gives NaN.
 */
module JsParseInt {
  import opened Wrappers

  /** The StrWhiteSpaceChar set: WhiteSpace and LineTerminator code points. */
  predicate IsStrWhiteSpace(c: char) {
    || c == '\t' || c == '\n' || c == '\U{B}' || c == '\U{C}' || c == '\r' || c == ' '
    || c == '\U{A0}' || c == '\U{1680}' || ('\U{2000}' <= c <= '\U{200A}')
    || c == '\U{2028}' || c == '\U{2029}' || c == '\U{202F}' || c == '\U{205F}'
    || c == '\U{3000}' || c == '\U{FEFF}'
  }

  predicate IsDecimalDigit(c: char) {
    '0' <= c <= '9'
  }

  /** The value of `c` as a digit of `radix` (10 or 16), if it is one. */
  function DigitValue(c: char, radix: nat): (r: Option<nat>)
    requires radix == 10 || radix == 16
    ensures r.Some? ==> r.value < radix
    ensures radix == 10 ==> (r.Some? <==> IsDecimalDigit(c))
    ensures IsDecimalDigit(c) ==> r == Some((c - '0') as nat)
  {
    if IsDecimalDigit(c) then Some((c - '0') as nat)
    else if radix == 16 && 'a' <= c <= 'f' then Some((c - 'a') as nat + 10)
    else if radix == 16 && 'A' <= c <= 'F' then Some((c - 'A') as nat + 10)
    else None
  }

  /** `s` with its leading white space removed. */
  function TrimStart(s: string): (r: string)
    ensures |r| <= |s| && r == s[|s| - |r|..]
    ensures forall i | 0 <= i < |s| - |r| :: IsStrWhiteSpace(s[i])
    ensures r == [] || !IsStrWhiteSpace(r[0])
  {
    if |s| > 0 && IsStrWhiteSpace(s[0]) then TrimStart(s[1..]) else s
  }

  /** The length of the longest prefix of `s` made of digits of `radix`. */
  function DigitPrefixLength(s: string, radix: nat): (n: nat)
    requires radix == 10 || radix == 16
    ensures n <= |s|
    ensures forall i | 0 <= i < n :: DigitValue(s[i], radix).Some?
    ensures n < |s| ==> DigitValue(s[n], radix).None?
  {
    if |s| > 0 && DigitValue(s[0], radix).Some? then 1 + DigitPrefixLength(s[1..], radix) else 0
  }

  /** The number the digit string `s` denotes in `radix`, most significant digit first. */
  function ValueOf(s: string, radix: nat): nat
    requires radix == 10 || radix == 16
    requires forall i | 0 <= i < |s| :: DigitValue(s[i], radix).Some?
  {
    if |s| == 0 then 0
    else ValueOf(s[..|s| - 1], radix) * radix + DigitValue(s[|s| - 1], radix).value
  }

  /**
   * `parseInt(s)`, with NaN as `None`. A negative zero is returned as 0,
   * which is how a `Map` lookup treats it. Every numeral needs a decimal
   * digit, so text without one is NaN.
   */
  function ParseInt(s: string): (r: Option<int>)
    ensures (forall i | 0 <= i < |s| :: !IsDecimalDigit(s[i])) ==> r.None?
  {
    var t := TrimStart(s);
    assert forall i | 0 <= i < |t| :: t[i] == s[|s| - |t| + i];
    ParseSigned(t)
  }

  /** After the white space: one optional sign, then the digits, which start right after the sign. */
  function ParseSigned(t: string): (r: Option<int>)
    ensures r.Some? ==>
              || (|t| > 0 && IsDecimalDigit(t[0]))
              || (|t| > 1 && (t[0] == '-' || t[0] == '+') && IsDecimalDigit(t[1]))
  {
    if |t| > 0 && t[0] == '-' then
      match ParseUnsigned(t[1..])
      case None => None
      case Some(m) => Some(-(m as int))
    else if |t| > 0 && t[0] == '+' then ParseUnsigned(t[1..])
    else ParseUnsigned(t)
  }

  /**
   * After the sign: "0x"/"0X" selects radix 16, and the longest digit run is
   * read. A numeral starts with a decimal digit, and "0x" with no
   * hexadecimal digit after it is NaN.
   */
  function ParseUnsigned(u: string): (r: Option<nat>)
    ensures r.Some? ==> |u| > 0 && IsDecimalDigit(u[0])
    ensures |u| >= 2 && u[0] == '0' && (u[1] == 'x' || u[1] == 'X') ==> (r.None? <==> |u| == 2 || DigitValue(u[2], 16).None?)
  {
    var hex := |u| >= 2 && u[0] == '0' && (u[1] == 'x' || u[1] == 'X');
    var radix := if hex then 16 else 10;
    var digits := if hex then u[2..] else u;
    var n := DigitPrefixLength(digits, radix);
    if n == 0 then None else Some(ValueOf(digits[..n], radix))
  }

  // ---------------------------------------------------------------------------
  // The decimal formatter `String(n)` as a reference for the parser

  function DecimalDigit(d: nat): (c: char)
    requires d < 10
    ensures IsDecimalDigit(c) && DigitValue(c, 10) == Some(d)
  {
    '0' + d as char
  }

  /** The shortest decimal numeral of `n`, as `String(n)` writes it. */
  function Decimal(n: nat): (r: string)
    ensures |r| >= 1
    ensures forall i | 0 <= i < |r| :: IsDecimalDigit(r[i])
    ensures r[0] == '0' <==> n == 0
  {
    if n < 10 then [DecimalDigit(n)] else Decimal(n / 10) + [DecimalDigit(n % 10)]
  }

  lemma {:induction false} DecimalValue(n: nat)
    ensures ValueOf(Decimal(n), 10) == n
  {
    if n >= 10 {
      var s := Decimal(n);
      assert s[..|s| - 1] == Decimal(n / 10);
      DecimalValue(n / 10);
    }
  }

  lemma {:induction false} DigitPrefixOfNumeral(d: string, rest: string)
    requires forall i | 0 <= i < |d| :: IsDecimalDigit(d[i])
    requires rest == [] || !IsDecimalDigit(rest[0])
    ensures DigitPrefixLength(d + rest, 10) == |d|
  {
    if |d| > 0 {
      assert (d + rest)[1..] == d[1..] + rest;
      DigitPrefixOfNumeral(d[1..], rest);
    } else {
      assert d + rest == rest;
    }
  }

  lemma UnsignedNumeral(n: nat, rest: string)
    requires rest == [] || !IsDecimalDigit(rest[0])
    requires n == 0 && rest != [] ==> rest[0] != 'x' && rest[0] != 'X'
    ensures ParseUnsigned(Decimal(n) + rest) == Some(n)
  {
    var d := Decimal(n);
    var s := d + rest;
    assert s[0] == d[0];
    assert n == 0 ==> |d| == 1;
    assert |s| >= 2 && s[0] == '0' ==> s[1] == rest[0];
    DigitPrefixOfNumeral(d, rest);
    assert s[..|d|] == d;
    DecimalValue(n);
  }

  /** Text that starts with a digit is neither trimmed nor signed. */
  lemma ParseIntOfDigitStart(s: string)
    requires |s| > 0 && IsDecimalDigit(s[0])
    ensures ParseInt(s) == ParseUnsigned(s)
    ensures ParseInt(['-'] + s) == if ParseUnsigned(s).Some? then Some(-(ParseUnsigned(s).value as int)) else None
  {
    assert !IsStrWhiteSpace(s[0]);
    assert TrimStart(s) == s;
    var minus := ['-'] + s;
    assert minus[0] == '-' && !IsStrWhiteSpace(minus[0]);
    assert TrimStart(minus) == minus;
    assert minus[1..] == s;
  }

  /**
   * The parser reads back what the formatter writes, even when characters
   * follow that are not digits, so "5x" and "5" are both 5 (the one
   * exception: "0" followed by "x" or "X" starts a hexadecimal numeral).
   * After a minus sign the same numeral parses to its negation.
   */
  lemma ParseDecimalPrefix(n: nat, rest: string)
    requires rest == [] || !IsDecimalDigit(rest[0])
    requires n == 0 && rest != [] ==> rest[0] != 'x' && rest[0] != 'X'
    ensures ParseInt(Decimal(n) + rest) == Some(n)
    ensures ParseInt("-" + (Decimal(n) + rest)) == Some(-(n as int))
  {
    var d := Decimal(n);
    var s := d + rest;
    assert s[0] == d[0];
    ParseIntOfDigitStart(s);
    UnsignedNumeral(n, rest);
    assert "-" == ['-'];
  }

  lemma ParseFiveX()
    ensures ParseInt("5x") == Some(5)
    ensures ParseInt("5") == Some(5)
  {
    assert "5" + "x" == "5x" && "5" + "" == "5";
    assert Decimal(5) == "5";
    ParseDecimalPrefix(5, "x");
    ParseDecimalPrefix(5, "");
  }

  /** Leading white space does not change the result. */
  lemma LeadingWhiteSpaceIgnored(c: char, s: string)
    requires IsStrWhiteSpace(c)
    ensures ParseInt([c] + s) == ParseInt(s)
  {
    assert ([c] + s)[1..] == s;
  }
}
