/**
  The global `parseInt(string, 10)` of ECMA-262 (section 19.2.5, "parseInt
  ( string, radix )") for radix 10: skip leading white space, read an
  optional sign, take the longest run of decimal digits, and give NaN when
  that run is empty. Everything after the first non-digit is ignored.
 */
module Parsing {
  import opened Numbers

  /** The ASCII members of StrWhiteSpaceChar: TAB, LF, VT, FF, CR and SPACE. */
  predicate IsWhiteSpace(c: char) {
    c == '\t' || c == '\n' || c == '\U{B}' || c == '\U{C}' || c == '\r' || c == ' '
  }

  predicate AllWhiteSpace(s: string) {
    forall k :: 0 <= k < |s| ==> IsWhiteSpace(s[k])
  }

  /** The three ways a numeral may start: no sign, `+` or `-`. */
  predicate IsSign(sign: string) {
    sign == "" || sign == "+" || sign == "-"
  }

  /** Step 2 (TrimString at the start): the string with its leading white space removed. */
  function TrimStart(s: string): (r: string)
  {
    if s != [] && IsWhiteSpace(s[0]) then TrimStart(s[1..]) else s
  }

  /** Steps 11 and 12 for radix 10: the length of the longest prefix made of decimal digits. */
  function DigitPrefixLength(s: string): (n: nat)
    ensures n <= |s|
  {
    if s != [] && IsDigit(s[0]) then 1 + DigitPrefixLength(s[1..]) else 0
  }

  /** The prefix DigitPrefixLength measures is all digits and cannot be extended. */
  lemma {:induction false} DigitPrefixIsLongest(s: string)
    ensures forall k :: 0 <= k < DigitPrefixLength(s) ==> IsDigit(s[k])
    ensures DigitPrefixLength(s) == |s| || !IsDigit(s[DigitPrefixLength(s)])
  {
    if s != [] && IsDigit(s[0]) {
      DigitPrefixIsLongest(s[1..]);
    }
  }

  /** Steps 11 to 14 on the unsigned part: the value of its longest digit prefix, or NaN when that prefix is empty. */
  function ParseDigits(u: string): Num {
    var n := DigitPrefixLength(u);
    if n == 0 then NaN else Int(DecimalValue(u[..n]))
  }

  /** The sign product of step 16 (step 15's negative zero is not distinguished from zero). */
  function Negate(x: Num): Num {
    match x
    case NaN => NaN
    case Int(i) => Int(-i)
  }

  /** Steps 3 to 5 on the trimmed string: read the sign, then the digits after it. */
  function ParseSigned(t: string): Num {
    if t != [] && t[0] == '-' then Negate(ParseDigits(t[1..]))
    else if t != [] && t[0] == '+' then ParseDigits(t[1..])
    else ParseDigits(t)
  }

  /** `parseInt(s, 10)`. */
  function ParseInt(s: string): Num {
    ParseSigned(TrimStart(s))
  }

  /** TrimStart removes exactly the white space at the front of its argument. */
  lemma {:induction false} TrimStartSplits(s: string)
    ensures |TrimStart(s)| <= |s|
    ensures s == s[..|s| - |TrimStart(s)|] + TrimStart(s)
    ensures AllWhiteSpace(s[..|s| - |TrimStart(s)|])
    ensures TrimStart(s) == [] || !IsWhiteSpace(TrimStart(s)[0])
  {
    if s != [] && IsWhiteSpace(s[0]) {
      TrimStartSplits(s[1..]);
      var r := TrimStart(s[1..]);
      assert s[..|s| - |r|] == [s[0]] + s[1..][..|s| - 1 - |r|];
    }
  }

  lemma {:induction false} TrimStartOf(ws: string, t: string)
    requires AllWhiteSpace(ws)
    requires t == [] || !IsWhiteSpace(t[0])
    ensures TrimStart(ws + t) == t
  {
    if ws != [] {
      assert (ws + t)[1..] == ws[1..] + t;
      TrimStartOf(ws[1..], t);
    }
  }

  lemma {:induction false} DigitPrefixOf(digits: string, rest: string)
    requires AllDigits(digits)
    requires rest == [] || !IsDigit(rest[0])
    ensures DigitPrefixLength(digits + rest) == |digits|
  {
    if digits != [] {
      assert (digits + rest)[1..] == digits[1..] + rest;
      DigitPrefixOf(digits[1..], rest);
    }
  }

  lemma ParseSignedOf(sign: string, u: string)
    requires IsSign(sign)
    requires sign == "" ==> u == [] || (u[0] != '+' && u[0] != '-')
    ensures ParseSigned(sign + u) == if sign == "-" then Negate(ParseDigits(u)) else ParseDigits(u)
  {
    if sign != "" {
      assert (sign + u)[0] == sign[0];
      assert (sign + u)[1..] == u;
    } else {
      assert sign + u == u;
    }
  }

  /**
    A string made of white space, an optional sign, at least one digit and
    then anything that does not start with a digit parses to the signed
    value of those digits.
   */
  lemma ParseIntOfNumeral(ws: string, sign: string, digits: string, rest: string)
    requires AllWhiteSpace(ws) && IsSign(sign)
    requires |digits| > 0 && AllDigits(digits)
    requires rest == [] || !IsDigit(rest[0])
    ensures ParseInt(ws + sign + digits + rest)
         == Int(if sign == "-" then -DecimalValue(digits) else DecimalValue(digits))
  {
    TrimNumeral(ws, sign, digits + rest);
    ParseDigitsOf(digits, rest);
    assert (digits + rest)[0] == digits[0];
    ParseSignedOf(sign, digits + rest);
    SeqAssoc(ws, sign, digits, rest);
  }

  lemma TrimNumeral(ws: string, sign: string, u: string)
    requires AllWhiteSpace(ws) && IsSign(sign)
    requires u != [] && IsDigit(u[0])
    ensures TrimStart(ws + (sign + u)) == sign + u
  {
    assert (sign + u)[0] == (if sign == "" then u[0] else sign[0]);
    TrimStartOf(ws, sign + u);
  }

  lemma SeqAssoc(a: string, b: string, c: string, d: string)
    ensures a + b + c + d == a + (b + (c + d))
  {
  }

  lemma ParseDigitsOf(digits: string, rest: string)
    requires |digits| > 0 && AllDigits(digits)
    requires rest == [] || !IsDigit(rest[0])
    ensures ParseDigits(digits + rest) == Int(DecimalValue(digits))
  {
    DigitPrefixOf(digits, rest);
    assert (digits + rest)[..|digits|] == digits;
  }

  /**
    A string whose first character after the white space and the optional
    sign is not a digit parses to NaN. Without a sign the remainder must not
    itself begin with white space or a sign, which would belong to the prefix.
   */
  lemma ParseIntNoDigits(ws: string, sign: string, rest: string)
    requires AllWhiteSpace(ws) && IsSign(sign)
    requires rest == [] || !IsDigit(rest[0])
    requires sign == "" && rest != [] ==> !IsWhiteSpace(rest[0]) && rest[0] != '+' && rest[0] != '-'
    ensures ParseInt(ws + sign + rest) == NaN
  {
    var t := sign + rest;
    assert ws + sign + rest == ws + t;
    assert t != [] ==> t[0] == (if sign == "" then rest[0] else sign[0]);
    TrimStartOf(ws, t);
    ParseSignedOf(sign, rest);
  }

  /** `parseInt` reads back every Number that `ToString` writes. */
  lemma ParseIntOfToString(x: Num)
    ensures ParseInt(ToString(x)) == x
  {
    match x
    case NaN =>
      assert "" + "" + "NaN" == ToString(x);
      ParseIntNoDigits("", "", "NaN");
    case Int(i) =>
      var s := ToString(x);
      if i < 0 {
        assert "" + "-" + s[1..] + "" == s;
        ParseIntOfNumeral("", "-", s[1..], "");
      } else {
        assert "" + "" + s + "" == s;
        ParseIntOfNumeral("", "", s, "");
      }
  }

  /** A whole numeral, as a number input hands over an integer. */
  lemma ParseIntWholeNumeral()
    ensures ParseInt("42") == Int(42)
  {
    assert "42" == "" + "" + "42" + "";
    assert DecimalValue("42") == 42 by { assert "42"[..1] == "4"; }
    ParseIntOfNumeral("", "", "42", "");
  }

  /** A negative numeral keeps its sign. */
  lemma ParseIntNegativeNumeral()
    ensures ParseInt("-12") == Int(-12)
  {
    assert "-12" == "" + "-" + "12" + "";
    assert DecimalValue("12") == 12 by { assert "12"[..1] == "1"; }
    ParseIntOfNumeral("", "-", "12", "");
  }

  /** Reading stops at a decimal point: the fraction is dropped. */
  lemma ParseIntStopsAtPoint()
    ensures ParseInt("3.7") == Int(3)
  {
    assert "3.7" == "" + "" + "3" + ".7";
    ParseIntOfNumeral("", "", "3", ".7");
  }

  /** Reading stops at an exponent marker: "1e3" is 1, not 1000. */
  lemma ParseIntStopsAtExponent()
    ensures ParseInt("1e3") == Int(1)
  {
    assert "1e3" == "" + "" + "1" + "e3";
    ParseIntOfNumeral("", "", "1", "e3");
  }

  /** Leading white space and a plus sign are skipped, trailing text ignored. */
  lemma ParseIntSkipsSpaceAndSign()
    ensures ParseInt(" \t+7 apples") == Int(7)
  {
    assert " \t+7 apples" == " \t" + "+" + "7" + " apples";
    ParseIntOfNumeral(" \t", "+", "7", " apples");
  }

  /** An empty input has no digits. */
  lemma ParseIntEmptyIsNaN()
    ensures ParseInt("") == NaN
  {
    assert "" == "" + "" + "";
    ParseIntNoDigits("", "", "");
  }

  /** A word has no leading digits. */
  lemma ParseIntWordIsNaN()
    ensures ParseInt("abc") == NaN
  {
    assert "abc" == "" + "" + "abc";
    ParseIntNoDigits("", "", "abc");
  }

  /** A sign must be followed directly by a digit. */
  lemma ParseIntDetachedSignIsNaN()
    ensures ParseInt("- 5") == NaN
  {
    assert "- 5" == "" + "-" + " 5";
    ParseIntNoDigits("", "-", " 5");
  }
}
