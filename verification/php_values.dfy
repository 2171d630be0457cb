/** PHP's scalar values and the few string conversions and comparisons the
    mobile-detect condition relies on: truthiness, `is_numeric`, loose
    comparison of a numeric string with 0, integer-to-string conversion and
    `strtolower`. */
module PhpValues {

  datatype Option<+T> = None | Some(value: T)

  /** The scalars that flow through the condition: integers it computes and
      strings it reads from cookies or from its own tables. */
  datatype Scalar = Int(n: int) | Str(s: string)

  /** PHP's conversion to boolean, as used by `if ($x)`. */
  predicate Truthy(v: Scalar)
  {
    match v
    case Int(n) => n != 0
    case Str(s) => s != "" && s != "0"
  }

  predicate IsWhitespace(c: char)
  {
    c == ' ' || c == '\t' || c == '\n' || c == '\r' || c == '\U{B}' || c == '\U{C}'
  }

  predicate IsDigit(c: char)
  {
    '0' <= c <= '9'
  }

  predicate IsSign(c: char)
  {
    c == '+' || c == '-'
  }

  /** Length of the longest prefix of `s` whose characters all satisfy `p`. */
  function CountLeading(s: string, p: char -> bool): (n: nat)
    ensures n <= |s|
    ensures forall i :: 0 <= i < n ==> p(s[i])
    ensures n < |s| ==> !p(s[n])
  {
    if s == [] || !p(s[0]) then 0 else 1 + CountLeading(s[1..], p)
  }

  /** Length of an exponent part (`e` or `E`, an optional sign, at least one
      digit) at the start of `s`, or 0 when `s` does not start with one. */
  function ExponentLength(s: string): (n: nat)
    ensures n <= |s|
    ensures n > 0 ==> s[0] == 'e' || s[0] == 'E'
  {
    if s != [] && (s[0] == 'e' || s[0] == 'E') then
      var sign := if |s| > 1 && IsSign(s[1]) then 1 else 0;
      var digits := CountLeading(s[1 + sign..], IsDigit);
      if digits > 0 then 1 + sign + digits else 0
    else 0
  }

  /** Length of a decimal point and the digits after it at the start of
      `s`, or 0 when `s` does not start with a decimal point. */
  function FractionLength(s: string): (n: nat)
    ensures n <= |s|
    ensures n > 0 ==> s[0] == '.'
    ensures forall i :: 1 <= i < n ==> IsDigit(s[i])
  {
    if s != [] && s[0] == '.' then 1 + CountLeading(s[1..], IsDigit) else 0
  }

  /** When `s` is a numeric string in PHP's sense (optional leading and
      trailing whitespace, an optional sign, decimal digits with at most one
      decimal point and at least one digit, an optional exponent), the
      digits of its mantissa with the decimal point removed; otherwise None. */
  function NumericMantissa(s: string): Option<string>
  {
    var afterSpace := s[CountLeading(s, IsWhitespace)..];
    var unsigned := if afterSpace != [] && IsSign(afterSpace[0]) then afterSpace[1..] else afterSpace;
    UnsignedMantissa(unsigned)
  }

  /** `NumericMantissa` after leading whitespace and sign. */
  function UnsignedMantissa(u: string): Option<string>
  {
    var intLen := CountLeading(u, IsDigit);
    var fracLen := FractionLength(u[intLen..]);
    var digits := u[..intLen] + (if fracLen > 0 then u[intLen + 1..intLen + fracLen] else []);
    var afterMantissa := u[intLen + fracLen..];
    var tail := afterMantissa[ExponentLength(afterMantissa)..];
    if digits == [] || CountLeading(tail, IsWhitespace) != |tail| then None else Some(digits)
  }

  /** PHP's `is_numeric` on a string. */
  predicate IsNumeric(s: string)
  {
    NumericMantissa(s).Some?
  }

  predicate AllZeros(m: string)
  {
    forall i :: 0 <= i < |m| ==> m[i] == '0'
  }

  /** `$s == 0` for a string `$s`: a numeric string compares numerically, so
      it equals 0 exactly when every digit of its mantissa is 0; a
      non-numeric string is compared as a string with "0". */
  predicate LooselyEqualsZero(s: string)
  {
    match NumericMantissa(s)
    case Some(m) => AllZeros(m)
    case None => false
  }

  function DigitChar(d: nat): char
    requires d < 10
  {
    "0123456789"[d]
  }

  /** Decimal digits of a natural number, as PHP writes an integer. */
  function NatToString(n: nat): string
  {
    if n < 10 then [DigitChar(n)] else NatToString(n / 10) + [DigitChar(n % 10)]
  }

  /** PHP's conversion of an integer to a string. */
  function IntToString(n: int): string
  {
    if n < 0 then "-" + NatToString(-n) else NatToString(n)
  }

  /** PHP's conversion of a scalar to a string, as `setcookie` applies to the
      value it is given. */
  function ToPhpString(v: Scalar): string
  {
    match v
    case Int(n) => IntToString(n)
    case Str(s) => s
  }

  function LowerChar(c: char): char
  {
    if 'A' <= c <= 'Z' then (c as int - 'A' as int + 'a' as int) as char else c
  }

  /** `strtolower`: ASCII upper-case letters become lower-case, every other
      character is kept. */
  function Lower(s: string): (r: string)
    ensures |r| == |s|
    ensures forall i :: 0 <= i < |s| ==> r[i] == LowerChar(s[i])
  {
    seq(|s|, i requires 0 <= i < |s| => LowerChar(s[i]))
  }

  /** The decimal digits of a natural number are all digits and, for a
      positive number, do not start with 0. */
  lemma {:induction false} NatToStringDigits(n: nat)
    ensures |NatToString(n)| > 0
    ensures forall i :: 0 <= i < |NatToString(n)| ==> IsDigit(NatToString(n)[i])
    ensures n > 0 ==> NatToString(n)[0] != '0'
  {
    if n >= 10 {
      NatToStringDigits(n / 10);
      var prefix := NatToString(n / 10);
      assert NatToString(n) == prefix + [DigitChar(n % 10)];
      assert NatToString(n)[0] == prefix[0];
    }
  }

  /** A string of digits without leading 0 is numeric and is not loosely
      equal to 0. */
  lemma {:induction false} DigitsAreNumeric(s: string)
    requires |s| > 0 && s[0] != '0'
    requires forall i :: 0 <= i < |s| ==> IsDigit(s[i])
    ensures NumericMantissa(s) == Some(s)
    ensures IsNumeric(s) && !LooselyEqualsZero(s)
  {
    assert CountLeading(s, IsWhitespace) == 0;
    assert !IsSign(s[0]);
    var intLen := CountLeading(s, IsDigit);
    assert intLen == |s|;
    assert s[|s|..] == [];
    assert s[..|s|] + [] == s;
  }

  /** A numeric string holds at least one digit. */
  lemma NumericHasDigit(s: string)
    requires IsNumeric(s)
    ensures exists i :: 0 <= i < |s| && IsDigit(s[i])
  {
    var lead := CountLeading(s, IsWhitespace);
    var afterSpace := s[lead..];
    var offset := if afterSpace != [] && IsSign(afterSpace[0]) then lead + 1 else lead;
    var u := s[offset..];
    assert NumericMantissa(s) == UnsignedMantissa(u);
    var intLen := CountLeading(u, IsDigit);
    if intLen > 0 {
      assert IsDigit(s[offset]);
    } else {
      var fracLen := FractionLength(u[intLen..]);
      assert fracLen > 1;
      assert IsDigit(u[intLen..][1]);
      assert IsDigit(s[offset + 1]);
    }
  }

  /** A string is loosely equal to 0 exactly when it is numeric and every
      digit of its mantissa is 0. */
  lemma LooseZeroIsNumericZero(s: string)
    ensures LooselyEqualsZero(s) <==> IsNumeric(s) && AllZeros(NumericMantissa(s).value)
  {
  }

  /** Every positive integer, written as PHP writes it, is a numeric string
      that is not loosely equal to 0. */
  lemma PositiveIntStringIsNonZeroNumeric(n: int)
    requires n > 0
    ensures IsNumeric(IntToString(n)) && !LooselyEqualsZero(IntToString(n))
  {
    NatToStringDigits(n);
    DigitsAreNumeric(NatToString(n));
  }

  /** Words and numbers followed by other characters are not numeric. */
  lemma NonNumericExamples()
    ensures !IsNumeric("") && !IsNumeric("abc") && !IsNumeric("1a")
  {
    assert CountLeading("abc", IsDigit) == 0;
    assert CountLeading("1a", IsDigit) == 1;
    assert "1a"[1..] == "a";
    assert CountLeading("a", IsWhitespace) == 0;
  }

  /** A number surrounded by whitespace is numeric and not 0. */
  lemma PaddedNumberExample()
    ensures IsNumeric(" 2 ") && !LooselyEqualsZero(" 2 ")
  {
    assert CountLeading(" 2 ", IsWhitespace) == 1;
    assert !IsSign(" 2 "[1]);
    var unsigned := " 2 "[1..];
    assert unsigned == "2 ";
    assert CountLeading(unsigned, IsDigit) == 1;
    assert unsigned[1..] == " ";
    assert ExponentLength(" ") == 0;
    assert " "[0..] == " ";
    assert CountLeading(" ", IsWhitespace) == 1;
    assert unsigned[..1] + [] == "2";
    assert NumericMantissa(" 2 ") == Some("2");
  }

  /** Zero, also with a sign and a fraction, is loosely equal to 0. */
  lemma ZeroExamples()
    ensures LooselyEqualsZero("0") && LooselyEqualsZero("-0.0")
  {
    assert CountLeading("0", IsWhitespace) == 0;
    assert !IsSign("0"[0]);
    assert "0"[0..] == "0";
    assert CountLeading("0", IsDigit) == 1;
    assert "0"[1..] == [];
    assert ExponentLength([]) == 0;
    assert CountLeading([], IsWhitespace) == 0;
    assert "0"[..1] + [] == "0";
    assert NumericMantissa("0") == Some("0");

    assert CountLeading("-0.0", IsWhitespace) == 0;
    assert "-0.0"[0..] == "-0.0";
    assert IsSign("-0.0"[0]);
    var u := "-0.0"[1..];
    assert u == "0.0";
    assert CountLeading(u, IsDigit) == 1;
    assert u[1..] == ".0";
    assert ".0"[1..] == "0";
    assert CountLeading("0", IsDigit) == 1;
    assert FractionLength(".0") == 2;
    assert u[..1] + u[2..3] == "00";
    assert u[3..] == [];
    assert UnsignedMantissa(u) == Some("00");
    assert NumericMantissa("-0.0") == Some("00");
  }
}
