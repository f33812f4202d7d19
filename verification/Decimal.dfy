/** `strconv`: decimal printing of integers and parsing into 64-bit ones. */
module Decimal {
  import opened Wrappers

  const MAX_INT64: int := 0x7FFF_FFFF_FFFF_FFFF
  const MIN_INT64: int := -0x8000_0000_0000_0000

  predicate IsInt64(n: int) {
    MIN_INT64 <= n <= MAX_INT64
  }

  const DIGITS := "0123456789"

  predicate IsDigit(c: char) {
    '0' <= c <= '9'
  }

  predicate AllDigits(s: string) {
    forall i | 0 <= i < |s| :: IsDigit(s[i])
  }

  function DigitChar(d: nat): (c: char)
    requires d < 10
    ensures IsDigit(c) && DigitValue(c) == d
  {
    '0' + d as char
  }

  function DigitValue(c: char): (d: nat)
    requires IsDigit(c)
    ensures d < 10
  {
    (c - '0') as int
  }

  function FormatNat(n: nat): (s: string)
    ensures s != "" && AllDigits(s)
  {
    if n < 10 then [DigitChar(n)] else FormatNat(n / 10) + [DigitChar(n % 10)]
  }

  /** strconv.FormatInt(n, 10) */
  function FormatInt(n: int): (s: string)
    ensures s != ""
    ensures forall i | 0 <= i < |s| :: IsDigit(s[i]) || s[i] == '-'
  {
    if n < 0 then "-" + FormatNat(-n) else FormatNat(n)
  }

  function DigitsValue(s: string): nat
    requires AllDigits(s)
  {
    if s == "" then 0 else 10 * DigitsValue(s[..|s| - 1]) + DigitValue(s[|s| - 1])
  }

  /** What Go's parser found: a number, a number out of range, or no number. */
  datatype Parsed = Number(n: int) | OutOfRange(negative: bool) | BadSyntax

  /** strconv.ParseInt(s, 10, 64): an optional sign and at least one digit. */
  function ParseInt(s: string): (p: Parsed)
    ensures p.Number? ==> IsInt64(p.n)
  {
    var negative := s != "" && s[0] == '-';
    var digits := if s != "" && s[0] in "+-" then s[1..] else s;
    if digits == "" || !AllDigits(digits) then BadSyntax else
    var magnitude: int := DigitsValue(digits);
    var n := if negative then -magnitude else magnitude;
    if IsInt64(n) then Number(n) else OutOfRange(negative)
  }

  /** The value ParseInt hands back when its error is ignored. */
  function ParseIntValue(s: string): (n: int)
    ensures IsInt64(n)
  {
    match ParseInt(s)
    case Number(n) => n
    case OutOfRange(negative) => if negative then MIN_INT64 else MAX_INT64
    case BadSyntax => 0
  }

  /** strconv.Atoi on a 64-bit platform; None stands for any error. */
  function Atoi(s: string): (r: Option<int>)
    ensures r.Some? ==> IsInt64(r.value)
  {
    var p := ParseInt(s);
    if p.Number? then Some(p.n) else None
  }

  lemma {:induction false} FormatNatValue(n: nat)
    ensures DigitsValue(FormatNat(n)) == n
  {
    if n < 10 {
      assert FormatNat(n)[..0] == "";
    } else {
      FormatNatValue(n / 10);
      assert FormatNat(n)[..|FormatNat(n)| - 1] == FormatNat(n / 10);
    }
  }

  /** Decimal notation: one more digit multiplies by ten and adds its place in the table. */
  lemma DigitsValueMeaning(s: string, d: nat)
    requires AllDigits(s) && d < 10
    ensures DigitsValue("") == 0 && AllDigits(s + [DIGITS[d]])
    ensures DigitsValue(s + [DIGITS[d]]) == 10 * DigitsValue(s) + d
  {
    assert DIGITS[d] == DigitChar(d);
    assert (s + [DIGITS[d]])[..|s|] == s;
  }

  /** An optional sign and digits. */
  predicate IsNumeral(s: string, sign: string, digits: string) {
    s == sign + digits && sign in ["", "+", "-"] && digits != "" && AllDigits(digits)
  }

  /** A numeral is read as the number it denotes, or as the nearest bound when it is out of range. */
  lemma NumeralsAreRead(s: string, sign: string, digits: string)
    requires IsNumeral(s, sign, digits)
    ensures var v: int := DigitsValue(digits);
            var n := if sign == "-" then -v else v;
            && ParseInt(s) == (if IsInt64(n) then Number(n) else OutOfRange(sign == "-"))
            && Atoi(s) == (if IsInt64(n) then Some(n) else None)
            && ParseIntValue(s) == (if n > MAX_INT64 then MAX_INT64 else if n < MIN_INT64 then MIN_INT64 else n)
  {
    if sign == "" {
      assert s == digits && IsDigit(s[0]) && s[0] !in "+-";
    } else {
      assert s[0] == sign[0] && s[1..] == digits;
    }
  }

  /** Nothing else is read as a number. */
  lemma OnlyNumeralsAreRead(s: string)
    requires forall sign, digits :: !IsNumeral(s, sign, digits)
    ensures ParseInt(s) == BadSyntax && Atoi(s) == None && ParseIntValue(s) == 0
  {
    assert !IsNumeral(s, "", s);
    if s != "" && s[0] in "+-" {
      assert s == [s[0]] + s[1..];
      assert [s[0]] == "+" || [s[0]] == "-";
      assert !IsNumeral(s, [s[0]], s[1..]);
    }
  }

  lemma {:induction false} FormatNatCanonical(n: nat)
    ensures FormatNat(n)[0] == '0' ==> n == 0 && FormatNat(n) == "0"
  {
    if n >= 10 {
      FormatNatCanonical(n / 10);
      assert FormatNat(n)[0] == FormatNat(n / 10)[0];
    }
  }

  /** A number is printed without superfluous zeros, with a minus sign exactly when it is negative and no plus sign. */
  lemma FormatIntMeaning(n: int) returns (sign: string, digits: string)
    ensures IsNumeral(FormatInt(n), sign, digits) && sign == (if n < 0 then "-" else "")
    ensures DigitsValue(digits) == (if n < 0 then -n else n) && (digits[0] == '0' ==> digits == "0")
  {
    sign := if n < 0 then "-" else "";
    digits := FormatNat(if n < 0 then -n else n);
    FormatNatValue(if n < 0 then -n else n);
    FormatNatCanonical(if n < 0 then -n else n);
  }

  /** Parsing a printed 64-bit integer gives it back. */
  lemma ParseOfFormat(n: int)
    requires IsInt64(n)
    ensures ParseInt(FormatInt(n)) == Number(n)
  {
    var s := FormatInt(n);
    if n < 0 {
      FormatNatValue(-n);
      assert s[0] == '-' && s[1..] == FormatNat(-n);
    } else {
      FormatNatValue(n);
      assert IsDigit(s[0]) && s[0] != '-' && s[0] != '+';
    }
  }

  /** No two integers print alike. */
  lemma FormatIntInjective(a: int, b: int)
    ensures FormatInt(a) == FormatInt(b) <==> a == b
  {
    if FormatInt(a) == FormatInt(b) {
      FormatNatValue(if a < 0 then -a else a);
      FormatNatValue(if b < 0 then -b else b);
      assert a < 0 ==> FormatInt(a)[0] == '-' && FormatInt(a)[1..] == FormatNat(-a);
      assert b < 0 ==> FormatInt(b)[0] == '-' && FormatInt(b)[1..] == FormatNat(-b);
      assert a >= 0 ==> IsDigit(FormatInt(a)[0]);
    }
  }
}
