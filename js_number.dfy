/**
 * The part of the JavaScript Number type the report screen uses: the global
 * function parseInt with radix 10 (section 19.2.5 of ECMA-262), the string
 * form of a Number (as a template literal renders it), and truthiness.
 */
module JsNumber {
  import opened JsString

  /** A Number that parseInt can produce: NaN, or an integer value. Num(0)
      stands for both +0 and -0, which render and test alike. */
  datatype Number = NaN | Num(value: int)

  predicate IsDecimalDigit(c: char) {
    '0' <= c <= '9'
  }

  predicate AllDigits(s: string) {
    forall i :: 0 <= i < |s| ==> IsDecimalDigit(s[i])
  }

  function DigitValue(c: char): (v: nat)
    requires IsDecimalDigit(c)
    ensures v < 10
  {
    c as int - '0' as int
  }

  function DigitChar(v: nat): (c: char)
    requires v < 10
    ensures IsDecimalDigit(c) && DigitValue(c) == v
  {
    ('0' as int + v) as char
  }

  /** The longest prefix of `s` made of decimal digits: parseInt stops at
      the first code unit that is not a radix-10 digit. */
  function LeadingDigits(s: string): (d: string)
    ensures |d| <= |s| && d == s[..|d|] && AllDigits(d)
    ensures |d| == |s| || !IsDecimalDigit(s[|d|])
  {
    if s != [] && IsDecimalDigit(s[0]) then
      var d := [s[0]] + LeadingDigits(s[1..]);
      assert s == [s[0]] + s[1..];
      d
    else
      []
  }

  /** The mathematical value of a string of decimal digits (most significant
      first); the empty string has value 0. */
  function DigitsValue(d: string): nat
    requires AllDigits(d)
  {
    if d == [] then 0 else DigitsValue(d[..|d| - 1]) * 10 + DigitValue(d[|d| - 1])
  }

  /** The shortest decimal numeral of `n`: no leading zero unless it is "0". */
  function DecimalString(n: nat): (d: string)
    ensures d != [] && AllDigits(d) && DigitsValue(d) == n
    ensures d[0] == '0' ==> d == "0"
  {
    if n < 10 then
      [DigitChar(n)]
    else
      var p := DecimalString(n / 10);
      var d := p + [DigitChar(n % 10)];
      assert d[..|d| - 1] == p;
      d
  }

  /** The string a template literal produces for a Number: "NaN", or the
      decimal numeral with a leading "-" for negative values. This is the
      program's string form for magnitudes below 10^21 only. */
  function NumberToString(x: Number): string {
    match x
    case NaN => "NaN"
    case Num(n) => if n < 0 then "-" + DecimalString(-n) else DecimalString(n)
  }

  /** True when parseInt reads a minus sign at the start of `t`. */
  predicate IsNegated(t: string) {
    t != [] && t[0] == '-'
  }

  /** `t` without one leading "+" or "-". */
  function Unsigned(t: string): string {
    if t != [] && (t[0] == '+' || t[0] == '-') then t[1..] else t
  }

  /** The digits parseInt reads from `s`: after the leading white space and
      at most one sign, the longest run of decimal digits. */
  function DigitRun(s: string): string {
    LeadingDigits(Unsigned(TrimStart(s)))
  }

  /** The value parseInt reads from a string that does not start with white
      space: NaN when no digit follows the optional sign, otherwise the signed
      value of the digit run. */
  function ParseSigned(t: string): Number {
    var z := LeadingDigits(Unsigned(t));
    if z == [] then NaN
    else if IsNegated(t) then Num(-(DigitsValue(z) as int))
    else Num(DigitsValue(z))
  }

  /** parseInt(s, 10): the leading white space is skipped, then the rest is
      read by ParseSigned (ParseIntTrimsStart). */
  function ParseInt(s: string): Number {
    if s != [] && IsWhiteSpace(s[0]) then ParseInt(s[1..]) else ParseSigned(s)
  }

  /** parseInt reads what is left after TrimString(s, start). */
  lemma {:induction false} ParseIntTrimsStart(s: string)
    ensures ParseInt(s) == ParseSigned(TrimStart(s))
  {
    if s != [] && IsWhiteSpace(s[0]) {
      ParseIntTrimsStart(s[1..]);
    }
  }

  /** ToBoolean of a Number: NaN and zero are falsy. */
  predicate Truthy(x: Number) {
    x.Num? && x.value != 0
  }

  /** A run of digits followed by anything that does not start with a digit
      is read as exactly that run. */
  lemma {:induction false} LeadingDigitsStopsAtNonDigit(d: string, t: string)
    requires AllDigits(d)
    requires t == [] || !IsDecimalDigit(t[0])
    ensures LeadingDigits(d + t) == d
  {
    if d == [] {
      assert d + t == t;
    } else {
      assert (d + t)[0] == d[0];
      assert (d + t)[1..] == d[1..] + t;
      LeadingDigitsStopsAtNonDigit(d[1..], t);
      assert d == [d[0]] + d[1..];
    }
  }

  /** A digit string has value 0 exactly when every digit in it is '0'. */
  lemma {:induction false} DigitsValueZero(d: string)
    requires AllDigits(d)
    ensures DigitsValue(d) == 0 <==> forall i :: 0 <= i < |d| ==> d[i] == '0'
  {
    if d != [] {
      var p := d[..|d| - 1];
      DigitsValueZero(p);
      assert forall i :: 0 <= i < |p| ==> p[i] == d[i];
    }
  }

  /** parseInt reads an unsigned numeral that is followed by a stop
      character as its value: the digits before the first non-digit. */
  lemma ParseIntStopsAtNonDigit(d: string, t: string)
    requires d != [] && AllDigits(d)
    requires t == [] || !IsDecimalDigit(t[0])
    ensures ParseInt(d + t) == Num(DigitsValue(d))
  {
    assert (d + t)[0] == d[0];
    TrimStartKeepsNonWhiteSpaceStart(d + t);
    LeadingDigitsStopsAtNonDigit(d, t);
  }

  /** After a "-", parseInt reads the negated value of the digit run. */
  lemma ParseIntNegative(s: string, d: string, t: string)
    requires d != [] && AllDigits(d)
    requires t == [] || !IsDecimalDigit(t[0])
    requires s == ['-'] + (d + t)
    ensures ParseInt(s) == Num(-(DigitsValue(d) as int))
  {
    assert s[0] == '-' && s[1..] == d + t;
    TrimStartKeepsNonWhiteSpaceStart(s);
    assert TrimStart(s) == s;
    assert Unsigned(s) == d + t;
    assert IsNegated(s);
    LeadingDigitsStopsAtNonDigit(d, t);
    assert LeadingDigits(Unsigned(TrimStart(s))) == d;
  }

  /** A leading zero does not change the value of a digit string. */
  lemma {:induction false} DigitsValueLeadingZero(d: string)
    requires AllDigits(d)
    ensures AllDigits("0" + d) && DigitsValue("0" + d) == DigitsValue(d)
  {
    var z := "0" + d;
    if d != [] {
      var p := d[..|d| - 1];
      DigitsValueLeadingZero(p);
      assert z[..|z| - 1] == "0" + p;
      assert z[|z| - 1] == d[|d| - 1];
    } else {
      assert z[..0] == [];
    }
  }

  /** A leading zero in front of a digit does not change what parseInt
      reads, although it changes the string ("12" and "012"). */
  lemma ParseIntLeadingZero(z: string, s: string)
    requires s != [] && IsDecimalDigit(s[0])
    requires z == ['0'] + s
    ensures ParseInt(z) == ParseInt(s) && z != s
  {
    var d := LeadingDigits(s);
    var t := s[|d|..];
    assert s == d + t;
    LeadingDigitsStopsAtNonDigit(d, t);
    assert z == (['0'] + d) + t;
    DigitsValueLeadingZero(d);
    ParseIntStopsAtNonDigit(d, t);
    ParseIntStopsAtNonDigit(['0'] + d, t);
  }

  /** Leading white space does not change what parseInt reads. */
  lemma ParseIntSkipsWhiteSpace(w: string, s: string)
    requires AllWhiteSpace(w)
    ensures ParseInt(w + s) == ParseInt(s)
  {
    ParseIntTrimsStart(w + s);
    ParseIntTrimsStart(s);
    TrimStartSkipsWhiteSpace(w, s);
  }

  /** A string whose first code unit is neither white space, a sign nor a
      digit (the empty string included) reads as NaN. */
  lemma ParseIntNaN(s: string)
    requires s == [] || !(IsWhiteSpace(s[0]) || s[0] == '+' || s[0] == '-' || IsDecimalDigit(s[0]))
    ensures ParseInt(s) == NaN
  {
    TrimStartKeepsNonWhiteSpaceStart(s);
  }

  /** parseInt undoes NumberToString: every modelled Number survives the
      round trip through its string form. The program's Number::toString
      switches to exponent form ("1e+21") from 10^21 on, and parseInt
      rounds above 2^53, so the running program has this round trip only
      for integers of magnitude below 10^21. */
  lemma ParseIntNumberToString(x: Number)
    ensures ParseInt(NumberToString(x)) == x
  {
    match x
    case NaN =>
      ParseIntNaN("NaN");
    case Num(n) =>
      if n < 0 {
        var d := DecimalString(-n);
        var s := "-" + d;
        assert s[0] == '-' && s[1..] == d;
        TrimStartKeepsNonWhiteSpaceStart(s);
        LeadingDigitsStopsAtNonDigit(d, []);
        assert d + [] == d;
      } else {
        ParseIntStopsAtNonDigit(DecimalString(n), []);
        assert DecimalString(n) + [] == DecimalString(n);
      }
  }

  /** Distinct Numbers have distinct string forms. */
  lemma NumberToStringInjective(x: Number, y: Number)
    requires NumberToString(x) == NumberToString(y)
    ensures x == y
  {
    ParseIntNumberToString(x);
    ParseIntNumberToString(y);
  }

  /** parseInt's result is falsy (NaN or zero) exactly when the digit run
      it reads holds no digit other than '0'. */
  lemma ParseIntFalsy(s: string)
    ensures !Truthy(ParseInt(s)) <==> forall i :: 0 <= i < |DigitRun(s)| ==> DigitRun(s)[i] == '0'
  {
    ParseIntTrimsStart(s);
    DigitsValueZero(DigitRun(s));
  }

  /** Worked value: "123" reads as 123. */
  lemma ParseIntOfNumeral()
    ensures ParseInt("123") == Num(123)
  {
    assert DecimalString(123) == "123";
    ParseIntNumberToString(Num(123));
  }

  /** Worked values: the empty string and "abc" read as NaN. */
  lemma ParseIntOfNonNumerals()
    ensures ParseInt("") == NaN && ParseInt("abc") == NaN
  {
    ParseIntNaN("");
    ParseIntNaN("abc");
  }

  /** Worked value: "-0" reads as zero, which is falsy. */
  lemma ParseIntOfNegativeZero()
    ensures ParseInt("-0") == Num(0) && !Truthy(ParseInt("-0"))
  {
    ParseIntNegative("-0", "0", []);
    assert DigitsValue("0") == 0;
  }
}
