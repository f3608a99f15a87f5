/**
 * JavaScript's string-to-number conversion (`Number(s)`, section 7.1.4.1.1 of
 * ECMA-262, StringToNumber) and number-to-string conversion (section 6.1.6.1.20,
 * Number::toString) over exact decimal values. A finite number is held as
 * ±mantissa·10^exponent; rounding to the nearest IEEE 754 double is not modelled.
 */
module JsNumber {
  import opened Options
  import opened Text

  datatype Num = NaN | Finite(negative: bool, mantissa: nat, exponent: int) | Infinite(negative: bool)

  /** StrWhiteSpaceChar (WhiteSpace and LineTerminator); also the `\s` class of regular expressions. */
  predicate IsWhiteSpace(c: char) {
    c == '\t' || c == '\n' || c == '\U{000B}' || c == '\U{000C}' || c == '\r' || c == ' '
    || c == '\U{00A0}' || c == '\U{1680}' || ('\U{2000}' <= c <= '\U{200A}')
    || c == '\U{2028}' || c == '\U{2029}' || c == '\U{202F}' || c == '\U{205F}'
    || c == '\U{3000}' || c == '\U{FEFF}'
  }

  function TrimStart(s: string): (t: string)
    ensures |t| <= |s| && t == s[|s| - |t|..]
    ensures t == [] || !IsWhiteSpace(t[0])
  {
    if s != [] && IsWhiteSpace(s[0]) then TrimStart(s[1..]) else s
  }

  function TrimEnd(s: string): (t: string)
    ensures |t| <= |s| && t == s[..|t|]
    ensures t == [] || !IsWhiteSpace(t[|t| - 1])
    ensures s != [] && !IsWhiteSpace(s[0]) ==> t != [] && t[0] == s[0]
  {
    if s != [] && IsWhiteSpace(s[|s| - 1]) then TrimEnd(s[..|s| - 1]) else s
  }

  function Trim(s: string): string {
    TrimEnd(TrimStart(s))
  }

  lemma TrimOfUnpadded(s: string)
    requires s == [] || (!IsWhiteSpace(s[0]) && !IsWhiteSpace(s[|s| - 1]))
    ensures Trim(s) == s
  {
  }

  /** The value of a digit in bases 2, 8 and 16 (`0b`, `0o` and `0x` literals). */
  function RadixDigit(c: char): (d: Option<nat>)
    ensures d.Some? ==> d.value < 16
  {
    if IsDigit(c) then Some(DigitValue(c))
    else if 'a' <= c <= 'f' then Some(c as int - 'a' as int + 10)
    else if 'A' <= c <= 'F' then Some(c as int - 'A' as int + 10)
    else None
  }

  predicate AllRadixDigits(d: string, base: nat) {
    forall i :: 0 <= i < |d| ==> RadixDigit(d[i]).Some? && RadixDigit(d[i]).value < base
  }

  function RadixValue(d: string, base: nat): nat
    requires AllRadixDigits(d, base)
  {
    if d == [] then 0
    else
      var init := d[..|d| - 1];
      assert AllRadixDigits(init, base) by {
        forall i | 0 <= i < |init| ensures RadixDigit(init[i]).Some? && RadixDigit(init[i]).value < base {
          assert init[i] == d[i];
        }
      }
      RadixValue(init, base) * base + RadixDigit(d[|d| - 1]).value
  }

  /** NonDecimalIntegerLiteral after its `0x`/`0o`/`0b` prefix. */
  function ParseRadix(d: string, base: nat): Num {
    if d != [] && AllRadixDigits(d, base) then Finite(false, RadixValue(d, base), 0) else NaN
  }

  /** ExponentPart (or nothing): `e`/`E`, an optional sign and at least one digit. */
  function ParseExponent(rest: string): Option<int> {
    if rest == [] then Some(0)
    else if rest[0] != 'e' && rest[0] != 'E' then None
    else
      var t := rest[1..];
      var negative := t != [] && t[0] == '-';
      var ds := if t != [] && (t[0] == '-' || t[0] == '+') then t[1..] else t;
      if ds != [] && AllDigits(ds) then
        var v: int := Value(ds);
        Some(if negative then -v else v)
      else None
  }

  /** StrUnsignedDecimalLiteral: `Infinity`, or digits with an optional fraction and exponent. */
  function ParseUnsigned(u: string, negative: bool): Num {
    if u == "Infinity" then Infinite(negative)
    else
      var i := DigitRun(u);
      ParseFraction(u[..i], u[i..], negative)
  }

  /** What follows the integer digits: an optional `.` with fraction digits, then the exponent. */
  function ParseFraction(whole: string, afterWhole: string, negative: bool): Num
    requires AllDigits(whole)
  {
    if afterWhole != [] && afterWhole[0] == '.' then
      var f := DigitRun(afterWhole[1..]);
      Assemble(whole, afterWhole[1..][..f], afterWhole[1..][f..], negative)
    else Assemble(whole, [], afterWhole, negative)
  }

  /** A decimal literal needs a digit before or after the point; its value is whole.fraction·10^exponent. */
  function Assemble(whole: string, fraction: string, rest: string, negative: bool): Num
    requires AllDigits(whole) && AllDigits(fraction)
  {
    if |whole| + |fraction| == 0 then NaN
    else
      AllDigitsConcat(whole, fraction);
      match ParseExponent(rest)
      case None => NaN
      case Some(x) => Finite(negative, Value(whole + fraction), x - |fraction|)
  }

  /** `Number(s)` for a string `s`. */
  function ToNumber(s: string): Num {
    NumericLiteral(Trim(s))
  }

  /** StringNumericLiteral once the surrounding white space is gone: empty means 0. */
  function NumericLiteral(t: string): Num {
    if t == [] then Finite(false, 0, 0)
    else if |t| >= 2 && t[0] == '0' && RadixOf(t[1]).Some? then ParseRadix(t[2..], RadixOf(t[1]).value)
    else ParseSigned(t)
  }

  /** The base named by the letter after a leading `0`: `0x`, `0o`, `0b`. */
  function RadixOf(c: char): Option<nat> {
    if c == 'x' || c == 'X' then Some(16)
    else if c == 'o' || c == 'O' then Some(8)
    else if c == 'b' || c == 'B' then Some(2)
    else None
  }

  /** StrDecimalLiteral: an optional sign, then the unsigned literal. */
  function ParseSigned(t: string): Num
    requires t != []
  {
    if t[0] == '+' then ParseUnsigned(t[1..], false)
    else if t[0] == '-' then ParseUnsigned(t[1..], true)
    else ParseUnsigned(t, false)
  }

  /** `isNaN(x)` */
  predicate IsNaN(x: Num) {
    x.NaN?
  }

  /** `x >= 1` (false for NaN, as every comparison with NaN is). */
  predicate AtLeastOne(x: Num) {
    match x
    case NaN => false
    case Infinite(negative) => !negative
    case Finite(negative, m, e) => !negative && (if e >= 0 then m >= 1 else m >= Pow10(-e))
  }

  /** `x == y` on numbers: NaN equals nothing, and +0 equals -0. */
  predicate SameValue(x: Num, y: Num) {
    match (x, y)
    case (Finite(n1, m1, e1), Finite(n2, m2, e2)) =>
      (m1 == 0 && m2 == 0)
      || (n1 == n2 && (if e1 <= e2 then m1 == m2 * Pow10(e2 - e1) else m1 * Pow10(e1 - e2) == m2))
    case (Infinite(n1), Infinite(n2)) => n1 == n2
    case _ => false
  }

  /** A literal that starts with a digit, not as `0x`, `0o` or `0b`, and ends without white space is unsigned decimal. */
  lemma ToNumberOfDigitStart(t: string)
    requires t != [] && IsDigit(t[0]) && !IsWhiteSpace(t[|t| - 1])
    requires |t| >= 2 ==> IsDigit(t[1]) || t[1] == '.'
    ensures ToNumber(t) == ParseUnsigned(t, false)
  {
    TrimOfUnpadded(t);
    LiteralOfDigitStart(t);
  }

  lemma LiteralOfDigitStart(t: string)
    requires t != [] && IsDigit(t[0])
    requires |t| >= 2 ==> IsDigit(t[1]) || t[1] == '.'
    ensures NumericLiteral(t) == ParseUnsigned(t, false)
  {
    assert |t| >= 2 ==> RadixOf(t[1]).None?;
    assert t[0] != '+' && t[0] != '-';
  }

  /** The integer digits of an unsigned literal are its whole leading run of digits. */
  lemma UnsignedOfDigits(whole: string, rest: string)
    requires |whole| > 0 && AllDigits(whole) && (rest == [] || !IsDigit(rest[0]))
    ensures ParseUnsigned(whole + rest, false) == ParseFraction(whole, rest, false)
  {
    var u := whole + rest;
    assert u[0] == whole[0];
    assert u != "Infinity";
    DigitRunOf(whole, rest);
    assert u[..|whole|] == whole && u[|whole|..] == rest;
  }

  lemma ParseFractionOfPoint(whole: string, fraction: string)
    requires |whole| > 0 && AllDigits(whole) && AllDigits(fraction)
    ensures AllDigits(whole + fraction)
    ensures ParseFraction(whole, "." + fraction, false) == Finite(false, Value(whole + fraction), -|fraction|)
  {
    AllDigitsConcat(whole, fraction);
    var a := "." + fraction;
    assert a[1..] == fraction + [];
    DigitRunOf(fraction, []);
    assert fraction[..|fraction|] == fraction;
    assert fraction[|fraction|..] == [];
  }

  /** `Number` of digits, a point and digits is the exact decimal they spell. */
  lemma ToNumberOfDecimal(whole: string, fraction: string)
    requires |whole| > 0 && AllDigits(whole) && AllDigits(fraction)
    ensures AllDigits(whole + fraction)
    ensures ToNumber(whole + "." + fraction) == Finite(false, Value(whole + fraction), -|fraction|)
  {
    var a := "." + fraction;
    var t := whole + a;
    assert whole + "." + fraction == t;
    assert t[0] == whole[0];
    assert t[|t| - 1] == if fraction == [] then '.' else fraction[|fraction| - 1];
    assert |t| >= 2 ==> t[1] == if |whole| >= 2 then whole[1] else '.';
    ToNumberOfDigitStart(t);
    UnsignedOfDigits(whole, a);
    ParseFractionOfPoint(whole, fraction);
  }

  /** A run of digits alone is an integer. */
  lemma ToNumberOfDigits(whole: string)
    requires |whole| > 0 && AllDigits(whole)
    ensures ToNumber(whole) == Finite(false, Value(whole), 0)
  {
    assert IsDigit(whole[|whole| - 1]);
    assert |whole| >= 2 ==> IsDigit(whole[1]);
    ToNumberOfDigitStart(whole);
    UnsignedOfAllDigits(whole);
    FractionOfNothing(whole);
  }

  lemma UnsignedOfAllDigits(whole: string)
    requires |whole| > 0 && AllDigits(whole)
    ensures ParseUnsigned(whole, false) == ParseFraction(whole, [], false)
  {
    assert whole != "Infinity" by {
      assert IsDigit(whole[0]);
    }
    assert whole + [] == whole;
    DigitRunOf(whole, []);
    assert whole[..|whole|] == whole && whole[|whole|..] == [];
  }

  lemma FractionOfNothing(whole: string)
    requires |whole| > 0 && AllDigits(whole)
    ensures ParseFraction(whole, [], false) == Finite(false, Value(whole), 0)
  {
    assert whole + [] == whole;
    assert Assemble(whole, [], [], false) == Finite(false, Value(whole + []), 0);
  }

  /** After the point, anything that is neither a digit nor an exponent makes the literal NaN. */
  lemma ToNumberOfPointJunk(whole: string, junk: string)
    requires |whole| > 0 && AllDigits(whole)
    requires junk != [] && !IsDigit(junk[0]) && junk[0] != 'e' && junk[0] != 'E'
    requires !IsWhiteSpace(junk[|junk| - 1])
    ensures ToNumber(whole + "." + junk) == NaN
  {
    var a := "." + junk;
    var t := whole + a;
    assert whole + "." + junk == t;
    assert t[0] == whole[0] && t[|t| - 1] == junk[|junk| - 1];
    assert |t| >= 2 ==> t[1] == if |whole| >= 2 then whole[1] else '.';
    ToNumberOfDigitStart(t);
    UnsignedOfDigits(whole, a);
    FractionOfJunk(whole, junk);
  }

  lemma FractionOfJunk(whole: string, junk: string)
    requires AllDigits(whole)
    requires junk != [] && !IsDigit(junk[0]) && junk[0] != 'e' && junk[0] != 'E'
    ensures ParseFraction(whole, "." + junk, false) == NaN
  {
    var a := "." + junk;
    assert a[1..] == [] + junk;
    DigitRunOf([], junk);
    assert junk[..0] == [] && junk[0..] == junk;
    assert ParseExponent(junk) == None;
  }

  lemma ToNumberOfJunk(s: string)
    requires s != [] && !IsWhiteSpace(s[0]) && !IsDigit(s[0])
    requires s[0] != '.' && s[0] != '+' && s[0] != '-' && s[0] != 'I'
    ensures ToNumber(s) == NaN
  {
    var t := Trim(s);
    assert TrimStart(s) == s;
    assert t != [] && t[0] == s[0];
    assert t != "Infinity";
    assert DigitRun(t) == 0;
  }

  /** The decimal form with `mantissa` stripped of trailing zeros. */
  function Normalize(m: nat, e: int): (r: (nat, int))
    requires m > 0
    ensures r.0 > 0 && r.0 % 10 != 0 && r.1 >= e
    ensures SameValue(Finite(false, m, e), Finite(false, r.0, r.1))
    decreases m
  {
    if m % 10 == 0 then
      var r := Normalize(m / 10, e + 1);
      assert m == (m / 10) * Pow10(1);
      r
    else (m, e)
  }

  function Zeros(k: nat): (z: string)
    ensures |z| == k && AllDigits(z) && Value(z) == 0
  {
    if k == 0 then [] else
      var z := Zeros(k - 1) + "0";
      assert z[..|z| - 1] == Zeros(k - 1);
      z
  }

  /** Number::toString for a positive finite value m·10^e. */
  function PositiveToString(m: nat, e: int): string
    requires m > 0
  {
    var (m', e') := Normalize(m, e);
    var s := Decimal(m');
    var k := |s|;
    var n := k + e';
    if k <= n <= 21 then s + Zeros(n - k)
    else if 0 < n <= 21 then s[..n] + "." + s[n..]
    else if -6 < n <= 0 then "0." + Zeros(-n) + s
    else
      var x := n - 1;
      var exponent := "e" + (if x >= 0 then "+" else "-") + Decimal(if x >= 0 then x else -x);
      if k == 1 then s + exponent else s[..1] + "." + s[1..] + exponent
  }

  /** `String(x)` for a number `x`. */
  function ToString(x: Num): string {
    match x
    case NaN => "NaN"
    case Infinite(negative) => if negative then "-Infinity" else "Infinity"
    case Finite(negative, m, e) =>
      if m == 0 then "0" else (if negative then "-" else "") + PositiveToString(m, e)
  }

  /** `String(x)` of a positive `m·10^e` uses no exponent: 10^-7 <= x < 10^21. */
  predicate PlainDecimal(m: nat, e: int)
    requires m > 0
  {
    var (m', e') := Normalize(m, e);
    -6 < |Decimal(m')| + e' <= 21
  }

  /**
   * The digits of a positive number written without an exponent are its
   * significant digits followed by the zeros of a positive exponent: the
   * decimal point and the leading `0.` leave no trace.
   */
  lemma DigitsOfPositiveString(m: nat, e: int)
    requires m > 0 && PlainDecimal(m, e)
    ensures var (m', e') := Normalize(m, e);
      Value(KeepDigits(PositiveToString(m, e))) == if e' >= 0 then m' * Pow10(e') else m'
  {
    var (m', e') := Normalize(m, e);
    var s := Decimal(m');
    var k := |s|;
    var n := k + e';
    if k <= n {
      DigitsOfWhole(s, n - k);
    } else if 0 < n {
      DigitsOfPoint(s, n);
    } else {
      DigitsOfFraction(Zeros(-n), s);
    }
  }

  lemma DigitsOfWhole(s: string, j: nat)
    requires AllDigits(s)
    ensures AllDigits(s + Zeros(j)) && Value(KeepDigits(s + Zeros(j))) == Value(s) * Pow10(j)
  {
    ValueConcat(s, Zeros(j));
    KeepDigitsOfDigits(s + Zeros(j));
  }

  lemma DigitsOfPoint(s: string, n: nat)
    requires AllDigits(s) && n <= |s|
    ensures Value(KeepDigits(s[..n] + "." + s[n..])) == Value(s)
  {
    var a, b := s[..n], s[n..];
    KeepDigitsSkip(a, ".", b);
    assert a + b == s;
  }

  lemma DigitsOfFraction(z: string, s: string)
    requires AllDigits(z) && Value(z) == 0 && AllDigits(s)
    ensures Value(KeepDigits("0." + z + s)) == Value(s)
  {
    var t := z + s;
    assert "0." + z + s == "0" + "." + t;
    AllDigitsConcat(z, s);
    KeepDigitsSkip("0", ".", t);
    ValueConcat(z, s);
    LeadingZero(t);
  }

  /** Dropping a run of non-digits between two digit strings. */
  lemma KeepDigitsSkip(a: string, sep: string, b: string)
    requires AllDigits(a) && AllDigits(b) && forall i :: 0 <= i < |sep| ==> !IsDigit(sep[i])
    ensures KeepDigits(a + sep + b) == a + b
  {
    KeepDigitsOfNonDigits(sep);
    KeepDigitsOfDigits(a);
    KeepDigitsOfDigits(b);
    KeepDigitsConcat(a, sep);
    assert KeepDigits(a + sep) == a;
    KeepDigitsConcat(a + sep, b);
  }

  lemma LeadingZero(t: string)
    requires AllDigits(t)
    ensures AllDigits("0" + t) && Value("0" + t) == Value(t)
  {
    ValueConcat("0", t);
    assert Value("0") == 0;
  }
}
