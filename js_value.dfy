/** Spreadsheet cell values as the pipeline sees them, and the JavaScript
    coercions applied to them: `Number(v)`, `String(v)`, truthiness and
    `Math.round`. Numbers are exact reals: floating-point rounding is not
    modelled. */
module JsValue {
  import opened JsText

  datatype Option<T> = None | Some(value: T)

  /** A cell of the decoded sheet, or a field of a survey record. A field
      that a record lacks (JavaScript `undefined`) is an absent map key. */
  datatype Value = Num(n: real) | Str(s: string) | Null

  predicate IsDigit(c: char) {
    '0' <= c <= '9'
  }

  predicate AllDigits(s: string) {
    forall i :: 0 <= i < |s| ==> IsDigit(s[i])
  }

  function DigitValue(c: char): (d: nat)
    requires IsDigit(c)
    ensures d < 10
  {
    (c as int) - ('0' as int)
  }

  function DigitChar(d: nat): (c: char)
    requires d < 10
    ensures IsDigit(c) && DigitValue(c) == d
  {
    ('0' as int + d) as char
  }

  /** The value of a string of decimal digits. */
  function DigitsValue(ds: string): (v: nat)
    requires AllDigits(ds)
    ensures v < Pow10(|ds|)
  {
    if ds == [] then 0 else 10 * DigitsValue(ds[..|ds| - 1]) + DigitValue(ds[|ds| - 1])
  }

  function Pow10(n: nat): (p: nat)
    ensures p >= 1
  {
    if n == 0 then 1 else 10 * Pow10(n - 1)
  }

  lemma FractionBelowOne(y: real, p: real)
    requires 0.0 <= y < p
    ensures 0.0 <= y / p < 1.0
  {
  }

  /** The value of the literal made of the digits `a`, a point and the
      digits `b`: the fraction part stays below one. */
  function DecimalValue(a: string, b: string): (x: real)
    requires AllDigits(a) && AllDigits(b)
    ensures DigitsValue(a) as real <= x < DigitsValue(a) as real + 1.0
  {
    var y, p := DigitsValue(b) as real, Pow10(|b|) as real;
    FractionBelowOne(y, p);
    DigitsValue(a) as real + y / p
  }

  /** The length of the longest all-digit prefix of `s`. */
  function LeadingDigits(s: string): (k: nat)
    ensures k <= |s| && AllDigits(s[..k])
    ensures k < |s| ==> !IsDigit(s[k])
  {
    if s == [] || !IsDigit(s[0]) then 0
    else
      var k := 1 + LeadingDigits(s[1..]);
      assert s[..k] == [s[0]] + s[1..][..k - 1];
      k
  }

  /** An unsigned decimal literal: digits, optionally followed by a point and
      more digits, with at least one digit in all. */
  function ParseUnsigned(t: string): (r: Option<real>)
    ensures r.Some? ==> r.value >= 0.0
  {
    var k := LeadingDigits(t);
    if k == |t| then
      (if k == 0 then None else Some(DigitsValue(t) as real))
    else if t[k] != '.' then None
    else
      var frac := t[k + 1..];
      var m := LeadingDigits(frac);
      if m != |frac| || (k == 0 && m == 0) then None
      else
        assert frac[..m] == frac;
        Some(DecimalValue(t[..k], frac))
  }

  /** `LeadingDigits` finds exactly the digit prefix that ends at the first
      non-digit. */
  lemma {:induction false} LeadingDigitsOf(t: string, k: nat)
    requires k <= |t| && AllDigits(t[..k])
    requires k < |t| ==> !IsDigit(t[k])
    ensures LeadingDigits(t) == k
  {
    if k > 0 {
      assert IsDigit(t[..k][0]);
      assert t[1..][..k - 1] == t[..k][1..];
      LeadingDigitsOf(t[1..], k - 1);
    }
  }

  /** The strings `ParseUnsigned` accepts: a non-empty run of digits, or two
      runs of digits around one point, not both empty. */
  /** `t` holds a point at `k` with only digits on either side. */
  predicate PointAt(t: string, k: int) {
    0 <= k < |t| && t[k] == '.' && AllDigits(t[..k]) && AllDigits(t[k + 1..])
  }

  predicate IsUnsignedLiteral(t: string) {
    (t != [] && AllDigits(t))
    || (|t| > 1 && exists k | 0 <= k < |t| :: PointAt(t, k))
  }

  /** The fraction branch of `ParseUnsigned`, once both digit runs are
      known. */
  lemma ParseUnsignedFraction(t: string, k: nat)
    requires k < |t| && t[k] == '.' && |t| > 1
    requires LeadingDigits(t) == k && LeadingDigits(t[k + 1..]) == |t| - k - 1
    ensures ParseUnsigned(t)
      == Some(DecimalValue(t[..k], t[k + 1..]))
  {
  }

  /** A literal with its point at `k` parses to the integer part plus the
      scaled fraction part. */
  lemma ParseUnsignedAtPoint(t: string, k: nat)
    requires k < |t| && t[k] == '.' && AllDigits(t[..k]) && AllDigits(t[k + 1..]) && |t| > 1
    ensures ParseUnsigned(t)
      == Some(DecimalValue(t[..k], t[k + 1..]))
  {
    LeadingDigitsOf(t, k);
    var frac := t[k + 1..];
    assert frac[..|frac|] == frac;
    LeadingDigitsOf(frac, |frac|);
    ParseUnsignedFraction(t, k);
  }

  /** An unsigned literal, possibly after one sign character. */
  predicate IsSignedLiteral(t: string) {
    IsUnsignedLiteral(t) || (t != [] && (t[0] == '-' || t[0] == '+') && IsUnsignedLiteral(t[1..]))
  }

  /** A text that starts with a sign is not itself an unsigned literal. */
  lemma SignedIsNotUnsigned(t: string)
    requires t != [] && (t[0] == '-' || t[0] == '+')
    ensures !IsUnsignedLiteral(t)
  {
  }

  /** What `ParseUnsigned` says about a text and about the text after its
      first character. */
  lemma SignedLiteralCases(t: string)
    ensures ParseUnsigned(t).Some? <==> IsUnsignedLiteral(t)
    ensures t != [] ==> (ParseUnsigned(t[1..]).Some? <==> IsUnsignedLiteral(t[1..]))
    ensures t != [] && (t[0] == '-' || t[0] == '+') ==> !IsUnsignedLiteral(t)
  {
    ParseUnsignedAccepts(t);
    if t != [] {
      ParseUnsignedAccepts(t[1..]);
      if t[0] == '-' || t[0] == '+' {
        SignedIsNotUnsigned(t);
      }
    }
  }

  /** `ParseUnsigned` succeeds exactly on unsigned decimal literals. */
  lemma ParseUnsignedAccepts(t: string)
    ensures ParseUnsigned(t).Some? <==> IsUnsignedLiteral(t)
  {
    var k := LeadingDigits(t);
    if k == |t| {
      assert t[..k] == t;
    } else {
      if ParseUnsigned(t).Some? {
        var frac := t[k + 1..];
        assert frac[..LeadingDigits(frac)] == frac;
        assert PointAt(t, k);
      }
      if |t| > 1 && exists j | 0 <= j < |t| :: PointAt(t, j) {
        var j :| 0 <= j < |t| && PointAt(t, j);
        assert t[j] == '.' && AllDigits(t[..j]) && AllDigits(t[j + 1..]);
        ParseUnsignedAtPoint(t, j);
      }
    }
  }

  /** A run of digits parses to its value. */
  lemma UnsignedIntegerValue(a: string)
    requires a != [] && AllDigits(a)
    ensures ParseUnsigned(a) == Some(DigitsValue(a) as real)
  {
    assert a[..|a|] == a;
    LeadingDigitsOf(a, |a|);
  }

  /** Digits, a point and digits parse to the integer part plus the fraction
      part scaled by the number of fraction digits. */
  lemma UnsignedDecimalValue(a: string, b: string)
    requires AllDigits(a) && AllDigits(b) && (a != [] || b != [])
    ensures ParseUnsigned(a + "." + b) == Some(DecimalValue(a, b))
  {
    var t := a + "." + b;
    assert t[..|a|] == a;
    assert t[|a| + 1..] == b;
    ParseUnsignedAtPoint(t, |a|);
  }

  /** `Number(s)` for a string: surrounding whitespace is ignored, a blank
      string is 0, a signed decimal literal is its value; anything else is
      NaN, written `None`. */
  function ParseNumber(s: string): (r: Option<real>)
    ensures Trim(s) == [] ==> r == Some(0.0)
    ensures r.Some? <==> Trim(s) == [] || IsSignedLiteral(Trim(s))
  {
    var t := Trim(s);
    SignedLiteralCases(t);
    if t == [] then Some(0.0)
    else if t[0] == '-' then
      (match ParseUnsigned(t[1..])
       case Some(x) => Some(-x)
       case None => None)
    else if t[0] == '+' then ParseUnsigned(t[1..])
    else ParseUnsigned(t)
  }

  /** `Number(v)`; `None` is NaN. */
  function ToNumber(v: Value): (r: Option<real>)
    ensures v == Null || v == Str("") ==> r == Some(0.0)
    ensures v.Num? ==> r == Some(v.n)
    ensures v.Str? ==> (r.Some? <==> Trim(v.s) == [] || IsSignedLiteral(Trim(v.s)))
  {
    match v
    case Num(x) => Some(x)
    case Str(s) => ParseNumber(s)
    case Null => Some(0.0)
  }

  /** `!isNaN(Number(v)) && Number(v) > 0`. */
  predicate IsPositiveNumber(v: Value) {
    var x := ToNumber(v);
    x.Some? && x.value > 0.0
  }

  /** JavaScript truthiness: 0, '' and null are falsy. */
  predicate Truthy(v: Value) {
    match v
    case Num(x) => x != 0.0
    case Str(s) => s != ""
    case Null => false
  }

  function NatToString(n: nat): (s: string)
    ensures |s| >= 1 && AllDigits(s)
  {
    if n < 10 then [DigitChar(n)] else NatToString(n / 10) + [DigitChar(n % 10)]
  }

  /** Up to `fuel` decimal digits of a fraction in [0, 1), stopping when the
      remaining fraction is 0. */
  function FractionDigits(f: real, fuel: nat): (ds: string)
    requires 0.0 <= f < 1.0
    ensures AllDigits(ds) && |ds| <= fuel
    ensures fuel > 0 && f != 0.0 ==> ds != []
    decreases fuel
  {
    if fuel == 0 || f == 0.0 then ""
    else
      var d := (f * 10.0).Floor;
      [DigitChar(d)] + FractionDigits(f * 10.0 - d as real, fuel - 1)
  }

  /** `String(x)` for a number: an integer prints as its digits; otherwise
      the integer part, a point and at most 20 fraction digits. */
  function NumberToString(x: real): (t: string)
    ensures IsSignedLiteral(t) && IsDigit(t[|t| - 1])
    ensures x < 0.0 <==> t[0] == '-'
    ensures x >= 0.0 ==> IsDigit(t[0])
  {
    if x < 0.0 then "-" + UnsignedToString(-x) else UnsignedToString(x)
  }

  function UnsignedToString(x: real): (t: string)
    requires x >= 0.0
    ensures IsUnsignedLiteral(t) && IsDigit(t[0]) && IsDigit(t[|t| - 1])
  {
    var n := x.Floor;
    if n as real == x then NatToString(n)
    else
      var a, b := NatToString(n), FractionDigits(x - n as real, 20);
      var t := a + "." + b;
      assert t[..|a|] == a && t[|a| + 1..] == b && t[|a|] == '.';
      assert PointAt(t, |a|);
      t
  }

  /** `String(v)`. */
  function ToText(v: Value): (t: string)
    ensures v.Num? ==> IsSignedLiteral(t) && (v.n < 0.0 <==> t[0] == '-')
    ensures v.Str? ==> t == v.s
    ensures v == Null ==> t == "null"
  {
    match v
    case Num(x) => NumberToString(x)
    case Str(s) => s
    case Null => "null"
  }

  /** `Math.round(x)`: the nearest integer, halves rounded up. */
  function Round(x: real): (r: int)
    ensures x - 0.5 < r as real <= x + 0.5
  {
    (x + 0.5).Floor
  }

  /** `Math.round(x * 10) / 10`: rounding to one decimal place. */
  function Round1(x: real): (r: real)
    ensures x - 0.05 < r <= x + 0.05
    ensures (r * 10.0).Floor as real == r * 10.0
  {
    Round(x * 10.0) as real / 10.0
  }

  /** Rounding to one decimal never reverses the order of two numbers. */
  lemma Round1Monotone(x: real, y: real)
    requires x <= y
    ensures Round1(x) <= Round1(y)
  {
    var a, b := Round(x * 10.0), Round(y * 10.0);
    assert a as real <= x * 10.0 + 0.5 <= y * 10.0 + 0.5 < b as real + 1.0;
    assert a <= b;
  }

  /** A number that already has one decimal place is left unchanged. */
  lemma Round1OfTenths(k: int)
    ensures Round1(k as real / 10.0) == k as real / 10.0
  {
    var x := k as real / 10.0;
    assert x * 10.0 == k as real;
    assert Round(k as real) == k;
  }

  /** Rounding to one decimal does not cross a bound that itself has one
      decimal place. */
  lemma Round1Threshold(x: real, k: int)
    ensures k as real / 10.0 <= x ==> k as real / 10.0 <= Round1(x)
    ensures x <= k as real / 10.0 ==> Round1(x) <= k as real / 10.0
  {
    Round1OfTenths(k);
    if k as real / 10.0 <= x {
      Round1Monotone(k as real / 10.0, x);
    }
    if x <= k as real / 10.0 {
      Round1Monotone(x, k as real / 10.0);
    }
  }

  /** Rounding a number in [lo, hi] to one decimal stays in [lo, hi] when
      the bounds themselves have one decimal place. */
  lemma Round1Within(x: real, lo: int, hi: int)
    requires lo as real / 10.0 <= x <= hi as real / 10.0
    ensures lo as real / 10.0 <= Round1(x) <= hi as real / 10.0
  {
    Round1Monotone(lo as real / 10.0, x);
    Round1Monotone(x, hi as real / 10.0);
    Round1OfTenths(lo);
    Round1OfTenths(hi);
  }

  /** The digits of `n` read back as `n`. */
  lemma {:induction false} NatDigitsValue(n: nat)
    ensures DigitsValue(NatToString(n)) == n
  {
    if n >= 10 {
      NatDigitsValue(n / 10);
      var s := NatToString(n);
      assert s[..|s| - 1] == NatToString(n / 10);
    }
  }

  /** The digits of `m` parse back as `m`. */
  lemma DigitsParse(m: nat)
    ensures ParseUnsigned(NatToString(m)) == Some(m as real)
  {
    var digits := NatToString(m);
    NatDigitsValue(m);
    assert LeadingDigits(digits) == |digits|;
  }

  /** A whole number prints as its digits, after a minus sign when it is
      negative. */
  lemma IntegerText(i: int)
    ensures i >= 0 ==> ToText(Num(i as real)) == NatToString(i)
    ensures i < 0 ==> ToText(Num(i as real)) == "-" + NatToString(-i)
  {
    var m: nat := if i < 0 then -i else i;
    var x := i as real;
    UnsignedOfWhole(m);
    if i < 0 {
      assert -x == m as real;
      assert NumberToString(x) == "-" + UnsignedToString(m as real);
    } else {
      assert NumberToString(x) == UnsignedToString(m as real);
    }
  }

  /** A whole non-negative number prints as its digits. */
  lemma UnsignedOfWhole(m: nat)
    ensures UnsignedToString(m as real) == NatToString(m)
  {
    assert (m as real).Floor == m;
  }

  /** A run of digits reads through `Number` as its value. */
  lemma NumberOfDigits(ds: string)
    requires ds != [] && AllDigits(ds)
    ensures ParseNumber(ds) == Some(DigitsValue(ds) as real)
  {
    assert Trim(ds) == ds by {
      assert IsDigit(ds[0]) && IsDigit(ds[|ds| - 1]);
      TrimOfUnpadded(ds);
    }
    UnsignedIntegerValue(ds);
  }

  /** A minus sign followed by a run of digits reads through `Number` as the
      negated value. */
  lemma NumberOfNegatedDigits(t: string)
    requires |t| > 1 && t[0] == '-' && AllDigits(t[1..])
    ensures ParseNumber(t) == Some(-(DigitsValue(t[1..]) as real))
  {
    SignedDigitsUnpadded(t);
    UnsignedIntegerValue(t[1..]);
    NumberOfSigned(t);
  }

  /** A minus sign followed by digits has no surrounding whitespace. */
  lemma SignedDigitsUnpadded(t: string)
    requires |t| > 1 && t[0] == '-' && AllDigits(t[1..])
    ensures Trim(t) == t
  {
    assert IsDigit(t[1..][|t| - 2]);
    TrimOfUnpadded(t);
  }

  /** A trimmed text that starts with a minus sign reads as the negated
      unsigned literal after the sign. */
  lemma NumberOfSigned(t: string)
    requires Trim(t) == t && t != [] && t[0] == '-'
    ensures ParseNumber(t) == match ParseUnsigned(t[1..]) case Some(x) => Some(-x) case None => None
  {
  }

  /** Printing an integer and parsing the text again gives the integer back:
      `Number(String(i)) == i`. */
  lemma IntegerTextRoundTrip(i: int)
    ensures ToNumber(Str(ToText(Num(i as real)))) == Some(i as real)
  {
    var m: nat := if i < 0 then -i else i;
    IntegerText(i);
    NatDigitsValue(m);
    if i < 0 {
      var t := "-" + NatToString(m);
      assert t[1..] == NatToString(m);
      NumberOfNegatedDigits(t);
    } else {
      NumberOfDigits(NatToString(m));
    }
  }

  /** Every number prints as a text that `Number` reads back as a number,
      never as NaN. */
  lemma NumberTextParses(x: real)
    ensures ToNumber(Str(ToText(Num(x)))).Some?
  {
    var t := ToText(Num(x));
    assert !IsWhitespace(t[0]) && !IsWhitespace(t[|t| - 1]);
    TrimOfUnpadded(t);
  }

  /** A string whose ends are not whitespace is its own trim. */
  lemma TrimOfUnpadded(s: string)
    requires s != [] && !IsWhitespace(s[0]) && !IsWhitespace(s[|s| - 1])
    ensures Trim(s) == s
  {
  }
}
