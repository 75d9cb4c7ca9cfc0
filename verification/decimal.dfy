/** `decimal.Decimal(text)` as the eligibility engine uses it: a partial parser
    from text to an exact rational number, and the text Django produces for the
    integer and two-decimal-place fields the parser is fed. */
module PyDecimal {
  import opened Wrappers
  import opened PyStr

  /** The length of the run of ASCII digits at the front of `s`. */
  function LeadingDigits(s: string): (n: nat)
    ensures n <= |s| && AllDigits(s[..n])
    ensures n == |s| || !IsDigit(s[n])
  {
    if s != [] && IsDigit(s[0]) then
      var n := 1 + LeadingDigits(s[1..]);
      assert s[..n] == [s[0]] + s[1..][..n - 1];
      n
    else 0
  }

  lemma {:induction false} LeadingDigitsOfDigits(s: string)
    requires AllDigits(s)
    ensures LeadingDigits(s) == |s|
  {
    if s != [] {
      LeadingDigitsOfDigits(s[1..]);
    }
  }

  lemma {:induction false} LeadingDigitsStopsAt(a: string, b: string)
    requires AllDigits(a) && b != [] && !IsDigit(b[0])
    ensures LeadingDigits(a + b) == |a|
  {
    if a != [] {
      assert (a + b)[1..] == a[1..] + b;
      LeadingDigitsStopsAt(a[1..], b);
    }
  }

  /** An exact decimal number: `mantissa` times ten to the power `exponent`. */
  datatype Dec = Dec(mantissa: int, exponent: int)

  /** The mantissas of `x` and `y` brought to their common (smaller) exponent. */
  function Aligned(x: Dec, y: Dec): (r: (int, int)) {
    var e := if x.exponent <= y.exponent then x.exponent else y.exponent;
    (x.mantissa * Pow10(x.exponent - e), y.mantissa * Pow10(y.exponent - e))
  }

  /** Python's `x <= y` on two finite `Decimal`s: an exact numeric comparison. */
  predicate DecLe(x: Dec, y: Dec) {
    Aligned(x, y).0 <= Aligned(x, y).1
  }

  /** Python's `x == y` on two finite `Decimal`s: numeric equality, so `2.00 == 2`. */
  predicate DecEq(x: Dec, y: Dec) {
    Aligned(x, y).0 == Aligned(x, y).1
  }

  /** The optional exponent `e[sign]digits` (either case) that may end a number. */
  function ParseExponent(t: string): Option<int> {
    if t == [] then Some(0)
    else if t[0] == 'e' || t[0] == 'E' then
      var u := t[1..];
      var negative := u != [] && u[0] == '-';
      var ds := if u != [] && (u[0] == '+' || u[0] == '-') then u[1..] else u;
      if IsDigitString(ds) then
        var magnitude: int := DigitsValue(ds);
        Some(if negative then -magnitude else magnitude)
      else None
    else None
  }

  /** `digits[.digits]` or `.digits`, then an optional exponent. */
  function ParseUnsigned(t: string): Option<Dec> {
    var i := LeadingDigits(t);
    ParseAfterInteger(t[..i], t[i..])
  }

  /** What follows the integer digits `w`: a fraction, an exponent or nothing. */
  function ParseAfterInteger(w: string, tail: string): Option<Dec>
    requires AllDigits(w)
  {
    if tail != [] && tail[0] == '.' then ParseFraction(w, tail[1..])
    else if w == [] then None
    else WithExponent(DigitsValue(w), 0, tail)
  }

  /** The digits after the point, which together with `w` must not be empty. */
  function ParseFraction(w: string, rest: string): Option<Dec>
    requires AllDigits(w)
  {
    var j := LeadingDigits(rest);
    if |w| + j == 0 then None
    else
      assert AllDigits(w + rest[..j]);
      WithExponent(DigitsValue(w + rest[..j]), j, rest[j..])
  }

  /** The mantissa `m` with `shift` fraction digits, scaled by the exponent in `tail`. */
  function WithExponent(m: nat, shift: nat, tail: string): Option<Dec> {
    match ParseExponent(tail)
    case None => None
    case Some(e) => Some(Dec(m, e - shift))
  }

  /** `Decimal(s)`: surrounding whitespace is ignored, an optional sign is read,
      and `None` stands for the `InvalidOperation` the constructor raises. */
  function ParseDecimal(s: string): Option<Dec> {
    ParseSigned(Strip(s))
  }

  function ParseSigned(t: string): Option<Dec> {
    if t != [] && (t[0] == '+' || t[0] == '-') then
      match ParseUnsigned(t[1..])
      case None => None
      case Some(d) => Some(if t[0] == '-' then Dec(-d.mantissa, d.exponent) else d)
    else ParseUnsigned(t)
  }

  /** `str(d)` of a value stored with two decimal places, given in hundredths. */
  function CentsText(cents: int): (r: string)
    ensures |r| > 0
  {
    if cents < 0 then "-" + UnsignedCentsText(-cents) else UnsignedCentsText(cents)
  }

  function UnsignedCentsText(a: nat): (r: string)
    ensures |r| > 0 && IsDigit(r[0]) && IsDigit(r[|r| - 1])
  {
    NatText(a / 100) + "." + [DigitChar(a % 100 / 10), DigitChar(a % 10)]
  }

  lemma UnsignedOfNat(n: nat)
    ensures ParseUnsigned(NatText(n)) == Some(Dec(n, 0))
  {
    var t := NatText(n);
    LeadingDigitsOfDigits(t);
    assert t[..|t|] == t;
    assert t[|t|..] == [];
    NatTextValue(n);
    assert ParseAfterInteger(t, []) == WithExponent(n, 0, []);
  }

  /** `w.f` with digit strings `w` (non-empty) and `f` denotes `wf` shifted by `|f|` places. */
  lemma UnsignedOfPointed(w: string, f: string)
    requires IsDigitString(w) && AllDigits(f)
    ensures AllDigits(w + f)
    ensures ParseUnsigned(w + "." + f) == Some(Dec(DigitsValue(w + f), -|f|))
  {
    var t := w + "." + f;
    assert t == w + ("." + f);
    LeadingDigitsStopsAt(w, "." + f);
    assert t[|w|..] == "." + f;
    assert t[..|w|] == w;
    assert ParseUnsigned(t) == ParseAfterInteger(w, "." + f);
    assert ("." + f)[1..] == f;
    FractionOfDigits(w, f);
  }

  lemma FractionOfDigits(w: string, f: string)
    requires IsDigitString(w) && AllDigits(f)
    ensures AllDigits(w + f)
    ensures ParseFraction(w, f) == Some(Dec(DigitsValue(w + f), -|f|))
  {
    LeadingDigitsOfDigits(f);
    assert f[..|f|] == f && f[|f|..] == [];
  }

  lemma TwoDigits(a: nat)
    ensures DigitsValue([DigitChar(a % 100 / 10), DigitChar(a % 10)]) == a % 100
  {
    var hi, lo := DigitChar(a % 100 / 10), DigitChar(a % 10);
    var f := [hi, lo];
    assert f[..1] == [hi];
    assert [hi][..0] == [];
    assert DigitsValue([hi]) == a % 100 / 10;
    assert DigitsValue(f) == (a % 100 / 10) * 10 + a % 10;
  }

  lemma UnsignedOfCents(a: nat)
    ensures ParseUnsigned(UnsignedCentsText(a)) == Some(Dec(a, -2))
  {
    var w := NatText(a / 100);
    var f := [DigitChar(a % 100 / 10), DigitChar(a % 10)];
    UnsignedOfPointed(w, f);
    DigitsValueAppend(w, f);
    NatTextValue(a / 100);
    TwoDigits(a);
    assert Pow10(2) == 100;
  }

  lemma SignedOfUnsigned(t: string)
    requires t == [] || (t[0] != '+' && t[0] != '-')
    ensures ParseSigned(t) == ParseUnsigned(t)
  {
  }

  lemma SignedOfNegative(t: string, m: nat, e: int)
    requires ParseUnsigned(t) == Some(Dec(m, e))
    ensures ParseSigned("-" + t) == Some(Dec(-(m as int), e))
  {
    assert ("-" + t)[1..] == t;
  }

  lemma ParseTrimmed(t: string)
    requires t != [] && !IsSpace(t[0]) && !IsSpace(t[|t| - 1])
    ensures ParseDecimal(t) == ParseSigned(t)
  {
    StripUnchanged(t);
  }

  lemma ParseNegated(u: string, m: nat, e: int)
    requires u != [] && IsDigit(u[0]) && IsDigit(u[|u| - 1])
    requires ParseUnsigned(u) == Some(Dec(m, e))
    ensures ParseDecimal("-" + u) == Some(Dec(-(m as int), e))
  {
    SignedOfNegative(u, m, e);
    NegatedTrimmed(u);
  }

  lemma ParsePlain(u: string, d: Dec)
    requires u != [] && IsDigit(u[0]) && IsDigit(u[|u| - 1])
    requires ParseUnsigned(u) == Some(d)
    ensures ParseDecimal(u) == Some(d)
  {
    ParseTrimmed(u);
    SignedOfUnsigned(u);
  }

  lemma NegatedTrimmed(u: string)
    requires u != [] && IsDigit(u[0]) && IsDigit(u[|u| - 1])
    ensures ParseDecimal("-" + u) == ParseSigned("-" + u)
  {
    var t := "-" + u;
    assert t[0] == '-' && t[|t| - 1] == u[|u| - 1];
    ParseTrimmed(t);
  }

  lemma NonNegativeIntText(n: nat)
    ensures ParseDecimal(NatText(n)) == Some(Dec(n, 0))
  {
    UnsignedOfNat(n);
    ParsePlain(NatText(n), Dec(n, 0));
  }

  lemma NegativeIntText(n: nat)
    ensures ParseDecimal("-" + NatText(n)) == Some(Dec(-(n as int), 0))
  {
    UnsignedOfNat(n);
    ParseNegated(NatText(n), n, 0);
  }

  /** The text of an integer field reads back as that integer. */
  lemma IntTextRoundTrip(i: int)
    ensures ParseDecimal(IntText(i)) == Some(Dec(i, 0))
  {
    if i < 0 {
      var n: nat := -i;
      assert IntText(i) == "-" + NatText(n);
      NegativeIntText(n);
    } else {
      NonNegativeIntText(i);
    }
  }

  lemma NonNegativeCentsText(a: nat)
    ensures ParseDecimal(UnsignedCentsText(a)) == Some(Dec(a, -2))
  {
    UnsignedOfCents(a);
    ParsePlain(UnsignedCentsText(a), Dec(a, -2));
  }

  lemma NegativeCentsText(a: nat)
    ensures ParseDecimal("-" + UnsignedCentsText(a)) == Some(Dec(-(a as int), -2))
  {
    UnsignedOfCents(a);
    ParseNegated(UnsignedCentsText(a), a, -2);
  }

  /** The text of a two-decimal-place field reads back as the exact amount in hundredths. */
  lemma CentsTextRoundTrip(cents: int)
    ensures ParseDecimal(CentsText(cents)) == Some(Dec(cents, -2))
  {
    if cents < 0 {
      var a: nat := -cents;
      assert CentsText(cents) == "-" + UnsignedCentsText(a);
      NegativeCentsText(a);
    } else {
      NonNegativeCentsText(cents);
    }
  }
}
