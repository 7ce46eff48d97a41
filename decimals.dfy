/**
  The part of Python's `decimal.Decimal(str)` constructor that the amount
  validator relies on: the numeric-string grammar (a sign, then a finite literal,
  an infinity or a NaN), and the comparisons `dec == Decimal("NaN")` and
  `dec <= Decimal("0")` that the validator makes.
*/
module Decimals {
  import opened Wrappers

  /**
    A parsed decimal. A finite value is (-1)^negative * coefficient * 10^exponent;
    "Infinity"/"Inf" give an infinity, "NaN"/"sNaN" a quiet or signaling NaN.
  */
  datatype Decimal =
    | Finite(negative: bool, coefficient: nat, exponent: int)
    | Infinite(negative: bool)
    | NaN(negative: bool, signaling: bool)

  predicate IsDigit(c: char) { '0' <= c <= '9' }

  predicate AllDigits(s: string) {
    forall i :: 0 <= i < |s| ==> IsDigit(s[i])
  }

  /** The number a string of decimal digits denotes (most significant first). */
  function DigitsValue(s: string): nat
    requires AllDigits(s)
  {
    if s == [] then 0 else 10 * DigitsValue(s[..|s| - 1]) + (s[|s| - 1] as int - '0' as int)
  }

  /** ASCII lower-casing, as the constructor applies to "Infinity" and "NaN". */
  function LowerAscii(c: char): char {
    if 'A' <= c <= 'Z' then (c as int + 32) as char else c
  }

  function LowerAll(s: string): (r: string)
    ensures |r| == |s| && forall i :: 0 <= i < |s| ==> r[i] == LowerAscii(s[i])
  {
    if s == [] then [] else [LowerAscii(s[0])] + LowerAll(s[1..])
  }

  /** The first index of `c` in `s`, or `|s|` when `c` does not occur. */
  function IndexOf(s: string, c: char): (k: nat)
    ensures k <= |s|
    ensures forall i :: 0 <= i < k ==> s[i] != c
    ensures k < |s| ==> s[k] == c
  {
    if s == [] then 0 else if s[0] == c then 0 else 1 + IndexOf(s[1..], c)
  }

  /** The first index of an exponent indicator 'e' or 'E', or `|s|`. */
  function IndexOfExponent(s: string): (k: nat)
    ensures k <= |s|
    ensures forall i :: 0 <= i < k ==> s[i] != 'e' && s[i] != 'E'
    ensures k < |s| ==> s[k] == 'e' || s[k] == 'E'
  {
    if s == [] then 0 else if s[0] == 'e' || s[0] == 'E' then 0 else 1 + IndexOfExponent(s[1..])
  }

  /** `[sign] digits`, the part after the exponent indicator. */
  function ParseExponent(s: string): Option<int> {
    if s != [] && (s[0] == '+' || s[0] == '-') then
      var ds := s[1..];
      if ds != [] && AllDigits(ds) then
        var v: int := DigitsValue(ds);
        Some(if s[0] == '-' then -v else v)
      else None
    else if s != [] && AllDigits(s) then Some(DigitsValue(s))
    else None
  }

  /**
    `digits '.' [digits] | ['.'] digits`: the coefficient the digits spell and
    the number of digits after the point.
  */
  function ParseMantissa(m: string): Option<(nat, nat)> {
    var dot := IndexOf(m, '.');
    var whole := m[..dot];
    var fraction := if dot < |m| then m[dot + 1..] else "";
    if AllDigits(whole) && AllDigits(fraction) && |whole| + |fraction| > 0 then
      Some((DigitsValue(whole + fraction), |fraction|))
    else None
  }

  /** A mantissa, then an optional exponent part. */
  function ParseFinite(s: string, negative: bool): Option<Decimal> {
    var e := IndexOfExponent(s);
    var m := ParseMantissa(s[..e]);
    var x := if e < |s| then ParseExponent(s[e + 1..]) else Some(0);
    if m.Some? && x.Some? then Some(Finite(negative, m.value.0, x.value - m.value.1)) else None
  }

  function ParseUnsigned(s: string, negative: bool): Option<Decimal> {
    var l := LowerAll(s);
    if l == "inf" || l == "infinity" then Some(Infinite(negative))
    else if |l| >= 3 && l[..3] == "nan" && AllDigits(l[3..]) then Some(NaN(negative, false))
    else if |l| >= 4 && l[..4] == "snan" && AllDigits(l[4..]) then Some(NaN(negative, true))
    else ParseFinite(s, negative)
  }

  /**
    `Decimal(s)` for a string with no surrounding whitespace: `None` where the
    constructor raises `InvalidOperation`.
  */
  function Parse(s: string): Option<Decimal> {
    if s != [] && (s[0] == '+' || s[0] == '-') then ParseUnsigned(s[1..], s[0] == '-')
    else ParseUnsigned(s, false)
  }

  predicate IsNaN(d: Decimal) { d.NaN? }

  /** `d > 0` for a value that is not a NaN (a NaN is neither above nor below 0). */
  predicate IsPositive(d: Decimal) {
    match d
    case Finite(neg, coef, _) => !neg && coef > 0
    case Infinite(neg) => !neg
    case NaN(_, _) => false
  }

  // ----- A canonical spelling, so that Parse has an inverse to be checked against -----

  function DigitChar(d: nat): (c: char)
    requires d < 10
    ensures IsDigit(c) && c as int - '0' as int == d
  {
    ('0' as int + d) as char
  }

  /** The shortest decimal spelling of `n` ("0" for zero). */
  function NatToDigits(n: nat): (s: string)
    ensures s != [] && AllDigits(s)
    ensures DigitsValue(s) == n
  {
    if n < 10 then [DigitChar(n)]
    else
      var s := NatToDigits(n / 10) + [DigitChar(n % 10)];
      assert s[..|s| - 1] == NatToDigits(n / 10);
      s
  }

  function IntToString(i: int): string {
    if i < 0 then "-" + NatToDigits(-i) else NatToDigits(i)
  }

  /** Scientific notation of a finite decimal: [-]coefficient E exponent. */
  function ToScientific(d: Decimal): string
    requires d.Finite?
  {
    (if d.negative then "-" else "") + NatToDigits(d.coefficient) + "E" + IntToString(d.exponent)
  }

  lemma ParseExponentOfInt(i: int)
    ensures ParseExponent(IntToString(i)) == Some(i)
  {
    if i < 0 {
      assert IntToString(i)[1..] == NatToDigits(-i);
    }
  }

  lemma {:induction false} DigitsHaveNoExponent(ds: string, rest: string)
    requires AllDigits(ds) && rest != [] && rest[0] == 'E'
    ensures IndexOfExponent(ds + rest) == |ds|
  {
    if ds != [] {
      assert (ds + rest)[1..] == ds[1..] + rest;
      DigitsHaveNoExponent(ds[1..], rest);
    }
  }

  lemma {:induction false} DigitsHaveNoDot(ds: string)
    requires AllDigits(ds)
    ensures IndexOf(ds, '.') == |ds|
  {
    if ds != [] {
      DigitsHaveNoDot(ds[1..]);
    }
  }

  lemma MantissaOfDigits(ds: string)
    requires ds != [] && AllDigits(ds)
    ensures ParseMantissa(ds) == Some((DigitsValue(ds), 0))
  {
    DigitsHaveNoDot(ds);
    assert ds[..|ds|] == ds;
    assert ds + "" == ds;
  }

  lemma ParseFiniteScientific(ds: string, e: int, negative: bool)
    requires ds != [] && AllDigits(ds)
    ensures ParseFinite(ds + "E" + IntToString(e), negative) == Some(Finite(negative, DigitsValue(ds), e))
  {
    var rest := "E" + IntToString(e);
    var s := ds + rest;
    assert s == ds + "E" + IntToString(e);
    DigitsHaveNoExponent(ds, rest);
    assert s[..|ds|] == ds;
    assert s[|ds| + 1..] == IntToString(e);
    ParseExponentOfInt(e);
    MantissaOfDigits(ds);
  }

  /** A string that starts with a digit is neither an infinity nor a NaN. */
  lemma UnsignedStartingWithDigit(s: string, negative: bool)
    requires s != [] && IsDigit(s[0])
    ensures ParseUnsigned(s, negative) == ParseFinite(s, negative)
  {
    var l := LowerAll(s);
    assert l[0] == s[0];
    assert l != "inf" && l != "infinity" by { assert "inf"[0] == 'i' && "infinity"[0] == 'i'; }
    assert !(|l| >= 3 && l[..3] == "nan") by { assert "nan"[0] == 'n'; }
    assert !(|l| >= 4 && l[..4] == "snan") by { assert "snan"[0] == 's'; }
  }

  lemma ParseSigned(body: string, negative: bool)
    requires body != [] && IsDigit(body[0])
    ensures Parse((if negative then "-" else "") + body) == ParseFinite(body, negative)
  {
    UnsignedStartingWithDigit(body, negative);
    var s := (if negative then "-" else "") + body;
    if negative {
      assert s[0] == '-' && s[1..] == body;
    } else {
      assert s == body;
      assert s[0] != '+' && s[0] != '-';
    }
  }

  /** Parsing the scientific spelling of a finite decimal gives it back. */
  lemma ParseToScientific(d: Decimal)
    requires d.Finite?
    ensures Parse(ToScientific(d)) == Some(d)
  {
    var ds := NatToDigits(d.coefficient);
    var body := ds + "E" + IntToString(d.exponent);
    assert ToScientific(d) == (if d.negative then "-" else "") + body;
    assert body[0] == ds[0];
    ParseSigned(body, d.negative);
    ParseFiniteScientific(ds, d.exponent, d.negative);
  }

  // ----- Concrete values -----

  lemma DigitsValueExample()
    ensures DigitsValue("42075") == 42075
  {
    assert DigitsValue("4") == 4;
    assert "42"[..1] == "4";
    assert "420"[..2] == "42";
    assert "4207"[..3] == "420";
    assert "42075"[..4] == "4207";
  }

  lemma MantissaExample()
    ensures ParseMantissa("420.75") == Some((42075, 2))
  {
    var s := "420.75";
    assert IndexOf(s, '.') == 3;
    assert s[..3] == "420" && s[4..] == "75";
    assert "420" + "75" == "42075";
    DigitsValueExample();
  }

  lemma {:induction false} NoExponentIndicator(s: string)
    requires forall i :: 0 <= i < |s| ==> s[i] != 'e' && s[i] != 'E'
    ensures IndexOfExponent(s) == |s|
  {
    if s != [] {
      NoExponentIndicator(s[1..]);
    }
  }

  lemma ParseAmountExample()
    ensures Parse("420.75") == Some(Finite(false, 42075, -2))
  {
    var s := "420.75";
    UnsignedStartingWithDigit(s, false);
    NoExponentIndicator(s);
    assert s[..|s|] == s;
    MantissaExample();
    assert ParseFinite(s, false) == Some(Finite(false, 42075, 0 - 2));
  }

  lemma ParseZeroExample()
    ensures Parse("0") == Some(Finite(false, 0, 0))
  {
    UnsignedStartingWithDigit("0", false);
    assert IndexOfExponent("0") == 1;
    assert "0"[..1] == "0";
    MantissaOfDigits("0");
  }

  lemma ParseNaNExample()
    ensures Parse("NaN") == Some(NaN(false, false))
  {
    assert LowerAll("NaN") == "nan";
  }

  lemma ParseGarbageExample()
    ensures Parse("abc") == None
  {
    var l := LowerAll("abc");
    assert l == "abc";
    assert IndexOfExponent("abc") == 3;
    assert IndexOf("abc", '.') == 3;
    assert !AllDigits("abc"[..3]);
  }
}
