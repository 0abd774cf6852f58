/**
 * JavaScript numbers as the boundary codec writes and reads them.
 *
 * A coordinate is held in micro-degrees (an `int`), so that turning it into
 * text is exact: JavaScript prints such a number in plain decimal notation,
 * with no trailing zeros after the point and no point at all for a whole
 * number (`FormatMicro`). Reading text back is `Number(token)` (`ToNumber`),
 * which yields a finite value, NaN, or, for a token that was never there,
 * `undefined`.
 */
module JsNumber {
  import opened Wrappers
  import opened JsText

  /** A numeric slot of a JavaScript object: a finite number, NaN, or `undefined`. */
  datatype JsNum = Finite(value: real) | NaN | Undefined

  /** Fraction digits kept by the fixed-point representation. */
  const FractionDigits: nat := 6
  const MicroPerDegree: nat := 1000000

  /** The number of degrees a micro-degree count stands for. */
  function Degrees(micro: int): real {
    micro as real / MicroPerDegree as real
  }

  function Pow10(k: nat): (r: nat)
    ensures r >= 1
  {
    if k == 0 then 1 else 10 * Pow10(k - 1)
  }

  lemma {:induction false} Pow10Add(a: nat, b: nat)
    ensures Pow10(a + b) == Pow10(a) * Pow10(b)
  {
    if a > 0 {
      Pow10Add(a - 1, b);
    }
  }

  predicate IsDigit(c: char) {
    '0' <= c <= '9'
  }

  predicate AllDigits(s: string) {
    forall i :: 0 <= i < |s| ==> IsDigit(s[i])
  }

  function DigitChar(d: nat): (c: char)
    requires d < 10
    ensures IsDigit(c) && DigitValue(c) == d
  {
    ('0' as int + d) as char
  }

  function DigitValue(c: char): nat
    requires IsDigit(c)
  {
    c as int - '0' as int
  }

  /** The value of a string of decimal digits, most significant first. */
  function DigitsValue(s: string): nat
    requires AllDigits(s)
  {
    if s == [] then 0 else DigitsValue(s[..|s| - 1]) * 10 + DigitValue(s[|s| - 1])
  }

  /** The decimal text of a natural number, without leading zeros. */
  function FormatNat(n: nat): (r: string)
    ensures |r| >= 1 && AllDigits(r)
    ensures r[0] == '0' ==> n == 0
    ensures DigitsValue(r) == n
  {
    if n < 10 then [DigitChar(n)]
    else
      var r := FormatNat(n / 10) + [DigitChar(n % 10)];
      assert r[..|r| - 1] == FormatNat(n / 10);
      r
  }

  /** The `k` lowest decimal digits of `f`, zero-padded on the left. */
  function PadDigits(f: nat, k: nat): (r: string)
    ensures |r| == k && AllDigits(r)
    ensures f < Pow10(k) ==> DigitsValue(r) == f
  {
    if k == 0 then []
    else
      var r := PadDigits(f / 10, k - 1) + [DigitChar(f % 10)];
      assert r[..|r| - 1] == PadDigits(f / 10, k - 1);
      r
  }

  /** `s` without its trailing zeros. */
  function StripZeros(s: string): (r: string)
    requires AllDigits(s)
    ensures |r| <= |s| && r == s[..|r|] && AllDigits(r)
    ensures r == [] || r[|r| - 1] != '0'
    ensures DigitsValue(s) == DigitsValue(r) * Pow10(|s| - |r|)
  {
    if s != [] && s[|s| - 1] == '0' then
      var init := s[..|s| - 1];
      var r := StripZeros(init);
      var k := |init| - |r|;
      assert DigitsValue(s) == DigitsValue(init) * 10;
      assert Pow10(k + 1) == 10 * Pow10(k);
      MulAssoc(DigitsValue(r), Pow10(k), 10);
      r
    else s
  }

  lemma MulAssoc(a: int, b: int, c: int)
    ensures a * b * c == a * (c * b)
  {
  }

  /** The fraction digits of `f` millionths, as JavaScript prints them. */
  function FractionText(f: nat): (r: string)
    requires 0 < f < MicroPerDegree
    ensures 1 <= |r| <= FractionDigits && AllDigits(r) && r[|r| - 1] != '0'
    ensures DigitsValue(r) * Pow10(FractionDigits - |r|) == f
  {
    var p := PadDigits(f, FractionDigits);
    var r := StripZeros(p);
    r
  }

  function FormatUnsigned(u: nat): string {
    FormatNat(u / MicroPerDegree)
    + (if u % MicroPerDegree == 0 then "" else "." + FractionText(u % MicroPerDegree))
  }

  /** The characters a formatted number is made of. */
  predicate IsNumberChar(c: char) {
    IsDigit(c) || c == '-' || c == '.'
  }

  /**
   * `${x}` for a coordinate of `micro` micro-degrees: an optional minus sign,
   * the whole degrees, and the fraction digits without trailing zeros.
   */
  function FormatMicro(micro: int): (r: string)
    ensures |r| >= 1 && (IsDigit(r[0]) || r[0] == '-') && IsDigit(r[|r| - 1])
    ensures forall i :: 0 <= i < |r| ==> IsNumberChar(r[i])
  {
    var u: nat := if micro < 0 then -micro else micro;
    var a := FormatNat(u / MicroPerDegree);
    var r := (if micro < 0 then "-" else "") + FormatUnsigned(u);
    assert forall i :: 0 <= i < |a| ==> IsNumberChar(a[i]);
    r
  }

  /** A string of digits with an optional fraction part: `12`, `12.5`, `12.`, `.5`. */
  function ParseUnsigned(t: string): Option<real> {
    var parts := Split(t, '.');
    if |parts| == 1 then
      if parts[0] != [] && AllDigits(parts[0]) then Some(DigitsValue(parts[0]) as real) else None
    else if |parts| == 2 && (parts[0] != [] || parts[1] != []) && AllDigits(parts[0]) && AllDigits(parts[1]) then
      Some(DigitsValue(parts[0]) as real + DigitsValue(parts[1]) as real / Pow10(|parts[1]|) as real)
    else None
  }

  /** A decimal literal with an optional sign. */
  function ParseDecimal(t: string): Option<real> {
    if |t| > 0 && t[0] == '-' then
      match ParseUnsigned(t[1..])
      case Some(v) => Some(-v)
      case None => None
    else if |t| > 0 && t[0] == '+' then ParseUnsigned(t[1..])
    else ParseUnsigned(t)
  }

  /**
   * `Number(token)`: surrounding white space is ignored, the empty string is 0,
   * a decimal literal is its exact value, and anything else is NaN.
   */
  function ToNumber(token: string): (r: JsNum)
    ensures r != Undefined
    ensures Trim(token) == [] ==> r == Finite(0.0)
  {
    var t := Trim(token);
    if t == [] then Finite(0.0)
    else
      match ParseDecimal(t)
      case Some(v) => Finite(v)
      case None => NaN
  }

  lemma DivCancel(d: real, b: real, c: real)
    requires b > 0.0 && c > 0.0
    ensures (d * c) / (b * c) == d / b
  {
  }

  lemma CastMul(x: int, y: int)
    ensures (x * y) as real == x as real * y as real
  {
  }

  lemma NoDotInDigits(s: string)
    requires AllDigits(s)
    ensures '.' !in s
  {
  }

  lemma {:induction false} FractionValue(f: nat)
    requires 0 < f < MicroPerDegree
    ensures DigitsValue(FractionText(f)) as real / Pow10(|FractionText(f)|) as real == Degrees(f)
  {
    var r := FractionText(f);
    var d, L := DigitsValue(r), |r|;
    var B, C := Pow10(L), Pow10(FractionDigits - L);
    assert f == d * C;
    Pow10Add(L, FractionDigits - L);
    assert Pow10(6) == 1000000;
    assert B * C == MicroPerDegree;
    RatioScale(d, B, C);
  }

  /** Scaling both sides of a ratio of naturals by the same factor keeps its value. */
  lemma RatioScale(d: nat, b: nat, c: nat)
    requires b > 0 && c > 0
    ensures d as real / b as real == (d * c) as real / (b * c) as real
  {
    CastMul(d, c);
    CastMul(b, c);
    DivCancel(d as real, b as real, c as real);
  }

  lemma {:induction false} ParseFormatUnsigned(u: nat)
    ensures ParseUnsigned(FormatUnsigned(u)) == Some(Degrees(u))
  {
    var q, f := u / MicroPerDegree, u % MicroPerDegree;
    var a := FormatNat(q);
    NoDotInDigits(a);
    CastMul(q, MicroPerDegree);
    assert u as real == q as real * MicroPerDegree as real + f as real;
    if f == 0 {
      SplitWithout(a, '.');
      assert FormatUnsigned(u) == a;
    } else {
      var t := FractionText(f);
      NoDotInDigits(t);
      assert FormatUnsigned(u) == Join([a, t], '.');
      SplitJoin([a, t], '.');
      FractionValue(f);
      assert Degrees(u) == q as real + Degrees(f);
    }
  }

  /** Reading back what was printed gives the coordinate's value in degrees. */
  lemma {:induction false} ParseFormat(micro: int)
    ensures ToNumber(FormatMicro(micro)) == Finite(Degrees(micro))
  {
    var r := FormatMicro(micro);
    assert !IsWhitespace(r[0]) && !IsWhitespace(r[|r| - 1]);
    assert Trim(r) == r;
    ParseDecimalFormat(micro);
    assert ToNumber(r) == Finite(Degrees(micro));
  }

  lemma {:induction false} ParseDecimalFormat(micro: int)
    ensures ParseDecimal(FormatMicro(micro)) == Some(Degrees(micro))
  {
    var r := FormatMicro(micro);
    var u: nat := if micro < 0 then -micro else micro;
    ParseFormatUnsigned(u);
    if micro < 0 {
      assert r == "-" + FormatUnsigned(u);
      assert r[1..] == FormatUnsigned(u);
      assert Degrees(micro) == -Degrees(u);
    } else {
      assert r == FormatUnsigned(u);
      assert r[0] == FormatNat(u / MicroPerDegree)[0];
    }
  }
}
