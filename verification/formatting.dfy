/** Number-to-text conversions the screener relies on: JavaScript's
    `Number.prototype.toFixed` (client display of market caps, percentages
    and CAPM results) and Python's `repr` of a float read from a decimal
    numeral (the scraper's f-strings). Both are stated over exact decimals:
    the double rounding of binary floating point is not modelled. */
module Formatting {
  import opened Wrappers
  import opened Text
  import opened Numerals

  function Abs(x: real): real {
    if x < 0.0 then -x else x
  }

  /** The integer nearest to `y`, the larger one on a tie (the rounding
      `toFixed` prescribes for the magnitude). */
  function RoundHalfUp(y: real): (n: nat)
    requires y >= 0.0
    ensures n as real - 0.5 <= y < n as real + 0.5
  {
    (y + 0.5).Floor
  }

  /** `m` with leading zeros added up to `width` digits. */
  function Pad(m: string, width: nat): (p: string)
    requires AllDigits(m)
    ensures AllDigits(p) && |p| >= width && |p| >= |m|
    ensures NatOf(p) == NatOf(m)
  {
    if |m| < width then
      LeadingZeros(width - |m|, m);
      Zeros(width - |m|) + m
    else m
  }

  /** A digit string with a point inserted `f` digits from the right, padded
      with leading zeros so that at least one digit precedes the point; no
      point at all when `f` is 0. */
  function ShiftPoint(sign: string, m: string, f: nat): (r: Numeral)
    requires AllDigits(m) && |m| >= 1
    requires sign == "" || sign == "-"
    ensures WellFormed(r) && r.sign == sign && |r.whole| >= 1
    ensures r.point <==> f > 0
    ensures |r.fraction| == f
    ensures NatOf(r.whole) * Pow10(f) + NatOf(r.fraction) == NatOf(m)
  {
    if f == 0 then
      assert m + [] == m;
      NatOfAppend(m, []);
      Numeral(sign, m, false, [])
    else
      var p := Pad(m, f + 1);
      AllInSlice(p, 0, |p| - f, Digit);
      AllInSlice(p, |p| - f, |p|, Digit);
      assert p[..|p| - f] + p[|p| - f..] == p;
      NatOfAppend(p[..|p| - f], p[|p| - f..]);
      Numeral(sign, p[..|p| - f], true, p[|p| - f..])
  }

  /** |x|·10^f, the quantity `toFixed` rounds to an integer. */
  function Magnified(x: real, f: nat): (y: real)
    ensures y >= 0.0
  {
    Abs(x) * Pow10(f) as real
  }

  /** The numeral `x.toFixed(f)` prints: the sign, then round(|x|·10^f) with
      the point `f` digits from the right. */
  function Fixed(x: real, f: nat): (r: Numeral)
    ensures WellFormed(r) && |r.whole| >= 1 && |r.fraction| == f
    ensures r.sign == (if x < 0.0 then "-" else "")
    ensures NatOf(r.whole) * Pow10(f) + NatOf(r.fraction) == RoundHalfUp(Magnified(x, f))
  {
    var n := RoundHalfUp(Magnified(x, f));
    ShiftPoint(if x < 0.0 then "-" else "", Digits(n), f)
  }

  /** `x.toFixed(f)` for |x| < 10^21. */
  function ToFixed(x: real, f: nat): (s: string)
    ensures |s| >= 1
    ensures s[0] == '-' <==> x < 0.0
    ensures AllIn(s, NumericChar)
  {
    var r := Fixed(x, f);
    LexemeIsNumeric(r);
    assert Lexeme(r) == r.sign + (r.whole + (if r.point then "." else "") + r.fraction);
    assert r.sign == "" ==> Lexeme(r)[0] == r.whole[0];
    Lexeme(r)
  }

  /** A numeral is spelled with digits, '.', and at most a leading '-'
      (given it has no '+'). */
  lemma LexemeIsNumeric(r: Numeral)
    requires WellFormed(r) && r.sign != "+"
    ensures AllIn(Lexeme(r), NumericChar)
  {
    DigitsAreNumeric(r.whole);
    DigitsAreNumeric(r.fraction);
    var pt: string := if r.point then "." else "";
    assert AllIn(r.sign, NumericChar);
    assert AllIn(pt, NumericChar);
    AllInAppend(r.sign, r.whole, NumericChar);
    AllInAppend(r.sign + r.whole, pt, NumericChar);
    AllInAppend(r.sign + r.whole + pt, r.fraction, NumericChar);
  }

  lemma DigitsAreNumeric(s: string)
    requires AllDigits(s)
    ensures AllIn(s, NumericChar)
  {
    forall i | 0 <= i < |s| ensures InClass(s[i], NumericChar) {
      assert InClass(s[i], Digit);
    }
  }

  lemma QuotientSplit(a: real, b: real, p: real)
    requires p > 0.0
    ensures (a * p + b) / p == a + b / p
  {
  }

  lemma QuotientScale(a: real, p: real)
    requires p > 0.0
    ensures (10.0 * a) / (10.0 * p) == a / p
  {
  }

  /** n / 10^f */
  function Quot(n: nat, f: nat): real {
    n as real / Pow10(f) as real
  }

  /** Half a unit in the f-th decimal place. */
  function Half(f: nat): real {
    0.5 / Pow10(f) as real
  }

  /** Half a unit in the second decimal place, as a literal. */
  lemma HalfCent()
    ensures Half(2) == 0.005
  {
    assert Pow10(2) == 100;
  }

  /** Half a unit in the first decimal place, as a literal. */
  lemma HalfTenth()
    ensures Half(1) == 0.05
  {
    assert Pow10(1) == 10;
  }

  /** Value of a numeral as a scaled integer. */
  lemma ValueAsScaled(r: Numeral, f: nat, n: nat)
    requires WellFormed(r) && |r.fraction| == f
    requires NatOf(r.whole) * Pow10(f) + NatOf(r.fraction) == n
    ensures Value(r) == if r.sign == "-" then -Quot(n, f) else Quot(n, f)
  {
    ScaledQuotient(NatOf(r.whole), Pow10(f), NatOf(r.fraction), n);
  }

  /** Dividing x·y + z by y, computed over the reals. */
  lemma ScaledQuotient(x: nat, y: nat, z: nat, n: nat)
    requires y > 0 && x * y + z == n
    ensures n as real / y as real == x as real + z as real / y as real
  {
    CastScaled(x, y, z, n);
    QuotientSplit(x as real, z as real, y as real);
  }

  lemma CastProduct(x: nat, y: nat)
    ensures (x * y) as real == x as real * y as real
  {
  }

  lemma CastScaled(x: nat, y: nat, z: nat, n: nat)
    requires x * y + z == n
    ensures n as real == x as real * y as real + z as real
  {
    CastProduct(x, y);
  }

  /** Rounding |x|·10^f to n leaves n / 10^f within half a unit of |x|. */
  lemma RoundedMagnitude(x: real, f: nat)
    ensures var n := RoundHalfUp(Magnified(x, f));
      Quot(n, f) - Half(f) <= Abs(x) <= Quot(n, f) + Half(f)
  {
    var p := Pow10(f) as real;
    var y := Magnified(x, f);
    var n := RoundHalfUp(y) as real;
    assert n - 0.5 <= y <= n + 0.5;
    assert (n - 0.5) / p <= y / p <= (n + 0.5) / p;
    assert (n - 0.5) / p == n / p - 0.5 / p;
    assert (n + 0.5) / p == n / p + 0.5 / p;
    assert y / p == Abs(x);
  }

  /** `toFixed` prints a numeral that `parseFloat` reads back within half a
      unit of its last digit of `x`. */
  lemma ToFixedReadBack(x: real, f: nat)
    ensures JsParseFloat(ToFixed(x, f)).Some?
    ensures x - Half(f) <= JsParseFloat(ToFixed(x, f)).value <= x + Half(f)
  {
    LexemeRoundTrip(Fixed(x, f));
    FixedValueClose(x, f);
  }

  /** The value of the printed numeral is within half a unit of `x`. */
  lemma FixedValueClose(x: real, f: nat)
    ensures x - Half(f) <= Value(Fixed(x, f)) <= x + Half(f)
  {
    var n := RoundHalfUp(Magnified(x, f));
    ValueAsScaled(Fixed(x, f), f, n);
    RoundedMagnitude(x, f);
  }

  /** The fraction digits without trailing zeros. */
  function TrimZeros(d: string): (r: string)
    requires AllDigits(d)
    ensures AllDigits(r) && r <= d
    ensures r == [] || r[|r| - 1] != '0'
    ensures NatOf(r) as real / Pow10(|r|) as real == NatOf(d) as real / Pow10(|d|) as real
  {
    if d != [] && d[|d| - 1] == '0' then
      var d' := d[..|d| - 1];
      AllInSlice(d, 0, |d| - 1, Digit);
      var r := TrimZeros(d');
      assert NatOf(d) == 10 * NatOf(d');
      QuotientScale(NatOf(d') as real, Pow10(|d'|) as real);
      r
    else d
  }

  /** The numeral Python's `repr` prints for `float(n)`: the sign, the whole
      part without leading zeros, a point, and the fraction without trailing
      zeros (a single 0 when nothing is left). */
  function Canonical(n: Numeral): (r: Numeral)
    requires WellFormed(n)
    ensures WellFormed(r) && r.point && |r.whole| >= 1 && |r.fraction| >= 1
    ensures r.sign == (if n.sign == "-" then "-" else "")
    ensures Value(r) == Value(n)
  {
    var frac := TrimZeros(n.fraction);
    var r := Numeral(if n.sign == "-" then "-" else "", Digits(NatOf(n.whole)), true, if frac == [] then "0" else frac);
    assert NatOf(r.fraction) as real / Pow10(|r.fraction|) as real == NatOf(frac) as real / Pow10(|frac|) as real;
    r
  }

  /** Python's `repr(float(s))` for the numeral `n` read from `s`: exact for
      numerals of at most 15 significant digits whose value lies in
      [1e-4, 1e16). */
  function Repr(n: Numeral): (s: string)
    requires WellFormed(n)
    ensures JsParseFloat(s) == Some(Value(n))
    ensures PyFloat(s).Some? && Value(PyFloat(s).value) == Value(n)
  {
    LexemeRoundTrip(Canonical(n));
    Lexeme(Canonical(n))
  }
}
