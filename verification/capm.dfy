/** The Capital Asset Pricing Model calculator: expected return from the
    risk-free rate, the market return and beta, all in percent. */
module Capm {
  import opened Wrappers
  import opened Numerals
  import opened Formatting

  /** The client's defaults: the 6-month treasury-bill rate and the
      expected return of the KSE-100 index. */
  const DefaultRiskFreeRate: real := 12.5
  const DefaultMarketReturn: real := 15.2

  /** `calculateCAPM`: rf + β·(rm − rf). Any inputs are allowed. */
  function CalculateCapm(riskFreeRate: real, marketReturn: real, beta: real): (r: real)
    ensures beta == 1.0 ==> r == marketReturn
    ensures beta == 0.0 ==> r == riskFreeRate
    ensures marketReturn == riskFreeRate ==> r == riskFreeRate
  {
    riskFreeRate + beta * (marketReturn - riskFreeRate)
  }

  /** The expected return is the point at β on the line through
      (0, rf) and (1, rm): a weighted mix of the two rates. */
  lemma CapmIsInterpolation(riskFreeRate: real, marketReturn: real, beta: real)
    ensures CalculateCapm(riskFreeRate, marketReturn, beta) == (1.0 - beta) * riskFreeRate + beta * marketReturn
  {
  }

  /** With a positive market premium, more beta never lowers the expected
      return; with a negative one, it never raises it. */
  lemma CapmMonotoneInBeta(riskFreeRate: real, marketReturn: real, b1: real, b2: real)
    requires b1 <= b2
    ensures marketReturn >= riskFreeRate ==>
      CalculateCapm(riskFreeRate, marketReturn, b1) <= CalculateCapm(riskFreeRate, marketReturn, b2)
    ensures marketReturn <= riskFreeRate ==>
      CalculateCapm(riskFreeRate, marketReturn, b1) >= CalculateCapm(riskFreeRate, marketReturn, b2)
  {
    var premium := marketReturn - riskFreeRate;
    assert CalculateCapm(riskFreeRate, marketReturn, b2) - CalculateCapm(riskFreeRate, marketReturn, b1)
      == (b2 - b1) * premium;
    ProductSign(b2 - b1, premium);
  }

  lemma ProductSign(a: real, b: real)
    requires a >= 0.0
    ensures b >= 0.0 ==> a * b >= 0.0
    ensures b <= 0.0 ==> a * b <= 0.0
  {
  }

  /** Examples: rf 10, rm 15 gives 15 at β = 1 and 10 at
      β = 0; the defaults give 15.2 at β = 1. */
  lemma CapmExamples()
    ensures CalculateCapm(10.0, 15.0, 1.0) == 15.0
    ensures CalculateCapm(10.0, 15.0, 0.0) == 10.0
    ensures CalculateCapm(DefaultRiskFreeRate, DefaultMarketReturn, 1.0) == 15.2
    ensures CalculateCapm(DefaultRiskFreeRate, DefaultMarketReturn, 2.0) == 17.9
  {
  }

  /** `formatCAPMResult`: one decimal place and a percent sign. */
  function FormatCapmResult(expectedReturn: real): (s: string)
    ensures |s| >= 2 && s[|s| - 1] == '%'
    ensures s[0] == '-' <==> expectedReturn < 0.0
  {
    ToFixed(expectedReturn, 1) + "%"
  }

  /** Reading the displayed result back gives the expected return to
      within 0.05. */
  lemma FormatCapmReadBack(expectedReturn: real)
    ensures JsParseFloat(FormatCapmResult(expectedReturn)).Some?
    ensures expectedReturn - 0.05 <= JsParseFloat(FormatCapmResult(expectedReturn)).value <= expectedReturn + 0.05
  {
    var n := Fixed(expectedReturn, 1);
    CapmSpelling(expectedReturn);
    ParseFloatOfLexeme(n, "%");
    FixedValueClose(expectedReturn, 1);
    HalfTenth();
  }

  /** The displayed result is a one-decimal numeral followed by '%'. */
  lemma CapmSpelling(expectedReturn: real)
    ensures FormatCapmResult(expectedReturn) == Lexeme(Fixed(expectedReturn, 1)) + "%"
  {
    assert ToFixed(expectedReturn, 1) == Lexeme(Fixed(expectedReturn, 1));
  }
}
