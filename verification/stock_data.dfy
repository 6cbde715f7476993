/** The client's copy of the stock helpers: the same market-cap and ratio
    readers and risk rule as the server, the display formatters, and the
    metric summary a stock card shows. */
module StockData {
  import opened Wrappers
  import opened Text
  import opened Numerals
  import opened Formatting
  import opened Schema
  import Metrics
  import Risk
  import Filter

  /** `parseMarketCap`, written out again on the client. */
  function ParseMarketCap(s: string): (r: Option<real>)
    ensures s == [] ==> r == Some(0.0)
    ensures r.Some? ==> r.value >= 0.0
  {
    if s == [] then Some(0.0)
    else
      var cleaned := Keep(s, DigitOrPoint);
      match JsParseFloat(cleaned)
      case None => None
      case Some(x) =>
        Metrics.NonNegativeRead(cleaned);
        if 'T' in s then Some(x * 1000000.0)
        else if 'B' in s then Some(x * 1000.0)
        else Some(x)
  }

  /** Client and server read every market-cap text alike. */
  lemma ParseMarketCapAgrees(s: string)
    ensures ParseMarketCap(s) == Metrics.ParseMarketCap(s)
  {
  }

  /** `getRatioValue`, written out again on the client. The client's cell
      reading is the server's text, so the model reuses `Metrics.CellValue`
      and only the lookup is restated; `GetRatioValueAgrees` holds by that
      construction. */
  function GetRatioValue(stock: Stock, key: string, period: string): (r: Option<real>)
    ensures r != Some(0.0)
    ensures Metrics.RatioCell(stock, key, period).None? ==> r.None?
  {
    if key in stock.ratios && period in stock.ratios[key] then Metrics.CellValue(stock.ratios[key][period])
    else None
  }

  lemma GetRatioValueAgrees(stock: Stock, key: string, period: string)
    ensures GetRatioValue(stock, key, period) == Metrics.GetRatioValue(stock, key, period)
  {
  }

  /** `calculateRiskLevel` on the client (it does not read ROE at all). */
  function CalculateRiskLevel(stock: Stock): (r: RiskLevel)
    ensures r == Low ==>
      GetRatioValue(stock, Metrics.DebtEquityKey, Metrics.CurrentPeriod).Some?
      && GetRatioValue(stock, Metrics.CurrentRatioKey, Metrics.CurrentPeriod).Some?
  {
    var debtEquity := GetRatioValue(stock, Metrics.DebtEquityKey, Metrics.CurrentPeriod);
    var currentRatio := GetRatioValue(stock, Metrics.CurrentRatioKey, Metrics.CurrentPeriod);
    if debtEquity.Some? && debtEquity.value < 0.5 && currentRatio.Some? && currentRatio.value > 2.0 then Low
    else if (debtEquity.Some? && debtEquity.value > 1.5) || (currentRatio.Some? && currentRatio.value < 1.0) then High
    else Medium
  }

  /** The client shows the tier the server filters by. */
  lemma CalculateRiskLevelAgrees(stock: Stock)
    ensures CalculateRiskLevel(stock) == Risk.Classify(stock)
  {
    GetRatioValueAgrees(stock, Metrics.DebtEquityKey, Metrics.CurrentPeriod);
    GetRatioValueAgrees(stock, Metrics.CurrentRatioKey, Metrics.CurrentPeriod);
  }

  // ---------------------------------------------------------------------
  // Display

  /** `formatMarketCap`: a value in millions shown in trillions, billions
      or millions with two decimals. */
  function FormatMarketCap(value: real): (s: string)
    ensures |s| >= 6 && s[..4] == "PKR "
    ensures s[|s| - 1] == (if value >= 1000000.0 then 'T' else if value >= 1000.0 then 'B' else 'M')
  {
    if value >= 1000000.0 then "PKR " + ToFixed(value / 1000000.0, 2) + "T"
    else if value >= 1000.0 then "PKR " + ToFixed(value / 1000.0, 2) + "B"
    else "PKR " + ToFixed(value, 2) + "M"
  }

  /** Market-cap text from `formatMarketCap` reads back to the value it
      shows, to within half a unit of its last digit: 5,000 in the
      trillion range, 5 in the billion range, 0.005 below. */
  lemma FormatMarketCapReadBack(value: real)
    requires value >= 0.0
    ensures ParseMarketCap(FormatMarketCap(value)).Some?
    ensures var w := ParseMarketCap(FormatMarketCap(value)).value;
      var slack := if value >= 1000000.0 then 5000.0 else if value >= 1000.0 then 5.0 else 0.005;
      value - slack <= w <= value + slack
  {
    if value >= 1000000.0 {
      TrillionsReadBack(value);
    } else if value >= 1000.0 {
      BillionsReadBack(value);
    } else {
      MillionsReadBack(value);
    }
  }

  lemma TrillionsReadBack(value: real)
    requires value >= 1000000.0
    ensures ParseMarketCap(FormatMarketCap(value)).Some?
    ensures value - 5000.0 <= ParseMarketCap(FormatMarketCap(value)).value <= value + 5000.0
  {
    var n := Fixed(value / 1000000.0, 2);
    assert FormatMarketCap(value) == "PKR " + Lexeme(n) + "T" by {
      assert ToFixed(value / 1000000.0, 2) == Lexeme(n);
    }
    ShownInTrillions(n);
    TrillionsClose(value);
  }

  lemma BillionsReadBack(value: real)
    requires 1000.0 <= value < 1000000.0
    ensures ParseMarketCap(FormatMarketCap(value)).Some?
    ensures value - 5.0 <= ParseMarketCap(FormatMarketCap(value)).value <= value + 5.0
  {
    var n := Fixed(value / 1000.0, 2);
    assert FormatMarketCap(value) == "PKR " + Lexeme(n) + "B" by {
      assert ToFixed(value / 1000.0, 2) == Lexeme(n);
    }
    ShownInBillions(n);
    BillionsClose(value);
  }

  lemma MillionsReadBack(value: real)
    requires 0.0 <= value < 1000.0
    ensures ParseMarketCap(FormatMarketCap(value)).Some?
    ensures value - 0.005 <= ParseMarketCap(FormatMarketCap(value)).value <= value + 0.005
  {
    var n := Fixed(value, 2);
    assert FormatMarketCap(value) == "PKR " + Lexeme(n) + "M" by {
      assert ToFixed(value, 2) == Lexeme(n);
    }
    ShownInMillions(n);
    FixedValueClose(value, 2);
    HalfCent();
  }

  /** "PKR " + an unsigned numeral + "T" reads as that many trillions. */
  lemma ShownInTrillions(n: Numeral)
    requires WellFormed(n) && n.sign == ""
    ensures ParseMarketCap("PKR " + Lexeme(n) + "T") == Some(Value(n) * 1000000.0)
  {
    Metrics.CurrencyHasNoDigits();
    assert Metrics.NoneIn("T", DigitOrPoint);
    assert ("PKR " + "T")[4] == 'T';
    Metrics.MarketCapOfNumeral("PKR ", n, "T");
    ParseMarketCapAgrees("PKR " + Lexeme(n) + "T");
  }

  /** "PKR " + an unsigned numeral + "B" reads as that many billions. */
  lemma ShownInBillions(n: Numeral)
    requires WellFormed(n) && n.sign == ""
    ensures ParseMarketCap("PKR " + Lexeme(n) + "B") == Some(Value(n) * 1000.0)
  {
    Metrics.CurrencyHasNoDigits();
    assert Metrics.NoneIn("B", DigitOrPoint);
    assert 'T' !in "PKR " + "B" && 'B' in "PKR " + "B" by {
      assert "PKR " + "B" == ['P', 'K', 'R', ' ', 'B'];
    }
    Metrics.MarketCapOfNumeral("PKR ", n, "B");
    ParseMarketCapAgrees("PKR " + Lexeme(n) + "B");
  }

  /** "PKR " + an unsigned numeral + "M" reads as that many millions. */
  lemma ShownInMillions(n: Numeral)
    requires WellFormed(n) && n.sign == ""
    ensures ParseMarketCap("PKR " + Lexeme(n) + "M") == Some(Value(n))
  {
    Metrics.CurrencyHasNoDigits();
    assert Metrics.NoneIn("M", DigitOrPoint);
    assert 'T' !in "PKR " + "M" && 'B' !in "PKR " + "M" by {
      assert "PKR " + "M" == ['P', 'K', 'R', ' ', 'M'];
    }
    Metrics.MarketCapOfNumeral("PKR ", n, "M");
    ParseMarketCapAgrees("PKR " + Lexeme(n) + "M");
  }

  /** A value shown in trillions, read back, is within 5,000 of it. */
  lemma TrillionsClose(value: real)
    ensures value - 5000.0 <= Value(Fixed(value / 1000000.0, 2)) * 1000000.0 <= value + 5000.0
  {
    FixedValueClose(value / 1000000.0, 2);
    HalfCent();
  }

  /** A value shown in billions, read back, is within 5 of it. */
  lemma BillionsClose(value: real)
    ensures value - 5.0 <= Value(Fixed(value / 1000.0, 2)) * 1000.0 <= value + 5.0
  {
    FixedValueClose(value / 1000.0, 2);
    HalfCent();
  }

  /** `formatPercent`: a sign (a '+' for zero and above), two decimals and
      a percent sign. */
  function FormatPercent(value: real): (s: string)
    ensures |s| >= 2 && s[|s| - 1] == '%'
    ensures s[0] == '+' <==> value >= 0.0
    ensures s[0] == '-' <==> value < 0.0
  {
    (if value >= 0.0 then "+" else "") + ToFixed(value, 2) + "%"
  }

  /** The numeral `formatPercent` prints before the percent sign. */
  function PercentNumeral(value: real): Numeral {
    var n := Fixed(value, 2);
    if value >= 0.0 then n.(sign := "+") else n
  }

  /** The printed numeral is well formed and has the value `toFixed` shows. */
  lemma PercentValue(value: real)
    ensures WellFormed(PercentNumeral(value))
    ensures Value(PercentNumeral(value)) == Value(Fixed(value, 2))
  {
  }

  /** `formatPercent` spells that numeral and then a percent sign. */
  lemma PercentSpelling(value: real)
    ensures FormatPercent(value) == Lexeme(PercentNumeral(value)) + "%"
  {
    var n := Fixed(value, 2);
    var t := ToFixed(value, 2);
    assert t == Lexeme(n);
    if value >= 0.0 {
      SignedSpelling(n, "+");
      assert FormatPercent(value) == ("+" + t) + "%";
    } else {
      assert FormatPercent(value) == ("" + t) + "%";
      assert "" + t == t;
    }
  }

  /** Giving an unsigned numeral a sign puts the sign in front of its text. */
  lemma SignedSpelling(n: Numeral, sign: string)
    requires n.sign == ""
    ensures Lexeme(n.(sign := sign)) == sign + Lexeme(n)
  {
  }

  /** The displayed percentage reads back to within 0.005. */
  lemma FormatPercentReadBack(value: real)
    ensures JsParseFloat(FormatPercent(value)).Some?
    ensures value - 0.005 <= JsParseFloat(FormatPercent(value)).value <= value + 0.005
  {
    var p := PercentNumeral(value);
    PercentValue(value);
    PercentSpelling(value);
    ParseFloatOfLexeme(p, "%");
    FixedValueClose(value, 2);
    HalfCent();
  }

  // ---------------------------------------------------------------------
  // The metric summary

  /** What `getStockMetrics` returns. */
  datatype StockMetrics = StockMetrics(
    marketCap: Option<real>,
    peRatio: Option<real>,
    pbRatio: Option<real>,
    eps: Option<real>,
    roe: Option<real>,
    roa: Option<real>,
    dividendYield: Option<real>,
    beta: real,
    debtEquity: Option<real>,
    currentRatio: Option<real>,
    quickRatio: Option<real>,
    evEbitda: Option<real>,
    assetTurnover: Option<real>,
    inventoryTurnover: Option<real>,
    fcfYield: Option<real>)

  /** The placeholder beta: the dataset has none. */
  const DefaultBeta: real := 1.0

  function GetStockMetrics(stock: Stock): (r: StockMetrics)
    ensures r.beta == 1.0
    ensures r.marketCap.Some? ==> r.marketCap.value >= 0.0
    ensures r.peRatio == stock.peRatio
    ensures r.eps != Some(0.0) && r.evEbitda != Some(0.0) && r.assetTurnover != Some(0.0)
    ensures r.inventoryTurnover != Some(0.0) && r.fcfYield != Some(0.0)
  {
    StockMetrics(
      ParseMarketCap(stock.marketCap),
      stock.peRatio,
      GetRatioValue(stock, Metrics.PbRatioKey, Metrics.CurrentPeriod),
      GetRatioValue(stock, Metrics.EpsKey, Metrics.CurrentPeriod),
      GetRatioValue(stock, Metrics.RoeKey, Metrics.CurrentPeriod),
      GetRatioValue(stock, Metrics.RoaKey, Metrics.CurrentPeriod),
      GetRatioValue(stock, Metrics.DividendYieldKey, Metrics.CurrentPeriod),
      DefaultBeta,
      GetRatioValue(stock, Metrics.DebtEquityKey, Metrics.CurrentPeriod),
      GetRatioValue(stock, Metrics.CurrentRatioKey, Metrics.CurrentPeriod),
      GetRatioValue(stock, Metrics.QuickRatioKey, Metrics.CurrentPeriod),
      GetRatioValue(stock, Metrics.EvEbitdaKey, Metrics.CurrentPeriod),
      GetRatioValue(stock, Metrics.AssetTurnoverKey, Metrics.CurrentPeriod),
      GetRatioValue(stock, Metrics.InventoryTurnoverKey, Metrics.CurrentPeriod),
      GetRatioValue(stock, Metrics.FcfYieldKey, Metrics.CurrentPeriod))
  }

  /** The card shows the very numbers the server filters on. */
  lemma MetricsMatchFilterReadings(stock: Stock)
    ensures var m, v := GetStockMetrics(stock), Filter.ReadingsOf(stock);
      && m.marketCap == v.marketCap && m.peRatio == v.peRatio && m.pbRatio == v.pbRatio
      && m.roe == v.roe && m.roa == v.roa && m.dividendYield == v.dividendYield
      && m.debtEquity == v.debtEquity && m.currentRatio == v.currentRatio
      && m.quickRatio == v.quickRatio
  {
    ParseMarketCapAgrees(stock.marketCap);
    GetRatioValueAgrees(stock, Metrics.PbRatioKey, Metrics.CurrentPeriod);
    GetRatioValueAgrees(stock, Metrics.RoeKey, Metrics.CurrentPeriod);
    GetRatioValueAgrees(stock, Metrics.RoaKey, Metrics.CurrentPeriod);
    GetRatioValueAgrees(stock, Metrics.DividendYieldKey, Metrics.CurrentPeriod);
    GetRatioValueAgrees(stock, Metrics.DebtEquityKey, Metrics.CurrentPeriod);
    GetRatioValueAgrees(stock, Metrics.CurrentRatioKey, Metrics.CurrentPeriod);
    GetRatioValueAgrees(stock, Metrics.QuickRatioKey, Metrics.CurrentPeriod);
  }
}
