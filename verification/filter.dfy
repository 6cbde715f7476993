/** The filter engine (`filterStocks`): a stable filter of the dataset by
    twenty optional bounds and an optional risk tier, with JavaScript's
    truthiness deciding which bounds apply and which readings count. */
module Filter {
  import opened Wrappers
  import opened Schema
  import opened Metrics
  import opened Risk
  import opened Sequences

  /** What the filter works out for one stock before checking bounds. */
  datatype Readings = Readings(
    marketCap: Option<real>,
    peRatio: Option<real>,
    pbRatio: Option<real>,
    roe: Option<real>,
    roa: Option<real>,
    dividendYield: Option<real>,
    debtEquity: Option<real>,
    currentRatio: Option<real>,
    quickRatio: Option<real>,
    risk: RiskLevel)

  /** The reading a bound on `m` is compared with. Beta has no reading:
      the dataset has no beta, and the filter never looks at one. */
  function Reading(v: Readings, m: Metric): Option<real> {
    match m
    case MarketCap => v.marketCap
    case PeRatio => v.peRatio
    case PbRatio => v.pbRatio
    case Roe => v.roe
    case Roa => v.roa
    case DividendYield => v.dividendYield
    case Beta => None
    case DebtEquity => v.debtEquity
    case CurrentRatio => v.currentRatio
    case QuickRatio => v.quickRatio
  }

  /** The readings of one stock: the parsed market cap, the native P/E
      field, seven current ratios and the risk tier. */
  function ReadingsOf(stock: Stock): (v: Readings)
    ensures v.marketCap.Some? ==> v.marketCap.value >= 0.0
    ensures forall m :: m != MarketCap && m != PeRatio ==> Reading(v, m) != Some(0.0)
    ensures v.risk == Tier(v.debtEquity, v.currentRatio)
    ensures v.peRatio == stock.peRatio
  {
    Readings(
      ParseMarketCap(stock.marketCap),
      stock.peRatio,
      GetRatioValue(stock, PbRatioKey, CurrentPeriod),
      GetRatioValue(stock, RoeKey, CurrentPeriod),
      GetRatioValue(stock, RoaKey, CurrentPeriod),
      GetRatioValue(stock, DividendYieldKey, CurrentPeriod),
      GetRatioValue(stock, DebtEquityKey, CurrentPeriod),
      GetRatioValue(stock, CurrentRatioKey, CurrentPeriod),
      GetRatioValue(stock, QuickRatioKey, CurrentPeriod),
      Classify(stock))
  }

  /** JavaScript truthiness of a number that may be null: null and 0 are
      false. */
  predicate Truthy(x: Option<real>) {
    x.Some? && x.value != 0.0
  }

  /** `criteria.xMin && (!x || x < criteria.xMin)`. */
  predicate FailsMin(bound: Option<real>, x: Option<real>) {
    Truthy(bound) && (!Truthy(x) || x.value < bound.value)
  }

  /** `criteria.xMax && (!x || x > criteria.xMax)`. */
  predicate FailsMax(bound: Option<real>, x: Option<real>) {
    Truthy(bound) && (!Truthy(x) || x.value > bound.value)
  }

  /** `criteria.marketCapMin && marketCap < criteria.marketCapMin`: there
      is no availability test, and NaN (`None`) compares false. */
  predicate CapFailsMin(bound: Option<real>, cap: Option<real>) {
    Truthy(bound) && cap.Some? && cap.value < bound.value
  }

  predicate CapFailsMax(bound: Option<real>, cap: Option<real>) {
    Truthy(bound) && cap.Some? && cap.value > bound.value
  }

  /** `criteria.riskLevel && riskLevel !== criteria.riskLevel`. */
  predicate FailsRisk(level: Option<RiskLevel>, risk: RiskLevel) {
    level.Some? && risk != level.value
  }

  /** The filter's callback: the stock survives every check, in the
      source's order. There is no check on beta. A bound that applies
      rejects a stock whose reading is missing or 0, except on market cap,
      and a stock of another tier is rejected. */
  predicate Accepts(c: FilterCriteria, v: Readings)
    ensures Accepts(c, v) ==> RiskHolds(c, v)
    ensures forall m :: m != MarketCap && m != Beta && Truthy(MinOf(c, m)) && !Truthy(Reading(v, m)) ==> !Accepts(c, v)
    ensures forall m :: m != MarketCap && m != Beta && Truthy(MaxOf(c, m)) && !Truthy(Reading(v, m)) ==> !Accepts(c, v)
  {
    && !CapFailsMin(c.marketCapMin, v.marketCap)
    && !CapFailsMax(c.marketCapMax, v.marketCap)
    && !FailsMin(c.peRatioMin, v.peRatio)
    && !FailsMax(c.peRatioMax, v.peRatio)
    && !FailsMin(c.pbRatioMin, v.pbRatio)
    && !FailsMax(c.pbRatioMax, v.pbRatio)
    && !FailsMin(c.roeMin, v.roe)
    && !FailsMax(c.roeMax, v.roe)
    && !FailsMin(c.roaMin, v.roa)
    && !FailsMax(c.roaMax, v.roa)
    && !FailsMin(c.dividendYieldMin, v.dividendYield)
    && !FailsMax(c.dividendYieldMax, v.dividendYield)
    && !FailsMin(c.debtEquityMin, v.debtEquity)
    && !FailsMax(c.debtEquityMax, v.debtEquity)
    && !FailsMin(c.currentRatioMin, v.currentRatio)
    && !FailsMax(c.currentRatioMax, v.currentRatio)
    && !FailsMin(c.quickRatioMin, v.quickRatio)
    && !FailsMax(c.quickRatioMax, v.quickRatio)
    && !FailsRisk(c.riskLevel, v.risk)
  }

  predicate Passes(stock: Stock, c: FilterCriteria) {
    Accepts(c, ReadingsOf(stock))
  }

  /** `filterStocks(stocks, criteria)`: the stocks that pass, in dataset
      order. */
  function FilterStocks(stocks: seq<Stock>, c: FilterCriteria): (r: seq<Stock>)
    ensures |r| <= |stocks|
    ensures forall x :: x in r <==> x in stocks && Passes(x, c)
  {
    Sift(stocks, KeepTest(c))
  }

  /** The filter callback as a function value. */
  function KeepTest(c: FilterCriteria): Stock -> bool {
    stock => Passes(stock, c)
  }

  // ---------------------------------------------------------------------
  // The bounds one metric at a time

  /** A bound is applied when it is present and not 0. An applied `*Min`
      bound keeps a stock whose reading is available (not null, not 0) and
      at least the bound; for market cap any reading at least the bound,
      or NaN, is kept. Beta bounds keep everything. */
  predicate MinHolds(c: FilterCriteria, v: Readings, m: Metric) {
    var b, x := MinOf(c, m), Reading(v, m);
    if !Truthy(b) || m == Beta then true
    else if m == MarketCap then x.None? || x.value >= b.value
    else Truthy(x) && x.value >= b.value
  }

  /** The `*Max` counterpart of `MinHolds`. */
  predicate MaxHolds(c: FilterCriteria, v: Readings, m: Metric) {
    var b, x := MaxOf(c, m), Reading(v, m);
    if !Truthy(b) || m == Beta then true
    else if m == MarketCap then x.None? || x.value <= b.value
    else Truthy(x) && x.value <= b.value
  }

  predicate RiskHolds(c: FilterCriteria, v: Readings) {
    c.riskLevel.None? || c.riskLevel.value == v.risk
  }

  /** A stock passes exactly when every metric's two bounds hold and the
      tier matches: the chain of checks is a conjunction over metrics. */
  lemma AcceptsPerMetric(c: FilterCriteria, v: Readings)
    ensures Accepts(c, v) <==>
      (forall m :: MinHolds(c, v, m) && MaxHolds(c, v, m)) && RiskHolds(c, v)
  {
    if Accepts(c, v) {
      forall m ensures MinHolds(c, v, m) && MaxHolds(c, v, m) {
        AcceptedMetric(c, v, m);
      }
    }
    if (forall m :: MinHolds(c, v, m) && MaxHolds(c, v, m)) && RiskHolds(c, v) {
      MetricsAccepted(c, v);
    }
  }

  /** Each metric's bounds hold for readings that pass the chain. */
  lemma AcceptedMetric(c: FilterCriteria, v: Readings, m: Metric)
    requires Accepts(c, v)
    ensures MinHolds(c, v, m) && MaxHolds(c, v, m)
  {
    match m
    case MarketCap =>
    case PeRatio =>
    case PbRatio =>
    case Roe =>
    case Roa =>
    case DividendYield =>
    case Beta =>
    case DebtEquity =>
    case CurrentRatio =>
    case QuickRatio =>
  }

  /** Readings that meet every metric's bounds and the tier pass the chain. */
  lemma MetricsAccepted(c: FilterCriteria, v: Readings)
    requires forall m :: MinHolds(c, v, m) && MaxHolds(c, v, m)
    requires RiskHolds(c, v)
    ensures Accepts(c, v)
  {
    assert MinHolds(c, v, MarketCap) && MaxHolds(c, v, MarketCap);
    assert MinHolds(c, v, PeRatio) && MaxHolds(c, v, PeRatio);
    assert MinHolds(c, v, PbRatio) && MaxHolds(c, v, PbRatio);
    assert MinHolds(c, v, Roe) && MaxHolds(c, v, Roe);
    assert MinHolds(c, v, Roa) && MaxHolds(c, v, Roa);
    assert MinHolds(c, v, DividendYield) && MaxHolds(c, v, DividendYield);
    assert MinHolds(c, v, DebtEquity) && MaxHolds(c, v, DebtEquity);
    assert MinHolds(c, v, CurrentRatio) && MaxHolds(c, v, CurrentRatio);
    assert MinHolds(c, v, QuickRatio) && MaxHolds(c, v, QuickRatio);
  }

  // ---------------------------------------------------------------------
  // Properties of the filter as a sequence operation

  /** Filtering distributes over concatenation: the result keeps dataset
      order. */
  lemma FilterAppend(a: seq<Stock>, b: seq<Stock>, c: FilterCriteria)
    ensures FilterStocks(a + b, c) == FilterStocks(a, c) + FilterStocks(b, c)
  {
    SiftAppend(a, b, KeepTest(c));
  }

  /** Each stock occurs in the result as often as in the dataset when it
      passes, and not at all otherwise. */
  lemma FilterCounts(stocks: seq<Stock>, c: FilterCriteria, x: Stock)
    ensures multiset(FilterStocks(stocks, c))[x] == (if Passes(x, c) then multiset(stocks)[x] else 0)
  {
    SiftCounts(stocks, KeepTest(c), x);
  }

  /** Nothing in the empty criteria applies. */
  lemma NoCriteriaAccepts(v: Readings)
    ensures Accepts(NoCriteria, v)
  {
  }

  /** Empty criteria `{}` keep every stock, in order. */
  lemma NoCriteriaKeepsAll(stocks: seq<Stock>)
    ensures FilterStocks(stocks, NoCriteria) == stocks
  {
    forall x ensures KeepTest(NoCriteria)(x) {
      NoCriteriaAccepts(ReadingsOf(x));
    }
    SiftAll(stocks, KeepTest(NoCriteria));
  }

  /** When every stock passing `c2` also passes `c1`, filtering by `c1`
      first changes nothing. */
  lemma FilterNarrowing(stocks: seq<Stock>, c1: FilterCriteria, c2: FilterCriteria)
    requires forall x :: Passes(x, c2) ==> Passes(x, c1)
    ensures FilterStocks(FilterStocks(stocks, c1), c2) == FilterStocks(stocks, c2)
  {
    SiftNarrowing(stocks, KeepTest(c1), KeepTest(c2));
  }

  /** Filtering twice with the same criteria is filtering once. */
  lemma FilterIdempotent(stocks: seq<Stock>, c: FilterCriteria)
    ensures FilterStocks(FilterStocks(stocks, c), c) == FilterStocks(stocks, c)
  {
    FilterNarrowing(stocks, c, c);
  }

  /** Beta bounds are accepted but have no effect. */
  lemma BetaBoundsIgnored(stocks: seq<Stock>, c: FilterCriteria, lo: Option<real>, hi: Option<real>)
    ensures FilterStocks(stocks, WithMax(WithMin(c, Beta, lo), Beta, hi)) == FilterStocks(stocks, c)
  {
    var c' := WithMax(WithMin(c, Beta, lo), Beta, hi);
    forall x ensures KeepTest(c')(x) == KeepTest(c)(x) {
      var v := ReadingsOf(x);
      AcceptsPerMetric(c', v);
      AcceptsPerMetric(c, v);
      forall m ensures MinHolds(c', v, m) == MinHolds(c, v, m) && MaxHolds(c', v, m) == MaxHolds(c, v, m) {
      }
    }
    SiftSameTest(stocks, KeepTest(c'), KeepTest(c));
  }

  // ---------------------------------------------------------------------
  // Tightening bounds

  /** `b'` applies wherever `b` does, and is at least as high. */
  predicate TighterMin(b': Option<real>, b: Option<real>) {
    Truthy(b) ==> Truthy(b') && b'.value >= b.value
  }

  /** `b'` applies wherever `b` does, and is at most as high. */
  predicate TighterMax(b': Option<real>, b: Option<real>) {
    Truthy(b) ==> Truthy(b') && b'.value <= b.value
  }

  /** `c'` is `c` with bounds raised, lowered or added (beta aside) and the
      tier kept. Moving a bound to 0 switches it off, so that is not a
      tightening. */
  predicate Tighter(c': FilterCriteria, c: FilterCriteria) {
    && (forall m :: m != Beta ==> TighterMin(MinOf(c', m), MinOf(c, m)) && TighterMax(MaxOf(c', m), MaxOf(c, m)))
    && (c.riskLevel.Some? ==> c'.riskLevel == c.riskLevel)
  }

  lemma TighterAcceptsLess(c': FilterCriteria, c: FilterCriteria, v: Readings)
    requires Tighter(c', c) && Accepts(c', v)
    ensures Accepts(c, v)
  {
    AcceptsPerMetric(c', v);
    AcceptsPerMetric(c, v);
    forall m ensures MinHolds(c, v, m) && MaxHolds(c, v, m) {
      assert MinHolds(c', v, m) && MaxHolds(c', v, m);
    }
  }

  /** Tightening keeps a subsequence of what the looser criteria keep. */
  lemma FilterTighter(stocks: seq<Stock>, c': FilterCriteria, c: FilterCriteria)
    requires Tighter(c', c)
    ensures FilterStocks(stocks, c') == FilterStocks(FilterStocks(stocks, c), c')
    ensures |FilterStocks(stocks, c')| <= |FilterStocks(stocks, c)|
  {
    forall x | Passes(x, c') ensures Passes(x, c) {
      TighterAcceptsLess(c', c, ReadingsOf(x));
    }
    FilterNarrowing(stocks, c, c');
  }

  /** A stock with no P/B ratio on record. */
  const Bare := Stock("X", "X", 1.0, None, None, None, "", None, None, None, None, None, None, None, map[])

  /** Raising a bound to 0 is not a tightening: `pbRatioMin: -5` drops a
      stock without a P/B ratio, while `pbRatioMin: 0` is no bound at all
      and keeps it. */
  lemma ZeroBoundLoosens()
    ensures FilterStocks([Bare], WithMin(NoCriteria, PbRatio, Some(-5.0))) == []
    ensures FilterStocks([Bare], WithMin(NoCriteria, PbRatio, Some(0.0))) == [Bare]
  {
    var v := ReadingsOf(Bare);
    var tight, zero := WithMin(NoCriteria, PbRatio, Some(-5.0)), WithMin(NoCriteria, PbRatio, Some(0.0));
    assert !Passes(Bare, tight) by {
      assert v.pbRatio == None && tight.pbRatioMin == Some(-5.0);
    }
    assert Passes(Bare, zero) by {
      assert zero == NoCriteria.(pbRatioMin := Some(0.0));
    }
    assert FilterStocks([Bare], tight) == [] by {
      assert Bare !in FilterStocks([Bare], tight);
    }
  }

  /** A reading of 0 counts as unavailable: a P/E of 0 fails even the
      bound `peRatioMin: -1`. */
  lemma ZeroReadingFails(stock: Stock)
    requires stock.peRatio == Some(0.0)
    ensures FilterStocks([stock], WithMin(NoCriteria, PeRatio, Some(-1.0))) == []
  {
  }
}
