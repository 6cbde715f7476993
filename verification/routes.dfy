/** The request handlers over the loaded dataset: lookup by symbol, the
    filter, the two leader boards, the CAPM calculation and the risk
    presets. A rejected request is a `Failure` carrying the reason and the
    HTTP status the server answers with. */
module Routes {
  import opened Wrappers
  import opened Schema
  import opened Metrics
  import opened Risk
  import opened Filter
  import opened Sequences
  import Capm

  datatype ApiError =
    | StockNotFound          // 404 'Stock not found'
    | InvalidFilterCriteria  // 400 'Invalid filter criteria'
    | InvalidCapmInput       // 400 'Invalid CAPM input'
    | InvalidRiskLevel       // 400 'Invalid risk level'

  function Status(e: ApiError): nat {
    if e == StockNotFound then 404 else 400
  }

  // ---------------------------------------------------------------------
  // GET /api/stocks/:symbol

  /** The position of the first stock at or after `from` with the symbol. */
  function FirstWithSymbol(stocks: seq<Stock>, symbol: string, from: nat): (r: Option<nat>)
    requires from <= |stocks|
    ensures r.Some? ==> from <= r.value < |stocks| && stocks[r.value].symbol == symbol
    ensures r.Some? ==> forall j :: from <= j < r.value ==> stocks[j].symbol != symbol
    ensures r.None? ==> forall j :: from <= j < |stocks| ==> stocks[j].symbol != symbol
    decreases |stocks| - from
  {
    if from == |stocks| then None
    else if stocks[from].symbol == symbol then Some(from)
    else FirstWithSymbol(stocks, symbol, from + 1)
  }

  /** `stocksData.find(s => s.symbol === symbol)`, or 404. */
  function GetStock(stocks: seq<Stock>, symbol: string): (r: Result<Stock, ApiError>)
    ensures r.Success? ==> r.value in stocks && r.value.symbol == symbol
    ensures r.Success? ==>
      exists i :: 0 <= i < |stocks| && stocks[i] == r.value && (forall j :: 0 <= j < i ==> stocks[j].symbol != symbol)
    ensures r.Failure? <==> forall i :: 0 <= i < |stocks| ==> stocks[i].symbol != symbol
    ensures r.Failure? ==> r.error == StockNotFound
  {
    match FirstWithSymbol(stocks, symbol, 0)
    case Some(i) => Success(stocks[i])
    case None => Failure(StockNotFound)
  }

  // ---------------------------------------------------------------------
  // POST /api/stocks/filter

  /** Validates the body, then filters; a malformed body is rejected
      before any stock is looked at. */
  function FilterRoute(stocks: seq<Stock>, body: Json): (r: Result<seq<Stock>, ApiError>)
    ensures r.Failure? <==> ParseFilterCriteria(body).None?
    ensures r.Failure? ==> r.error == InvalidFilterCriteria
    ensures r.Success? ==> r.value == FilterStocks(stocks, ParseFilterCriteria(body).value)
  {
    match ParseFilterCriteria(body)
    case None => Failure(InvalidFilterCriteria)
    case Some(c) => Success(FilterStocks(stocks, c))
  }

  /** An empty object keeps the whole dataset. */
  lemma EmptyBodyKeepsAll(stocks: seq<Stock>)
    ensures FilterRoute(stocks, JObject(map[])) == Success(stocks)
  {
    assert ParseFilterCriteria(JObject(map[])) == Some(NoCriteria);
    NoCriteriaKeepsAll(stocks);
  }

  // ---------------------------------------------------------------------
  // GET /api/stocks/top/gainers and /api/stocks/top/active

  /** How many stocks a leader board lists. */
  const BoardSize: nat := 10

  /** `s.changePercent && s.changePercent > 0`: the truthiness test adds
      nothing, so a gainer is exactly a stock whose sort key is positive. */
  predicate IsGainer(s: Stock)
    ensures IsGainer(s) <==> ChangeKey(s) > 0.0
  {
    Truthy(s.changePercent) && s.changePercent.value > 0.0
  }

  /** `s.volume`: present and not 0, that is, a stock whose sort key is not
      0. */
  predicate IsActive(s: Stock)
    ensures IsActive(s) <==> VolumeKey(s) != 0.0
  {
    Truthy(s.volume)
  }

  /** `(s.changePercent || 0)` and `(s.volume || 0)`. */
  function ChangeKey(s: Stock): real {
    s.changePercent.GetOr(0.0)
  }

  function VolumeKey(s: Stock): real {
    s.volume.GetOr(0.0)
  }

  /** Filter, stable sort by descending key, first `BoardSize`. */
  function Board(stocks: seq<Stock>, qualifies: Stock -> bool, key: Stock -> real): (r: seq<Stock>)
    ensures |r| <= BoardSize
    ensures |r| == if |Sift(stocks, qualifies)| <= BoardSize then |Sift(stocks, qualifies)| else BoardSize
    ensures forall i :: 0 <= i < |r| ==> r[i] in stocks && qualifies(r[i])
    ensures Descending(r, key)
  {
    var sorted := SortDesc(Sift(stocks, qualifies), key);
    var r := Take(sorted, BoardSize);
    forall i | 0 <= i < |r| ensures r[i] in stocks && qualifies(r[i]) {
      assert r[i] == sorted[i];
      assert sorted[i] in multiset(Sift(stocks, qualifies));
    }
    r
  }

  /** A qualifying stock left off the board ranks no higher than the last
      one listed, and the board is full. */
  lemma BoardLeavesOutLower(stocks: seq<Stock>, qualifies: Stock -> bool, key: Stock -> real, x: Stock)
    requires x in stocks && qualifies(x)
    requires x !in Board(stocks, qualifies, key)
    ensures |Board(stocks, qualifies, key)| == BoardSize
    ensures key(x) <= key(Board(stocks, qualifies, key)[BoardSize - 1])
  {
    var q := Sift(stocks, qualifies);
    var sorted := SortDesc(q, key);
    assert x in multiset(sorted) by {
      assert x in q;
      assert x in multiset(q);
    }
    var j :| 0 <= j < |sorted| && sorted[j] == x;
    assert j >= BoardSize;
  }

  /** With at most `BoardSize` qualifying stocks, all of them are listed. */
  lemma BoardListsAllWhenFew(stocks: seq<Stock>, qualifies: Stock -> bool, key: Stock -> real)
    requires |Sift(stocks, qualifies)| <= BoardSize
    ensures multiset(Board(stocks, qualifies, key)) == multiset(Sift(stocks, qualifies))
  {
  }

  /** Stocks with equal keys are listed in dataset order. */
  lemma BoardKeepsTies(stocks: seq<Stock>, qualifies: Stock -> bool, key: Stock -> real, k: real)
    ensures Sift(Board(stocks, qualifies, key), KeyIs(key, k)) <= Sift(Sift(stocks, qualifies), KeyIs(key, k))
  {
    var sorted := SortDesc(Sift(stocks, qualifies), key);
    SiftPrefix(sorted, BoardSize, KeyIs(key, k));
    SortIsStable(Sift(stocks, qualifies), key, k);
  }

  /** The top gainers: up to ten stocks with a positive change, largest
      change first. */
  function TopGainers(stocks: seq<Stock>): (r: seq<Stock>)
    ensures |r| <= BoardSize
    ensures forall i :: 0 <= i < |r| ==> r[i] in stocks && r[i].changePercent.Some? && r[i].changePercent.value > 0.0
    ensures forall i, j :: 0 <= i < j < |r| ==> r[i].changePercent.value >= r[j].changePercent.value
  {
    var r := Board(stocks, IsGainer, ChangeKey);
    assert forall i :: 0 <= i < |r| ==> IsGainer(r[i]);
    r
  }

  /** The most active: up to ten stocks with a known non-zero volume,
      largest volume first. */
  function MostActive(stocks: seq<Stock>): (r: seq<Stock>)
    ensures |r| <= BoardSize
    ensures forall i :: 0 <= i < |r| ==> r[i] in stocks && r[i].volume.Some? && r[i].volume.value != 0.0
    ensures forall i, j :: 0 <= i < j < |r| ==> r[i].volume.value >= r[j].volume.value
  {
    var r := Board(stocks, IsActive, VolumeKey);
    assert forall i :: 0 <= i < |r| ==> IsActive(r[i]);
    r
  }

  /** No gainer is missing from the top gainers unless ten gainers with at
      least its change are listed. */
  lemma GainersAreTheLargest(stocks: seq<Stock>, x: Stock)
    requires x in stocks && IsGainer(x) && x !in TopGainers(stocks)
    ensures |TopGainers(stocks)| == BoardSize
    ensures forall i :: 0 <= i < BoardSize ==> x.changePercent.value <= TopGainers(stocks)[i].changePercent.value
  {
    BoardLeavesOutLower(stocks, IsGainer, ChangeKey, x);
  }

  /** No active stock is missing from the most-active list unless ten
      stocks with at least its volume are listed. */
  lemma ActiveAreTheLargest(stocks: seq<Stock>, x: Stock)
    requires x in stocks && IsActive(x) && x !in MostActive(stocks)
    ensures |MostActive(stocks)| == BoardSize
    ensures forall i :: 0 <= i < BoardSize ==> x.volume.value <= MostActive(stocks)[i].volume.value
  {
    BoardLeavesOutLower(stocks, IsActive, VolumeKey, x);
  }

  // ---------------------------------------------------------------------
  // POST /api/capm/calculate

  /** Validates the body, then computes rf + β·(rm − rf) as the route
      writes it. */
  function CapmRoute(body: Json): (r: Result<real, ApiError>)
    ensures r.Failure? <==> ParseCapmInput(body).None?
    ensures r.Failure? ==> r.error == InvalidCapmInput
    ensures ParseCapmInput(body).Some? ==>
      var input := ParseCapmInput(body).value;
      r == Success(Capm.CalculateCapm(input.riskFreeRate, input.marketReturn, input.beta))
  {
    match ParseCapmInput(body)
    case None => Failure(InvalidCapmInput)
    case Some(input) =>
      Success(input.riskFreeRate + input.beta * (input.marketReturn - input.riskFreeRate))
  }

  /** The server's answer is the client's `calculateCAPM` of the same
      numbers. */
  lemma CapmRouteAgreesWithClient(riskFreeRate: real, marketReturn: real, beta: real)
    ensures CapmRoute(JObject(map[
      "riskFreeRate" := JNumber(riskFreeRate),
      "marketReturn" := JNumber(marketReturn),
      "beta" := JNumber(beta)])) == Success(Capm.CalculateCapm(riskFreeRate, marketReturn, beta))
  {
    var fields := map[
      "riskFreeRate" := JNumber(riskFreeRate),
      "marketReturn" := JNumber(marketReturn),
      "beta" := JNumber(beta)];
    assert "riskFreeRate" != "beta" && "marketReturn" != "beta" && "riskFreeRate" != "marketReturn";
    assert fields["riskFreeRate"] == JNumber(riskFreeRate);
    assert fields["marketReturn"] == JNumber(marketReturn);
    assert ParseCapmInput(JObject(fields)) == Some(CapmInput(riskFreeRate, marketReturn, beta));
    assert Capm.CalculateCapm(riskFreeRate, marketReturn, beta) == riskFreeRate + beta * (marketReturn - riskFreeRate);
    assert CapmRoute(JObject(fields)).Success?;
    assert CapmRoute(JObject(fields)).value == riskFreeRate + beta * (marketReturn - riskFreeRate);
  }

  // ---------------------------------------------------------------------
  // GET /api/presets/:level

  const LowPreset := NoCriteria.(debtEquityMax := Some(0.5), currentRatioMin := Some(2.0),
    quickRatioMin := Some(1.5), riskLevel := Some(Low))
  const MediumPreset := NoCriteria.(debtEquityMax := Some(1.5), currentRatioMin := Some(1.0),
    riskLevel := Some(Medium))
  const HighPreset := NoCriteria.(riskLevel := Some(High))

  /** The criteria literal for a preset name; any other name is rejected. */
  function PresetFor(level: string): (r: Result<FilterCriteria, ApiError>)
    ensures r.Failure? <==> ParseRiskLevel(level).None?
    ensures r.Failure? ==> r.error == InvalidRiskLevel
    ensures r.Success? ==> r.value.riskLevel == ParseRiskLevel(level)
    ensures level == "low" ==> r == Success(LowPreset)
    ensures level == "medium" ==> r == Success(MediumPreset)
    ensures level == "high" ==> r == Success(HighPreset)
  {
    if level == "low" then Success(LowPreset)
    else if level == "medium" then Success(MediumPreset)
    else if level == "high" then Success(HighPreset)
    else Failure(InvalidRiskLevel)
  }

  /** An unknown name such as "extreme" is an error, not a default. */
  lemma UnknownPresetRejected()
    ensures PresetFor("extreme") == Failure(InvalidRiskLevel)
  {
  }

  /** The low preset keeps a stock exactly when its debt-to-equity is known
      and at most 0.5, its current ratio known and at least 2, its quick
      ratio known and at least 1.5, and it classifies as low; given the
      tier, only the quick-ratio bound adds anything. */
  lemma LowPresetSelects(stock: Stock)
    ensures var v := ReadingsOf(stock);
      Passes(stock, LowPreset) <==>
        && v.debtEquity.Some? && v.debtEquity.value <= 0.5
        && v.currentRatio.Some? && v.currentRatio.value >= 2.0
        && v.quickRatio.Some? && v.quickRatio.value >= 1.5
        && Classify(stock) == Low
    ensures Passes(stock, LowPreset) <==>
      Classify(stock) == Low && ReadingsOf(stock).quickRatio.Some? && ReadingsOf(stock).quickRatio.value >= 1.5
  {
    var v := ReadingsOf(stock);
    RatiosAreTruthy(stock);
    LowPresetAccepts(v);
    assert v.risk == Classify(stock);
  }

  /** The medium preset keeps a stock exactly when both ratios are known,
      debt-to-equity at most 1.5 and current ratio at least 1, and the
      stock is not low. */
  lemma MediumPresetSelects(stock: Stock)
    ensures var v := ReadingsOf(stock);
      Passes(stock, MediumPreset) <==>
        && v.debtEquity.Some? && v.debtEquity.value <= 1.5
        && v.currentRatio.Some? && v.currentRatio.value >= 1.0
        && Classify(stock) != Low
  {
    var v := ReadingsOf(stock);
    RatiosAreTruthy(stock);
    MediumPresetAccepts(v);
    assert v.risk == Classify(stock);
  }

  /** The high preset keeps exactly the stocks classified high. */
  lemma HighPresetSelects(stock: Stock)
    ensures Passes(stock, HighPreset) <==> Classify(stock) == High
  {
    var v := ReadingsOf(stock);
    HighPresetAccepts(v);
    assert v.risk == Classify(stock);
  }

  /** The three ratios the presets bound are truthy exactly when known. */
  lemma RatiosAreTruthy(stock: Stock)
    ensures var v := ReadingsOf(stock);
      && (Truthy(v.debtEquity) <==> v.debtEquity.Some?)
      && (Truthy(v.currentRatio) <==> v.currentRatio.Some?)
      && (Truthy(v.quickRatio) <==> v.quickRatio.Some?)
  {
    var v := ReadingsOf(stock);
    assert Reading(v, DebtEquity) != Some(0.0);
    assert Reading(v, CurrentRatio) != Some(0.0);
    assert Reading(v, QuickRatio) != Some(0.0);
  }

  /** The low preset's checks, on any readings. */
  lemma LowPresetAccepts(v: Readings)
    ensures Accepts(LowPreset, v) <==>
      && Truthy(v.debtEquity) && v.debtEquity.value <= 0.5
      && Truthy(v.currentRatio) && v.currentRatio.value >= 2.0
      && Truthy(v.quickRatio) && v.quickRatio.value >= 1.5
      && v.risk == Low
  {
  }

  /** The medium preset's checks, on any readings. */
  lemma MediumPresetAccepts(v: Readings)
    ensures Accepts(MediumPreset, v) <==>
      && Truthy(v.debtEquity) && v.debtEquity.value <= 1.5
      && Truthy(v.currentRatio) && v.currentRatio.value >= 1.0
      && v.risk == Medium
  {
  }

  /** The high preset's one check, on any readings. */
  lemma HighPresetAccepts(v: Readings)
    ensures Accepts(HighPreset, v) <==> v.risk == High
  {
  }
}
