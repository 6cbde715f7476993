/** The record shapes shared by client and server (the zod schemas), and the
    validation the server applies to request bodies before using them. */
module Schema {
  import opened Wrappers

  /** One entry of a stock's ratio table. The table is typed `any`; the
      dataset holds JSON scalars there (the scraper writes page text). */
  datatype Cell = CellNull | CellBool(b: bool) | CellNumber(n: real) | CellText(t: string)

  /** Ratio name (e.g. "Current Ratio") to period label (e.g. "Current") to
      raw value. */
  type RatioTable = map<string, map<string, Cell>>

  /** One traded security. Nullable numbers are `Option<real>`; the market
      cap is display text such as "1.5B" that has to be parsed. */
  datatype Stock = Stock(
    symbol: string,
    name: string,
    price: real,
    change: Option<real>,
    changePercent: Option<real>,
    volume: Option<real>,
    marketCap: string,
    peRatio: Option<real>,
    pbRatio: Option<real>,
    eps: Option<real>,
    dividendYield: Option<real>,
    week52High: Option<real>,
    week52Low: Option<real>,
    week52Performance: Option<real>,
    ratios: RatioTable)

  datatype RiskLevel = Low | Medium | High

  /** The wire spelling of a risk level. */
  function RiskName(r: RiskLevel): string {
    match r
    case Low => "low"
    case Medium => "medium"
    case High => "high"
  }

  /** `z.enum(['low', 'medium', 'high'])`. */
  function ParseRiskLevel(s: string): (r: Option<RiskLevel>)
    ensures r.Some? ==> RiskName(r.value) == s
    ensures forall level :: s == RiskName(level) ==> r == Some(level)
  {
    if s == "low" then Some(Low)
    else if s == "medium" then Some(Medium)
    else if s == "high" then Some(High)
    else None
  }

  /** The ten screened metrics, each with a `*Min` and a `*Max` bound. */
  datatype Metric =
    | MarketCap | PeRatio | PbRatio | Roe | Roa | DividendYield
    | Beta | DebtEquity | CurrentRatio | QuickRatio

  /** A filter request: twenty optional bounds and an optional risk tier.
      An absent field imposes nothing. */
  datatype FilterCriteria = FilterCriteria(
    marketCapMin: Option<real>, marketCapMax: Option<real>,
    peRatioMin: Option<real>, peRatioMax: Option<real>,
    pbRatioMin: Option<real>, pbRatioMax: Option<real>,
    roeMin: Option<real>, roeMax: Option<real>,
    roaMin: Option<real>, roaMax: Option<real>,
    dividendYieldMin: Option<real>, dividendYieldMax: Option<real>,
    betaMin: Option<real>, betaMax: Option<real>,
    debtEquityMin: Option<real>, debtEquityMax: Option<real>,
    currentRatioMin: Option<real>, currentRatioMax: Option<real>,
    quickRatioMin: Option<real>, quickRatioMax: Option<real>,
    riskLevel: Option<RiskLevel>)

  /** The criteria object `{}`. */
  const NoCriteria := FilterCriteria(
    None, None, None, None, None, None, None, None, None, None,
    None, None, None, None, None, None, None, None, None, None, None)

  function MinOf(c: FilterCriteria, m: Metric): Option<real> {
    match m
    case MarketCap => c.marketCapMin
    case PeRatio => c.peRatioMin
    case PbRatio => c.pbRatioMin
    case Roe => c.roeMin
    case Roa => c.roaMin
    case DividendYield => c.dividendYieldMin
    case Beta => c.betaMin
    case DebtEquity => c.debtEquityMin
    case CurrentRatio => c.currentRatioMin
    case QuickRatio => c.quickRatioMin
  }

  function MaxOf(c: FilterCriteria, m: Metric): Option<real> {
    match m
    case MarketCap => c.marketCapMax
    case PeRatio => c.peRatioMax
    case PbRatio => c.pbRatioMax
    case Roe => c.roeMax
    case Roa => c.roaMax
    case DividendYield => c.dividendYieldMax
    case Beta => c.betaMax
    case DebtEquity => c.debtEquityMax
    case CurrentRatio => c.currentRatioMax
    case QuickRatio => c.quickRatioMax
  }

  /** The criteria with the `*Min` bound of `m` replaced by `b`. */
  function WithMin(c: FilterCriteria, m: Metric, b: Option<real>): (r: FilterCriteria)
    ensures MinOf(r, m) == b
    ensures forall m' :: m' != m ==> MinOf(r, m') == MinOf(c, m')
    ensures forall m' :: MaxOf(r, m') == MaxOf(c, m')
    ensures r.riskLevel == c.riskLevel
  {
    match m
    case MarketCap => c.(marketCapMin := b)
    case PeRatio => c.(peRatioMin := b)
    case PbRatio => c.(pbRatioMin := b)
    case Roe => c.(roeMin := b)
    case Roa => c.(roaMin := b)
    case DividendYield => c.(dividendYieldMin := b)
    case Beta => c.(betaMin := b)
    case DebtEquity => c.(debtEquityMin := b)
    case CurrentRatio => c.(currentRatioMin := b)
    case QuickRatio => c.(quickRatioMin := b)
  }

  /** The criteria with the `*Max` bound of `m` replaced by `b`. */
  function WithMax(c: FilterCriteria, m: Metric, b: Option<real>): (r: FilterCriteria)
    ensures MaxOf(r, m) == b
    ensures forall m' :: m' != m ==> MaxOf(r, m') == MaxOf(c, m')
    ensures forall m' :: MinOf(r, m') == MinOf(c, m')
    ensures r.riskLevel == c.riskLevel
  {
    match m
    case MarketCap => c.(marketCapMax := b)
    case PeRatio => c.(peRatioMax := b)
    case PbRatio => c.(pbRatioMax := b)
    case Roe => c.(roeMax := b)
    case Roa => c.(roaMax := b)
    case DividendYield => c.(dividendYieldMax := b)
    case Beta => c.(betaMax := b)
    case DebtEquity => c.(debtEquityMax := b)
    case CurrentRatio => c.(currentRatioMax := b)
    case QuickRatio => c.(quickRatioMax := b)
  }

  /** The JSON field names of the criteria object. */
  function MinKey(m: Metric): string {
    match m
    case MarketCap => "marketCapMin"
    case PeRatio => "peRatioMin"
    case PbRatio => "pbRatioMin"
    case Roe => "roeMin"
    case Roa => "roaMin"
    case DividendYield => "dividendYieldMin"
    case Beta => "betaMin"
    case DebtEquity => "debtEquityMin"
    case CurrentRatio => "currentRatioMin"
    case QuickRatio => "quickRatioMin"
  }

  function MaxKey(m: Metric): string {
    match m
    case MarketCap => "marketCapMax"
    case PeRatio => "peRatioMax"
    case PbRatio => "pbRatioMax"
    case Roe => "roeMax"
    case Roa => "roaMax"
    case DividendYield => "dividendYieldMax"
    case Beta => "betaMax"
    case DebtEquity => "debtEquityMax"
    case CurrentRatio => "currentRatioMax"
    case QuickRatio => "quickRatioMax"
  }

  /** Which bound a criteria field name denotes: the metric, and whether
      it is the lower bound. */
  function BoundOfKey(key: string): Option<(Metric, bool)> {
    if key == "marketCapMin" then Some((MarketCap, true))
    else if key == "marketCapMax" then Some((MarketCap, false))
    else if key == "peRatioMin" then Some((PeRatio, true))
    else if key == "peRatioMax" then Some((PeRatio, false))
    else if key == "pbRatioMin" then Some((PbRatio, true))
    else if key == "pbRatioMax" then Some((PbRatio, false))
    else if key == "roeMin" then Some((Roe, true))
    else if key == "roeMax" then Some((Roe, false))
    else if key == "roaMin" then Some((Roa, true))
    else if key == "roaMax" then Some((Roa, false))
    else if key == "dividendYieldMin" then Some((DividendYield, true))
    else if key == "dividendYieldMax" then Some((DividendYield, false))
    else if key == "betaMin" then Some((Beta, true))
    else if key == "betaMax" then Some((Beta, false))
    else if key == "debtEquityMin" then Some((DebtEquity, true))
    else if key == "debtEquityMax" then Some((DebtEquity, false))
    else if key == "currentRatioMin" then Some((CurrentRatio, true))
    else if key == "currentRatioMax" then Some((CurrentRatio, false))
    else if key == "quickRatioMin" then Some((QuickRatio, true))
    else if key == "quickRatioMax" then Some((QuickRatio, false))
    else None
  }

  /** Every field name names its own bound back, so the twenty names are
      pairwise distinct, and none of them is "riskLevel": the criteria
      object has exactly twenty-one fields. */
  lemma BoundKeysRoundTrip(m: Metric)
    ensures BoundOfKey(MinKey(m)) == Some((m, true))
    ensures BoundOfKey(MaxKey(m)) == Some((m, false))
    ensures BoundOfKey("riskLevel") == None
  {
    MinKeyRoundTrip(m);
    MaxKeyRoundTrip(m);
    RiskLevelIsNoBound();
  }

  lemma MinKeyRoundTrip(m: Metric)
    ensures BoundOfKey(MinKey(m)) == Some((m, true))
  {
    match m
    case MarketCap =>
    case PeRatio =>
    case PbRatio =>
    case Roe =>
    case Roa =>
    case DividendYield =>
    case Beta =>
    case DebtEquity =>
    case CurrentRatio =>
    case QuickRatio =>
  }

  lemma MaxKeyRoundTrip(m: Metric)
    ensures BoundOfKey(MaxKey(m)) == Some((m, false))
  {
    match m
    case MarketCap =>
    case PeRatio =>
    case PbRatio =>
    case Roe =>
    case Roa =>
    case DividendYield =>
    case Beta =>
    case DebtEquity =>
    case CurrentRatio =>
    case QuickRatio =>
  }

  lemma RiskLevelIsNoBound()
    ensures BoundOfKey("riskLevel") == None
  {
  }

  /** A JSON request body. */
  datatype Json =
    | JNull
    | JBool(b: bool)
    | JNumber(n: real)
    | JString(s: string)
    | JArray(items: seq<Json>)
    | JObject(fields: map<string, Json>)

  /** `z.number().optional()` applied to one field: absent is fine, present
      must be a number (null is not). The outer `None` is a validation
      failure. */
  function OptionalNumber(fields: map<string, Json>, key: string): (r: Option<Option<real>>)
    ensures r.None? <==> key in fields && !fields[key].JNumber?
    ensures r == Some(None) <==> key !in fields
    ensures key in fields && fields[key].JNumber? ==> r == Some(Some(fields[key].n))
  {
    if key !in fields then Some(None)
    else match fields[key]
      case JNumber(n) => Some(Some(n))
      case _ => None
  }

  /** `z.enum([...]).optional()` for "riskLevel". */
  function OptionalRisk(fields: map<string, Json>): (r: Option<Option<RiskLevel>>)
    ensures "riskLevel" !in fields ==> r == Some(None)
    ensures r.Some? && r.value.Some? ==> fields["riskLevel"] == JString(RiskName(r.value.value))
    ensures "riskLevel" in fields && r.Some? ==> r.value.Some?
    ensures "riskLevel" in fields && fields["riskLevel"].JString? && ParseRiskLevel(fields["riskLevel"].s).Some? ==>
      r == Some(ParseRiskLevel(fields["riskLevel"].s))
  {
    if "riskLevel" !in fields then Some(None)
    else match fields["riskLevel"]
      case JString(s) =>
        (match ParseRiskLevel(s)
         case Some(level) => Some(Some(level))
         case None => None)
      case _ => None
  }

  /** `filterCriteriaSchema.parse(body)`: `None` where zod throws. Fields
      the schema does not name are dropped. */
  function ParseFilterCriteria(body: Json): (r: Option<FilterCriteria>)
    ensures r.Some? ==> body.JObject?
    ensures r.Some? ==> Some(r.value.riskLevel) == OptionalRisk(body.fields)
  {
    if !body.JObject? then None
    else
      var f := body.fields;
      var marketCapMin :- OptionalNumber(f, MinKey(MarketCap));
      var marketCapMax :- OptionalNumber(f, MaxKey(MarketCap));
      var peRatioMin :- OptionalNumber(f, MinKey(PeRatio));
      var peRatioMax :- OptionalNumber(f, MaxKey(PeRatio));
      var pbRatioMin :- OptionalNumber(f, MinKey(PbRatio));
      var pbRatioMax :- OptionalNumber(f, MaxKey(PbRatio));
      var roeMin :- OptionalNumber(f, MinKey(Roe));
      var roeMax :- OptionalNumber(f, MaxKey(Roe));
      var roaMin :- OptionalNumber(f, MinKey(Roa));
      var roaMax :- OptionalNumber(f, MaxKey(Roa));
      var dividendYieldMin :- OptionalNumber(f, MinKey(DividendYield));
      var dividendYieldMax :- OptionalNumber(f, MaxKey(DividendYield));
      var betaMin :- OptionalNumber(f, MinKey(Beta));
      var betaMax :- OptionalNumber(f, MaxKey(Beta));
      var debtEquityMin :- OptionalNumber(f, MinKey(DebtEquity));
      var debtEquityMax :- OptionalNumber(f, MaxKey(DebtEquity));
      var currentRatioMin :- OptionalNumber(f, MinKey(CurrentRatio));
      var currentRatioMax :- OptionalNumber(f, MaxKey(CurrentRatio));
      var quickRatioMin :- OptionalNumber(f, MinKey(QuickRatio));
      var quickRatioMax :- OptionalNumber(f, MaxKey(QuickRatio));
      var riskLevel :- OptionalRisk(f);
      Some(FilterCriteria(
        marketCapMin, marketCapMax, peRatioMin, peRatioMax, pbRatioMin, pbRatioMax,
        roeMin, roeMax, roaMin, roaMax, dividendYieldMin, dividendYieldMax,
        betaMin, betaMax, debtEquityMin, debtEquityMax,
        currentRatioMin, currentRatioMax, quickRatioMin, quickRatioMax, riskLevel))
  }

  /** Each bound of the parsed criteria is the number sent under its name,
      and absent where the name was not sent. */
  lemma ParsedBounds(body: Json)
    requires ParseFilterCriteria(body).Some?
    ensures forall m :: Some(MinOf(ParseFilterCriteria(body).value, m)) == OptionalNumber(body.fields, MinKey(m))
    ensures forall m :: Some(MaxOf(ParseFilterCriteria(body).value, m)) == OptionalNumber(body.fields, MaxKey(m))
  {
    forall m {
      ParsedBound(body, m);
    }
  }

  /** One metric's two bounds of the parsed criteria. */
  lemma ParsedBound(body: Json, m: Metric)
    requires ParseFilterCriteria(body).Some?
    ensures Some(MinOf(ParseFilterCriteria(body).value, m)) == OptionalNumber(body.fields, MinKey(m))
    ensures Some(MaxOf(ParseFilterCriteria(body).value, m)) == OptionalNumber(body.fields, MaxKey(m))
  {
    match m
    case MarketCap =>
    case PeRatio =>
    case PbRatio =>
    case Roe =>
    case Roa =>
    case DividendYield =>
    case Beta =>
    case DebtEquity =>
    case CurrentRatio =>
    case QuickRatio =>
  }

  /** The body is rejected exactly when it is not an object, or one of the
      twenty-one named fields is present with the wrong type (a bound that
      is not a number, a tier that is not one of the three names). */
  lemma ParseFilterCriteriaRejects(body: Json)
    ensures ParseFilterCriteria(body).None? <==>
      || !body.JObject?
      || (exists m :: OptionalNumber(body.fields, MinKey(m)).None?)
      || (exists m :: OptionalNumber(body.fields, MaxKey(m)).None?)
      || OptionalRisk(body.fields).None?
  {
    if ParseFilterCriteria(body).Some? {
      ParsedBounds(body);
    }
  }

  /** Fields the schema does not name make no difference. */
  lemma UnknownFieldsIgnored(f: map<string, Json>, g: map<string, Json>)
    requires forall m :: (MinKey(m) in f <==> MinKey(m) in g) && (MinKey(m) in f ==> f[MinKey(m)] == g[MinKey(m)])
    requires forall m :: (MaxKey(m) in f <==> MaxKey(m) in g) && (MaxKey(m) in f ==> f[MaxKey(m)] == g[MaxKey(m)])
    requires ("riskLevel" in f <==> "riskLevel" in g) && ("riskLevel" in f ==> f["riskLevel"] == g["riskLevel"])
    ensures ParseFilterCriteria(JObject(f)) == ParseFilterCriteria(JObject(g))
  {
    forall m ensures OptionalNumber(f, MinKey(m)) == OptionalNumber(g, MinKey(m))
      && OptionalNumber(f, MaxKey(m)) == OptionalNumber(g, MaxKey(m))
    {
    }
  }

  /** The CAPM request body. */
  datatype CapmInput = CapmInput(riskFreeRate: real, marketReturn: real, beta: real)

  /** `capmInputSchema.parse(body)`: all three fields are required numbers. */
  function ParseCapmInput(body: Json): (r: Option<CapmInput>)
    ensures r.Some? <==>
      && body.JObject?
      && "riskFreeRate" in body.fields && body.fields["riskFreeRate"].JNumber?
      && "marketReturn" in body.fields && body.fields["marketReturn"].JNumber?
      && "beta" in body.fields && body.fields["beta"].JNumber?
    ensures r.Some? ==> r.value == CapmInput(
      body.fields["riskFreeRate"].n, body.fields["marketReturn"].n, body.fields["beta"].n)
  {
    if !body.JObject? then None
    else
      var f := body.fields;
      if "riskFreeRate" in f && f["riskFreeRate"].JNumber?
        && "marketReturn" in f && f["marketReturn"].JNumber?
        && "beta" in f && f["beta"].JNumber?
      then Some(CapmInput(f["riskFreeRate"].n, f["marketReturn"].n, f["beta"].n))
      else None
  }
}
