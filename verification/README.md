# PSX stock screener — a Dafny model of its core

The screener serves a dataset of the Pakistan Stock Exchange's top 300
companies. A scraper builds the dataset. The server parses each stock's
market-cap text and its ratio table, classifies each stock's risk from two
ratios, filters stocks against validated criteria, and ranks the top gainers
and most active stocks. It also computes CAPM expected returns and serves
three risk presets. The browser client repeats the parsing and risk rules and
formats market caps, percentages and CAPM results for display.

This project models that core as pure Dafny functions over immutable
datatypes and proves what the code promises:

- **Numbers.** `Numerals` defines one numeral scanner. It gives JavaScript's
  `parseFloat` (the value of the longest numeral prefix, `None` for NaN) and
  Python's `float` (the whole text or nothing). `Formatting` models
  JavaScript's `toFixed` and Python's float `repr` over decimals. Both print
  text that the parsers read back: exactly for `repr`, and to within half a
  unit of the last digit for `toFixed`.
- **Market caps and ratios** (`Metrics`). `parseMarketCap` keeps the digits
  and points of the text and scales by 'T' (x1,000,000) or else 'B' (x1,000),
  so the unit is millions. `getRatioValue` reads the "Current" cell of a
  ratio. JavaScript truthiness is modelled exactly: a missing, null, false or
  0 cell is unavailable, and a text cell that reads as 0 or NaN is
  unavailable too.
- **Risk** (`Risk`). A stock is low risk when debt/equity < 0.5 and the
  current ratio > 2. It is high risk when debt/equity > 1.5 or the current
  ratio < 1. Every other stock is medium risk.
- **Filtering** (`Filter`, `Schema`). The zod schemas are modelled as
  validators over a JSON datatype. The filter is the source's chain of 19
  checks, with its quirks kept:
  - a bound of 0 is ignored;
  - a reading of 0 counts as unavailable;
  - market-cap bounds have no availability test, and NaN passes them;
  - beta bounds are validated but never applied.
- **Routes** (`Routes`). The routes are symbol lookup, filter, the top-10
  boards (a stable descending sort), CAPM and the presets. Each route returns
  a `Result` carrying the HTTP error for its 4xx path.
- **Client** (`StockData`, `Capm`). The client's copies are proved to agree
  with the server's. The formatters are proved to read back.
- **Scraper** (`Scraper`). The model covers `clean_number` and
  `parse_market_cap`. The proofs show what the screener later reads from the
  scraper's text.

Tightening one bound can let more stocks through. A lower bound raised from
a negative number to 0 stops applying, because 0 is falsy
(server/routes.ts:78-97). The model follows the code.
`Filter.FilterTighter` proves that tightening never lets more stocks through
when no bound is left at 0, and `Filter.ZeroBoundLoosens` exhibits a stock that passes only after
such a raise.

`Sequences` holds the generic filter, prefix and stable insertion sort the
routes use. `Text` holds the character classes and string clean-ups of the
regular expressions. `Wrappers` holds `Option` and `Result`.

## Model

| member | source | states |
|---|---|---|
| Schema.ParseRiskLevel | shared/schema.ts:46 | only "low", "medium" and "high" are accepted, and each name gives back its own level |
| Schema.WithMin | shared/schema.ts:25-47 | setting one lower bound of the criteria changes that bound and nothing else |
| Schema.WithMax | shared/schema.ts:25-47 | setting one upper bound of the criteria changes that bound and nothing else |
| Schema.BoundKeysRoundTrip | shared/schema.ts:26-45 | each of the 20 bound field names decodes back to its metric and side, so the names are pairwise distinct; "riskLevel" is not a bound |
| Schema.OptionalNumber | shared/schema.ts:26 | an optional number field: absent means no bound, a number is the bound, any other JSON value fails validation |
| Schema.OptionalRisk | shared/schema.ts:46 | an absent risk level means none; a present one must be the string of a level, and the string of a level is accepted as that level |
| Schema.ParseFilterCriteria | shared/schema.ts:25-47 | only a JSON object validates, and its risk level is the body's riskLevel field |
| Schema.ParsedBounds | shared/schema.ts:25-45 | every validated bound equals the body's field of that name |
| Schema.ParseFilterCriteriaRejects | shared/schema.ts:25-47 | validation fails exactly when the body is not an object or some known field has the wrong type |
| Schema.UnknownFieldsIgnored | shared/schema.ts:25-47 | two bodies that agree on the 21 known fields validate alike; unknown keys are stripped |
| Schema.ParseCapmInput | shared/schema.ts:52-56 | a body validates exactly when it is an object with numeric riskFreeRate, marketReturn and beta, and the result carries those three numbers |
| Metrics.ParseMarketCap | server/routes.ts:19-26 | empty text reads as 0, and no text reads as a negative value |
| Metrics.MarketCapOfNumeral | server/routes.ts:19-26 | an unsigned numeral between text without digits or points reads as its value x1,000,000 when the text has a 'T', x1,000 when it has a 'B' and no 'T', and unscaled otherwise |
| Metrics.MarketCapSees | server/routes.ts:19-26 | for non-empty text, the reading depends only on the digits and points and on whether a 'T' or a 'B' occurs |
| Metrics.MarketCapWithoutDigits | server/routes.ts:21-22 | non-empty text without digits reads as NaN |
| Metrics.NonNegativeRead | server/routes.ts:21-22 | parseFloat of text stripped to digits and points is never negative |
| Metrics.TrillionExample | server/routes.ts:23 | "PKR 1.5T" reads as 1,500,000 (millions) |
| Metrics.BillionExample | server/routes.ts:24 | "PKR 250B" reads as 250,000 (millions) |
| Metrics.MillionExample | server/routes.ts:25 | "PKR 80M" reads as 80 |
| Metrics.CellValue | server/routes.ts:32-38 | a cell never reads as 0; a falsy cell is unavailable; a number reads as itself (0 as unavailable); true reads as 1; non-empty text without a digit, such as "-" or "N/A", reads as NaN and so as unavailable |
| Metrics.GetRatioValue | server/routes.ts:29-42 | a missing ratio or period is unavailable; otherwise the cell's reading; never 0 |
| Metrics.RatioTextReadsNumeral | server/routes.ts:34-36 | text such as "-0.8" or "12.5%" reads as its numeral's value, or as unavailable when that value is 0 |
| Metrics.RatioTextDropsCommas | server/routes.ts:35 | a comma anywhere in ratio text changes nothing |
| Risk.Tier | server/routes.ts:51-61 | low exactly when both ratios are known with debt/equity < 0.5 and current ratio > 2; high exactly when debt/equity > 1.5 or current ratio < 1 |
| Risk.Classify | server/routes.ts:45-62 | a low stock has both ratio cells; a stock with neither cell is medium |
| Risk.TiersAreExclusive | server/routes.ts:51-58 | the low and high conditions never hold together, so the order of the two tests does not matter |
| Risk.TierMonotone | server/routes.ts:51-61 | more debt or less liquidity never lowers the tier |
| Risk.UnknownIsNeverLow | server/routes.ts:51 | a stock missing either ratio is never low, and one missing both is medium |
| Risk.TierExamples | server/routes.ts:51-61 | (0.3, 2.5) is low, (2.0, 1.8) is high, and (unknown, unknown) is medium |
| Risk.ClassifyReadsTwoCells | server/routes.ts:45-48 | the tier depends only on the two cells; the ROE value read at line 48 has no effect |
| Filter.ReadingsOf | server/routes.ts:66-76 | the market cap is never negative; the ratio readings are never 0; the tier is the one from the two ratios; P/E is the stock's own field |
| Filter.FilterStocks | server/routes.ts:65-101 | a stock is in the result exactly when it is in the input and passes the criteria; the result is never longer than the input |
| Filter.Accepts | server/routes.ts:78-99 | the chain of checks, in order: a stock of another tier is rejected, and a bound that applies rejects a stock whose reading is missing or 0, except on market cap |
| Filter.AcceptsPerMetric | server/routes.ts:78-97 | the chain of checks accepts exactly when every metric's lower and upper bound and the risk level hold |
| Filter.FilterAppend | server/routes.ts:65-66 | filtering distributes over concatenation and keeps order |
| Filter.FilterCounts | server/routes.ts:65-66 | a passing stock keeps its multiplicity, and a failing one is dropped |
| Filter.NoCriteriaAccepts | server/routes.ts:78-99 | empty criteria accept any readings |
| Filter.NoCriteriaKeepsAll | server/routes.ts:65-101 | empty criteria keep every stock in order |
| Filter.FilterNarrowing | server/routes.ts:65-101 | after a looser filter, a stricter one gives what the stricter one alone gives |
| Filter.FilterIdempotent | server/routes.ts:65-101 | filtering twice is filtering once |
| Filter.BetaBoundsIgnored | server/routes.ts:90 | betaMin and betaMax never change the result |
| Filter.TighterAcceptsLess | server/routes.ts:78-97 | criteria tighter on every bound accept only readings the looser criteria accept |
| Filter.FilterTighter | server/routes.ts:65-101 | tighter criteria keep a sub-selection of what looser ones keep |
| Filter.ZeroBoundLoosens | server/routes.ts:82 | raising pbRatioMin from -5 to 0 lets a stock without a P/B reading through, because a 0 bound is ignored |
| Filter.ZeroReadingFails | server/routes.ts:80 | a P/E of 0 fails even the bound peRatioMin -1, because a 0 reading counts as unavailable |
| Sequences.Sift | server/routes.ts:66 | the kept elements are exactly the input's elements that pass the test, in input order |
| Sequences.Take | server/routes.ts:134 | `slice(0, n)`: a prefix of length min(n, length) |
| Sequences.SortDesc | server/routes.ts:133 | the result is in descending key order and is a permutation of the input |
| Sequences.SortIsStable | server/routes.ts:133 | elements with equal keys keep their input order |
| Routes.FirstWithSymbol | server/routes.ts:111 | the position found holds the symbol and no earlier position does; no position is found only when no stock has the symbol |
| Routes.GetStock | server/routes.ts:110-116 | the stock returned is the first one with the symbol; 404 exactly when no stock has it |
| Routes.FilterRoute | server/routes.ts:119-127 | 400 exactly when validation fails; otherwise the filter of the whole dataset by the validated criteria |
| Routes.EmptyBodyKeepsAll | server/routes.ts:119-127 | the body `{}` returns the whole dataset |
| Routes.Board | server/routes.ts:130-145 | at most 10 qualifying stocks from the dataset, in descending key order, and exactly min(10, number qualifying) of them |
| Routes.BoardLeavesOutLower | server/routes.ts:130-145 | a qualifying stock left off the board means the board is full and its key is at most the last listed key |
| Routes.BoardListsAllWhenFew | server/routes.ts:130-145 | with at most 10 qualifying stocks, every one is listed |
| Routes.BoardKeepsTies | server/routes.ts:133-134 | listed stocks with equal keys appear in dataset order |
| Routes.TopGainers | server/routes.ts:130-136 | at most 10 stocks, each with a positive change percent, in descending change order |
| Routes.MostActive | server/routes.ts:139-145 | at most 10 stocks, each with a non-zero volume, in descending volume order |
| Routes.IsGainer | server/routes.ts:132-133 | a stock qualifies as a gainer exactly when its sort key `changePercent || 0` is positive, so the truthiness test adds nothing |
| Routes.IsActive | server/routes.ts:141-142 | a stock qualifies as active exactly when its sort key `volume || 0` is not 0 |
| Routes.GainersAreTheLargest | server/routes.ts:130-136 | a gainer that is not listed has a change no larger than every listed one, and the board is full |
| Routes.ActiveAreTheLargest | server/routes.ts:139-145 | an active stock that is not listed has a volume no larger than every listed one, and the board is full |
| Routes.CapmRoute | server/routes.ts:148-156 | 400 exactly when the input fails validation; otherwise, whatever other keys the body holds, the client's CAPM value of the three validated numbers |
| Routes.CapmRouteAgreesWithClient | server/routes.ts:150-152 | for any three numbers, the server returns the client's CAPM value |
| Routes.PresetFor | server/routes.ts:159-189 | a preset exists exactly for "low", "medium" and "high", and its risk level is that level; each name returns its own preset's bounds; any other name is a 400 |
| Routes.UnknownPresetRejected | server/routes.ts:184-185 | "extreme" is rejected |
| Routes.LowPresetSelects | server/routes.ts:164-171 | the low preset keeps exactly the low-tier stocks with a quick ratio of at least 1.5; the other two bounds add nothing to the tier test |
| Routes.MediumPresetSelects | server/routes.ts:172-178 | the medium preset keeps exactly the non-low stocks with debt/equity <= 1.5 and current ratio >= 1 |
| Routes.HighPresetSelects | server/routes.ts:179-183 | the high preset keeps exactly the high-tier stocks |
| Capm.CalculateCapm | client/src/lib/capm.ts:7-10 | beta 1 gives the market return; beta 0 or a market return equal to the risk-free rate gives the risk-free rate |
| Capm.CapmIsInterpolation | client/src/lib/capm.ts:7-10 | the result is (1 - beta) * rf + beta * rm |
| Capm.CapmMonotoneInBeta | client/src/lib/capm.ts:7-10 | a higher beta never lowers the result when the market return is at least the risk-free rate, and never raises it otherwise |
| Capm.CapmExamples | client/src/lib/capm.ts:7-18 | with the defaults 12.5 and 15.2, beta 1 gives 15.2 and beta 2 gives 17.9 |
| Capm.FormatCapmResult | client/src/lib/capm.ts:12-14 | the text ends in '%' and starts with '-' exactly for negative values |
| Capm.FormatCapmReadBack | client/src/lib/capm.ts:12-14 | parseFloat of the text is within 0.05 of the value |
| StockData.ParseMarketCap | client/src/lib/stockData.ts:3-10 | empty text reads as 0, and no text reads as a negative value |
| StockData.ParseMarketCapAgrees | client/src/lib/stockData.ts:3-10 | the client reads every market-cap text as the server does |
| StockData.GetRatioValue | client/src/lib/stockData.ts:26-39 | never 0; a missing cell is unavailable |
| StockData.GetRatioValueAgrees | client/src/lib/stockData.ts:26-39 | the client reads every ratio cell as the server does; the client's text is the server's, so the model shares the cell reading and this holds by construction |
| StockData.CalculateRiskLevel | client/src/lib/stockData.ts:41-56 | a low stock has both ratios available |
| StockData.CalculateRiskLevelAgrees | client/src/lib/stockData.ts:41-56 | the client's tier is the server's tier for every stock |
| StockData.FormatMarketCap | client/src/lib/stockData.ts:12-16 | the text starts "PKR " and ends in T, B or M by the tier of the value |
| StockData.FormatMarketCapReadBack | client/src/lib/stockData.ts:12-16 | parseMarketCap of the formatted text is within half a unit of the shown last digit: 5,000 in the T tier, 5 in the B tier, 0.005 in the M tier |
| StockData.TrillionsReadBack | client/src/lib/stockData.ts:13 | the T tier reads back within 5,000 |
| StockData.BillionsReadBack | client/src/lib/stockData.ts:14 | the B tier reads back within 5 |
| StockData.MillionsReadBack | client/src/lib/stockData.ts:15 | the M tier reads back within 0.005 |
| StockData.ShownInTrillions | client/src/lib/stockData.ts:3-10 | "PKR " + numeral + "T" reads as the numeral x1,000,000 |
| StockData.ShownInBillions | client/src/lib/stockData.ts:3-10 | "PKR " + numeral + "B" reads as the numeral x1,000 |
| StockData.ShownInMillions | client/src/lib/stockData.ts:3-10 | "PKR " + numeral + "M" reads as the numeral |
| StockData.FormatPercent | client/src/lib/stockData.ts:22-24 | the text ends in '%' and starts with '+' exactly for values >= 0 and with '-' exactly for negative ones |
| StockData.PercentSpelling | client/src/lib/stockData.ts:23 | the text is a signed two-decimal numeral followed by '%' |
| StockData.FormatPercentReadBack | client/src/lib/stockData.ts:22-24 | parseFloat of the text is within 0.005 of the value |
| StockData.GetStockMetrics | client/src/lib/stockData.ts:58-76 | beta is the constant 1; the market cap is non-negative; P/E is the stock's field; no ratio reads as 0 |
| StockData.MetricsMatchFilterReadings | client/src/lib/stockData.ts:58-76 | the card's nine shared metrics equal the readings the server filters on |
| Scraper.CleanNumeral | attached_assets/300scraper_1759312394733.py:29-36 | "", "-" and "N/A" give nothing; a numeral found is spelled by exactly the text's digits, points and minus signs, and has no '+' |
| Scraper.CleanNumber | attached_assets/300scraper_1759312394733.py:29-36 | a value exists exactly when the numeral does, and parseFloat reads the same value from the cleaned text |
| Scraper.CleanNumeralAccepts | attached_assets/300scraper_1759312394733.py:30-36 | a value is read exactly when some numeral is spelled by the cleaned text; the three special strings would be rejected anyway |
| Scraper.DecoratedNumber | attached_assets/300scraper_1759312394733.py:32-34 | a numeral between text without digits, points or minus signs, as in "Rs 12.50" or "-3.4%", reads as its value |
| Scraper.ScrapedRatioAgrees | attached_assets/300scraper_1759312394733.py:29-36 | a text the scraper reads as a non-zero number is read as the same number by the server's ratio reader |
| Scraper.MatchCap | attached_assets/300scraper_1759312394733.py:41-44 | no match exactly when the text does not open with a digit, comma or point; the number group is a non-empty prefix of such characters; the suffix is empty or one allowed letter |
| Scraper.ParseCapWith | attached_assets/300scraper_1759312394733.py:38-55 | nothing exactly for empty text; text whose stripped form does not open with a digit, comma or point comes back unchanged, and so does text whose matched number, without its commas, is not a numeral (such as "1.2.3B" or ",B") |
| Scraper.ParseMarketCap | attached_assets/300scraper_1759312394733.py:38-55 | nothing exactly for empty text |
| Scraper.CorrectedParseMarketCap | attached_assets/300scraper_1759312394733.py:38-55 | the pattern with 'T' among its letters; nothing exactly for empty text |
| Scraper.MatchOfCapCell | attached_assets/300scraper_1759312394733.py:41-44 | a cell "number [spaces] [letter]" matches with the whole number, keeping the letter only when the pattern lists it |
| Scraper.ParseOfCapCell | attached_assets/300scraper_1759312394733.py:38-55 | such a cell is rewritten as the float repr of its number, without the commas, followed by the kept letter |
| Scraper.CleanNumeralOfLexeme | attached_assets/300scraper_1759312394733.py:29-36 | the text of any numeral without '+' reads back as that numeral |
| Scraper.CommasIgnored | server/routes.ts:21 | the server's market-cap reading ignores grouping commas |
| Scraper.CellReads | server/routes.ts:19-26 | the server reads such a cell as its number at the magnitude of its letter |
| Scraper.RewriteReads | attached_assets/300scraper_1759312394733.py:38-55 | the server reads the rewrite as the same number at the magnitude of the kept letter |
| Scraper.RewriteReadsAlike | attached_assets/300scraper_1759312394733.py:38-55 | the rewrite reads as the cell itself unless the pattern drops a 'T' or a 'B' |
| Scraper.ScrapedCapReadsAlike | attached_assets/300scraper_1759312394733.py:41-55 | with no letter or any letter other than 'T', the scraper's rewrite reads as the cell it came from |
| Scraper.TrillionLetterDropped | attached_assets/300scraper_1759312394733.py:41-55 | a cell in trillions is rewritten without its letter, and the rewrite reads one millionth of the cell |
| Scraper.TrillionExample | attached_assets/300scraper_1759312394733.py:41-55 | "1.5T" reads as 1,500,000 but its rewrite reads as 1.5 |
| Scraper.CorrectedCapReadsAlike | attached_assets/300scraper_1759312394733.py:41-55 | with 'T' added to the pattern's letters, every such cell's rewrite reads as the cell |
| Numerals.JsParseFloat | server/routes.ts:22 | NaN exactly when no numeral is a prefix of the text |
| Numerals.ScanIsLongest | server/routes.ts:22 | the numeral read is the longest numeral prefix |
| Numerals.PyFloat | attached_assets/300scraper_1759312394733.py:34 | a numeral is returned only when it spells the whole text, and nothing only when none does |
| Numerals.LexemeRoundTrip | attached_assets/300scraper_1759312394733.py:34 | a numeral's own text parses back to it with either parser |
| Numerals.PyFloatAgreesWithParseFloat | attached_assets/300scraper_1759312394733.py:34 | where Python's float accepts a text, parseFloat reads the same value from it |
| Formatting.ToFixed | client/src/lib/stockData.ts:13-15 | the text is non-empty, made only of digits, points and minus signs, and starts with '-' exactly for negative values |
| Formatting.Fixed | client/src/lib/stockData.ts:13-15 | the numeral has f fraction digits, its sign follows the value, and its digits are round-half-up of abs(x) * 10^f |
| Formatting.ToFixedReadBack | client/src/lib/stockData.ts:13-15 | parseFloat of toFixed(x, f) is within half a unit in the f-th place of x |
| Formatting.Canonical | attached_assets/300scraper_1759312394733.py:48-55 | the repr numeral has a point and at least one digit on each side, and keeps the sign and the value |
| Formatting.Repr | attached_assets/300scraper_1759312394733.py:48-55 | both parsers read back exactly the numeral's value |
| Text.Keep | server/routes.ts:21 | the kept characters all belong to the class, and text already in the class is unchanged |
| Text.KeepDropsCommas | server/routes.ts:21 | on digits, commas and points, keeping digits and points is dropping the commas |
| Text.Without | attached_assets/300scraper_1759312394733.py:45 | the character no longer occurs, and text without it is unchanged |
| Text.Run | attached_assets/300scraper_1759312394733.py:41 | the run is a prefix in the class followed by a character outside it |
| Text.Strip | attached_assets/300scraper_1759312394733.py:41 | the result is a slice of the input with only whitespace cut from either end; it neither starts nor ends with whitespace, and it is empty only for all-whitespace text |
| Text.StripKeeps | attached_assets/300scraper_1759312394733.py:41 | text without whitespace at either end is its own strip |

## Left out

- Loading the dataset, the list-all route, the docs proxy, the UI pages and the
  scraper's network code are left out. They are I/O; the dataset is a parameter
  of every route.
- `formatCurrency` (client/src/lib/stockData.ts:18-20) is left out. It calls
  `toLocaleString('en-PK')`, whose digit grouping comes from locale data.
- Numbers are exact reals, not IEEE doubles. Rounding in `x * 1000000`, in
  `value / 1000` and in the CAPM arithmetic is not modelled.
- Formatting.ToFixed: exact only for |x| < 10^21 (JavaScript switches to
  exponent notation above that). It rounds the exact decimal half-up, where
  JavaScript rounds the double nearest to x.
- Formatting.Repr: exact only for numbers of at most 15 significant digits in
  [1e-4, 1e16). Python switches to exponent notation outside that range, or
  prints the shortest text that rounds to the same double.
- Numerals.JsParseFloat and Numerals.PyFloat: leading whitespace, "Infinity",
  "inf", "nan", underscores and exponents are not read. Every call site first
  strips the text to digits, points (and minus signs), so none of these can
  reach them.
- Text.IsDigit: only ASCII digits. Python's `\d` in the scraper also matches
  other Unicode decimal digits.
- Ratio cells are scalars (null, boolean, number, text). Array and object
  cells, which `z.any()` allows, are left out. A `true` cell is modelled as
  reading 1, the value it takes in the comparisons.
- Schema.ParseFilterCriteria: zod's list of validation issues is reduced to a
  single failure. The 400 responses therefore carry no error detail.
- Scraper.CleanNumeral: the input is a string. Python's `str()` of a non-string
  argument and a `None` argument are left out; the empty string stands for
  every falsy input.
- Scraper.ParseMarketCap: a 'K' suffix is kept, and the server reads it at face
  value in millions. The model states this reading and does not correct it,
  because nothing shows what unit the scraped site means by K.

## Findings

| source | as written | input that shows it | evidently intended | confidence | as-written member | corrected member |
|---|---|---|---|---|---|---|
| attached_assets/300scraper_1759312394733.py:41 | the suffix group `[BMK]?` has no 'T', so a trillion-sized market cap loses its letter and is rewritten as a bare number | "1.5T" is rewritten as "1.5", which the server reads as 1.5 (millions) where "1.5T" itself reads as 1,500,000 | keep 'T' as well, since the server scales 'T' by 1,000,000 (server/routes.ts:23) | medium, not executed | Scraper.TrillionLetterDropped | Scraper.CorrectedCapReadsAlike |
