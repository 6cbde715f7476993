/** The risk classifier (`calculateRiskLevel`): a tier from the current
    debt-to-equity and current ratios. */
module Risk {
  import opened Wrappers
  import opened Schema
  import opened Metrics

  /** The classifier's rule, checked in the source's order: low needs both
      ratios known and favourable; high needs one known unfavourable ratio;
      everything else, unknown ratios included, is medium. */
  function Tier(debtEquity: Option<real>, currentRatio: Option<real>): (r: RiskLevel)
    ensures r == Low <==>
      debtEquity.Some? && debtEquity.value < 0.5 && currentRatio.Some? && currentRatio.value > 2.0
    ensures r == High <==>
      (debtEquity.Some? && debtEquity.value > 1.5) || (currentRatio.Some? && currentRatio.value < 1.0)
  {
    if debtEquity.Some? && debtEquity.value < 0.5 && currentRatio.Some? && currentRatio.value > 2.0 then Low
    else if (debtEquity.Some? && debtEquity.value > 1.5) || (currentRatio.Some? && currentRatio.value < 1.0) then High
    else Medium
  }

  /** `calculateRiskLevel(stock)`. The source also reads the current ROE,
      but nothing depends on it. */
  function Classify(stock: Stock): (r: RiskLevel)
    ensures r == Low ==>
      && RatioCell(stock, DebtEquityKey, CurrentPeriod).Some?
      && RatioCell(stock, CurrentRatioKey, CurrentPeriod).Some?
    ensures
      (RatioCell(stock, DebtEquityKey, CurrentPeriod).None? && RatioCell(stock, CurrentRatioKey, CurrentPeriod).None?)
      ==> r == Medium
  {
    var debtEquity := GetRatioValue(stock, DebtEquityKey, CurrentPeriod);
    var currentRatio := GetRatioValue(stock, CurrentRatioKey, CurrentPeriod);
    Tier(debtEquity, currentRatio)
  }

  /** Tiers ordered from safest to riskiest. */
  function Rank(r: RiskLevel): nat {
    match r
    case Low => 0
    case Medium => 1
    case High => 2
  }

  /** The low and the high conditions never hold together, so the order
      in which the classifier tests them does not change any answer. */
  lemma TiersAreExclusive(debtEquity: Option<real>, currentRatio: Option<real>)
    ensures !(
      && (debtEquity.Some? && debtEquity.value < 0.5 && currentRatio.Some? && currentRatio.value > 2.0)
      && ((debtEquity.Some? && debtEquity.value > 1.5) || (currentRatio.Some? && currentRatio.value < 1.0)))
  {
  }

  /** With both ratios known, more leverage or less liquidity never gives a
      safer tier. */
  lemma TierMonotone(de: real, cr: real, de': real, cr': real)
    requires de <= de' && cr' <= cr
    ensures Rank(Tier(Some(de), Some(cr))) <= Rank(Tier(Some(de'), Some(cr')))
  {
  }

  /** A missing ratio never yields low, and with neither ratio known the
      tier is medium. */
  lemma UnknownIsNeverLow(debtEquity: Option<real>, currentRatio: Option<real>)
    ensures debtEquity.None? || currentRatio.None? ==> Tier(debtEquity, currentRatio) != Low
    ensures Tier(None, None) == Medium
  {
  }

  /** Examples: 0.3 and 2.5 is low; 2.0 and 1.8 is high; two
      unknown ratios are medium. */
  lemma TierExamples()
    ensures Tier(Some(0.3), Some(2.5)) == Low
    ensures Tier(Some(2.0), Some(1.8)) == High
    ensures Tier(None, None) == Medium
  {
  }

  /** The classification of a stock depends on its two current ratio
      cells only. */
  lemma ClassifyReadsTwoCells(a: Stock, b: Stock)
    requires RatioCell(a, DebtEquityKey, CurrentPeriod) == RatioCell(b, DebtEquityKey, CurrentPeriod)
    requires RatioCell(a, CurrentRatioKey, CurrentPeriod) == RatioCell(b, CurrentRatioKey, CurrentPeriod)
    ensures Classify(a) == Classify(b)
  {
  }
}
