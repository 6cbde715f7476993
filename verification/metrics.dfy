/** The server's two readers of raw stock data: the market-cap text parser
    and the ratio-table accessor. Both are total; "unavailable" is `None`,
    and so is JavaScript's NaN. */
module Metrics {
  import opened Wrappers
  import opened Text
  import opened Numerals
  import opened Schema
  import Formatting

  /** The ratio-table names the screener reads, and the period it reads. */
  const PbRatioKey := "PB Ratio"
  const EpsKey := "EPS"
  const RoeKey := "Return on Equity (ROE)"
  const RoaKey := "Return on Assets (ROA)"
  const DividendYieldKey := "Dividend Yield"
  const DebtEquityKey := "Debt / Equity Ratio"
  const CurrentRatioKey := "Current Ratio"
  const QuickRatioKey := "Quick Ratio"
  const EvEbitdaKey := "EV/EBITDA Ratio"
  const AssetTurnoverKey := "Asset Turnover"
  const InventoryTurnoverKey := "Inventory Turnover"
  const FcfYieldKey := "FCF Yield"
  const CurrentPeriod := "Current"

  /** `parseMarketCap`: empty text is 0; otherwise every character other
      than a digit or '.' is dropped, the rest is read with `parseFloat`
      and scaled by the magnitude letter of the original text. `None` is
      NaN (no number in the text). Trillions and billions become millions;
      the trillion letter wins when both occur. */
  function ParseMarketCap(s: string): (r: Option<real>)
    ensures s == [] ==> r == Some(0.0)
    ensures r.Some? ==> r.value >= 0.0
  {
    if s == [] then Some(0.0)
    else
      var cleaned := Keep(s, DigitOrPoint);
      match JsParseFloat(cleaned)
      case None => None
      case Some(x) =>
        NonNegativeRead(cleaned);
        if 'T' in s then Some(x * 1000000.0)
        else if 'B' in s then Some(x * 1000.0)
        else Some(x)
  }

  /** `parseMarketCap` sees only the digits and points of non-empty text
      and whether it holds a 'T' or a 'B'. */
  lemma MarketCapSees(s: string, t: string)
    requires s != [] && t != []
    requires Keep(s, DigitOrPoint) == Keep(t, DigitOrPoint)
    requires ('T' in s <==> 'T' in t) && ('B' in s <==> 'B' in t)
    ensures ParseMarketCap(s) == ParseMarketCap(t)
  {
  }

  /** `parseFloat` never reads a negative number from text without '-'. */
  lemma NonNegativeRead(s: string)
    requires AllIn(s, DigitOrPoint)
    requires JsParseFloat(s).Some?
    ensures JsParseFloat(s).value >= 0.0
  {
    var n := Scan(s).value;
    assert |Lexeme(n)| > 0 && Lexeme(n) <= s;
    assert s[0] == Lexeme(n)[0];
    assert InClass(s[0], DigitOrPoint);
    assert n.sign != "-";
    UnsignedValue(n);
  }

  /** A numeral without a minus sign is worth at least 0. */
  lemma UnsignedValue(n: Numeral)
    requires WellFormed(n) && n.sign != "-"
    ensures Value(n) >= 0.0
  {
    var p := Pow10(|n.fraction|) as real;
    assert p > 0.0;
    var q := NatOf(n.fraction) as real;
    assert q / p >= 0.0;
  }

  /** Text with no characters of class `k`. */
  predicate NoneIn(s: string, k: CharClass) {
    forall i :: 0 <= i < |s| ==> !InClass(s[i], k)
  }

  /** A numeral (without a '+') is made of digits, '.' and a leading '-'. */
  lemma UnsignedLexemeIsDecimal(n: Numeral)
    requires WellFormed(n) && n.sign == ""
    ensures AllIn(Lexeme(n), DigitOrPoint)
  {
    var l := Lexeme(n);
    forall i | 0 <= i < |l| ensures InClass(l[i], DigitOrPoint) {
      if i < |n.whole| {
        assert l[i] == n.whole[i];
        assert InClass(n.whole[i], Digit);
      } else if n.point && i == |n.whole| {
        assert l[i] == '.';
      } else {
        var j := i - |n.whole| - (if n.point then 1 else 0);
        assert l[i] == n.fraction[j];
        assert InClass(n.fraction[j], Digit);
      }
    }
  }

  /** Market-cap text such as "PKR 1.5T", "250B" or "80 M": one unsigned
      numeral surrounded by text without digits or points reads as the
      numeral's value scaled by the magnitude letter. */
  lemma MarketCapOfNumeral(prefix: string, n: Numeral, suffix: string)
    requires WellFormed(n) && n.sign == ""
    requires NoneIn(prefix, DigitOrPoint) && NoneIn(suffix, DigitOrPoint)
    ensures 'T' in prefix + suffix ==> ParseMarketCap(prefix + Lexeme(n) + suffix) == Some(Value(n) * 1000000.0)
    ensures 'T' !in prefix + suffix && 'B' in prefix + suffix ==> ParseMarketCap(prefix + Lexeme(n) + suffix) == Some(Value(n) * 1000.0)
    ensures 'T' !in prefix + suffix && 'B' !in prefix + suffix ==> ParseMarketCap(prefix + Lexeme(n) + suffix) == Some(Value(n))
  {
    var s := prefix + Lexeme(n) + suffix;
    assert Keep(s, DigitOrPoint) == Lexeme(n) by {
      UnsignedLexemeIsDecimal(n);
      KeepAround(prefix, Lexeme(n), suffix, DigitOrPoint);
    }
    assert JsParseFloat(Lexeme(n)) == Some(Value(n)) by {
      LexemeRoundTrip(n);
    }
    ScaleOfSurroundings(prefix, Lexeme(n), suffix);
    assert s != [];
  }

  /** Example: "PKR 1.5T" is 1,500,000 (millions). */
  lemma TrillionExample()
    ensures ParseMarketCap("PKR 1.5T") == Some(1500000.0)
  {
    var n := Numeral("", "1", true, "5");
    assert "PKR " + Lexeme(n) + "T" == "PKR 1.5T" by {
      assert Lexeme(n) == "1.5";
    }
    assert AllDigits("1") && AllDigits("5");
    assert Value(n) == 1.5 by {
      assert NatOf("5") == 5 && NatOf("1") == 1;
    }
    assert ParseMarketCap("PKR " + Lexeme(n) + "T") == Some(Value(n) * 1000000.0) by {
      CurrencyHasNoDigits();
      assert NoneIn("T", DigitOrPoint);
      assert 'T' in "PKR " + "T" by { assert ("PKR " + "T")[4] == 'T'; }
      MarketCapOfNumeral("PKR ", n, "T");
    }
  }

  /** "PKR 250B" is 250,000 (millions). */
  lemma BillionExample()
    ensures ParseMarketCap("PKR 250B") == Some(250000.0)
  {
    var n := Numeral("", "250", false, "");
    assert "PKR " + Lexeme(n) + "B" == "PKR 250B" by {
      assert Lexeme(n) == "250";
    }
    assert AllDigits("250");
    assert Value(n) == 250.0 by {
      assert "250"[..2] == "25" && "25"[..1] == "2" && "2"[..0] == "";
      assert NatOf("250") == 250;
    }
    assert ParseMarketCap("PKR " + Lexeme(n) + "B") == Some(Value(n) * 1000.0) by {
      CurrencyHasNoDigits();
      assert NoneIn("B", DigitOrPoint);
      assert 'T' !in "PKR " + "B" && 'B' in "PKR " + "B" by {
        assert "PKR " + "B" == ['P', 'K', 'R', ' ', 'B'];
      }
      MarketCapOfNumeral("PKR ", n, "B");
    }
  }

  /** "PKR 80M" is 80: no letter scales millions. */
  lemma MillionExample()
    ensures ParseMarketCap("PKR 80M") == Some(80.0)
  {
    var n := Numeral("", "80", false, "");
    assert "PKR " + Lexeme(n) + "M" == "PKR 80M" by {
      assert Lexeme(n) == "80";
    }
    assert AllDigits("80");
    assert Value(n) == 80.0 by {
      assert "80"[..1] == "8" && "8"[..0] == "";
      assert NatOf("80") == 80;
    }
    assert ParseMarketCap("PKR " + Lexeme(n) + "M") == Some(Value(n)) by {
      CurrencyHasNoDigits();
      assert NoneIn("M", DigitOrPoint);
      assert 'T' !in "PKR " + "M" && 'B' !in "PKR " + "M" by {
        assert "PKR " + "M" == ['P', 'K', 'R', ' ', 'M'];
      }
      MarketCapOfNumeral("PKR ", n, "M");
    }
  }

  lemma CurrencyHasNoDigits()
    ensures NoneIn("PKR ", DigitOrPoint)
  {
  }

  /** Keeping a class drops text around a run of that class. */
  lemma KeepAround(prefix: string, l: string, suffix: string, k: CharClass)
    requires AllIn(l, k) && NoneIn(prefix, k) && NoneIn(suffix, k)
    ensures Keep(prefix + l + suffix, k) == l
  {
    KeepAppend(prefix, l, k);
    KeepAppend(prefix + l, suffix, k);
    KeepNone(prefix, k);
    KeepNone(suffix, k);
  }

  /** The magnitude letter comes from the text around the number. */
  lemma ScaleOfSurroundings(prefix: string, l: string, suffix: string)
    requires AllIn(l, DigitOrPoint)
    ensures 'T' in prefix + l + suffix <==> 'T' in prefix + suffix
    ensures 'B' in prefix + l + suffix <==> 'B' in prefix + suffix
  {
    assert 'T' !in l && 'B' !in l by {
      forall i | 0 <= i < |l| ensures l[i] != 'T' && l[i] != 'B' {
        assert InClass(l[i], DigitOrPoint);
      }
    }
    var s := prefix + l + suffix;
    assert forall c :: c in s <==> c in prefix || c in l || c in suffix;
    assert forall c :: c in prefix + suffix <==> c in prefix || c in suffix;
  }

  /** Text with at least one character but no digit, such as "N/A", is NaN. */
  lemma MarketCapWithoutDigits(s: string)
    requires s != []
    requires forall i :: 0 <= i < |s| ==> !IsDigit(s[i])
    ensures ParseMarketCap(s).None?
  {
    var cleaned := Keep(s, DigitOrPoint);
    KeepHasNoDigit(s, DigitOrPoint);
    forall n | WellFormed(n) ensures !(Lexeme(n) <= cleaned) {
      NumeralHasDigit(n);
    }
  }

  /** Keeping some characters of digit-free text leaves no digit. */
  lemma {:induction false} KeepHasNoDigit(s: string, k: CharClass)
    requires forall i :: 0 <= i < |s| ==> !IsDigit(s[i])
    ensures forall i :: 0 <= i < |Keep(s, k)| ==> !IsDigit(Keep(s, k)[i])
  {
    if s != [] {
      KeepHasNoDigit(s[1..], k);
    }
  }

  /** Every numeral shows a digit somewhere. */
  lemma NumeralHasDigit(n: Numeral)
    requires WellFormed(n)
    ensures exists i :: 0 <= i < |Lexeme(n)| && IsDigit(Lexeme(n)[i])
  {
    var l := Lexeme(n);
    if |n.whole| > 0 {
      assert l[|n.sign|] == n.whole[0];
      assert InClass(n.whole[0], Digit);
    } else {
      assert l[|n.sign| + 1] == n.fraction[0];
      assert InClass(n.fraction[0], Digit);
    }
  }

  /** The raw cell stored under `ratios[key][period]`, if any. */
  function RatioCell(stock: Stock, key: string, period: string): Option<Cell> {
    if key in stock.ratios && period in stock.ratios[key] then Some(stock.ratios[key][period])
    else None
  }

  /** JavaScript truthiness of a stored cell. */
  predicate TruthyCell(c: Cell) {
    match c
    case CellNull => false
    case CellBool(b) => b
    case CellNumber(x) => x != 0.0
    case CellText(t) => t != []
  }

  /** The reading `getRatioValue` makes of one cell. Falsy cells are
      unavailable; text keeps only digits, '.' and '-' and is read with
      `parseFloat`, a 0 or NaN reading counting as unavailable (`|| null`);
      numbers are returned as they are, and `true` behaves as 1 wherever it
      is compared. Text without a digit, such as "-" or "N/A", reads as
      NaN and so as unavailable. */
  function CellValue(c: Cell): (r: Option<real>)
    ensures r != Some(0.0)
    ensures !TruthyCell(c) ==> r.None?
    ensures c.CellNumber? ==> r == (if c.n == 0.0 then None else Some(c.n))
    ensures c.CellBool? ==> r == (if c.b then Some(1.0) else None)
    ensures c.CellText? && c.t != [] && (forall i :: 0 <= i < |c.t| ==> !IsDigit(c.t[i])) ==> r.None?
  {
    match c
    case CellNull => None
    case CellBool(b) => if b then Some(1.0) else None
    case CellNumber(x) => if x == 0.0 then None else Some(x)
    case CellText(t) =>
      if t == [] then None
      else
        var cleaned := Keep(t, NumericChar);
        assert (forall i :: 0 <= i < |t| ==> !IsDigit(t[i])) ==> JsParseFloat(cleaned).None? by {
          if forall i :: 0 <= i < |t| ==> !IsDigit(t[i]) {
            KeepHasNoDigit(t, NumericChar);
            forall n | WellFormed(n) ensures !(Lexeme(n) <= cleaned) {
              NumeralHasDigit(n);
            }
          }
        }
        match JsParseFloat(cleaned)
        case Some(x) => if x == 0.0 then None else Some(x)
        case None => None
  }

  /** `getRatioValue(stock, key, period)`: the reading of the stored cell,
      unavailable when the ratio or the period is missing. Never 0. */
  function GetRatioValue(stock: Stock, key: string, period: string): (r: Option<real>)
    ensures r != Some(0.0)
    ensures RatioCell(stock, key, period).None? ==> r.None?
    ensures RatioCell(stock, key, period).Some? ==> r == CellValue(RatioCell(stock, key, period).value)
  {
    match RatioCell(stock, key, period)
    case None => None
    case Some(c) => CellValue(c)
  }

  /** Ratio text such as "1.25", "-0.8", "12.5%" or "3.1x": a numeral
      (no '+') followed by text without digits, points or minus signs reads
      as the numeral's value, and as unavailable when that value is 0. */
  lemma {:induction false} RatioTextReadsNumeral(n: Numeral, suffix: string)
    requires WellFormed(n) && n.sign != "+"
    requires NoneIn(suffix, NumericChar)
    ensures CellValue(CellText(Lexeme(n) + suffix)) == (if Value(n) == 0.0 then None else Some(Value(n)))
  {
    var l := Lexeme(n);
    Formatting.LexemeIsNumeric(n);
    KeepAppend(l, suffix, NumericChar);
    KeepNone(suffix, NumericChar);
    assert Keep(l + suffix, NumericChar) == l;
    LexemeRoundTrip(n);
    NumeralHasDigit(n);
  }

  /** The digit-grouping commas of "1,234.5" are dropped before reading. */
  lemma {:induction false} RatioTextDropsCommas(a: string, b: string)
    ensures CellValue(CellText(a + "," + b)) == CellValue(CellText(a + b))
  {
    KeepAppend(a, "," + b, NumericChar);
    KeepAppend(",", b, NumericChar);
    KeepAppend(a, b, NumericChar);
    assert Keep(",", NumericChar) == [];
    assert a + "," + b == a + ("," + b);
    if a + b == [] {
      assert Keep(a + b, NumericChar) == [];
    }
  }
}
