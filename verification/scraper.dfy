/** The scraper's two pure helpers: `clean_number`, which turns a table cell
    into a float, and `parse_market_cap`, which rewrites a market-cap cell
    as the short text the screener later reads with `parseMarketCap`. */
module Scraper {
  import opened Wrappers
  import opened Text
  import opened Numerals
  import opened Formatting
  import opened Schema
  import Metrics

  // ---------------------------------------------------------------------
  // clean_number

  /** The numeral `clean_number` reads: nothing for "", "-" and "N/A";
      otherwise Python's `float` of the text stripped down to digits, '.'
      and '-', or nothing where that is empty or `float` raises. */
  function CleanNumeral(text: string): (r: Option<Numeral>)
    ensures text == [] || text == "-" || text == "N/A" ==> r.None?
    ensures r.Some? ==> WellFormed(r.value) && r.value.sign != "+"
    ensures r.Some? ==> Lexeme(r.value) == Keep(text, NumericChar)
  {
    if text == [] || text == "-" || text == "N/A" then None
    else
      var cleaned := Keep(text, NumericChar);
      if cleaned == [] then None
      else
        var r := PyFloat(cleaned);
        if r.Some? then
          NoPlusIn(r.value);
          r
        else r
  }

  /** A numeral spelled only with digits, points and minus signs has no '+'. */
  lemma NoPlusIn(n: Numeral)
    requires WellFormed(n) && AllIn(Lexeme(n), NumericChar)
    ensures n.sign != "+"
  {
    assert InClass(Lexeme(n)[0], NumericChar);
  }

  /** `clean_number`: the value of that numeral. */
  function CleanNumber(text: string): (r: Option<real>)
    ensures r.Some? <==> CleanNumeral(text).Some?
    ensures r.Some? ==> JsParseFloat(Keep(text, NumericChar)) == r
  {
    match CleanNumeral(text)
    case None => None
    case Some(n) =>
      PyFloatAgreesWithParseFloat(Keep(text, NumericChar));
      Some(Value(n))
  }

  /** The three special spellings are rejected by the float conversion
      anyway: `clean_number` reads a value exactly when some numeral is
      spelled by the text's digits, points and minus signs. */
  lemma CleanNumeralAccepts(text: string)
    ensures CleanNumeral(text).None?
      <==> forall n :: WellFormed(n) ==> Lexeme(n) != Keep(text, NumericChar)
  {
    var cleaned := Keep(text, NumericChar);
    if CleanNumeral(text).None? {
      forall n | WellFormed(n) ensures Lexeme(n) != cleaned {
        Metrics.NumeralHasDigit(n);
        if text == "-" {
          assert cleaned == "-";
        } else if text == "N/A" {
          KeepNone("N/A", NumericChar);
        } else if text != [] && cleaned != [] {
          assert PyFloat(cleaned).None?;
        }
      }
    }
  }

  /** A numeral between text without digits, points or minus signs, as in
      "Rs 12.50" or "-3.4%", is read as the numeral's value. */
  lemma DecoratedNumber(prefix: string, n: Numeral, suffix: string)
    requires WellFormed(n) && n.sign != "+"
    requires Metrics.NoneIn(prefix, NumericChar) && Metrics.NoneIn(suffix, NumericChar)
    ensures CleanNumber(prefix + Lexeme(n) + suffix) == Some(Value(n))
  {
    var text := prefix + Lexeme(n) + suffix;
    LexemeIsNumeric(n);
    Metrics.KeepAround(prefix, Lexeme(n), suffix, NumericChar);
    CleanNumeralAccepts(text);
    LexemeRoundTrip(n);
  }

  /** Text that `clean_number` reads as a non-zero number is read as the
      same number by the server's ratio reader. */
  lemma ScrapedRatioAgrees(text: string)
    requires CleanNumber(text).Some? && CleanNumber(text).value != 0.0
    ensures Metrics.CellValue(CellText(text)) == CleanNumber(text)
  {
  }

  // ---------------------------------------------------------------------
  // parse_market_cap

  /** What `re.match(r'([\d,.]+)\s*([L]?)', t)` captures, for the suffix
      letters L: the leading run of digits, commas and points, and the
      letter after any whitespace that follows it (or nothing). */
  datatype CapMatch = CapMatch(number: string, suffix: string)

  function MatchCap(t: string, letters: string): (m: Option<CapMatch>)
    ensures m.None? <==> t == [] || !InClass(t[0], DigitCommaOrPoint)
    ensures m.Some? ==> 1 <= |m.value.number| && m.value.number <= t
    ensures m.Some? ==> AllIn(m.value.number, DigitCommaOrPoint)
    ensures m.Some? ==> m.value.suffix == [] || (|m.value.suffix| == 1 && m.value.suffix[0] in letters)
  {
    var k := Run(t, DigitCommaOrPoint);
    if k == 0 then None
    else
      var gap := Run(t[k..], Space);
      var suffix := if k + gap < |t| && t[k + gap] in letters then [t[k + gap]] else [];
      Some(CapMatch(t[..k], suffix))
  }

  /** `parse_market_cap` with the suffix letters L of its pattern: nothing
      for empty text; the text itself when the stripped text does not open
      with a digit, comma or point, or when its number does not convert;
      otherwise Python's `repr` of the number followed by the letter. */
  function ParseCapWith(text: string, letters: string): (r: Option<string>)
    ensures r.None? <==> text == []
    ensures text != [] && (Strip(text) == [] || !InClass(Strip(text)[0], DigitCommaOrPoint)) ==> r == Some(text)
    ensures text != [] && MatchCap(Strip(text), letters).Some?
      && (forall n :: WellFormed(n) ==> Lexeme(n) != Keep(Without(MatchCap(Strip(text), letters).value.number, ','), NumericChar))
      ==> r == Some(text)
  {
    if text == [] then None
    else
      match MatchCap(Strip(text), letters)
      case None => Some(text)
      case Some(m) =>
        CleanNumeralAccepts(Without(m.number, ','));
        match CleanNumeral(Without(m.number, ','))
        case None => Some(text)
        case Some(n) => Some(Repr(n) + m.suffix)
  }

  /** The suffix letters of the scraper's pattern `[BMK]?`. */
  const ScrapedLetters := "BMK"

  /** `parse_market_cap` as written. */
  function ParseMarketCap(text: string): (r: Option<string>)
    ensures r.None? <==> text == []
  {
    ParseCapWith(text, ScrapedLetters)
  }

  /** The pattern with 'T' among its letters, as the screener's reader
      expects. */
  const CorrectedLetters := "TBMK"

  /** `parse_market_cap` with the trillion letter kept. */
  function CorrectedParseMarketCap(text: string): (r: Option<string>)
    ensures r.None? <==> text == []
  {
    ParseCapWith(text, CorrectedLetters)
  }

  /** `clean_number` of a numeral's own text gives the numeral back. */
  lemma CleanNumeralOfLexeme(n: Numeral)
    requires WellFormed(n) && n.sign != "+"
    ensures CleanNumeral(Lexeme(n)) == Some(n)
  {
    LexemeIsNumeric(n);
    CleanNumeralAccepts(Lexeme(n));
    LexemeRoundTrip(n);
  }

  /** The market-cap cells the scraper meets: an unsigned number `w`,
      perhaps grouped with commas, then optional whitespace `gap` and an
      optional letter (no whitespace without a letter after it). */
  predicate CapCell(w: string, n: Numeral, gap: string, letter: string) {
    && WellFormed(n) && n.sign == ""
    && w != [] && AllIn(w, DigitCommaOrPoint) && Without(w, ',') == Lexeme(n)
    && AllIn(gap, Space)
    && |letter| <= 1 && (letter == [] ==> gap == [])
    && (letter != [] ==> !IsSpace(letter[0]) && !InClass(letter[0], DigitCommaOrPoint))
  }

  /** How the pattern splits such a cell. */
  lemma MatchOfCapCell(w: string, n: Numeral, gap: string, letter: string, letters: string)
    requires CapCell(w, n, gap, letter)
    ensures MatchCap(w + gap + letter, letters)
      == Some(CapMatch(w, if letter != [] && letter[0] in letters then letter else []))
  {
    var t := w + gap + letter;
    NumberRun(w, gap, letter);
    GapRun(gap, letter);
    assert t[|w|..] == gap + letter;
    assert t[..|w|] == w;
    if letter != [] {
      assert t[|w| + |gap|] == letter[0];
      assert [letter[0]] == letter;
    }
  }

  /** The number group of the pattern takes all of `w`. */
  lemma NumberRun(w: string, gap: string, letter: string)
    requires AllIn(w, DigitCommaOrPoint) && AllIn(gap, Space)
    requires letter == [] || !InClass(letter[0], DigitCommaOrPoint)
    ensures Run(w + gap + letter, DigitCommaOrPoint) == |w|
  {
    assert w + gap + letter == w + (gap + letter);
    if gap != [] {
      assert (gap + letter)[0] == gap[0];
      assert InClass(gap[0], Space);
    }
    RunOfPrefix(w, gap + letter, DigitCommaOrPoint);
  }

  /** The whitespace of the pattern takes all of `gap`. */
  lemma GapRun(gap: string, letter: string)
    requires AllIn(gap, Space)
    requires letter == [] || !IsSpace(letter[0])
    ensures Run(gap + letter, Space) == |gap|
  {
    RunOfPrefix(gap, letter, Space);
  }

  /** `parse_market_cap` of such a cell, for either set of letters: the
      `repr` of the number, followed by the letter when the pattern knows
      it. */
  lemma ParseOfCapCell(w: string, n: Numeral, gap: string, letter: string, letters: string)
    requires CapCell(w, n, gap, letter)
    ensures ParseCapWith(w + gap + letter, letters)
      == Some(Repr(n) + (if letter != [] && letter[0] in letters then letter else []))
  {
    var t := w + gap + letter;
    assert InClass(t[0], DigitCommaOrPoint) && !IsSpace(t[0]) by {
      assert t[0] == w[0];
    }
    assert !IsSpace(t[|t| - 1]) by {
      if letter == [] {
        assert t[|t| - 1] == w[|w| - 1];
        assert InClass(w[|w| - 1], DigitCommaOrPoint);
      } else {
        assert t[|t| - 1] == letter[0];
      }
    }
    StripKeeps(t);
    MatchOfCapCell(w, n, gap, letter, letters);
    CleanNumeralOfLexeme(n);
  }

  /** The screener's scale for the letters around a market-cap number. */
  function Magnitude(v: real, around: string): real {
    if 'T' in around then v * 1000000.0
    else if 'B' in around then v * 1000.0
    else v
  }

  /** An unsigned numeral followed by text without digits or points reads
      as its value at the magnitude that text names. */
  lemma ReadOfCap(n: Numeral, suffix: string)
    requires WellFormed(n) && n.sign == "" && Metrics.NoneIn(suffix, DigitOrPoint)
    ensures Metrics.ParseMarketCap(Lexeme(n) + suffix) == Some(Magnitude(Value(n), suffix))
  {
    assert Lexeme(n) + suffix == [] + Lexeme(n) + suffix;
    assert [] + suffix == suffix;
    Metrics.MarketCapOfNumeral([], n, suffix);
  }

  /** Whitespace adds no digit, point or magnitude letter. */
  lemma GapHidesNothing(gap: string, letter: string)
    requires AllIn(gap, Space) && Metrics.NoneIn(letter, DigitOrPoint)
    ensures Metrics.NoneIn(gap + letter, DigitOrPoint)
    ensures 'T' in gap + letter <==> 'T' in letter
    ensures 'B' in gap + letter <==> 'B' in letter
  {
    forall i | 0 <= i < |gap| ensures !InClass((gap + letter)[i], DigitOrPoint) {
      assert InClass(gap[i], Space);
    }
    assert 'T' !in gap by {
      assert !InClass('T', Space);
    }
    assert 'B' !in gap by {
      assert !InClass('B', Space);
    }
  }

  /** The screener ignores the grouping commas of a market-cap number. */
  lemma CommasIgnored(w: string, rest: string)
    requires AllIn(w, DigitCommaOrPoint) && Without(w, ',') != []
    ensures Metrics.ParseMarketCap(w + rest) == Metrics.ParseMarketCap(Without(w, ',') + rest)
  {
    var v := Without(w, ',');
    assert Keep(w + rest, DigitOrPoint) == Keep(v + rest, DigitOrPoint) by {
      KeepDropsCommas(w);
      KeepAppend(w, rest, DigitOrPoint);
      KeepAppend(v, rest, DigitOrPoint);
      assert Keep(v, DigitOrPoint) == v;
    }
    assert ('T' in w + rest <==> 'T' in v + rest) && ('B' in w + rest <==> 'B' in v + rest) by {
      AllInExcludes(w, DigitCommaOrPoint, 'T');
      AllInExcludes(w, DigitCommaOrPoint, 'B');
      AllInExcludes(Keep(w, DigitOrPoint), DigitOrPoint, 'T');
      AllInExcludes(Keep(w, DigitOrPoint), DigitOrPoint, 'B');
      KeepDropsCommas(w);
    }
    Metrics.MarketCapSees(w + rest, v + rest);
  }

  /** The letters the scraped pattern keeps: 'B', 'M' and 'K', never 'T'. */
  lemma ScrapedLettersAre(c: char)
    ensures c in ScrapedLetters <==> c == 'B' || c == 'M' || c == 'K'
  {
    assert ScrapedLetters == ['B', 'M', 'K'];
  }

  /** The screener reads a market-cap cell as its number at the
      magnitude of its letter. */
  lemma CellReads(w: string, n: Numeral, gap: string, letter: string)
    requires CapCell(w, n, gap, letter)
    ensures Metrics.ParseMarketCap(w + gap + letter) == Some(Magnitude(Value(n), letter))
  {
    var rest := gap + letter;
    assert Metrics.NoneIn(letter, DigitOrPoint);
    GapHidesNothing(gap, letter);
    calc {
      Metrics.ParseMarketCap(w + gap + letter);
      { assert w + gap + letter == w + rest; }
      Metrics.ParseMarketCap(w + rest);
      { CommasIgnored(w, rest); }
      Metrics.ParseMarketCap(Lexeme(n) + rest);
      { ReadOfCap(n, rest); }
      Some(Magnitude(Value(n), rest));
    }
  }

  /** The letter the pattern keeps from a cell. */
  function Kept(letter: string, letters: string): string {
    if letter != [] && letter[0] in letters then letter else []
  }

  /** The screener reads the scraper's rewrite of such a cell as the same
      number at the magnitude of the letter the pattern kept. */
  lemma RewriteReads(w: string, n: Numeral, gap: string, letter: string, letters: string)
    requires CapCell(w, n, gap, letter)
    ensures Metrics.ParseMarketCap(ParseCapWith(w + gap + letter, letters).value)
      == Some(Magnitude(Value(n), Kept(letter, letters)))
  {
    ParseOfCapCell(w, n, gap, letter, letters);
    KeptIsPlain(letter, letters);
    ReadOfRepr(n, Kept(letter, letters));
  }

  /** A kept letter is never a digit or a point. */
  lemma KeptIsPlain(letter: string, letters: string)
    requires |letter| <= 1
    requires letter != [] ==> !InClass(letter[0], DigitCommaOrPoint)
    ensures Metrics.NoneIn(Kept(letter, letters), DigitOrPoint)
  {
  }

  /** The repr of an unsigned numeral, followed by text without digits or
      points, reads as the numeral's value at the magnitude the text names. */
  lemma ReadOfRepr(n: Numeral, suffix: string)
    requires WellFormed(n) && n.sign == "" && Metrics.NoneIn(suffix, DigitOrPoint)
    ensures Metrics.ParseMarketCap(Repr(n) + suffix) == Some(Magnitude(Value(n), suffix))
  {
    ReadOfCap(Canonical(n), suffix);
  }

  /** The screener reads a rewritten cell as it reads the cell itself,
      unless the pattern drops a magnitude letter ('T' or 'B'). */
  lemma RewriteReadsAlike(w: string, n: Numeral, gap: string, letter: string, letters: string)
    requires CapCell(w, n, gap, letter)
    requires letter != [] && letter[0] !in letters ==> letter[0] != 'T' && letter[0] != 'B'
    ensures Metrics.ParseMarketCap(ParseCapWith(w + gap + letter, letters).value)
      == Metrics.ParseMarketCap(w + gap + letter)
  {
    RewriteReads(w, n, gap, letter, letters);
    CellReads(w, n, gap, letter);
    KeptMagnitude(Value(n), letter, letters);
  }

  /** Dropping a letter other than 'T' or 'B' keeps the magnitude. */
  lemma KeptMagnitude(v: real, letter: string, letters: string)
    requires |letter| <= 1
    requires letter != [] && letter[0] !in letters ==> letter[0] != 'T' && letter[0] != 'B'
    ensures Magnitude(v, Kept(letter, letters)) == Magnitude(v, letter)
  {
    if letter != [] {
      assert 'T' in letter <==> letter[0] == 'T';
      assert 'B' in letter <==> letter[0] == 'B';
    }
  }

  /** With no letter, or with any letter but 'T', the scraper's rewrite
      reads as the cell it came from. */
  lemma ScrapedCapReadsAlike(w: string, n: Numeral, gap: string, letter: string)
    requires CapCell(w, n, gap, letter) && letter != "T"
    ensures Metrics.ParseMarketCap(ParseMarketCap(w + gap + letter).value)
      == Metrics.ParseMarketCap(w + gap + letter)
  {
    if letter != [] {
      assert letter == [letter[0]];
      ScrapedLettersAre(letter[0]);
    }
    RewriteReadsAlike(w, n, gap, letter, ScrapedLetters);
  }

  /** A cell in trillions loses its letter: the rewrite reads a
      millionth of what the cell itself reads. */
  lemma TrillionLetterDropped(w: string, n: Numeral, gap: string)
    requires CapCell(w, n, gap, "T")
    ensures ParseMarketCap(w + gap + "T") == Some(Repr(n))
    ensures Metrics.ParseMarketCap(ParseMarketCap(w + gap + "T").value) == Some(Value(n))
    ensures Metrics.ParseMarketCap(w + gap + "T") == Some(Value(n) * 1000000.0)
  {
    ScrapedLettersAre('T');
    assert Kept("T", ScrapedLetters) == [];
    ParseOfCapCell(w, n, gap, "T", ScrapedLetters);
    assert Repr(n) + [] == Repr(n);
    RewriteReads(w, n, gap, "T", ScrapedLetters);
    CellReads(w, n, gap, "T");
  }

  /** "1.5T", one and a half trillion, is rewritten to text the screener
      reads as 1.5 (millions) instead of 1,500,000. */
  lemma TrillionExample()
    ensures Metrics.ParseMarketCap("1.5T") == Some(1500000.0)
    ensures Metrics.ParseMarketCap(ParseMarketCap("1.5T").value) == Some(1.5)
  {
    var n := Numeral("", "1", true, "5");
    assert "1.5" + [] + "T" == "1.5T";
    assert CapCell("1.5", n, [], "T") by {
      assert Lexeme(n) == "1.5";
      assert AllIn("1.5", DigitCommaOrPoint);
      assert Without("1.5", ',') == "1.5";
    }
    assert Value(n) == 1.5 by {
      assert NatOf("5") == 5 && NatOf("1") == 1;
    }
    TrillionLetterDropped("1.5", n, []);
  }

  /** With 'T' among the pattern's letters every such cell reads alike. */
  lemma CorrectedCapReadsAlike(w: string, n: Numeral, gap: string, letter: string)
    requires CapCell(w, n, gap, letter)
    ensures Metrics.ParseMarketCap(CorrectedParseMarketCap(w + gap + letter).value)
      == Metrics.ParseMarketCap(w + gap + letter)
  {
    RewriteReadsAlike(w, n, gap, letter, CorrectedLetters);
  }
}
