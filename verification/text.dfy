/** Character classes and the small string transformations the screener
    applies before parsing numbers: the regular-expression "keep only these
    characters" replacements, Python's `str.strip()` and `str.replace(c, '')`,
    and the length of a leading run of one class (a greedy `[...]+`). */
module Text {

  /** The character classes that occur in the source's regular expressions. */
  datatype CharClass =
    | Digit              // [0-9]
    | DigitOrPoint       // [0-9.]      market-cap clean-up in server and client
    | NumericChar        // [0-9.-]     ratio clean-up, and Python's [\d.-]
    | DigitCommaOrPoint  // [\d,.]      numeric group of the scraper's market-cap pattern
    | Space              // Python's \s and str.isspace()

  predicate IsDigit(c: char) {
    '0' <= c <= '9'
  }

  /** Python's `str.isspace()`: the ASCII whitespace and separator controls
      plus the Unicode space separators. */
  predicate IsSpace(c: char) {
    || c == ' ' || c == '\t' || c == '\n' || c == '\r'
    || c == '\U{000B}' || c == '\U{000C}'
    || ('\U{001C}' <= c <= '\U{001F}')
    || c == '\U{0085}' || c == '\U{00A0}' || c == '\U{1680}'
    || ('\U{2000}' <= c <= '\U{200A}')
    || c == '\U{2028}' || c == '\U{2029}' || c == '\U{202F}' || c == '\U{205F}' || c == '\U{3000}'
  }

  predicate InClass(c: char, k: CharClass) {
    match k
    case Digit => IsDigit(c)
    case DigitOrPoint => IsDigit(c) || c == '.'
    case NumericChar => IsDigit(c) || c == '.' || c == '-'
    case DigitCommaOrPoint => IsDigit(c) || c == ',' || c == '.'
    case Space => IsSpace(c)
  }

  predicate AllIn(s: string, k: CharClass) {
    forall i :: 0 <= i < |s| ==> InClass(s[i], k)
  }

  predicate AllDigits(s: string) {
    AllIn(s, Digit)
  }

  /** `s.replace(/[^class]/g, '')`: the characters of `s` that belong to `k`,
      in their original order. */
  function Keep(s: string, k: CharClass): (r: string)
    ensures AllIn(r, k)
    ensures |r| <= |s|
    ensures AllIn(s, k) ==> r == s
  {
    if s == [] then []
    else if InClass(s[0], k) then [s[0]] + Keep(s[1..], k)
    else Keep(s[1..], k)
  }

  /** Keeping characters commutes with concatenation. */
  lemma {:induction false} KeepAppend(a: string, b: string, k: CharClass)
    ensures Keep(a + b, k) == Keep(a, k) + Keep(b, k)
  {
    if a == [] {
      assert a + b == b;
    } else {
      assert (a + b)[0] == a[0];
      assert (a + b)[1..] == a[1..] + b;
      KeepAppend(a[1..], b, k);
    }
  }

  /** A string none of whose characters belongs to `k` vanishes entirely. */
  lemma {:induction false} KeepNone(s: string, k: CharClass)
    requires forall i :: 0 <= i < |s| ==> !InClass(s[i], k)
    ensures Keep(s, k) == []
  {
    if s != [] {
      KeepNone(s[1..], k);
    }
  }

  /** Python's `s.replace(c, '')`. */
  function Without(s: string, c: char): (r: string)
    ensures c !in r
    ensures |r| <= |s|
    ensures c !in s ==> r == s
  {
    if s == [] then []
    else if s[0] == c then Without(s[1..], c)
    else [s[0]] + Without(s[1..], c)
  }

  /** The length of the longest prefix of `s` made of characters of `k`:
      what a greedy `[k]*` consumes. */
  function Run(s: string, k: CharClass): (n: nat)
    ensures n <= |s|
    ensures AllIn(s[..n], k)
    ensures n < |s| ==> !InClass(s[n], k)
  {
    if s == [] || !InClass(s[0], k) then 0
    else
      var n := 1 + Run(s[1..], k);
      assert forall i :: 1 <= i < n ==> s[..n][i] == s[1..][..n - 1][i - 1];
      n
  }

  /** A run is determined by its characters: it covers a prefix made of `k`
      exactly when the character after that prefix is outside `k`. */
  lemma {:induction false} RunOfPrefix(a: string, rest: string, k: CharClass)
    requires AllIn(a, k)
    requires rest == [] || !InClass(rest[0], k)
    ensures Run(a + rest, k) == |a|
  {
    if a == [] {
      assert a + rest == rest;
    } else {
      assert (a + rest)[1..] == a[1..] + rest;
      RunOfPrefix(a[1..], rest, k);
    }
  }

  /** The length of the longest suffix of `s` made of characters of `k`. */
  function TailRun(s: string, k: CharClass): (n: nat)
    ensures n <= |s|
    ensures forall i :: |s| - n <= i < |s| ==> InClass(s[i], k)
    ensures n < |s| ==> !InClass(s[|s| - n - 1], k)
  {
    if s == [] || !InClass(s[|s| - 1], k) then 0
    else 1 + TailRun(s[..|s| - 1], k)
  }

  /** Python's `str.strip()`: the text without leading or trailing
      whitespace. */
  function Strip(s: string): (r: string)
    ensures |r| <= |s|
    ensures r != [] ==> !IsSpace(r[0]) && !IsSpace(r[|r| - 1])
    ensures r == [] ==> AllIn(s, Space)
    ensures exists i, j :: 0 <= i <= j <= |s| && r == s[i..j] && AllIn(s[..i], Space) && AllIn(s[j..], Space)
  {
    var front := Run(s, Space);
    var t := s[front..];
    if t == [] then
      assert s[..front] == s;
      assert [] == s[front..front] && AllIn(s[front..], Space);
      []
    else
      var back := TailRun(t, Space);
      var j := front + |t| - back;
      assert t[..|t| - back] == s[front..j];
      assert s[j..] == t[|t| - back..];
      t[..|t| - back]
  }

  /** Text that neither starts nor ends with whitespace is its own strip. */
  lemma StripKeeps(s: string)
    requires s != [] && !IsSpace(s[0]) && !IsSpace(s[|s| - 1])
    ensures Strip(s) == s
  {
    assert !InClass(s[0], Space);
    assert s[0..] == s;
    assert !InClass(s[|s| - 1], Space);
  }

  /** A character outside `k` does not occur in text made of `k`. */
  lemma AllInExcludes(s: string, k: CharClass, c: char)
    requires AllIn(s, k) && !InClass(c, k)
    ensures c !in s
  {
    forall i | 0 <= i < |s| ensures s[i] != c {
      assert InClass(s[i], k);
    }
  }

  /** On text of digits, commas and points, keeping digits and points is
      dropping the commas. */
  lemma {:induction false} KeepDropsCommas(s: string)
    requires AllIn(s, DigitCommaOrPoint)
    ensures Keep(s, DigitOrPoint) == Without(s, ',')
  {
    if s != [] {
      assert InClass(s[0], DigitCommaOrPoint);
      assert AllIn(s[1..], DigitCommaOrPoint) by {
        forall i | 0 <= i < |s| - 1 ensures InClass(s[1..][i], DigitCommaOrPoint) {
          assert s[1..][i] == s[i + 1];
        }
      }
      KeepDropsCommas(s[1..]);
    }
  }
}
