/** Decimal numerals: the digit strings behind every number the screener
    reads from text.

    JavaScript's `parseFloat` and Python's `float()` accept the same numeral
    shape once the source has stripped a string down to digits, '.', and '-':
    an optional sign, a run of digits, an optional point and a run of
    fraction digits, with at least one digit in all. `parseFloat` reads the
    longest such prefix and ignores the rest; `float()` demands that the
    numeral is the whole string. Both are defined here through one scanner,
    `Scan`. */
module Numerals {
  import opened Wrappers
  import opened Text

  function Pow10(k: nat): (p: nat)
    ensures p >= 1
  {
    if k == 0 then 1 else 10 * Pow10(k - 1)
  }

  function DigitValue(c: char): nat
    requires IsDigit(c)
  {
    c as int - '0' as int
  }

  function DigitChar(d: nat): (c: char)
    requires d < 10
    ensures IsDigit(c) && DigitValue(c) == d
  {
    ('0' as int + d) as char
  }

  lemma AllInSlice(s: string, i: nat, j: nat, k: CharClass)
    requires i <= j <= |s| && AllIn(s, k)
    ensures AllIn(s[i..j], k)
  {
    forall t | 0 <= t < j - i ensures InClass(s[i..j][t], k) {
      assert s[i..j][t] == s[i + t];
    }
  }

  lemma AllInAppend(a: string, b: string, k: CharClass)
    requires AllIn(a, k) && AllIn(b, k)
    ensures AllIn(a + b, k)
  {
    forall t | 0 <= t < |a + b| ensures InClass((a + b)[t], k) {
      if t < |a| { assert (a + b)[t] == a[t]; } else { assert (a + b)[t] == b[t - |a|]; }
    }
  }

  /** The natural number a string of decimal digits denotes, most
      significant digit first; the empty string denotes 0. */
  function NatOf(s: string): nat
    requires AllDigits(s)
  {
    if s == [] then 0
    else
      AllInSlice(s, 0, |s| - 1, Digit);
      10 * NatOf(s[..|s| - 1]) + DigitValue(s[|s| - 1])
  }

  /** A string of `k` zero digits. */
  function Zeros(k: nat): (z: string)
    ensures |z| == k && AllDigits(z)
    ensures forall i :: 0 <= i < k ==> z[i] == '0'
  {
    if k == 0 then [] else Zeros(k - 1) + ['0']
  }

  /** The decimal representation of `n` without leading zeros ("0" for 0):
      what JavaScript and Python print for a non-negative integer. */
  function Digits(n: nat): (s: string)
    ensures AllDigits(s) && |s| >= 1
    ensures NatOf(s) == n
    ensures |s| > 1 ==> s[0] != '0'
  {
    if n < 10 then
      [DigitChar(n)]
    else
      var init := Digits(n / 10);
      var s := init + [DigitChar(n % 10)];
      assert s[..|s| - 1] == init;
      s
  }

  /** Appending digits shifts the value left by their number. */
  lemma {:induction false} NatOfAppend(a: string, b: string)
    requires AllDigits(a) && AllDigits(b)
    ensures AllDigits(a + b)
    ensures NatOf(a + b) == NatOf(a) * Pow10(|b|) + NatOf(b)
  {
    AllInAppend(a, b, Digit);
    if b == [] {
      assert a + b == a;
    } else {
      var b' := b[..|b| - 1];
      var d := DigitValue(b[|b| - 1]);
      AllInSlice(b, 0, |b| - 1, Digit);
      assert (a + b)[..|a + b| - 1] == a + b';
      assert (a + b)[|a + b| - 1] == b[|b| - 1];
      NatOfAppend(a, b');
      assert NatOf(a + b) == 10 * NatOf(a + b') + d;
      assert NatOf(b) == 10 * NatOf(b') + d;
      ShiftStep(NatOf(a), Pow10(|b'|), NatOf(b'), d);
    }
  }

  lemma ShiftStep(x: nat, p: nat, y: nat, d: nat)
    ensures 10 * (x * p + y) + d == x * (10 * p) + (10 * y + d)
  {
  }

  lemma {:induction false} NatOfZeros(k: nat)
    ensures NatOf(Zeros(k)) == 0
  {
    if k > 0 {
      assert Zeros(k)[..k - 1] == Zeros(k - 1);
      NatOfZeros(k - 1);
    }
  }

  /** Leading zeros do not change the value of a digit string. */
  lemma LeadingZeros(k: nat, s: string)
    requires AllDigits(s)
    ensures AllDigits(Zeros(k) + s) && NatOf(Zeros(k) + s) == NatOf(s)
  {
    NatOfAppend(Zeros(k), s);
    NatOfZeros(k);
  }

  /** A digit string of length `k` denotes less than 10^k. */
  lemma {:induction false} NatOfBound(s: string)
    requires AllDigits(s)
    ensures NatOf(s) < Pow10(|s|)
  {
    if s != [] {
      var s' := s[..|s| - 1];
      AllInSlice(s, 0, |s| - 1, Digit);
      NatOfBound(s');
    }
  }

  /** A decimal numeral as the parsers see it. `sign` is the sign character
      as written ("", "+" or "-"), `point` records a decimal point. */
  datatype Numeral = Numeral(sign: string, whole: string, point: bool, fraction: string)

  predicate WellFormed(n: Numeral) {
    && (n.sign == "" || n.sign == "-" || n.sign == "+")
    && AllDigits(n.whole) && AllDigits(n.fraction)
    && |n.whole| + |n.fraction| > 0
    && (n.point || n.fraction == [])
  }

  /** The characters a numeral occupies in the text it was read from. */
  function Lexeme(n: Numeral): string {
    n.sign + n.whole + (if n.point then "." else "") + n.fraction
  }

  /** The exact value of a numeral. */
  function Value(n: Numeral): real
    requires WellFormed(n)
  {
    var magnitude := NatOf(n.whole) as real + NatOf(n.fraction) as real / Pow10(|n.fraction|) as real;
    if n.sign == "-" then -magnitude else magnitude
  }

  /** Nothing in `rest` can continue a numeral that ends with `n`: neither
      a digit, nor a point when `n` has none yet. */
  predicate CannotExtend(n: Numeral, rest: string) {
    rest == [] || (!IsDigit(rest[0]) && (n.point || rest[0] != '.'))
  }

  /** 1 when `s` opens with a sign character, else 0. */
  function SignLength(s: string): (i: nat)
    ensures i <= |s|
  {
    if |s| > 0 && (s[0] == '-' || s[0] == '+') then 1 else 0
  }

  /** The unsigned part of a numeral at the start of `t`: the digits, then
      (if a point follows) the point and the digits after it. Both digit runs
      may be empty here; `Scan` rejects the case where both are. */
  function Unsigned(t: string): (u: Numeral)
    ensures u.sign == [] && AllDigits(u.whole) && AllDigits(u.fraction)
    ensures u.point || u.fraction == []
    ensures Lexeme(u) <= t && CannotExtend(u, t[|Lexeme(u)|..])
  {
    var w := Run(t, Digit);
    if w < |t| && t[w] == '.' then
      var f := Run(t[w + 1..], Digit);
      PointedPrefix(t, w, f);
      Numeral([], t[..w], true, t[w + 1..][..f])
    else
      var u := Numeral([], t[..w], false, []);
      assert Lexeme(u) == t[..w];
      u
  }

  /** Digits, a point and the digits after it spell a prefix that the
      rest of the text cannot extend. */
  lemma PointedPrefix(t: string, w: nat, f: nat)
    requires w < |t| && t[w] == '.' && f == Run(t[w + 1..], Digit)
    ensures var u := Numeral([], t[..w], true, t[w + 1..][..f]);
      Lexeme(u) == t[..w + 1 + f] && CannotExtend(u, t[w + 1 + f..])
  {
    var u := Numeral([], t[..w], true, t[w + 1..][..f]);
    assert Lexeme(u) == t[..w + 1 + f] by {
      assert t[..w] + "." == t[..w + 1];
      assert t[w + 1..][..f] == t[w + 1..w + 1 + f];
    }
    assert w + 1 + f < |t| ==> t[w + 1 + f] == t[w + 1..][f];
  }

  /** The longest numeral at the start of `s`, if any. */
  function Scan(s: string): (r: Option<Numeral>)
    ensures r.Some? ==> WellFormed(r.value) && Lexeme(r.value) <= s
    ensures r.Some? ==> CannotExtend(r.value, s[|Lexeme(r.value)|..])
  {
    var i := SignLength(s);
    var u := Unsigned(s[i..]);
    if |u.whole| + |u.fraction| == 0 then None
    else
      var n := u.(sign := s[..i]);
      SignedLexeme(s, i, u);
      Some(n)
  }

  /** Putting the sign `Scan` read in front of an unsigned numeral read
      after it. */
  lemma SignedLexeme(s: string, i: nat, u: Numeral)
    requires i == SignLength(s) && u.sign == []
    requires Lexeme(u) <= s[i..] && CannotExtend(u, s[i..][|Lexeme(u)|..])
    ensures Lexeme(u.(sign := s[..i])) == s[..i] + Lexeme(u) <= s
    ensures CannotExtend(u, s[|Lexeme(u.(sign := s[..i]))|..])
    ensures s[..i] == "" || s[..i] == "-" || s[..i] == "+"
  {
    var lu := Lexeme(u);
    assert s[..i] + lu == s[..i + |lu|];
    assert s[i + |lu|..] == s[i..][|lu|..];
  }

  /** `Run` reaches past every prefix made of its class. */
  lemma {:induction false} RunCoversPrefix(s: string, m: nat, k: CharClass)
    requires m <= |s| && AllIn(s[..m], k)
    ensures Run(s, k) >= m
  {
    if m > 0 {
      assert s[0] == s[..m][0];
      AllInSlice(s[..m], 1, m, k);
      assert s[..m][1..m] == s[1..][..m - 1];
      RunCoversPrefix(s[1..], m - 1, k);
    }
  }

  /** The sign of a numeral that starts `s` is the sign `Scan` reads. */
  lemma SignOfPrefix(s: string, n: Numeral)
    requires WellFormed(n) && Lexeme(n) <= s
    ensures SignLength(s) == |n.sign| && s[..|n.sign|] == n.sign
    ensures n.(sign := []) == Numeral([], n.whole, n.point, n.fraction)
    ensures Lexeme(n.(sign := [])) <= s[|n.sign|..]
  {
    var lx := Lexeme(n);
    var u := n.(sign := []);
    assert lx == n.sign + Lexeme(u);
    if n.sign == "" {
      if n.whole != [] {
        assert s[0] == lx[0] == n.whole[0];
      } else {
        assert s[0] == lx[0] == '.';
      }
    } else {
      assert s[0] == lx[0] == n.sign[0];
    }
  }

  /** Among unsigned numerals starting `t`, `Unsigned` reads one at least as
      long as any. */
  lemma UnsignedIsLongest(t: string, n: Numeral)
    requires n.sign == [] && AllDigits(n.whole) && AllDigits(n.fraction)
    requires n.point || n.fraction == []
    requires Lexeme(n) <= t
    ensures |n.whole| <= |Unsigned(t).whole|
    ensures |n.whole| + |n.fraction| <= |Unsigned(t).whole| + |Unsigned(t).fraction|
    ensures |Lexeme(n)| <= |Lexeme(Unsigned(t))|
  {
    var h := |n.whole|;
    var lx := Lexeme(n);
    assert lx == n.whole + ((if n.point then "." else "") + n.fraction);
    assert t[..h] == n.whole;
    RunCoversPrefix(t, h, Digit);
    if h < Run(t, Digit) {
      ShorterWholeHasNoPoint(t, n);
    } else if n.point {
      SameWholeLongerFraction(t, n);
    }
  }

  /** A numeral whose digits stop inside the digit run of `t` cannot have a
      point: the next character of `t` is a digit. */
  lemma ShorterWholeHasNoPoint(t: string, n: Numeral)
    requires n.sign == [] && (n.point || n.fraction == [])
    requires Lexeme(n) <= t && |n.whole| < Run(t, Digit)
    ensures !n.point
  {
    var h := |n.whole|;
    var w := Run(t, Digit);
    assert IsDigit(t[h]) by { assert t[..w][h] == t[h]; }
  }

  /** A numeral with a point whose digits fill the digit run of `t` has no
      more fraction digits than `Unsigned` reads. */
  lemma SameWholeLongerFraction(t: string, n: Numeral)
    requires n.sign == [] && n.point && AllDigits(n.fraction)
    requires Lexeme(n) <= t && |n.whole| == Run(t, Digit)
    ensures Unsigned(t).point
    ensures |n.fraction| <= |Unsigned(t).fraction|
  {
    var h := |n.whole|;
    var g := |n.fraction|;
    var lx := Lexeme(n);
    assert lx == n.whole + "." + n.fraction;
    assert h + 1 + g <= |t| && t[h] == '.' by {
      assert t[h] == lx[h];
    }
    assert t[h + 1..][..g] == n.fraction by {
      assert lx[h + 1..h + 1 + g] == n.fraction;
    }
    RunCoversPrefix(t[h + 1..], g, Digit);
  }

  /** `Scan` is maximal munch: when some numeral starts `s`, `Scan` finds one
      at least as long. */
  lemma ScanIsLongest(s: string, n: Numeral)
    requires WellFormed(n) && Lexeme(n) <= s
    ensures Scan(s).Some?
    ensures |Lexeme(n)| <= |Lexeme(Scan(s).value)|
  {
    SignOfPrefix(s, n);
    var i := |n.sign|;
    var un := n.(sign := []);
    UnsignedIsLongest(s[i..], un);
    var u := Unsigned(s[i..]);
    assert |Lexeme(n)| == i + |Lexeme(un)|;
    SignedLexeme(s, i, u);
  }

  /** Reading the text of an unsigned numeral, followed by anything that
      cannot continue it, gives that numeral back. */
  lemma UnsignedLexeme(n: Numeral, rest: string)
    requires n.sign == [] && AllDigits(n.whole) && AllDigits(n.fraction)
    requires n.point || n.fraction == []
    requires CannotExtend(n, rest)
    ensures Unsigned(Lexeme(n) + rest) == n
  {
    var t := Lexeme(n) + rest;
    var h := |n.whole|;
    var tail := (if n.point then "." else "") + n.fraction + rest;
    assert t == n.whole + tail;
    assert Run(t, Digit) == h by {
      RunOfPrefix(n.whole, tail, Digit);
    }
    assert t[..h] == n.whole;
    if n.point {
      assert h < |t| && t[h] == '.';
      assert t[h + 1..] == n.fraction + rest;
      assert Run(t[h + 1..], Digit) == |n.fraction| by {
        RunOfPrefix(n.fraction, rest, Digit);
      }
      assert t[h + 1..][..|n.fraction|] == n.fraction;
    } else {
      assert !(h < |t| && t[h] == '.') by {
        assert t[h..] == rest;
      }
    }
  }

  /** Scanning the text of a numeral, followed by anything that cannot
      continue it, gives that numeral back. */
  lemma ScanLexeme(n: Numeral, rest: string)
    requires WellFormed(n) && CannotExtend(n, rest)
    ensures Scan(Lexeme(n) + rest) == Some(n)
  {
    var s := Lexeme(n) + rest;
    assert Lexeme(n) <= s;
    SignOfPrefix(s, n);
    var un := n.(sign := []);
    assert Lexeme(n) == n.sign + Lexeme(un);
    assert s[|n.sign|..] == Lexeme(un) + rest;
    UnsignedLexeme(un, rest);
  }

  /** JavaScript's `parseFloat`: the value of the longest numeral prefix,
      `None` for NaN. This is exact for text that does not open with
      whitespace or "Infinity" and whose numeral is not followed by an
      exponent ('e' or 'E'), which covers every text the screener reads. */
  function JsParseFloat(s: string): (r: Option<real>)
    ensures r.None? <==> forall n :: WellFormed(n) ==> !(Lexeme(n) <= s)
  {
    assert forall n :: WellFormed(n) && Lexeme(n) <= s ==> Scan(s).Some? by {
      forall n | WellFormed(n) && Lexeme(n) <= s ensures Scan(s).Some? {
        ScanIsLongest(s, n);
      }
    }
    match Scan(s)
    case None => None
    case Some(n) => Some(Value(n))
  }

  /** `parseFloat` of a numeral's text, followed by anything that cannot
      continue it, is the numeral's value. */
  lemma ParseFloatOfLexeme(n: Numeral, rest: string)
    requires WellFormed(n) && CannotExtend(n, rest)
    ensures JsParseFloat(Lexeme(n) + rest) == Some(Value(n))
  {
    ScanLexeme(n, rest);
  }

  /** Python's `float(s)` on text made only of digits, '.', '+' and '-': the
      numeral that spans all of `s`, or `None` where Python raises
      `ValueError`. */
  function PyFloat(s: string): (r: Option<Numeral>)
    ensures r.Some? ==> WellFormed(r.value) && Lexeme(r.value) == s
    ensures r.None? ==> forall n :: WellFormed(n) ==> Lexeme(n) != s
  {
    assert forall n :: WellFormed(n) && Lexeme(n) == s ==> Scan(s) == Some(n) by {
      forall n | WellFormed(n) && Lexeme(n) == s ensures Scan(s) == Some(n) {
        assert Lexeme(n) + [] == s;
        ScanLexeme(n, []);
      }
    }
    match Scan(s)
    case Some(n) => if |Lexeme(n)| == |s| then Some(n) else None
    case None => None
  }

  /** Printing a numeral and parsing it back with either parser gives the
      numeral (and its value) back. */
  lemma LexemeRoundTrip(n: Numeral)
    requires WellFormed(n)
    ensures PyFloat(Lexeme(n)) == Some(n)
    ensures JsParseFloat(Lexeme(n)) == Some(Value(n))
  {
    assert Lexeme(n) + [] == Lexeme(n);
    ScanLexeme(n, []);
  }

  /** Where Python accepts a string as a float, JavaScript reads the same
      value from it. */
  lemma PyFloatAgreesWithParseFloat(s: string)
    requires PyFloat(s).Some?
    ensures JsParseFloat(s) == Some(Value(PyFloat(s).value))
  {
  }
}
