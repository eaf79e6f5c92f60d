/**
 * The amount parser. The tracker turns amount text into a number with
 * Python's float(); this module stands in for it with an exact decimal
 * parser: an optional sign, then digits with at most one decimal point and
 * at least one digit. The result is an exact real, not a binary64 value.
 */
module Amounts {
  import opened Wrappers

  predicate IsDigit(c: char) {
    '0' <= c <= '9'
  }

  /** Every character of `s` is a decimal digit. */
  predicate AllDigits(s: string) {
    s == [] || (IsDigit(s[0]) && AllDigits(s[1..]))
  }

  function DigitValue(c: char): (d: nat)
    ensures IsDigit(c) ==> d < 10
  {
    if IsDigit(c) then c as int - '0' as int else 0
  }

  /** The natural number a string of decimal digits denotes. */
  function Natural(s: string): nat
  {
    if s == [] then 0 else 10 * Natural(s[..|s| - 1]) + DigitValue(s[|s| - 1])
  }

  /** The value of the digits after a decimal point: ".25" is 0.25. */
  function Fraction(s: string): (f: real)
    ensures 0.0 <= f
  {
    if s == [] then 0.0 else (DigitValue(s[0]) as real + Fraction(s[1..])) / 10.0
  }

  /**
   * Reads an unsigned numeral from position `i` on: `whole` is the value of
   * the digits before `i` and `any` says whether there were any. The rest
   * is more digits, or a point followed by digits only, and the numeral as
   * a whole holds at least one digit.
   */
  function Scan(s: string, i: nat, whole: nat, any: bool): (r: Option<real>)
    requires i <= |s|
    ensures r.Some? ==> any || i < |s|
    ensures r.Some? ==> 0.0 <= r.value
    decreases |s| - i
  {
    if i == |s| then (if any then Some(whole as real) else None)
    else if IsDigit(s[i]) then Scan(s, i + 1, 10 * whole + DigitValue(s[i]), true)
    else if s[i] == '.' && AllDigits(s[i + 1..]) && (any || i + 1 < |s|) then Some(whole as real + Fraction(s[i + 1..]))
    else None
  }

  /** Digits with at most one decimal point and at least one digit: "12", "12.5", "12.", ".5". */
  function ParseUnsigned(s: string): Option<real> {
    Scan(s, 0, 0, false)
  }

  /** Splits off a leading sign: whether it is a minus, and the numeral after it. */
  function SplitSign(s: string): (bool, string) {
    if |s| > 0 && s[0] == '-' then (true, s[1..])
    else if |s| > 0 && s[0] == '+' then (false, s[1..])
    else (false, s)
  }

  /**
   * The amount a text denotes, or None when the text is not a number. The
   * empty text is never a number, and only a leading minus sign gives a
   * negative amount.
   */
  function ParseAmount(s: string): (r: Option<real>)
    ensures r.Some? ==> |s| > 0
    ensures r.Some? && r.value < 0.0 ==> s[0] == '-'
  {
    var (negative, numeral) := SplitSign(s);
    match ParseUnsigned(numeral)
    case Some(v) => Some(if negative then -v else v)
    case None => None
  }

  function DigitChar(d: nat): (c: char)
    requires d < 10
    ensures IsDigit(c) && DigitValue(c) == d
  {
    ('0' as int + d) as char
  }

  /** Decimal digits of a natural number, most significant first. */
  function ShowNatural(n: nat): (s: string)
    ensures AllDigits(s) && |s| > 0
    decreases n
  {
    if n < 10 then [DigitChar(n)]
    else
      var front := ShowNatural(n / 10);
      AllDigitsAppend(front, [DigitChar(n % 10)]);
      front + [DigitChar(n % 10)]
  }

  lemma {:induction false} AllDigitsAppend(a: string, b: string)
    requires AllDigits(a) && AllDigits(b)
    ensures AllDigits(a + b)
    decreases |a|
  {
    if a != [] {
      AllDigitsAppend(a[1..], b);
      assert (a + b)[1..] == a[1..] + b;
    } else {
      assert a + b == b;
    }
  }

  lemma {:induction false} NaturalOfShowNatural(n: nat)
    ensures Natural(ShowNatural(n)) == n
    decreases n
  {
    var s := ShowNatural(n);
    if n >= 10 {
      NaturalOfShowNatural(n / 10);
      assert s[..|s| - 1] == ShowNatural(n / 10);
    }
  }

  /** Each character of a run of digits is a digit. */
  lemma {:induction false} DigitAt(s: string, k: nat)
    requires AllDigits(s) && k < |s|
    ensures IsDigit(s[k])
    decreases k
  {
    if k > 0 {
      DigitAt(s[1..], k - 1);
    }
  }

  /** Scanning past a run of digits adds them to the whole part read so far. */
  lemma {:induction false} ScanRun(s: string, i: nat, j: nat)
    requires i <= j <= |s| && AllDigits(s[..j])
    ensures Scan(s, i, Natural(s[..i]), i > 0) == Scan(s, j, Natural(s[..j]), j > 0)
    decreases j - i
  {
    if i < j {
      DigitAt(s[..j], i);
      assert s[..i + 1][..i] == s[..i];
      ScanRun(s, i + 1, j);
    }
  }

  /** Scanning a numeral that starts with a run of digits reads the number they denote. */
  lemma ScanDigits(s: string, j: nat)
    requires j <= |s| && AllDigits(s[..j])
    ensures Scan(s, 0, 0, false) == Scan(s, j, Natural(s[..j]), j > 0)
  {
    assert s[..0] == [];
    ScanRun(s, 0, j);
  }

  /** A point followed by digits only ends the numeral: those digits are its fraction. */
  lemma ScanPoint(s: string, k: nat, whole: nat, any: bool)
    requires k < |s| && s[k] == '.' && AllDigits(s[k + 1..]) && (any || k + 1 < |s|)
    ensures Scan(s, k, whole, any) == Some(whole as real + Fraction(s[k + 1..]))
  {
  }

  /** A non-empty run of digits parses to the natural number it denotes. */
  lemma ParseDigits(s: string)
    requires AllDigits(s) && |s| > 0
    ensures ParseAmount(s) == Some(Natural(s) as real)
  {
    assert s[..|s|] == s;
    ScanDigits(s, |s|);
    assert IsDigit(s[0]);
  }

  /** Unsigned, a numeral with a decimal point is its whole part plus its fraction. */
  lemma PointedUnsigned(whole: string, frac: string)
    requires AllDigits(whole) && AllDigits(frac) && |whole| + |frac| > 0
    ensures ParseUnsigned(whole + "." + frac) == Some(Natural(whole) as real + Fraction(frac))
  {
    var s, k := whole + "." + frac, |whole|;
    assert s[..k] == whole && s[k + 1..] == frac;
    ScanDigits(s, k);
    ScanPoint(s, k, Natural(whole), k > 0);
  }

  /** A numeral with a decimal point parses to its whole part plus its fraction. */
  lemma ParsePointed(whole: string, frac: string)
    requires AllDigits(whole) && AllDigits(frac) && |whole| + |frac| > 0
    ensures ParseAmount(whole + "." + frac) == Some(Natural(whole) as real + Fraction(frac))
  {
    var s := whole + "." + frac;
    PointedUnsigned(whole, frac);
    assert s[0] != '-' && s[0] != '+' by {
      if whole == [] {
        assert s[0] == '.';
      } else {
        assert s[0] == whole[0] && IsDigit(whole[0]);
      }
    }
    assert SplitSign(s) == (false, s);
  }

  /** Every whole number written in decimal parses back to itself, with or without a minus sign. */
  lemma ParseShowNatural(n: nat)
    ensures ParseAmount(ShowNatural(n)) == Some(n as real)
    ensures ParseAmount("-" + ShowNatural(n)) == Some(-(n as real))
  {
    var s := ShowNatural(n);
    NaturalOfShowNatural(n);
    ParseDigits(s);
    assert IsDigit(s[0]);
    assert ParseUnsigned(s) == Some(n as real);
    assert ("-" + s)[1..] == s;
  }

  /** A whole number, a point and one more digit parse to the whole number plus that many tenths. */
  lemma ParseTenths(n: nat, tenth: nat)
    requires tenth < 10
    ensures ParseAmount(ShowNatural(n) + "." + [DigitChar(tenth)]) == Some(n as real + tenth as real / 10.0)
  {
    var frac := [DigitChar(tenth)];
    assert frac[1..] == [];
    NaturalOfShowNatural(n);
    ParsePointed(ShowNatural(n), frac);
  }

  /** A leading minus sign negates; the same text without it is rejected iff the signed text is. */
  lemma MinusNegates(s: string)
    ensures ParseAmount("-" + s).Some? <==> ParseUnsigned(s).Some?
    ensures ParseUnsigned(s).Some? ==> ParseAmount("-" + s).value == -ParseUnsigned(s).value
  {
    assert ("-" + s)[1..] == s;
  }

  /** Text that is not a number, and the empty text, do not parse. */
  lemma RejectsNonNumbers()
    ensures ParseAmount("abc") == None
    ensures ParseAmount("") == None
    ensures ParseAmount(".") == None
    ensures ParseAmount("1.2.3") == None
  {
    assert !IsDigit("abc"[0]);
    assert "1.2.3"[1..] == ".2.3" && ".2.3"[1..] == "2.3";
    assert !IsDigit("2.3"[1]);
  }
}
