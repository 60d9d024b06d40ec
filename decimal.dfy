/**
  Python's `float()` applied to a token made only of digits and periods,
  the only kind of string the extractor hands it. On such a token `float`
  succeeds exactly when there is at least one digit and at most one period
  ("5", "5.2", "5.", ".5"), and fails with `ValueError` otherwise
  (".", "1.2.3"). The value is taken exactly, as a real.
 */
module Decimal {
  import opened Common
  import opened Matcher

  predicate AllDigits(s: string) {
    forall k :: 0 <= k < |s| ==> IsDigit(s[k])
  }

  function DigitValue(c: char): (d: nat)
    requires IsDigit(c)
    ensures d < 10
  {
    c as int - '0' as int
  }

  /** The natural number a string of decimal digits denotes ("" denotes 0). */
  function DigitsValue(s: string): nat
    requires AllDigits(s)
  {
    if s == [] then 0 else DigitsValue(s[..|s| - 1]) * 10 + DigitValue(s[|s| - 1])
  }

  /** The value of the digits after a period: "25" stands for 25/100. */
  function FractionValue(frac: string): real
    requires AllDigits(frac)
  {
    DigitsValue(frac) as real / Pow10(|frac|) as real
  }

  function Pow10(n: nat): (r: nat)
    ensures r >= 1
  {
    if n == 0 then 1 else 10 * Pow10(n - 1)
  }

  function DotCount(s: string): nat {
    if s == [] then 0 else (if s[0] == '.' then 1 else 0) + DotCount(s[1..])
  }

  predicate HasDigit(s: string) {
    exists k :: 0 <= k < |s| && IsDigit(s[k])
  }

  /** Index of the first period, or `|s|` when there is none. */
  function DotIndex(s: string): (d: nat)
    ensures d <= |s|
    ensures forall k :: 0 <= k < d ==> s[k] != '.'
    ensures d < |s| ==> s[d] == '.'
  {
    if s == [] then 0 else if s[0] == '.' then 0 else 1 + DotIndex(s[1..])
  }

  lemma {:induction false} DotCountZero(s: string)
    ensures DotCount(s) == 0 <==> forall k :: 0 <= k < |s| ==> s[k] != '.'
  {
    if s != [] {
      DotCountZero(s[1..]);
      assert forall k :: 1 <= k < |s| ==> s[k] == s[1..][k - 1];
    }
  }

  lemma {:induction false} DotCountSplit(s: string, d: nat)
    requires d < |s| && s[d] == '.'
    requires forall k :: 0 <= k < d ==> s[k] != '.'
    ensures DotCount(s) == 1 + DotCount(s[d + 1..])
  {
    if d > 0 {
      assert s[1..][d - 1] == '.';
      assert s[1..][d..] == s[d + 1..];
      DotCountSplit(s[1..], d - 1);
    }
  }

  /** The digits before the first period. */
  function Whole(s: string): string {
    s[..DotIndex(s)]
  }

  /** Everything after the first period ("" when there is none). */
  function Frac(s: string): string {
    if DotIndex(s) < |s| then s[DotIndex(s) + 1..] else ""
  }

  /** At most one period means no period after the first one. */
  lemma AtMostOneDot(s: string)
    ensures DotCount(s) <= 1 <==> forall k :: 0 <= k < |Frac(s)| ==> Frac(s)[k] != '.'
  {
    var d := DotIndex(s);
    DotCountZero(s);
    if d < |s| {
      DotCountSplit(s, d);
      DotCountZero(Frac(s));
    }
  }

  /** Whole part and fraction are digit strings once the token has at most one period. */
  lemma PartsAreDigits(tok: string)
    requires AllNumChars(tok)
    requires forall k :: 0 <= k < |Frac(tok)| ==> Frac(tok)[k] != '.'
    ensures AllDigits(Whole(tok)) && AllDigits(Frac(tok))
  {
    var whole, frac := Whole(tok), Frac(tok);
    assert forall k :: 0 <= k < |whole| ==> whole[k] == tok[k];
    assert forall k :: 0 <= k < |frac| ==> frac[k] == tok[DotIndex(tok) + 1 + k];
  }

  /**
    `float(tok)` for a token of digits and periods: nothing when Python
    raises `ValueError`, otherwise the integer part plus the fraction.
   */
  function ParseDecimal(tok: string): (r: Option<real>)
    requires AllNumChars(tok)
    ensures r.Some? <==> HasDigit(tok) && DotCount(tok) <= 1
    ensures r.Some? ==> r.value >= 0.0
  {
    var whole, frac := Whole(tok), Frac(tok);
    AtMostOneDot(tok);
    if !HasDigit(tok) || exists k :: 0 <= k < |frac| && frac[k] == '.' then None
    else
      PartsAreDigits(tok);
      Some(DigitsValue(whole) as real + FractionValue(frac))
  }

  /** The decimal numeral of `n`, as `str(n)` writes it. */
  function ShowNat(n: nat): (s: string)
    ensures |s| > 0
  {
    var c := ('0' as int + n % 10) as char;
    if n < 10 then [c] else ShowNat(n / 10) + [c]
  }

  lemma {:induction false} ShowNatDigits(n: nat)
    ensures AllDigits(ShowNat(n)) && DigitsValue(ShowNat(n)) == n
  {
    var s := ShowNat(n);
    if n >= 10 {
      ShowNatDigits(n / 10);
      assert s[..|s| - 1] == ShowNat(n / 10);
    }
  }

  /** `float(str(n)) == n`: a numeral without a period reads back as its number. */
  lemma ParseShowNat(n: nat)
    ensures AllNumChars(ShowNat(n))
    ensures ParseDecimal(ShowNat(n)) == Some(n as real)
  {
    var s := ShowNat(n);
    ShowNatDigits(n);
    assert IsDigit(s[0]);
    assert DotIndex(s) == |s|;
    assert Whole(s) == s;
  }

  /** Digits, a period and digits read back as the whole part plus the fraction. */
  lemma {:induction false} ParseWholeDotFrac(w: string, frac: string)
    requires |w| > 0 && AllDigits(w) && AllDigits(frac)
    ensures AllNumChars(w + "." + frac)
    ensures ParseDecimal(w + "." + frac)
         == Some(DigitsValue(w) as real + FractionValue(frac))
  {
    var s := w + "." + frac;
    assert s[|w|] == '.';
    assert forall k :: 0 <= k < |w| ==> s[k] == w[k];
    assert forall k :: |w| < k < |s| ==> s[k] == frac[k - |w| - 1];
    assert IsDigit(s[0]);
    assert DotIndex(s) == |w|;
    assert Whole(s) == w;
    assert Frac(s) == frac;
  }

  /** `float(str(n) + "." + frac)`: the number plus the fraction the digits after the period denote. */
  lemma ParseShowDecimal(n: nat, frac: string)
    requires AllDigits(frac)
    ensures AllNumChars(ShowNat(n) + "." + frac)
    ensures ParseDecimal(ShowNat(n) + "." + frac)
         == Some(n as real + FractionValue(frac))
  {
    var w := ShowNat(n);
    ShowNatDigits(n);
    assert |w| > 0 && AllDigits(w) && DigitsValue(w) == n;
    ParseWholeDotFrac(w, frac);
  }

  lemma ParseDecimalExample()
    ensures ParseDecimal("5.2") == Some(5.2)
  {
    ParseShowDecimal(5, "2");
    assert ShowNat(5) + "." + "2" == "5.2";
  }

  /** Tokens as `float` reads them: leading zeros, a bare or trailing period, two periods. */
  lemma ParseExamples()
    ensures ParseDecimal("007") == Some(7.0)
    ensures ParseDecimal("1.") == Some(1.0)
    ensures ParseDecimal(".5") == Some(0.5)
    ensures ParseDecimal(".") == None
    ensures ParseDecimal("1.2.3") == None
  {
    ParseShowDecimal(1, "");
    assert ShowNat(1) + "." + "" == "1.";
    assert DotIndex("007") == 3;
    assert Whole("007") == "007";
    assert "007"[..2] == "00" && "00"[..1] == "0" && "0"[..0] == "";
    assert HasDigit("007") by { assert IsDigit("007"[0]); }
    assert DotIndex(".5") == 0;
    assert Frac(".5") == "5";
    assert HasDigit(".5") by { assert IsDigit(".5"[1]); }
    assert !HasDigit(".");
    assert DotCount("1.2.3") == 2;
  }
}
