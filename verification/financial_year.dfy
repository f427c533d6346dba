/**
 * Financial years run July 1 to June 30 and are keyed by strings
 * "YYYY-YYYY".  This module builds the key from a date as
 * `getCurrentFinancialYear` does, recognises keys as the pattern
 * `^\d{4}-\d{4}$` does, and reads the two years back out as the award
 * engine's `explode('-', ...)` does.
 */
module FinancialYear {
  import opened Common
  import opened Calendar

  predicate IsDigit(c: char) {
    '0' <= c <= '9'
  }

  predicate AllDigits(s: string) {
    forall i :: 0 <= i < |s| ==> IsDigit(s[i])
  }

  function DigitChar(d: nat): (c: char)
    requires d <= 9
    ensures IsDigit(c)
  {
    (('0' as int) + d) as char
  }

  function DigitValue(c: char): (d: nat)
    requires IsDigit(c)
    ensures d <= 9 && DigitChar(d) == c
  {
    (c as int) - ('0' as int)
  }

  /** Decimal notation of a natural number, as PHP prints an integer. */
  function NatToString(n: nat): (s: string)
    ensures |s| >= 1 && AllDigits(s)
    decreases n
  {
    if n < 10 then [DigitChar(n)] else NatToString(n / 10) + [DigitChar(n % 10)]
  }

  /** PHP's integer-to-string conversion. */
  function IntToString(i: int): string {
    if i < 0 then "-" + NatToString(-i) else NatToString(i)
  }

  /** The value of a string of decimal digits. */
  function DigitsValue(s: string): nat
    requires AllDigits(s)
  {
    if s == [] then 0 else DigitsValue(s[..|s| - 1]) * 10 + DigitValue(s[|s| - 1])
  }

  /** Reading back a printed number gives the number. */
  lemma {:induction false} DecimalRoundTrip(n: nat)
    ensures DigitsValue(NatToString(n)) == n
    decreases n
  {
    var s := NatToString(n);
    if n >= 10 {
      DecimalRoundTrip(n / 10);
      assert s[..|s| - 1] == NatToString(n / 10);
    }
  }

  lemma FourDigits(n: nat)
    requires 1000 <= n <= 9999
    ensures |NatToString(n)| == 4
  {
    assert |NatToString(n / 10 / 10 / 10)| == 1;
    assert |NatToString(n / 10 / 10)| == 2;
    assert |NatToString(n / 10)| == 3;
  }

  function ZeroPad4(s: string): string
    decreases 4 - |s|
  {
    if |s| < 4 then ZeroPad4("0" + s) else s
  }

  /** PHP's date('Y'): at least four digits, with '-' before years before year 0. */
  function YearText(y: int): string {
    if y < 0 then "-" + ZeroPad4(NatToString(-y)) else ZeroPad4(NatToString(y))
  }

  /** The first year of the financial year containing `today`. */
  function FirstYearOf(today: Date): int {
    if today.month >= 7 then today.year else today.year - 1
  }

  /**
   * `getCurrentFinancialYear` (the same in both award scripts): from July
   * the key is "Y-(Y+1)", before July "(Y-1)-Y".
   */
  function CurrentFinancialYear(today: Date): (key: string)
    ensures today.month >= 7 ==> key == YearText(today.year) + "-" + IntToString(today.year + 1)
    ensures today.month < 7 ==> key == IntToString(today.year - 1) + "-" + YearText(today.year)
  {
    if today.month >= 7 then YearText(today.year) + "-" + IntToString(today.year + 1)
    else IntToString(today.year - 1) + "-" + YearText(today.year)
  }

  /** `preg_match('/^\d{4}-\d{4}$/', s)` on a string without a trailing newline. */
  predicate MatchesYearPattern(s: string) {
    |s| == 9 && AllDigits(s[..4]) && s[4] == '-' && AllDigits(s[5..])
  }

  /** The two years of a key that matches the pattern. */
  function ParseFinancialYear(s: string): (r: Option<(int, int)>)
    ensures r.Some? <==> MatchesYearPattern(s)
    ensures r.Some? ==> 0 <= r.value.0 <= 9999 && 0 <= r.value.1 <= 9999
  {
    if MatchesYearPattern(s) then
      DigitsBound(s[..4]);
      DigitsBound(s[5..]);
      Some((DigitsValue(s[..4]), DigitsValue(s[5..])))
    else None
  }

  lemma {:induction false} DigitsBound(s: string)
    requires AllDigits(s) && |s| <= 4
    ensures DigitsValue(s) < if |s| == 0 then 1 else if |s| == 1 then 10 else if |s| == 2 then 100
                             else if |s| == 3 then 1000 else 10000
  {
    if s != [] {
      DigitsBound(s[..|s| - 1]);
    }
  }

  /**
   * For four-digit years the current key matches the pattern and its
   * second year is its first plus one.
   */
  lemma CurrentFinancialYearRoundTrip(today: Date)
    requires 1001 <= today.year <= 9998
    ensures MatchesYearPattern(CurrentFinancialYear(today))
    ensures ParseFinancialYear(CurrentFinancialYear(today)) == Some((FirstYearOf(today), FirstYearOf(today) + 1))
  {
    var a := FirstYearOf(today);
    FourDigits(a);
    FourDigits(a + 1);
    assert YearText(a) == NatToString(a) && IntToString(a) == NatToString(a);
    assert YearText(a + 1) == NatToString(a + 1) && IntToString(a + 1) == NatToString(a + 1);
    var key := CurrentFinancialYear(today);
    assert key == NatToString(a) + "-" + NatToString(a + 1);
    assert key[..4] == NatToString(a);
    assert key[5..] == NatToString(a + 1);
    DecimalRoundTrip(a);
    DecimalRoundTrip(a + 1);
  }

  /** The pattern alone lets a non-consecutive pair of years through. */
  lemma PatternAcceptsNonConsecutiveYears()
    ensures MatchesYearPattern("2024-2026")
    ensures ParseFinancialYear("2024-2026") == Some((2024, 2026))
  {
    var s := "2024-2026";
    assert s[..4] == "2024" && s[5..] == "2026";
    assert DigitsValue("2") == 2;
    assert DigitsValue("20") == 20;
    assert DigitsValue("202") == 202;
    assert "2024"[..3] == "202" && "202"[..2] == "20" && "20"[..1] == "2";
    assert "2026"[..3] == "202";
  }

  /**
   * `isBeginningOfFinancialYear`: the first seven days of July, which lie in
   * the financial year that starts in the current calendar year.
   */
  function IsBeginningOfFinancialYear(today: Date): (b: bool)
    ensures b ==> FirstYearOf(today) == today.year
    ensures b ==> CurrentFinancialYear(today) == YearText(today.year) + "-" + IntToString(today.year + 1)
  {
    today.month == 7 && today.day <= 7
  }

  /** On a valid date, the window is exactly the first seven days counted from July 1. */
  lemma BeginningIsFirstWeekOfYear(today: Date)
    requires ValidDate(today)
    ensures IsBeginningOfFinancialYear(today)
        <==> 0 <= Ordinal(today) - Ordinal(Date(today.year, 7, 1)) < 7
  {
    var y, m, d := today.year, today.month, today.day;
    assert Ordinal(today) - Ordinal(Date(y, 7, 1)) == DaysBeforeMonth(y, m) + d - 1 - DaysBeforeMonth(y, 7);
    if m < 7 {
      MonthsAreOrdered(y, m, d, 7, 1);
    } else if m > 8 {
      MonthsAreOrdered(y, 8, 1, m, d);
    }
  }
}
