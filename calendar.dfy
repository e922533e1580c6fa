module Wrappers {
  datatype Option<+T> = None | Some(value: T)
}

/** Calendar dates, month starts and the "%b %Y" month label used by the
    forecast engine. A date is a calendar day at midnight; a `YearMonth` is the
    month-start timestamp that `pd.date_range(..., freq="MS")` produces. */
module Calendar {
  import opened Wrappers

  type MonthNum = m: int | 1 <= m <= 12 witness 1

  datatype Date = Date(year: nat, month: MonthNum, day: int)

  datatype YearMonth = YearMonth(year: nat, month: MonthNum)

  /** Gregorian leap years. */
  predicate IsLeapYear(y: nat) {
    y % 4 == 0 && (y % 100 != 0 || y % 400 == 0)
  }

  function DaysInMonth(y: nat, m: MonthNum): (d: int)
    ensures 28 <= d <= 31
    ensures d == 29 <==> m == 2 && IsLeapYear(y)
  {
    if m == 2 then (if IsLeapYear(y) then 29 else 28)
    else if m == 4 || m == 6 || m == 9 || m == 11 then 30
    else 31
  }

  /** A date that `pd.to_datetime` accepts. */
  predicate ValidDate(d: Date) {
    1 <= d.day <= DaysInMonth(d.year, d.month)
  }

  /** Chronological order of two dates. */
  predicate DateLe(a: Date, b: Date) {
    a.year < b.year ||
    (a.year == b.year && (a.month < b.month || (a.month == b.month && a.day <= b.day)))
  }

  /** The midnight of the first day of a month: the value a reference row's
      `YearMonth` column must equal to be selected for that month. */
  function MonthStart(m: YearMonth): (d: Date)
    ensures ValidDate(d)
  {
    Date(m.year, m.month, 1)
  }

  /** Number of months from January of year 0: months in order are consecutive integers. */
  function Ordinal(m: YearMonth): int {
    m.year * 12 + (m.month - 1)
  }

  lemma OrdinalInjective(a: YearMonth, b: YearMonth)
    ensures Ordinal(a) == Ordinal(b) <==> a == b
  {
  }

  /** The following month, rolling December over into January of the next year. */
  function Next(m: YearMonth): (r: YearMonth)
    ensures Ordinal(r) == Ordinal(m) + 1
  {
    if m.month == 12 then YearMonth(m.year + 1, 1) else YearMonth(m.year, m.month + 1)
  }

  /** The first month start on or after `start`: its own month when `start`
      is the 1st, the following month otherwise. */
  function FirstMonthStart(start: Date): (m: YearMonth)
    requires ValidDate(start)
    ensures DateLe(start, MonthStart(m))
    ensures forall k :: DateLe(start, MonthStart(k)) ==> Ordinal(m) <= Ordinal(k)
  {
    var own := YearMonth(start.year, start.month);
    if start.day == 1 then own else Next(own)
  }

  /** `n` consecutive months beginning with `m`. */
  function MonthRun(m: YearMonth, n: nat): (r: seq<YearMonth>)
    ensures |r| == n
    ensures n > 0 ==> r[0] == m
    ensures forall i :: 0 <= i < n ==> Ordinal(r[i]) == Ordinal(m) + i
    decreases n
  {
    if n == 0 then [] else [m] + MonthRun(Next(m), n - 1)
  }

  /** The months `pd.date_range(start, periods=n, freq="MS")` yields: the `n`
      earliest month starts on or after `start`, consecutive and ascending. */
  function ForecastMonths(start: Date, n: nat): (r: seq<YearMonth>)
    requires ValidDate(start)
    ensures |r| == n
    ensures forall i :: 0 <= i < n ==> DateLe(start, MonthStart(r[i]))
    ensures forall i, j :: 0 <= i <= j < n ==> Ordinal(r[j]) == Ordinal(r[i]) + (j - i)
    ensures n > 0 ==> forall k :: DateLe(start, MonthStart(k)) ==> Ordinal(r[0]) <= Ordinal(k)
  {
    var first := FirstMonthStart(start);
    var r := MonthRun(first, n);
    forall i | 0 <= i < n
      ensures DateLe(start, MonthStart(r[i]))
    {
      assert Ordinal(first) <= Ordinal(r[i]);
      MonthStartMonotone(first, r[i]);
    }
    r
  }

  lemma MonthStartMonotone(a: YearMonth, b: YearMonth)
    requires Ordinal(a) <= Ordinal(b)
    ensures DateLe(MonthStart(a), MonthStart(b))
  {
  }

  /** The first forecast month is the start's own month exactly when the start is the 1st. */
  lemma FirstForecastMonth(start: Date, n: nat)
    requires ValidDate(start) && n > 0
    ensures var first := ForecastMonths(start, n)[0];
      (start.day == 1 ==> first == YearMonth(start.year, start.month)) &&
      (start.day != 1 ==> first == Next(YearMonth(start.year, start.month)))
  {
    var r := ForecastMonths(start, n);
    var own := YearMonth(start.year, start.month);
    if start.day == 1 {
      OrdinalInjective(r[0], own);
    } else {
      OrdinalInjective(r[0], Next(own));
      assert !DateLe(start, MonthStart(own));
    }
  }

  // ----- The "%b %Y" label -----

  /** Month abbreviations of the C locale, January first. */
  const Abbreviations: seq<string> :=
    ["Jan", "Feb", "Mar", "Apr", "May", "Jun", "Jul", "Aug", "Sep", "Oct", "Nov", "Dec"]

  function Abbrev(m: MonthNum): (s: string)
    ensures |s| == 3
  {
    Abbreviations[m - 1]
  }

  /** The month whose abbreviation is `s`, if any. */
  function MonthOfAbbrev(s: string): (r: Option<MonthNum>)
    ensures r.Some? ==> Abbrev(r.value) == s
  {
    FindAbbrev(s, 1)
  }

  function FindAbbrev(s: string, m: int): (r: Option<MonthNum>)
    requires 1 <= m <= 13
    ensures r.Some? ==> m <= r.value && Abbrev(r.value) == s
    ensures r.None? ==> forall k: MonthNum :: m <= k ==> Abbrev(k) != s
    decreases 13 - m
  {
    if m == 13 then None
    else if Abbreviations[m - 1] == s then Some(m)
    else FindAbbrev(s, m + 1)
  }

  lemma AbbrevRoundTrip(m: MonthNum)
    ensures MonthOfAbbrev(Abbrev(m)) == Some(m)
  {
    assert forall i, j :: 0 <= i < j < 12 ==> Abbreviations[i] != Abbreviations[j];
  }

  function DigitChar(d: int): char
    requires 0 <= d < 10
  {
    (48 + d) as char
  }

  function DigitValue(c: char): nat {
    if '0' <= c <= '9' then c as int - '0' as int else 0
  }

  /** Decimal digits of `n` without leading zeros, as "%Y" prints a year. */
  function Digits(n: nat): (s: string)
    ensures |s| >= 1
    ensures forall i :: 0 <= i < |s| ==> '0' <= s[i] <= '9'
  {
    if n < 10 then [DigitChar(n)] else Digits(n / 10) + [DigitChar(n % 10)]
  }

  /** A non-empty run of decimal digits. */
  predicate IsDigits(s: string) {
    |s| >= 1 && forall i :: 0 <= i < |s| ==> '0' <= s[i] <= '9'
  }

  function ParseDigits(s: string): nat {
    if s == [] then 0 else 10 * ParseDigits(s[..|s| - 1]) + DigitValue(s[|s| - 1])
  }

  lemma {:induction false} ParseDigitsOfDigits(n: nat)
    ensures ParseDigits(Digits(n)) == n
  {
    if n >= 10 {
      var s := Digits(n);
      assert s[..|s| - 1] == Digits(n / 10);
      ParseDigitsOfDigits(n / 10);
    }
  }

  /** `month.strftime("%b %Y")`, e.g. "Jan 2026". */
  function Label(m: YearMonth): (s: string)
    ensures |s| >= 5 && s[3] == ' '
  {
    Abbrev(m.month) + " " + Digits(m.year)
  }

  /** Reads a label back: a month abbreviation, a space and the digits of the year. */
  function ParseLabel(s: string): (r: Option<YearMonth>)
    ensures r.Some? <==>
      |s| >= 5 && s[3] == ' ' && (exists mo: MonthNum :: Abbrev(mo) == s[..3]) && IsDigits(s[4..])
    ensures r.Some? ==> Abbrev(r.value.month) == s[..3] && r.value.year == ParseDigits(s[4..])
  {
    if |s| < 5 || s[3] != ' ' || !IsDigits(s[4..]) then None
    else
      match MonthOfAbbrev(s[..3])
      case None => None
      case Some(mo) => Some(YearMonth(ParseDigits(s[4..]), mo))
  }

  lemma LabelRoundTrip(m: YearMonth)
    ensures ParseLabel(Label(m)) == Some(m)
  {
    var s := Label(m);
    assert s[..3] == Abbrev(m.month);
    assert s[4..] == Digits(m.year);
    AbbrevRoundTrip(m.month);
    ParseDigitsOfDigits(m.year);
  }

  /** Distinct months have distinct labels. */
  lemma LabelInjective(a: YearMonth, b: YearMonth)
    ensures Label(a) == Label(b) <==> a == b
  {
    LabelRoundTrip(a);
    LabelRoundTrip(b);
  }
}
