/** Calendar dates as Python's `datetime` handles them: the proleptic
    Gregorian calendar from 0001-01-01 to 9999-12-31, day arithmetic with
    `timedelta(days=k)`, the `%Y-%m-%d` text form, and timestamps floored
    to the second. */
module Dates {
  import opened Wrappers
  import opened Text

  datatype Date = Date(year: int, month: int, day: int)

  predicate IsLeap(y: int)
  {
    y % 4 == 0 && (y % 100 != 0 || y % 400 == 0)
  }

  function DaysInMonth(y: int, m: int): (n: int)
    requires 1 <= m <= 12
    ensures 28 <= n <= 31
  {
    if m == 2 then (if IsLeap(y) then 29 else 28)
    else if m == 4 || m == 6 || m == 9 || m == 11 then 30
    else 31
  }

  /** A date `datetime.date` can hold. */
  predicate Valid(d: Date)
  {
    1 <= d.year <= 9999 && 1 <= d.month <= 12 && 1 <= d.day <= DaysInMonth(d.year, d.month)
  }

  const MinDate: Date := Date(1, 1, 1)
  const MaxDate: Date := Date(9999, 12, 31)

  function DaysInYear(y: int): int
  {
    if IsLeap(y) then 366 else 365
  }

  function DaysBeforeYear(y: int): nat
    decreases y
  {
    if y <= 1 then 0 else DaysBeforeYear(y - 1) + DaysInYear(y - 1)
  }

  function DaysBeforeMonth(y: int, m: int): nat
    requires 1 <= m <= 12
  {
    if m == 1 then 0 else DaysBeforeMonth(y, m - 1) + DaysInMonth(y, m - 1)
  }

  /** `date.toordinal()`: 0001-01-01 is day 1 and each day adds one. */
  function Ordinal(d: Date): int
    requires Valid(d)
  {
    DaysBeforeYear(d.year) + DaysBeforeMonth(d.year, d.month) + d.day
  }

  /** The twelve months fill the year. */
  lemma YearLength(y: int)
    ensures DaysBeforeMonth(y, 12) + 31 == DaysInYear(y)
  {
    assert DaysBeforeMonth(y, 1) == 0;
    assert DaysBeforeMonth(y, 2) == DaysBeforeMonth(y, 1) + DaysInMonth(y, 1);
    assert DaysBeforeMonth(y, 3) == DaysBeforeMonth(y, 2) + DaysInMonth(y, 2);
    assert DaysBeforeMonth(y, 4) == DaysBeforeMonth(y, 3) + DaysInMonth(y, 3);
    assert DaysBeforeMonth(y, 5) == DaysBeforeMonth(y, 4) + DaysInMonth(y, 4);
    assert DaysBeforeMonth(y, 6) == DaysBeforeMonth(y, 5) + DaysInMonth(y, 5);
    assert DaysBeforeMonth(y, 7) == DaysBeforeMonth(y, 6) + DaysInMonth(y, 6);
    assert DaysBeforeMonth(y, 8) == DaysBeforeMonth(y, 7) + DaysInMonth(y, 7);
    assert DaysBeforeMonth(y, 9) == DaysBeforeMonth(y, 8) + DaysInMonth(y, 8);
    assert DaysBeforeMonth(y, 10) == DaysBeforeMonth(y, 9) + DaysInMonth(y, 9);
    assert DaysBeforeMonth(y, 11) == DaysBeforeMonth(y, 10) + DaysInMonth(y, 10);
    assert DaysBeforeMonth(y, 12) == DaysBeforeMonth(y, 11) + DaysInMonth(y, 11);
  }

  /** The day after `d`. */
  function NextDay(d: Date): (r: Date)
    requires Valid(d) && d != MaxDate
    ensures Valid(r) && Ordinal(r) == Ordinal(d) + 1
  {
    if d.day < DaysInMonth(d.year, d.month) then Date(d.year, d.month, d.day + 1)
    else if d.month < 12 then Date(d.year, d.month + 1, 1)
    else YearLength(d.year); Date(d.year + 1, 1, 1)
  }

  /** The day before `d`. */
  function PrevDay(d: Date): (r: Date)
    requires Valid(d) && d != MinDate
    ensures Valid(r) && Ordinal(r) == Ordinal(d) - 1
  {
    if d.day > 1 then Date(d.year, d.month, d.day - 1)
    else if d.month > 1 then
      assert DaysBeforeMonth(d.year, d.month) == DaysBeforeMonth(d.year, d.month - 1) + DaysInMonth(d.year, d.month - 1);
      Date(d.year, d.month - 1, DaysInMonth(d.year, d.month - 1))
    else
      assert d.year > 1;
      assert DaysBeforeYear(d.year) == DaysBeforeYear(d.year - 1) + DaysInYear(d.year - 1);
      YearLength(d.year - 1);
      Date(d.year - 1, 12, 31)
  }

  lemma {:induction false} MonthsFit(y: int, m: int)
    requires 1 <= m <= 12
    ensures DaysBeforeMonth(y, m) + DaysInMonth(y, m) <= DaysInYear(y)
    decreases 12 - m
  {
    if m < 12 {
      MonthsFit(y, m + 1);
    } else {
      YearLength(y);
    }
  }

  lemma {:induction false} DaysBeforeYearMono(a: int, b: int)
    requires a <= b
    ensures DaysBeforeYear(a) <= DaysBeforeYear(b)
    decreases b - a
  {
    if a < b {
      DaysBeforeYearMono(a, b - 1);
    }
  }

  /** Every date lies between day 1 and the ordinal of 9999-12-31. */
  lemma OrdinalBounds(d: Date)
    requires Valid(d)
    ensures 1 <= Ordinal(d) <= Ordinal(MaxDate)
  {
    MonthsFit(d.year, d.month);
    DaysBeforeYearMono(d.year + 1, 10000);
    YearLength(9999);
  }

  /** `d + timedelta(days=k)`: `OverflowError` when the result would fall
      outside 0001-01-01 .. 9999-12-31. */
  function Shift(d: Date, k: int): (r: Result<Date>)
    requires Valid(d)
    ensures r.Ok? ==> Valid(r.value) && Ordinal(r.value) == Ordinal(d) + k
    ensures r.Err? <==> !(1 <= Ordinal(d) + k <= Ordinal(MaxDate))
    decreases if k >= 0 then k else -k
  {
    OrdinalBounds(d);
    if k == 0 then Ok(d)
    else if k > 0 then
      if d == MaxDate then Err("OverflowError") else Shift(NextDay(d), k - 1)
    else
      if d == MinDate then Err("OverflowError") else Shift(PrevDay(d), k + 1)
  }

  // ---------------------------------------------------------------------
  // %Y-%m-%d
  // ---------------------------------------------------------------------

  function Digits2(n: nat): (s: string)
    requires n < 100
  {
    [DigitChar(n / 10), DigitChar(n % 10)]
  }

  function Digits4(n: nat): (s: string)
    requires n < 10000
  {
    Digits2(n / 100) + Digits2(n % 100)
  }

  /** `strftime('%Y-%m-%d')`, the year written with four digits. */
  function Format(d: Date): (s: string)
    requires Valid(d)
    ensures |s| == 10 && s[4] == '-' && s[7] == '-'
  {
    Digits4(d.year) + "-" + Digits2(d.month) + "-" + Digits2(d.day)
  }

  /** Reading `YYYY-MM-DD` text back into a date. */
  function Parse(s: string): (r: Option<Date>)
    ensures r.Some? ==> Valid(r.value)
  {
    if |s| == 10 && s[4] == '-' && s[7] == '-'
       && AllDigits(s[..4]) && AllDigits(s[5..7]) && AllDigits(s[8..])
    then
      var d := Date(DigitsValue(s[..4]), DigitsValue(s[5..7]), DigitsValue(s[8..]));
      if Valid(d) then Some(d) else None
    else None
  }

  /** The value of a digit string of two or more digits, split after
      its second-to-last digit. */
  lemma DigitsValueLast(s: string)
    requires |s| >= 1 && AllDigits(s)
    ensures AllDigits(s[..|s| - 1])
    ensures DigitsValue(s) == DigitsValue(s[..|s| - 1]) * 10 + (s[|s| - 1] as int - '0' as int)
  {
  }

  lemma Digits2Value(n: nat)
    requires n < 100
    ensures AllDigits(Digits2(n)) && DigitsValue(Digits2(n)) == n
  {
    var s := Digits2(n);
    DigitsValueLast(s);
    DigitsValueLast(s[..1]);
    assert s[..1][..0] == [];
  }

  lemma Digits2Of(s: string)
    requires |s| == 2 && AllDigits(s)
    ensures DigitsValue(s) < 100 && Digits2(DigitsValue(s)) == s
  {
    DigitsValueLast(s);
    DigitsValueLast(s[..1]);
    assert s[..1][..0] == [];
    var a := s[0] as int - '0' as int;
    var b := s[1] as int - '0' as int;
    assert DigitsValue(s) == a * 10 + b;
  }

  lemma DigitsValueSplit(s: string)
    requires |s| == 4 && AllDigits(s)
    ensures AllDigits(s[..2]) && AllDigits(s[2..])
    ensures DigitsValue(s) == DigitsValue(s[..2]) * 100 + DigitsValue(s[2..])
  {
    var a, b, c, d := s[0] as int - '0' as int, s[1] as int - '0' as int,
                      s[2] as int - '0' as int, s[3] as int - '0' as int;
    DigitsValueLast(s);
    DigitsValueLast(s[..3]);
    assert s[..3][..2] == s[..2];
    DigitsValueLast(s[..2]);
    assert s[..2][..1] == s[..1];
    DigitsValueLast(s[..1]);
    assert s[..1][..0] == [];
    assert DigitsValue(s[..2]) == a * 10 + b;
    assert DigitsValue(s) == ((a * 10 + b) * 10 + c) * 10 + d;
    var t := s[2..];
    DigitsValueLast(t);
    DigitsValueLast(t[..1]);
    assert t[..1][..0] == [];
    assert DigitsValue(t) == c * 10 + d;
  }

  lemma Digits4Value(n: nat)
    requires n < 10000
    ensures AllDigits(Digits4(n)) && DigitsValue(Digits4(n)) == n
  {
    var s := Digits4(n);
    Digits2Value(n / 100);
    Digits2Value(n % 100);
    assert s[..2] == Digits2(n / 100) && s[2..] == Digits2(n % 100);
    DigitsValueSplit(s);
  }

  lemma Digits4Of(s: string)
    requires |s| == 4 && AllDigits(s)
    ensures DigitsValue(s) < 10000 && Digits4(DigitsValue(s)) == s
  {
    DigitsValueSplit(s);
    Digits2Of(s[..2]);
    Digits2Of(s[2..]);
    var v := DigitsValue(s);
    DivUnique100(v, DigitsValue(s[..2]), DigitsValue(s[2..]));
  }

  lemma DivUnique100(v: nat, hi: nat, lo: nat)
    requires lo < 100 && v == hi * 100 + lo
    ensures v / 100 == hi && v % 100 == lo
  {
  }

  /** Reading the text back gives the date again. */
  lemma ParseFormat(d: Date)
    requires Valid(d)
    ensures Parse(Format(d)) == Some(d)
  {
    var s := Format(d);
    Digits4Value(d.year);
    Digits2Value(d.month);
    Digits2Value(d.day);
    assert s[..4] == Digits4(d.year);
    assert s[5..7] == Digits2(d.month);
    assert s[8..] == Digits2(d.day);
  }

  /** Text that reads as a date is exactly that date's text: two distinct
      texts never name the same day. */
  lemma FormatParse(s: string)
    requires Parse(s).Some?
    ensures Format(Parse(s).value) == s
  {
    var d := Parse(s).value;
    Digits4Of(s[..4]);
    Digits2Of(s[5..7]);
    Digits2Of(s[8..]);
    assert s == s[..4] + "-" + s[5..7] + "-" + s[8..];
  }

  // ---------------------------------------------------------------------
  // Timestamps
  // ---------------------------------------------------------------------

  const NanosPerSecond: nat := 1_000_000_000

  /** A `pd.Timestamp`: a date and the nanoseconds since its midnight. */
  datatype Timestamp = Timestamp(date: Date, nanos: nat)

  /** `timestamp.floor('S')`: the last whole second at or before. */
  function FloorSeconds(t: Timestamp): (r: Timestamp)
    ensures r.date == t.date
    ensures r.nanos % NanosPerSecond == 0
    ensures r.nanos <= t.nanos < r.nanos + NanosPerSecond
  {
    Timestamp(t.date, t.nanos - t.nanos % NanosPerSecond)
  }
}
