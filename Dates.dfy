/**
  Calendar dates as Python's `datetime` handles them: the proleptic Gregorian calendar over
  years 1 to 9999, day arithmetic that fails outside that range (`OverflowError`), day numbers
  (`toordinal`, day 1 is 0001-01-01) that order dates chronologically, and the `"%d-%m-%Y"`
  format in both directions (`strftime` and `strptime`).
*/
module Dates {
  import opened Wrappers
  import opened Text
  import opened Decimal

  datatype Date = Date(year: int, month: int, day: int)

  predicate IsLeap(y: int) {
    y % 4 == 0 && (y % 100 != 0 || y % 400 == 0)
  }

  function DaysInMonth(y: int, m: int): (n: nat)
    requires 1 <= m <= 12
    ensures 28 <= n <= 31
  {
    if m == 2 then (if IsLeap(y) then 29 else 28)
    else if m == 4 || m == 6 || m == 9 || m == 11 then 30
    else 31
  }

  /** A date `datetime` accepts. */
  predicate Valid(d: Date) {
    1 <= d.year <= 9999 && 1 <= d.month <= 12 && 1 <= d.day <= DaysInMonth(d.year, d.month)
  }

  /** A date that exists. */
  type ValidDate = d: Date | Valid(d) witness Date(1, 1, 1)

  /** Chronological order: by year, then month, then day. */
  predicate Before(a: Date, b: Date) {
    a.year < b.year || (a.year == b.year && (a.month < b.month || (a.month == b.month && a.day < b.day)))
  }

  function DaysInYear(y: int): nat {
    if IsLeap(y) then 366 else 365
  }

  /** Days in the years before `y`. */
  function DaysBeforeYear(y: int): int
    requires y >= 1
  {
    var z := y - 1;
    z * 365 + z / 4 - z / 100 + z / 400
  }

  /** Days in the months of year `y` before month `m` (`m == 13` gives the whole year). */
  function DaysBeforeMonth(y: int, m: int): nat
    requires 1 <= m <= 13
  {
    if m == 1 then 0 else DaysBeforeMonth(y, m - 1) + DaysInMonth(y, m - 1)
  }

  /** Python's `date.toordinal()`. */
  function Ordinal(d: Date): int
    requires Valid(d)
  {
    DaysBeforeYear(d.year) + DaysBeforeMonth(d.year, d.month) + d.day
  }

  lemma DaysBeforeYearStep(y: int)
    requires y >= 1
    ensures DaysBeforeYear(y + 1) == DaysBeforeYear(y) + DaysInYear(y)
  {
    var z := y - 1;
    DivStep4(z);
    DivStep100(z);
    DivStep400(z);
  }

  /** Counting up by one passes a multiple of 4, 100 or 400 exactly when it reaches one. */
  lemma DivStep4(z: nat)
    ensures (z + 1) / 4 == z / 4 + (if (z + 1) % 4 == 0 then 1 else 0)
  {
  }

  lemma DivStep100(z: nat)
    ensures (z + 1) / 100 == z / 100 + (if (z + 1) % 100 == 0 then 1 else 0)
  {
  }

  lemma DivStep400(z: nat)
    ensures (z + 1) / 400 == z / 400 + (if (z + 1) % 400 == 0 then 1 else 0)
  {
  }

  lemma WholeYear(y: int)
    ensures DaysBeforeMonth(y, 13) == DaysInYear(y)
  {
    var feb := DaysInMonth(y, 2);
    assert DaysBeforeMonth(y, 2) == 31;
    assert DaysBeforeMonth(y, 3) == 31 + feb;
    assert DaysBeforeMonth(y, 4) == 62 + feb;
    assert DaysBeforeMonth(y, 5) == 92 + feb;
    assert DaysBeforeMonth(y, 6) == 123 + feb;
    assert DaysBeforeMonth(y, 7) == 153 + feb;
    assert DaysBeforeMonth(y, 8) == 184 + feb;
    assert DaysBeforeMonth(y, 9) == 215 + feb;
    assert DaysBeforeMonth(y, 10) == 245 + feb;
    assert DaysBeforeMonth(y, 11) == 276 + feb;
    assert DaysBeforeMonth(y, 12) == 306 + feb;
  }

  lemma {:induction false} DaysBeforeMonthMonotone(y: int, m: int, n: int)
    requires 1 <= m < n <= 13
    ensures DaysBeforeMonth(y, m) + DaysInMonth(y, m) <= DaysBeforeMonth(y, n)
    decreases n - m
  {
    if m + 1 < n {
      DaysBeforeMonthMonotone(y, m + 1, n);
    }
  }

  lemma {:induction false} DaysBeforeYearMonotone(y: int, z: int)
    requires 1 <= y < z
    ensures DaysBeforeYear(y) + DaysInYear(y) <= DaysBeforeYear(z)
    decreases z - y
  {
    DaysBeforeYearStep(y);
    if y + 1 < z {
      DaysBeforeYearMonotone(y + 1, z);
    }
  }

  /** The last day number of year `y` is below the first of any later year. */
  lemma OrdinalWithinYear(d: Date)
    requires Valid(d)
    ensures DaysBeforeYear(d.year) < Ordinal(d) <= DaysBeforeYear(d.year) + DaysInYear(d.year)
  {
    if d.month < 12 {
      DaysBeforeMonthMonotone(d.year, d.month, 13);
    }
    WholeYear(d.year);
  }

  /** Day numbers order dates chronologically, so comparing `datetime`s is comparing ordinals. */
  lemma OrdinalOrder(a: Date, b: Date)
    requires Valid(a) && Valid(b)
    ensures Before(a, b) <==> Ordinal(a) < Ordinal(b)
    ensures a == b <==> Ordinal(a) == Ordinal(b)
  {
    if Before(a, b) {
      OrdinalBefore(a, b);
    } else if Before(b, a) {
      OrdinalBefore(b, a);
    }
  }

  lemma OrdinalBefore(a: Date, b: Date)
    requires Valid(a) && Valid(b) && Before(a, b)
    ensures Ordinal(a) < Ordinal(b)
  {
    if a.year < b.year {
      OrdinalWithinYear(a);
      OrdinalWithinYear(b);
      DaysBeforeYearMonotone(a.year, b.year);
    } else if a.month < b.month {
      DaysBeforeMonthMonotone(a.year, a.month, b.month);
    }
  }

  /** A number that orders valid dates as comparing `datetime`s does: year, then month, then day. */
  function Stamp(d: Date): int {
    d.year * 10000 + d.month * 100 + d.day
  }

  /** Stamps order valid dates chronologically, in agreement with their day numbers. */
  lemma StampOrder(a: Date, b: Date)
    requires Valid(a) && Valid(b)
    ensures Before(a, b) <==> Stamp(a) < Stamp(b)
    ensures a == b <==> Stamp(a) == Stamp(b)
    ensures Stamp(a) <= Stamp(b) <==> Ordinal(a) <= Ordinal(b)
  {
    OrdinalOrder(a, b);
  }

  // ---------------------------------------------------------------------------
  // Day arithmetic (`date + timedelta(days=...)`)
  // ---------------------------------------------------------------------------

  /** The following day; `None` after 9999-12-31, where Python raises `OverflowError`. */
  function NextDay(d: Date): (r: Option<Date>)
    requires Valid(d)
    ensures r.Some? ==> Valid(r.value)
  {
    if d.day < DaysInMonth(d.year, d.month) then Some(Date(d.year, d.month, d.day + 1))
    else if d.month < 12 then Some(Date(d.year, d.month + 1, 1))
    else if d.year < 9999 then Some(Date(d.year + 1, 1, 1))
    else None
  }

  /** The preceding day; `None` before 0001-01-01. */
  function PrevDay(d: Date): (r: Option<Date>)
    requires Valid(d)
    ensures r.Some? ==> Valid(r.value)
  {
    if d.day > 1 then Some(Date(d.year, d.month, d.day - 1))
    else if d.month > 1 then Some(Date(d.year, d.month - 1, DaysInMonth(d.year, d.month - 1)))
    else if d.year > 1 then Some(Date(d.year - 1, 12, 31))
    else None
  }

  /** `d + timedelta(days=n)`. */
  function AddDays(d: Date, n: nat): (r: Option<Date>)
    requires Valid(d)
    ensures r.Some? ==> Valid(r.value)
    decreases n
  {
    if n == 0 then Some(d)
    else match NextDay(d)
      case None => None
      case Some(e) => AddDays(e, n - 1)
  }

  /** One day later is one day number later, and only 9999-12-31 has no next day. */
  lemma NextDayOrdinal(d: Date)
    requires Valid(d)
    ensures NextDay(d).None? <==> d == Date(9999, 12, 31)
    ensures NextDay(d).Some? ==> Ordinal(NextDay(d).value) == Ordinal(d) + 1
  {
    if d.day == DaysInMonth(d.year, d.month) {
      if d.month < 12 {
        MonthBoundary(d.year, d.month);
      } else if d.year < 9999 {
        YearBoundary(d.year);
      }
    }
  }

  /** The last day of a year is one day number before the first day of the next. */
  lemma YearBoundary(y: int)
    requires 1 <= y < 9999
    ensures Ordinal(Date(y + 1, 1, 1)) == Ordinal(Date(y, 12, 31)) + 1
  {
    WholeYear(y);
    DaysBeforeYearStep(y);
  }

  /** One day earlier is one day number earlier. */
  lemma PrevDayOrdinal(d: Date)
    requires Valid(d)
    ensures PrevDay(d).None? <==> d == Date(1, 1, 1)
    ensures PrevDay(d).Some? ==> Ordinal(PrevDay(d).value) == Ordinal(d) - 1
  {
    if d.day == 1 {
      if d.month > 1 {
        MonthBoundary(d.year, d.month - 1);
      } else if d.year > 1 {
        YearBoundary(d.year - 1);
      }
    }
  }

  /** The last day of a month other than December is one day number before the first of the next. */
  lemma MonthBoundary(y: int, m: int)
    requires 1 <= y <= 9999 && 1 <= m < 12
    ensures Ordinal(Date(y, m + 1, 1)) == Ordinal(Date(y, m, DaysInMonth(y, m))) + 1
  {
  }

  /** Adding `n` days moves the day number by `n`, when the result stays in range. */
  lemma {:induction false} AddDaysOrdinal(d: Date, n: nat)
    requires Valid(d)
    ensures AddDays(d, n).Some? ==> Ordinal(AddDays(d, n).value) == Ordinal(d) + n
    decreases n
  {
    if n > 0 {
      NextDayOrdinal(d);
      if NextDay(d).Some? {
        AddDaysOrdinal(NextDay(d).value, n - 1);
      }
    }
  }

  /** Adding days stays in range while the day number does not pass 9999-12-31. */
  lemma {:induction false} AddDaysInRange(d: Date, n: nat)
    requires Valid(d) && Ordinal(d) + n <= Ordinal(Date(9999, 12, 31))
    ensures AddDays(d, n).Some?
    decreases n
  {
    if n > 0 {
      NextDayOrdinal(d);
      AddDaysInRange(NextDay(d).value, n - 1);
    }
  }

  /** Up to 365 days after January 1st of a year before 9999 is a date. */
  lemma AddDaysWithinYear(y: int, k: nat)
    requires 1 <= y <= 9998 && k <= 365
    ensures AddDays(Date(y, 1, 1), k).Some?
  {
    DaysBeforeYearStep(y);
    OrdinalBefore(Date(y + 1, 1, 1), Date(9999, 12, 31));
    AddDaysInRange(Date(y, 1, 1), k);
  }

  /**
    `(datetime(y, m, 28) + timedelta(days=4)).replace(day=1) - timedelta(days=1)`: four days
    after the 28th always lands in the next month, whose first day minus one is the month end.
  */
  function MonthEnd(y: int, m: int): Option<Date>
    requires 1 <= y <= 9999 && 1 <= m <= 12
  {
    match AddDays(Date(y, m, 28), 4)
    case None => None
    case Some(e) => PrevDay(Date(e.year, e.month, 1))
  }

  /** The month-end formula gives the last day of the month, and overflows only for 9999-12. */
  lemma MonthEndValue(y: int, m: int)
    requires 1 <= y <= 9999 && 1 <= m <= 12
    ensures MonthEnd(y, m) == if y == 9999 && m == 12 then None else Some(Date(y, m, DaysInMonth(y, m)))
  {
    var last := Date(y, m, DaysInMonth(y, m));
    PastTheLast(y, m);
    if y == 9999 && m == 12 {
      assert NextDay(last).None?;
    } else {
      var first := if m < 12 then Date(y, m + 1, 1) else Date(y + 1, 1, 1);
      assert NextDay(last) == Some(first);
      EarlyInMonth(first, 31 - DaysInMonth(y, m));
    }
  }

  /** Four days after the 28th are as many days after the last of the month as it is past the 28th. */
  lemma PastTheLast(y: int, m: int)
    requires 1 <= y <= 9999 && 1 <= m <= 12
    ensures AddDays(Date(y, m, 28), 4) == AddDays(Date(y, m, DaysInMonth(y, m)), 32 - DaysInMonth(y, m))
  {
    var dim := DaysInMonth(y, m);
    var last := Date(y, m, dim);
    if dim == 29 {
      assert AddDays(Date(y, m, 28), 4) == AddDays(last, 3);
    } else if dim == 30 {
      assert AddDays(Date(y, m, 29), 3) == AddDays(last, 2);
    } else if dim == 31 {
      assert AddDays(Date(y, m, 30), 2) == AddDays(last, 1);
      assert AddDays(Date(y, m, 29), 3) == AddDays(last, 1);
    }
  }

  /** Up to three days after the first of a month stay in that month. */
  lemma EarlyInMonth(first: Date, n: nat)
    requires Valid(first) && first.day == 1 && n <= 3
    ensures AddDays(first, n).Some? && AddDays(first, n).value.year == first.year && AddDays(first, n).value.month == first.month
  {
    assert AddDays(first, n) == Some(Date(first.year, first.month, 1 + n));
  }

  // ---------------------------------------------------------------------------
  // The "%d-%m-%Y" format
  // ---------------------------------------------------------------------------

  function TwoDigits(n: nat): (s: string)
    requires n < 100
    ensures |s| == 2 && AllDigits(s)
  {
    [DigitChar(n / 10), DigitChar(n % 10)]
  }

  /** `strftime("%d-%m-%Y")`: day and month on two digits, the year on four. */
  function FormatDmy(d: Date): (s: string)
    requires Valid(d)
    ensures |s| == 10
  {
    TwoDigits(d.day) + "-" + TwoDigits(d.month) + "-" + TwoDigits(d.year / 100) + TwoDigits(d.year % 100)
  }

  /** `%d`: the alternatives `3[01]|[12]\d|0[1-9]|[1-9]| [1-9]` tried in order at `i`: value and end. */
  function MatchDay(s: string, i: nat): Option<(int, nat)>
    requires i <= |s|
  {
    if i + 1 < |s| && s[i] == '3' && (s[i + 1] == '0' || s[i + 1] == '1') then Some((30 + DigitValue(s[i + 1]), i + 2))
    else if i + 1 < |s| && (s[i] == '1' || s[i] == '2') && IsDigit(s[i + 1]) then Some((DigitValue(s[i]) * 10 + DigitValue(s[i + 1]), i + 2))
    else if i + 1 < |s| && s[i] == '0' && '1' <= s[i + 1] <= '9' then Some((DigitValue(s[i + 1]), i + 2))
    else if i < |s| && '1' <= s[i] <= '9' then Some((DigitValue(s[i]), i + 1))
    else if i + 1 < |s| && s[i] == ' ' && '1' <= s[i + 1] <= '9' then Some((DigitValue(s[i + 1]), i + 2))
    else None
  }

  /** `%m`: the alternatives `1[0-2]|0[1-9]|[1-9]` tried in order at `i`. */
  function MatchMonth(s: string, i: nat): Option<(int, nat)>
    requires i <= |s|
  {
    if i + 1 < |s| && s[i] == '1' && '0' <= s[i + 1] <= '2' then Some((10 + DigitValue(s[i + 1]), i + 2))
    else if i + 1 < |s| && s[i] == '0' && '1' <= s[i + 1] <= '9' then Some((DigitValue(s[i + 1]), i + 2))
    else if i < |s| && '1' <= s[i] <= '9' then Some((DigitValue(s[i]), i + 1))
    else None
  }

  /** `%Y`: exactly four digits at `i`. */
  function MatchYear(s: string, i: nat): Option<(int, nat)>
    requires i <= |s|
  {
    if i + 4 <= |s| && AllDigits(s[i..i + 4]) then Some((DigitsValue(s[i..i + 4]), i + 4)) else None
  }

  /**
    `datetime.strptime(s, "%d-%m-%Y")`: the fields must match from the start with nothing left
    over, and the date must exist. `None` is the `ValueError`. After a two-character day or
    month alternative the next character is a digit, so the later one-character alternatives
    can never be followed by the `-`: taking the first alternative that matches is what
    backtracking gives.
  */
  function ParseDmy(s: string): (r: Option<Date>)
    ensures r.Some? ==> Valid(r.value)
  {
    match MatchDay(s, 0)
    case None => None
    case Some((d, i)) =>
      if i < |s| && s[i] == '-' then
        match MatchMonth(s, i + 1)
        case None => None
        case Some((m, j)) =>
          if j < |s| && s[j] == '-' then
            match MatchYear(s, j + 1)
            case None => None
            case Some((y, k)) =>
              if k == |s| && Valid(Date(y, m, d)) then Some(Date(y, m, d)) else None
          else None
      else None
  }

  lemma TwoDigitsValue(n: nat)
    requires n < 100
    ensures DigitValue(TwoDigits(n)[0]) * 10 + DigitValue(TwoDigits(n)[1]) == n
  {
  }

  lemma FourDigitsValue(y: nat)
    requires y < 10000
    ensures DigitsValue(TwoDigits(y / 100) + TwoDigits(y % 100)) == y
  {
    var s := TwoDigits(y / 100) + TwoDigits(y % 100);
    var a1 := [s[0]];
    var a2 := a1 + [s[1]];
    var a3 := a2 + [s[2]];
    assert s == a3 + [s[3]];
    assert [] + [s[0]] == a1;
    DigitsValueSnoc([], s[0]);
    DigitsValueSnoc(a1, s[1]);
    DigitsValueSnoc(a2, s[2]);
    DigitsValueSnoc(a3, s[3]);
  }

  /** Writing a date and reading it back gives the same date. */
  lemma ParseFormatDmy(d: Date)
    requires Valid(d)
    ensures ParseDmy(FormatDmy(d)) == Some(d)
  {
    var s := FormatDmy(d);
    TwoDigitsValue(d.day);
    TwoDigitsValue(d.month);
    assert MatchDay(s, 0) == Some((d.day, 2));
    assert MatchMonth(s, 3) == Some((d.month, 5));
    assert s[6..10] == TwoDigits(d.year / 100) + TwoDigits(d.year % 100);
    FourDigitsValue(d.year);
    assert MatchYear(s, 6) == Some((d.year, 10));
  }

  /** `"01-01-2000"`, the default registration date, parses to 2000-01-01. */
  lemma ParseDefaultAlta()
    ensures ParseDmy("01-01-2000") == Some(Date(2000, 1, 1))
  {
    var d := Date(2000, 1, 1);
    assert FormatDmy(d) == "01-01-2000";
    ParseFormatDmy(d);
  }
}
