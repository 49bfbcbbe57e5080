/** The proleptic Gregorian calendar, defined day by day from 1 January 1970. */
module Calendar {

  datatype Date = Date(year: int, month: int, day: int)

  predicate Leap(year: int) {
    year % 4 == 0 && (year % 100 != 0 || year % 400 == 0)
  }

  function MonthLength(year: int, month: int): (r: int)
    ensures 28 <= r <= 31
  {
    if month == 2 then (if Leap(year) then 29 else 28)
    else if month == 4 || month == 6 || month == 9 || month == 11 then 30
    else 31
  }

  predicate Valid(d: Date) {
    1 <= d.month <= 12 && 1 <= d.day <= MonthLength(d.year, d.month)
  }

  function Next(d: Date): (r: Date) {
    if d.day < MonthLength(d.year, d.month) then d.(day := d.day + 1)
    else if d.month < 12 then Date(d.year, d.month + 1, 1)
    else Date(d.year + 1, 1, 1)
  }

  function Previous(d: Date): (r: Date) {
    if d.day > 1 then d.(day := d.day - 1)
    else if d.month > 1 then Date(d.year, d.month - 1, MonthLength(d.year, d.month - 1))
    else Date(d.year - 1, 12, 31)
  }

  /** The date n days after (or before) 1 January 1970. */
  function DateOf(n: int): (r: Date)
    decreases if n < 0 then -n else n
  {
    if n == 0 then Date(1970, 1, 1)
    else if n > 0 then Next(DateOf(n - 1))
    else Previous(DateOf(n + 1))
  }

  // ------------------------------------------------------------------ counting days directly

  /** Days of all years before the given one, relative to 1 January 1970. */
  function YearStart(year: int): (r: int) {
    var y := year - 1;
    365 * y + y / 4 - y / 100 + y / 400 - 719162
  }

  function DaysBefore(year: int, month: int): (r: int)
  {
    if month <= 1 then 0 else DaysBefore(year, month - 1) + MonthLength(year, month - 1)
  }

  function YearDay(d: Date): (r: int) {
    DaysBefore(d.year, d.month) + d.day - 1
  }

  function DayNumber(d: Date): (r: int) {
    YearStart(d.year) + YearDay(d)
  }

  lemma YearLength(year: int)
    ensures YearStart(year + 1) == YearStart(year) + (if Leap(year) then 366 else 365)
  {
    LeapCount(year);
  }

  lemma LeapCount(year: int)
    ensures year / 4 - year / 100 + year / 400
            == (year - 1) / 4 - (year - 1) / 100 + (year - 1) / 400 + (if Leap(year) then 1 else 0)
  {
    Step4(year);
    Step100(year);
    Step400(year);
    Nested(year);
  }

  lemma Step4(y: int)
    ensures y / 4 - (y - 1) / 4 == if y % 4 == 0 then 1 else 0
  {
  }

  lemma Step100(y: int)
    ensures y / 100 - (y - 1) / 100 == if y % 100 == 0 then 1 else 0
  {
  }

  lemma Step400(y: int)
    ensures y / 400 - (y - 1) / 400 == if y % 400 == 0 then 1 else 0
  {
  }

  lemma Nested(y: int)
    ensures y % 400 == 0 ==> y % 100 == 0
    ensures y % 100 == 0 ==> y % 4 == 0
  {
  }

  /** The table of days before each month. */
  lemma MonthStarts(year: int)
    ensures DaysBefore(year, 1) == 0 && DaysBefore(year, 2) == 31
    ensures var l := if Leap(year) then 60 else 59;
            && DaysBefore(year, 3) == l
            && DaysBefore(year, 4) == l + 31
            && DaysBefore(year, 5) == l + 61
            && DaysBefore(year, 6) == l + 92
            && DaysBefore(year, 7) == l + 122
            && DaysBefore(year, 8) == l + 153
            && DaysBefore(year, 9) == l + 184
            && DaysBefore(year, 10) == l + 214
            && DaysBefore(year, 11) == l + 245
            && DaysBefore(year, 12) == l + 275
            && DaysBefore(year, 13) == l + 306
  {
    assert DaysBefore(year, 3) == 31 + MonthLength(year, 2);
    assert DaysBefore(year, 5) == DaysBefore(year, 4) + 30 == DaysBefore(year, 3) + 61;
    assert DaysBefore(year, 7) == DaysBefore(year, 6) + 30 == DaysBefore(year, 5) + 61;
    assert DaysBefore(year, 9) == DaysBefore(year, 8) + 31 == DaysBefore(year, 7) + 62;
    assert DaysBefore(year, 11) == DaysBefore(year, 10) + 31 == DaysBefore(year, 9) + 61;
    assert DaysBefore(year, 13) == DaysBefore(year, 12) + 31 == DaysBefore(year, 11) + 61;
  }

  lemma NextStep(d: Date)
    requires Valid(d)
    ensures Valid(Next(d)) && DayNumber(Next(d)) == DayNumber(d) + 1
    ensures Previous(Next(d)) == d
  {
    if d.day == MonthLength(d.year, d.month) && d.month == 12 {
      MonthStarts(d.year);
      YearLength(d.year);
    }
  }

  lemma PreviousStep(d: Date)
    requires Valid(d)
    ensures Valid(Previous(d)) && DayNumber(Previous(d)) == DayNumber(d) - 1
  {
    if d.day == 1 && d.month == 1 {
      MonthStarts(d.year - 1);
      YearLength(d.year - 1);
    }
  }

  /** The day-by-day calendar agrees with the direct count. */
  lemma {:induction false} DayNumberOf(n: int)
    ensures Valid(DateOf(n)) && DayNumber(DateOf(n)) == n
    decreases if n < 0 then -n else n
  {
    if n > 0 {
      DayNumberOf(n - 1);
      NextStep(DateOf(n - 1));
    } else if n < 0 {
      DayNumberOf(n + 1);
      PreviousStep(DateOf(n + 1));
    }
  }

  /** One day later the calendar shows the next date, on both sides of 1970. */
  lemma NextDay(n: int)
    ensures DateOf(n + 1) == Next(DateOf(n))
  {
    DayNumberOf(n);
    DayNumberOf(n + 1);
    NextStep(DateOf(n));
    SameDay(DateOf(n + 1), Next(DateOf(n)));
  }

  lemma {:induction false} YearsApart(y: int, z: int)
    requires y <= z
    ensures YearStart(y) + 365 * (z - y) <= YearStart(z)
    decreases z - y
  {
    if y < z {
      YearsApart(y, z - 1);
      YearLength(z - 1);
    }
  }

  lemma {:induction false} MonthsApart(year: int, m: int, k: int)
    requires 1 <= m < k <= 13
    ensures DaysBefore(year, m) + MonthLength(year, m) <= DaysBefore(year, k)
    decreases k - m
  {
    if m + 1 < k { MonthsApart(year, m, k - 1); }
  }

  lemma YearDayBound(d: Date)
    requires Valid(d)
    ensures 0 <= YearDay(d) < YearStart(d.year + 1) - YearStart(d.year)
  {
    MonthStarts(d.year);
    YearLength(d.year);
    MonthsApart(d.year, d.month, 13);
    if d.month > 1 { MonthsApart(d.year, 1, d.month); }
  }

  /** Chronological order of dates. */
  predicate Before(a: Date, b: Date) {
    a.year < b.year || (a.year == b.year && (a.month < b.month || (a.month == b.month && a.day < b.day)))
  }

  lemma BeforeCounts(a: Date, b: Date)
    requires Valid(a) && Valid(b) && Before(a, b)
    ensures DayNumber(a) < DayNumber(b)
  {
    if a.year < b.year {
      YearDayBound(a);
      YearDayBound(b);
      YearsApart(a.year + 1, b.year);
    } else if a.month < b.month {
      MonthsApart(a.year, a.month, b.month);
    }
  }

  lemma SameDay(a: Date, b: Date)
    requires Valid(a) && Valid(b) && DayNumber(a) == DayNumber(b)
    ensures a == b
  {
    if Before(a, b) { BeforeCounts(a, b); } else if Before(b, a) { BeforeCounts(b, a); }
  }
}
