/** src/common/time.c: seconds since 1970 to broken-down time. */
module Time {
  import opened Calendar

  // ------------------------------------------------------------------ what the fields should be

  /** The fields of struct tm. */
  datatype TmValue = TmValue(sec: int, min: int, hour: int, mday: int, mon: int, year: int, wday: int, yday: int)

  /** The broken-down time of t, read off the day-by-day calendar; 1 January 1970 was a Thursday. */
  function TmOf(t: int): (r: TmValue) {
    var n, s := t / 86400, t % 86400;
    var d := DateOf(n);
    TmValue(s % 60, s / 60 % 60, s / 3600, d.day, d.month - 1, d.year - 1900, (n + 4) % 7, YearDay(d))
  }

  function DateIn(v: TmValue): (r: Date) {
    Date(v.year + 1900, v.mon + 1, v.mday)
  }

  /** Back from broken-down time to seconds. */
  function SecondsOf(v: TmValue): (r: int) {
    DayNumber(DateIn(v)) * 86400 + v.hour * 3600 + v.min * 60 + v.sec
  }

  lemma TmRanges(t: int)
    ensures var v := TmOf(t);
            && 0 <= v.sec < 60 && 0 <= v.min < 60 && 0 <= v.hour < 24
            && Valid(DateIn(v)) && 0 <= v.wday < 7
            && 0 <= v.yday < (if Leap(v.year + 1900) then 366 else 365)
  {
    DayNumberOf(t / 86400);
    YearDayBound(DateOf(t / 86400));
    YearLength(DateOf(t / 86400).year);
  }

  lemma TmRoundTrip(t: int)
    ensures SecondsOf(TmOf(t)) == t
  {
    hide DateOf, DayNumber, YearDay;
    var n, s := t / 86400, t % 86400;
    DayNumberOf(n);
    SplitDay(s);
    assert DateIn(TmOf(t)) == DateOf(n);
    assert n * 86400 + s == t;
  }

  lemma SplitDay(s: int)
    requires 0 <= s < 86400
    ensures s / 3600 * 3600 + s / 60 % 60 * 60 + s % 60 == s
    ensures 0 <= s / 3600 < 24
  {
    assert s / 60 / 60 == s / 3600;
  }

  /** A day later it is the same time on the next date, the next weekday and the next day of the year. */
  lemma TmNextDay(t: int)
    ensures var v, w := TmOf(t), TmOf(t + 86400);
            && DateIn(w) == Next(DateIn(v))
            && w.wday == (v.wday + 1) % 7
            && w.yday == (if DateIn(w).year == DateIn(v).year then v.yday + 1 else 0)
            && w.hour == v.hour && w.min == v.min && w.sec == v.sec
  {
    hide DateOf;
    var n := t / 86400;
    assert (t + 86400) / 86400 == n + 1 && (t + 86400) % 86400 == t % 86400;
    NextDay(n);
    DayNumberOf(n);
    NextYearDay(DateOf(n));
    assert (n + 1 + 4) % 7 == ((n + 4) % 7 + 1) % 7;
  }

  lemma NextYearDay(d: Date)
    requires Valid(d)
    ensures YearDay(Next(d)) == if Next(d).year == d.year then YearDay(d) + 1 else 0
  {
    NextStep(d);
    MonthStarts(d.year + 1);
  }

  // ------------------------------------------------------------------ C arithmetic

  const INT_MIN := -0x8000_0000
  const INT_MAX := 0x7fff_ffff

  type Int = x: int | INT_MIN <= x <= INT_MAX

  /** C division truncates toward zero ... */
  function CDiv(a: int, b: int): (r: int)
    requires b > 0
  {
    if a >= 0 then a / b else -(-a / b)
  }

  /** ... and the remainder takes the sign of the dividend. */
  function CMod(a: int, b: int): (r: int)
    requires b > 0
  {
    a - b * CDiv(a, b)
  }

  /** Adjusting a negative remainder gives the floor. */
  lemma FloorFixup(a: int, b: int)
    requires b > 0
    ensures if CMod(a, b) < 0 then CDiv(a, b) - 1 == a / b && CMod(a, b) + b == a % b
            else CDiv(a, b) == a / b && CMod(a, b) == a % b
  {
    if a < 0 {
      var q, r := -a / b, -a % b;
      if r == 0 { Quotient(a, b, -q, 0); } else { Quotient(a, b, -q - 1, b - r); }
    }
  }

  lemma Quotient(a: int, b: int, q: int, r: int)
    requires 0 <= r < b && a == q * b + r
    ensures a / b == q && a % b == r
  {
    var q', r' := a / b, a % b;
    assert (q - q') * b == q * b - q' * b == r' - r;
    if q > q' { AtLeastOnce(q - q', b); } else if q < q' { AtLeastOnce(q' - q, b); }
  }

  lemma AtLeastOnce(x: int, b: int)
    requires x >= 1 && b >= 0
    ensures x * b >= b
  {
  }

  // ------------------------------------------------------------------ the algorithm

  const LEAPOCH := 946684800 + 86400 * (31 + 29)
  const DAYS_PER_400Y := 365 * 400 + 97
  const DAYS_PER_100Y := 365 * 100 + 24
  const DAYS_PER_4Y := 365 * 4 + 1
  const DAYS_IN_MONTH: seq<int> := [31, 30, 31, 30, 31, 31, 30, 31, 30, 31, 31, 29]

  /** Days before a month in a year that starts in March. */
  function MarchBefore(months: nat): (r: int)
    requires months <= 12
  {
    if months == 0 then 0 else MarchBefore(months - 1) + DAYS_IN_MONTH[months - 1]
  }

  lemma MarchStarts()
    ensures MarchBefore(1) == 31 && MarchBefore(2) == 61 && MarchBefore(3) == 92 && MarchBefore(4) == 122
    ensures MarchBefore(5) == 153 && MarchBefore(6) == 184 && MarchBefore(7) == 214 && MarchBefore(8) == 245
    ensures MarchBefore(9) == 275 && MarchBefore(10) == 306 && MarchBefore(11) == 337 && MarchBefore(12) == 366
  {
    assert MarchBefore(3) == MarchBefore(2) + 31;
    assert MarchBefore(5) == MarchBefore(4) + 31;
    assert MarchBefore(7) == MarchBefore(6) + 30;
    assert MarchBefore(9) == MarchBefore(8) + 30;
    assert MarchBefore(11) == MarchBefore(10) + 31;
  }

  /** The quotients that the successive divisions produce, over a day count since 1 March 2000. */
  predicate Cycles(days: int, qc: int, c: int, q: int, y: int, d: int) {
    && 0 <= c <= 3 && 0 <= q <= 24 && 0 <= y <= 3 && 0 <= d <= 365
    && (d == 365 ==> y == 3 && (q < 24 || c == 3))
    && days == qc * DAYS_PER_400Y + c * DAYS_PER_100Y + q * DAYS_PER_4Y + y * 365 + d
  }

  /** Day d of the year that starts on 1 March of year 2000 + 400 qc + 100 c + 4 q + y. */
  lemma MarchYear(days: int, qc: int, c: int, q: int, y: int, d: int)
    requires Cycles(days, qc, c, q, y, d)
    ensures var year := 2000 + 400 * qc + 100 * c + 4 * q + y;
            && YearStart(year + 1) - 306 + d == days + 11017
            && (d == 365 ==> Leap(year + 1))
            && (Leap(year) <==> y == 0 && (q != 0 || c == 0))
  {
    var year := 2000 + 400 * qc + 100 * c + 4 * q + y;
    assert year / 4 == 500 + 100 * qc + 25 * c + q && year % 4 == y;
    assert year / 100 == 20 + 4 * qc + c && year % 100 == 4 * q + y;
    assert year / 400 == 5 + qc && year % 400 == 100 * c + 4 * q + y;
    if d == 365 {
      assert (year + 1) % 4 == 0;
      if q == 24 { assert (year + 1) % 400 == 0; } else { assert (year + 1) % 100 == 4 * q + 4; }
    }
  }

  /** The month found by the month loop and the day left over make the right date. */
  lemma MarchDate(n: int, year: int, d: int, months: nat, left: int)
    requires months < 12 && 0 <= left < DAYS_IN_MONTH[months] && d == MarchBefore(months) + left
    requires YearStart(year + 1) - 306 + d == n
    requires d == 365 ==> Leap(year + 1)
    ensures (if months < 10 then Date(year, months + 3, left + 1) else Date(year + 1, months - 9, left + 1)) == DateOf(n)
  {
    var date := if months < 10 then Date(year, months + 3, left + 1) else Date(year + 1, months - 9, left + 1);
    MarchStarts();
    MonthStarts(year);
    MonthStarts(year + 1);
    YearLength(year);
    assert Valid(date) && DayNumber(date) == n by {
      if months < 10 {
        assert DaysBefore(year, months + 3) == MarchBefore(months) + (if Leap(year) then 60 else 59);
      } else {
        assert DaysBefore(year + 1, months - 9) == MarchBefore(months) - 306;
      }
    }
    DayNumberOf(n);
    SameDay(date, DateOf(n));
  }

  class Tm {
    var tm_sec: int
    var tm_min: int
    var tm_hour: int
    var tm_mday: int
    var tm_mon: int
    var tm_year: Int
    var tm_wday: int
    var tm_yday: int

    constructor () {
    }

    ghost function Value(): TmValue
      reads this
    {
      TmValue(tm_sec, tm_min, tm_hour, tm_mday, tm_mon, tm_year, tm_wday, tm_yday)
    }
  }

  /** The first second for which 400 * qc_cycles is a C int, and the last one whose tm_year is. */
  const FIRST_SECOND := LEAPOCH - 5368709 * DAYS_PER_400Y * 86400
  const LAST_SECOND := 784352270737 * 86400 - 1

  /** Times for which no C int overflows; between these and the rejected ones one does, which C leaves
      undefined. */
  predicate Representable(t: int) {
    FIRST_SECOND <= t <= LAST_SECOND
  }

  lemma RepresentableExactly(t: int)
    ensures Representable(t) <==>
      && INT_MIN <= 400 * ((t - LEAPOCH) / 86400 / DAYS_PER_400Y)
      && TmOf(t).year <= INT_MAX
    ensures Representable(t) ==> !Rejected(t) && -2_147_483_600 <= TmOf(t).year
  {
    hide DateOf, YearStart;
    SinceLeapEpoch(t);
    YearUpTo(t / 86400, INT_MAX + 1900);
    YearUpTo(t / 86400, -2_147_481_701);
    YearStarts();
  }

  lemma YearUpTo(n: int, year: int)
    ensures DateOf(n).year <= year <==> n < YearStart(year + 1)
  {
    hide DateOf, YearDay, YearStart;
    var d := DateOf(n);
    DayNumberOf(n);
    YearDayBound(d);
    if d.year <= year { YearsApart(d.year + 1, year + 1); } else { YearsApart(year + 1, d.year); }
  }

  lemma YearStarts()
    ensures YearStart(INT_MAX + 1901) == 784352270737
    ensures YearStart(-2_147_481_700) == -784352304340
  {
  }

  predicate Rejected(t: int) {
    t < INT_MIN * 31622400 || t > INT_MAX * 31622400
  }

  /** All parts of the algorithm together: the fields it stores are those of DateOf. */
  lemma DateFields(n: int, days: int, qc: int, c: int, q: int, y: int, d: int, months: nat, left: int)
    requires days == n - 11017 && Cycles(days - qc * DAYS_PER_400Y, 0, c, q, y, d)
    requires months < 12 && 0 <= left < DAYS_IN_MONTH[months] && d == MarchBefore(months) + left
    ensures var date, years := DateOf(n), y + 4 * q + 100 * c + 400 * qc;
            && date.day == left + 1
            && date.month - 1 == (if months + 2 >= 12 then months - 10 else months + 2)
            && date.year - 1900 == (if months + 2 >= 12 then years + 101 else years + 100)
            && var leap := if y == 0 && (q != 0 || c == 0) then 1 else 0;
               YearDay(date) == if d + 59 + leap >= 365 + leap then d + 59 - 365 else d + 59 + leap
  {
    hide DateOf, MarchBefore, YearStart, YearDay;
    AddCycles(days, qc, c, q, y, d);
    MarchYear(days, qc, c, q, y, d);
    var year := 2000 + 400 * qc + 100 * c + 4 * q + y;
    MarchDate(n, year, d, months, left);
    MarchYearDay(n, year, d);
  }

  lemma AddCycles(days: int, qc: int, c: int, q: int, y: int, d: int)
    requires Cycles(days - qc * DAYS_PER_400Y, 0, c, q, y, d)
    ensures Cycles(days, qc, c, q, y, d)
  {
  }

  /** The month loop. */
  method FindMonth(d: int) returns (months: nat, remdays: int)
    requires 0 <= d <= 365
    ensures months < 12 && 0 <= remdays < DAYS_IN_MONTH[months] && d == MarchBefore(months) + remdays
  {
    MarchStarts();
    months, remdays := 0, d;
    while DAYS_IN_MONTH[months] <= remdays
      invariant months < 12 && 0 <= remdays && d == MarchBefore(months) + remdays
    {
      remdays := remdays - DAYS_IN_MONTH[months];
      months := months + 1;
    }
  }

  /** The successive divisions, with the corrections for the last day of a cycle. */
  method FindCycles(rem: int) returns (c_cycles: int, q_cycles: int, remyears: int, remdays: int)
    requires 0 <= rem < DAYS_PER_400Y
    ensures Cycles(rem, 0, c_cycles, q_cycles, remyears, remdays)
  {
    remdays := rem;
    c_cycles := remdays / DAYS_PER_100Y;
    if c_cycles == 4 { c_cycles := c_cycles - 1; }
    remdays := remdays - c_cycles * DAYS_PER_100Y;
    assert 0 <= c_cycles <= 3 && 0 <= remdays <= 36524 && (remdays == 36524 ==> c_cycles == 3);

    q_cycles := remdays / DAYS_PER_4Y;
    if q_cycles == 25 { q_cycles := q_cycles - 1; }
    remdays := remdays - q_cycles * DAYS_PER_4Y;
    assert 0 <= q_cycles <= 24 && 0 <= remdays <= 1460;
    assert remdays == 1460 && q_cycles == 24 ==> c_cycles == 3;

    remyears := remdays / 365;
    if remyears == 4 { remyears := remyears - 1; }
    remdays := remdays - remyears * 365;
  }

  /** C division and remainder, moved down when the remainder is negative. */
  method FloorDivision(a: int, b: int) returns (q: int, r: int)
    requires b > 0
    ensures q == a / b && r == a % b
  {
    FloorFixup(a, b);
    q, r := CDiv(a, b), CMod(a, b);
    if r < 0 {
      r := r + b;
      q := q - 1;
    }
  }

  lemma SinceLeapEpoch(t: int)
    ensures var days := (t - LEAPOCH) / 86400;
            && days == t / 86400 - 11017 && (t - LEAPOCH) % 86400 == t % 86400
            && (3 + days) % 7 == (t / 86400 + 4) % 7
            && days == days / DAYS_PER_400Y * DAYS_PER_400Y + days % DAYS_PER_400Y
  {
    assert LEAPOCH == 11017 * 86400;
  }

  /** secondsToTm: for every time it accepts, the fields of the day-by-day calendar. */
  method SecondsToTm(t: int, tm: Tm) returns (rc: int)
    requires Representable(t) || Rejected(t)
    modifies tm
    ensures rc == (if Rejected(t) then -1 else 0)
    ensures if rc == 0 then tm.Value() == TmOf(t) else tm.Value() == old(tm.Value())
  {
    if t < INT_MIN * 31622400 || t > INT_MAX * 31622400 {
      return -1;
    }
    hide DateOf, MarchBefore, YearDay, Cycles;
    RepresentableExactly(t);
    var secs := t - LEAPOCH;
    var days, remsecs := FloorDivision(secs, 86400);
    var _, wday := FloorDivision(3 + days, 7);
    var qc_cycles, remdays := FloorDivision(days, DAYS_PER_400Y);
    ghost var n := t / 86400;
    SinceLeapEpoch(t);
    var c_cycles, q_cycles, remyears;
    c_cycles, q_cycles, remyears, remdays := FindCycles(remdays);
    ghost var d := remdays;

    var leap := if remyears == 0 && (q_cycles != 0 || c_cycles == 0) then 1 else 0;
    var yday := remdays + 31 + 28 + leap;
    if yday >= 365 + leap { yday := yday - (365 + leap); }

    var cycleYears: Int := 400 * qc_cycles;
    var years: Int := remyears + 4 * q_cycles + 100 * c_cycles + cycleYears;

    var months;
    months, remdays := FindMonth(remdays);
    DateFields(n, days, qc_cycles, c_cycles, q_cycles, remyears, d, months, remdays);

    tm.tm_year := years + 100;
    tm.tm_mon := months + 2;
    if tm.tm_mon >= 12 {
      tm.tm_mon := tm.tm_mon - 12;
      tm.tm_year := tm.tm_year + 1;
    }
    tm.tm_mday := remdays + 1;
    tm.tm_wday := wday;
    tm.tm_yday := yday;

    tm.tm_hour := remsecs / 3600;
    tm.tm_min := remsecs / 60 % 60;
    tm.tm_sec := remsecs % 60;
    return 0;
  }

  /** The day of the year, counted from January, from the day counted from March. */
  lemma MarchYearDay(n: int, year: int, d: int)
    requires 0 <= d <= 365 && YearStart(year + 1) - 306 + d == n && (d == 365 ==> Leap(year + 1))
    ensures var l := if Leap(year) then 1 else 0;
            YearDay(DateOf(n)) == if d + 59 + l >= 365 + l then d + 59 - 365 else d + 59 + l
  {
    hide DateOf, YearDay;
    var date := DateOf(n);
    DayNumberOf(n);
    YearLength(year);
    YearLength(year + 1);
    YearDayBound(date);
    if date.year < year { YearsApart(date.year + 1, year); }
    if date.year > year + 1 { YearsApart(year + 2, date.year); }
  }
}
