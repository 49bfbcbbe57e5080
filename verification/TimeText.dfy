/** src/common/time.c: timestamps written as yyyy-mm-dd hh:mm:ss. */
module TimeText {
  import opened Positional
  import opened DecimalText
  import opened Calendar
  import opened Time
  import opened NumberHelpers
  import opened Lists

  function Two(n: nat): (r: string) {
    (if n < 10 then "0" else "") + Dec(n)
  }

  /** Fields that the device can print: nothing is negative and only the year may exceed two digits. */
  predicate Printable(v: TmValue) {
    && 0 <= v.year + 1900 < 100000 && 0 <= v.mon + 1 < 100 && 0 <= v.mday < 100
    && 0 <= v.hour < 100 && 0 <= v.min < 100 && 0 <= v.sec < 100
  }

  function DateText(v: TmValue): (r: string)
    requires Printable(v)
  {
    Dec(v.year + 1900) + "-" + Two(v.mon + 1) + "-" + Two(v.mday)
  }

  function ClockText(v: TmValue): (r: string)
    requires Printable(v)
  {
    Two(v.hour) + ":" + Two(v.min) + ":" + Two(v.sec)
  }

  function TextOf(v: TmValue): (r: string)
    requires Printable(v)
  {
    DateText(v) + " " + ClockText(v)
  }

  // ------------------------------------------------------------------ writing it

  lemma TwoLength(n: nat)
    requires n < 100
    ensures |Two(n)| == 2 && Two(n) == [DigitChar(n / 10), DigitChar(n % 10)]
  {
    if n >= 10 { assert Dec(n) == Dec(n / 10) + [DigitChar(n % 10)]; }
  }

  lemma YearLengths(n: nat)
    requires n < 100000
    ensures |Dec(n)| <= 5 && (1000 <= n < 10000 ==> |Dec(n)| == 4) && (10000 <= n ==> |Dec(n)| == 5)
  {
    PowersOfTen();
    PowAdd(10, 3, 1);
    PowAdd(10, 4, 1);
    DecShort(n, 5);
    if 1000 <= n < 10000 {
      DecShort(n, 4);
      DecDrop(n, 3);
    } else if 10000 <= n {
      DecDrop(n, 4);
    }
  }

  /** prefixWithZero and numberToText, together. */
  method PutTwo(dst: array<char>, at: nat, dstLength: nat, value: int) returns (used: nat)
    requires 0 <= value < 100 && at + 2 <= dstLength <= dst.Length
    modifies dst
    ensures used == 2 == |Two(value)|
    ensures dst[..] == Written(old(dst[..]), at, Two(value))
  {
    hide Dec, Written;
    TwoLength(value);
    var zero := 0;
    if value < 10 {
      WriteOne(dst[..], at, '0');
      WriteAfter(dst[..], at, "0", Dec(value));
      dst[at] := '0';
      zero := 1;
    } else {
      assert "" + Dec(value) == Dec(value);
    }
    var overflow, len := NumberToText(dst, at + zero, dstLength - at, value);
    used := zero + len;
  }

  method PutChar(dst: array<char>, at: nat, c: char)
    requires at < dst.Length
    modifies dst
    ensures dst[..] == Written(old(dst[..]), at, [c])
  {
    WriteOne(dst[..], at, c);
    dst[at] := c;
  }

  /** timeToDisplayText, the date.  No buffer overflow is reported by numberToText or bin2dec. */
  method WriteDate(time: TmValue, dst: array<char>, dstLength: nat) returns (offset: nat)
    requires Printable(time) && 21 <= dstLength <= dst.Length
    modifies dst
    ensures offset == |DateText(time)| <= 11
    ensures dst[..] == Written(old(dst[..]), 0, DateText(time))
  {
    hide Dec, Written, Two;
    ghost var was := dst[..];
    YearLengths(time.year + 1900);
    Lengths(time);
    ghost var y, mo, d := Dec(time.year + 1900), Two(time.mon + 1), Two(time.mday);
    var overflow, used;
    overflow, offset := NumberToText(dst, 0, dstLength, time.year + 1900);
    PutChar(dst, offset, '-');
    offset := offset + 1;
    WriteAfter(was, 0, y, "-");
    used := PutTwo(dst, offset, dstLength, time.mon + 1);
    offset := offset + used;
    WriteAfter(was, 0, y + "-", mo);
    PutChar(dst, offset, '-');
    offset := offset + 1;
    WriteAfter(was, 0, y + "-" + mo, "-");
    used := PutTwo(dst, offset, dstLength, time.mday);
    offset := offset + used;
    WriteAfter(was, 0, y + "-" + mo + "-", d);
  }

  /** timeToDisplayText, the time of day and the terminator. */
  method WriteClock(time: TmValue, dst: array<char>, at: nat, dstLength: nat) returns (offset: nat)
    requires Printable(time) && at + 9 <= dstLength <= dst.Length
    modifies dst
    ensures offset == at + |ClockText(time)| + 1 == at + 9
    ensures dst[..] == Written(old(dst[..]), at, ClockText(time) + [NUL])
  {
    hide Dec, Written, Two;
    ghost var was := dst[..];
    Lengths(time);
    ghost var h, mi, s := Two(time.hour), Two(time.min), Two(time.sec);
    offset := PutTwo(dst, at, dstLength, time.hour);
    offset := at + offset;
    PutChar(dst, offset, ':');
    offset := offset + 1;
    WriteAfter(was, at, h, ":");
    var used := PutTwo(dst, offset, dstLength, time.min);
    offset := offset + used;
    WriteAfter(was, at, h + ":", mi);
    PutChar(dst, offset, ':');
    offset := offset + 1;
    WriteAfter(was, at, h + ":" + mi, ":");
    used := PutTwo(dst, offset, dstLength, time.sec);
    offset := offset + used;
    WriteAfter(was, at, h + ":" + mi + ":", s);
    PutChar(dst, offset, NUL);
    offset := offset + 1;
    WriteAfter(was, at, ClockText(time), [NUL]);
  }

  method TimeToDisplayText(time: TmValue, dst: array<char>, dstLength: nat) returns (offset: nat)
    requires Printable(time) && 21 <= dstLength <= dst.Length
    modifies dst
    ensures offset == |TextOf(time)| + 1 <= 21
    ensures dst[..] == Written(old(dst[..]), 0, TextOf(time) + [NUL])
  {
    hide DateText, ClockText, Written;
    ghost var was, date, clock := dst[..], DateText(time), ClockText(time) + [NUL];
    Lengths(time);
    offset := WriteDate(time, dst, dstLength);
    PutChar(dst, offset, ' ');
    offset := offset + 1;
    WriteAfter(was, 0, date, " ");
    offset := WriteClock(time, dst, offset, dstLength);
    WriteAfter(was, 0, date + " ", clock);
    assert date + " " + clock == TextOf(time) + [NUL];
  }

  lemma Lengths(v: TmValue)
    requires Printable(v)
    ensures |Two(v.mon + 1)| == |Two(v.mday)| == |Two(v.hour)| == |Two(v.min)| == |Two(v.sec)| == 2
    ensures |DateText(v)| == |Dec(v.year + 1900)| + 6 && |ClockText(v)| == 8
  {
    hide Two;
    TwoLength(v.mon + 1);
    TwoLength(v.mday);
    TwoLength(v.hour);
    TwoLength(v.min);
    TwoLength(v.sec);
  }

  // ------------------------------------------------------------------ order

  /** Alphabetical order. */
  predicate LexLess(s: string, t: string) {
    if s == [] then t != [] else t != [] && (s[0] < t[0] || (s[0] == t[0] && LexLess(s[1..], t[1..])))
  }

  lemma {:induction false} LexAppend(a: string, b: string, s: string, t: string)
    requires |a| == |b|
    ensures LexLess(a + s, b + t) <==> LexLess(a, b) || (a == b && LexLess(s, t))
  {
    if a == [] {
      assert a + s == s && b + t == t;
    } else {
      assert (a + s)[1..] == a[1..] + s && (b + t)[1..] == b[1..] + t;
      assert a == [a[0]] + a[1..] && b == [b[0]] + b[1..];
      LexAppend(a[1..], b[1..], s, t);
    }
  }

  lemma {:induction false} LexDec(m: nat, n: nat)
    requires |Dec(m)| == |Dec(n)| && m < n
    ensures LexLess(Dec(m), Dec(n))
  {
    if m >= 10 {
      assert n >= 10;
      LexAppend(Dec(m / 10), Dec(n / 10), [DigitChar(m % 10)], [DigitChar(n % 10)]);
      if m / 10 < n / 10 { LexDec(m / 10, n / 10); }
    }
  }

  lemma {:induction false} LexIrreflexive(s: string)
    ensures !LexLess(s, s)
  {
    if s != [] { LexIrreflexive(s[1..]); }
  }

  lemma {:induction false} LexAsymmetric(s: string, t: string)
    requires LexLess(s, t)
    ensures !LexLess(t, s)
  {
    if s != [] && s[0] == t[0] { LexAsymmetric(s[1..], t[1..]); }
  }

  lemma LexTwo(m: nat, n: nat)
    requires m < n < 100
    ensures LexLess(Two(m), Two(n))
  {
    TwoLength(m);
    TwoLength(n);
    var a, b := [DigitChar(m / 10)], [DigitChar(n / 10)];
    assert Two(m) == a + [DigitChar(m % 10)] && Two(n) == b + [DigitChar(n % 10)];
    LexAppend(a, b, [DigitChar(m % 10)], [DigitChar(n % 10)]);
  }

  ghost predicate ClockBefore(v: TmValue, w: TmValue) {
    v.hour < w.hour || (v.hour == w.hour && (v.min < w.min || (v.min == w.min && v.sec < w.sec)))
  }

  lemma LexClock(v: TmValue, w: TmValue)
    requires Printable(v) && Printable(w) && ClockBefore(v, w)
    ensures LexLess(ClockText(v), ClockText(w))
  {
    hide Two, LexLess;
    Lengths(v);
    Lengths(w);
    var a, b := Two(v.hour) + ":", Two(w.hour) + ":";
    LexAppend(Two(v.hour), Two(w.hour), ":", ":");
    LexAppend(a, b, Two(v.min), Two(w.min));
    LexAppend(a + Two(v.min), b + Two(w.min), ":", ":");
    LexAppend(a + Two(v.min) + ":", b + Two(w.min) + ":", Two(v.sec), Two(w.sec));
    if v.hour < w.hour { LexTwo(v.hour, w.hour); }
    else if v.min < w.min { LexTwo(v.min, w.min); }
    else { LexTwo(v.sec, w.sec); }
  }

  lemma LexDate(v: TmValue, w: TmValue)
    requires Printable(v) && Printable(w) && |Dec(v.year + 1900)| == |Dec(w.year + 1900)|
    requires Before(DateIn(v), DateIn(w))
    ensures LexLess(DateText(v), DateText(w))
  {
    hide Two, LexLess, Dec;
    Lengths(v);
    Lengths(w);
    var y, z := Dec(v.year + 1900), Dec(w.year + 1900);
    var a, b := y + "-", z + "-";
    LexAppend(y, z, "-", "-");
    LexAppend(a, b, Two(v.mon + 1), Two(w.mon + 1));
    LexAppend(a + Two(v.mon + 1), b + Two(w.mon + 1), "-", "-");
    LexAppend(a + Two(v.mon + 1) + "-", b + Two(w.mon + 1) + "-", Two(v.mday), Two(w.mday));
    if v.year < w.year { LexDec(v.year + 1900, w.year + 1900); }
    else if v.mon < w.mon { LexTwo(v.mon + 1, w.mon + 1); }
    else { LexTwo(v.mday, w.mday); }
  }

  /** The times that a release may have: from 1970 on, with 1900 plus a tm_year of at most 9999. */
  predicate Showable(t: int) {
    t >= 0 && TmOf(t).year <= 9999
  }

  function YearDigits(t: int): (r: nat)
    requires Showable(t)
  {
    ShowableYear(t);
    |Dec(TmOf(t).year + 1900)|
  }

  lemma ShowableYear(t: int)
    requires Showable(t)
    ensures Printable(TmOf(t)) && 1970 <= TmOf(t).year + 1900
  {
    var d := DateOf(t / 86400);
    hide DateOf, Dec, Two;
    TmRanges(t);
    DayNumberOf(t / 86400);
    YearDayBound(d);
    if d.year < 1970 { YearsApart(d.year + 1, 1970); }
  }

  /** Years up to 9999 have 19 characters, later ones 20. */
  lemma ShownLength(t: int)
    requires Showable(t)
    ensures Printable(TmOf(t)) && |TextOf(TmOf(t))| == 15 + YearDigits(t)
    ensures YearDigits(t) == if DateOf(t / 86400).year <= 9999 then 4 else 5
  {
    hide DateOf, Dec, Two;
    ShowableYear(t);
    var y := TmOf(t).year + 1900;
    YearLengths(y);
    Lengths(TmOf(t));
  }

  lemma DatesInFields(t: int)
    ensures DateIn(TmOf(t)) == DateOf(t / 86400)
  {
  }

  lemma LexText(v: TmValue, w: TmValue)
    requires Printable(v) && Printable(w) && |Dec(v.year + 1900)| == |Dec(w.year + 1900)|
    requires Before(DateIn(v), DateIn(w)) || (DateIn(v) == DateIn(w) && ClockBefore(v, w))
    ensures LexLess(TextOf(v), TextOf(w))
  {
    hide LexLess, Dec, Two, ClockText, ClockBefore, Before;
    var a, b := DateText(v), DateText(w);
    Lengths(v);
    Lengths(w);
    LexAppend(a, b, " ", " ");
    LexAppend(a + " ", b + " ", ClockText(v), ClockText(w));
    if Before(DateIn(v), DateIn(w)) { LexDate(v, w); } else { LexClock(v, w); }
  }

  lemma EarlierText(t: int, u: int)
    requires Showable(t) && Showable(u) && YearDigits(t) == YearDigits(u) && t < u
    ensures Printable(TmOf(t)) && Printable(TmOf(u))
    ensures LexLess(TextOf(TmOf(t)), TextOf(TmOf(u)))
  {
    hide DateOf, TmOf, TextOf, LexLess, Dec, Printable, DateIn, ClockBefore;
    ShowableYear(t);
    ShowableYear(u);
    DatesInFields(t);
    DatesInFields(u);
    if t / 86400 < u / 86400 { EarlierDate(t / 86400, u / 86400); } else { SameDate(t, u); }
    LexText(TmOf(t), TmOf(u));
  }

  lemma SameDate(t: int, u: int)
    requires t < u && t / 86400 >= u / 86400
    ensures DateIn(TmOf(t)) == DateIn(TmOf(u)) && ClockBefore(TmOf(t), TmOf(u))
  {
    hide DateOf;
    assert t / 86400 == u / 86400;
    ClockOrder(t % 86400, u % 86400);
  }

  lemma ClockOrder(s: nat, r: nat)
    requires s < r
    ensures s / 3600 < r / 3600 || (s / 3600 == r / 3600
              && (s / 60 % 60 < r / 60 % 60 || (s / 60 % 60 == r / 60 % 60 && s % 60 < r % 60)))
  {
    assert s / 3600 * 60 + s / 60 % 60 == s / 60 && r / 3600 * 60 + r / 60 % 60 == r / 60;
  }

  lemma EarlierDate(m: int, n: int)
    requires m < n
    ensures Before(DateOf(m), DateOf(n))
  {
    hide DateOf;
    DayNumberOf(m);
    DayNumberOf(n);
    if DateOf(m) != DateOf(n) && !Before(DateOf(m), DateOf(n)) {
      BeforeCounts(DateOf(n), DateOf(m));
    }
  }

  lemma FirstDigits(year: nat)
    requires 1970 <= year < 12000
    ensures |Dec(year)| >= 2
    ensures year < 10000 ==> Dec(year)[0] > '1' || (Dec(year)[0] == '1' && Dec(year)[1] == '9')
    ensures year >= 10000 ==> Dec(year)[0] == '1' && Dec(year)[1] <= '1'
  {
    assert Dec(year) == Dec(year / 100) + [DigitChar(year / 10 % 10), DigitChar(year % 10)];
    var century := year / 100;
    assert Dec(century) == Dec(century / 10) + [DigitChar(century % 10)];
    if year >= 10000 { assert Dec(century / 10) == Dec(1) + [DigitChar(century / 10 % 10)]; }
  }

  lemma YearOrder(t: int, u: int)
    requires t <= u
    ensures TmOf(t).year <= TmOf(u).year
  {
    hide DateOf;
    if t / 86400 < u / 86400 { EarlierDate(t / 86400, u / 86400); } else { assert t / 86400 == u / 86400; }
  }

  /** A year of five digits comes before any shown year of four in the alphabet, and after it in time. */
  lemma LongerYear(t: int, u: int)
    requires Showable(t) && Showable(u) && YearDigits(t) < YearDigits(u)
    ensures Printable(TmOf(t)) && Printable(TmOf(u))
    ensures t < u && LexLess(TextOf(TmOf(u)), TextOf(TmOf(t)))
  {
    var v, w := TmOf(t), TmOf(u);
    hide DateOf, TmOf, Dec, Two, Printable;
    ShowableYear(t);
    ShowableYear(u);
    YearLengths(v.year + 1900);
    YearLengths(w.year + 1900);
    if u <= t { YearOrder(u, t); }
    FirstDigits(v.year + 1900);
    FirstDigits(w.year + 1900);
    var a, b := TextOf(v), TextOf(w);
    assert a[0] == Dec(v.year + 1900)[0] && a[1] == Dec(v.year + 1900)[1];
    assert b[0] == Dec(w.year + 1900)[0] && b[1] == Dec(w.year + 1900)[1];
    assert a[1..][0] == a[1] && b[1..][0] == b[1];
    assert a[0] == '1' ==> LexLess(b[1..], a[1..]);
  }

  /** Shown times compare as texts as they compare in time if and only if they are equal or their years
      have the same number of digits. */
  lemma TextOrder(t: int, u: int)
    requires Showable(t) && Showable(u)
    ensures Printable(TmOf(t)) && Printable(TmOf(u))
    ensures (t < u <==> LexLess(TextOf(TmOf(t)), TextOf(TmOf(u)))) && (u < t <==> LexLess(TextOf(TmOf(u)), TextOf(TmOf(t))))
            <==> t == u || YearDigits(t) == YearDigits(u)
  {
    hide TextOf, LexLess, DateOf, YearDigits, TmOf;
    ShowableYear(t);
    ShowableYear(u);
    if t == u {
      LexIrreflexive(TextOf(TmOf(t)));
    } else if YearDigits(t) < YearDigits(u) {
      LongerYear(t, u);
    } else if YearDigits(u) < YearDigits(t) {
      LongerYear(u, t);
    } else if t < u {
      EarlierText(t, u);
      LexAsymmetric(TextOf(TmOf(t)), TextOf(TmOf(u)));
    } else {
      EarlierText(u, t);
      LexAsymmetric(TextOf(TmOf(u)), TextOf(TmOf(t)));
    }
  }

  // ------------------------------------------------------------------ reading it

  lemma TwoInjective(m: nat, n: nat)
    requires m < 100 && n < 100 && Two(m) == Two(n)
    ensures m == n
  {
    TwoLength(m);
    TwoLength(n);
    assert Two(m)[0] == Two(n)[0] && Two(m)[1] == Two(n)[1];
  }

  lemma ClockFromText(v: TmValue, w: TmValue)
    requires Printable(v) && Printable(w) && ClockText(v) == ClockText(w)
    ensures v.hour == w.hour && v.min == w.min && v.sec == w.sec
  {
    Lengths(v);
    Lengths(w);
    hide Two;
    assert ClockText(v) == Two(v.hour) + (":" + (Two(v.min) + (":" + Two(v.sec))));
    assert ClockText(w) == Two(w.hour) + (":" + (Two(w.min) + (":" + Two(w.sec))));
    hide ClockText, DateText;
    Split(Two(v.hour), Two(w.hour), ":" + (Two(v.min) + (":" + Two(v.sec))), ":" + (Two(w.min) + (":" + Two(w.sec))));
    Split(":", ":", Two(v.min) + (":" + Two(v.sec)), Two(w.min) + (":" + Two(w.sec)));
    Split(Two(v.min), Two(w.min), ":" + Two(v.sec), ":" + Two(w.sec));
    Split(":", ":", Two(v.sec), Two(w.sec));
    TwoInjective(v.hour, w.hour);
    TwoInjective(v.min, w.min);
    TwoInjective(v.sec, w.sec);
  }

  lemma DateFromText(v: TmValue, w: TmValue)
    requires Printable(v) && Printable(w) && DateText(v) == DateText(w)
    ensures DateIn(v) == DateIn(w)
  {
    Lengths(v);
    Lengths(w);
    hide Two, Dec;
    var a, b := Dec(v.year + 1900), Dec(w.year + 1900);
    assert DateText(v) == a + ("-" + (Two(v.mon + 1) + ("-" + Two(v.mday))));
    assert DateText(w) == b + ("-" + (Two(w.mon + 1) + ("-" + Two(w.mday))));
    hide ClockText, DateText;
    Split(a, b, "-" + (Two(v.mon + 1) + ("-" + Two(v.mday))), "-" + (Two(w.mon + 1) + ("-" + Two(w.mday))));
    Split("-", "-", Two(v.mon + 1) + ("-" + Two(v.mday)), Two(w.mon + 1) + ("-" + Two(w.mday)));
    Split(Two(v.mon + 1), Two(w.mon + 1), "-" + Two(v.mday), "-" + Two(w.mday));
    Split("-", "-", Two(v.mday), Two(w.mday));
    DecInjective(v.year + 1900, w.year + 1900);
    TwoInjective(v.mon + 1, w.mon + 1);
    TwoInjective(v.mday, w.mday);
  }

  lemma FieldsFromText(v: TmValue, w: TmValue)
    requires Printable(v) && Printable(w) && TextOf(v) == TextOf(w)
    ensures DateIn(v) == DateIn(w) && v.hour == w.hour && v.min == w.min && v.sec == w.sec
  {
    Lengths(v);
    Lengths(w);
    hide Two, Dec, DateText, ClockText;
    Split(DateText(v) + " ", DateText(w) + " ", ClockText(v), ClockText(w));
    Split(DateText(v), DateText(w), " ", " ");
    DateFromText(v, w);
    ClockFromText(v, w);
  }

  /** A text determines the second, whatever the number of digits of the year. */
  lemma TextInjective(t: int, u: int)
    requires Printable(TmOf(t)) && Printable(TmOf(u)) && TextOf(TmOf(t)) == TextOf(TmOf(u))
    ensures t == u
  {
    FieldsFromText(TmOf(t), TmOf(u));
    TmRoundTrip(t);
    TmRoundTrip(u);
  }
}
