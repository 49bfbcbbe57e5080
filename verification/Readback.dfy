/** What the texts on the screens say, read without the functions that write them: numbers are the base-256
    values of the bytes behind them, addresses carry their checksum, times are counted in the calendar. */
module Readback {
  import opened Bytes
  import opened Positional
  import opened DecimalText
  import opened Calendar
  import opened Device
  import opened NumberHelpers
  import opened Displays
  import opened PaginatedHex
  import opened Time
  import opened TimeText
  import BigEndian
  import Base58

  function Codes(s: string): (r: seq<nat>) {
    seq(|s|, i requires 0 <= i < |s| => s[i] as int)
  }

  /** Version 1, the address, and a checksum that is right. */
  ghost predicate ShowsAddress(sha: Sha256, text: string, address: bytes) {
    var p := Base58.ReadAddress(Codes(text));
    p[0] == 1 && p[1..33] == address && p[33..] == sha(sha(p[..33]))[..4]
  }

  lemma AddressShown(sha: Sha256, address: bytes)
    requires |address| == 32
    ensures ShowsAddress(sha, AddressChars(sha, address), address)
  {
    var text := Base58.AddressTextOf(sha, address);
    assert Codes(Chars(text)) == text;
    Base58.AddressTextRead(sha, address);
  }

  /** Decimal digits. */
  ghost predicate ShowsNumber(text: string, b: bytes) {
    text != "" && AllDigits(text) && Read(text) == Value(256, b)
  }

  lemma NumberShown(b: bytes)
    ensures ShowsNumber(Dec(Value(256, b)), b)
  {
    hide Value;
    ReadDec(Value(256, b));
    DecDigits(Value(256, b));
  }

  /** Millionths of a CCD. */
  ghost predicate ShowsAmount(text: string, b: bytes) {
    |text| >= 4 && text[..4] == "CCD " && ReadFixed(text[4..], 6) == Value(256, b)
  }

  lemma AmountShown(b: bytes)
    requires |b| == 8
    ensures ShowsAmount(AmountText(U8BE(b, 0)), b)
  {
    BigEndian.Read8(b, 0);
    assert b[0..8] == b;
    hide Value, Fixed, ReadFixed, U8BE;
    AmountRoundTrip(U8BE(b, 0));
  }

  /** Thousandths of a percent. */
  ghost predicate ShowsPercentage(text: string, b: bytes) {
    && text != "" && text[|text| - 1] == '%' && ReadFixed(text[..|text| - 1], 3) == Value(256, b)
  }

  lemma PercentageShown(b: bytes)
    requires |b| == 4
    ensures ShowsPercentage(PercentText(U4BE(b, 0)), b)
  {
    BigEndian.Read4(b, 0);
    assert b[0..4] == b;
    hide Value, Fixed, ReadFixed, U4BE;
    PercentRoundTrip(U4BE(b, 0));
  }

  /** Hexadecimal, two characters a byte. */
  ghost predicate ShowsHex(text: string, b: bytes) {
    ReadHex(text) == b
  }

  predicate Titled(step: Step, title: string) {
    step.Show? && step.title == title
  }

  /** The steps of a transfer, with those of a memo between recipient and question. */
  ghost predicate ShowsTransfer(sha: Sha256, flow: Flow, sender: bytes, to: bytes, amount: bytes, memo: seq<Step>) {
    && |flow| >= 4 && flow[0] == Show("Review", "transaction")
    && Titled(flow[1], "Sender") && ShowsAddress(sha, flow[1].text, sender)
    && Titled(flow[2], "Amount") && ShowsAmount(flow[2].text, amount)
    && Titled(flow[3], "Recipient") && ShowsAddress(sha, flow[3].text, to)
    && flow[4..] == memo + [Sign, Decline]
  }

  /** The first screen of a transfer whose amounts are shown afterwards. */
  ghost predicate ShowsParties(sha: Sha256, flow: Flow, sender: bytes, to: bytes, memo: seq<Step>) {
    && |flow| >= 3 && flow[0] == Show("Review", "transaction")
    && Titled(flow[1], "Sender") && ShowsAddress(sha, flow[1].text, sender)
    && Titled(flow[2], "Recipient") && ShowsAddress(sha, flow[2].text, to)
    && flow[3..] == memo + [Continue("Continue", "with transaction")]
  }

  // ------------------------------------------------------------------ times

  /** yyyy-mm-dd hh:mm:ss, a date of the calendar and a time of the day: so many seconds after 1970. */
  ghost predicate ShowsTime(text: string, seconds: int) {
    var n := |text| - 15;
    && n >= 4 && text[n] == text[n + 3] == '-' && text[n + 6] == ' ' && text[n + 9] == text[n + 12] == ':'
    && var date := Date(Read(text[..n]), Read(text[n + 1..n + 3]), Read(text[n + 4..n + 6]));
       var hour, min, sec := Read(text[n + 7..n + 9]), Read(text[n + 10..n + 12]), Read(text[n + 13..]);
       && Valid(date) && 0 <= hour < 24 && 0 <= min < 60 && 0 <= sec < 60
       && seconds == DayNumber(date) * 86400 + hour * 3600 + min * 60 + sec
  }

  /** The screen of a release of eight bytes of milliseconds and eight of amount: the second that has begun,
      and the amount. */
  ghost predicate ShowsRelease(flow: Flow, release: bytes, last: bool)
    requires |release| == 16
  {
    && |flow| >= 2 && Titled(flow[0], "Release time (UTC)") && Titled(flow[1], "Amount")
    && (exists s: int :: ShowsTime(flow[0].text, s) && 1000 * s <= Value(256, release[..8]) < 1000 * s + 1000)
    && ShowsAmount(flow[1].text, release[8..])
    && flow[2..] == if last then [Sign, Decline] else [Continue("Show", "next release")]
  }

  lemma ReadTwo(n: nat)
    requires n < 100
    ensures Read(Two(n)) == n && |Two(n)| == 2
  {
    TwoLength(n);
    ReadDec(n);
    if n < 10 { assert Two(n)[..1] == "0" && Two(n)[1..] == Dec(n) && "0"[..0] == ""; }
  }

  /** Where the fields stand. */
  lemma Layout(y: string, mo: string, d: string, h: string, mi: string, s: string)
    requires |mo| == |d| == |h| == |mi| == |s| == 2
    ensures var text := y + "-" + mo + "-" + d + " " + (h + ":" + mi + ":" + s);
            var n := |y|;
            && |text| == n + 15 && text[..n] == y && text[n + 1..n + 3] == mo && text[n + 4..n + 6] == d
            && text[n + 7..n + 9] == h && text[n + 10..n + 12] == mi && text[n + 13..] == s
            && text[n] == text[n + 3] == '-' && text[n + 6] == ' ' && text[n + 9] == text[n + 12] == ':'
  {
  }

  lemma TimeShown(t: int)
    requires Showable(t)
    ensures ShowsTime(TimeString(t), t)
  {
    ShowableYear(t);
    YearLengths(TmOf(t).year + 1900);
    TmRanges(t);
    TmRoundTrip(t);
    var v := TmOf(t);
    hide TmOf, Read, Dec, Two, DayNumber, MonthLength;
    ReadDec(v.year + 1900);
    ReadTwo(v.mon + 1);
    ReadTwo(v.mday);
    ReadTwo(v.hour);
    ReadTwo(v.min);
    ReadTwo(v.sec);
    Layout(Dec(v.year + 1900), Two(v.mon + 1), Two(v.mday), Two(v.hour), Two(v.min), Two(v.sec));
  }
}
