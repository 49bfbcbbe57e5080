/** Display buffers: the text that a screen shows is what has been written before the terminator. */
module Displays {
  import opened Bytes
  import opened Device
  import opened DecimalText
  import opened PaginatedHex
  import opened NumberHelpers
  import Calendar
  import Time
  import TimeText

  /** bin2dec into a buffer of the given size. */
  method ShowNumber(size: nat, number: u64) returns (r: Outcome<string>)
    ensures r == if size < |Dec(number)| + 1 then Throw(BufferOverflow) else Ok(Dec(number))
  {
    hide Dec, Written;
    var dst := new char[size](_ => NumberHelpers.NUL);
    ghost var was := dst[..];
    var overflow, len := Bin2Dec(dst, 0, size, number);
    if overflow {
      return Throw(BufferOverflow);
    }
    WrittenPrefix(was, Dec(number), [NumberHelpers.NUL]);
    return Ok(dst[..len - 1]);
  }

  /** bin2dec of a byte into four characters. */
  method ShowByte(number: byte) returns (text: string)
    ensures text == Dec(number)
  {
    PowersOfTen();
    DecShort(number, 3);
    var r := ShowNumber(4, number);
    text := r.value;
  }

  lemma WrittenPrefix(s: string, t: string, u: string)
    requires |t| + |u| <= |s|
    ensures Written(s, 0, t + u)[..|t|] == t
  {
  }

  /** toPaginatedHex into a buffer that is large enough. */
  method ShowHex(b: bytes, size: nat) returns (text: string)
    requires 1 <= |b| <= 2048 && size >= 2 * |b| + (|b| - 1) / 8 + 1
    ensures text == PagedHex(b)
  {
    hide PagedHex;
    var dst := new char[size](_ => PaginatedHex.NUL);
    var overflow := ToPaginatedHex(b, dst, size);
    text := dst[..2 * |b| + (|b| - 1) / 8];
  }

  /** amountToGtuDisplay into 30 bytes. */
  method ShowAmount(amount: u64) returns (text: string)
    ensures text == AmountText(amount)
  {
    hide AmountText;
    var dst := new char[30](_ => NumberHelpers.NUL);
    var overflow, len := AmountToGtuDisplay(dst, 30, amount);
    assert dst[..len][..len - 1] == AmountText(amount);
    text := dst[..len - 1];
  }

  /** fractionToPercentageDisplay into 8 bytes. */
  method ShowPercentage(number: u32) returns (r: Outcome<string>)
    ensures r == if number > 100000 then Throw(InvalidTransaction) else Ok(PercentText(number))
  {
    hide PercentText;
    var dst := new char[8](_ => NumberHelpers.NUL);
    var invalid, overflow, len := FractionToPercentageDisplay(dst, 8, number);
    if invalid {
      return Throw(InvalidTransaction);
    }
    assert dst[..len - 1] == dst[..len][..len - 1] == PercentText(number);
    return Ok(dst[..len - 1]);
  }

  /** secondsToTm and timeToDisplayText into 25 bytes; years after 9999 + 1900 are refused. */
  method ShowTime(seconds: nat) returns (r: Outcome<string>)
    requires seconds <= 0xffff_ffff_ffff_ffff / 1000
    ensures r == if Time.TmOf(seconds).year > 9999 then Throw(InvalidParam) else Ok(TimeString(seconds))
  {
    hide TimeText.TextOf, Time.TmOf, Written;
    var tm := new Time.Tm();
    var valid := Time.SecondsToTm(seconds, tm);
    if valid != 0 {
      return Throw(InvalidParam);
    }
    if tm.tm_year > 9999 {
      return Throw(InvalidParam);
    }
    TimeText.ShowableYear(seconds);
    var dst := new char[25](_ => NumberHelpers.NUL);
    ghost var was := dst[..];
    var time := Time.TmValue(tm.tm_sec, tm.tm_min, tm.tm_hour, tm.tm_mday, tm.tm_mon, tm.tm_year, tm.tm_wday, tm.tm_yday);
    var len := TimeText.TimeToDisplayText(time, dst, 25);
    WrittenPrefix(was, TimeText.TextOf(time), [NumberHelpers.NUL]);
    return Ok(dst[..len - 1]);
  }

  /** The text of a time that is not refused. */
  ghost function TimeString(seconds: nat): (r: string)
  {
    var v := Time.TmOf(seconds);
    if TimeText.Printable(v) then TimeText.TextOf(v) else ""
  }
}
