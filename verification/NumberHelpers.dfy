/** src/common/numberHelpers.c: numbers, amounts and percentages written into display buffers.
    A pointer into a buffer is an array and an offset; overflow is THROW(ERROR_BUFFER_OVERFLOW). */
module NumberHelpers {
  import opened Bytes
  import opened Positional
  import opened DecimalText

  const NUL := 0 as char

  /** A buffer after a text has been written at an offset. */
  function Written(s: string, at: nat, text: string): (r: string)
    requires at + |text| <= |s|
    ensures |r| == |s|
  {
    s[..at] + text + s[at + |text|..]
  }

  lemma WriteAfter(s: string, at: nat, t: string, u: string)
    requires at + |t| + |u| <= |s|
    ensures Written(Written(s, at, t), at + |t|, u) == Written(s, at, t + u)
  {
  }

  lemma WriteNothing(s: string, at: nat)
    requires at <= |s|
    ensures Written(s, at, "") == s
  {
  }

  lemma WriteOne(s: string, at: nat, c: char)
    requires at < |s|
    ensures s[at := c] == Written(s, at, [c])
  {
  }

  lemma WriteTwo(s: string, at: nat, c: char, d: char)
    requires at + 2 <= |s|
    ensures s[at := c][at + 1 := d] == Written(s, at, [c, d])
  {
  }

  method LengthOfNumber(number: u64) returns (len: nat)
    ensures len == |Dec(number)|
  {
    if number == 0 {
      return 1;
    }
    len := 0;
    var nn: nat := number;
    while nn != 0
      invariant len + (if nn == 0 then 0 else |Dec(nn)|) == |Dec(number)|
    {
      len := len + 1;
      nn := nn / 10;
    }
  }

  method NumberToText(dst: array<char>, at: nat, dstLength: int, number: u64) returns (overflow: bool, len: nat)
    requires dstLength >= |Dec(number)| ==> at + |Dec(number)| <= dst.Length
    modifies dst
    ensures overflow <==> dstLength < |Dec(number)|
    ensures overflow ==> dst[..] == old(dst[..])
    ensures !overflow ==> len == |Dec(number)| && dst[..] == Written(old(dst[..]), at, Dec(number))
  {
    len := LengthOfNumber(number);
    if dstLength < len {
      return true, len;
    }
    hide Dec;
    ghost var text := Dec(number);
    var rest: nat, i: int := number, len - 1;
    assert text[..len] == text;
    while i >= 0
      invariant -1 <= i < len
      invariant i >= 0 ==> Dec(rest) == text[..i + 1]
      invariant forall k | i < k < len :: dst[at + k] == text[k]
      invariant forall k | 0 <= k < dst.Length && !(at + i < k < at + len) :: dst[k] == old(dst[k])
    {
      LastDigitOfDec(rest);
      dst[at + i] := ('0' + (rest % 10) as char);
      assert text[..i + 1][..i] == text[..i];
      rest := rest / 10;
      i := i - 1;
    }
    assert dst[at..at + len] == text;
    overflow := false;
  }

  lemma FilledZeros(was: string, at: nat, n: nat, now: string)
    requires at + n <= |was| == |now|
    requires forall k | 0 <= k < |was| :: now[k] == if at <= k < at + n then '0' else was[k]
    ensures now == Written(was, at, Fill(n))
  {
  }

  lemma LastDigitOfDec(n: nat)
    ensures Dec(n)[|Dec(n)| - 1] == DigitChar(n % 10)
    ensures n >= 10 ==> Dec(n)[..|Dec(n)| - 1] == Dec(n / 10)
    ensures n >= 10 <==> |Dec(n)| > 1
  {
  }

  method Bin2Dec(dst: array<char>, at: nat, dstLength: int, number: u64) returns (overflow: bool, len: nat)
    requires at + dstLength <= dst.Length
    modifies dst
    ensures overflow <==> dstLength < |Dec(number)| + 1
    ensures !overflow ==> len == |Dec(number)| + 1 && dst[..] == Written(old(dst[..]), at, Dec(number) + [NUL])
  {
    hide Dec, Written;
    overflow, len := NumberToText(dst, at, dstLength, number);
    if overflow {
      return;
    }
    if dstLength < len + 1 {
      return true, len;
    }
    WriteAfter(old(dst[..]), at, Dec(number), [NUL]);
    WriteOne(dst[..], at + len, NUL);
    dst[at + len] := NUL;
    len := len + 1;
  }

  lemma StripZerosStep(n: nat)
    requires n > 0
    ensures StripZeros(n) == if n % 10 == 0 then StripZeros(n / 10) else n
  {
  }

  const SIZE_T_MODULUS := 0x1_0000_0000

  /** How many zeros are put before the digits of a decimal part. */
  function ZeroFill(part: nat, k: nat): (r: nat)
    requires |Dec(part)| <= k
  {
    k - |Dec(part)|
  }

  /** Digits after the point.  `dstLength - zeroFillLength < 0` never holds, the operands being
      unsigned: the zeros are written in any case, and when they do not fit, the length left wraps
      around and nothing is reported.  dst is the memory that the buffer is part of. */
  method DecimalDigitsDisplay(dst: array<char>, at: nat, dstLength: u32, decimalPart: u64, decimalDigitsLength: byte)
    returns (overflow: bool, len: nat)
    requires decimalPart > 0 && |Dec(decimalPart)| <= decimalDigitsLength
    requires at + |Fraction(decimalPart, decimalDigitsLength)| <= dst.Length
    modifies dst
    ensures var fraction, zeros := Fraction(decimalPart, decimalDigitsLength), ZeroFill(decimalPart, decimalDigitsLength);
            && (overflow <==> zeros <= dstLength < |fraction|)
            && (!overflow ==> len == |fraction|)
            && dst[..] == Written(old(dst[..]), at, if overflow then Fill(zeros) else fraction)
  {
    hide Dec, Written, StripZeros;
    var length := LengthOfNumber(decimalPart);
    var zeroFillLength := decimalDigitsLength - length;
    ghost var was := dst[..];
    for i := 0 to zeroFillLength
      invariant forall k | 0 <= k < dst.Length :: dst[k] == if at <= k < at + i then '0' else was[k]
    {
      dst[at + i] := '0';
    }
    FilledZeros(was, at, zeroFillLength, dst[..]);
    var part: nat := decimalPart;
    var i: int := length - 1;
    while i >= 0
      invariant part > 0 && StripZeros(part) == StripZeros(decimalPart) && part <= decimalPart
      invariant |Dec(part)| == i + 1
      invariant dst[..] == Written(was, at, Fill(zeroFillLength))
      decreases i
    {
      StripZerosStep(part);
      LastDigitOfDec(part);
      var currentNumber := part % 10;
      if currentNumber != 0 {
        break;
      } else {
        part := part / 10;
      }
      i := i - 1;
    }
    StripZerosStep(part);
    var rest := dstLength - zeroFillLength;
    if rest < 0 { rest := rest + SIZE_T_MODULUS; }
    overflow, len := NumberToText(dst, at + zeroFillLength, rest, part);
    if !overflow {
      assert dst[..] == Written(Written(was, at, Fill(zeroFillLength)), at + zeroFillLength, Dec(part));
      WriteAfter(was, at, Fill(zeroFillLength), Dec(part));
      assert Fraction(decimalPart, decimalDigitsLength) == Fill(zeroFillLength) + Dec(part);
    }
    len := len + zeroFillLength;
  }

  /** wholePart holds the digits still to be written once `right` characters are, `current` of them
      since the last comma. */
  ghost predicate Unwritten(whole: nat, right: nat, wholePart: nat, current: int) {
    && right < |Grouped(whole)| && current == right % 4 && current < 3 && DigitsIn(right) < |Dec(whole)|
    && Dec(wholePart) == Dec(whole)[..|Dec(whole)| - DigitsIn(right)]
  }

  lemma UnwrittenStart(whole: nat)
    ensures Unwritten(whole, 0, whole, 0)
  {
    DigitsInGrouped(whole);
    assert Dec(whole)[..|Dec(whole)|] == Dec(whole);
  }

  lemma UnwrittenStep(whole: nat, right: nat, wholePart: nat, current: int)
    requires Unwritten(whole, right, wholePart, current)
    ensures var g := Grouped(whole);
            && g[|g| - 1 - right] == DigitChar(wholePart % 10)
            && current < 3
            && (right + 1 < |g| && current < 2 ==> Unwritten(whole, right + 1, wholePart / 10, current + 1))
            && (right + 1 < |g| && current == 2 ==>
                  right + 2 < |g| && g[|g| - 2 - right] == ',' && Unwritten(whole, right + 2, wholePart / 10, 0))
  {
    hide Dec, Grouped, DigitsIn;
    var d := Dec(whole);
    var left := |d| - DigitsIn(right) - 1;
    assert d[..left + 1][..left] == d[..left];
    DigitsInGrouped(whole);
    LastDigitOfDec(wholePart);
    GroupedAt(whole, right);
    DigitsInNext(right);
    DigitsInNext(right + 1);
    if right + 1 < |Grouped(whole)| {
      GroupedAt(whole, right + 1);
    }
  }

  /** The whole part, written from its last character to its first, a comma before every third digit. */
  method WriteGrouped(dst: array<char>, at: nat, whole: nat, wholeNumberLength: nat, separatorCount: nat)
    requires wholeNumberLength + separatorCount == |Grouped(whole)|
    requires at + |Grouped(whole)| <= dst.Length
    modifies dst
    ensures dst[..] == Written(old(dst[..]), at, Grouped(whole))
  {
    hide Dec, Grouped, Unwritten;
    ghost var g, total := Grouped(whole), |Grouped(whole)|;
    var wholePart, current := whole, 0;
    var i: int := wholeNumberLength - 1 + separatorCount;
    UnwrittenStart(whole);
    while i >= 0
      invariant -1 <= i < total
      invariant i >= 0 ==> Unwritten(whole, total - 1 - i, wholePart, current)
      invariant forall k | i < k < total :: dst[at + k] == g[k]
      invariant forall k | 0 <= k < dst.Length && !(at + i < k < at + total) :: dst[k] == old(dst[k])
    {
      UnwrittenStep(whole, total - 1 - i, wholePart, current);
      dst[at + i] := '0' + (wholePart % 10) as char;
      wholePart := wholePart / 10;

      current := current + 1;
      if current == 3 && i != 0 {
        dst[at + i - 1] := ',';
        i := i - 1;
        current := 0;
      }
      i := i - 1;
    }
    assert dst[at..at + total] == g;
  }

  // ------------------------------------------------------------------ fixed-point numbers

  /** What is written up to the point, whether or not digits follow it. */
  function Head(amount: nat, k: nat): (r: string) {
    if amount < Pow(10, k) then "0." else Grouped(amount / Pow(10, k)) + "."
  }

  /** In front of the digits one character is set aside for the terminator, but only after a plain zero. */
  function Kept(amount: nat, k: nat): (r: nat) {
    if amount < Pow(10, k) then 1 else 0
  }

  lemma FixedIs(amount: nat, k: nat)
    requires k >= 1
    ensures var part := amount % Pow(10, k);
            && |Dec(part)| <= k
            && (part == 0 ==> |Fixed(amount, k)| < |Head(amount, k)|)
            && (part > 0 ==> Fixed(amount, k) == Head(amount, k) + Fraction(part, k))
  {
    hide Dec, Grouped, Fraction, Pow;
    var p := Pow(10, k);
    DivMod(amount, p);
    DecShort(amount % p, k);
    WholePart(amount, p);
  }

  /** The zeros after the point alone do not fit, so that the length left wraps around. */
  predicate Wraps(dstLength: nat, amount: nat, k: nat)
    requires k >= 1
  {
    var part := amount % Pow(10, k);
    FixedIs(amount, k);
    part != 0 && |Head(amount, k)| <= dstLength < |Head(amount, k)| + Kept(amount, k) + ZeroFill(part, k)
  }

  /** What has been written when the call returns or throws. */
  function Wrote(dstLength: nat, amount: nat, k: nat): (r: string)
    requires k >= 1
    ensures |r| <= |Fixed(amount, k)|
  {
    var part, left := amount % Pow(10, k), dstLength - |Head(amount, k)| - Kept(amount, k);
    FixedIs(amount, k);
    if dstLength < |Head(amount, k)| then ""
    else if part != 0 && ZeroFill(part, k) <= left < |Fraction(part, k)| then Head(amount, k) + Fill(ZeroFill(part, k))
    else Fixed(amount, k)
  }

  /** The buffer is overrun exactly when that length wraps around.  After a whole part the overflow is
      reported all the same, when it is too late; after a plain zero it is not. */
  lemma WritesPastBuffer(dstLength: nat, amount: nat, k: nat)
    requires k >= 1
    ensures |Wrote(dstLength, amount, k)| > dstLength <==> Wraps(dstLength, amount, k)
  {
    hide Dec, Grouped, Pow;
    FixedIs(amount, k);
  }

  lemma TenOnce()
    ensures Pow(10, 1) == 10
  {
    assert Pow(10, 1) == Pow(10, 0) * 10;
  }

  /** Sizes for which some amount overruns the buffer without an error: from 2 to decimals + 1. */
  lemma SilentOverruns(dstLength: nat, k: nat)
    requires k >= 1
    ensures 2 <= dstLength <= k + 1 <==> exists amount: nat :: amount < Pow(10, k) && Wraps(dstLength, amount, k)
  {
    hide Pow, Dec, Wraps;
    if 2 <= dstLength <= k + 1 {
      PowMonotone(10, 1, k);
      TenOnce();
      BelowOne(dstLength, 1, k);
      OneDigit();
    } else if amount: nat :| amount < Pow(10, k) && Wraps(dstLength, amount, k) {
      BelowOne(dstLength, amount, k);
    }
  }

  lemma OneDigit()
    ensures Dec(1) == "1"
  {
  }

  lemma ZeroIs(dstLength: nat, k: nat)
    requires k >= 1
    ensures Fixed(0, k) == "0" && !Wraps(dstLength, 0, k)
    ensures Wrote(dstLength, 0, k) == if dstLength < 2 then "" else "0"
  {
    hide Pow;
    assert 0 % Pow(10, k) == 0;
  }

  /** What the definitions above come to below one ... */
  lemma BelowOne(dstLength: nat, amount: nat, k: nat)
    requires k >= 1 && amount < Pow(10, k)
    ensures |Dec(amount)| <= k
    ensures Wraps(dstLength, amount, k) <==> amount != 0 && 2 <= dstLength < 3 + k - |Dec(amount)|
    ensures amount != 0 ==>
      var f, zeros := Fraction(amount, k), ZeroFill(amount, k);
      && zeros < |f| <= k && Fixed(amount, k) == "0." + f
      && Wrote(dstLength, amount, k)
         == if dstLength < 2 then "" else if zeros <= dstLength - 3 < |f| then "0." + Fill(zeros) else "0." + f
  {
    hide Dec, Grouped;
    FixedIs(amount, k);
    if amount != 0 { FractionMeaning(amount, k); }
    DivMod(amount, Pow(10, k));
    WholePart(amount, Pow(10, k));
  }

  /** ... and from one on. */
  lemma FromOne(dstLength: nat, amount: nat, k: nat)
    requires k >= 1 && amount >= Pow(10, k)
    ensures var part, whole := amount % Pow(10, k), Grouped(amount / Pow(10, k));
            && |Dec(part)| <= k
            && (part == 0 ==>
                  && Fixed(amount, k) == whole
                  && Wrote(dstLength, amount, k) == if dstLength < |whole| + 1 then "" else whole)
            && (part != 0 ==>
                  var f, zeros, left := Fraction(part, k), ZeroFill(part, k), dstLength - |whole| - 1;
                  && zeros < |f| && Fixed(amount, k) == whole + "." + f
                  && Wrote(dstLength, amount, k)
                     == if left < 0 then "" else if zeros <= left < |f| then whole + "." + Fill(zeros) else whole + "." + f)
  {
    hide Dec, Grouped, Pow;
    FixedIs(amount, k);
    assert Grouped(amount / Pow(10, k)) + "" == Grouped(amount / Pow(10, k));
  }

  /** A fixed-point number: overflow is reported when text and terminator do not fit, unless the length
      wraps around after a plain zero.  dst is the memory that the buffer of dstLength is part of. */
  method DecimalNumberToDisplay(
    dst: array<char>, at: nat, dstLength: u32, amount: u64, resolution: nat, decimalDigitsLength: byte)
    returns (overflow: bool, len: nat)
    requires decimalDigitsLength >= 1 && resolution == Pow(10, decimalDigitsLength)
    requires at + |Fixed(amount, decimalDigitsLength)| <= dst.Length
    modifies dst
    ensures overflow <==>
      && dstLength < |Fixed(amount, decimalDigitsLength)| + 1
      && !(amount < resolution && Wraps(dstLength, amount, decimalDigitsLength))
    ensures !overflow ==> len == |Fixed(amount, decimalDigitsLength)|
    ensures dst[..] == Written(old(dst[..]), at, Wrote(dstLength, amount, decimalDigitsLength))
    ensures !overflow ==> Wrote(dstLength, amount, decimalDigitsLength) == Fixed(amount, decimalDigitsLength)
  {
    hide Dec, Grouped, Fraction, Pow, Written, Fixed, Wraps, Wrote, Fill;
    ghost var was, k := dst[..], decimalDigitsLength;
    WriteNothing(was, at);
    if amount < resolution { BelowOne(dstLength, amount, k); } else { FromOne(dstLength, amount, k); }
    if amount == 0 { ZeroIs(dstLength, k); }
    if dstLength < 2 {
      return true, 0;
    }
    if amount == 0 {
      WriteOne(was, at, '0');
      dst[at] := '0';
      return false, 1;
    }
    var length := LengthOfNumber(amount);
    if amount < resolution {
      WriteTwo(was, at, '0', '.');
      WriteAfter(was, at, "0.", Fraction(amount, k));
      WriteAfter(was, at, "0.", Fill(ZeroFill(amount, k)));
      dst[at] := '0';
      dst[at + 1] := '.';
      assert dst[..] == was[at := '0'][at + 1 := '.'];
      var left := if dstLength < 3 then dstLength - 3 + SIZE_T_MODULUS else dstLength - 3;
      overflow, len := DecimalDigitsDisplay(dst, at + 2, left, amount, decimalDigitsLength);
      len := len + 2;
      return;
    }
    DecDrop(amount, k);
    var wholeNumberLength := length - decimalDigitsLength;
    var separatorCount := wholeNumberLength / 3;
    if wholeNumberLength % 3 == 0 {
      separatorCount := separatorCount - 1;
    }
    var wholePart := amount / resolution;
    ghost var whole := Grouped(wholePart);
    assert wholeNumberLength + separatorCount == |whole|;
    if dstLength < wholeNumberLength + separatorCount + 1 {
      return true, 0;
    }
    WriteGrouped(dst, at, wholePart, wholeNumberLength, separatorCount);
    var offset := wholeNumberLength + separatorCount;

    var decimalPart := amount % resolution;
    if decimalPart != 0 {
      ghost var f, zeros := Fraction(decimalPart, k), Fill(ZeroFill(decimalPart, k));
      WriteAfter(was, at, whole, ".");
      WriteAfter(was, at, whole + ".", f);
      WriteAfter(was, at, whole + ".", zeros);
      WriteOne(dst[..], at + offset, '.');
      dst[at + offset] := '.';
      offset := offset + 1;
      var used;
      overflow, used := DecimalDigitsDisplay(dst, at + offset, dstLength - offset, decimalPart, decimalDigitsLength);
      if overflow {
        return true, 0;
      }
      offset := offset + used;
    }
    if dstLength < offset + 1 {
      return true, 0;
    }
    return false, offset;
  }

  // ------------------------------------------------------------------ percentages and amounts

  /** Hundred-thousandths as a percentage. */
  function PercentText(number: nat): (r: string) {
    Fixed(number, 3) + "%"
  }

  /** Millionths of a CCD as an amount. */
  function AmountText(microAmount: nat): (r: string) {
    "CCD " + Fixed(microAmount, 6)
  }

  lemma FixedLength(amount: nat, k: nat, wholeDigits: nat)
    requires k >= 1 && wholeDigits >= 1 && amount / Pow(10, k) < Pow(10, wholeDigits)
    ensures |Fixed(amount, k)| <= wholeDigits + (wholeDigits - 1) / 3 + (if amount % Pow(10, k) == 0 then 0 else k + 1)
  {
    hide Dec, Fraction, Pow, Grouped, Fixed;
    var q, part := amount / Pow(10, k), amount % Pow(10, k);
    FixedShape(amount, k);
    DecShort(q, wholeDigits);
    if part > 0 { FractionMeaning(part, k); }
  }

  lemma PowersOfTen()
    ensures Pow(10, 2) == 100 && Pow(10, 3) == 1000 && Pow(10, 6) == 1000000 && Pow(10, 14) == 100000000000000
  {
    PowAdd(10, 2, 1);
    PowAdd(10, 3, 3);
    PowAdd(10, 6, 6);
    PowAdd(10, 12, 2);
  }

  /** Every 64-bit amount fits the 30-byte buffers, terminator included. */
  lemma AmountFits(microAmount: u64)
    ensures |AmountText(microAmount)| + 1 <= 30
  {
    PowersOfTen();
    FixedLength(microAmount, 6, 14);
  }

  /** Every percentage fits the 8-byte buffers. */
  lemma PercentFits(number: nat)
    requires number <= 100000
    ensures |PercentText(number)| + 1 <= 8
  {
    PowersOfTen();
    if number == 100000 { FixedLength(number, 3, 3); } else { FixedLength(number, 3, 2); }
  }

  lemma AmountRoundTrip(microAmount: nat)
    ensures ReadFixed(AmountText(microAmount)[4..], 6) == microAmount
  {
    FixedRoundTrip(microAmount, 6);
    assert AmountText(microAmount)[4..] == Fixed(microAmount, 6);
  }

  lemma PercentRoundTrip(number: nat)
    ensures ReadFixed(PercentText(number)[..|PercentText(number)| - 1], 3) == number
  {
    FixedRoundTrip(number, 3);
    assert PercentText(number)[..|PercentText(number)| - 1] == Fixed(number, 3);
  }

  /** fractionToPercentageDisplay into the 8-byte buffers of its callers. */
  method FractionToPercentageDisplay(dst: array<char>, dstLength: nat, number: u32)
    returns (invalid: bool, overflow: bool, len: nat)
    requires dstLength == 8 <= dst.Length
    modifies dst
    ensures invalid <==> number > 100000
    ensures !overflow
    ensures !invalid ==> len == |PercentText(number)| + 1 <= 8 && dst[..len] == PercentText(number) + [NUL]
    ensures !invalid ==> dst[len..] == old(dst[len..])
  {
    if number > 100000 {
      return true, false, 0;
    }
    hide Fixed, Pow;
    PowersOfTen();
    PercentFits(number);
    var offset;
    overflow, offset := DecimalNumberToDisplay(dst, 0, dstLength, number, 1000, 3);
    dst[offset] := '%';
    dst[offset + 1] := NUL;
    invalid, len := false, offset + 2;
  }

  /** amountToGtuDisplay into the 30-byte buffers of its callers.  The inner call is handed the full
      length although four characters are taken already; no amount is long enough for that to matter. */
  method AmountToGtuDisplay(dst: array<char>, dstLength: nat, microGtuAmount: u64)
    returns (overflow: bool, len: nat)
    requires dstLength == 30 <= dst.Length
    modifies dst
    ensures !overflow
    ensures len == |AmountText(microGtuAmount)| + 1 <= 30
    ensures dst[..len] == AmountText(microGtuAmount) + [NUL]
    ensures dst[len..] == old(dst[len..])
  {
    hide Fixed, Pow;
    PowersOfTen();
    AmountFits(microGtuAmount);
    dst[0], dst[1], dst[2], dst[3] := 'C', 'C', 'D', ' ';
    var offset;
    overflow, offset := DecimalNumberToDisplay(dst, 4, dstLength, microGtuAmount, 1000000, 6);
    offset := offset + 4;
    dst[offset] := NUL;
    len := offset + 1;
  }
}
