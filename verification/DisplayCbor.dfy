/** src/displayCbor.c: memos, read as CBOR data items (sections 3 and 3.1 of RFC 8949). */
module DisplayCbor {
  import opened Bytes
  import opened Device
  import BigEndian
  import opened DecimalText
  import opened Positional
  import opened NumberHelpers
  import opened Displays
  import opened Screens

  // ------------------------------------------------------------------ data items

  datatype Item = Integer(value: int) | Text(text: bytes)

  /** The bytes that an argument takes after the initial byte, by the low five bits of that byte. */
  function ArgumentSize(initial: byte): (r: Option<nat>)
    ensures r.Some? ==> r.value <= 8
  {
    var short := initial % 32;
    if short < 24 then Some(0)
    else if short == 24 then Some(1)
    else if short == 25 then Some(2)
    else if short == 26 then Some(4)
    else if short == 27 then Some(8)
    else None
  }

  function Argument(b: bytes): (r: u64)
    requires |b| >= 1 && ArgumentSize(b[0]).Some? && |b| >= 1 + ArgumentSize(b[0]).value
  {
    match ArgumentSize(b[0]).value
    case 0 => b[0] % 32
    case 1 => b[1]
    case 2 => U2BE(b, 1)
    case 4 => U4BE(b, 1)
    case _ => U8BE(b, 1)
  }

  /** The item that a byte string encodes, for major types 0 (integer n), 1 (integer -1-n) and 3 (text). */
  function Decode(b: bytes): (r: Option<Item>)
  {
    if b == [] || ArgumentSize(b[0]).None? || |b| < 1 + ArgumentSize(b[0]).value then None
    else
      var start, n := 1 + ArgumentSize(b[0]).value, Argument(b);
      if b[0] / 32 == 0 && |b| == start then Some(Integer(n))
      else if b[0] / 32 == 1 && |b| == start then Some(Integer(-1 - n))
      else if b[0] / 32 == 3 && |b| == start + n then Some(Text(b[start..]))
      else None
  }

  /** The encodings of a major type and an argument, as section 3 of RFC 8949 has them: an argument below 24
      in the initial byte, any other in the one, two, four or eight bytes behind it. */
  ghost predicate EncodesHead(head: bytes, majorType: nat, n: nat) {
    || (|head| == 1 && n < 24 && head[0] == majorType * 32 + n)
    || (|head| == 2 && head[0] == majorType * 32 + 24 && n == Value(256, head[1..]))
    || (|head| == 3 && head[0] == majorType * 32 + 25 && n == Value(256, head[1..]))
    || (|head| == 5 && head[0] == majorType * 32 + 26 && n == Value(256, head[1..]))
    || (|head| == 9 && head[0] == majorType * 32 + 27 && n == Value(256, head[1..]))
  }

  /** ... and of integers and texts. */
  ghost predicate Encodes(b: bytes, item: Item) {
    match item
    case Integer(v) => EncodesHead(b, if v >= 0 then 0 else 1, if v >= 0 then v else -1 - v)
    case Text(text) => |text| <= |b| && b[|b| - |text|..] == text && EncodesHead(b[..|b| - |text|], 3, |text|)
  }

  /** Size and argument are those of the head at the start; the short counts from 28 on are no size. */
  lemma HeadRead(b: bytes)
    requires b != []
    ensures ArgumentSize(b[0]).None? <==> b[0] % 32 >= 28
    ensures ArgumentSize(b[0]).Some? && |b| >= 1 + ArgumentSize(b[0]).value ==>
      EncodesHead(b[..1 + ArgumentSize(b[0]).value], b[0] / 32, Argument(b))
  {
    if ArgumentSize(b[0]).Some? && |b| >= 1 + ArgumentSize(b[0]).value {
      var head := b[..1 + ArgumentSize(b[0]).value];
      assert head[1..] == b[1..|head|];
      hide Value, U2BE, U4BE, U8BE;
      if |head| == 2 {
        ValueOfOne(256, b[1]);
        assert head[1..] == [b[1]];
      } else if |head| == 3 {
        BigEndian.Read2(b, 1);
      } else if |head| == 5 {
        BigEndian.Read4(b, 1);
      } else if |head| == 9 {
        BigEndian.Read8(b, 1);
      }
    }
  }

  /** A head can be read in one way only. */
  lemma HeadIs(head: bytes, majorType: nat, n: nat, rest: bytes)
    requires EncodesHead(head, majorType, n)
    ensures var b := head + rest;
            b[0] / 32 == majorType && ArgumentSize(b[0]) == Some(|head| - 1) && Argument(b) == n
  {
    var b := head + rest;
    assert b[0] == head[0] && b[..|head|] == head;
    hide Value, U2BE, U4BE, U8BE;
    HeadRead(b);
  }

  /** Decode reads exactly the encodings. */
  lemma DecodeExactly(b: bytes, item: Item)
    ensures Decode(b) == Some(item) <==> Encodes(b, item)
  {
    hide EncodesHead, ArgumentSize, Argument;
    if b != [] { HeadRead(b); }
    if Decode(b) == Some(item) {
      var start := 1 + ArgumentSize(b[0]).value;
      assert b[..|b|] == b;
      if item.Text? { assert b[start..] == item.text && |b| - |item.text| == start; }
    }
    if Encodes(b, item) {
      EncodedDecodes(b, item);
    }
  }

  lemma EncodedDecodes(b: bytes, item: Item)
    requires Encodes(b, item)
    ensures Decode(b) == Some(item)
  {
    hide EncodesHead, ArgumentSize, Argument;
    match item
    case Integer(v) =>
      HeadIs(b, if v >= 0 then 0 else 1, if v >= 0 then v else -1 - v, []);
      assert b + [] == b;
    case Text(text) =>
      var head := b[..|b| - |text|];
      HeadIs(head, 3, |text|, text);
      assert head + text == b;
  }

  // ------------------------------------------------------------------ the texts of integers

  const U64_MAX := 0xffff_ffff_ffff_ffff

  /** The text shown for major types 0 and 1 with argument n. */
  function IntegerText(majorType: byte, n: u64): (r: string)
  {
    if majorType == 0 then Dec(n)
    else if n == U64_MAX then "-" + Dec(n) + " - 1"
    else "-" + Dec(1 + n)
  }

  /** Evaluates a shown integer: an optional sign, digits, and possibly a subtraction of one. */
  function Evaluate(s: string): (r: int)
  {
    if |s| >= 5 && s[0] == '-' && s[|s| - 4..] == " - 1" then -Read(s[1..|s| - 4]) - 1
    else if s != [] && s[0] == '-' then -Read(s[1..])
    else Read(s)
  }

  /** The text of every integer that fits the encoding evaluates to it. */
  lemma IntegerTextMeaning(majorType: byte, n: u64)
    requires majorType <= 1
    ensures Evaluate(IntegerText(majorType, n)) == if majorType == 0 then n as int else -1 - n
  {
    var m := if majorType == 0 || n == U64_MAX then n as int else 1 + n;
    ReadDec(m);
    DecDigits(m);
    hide Dec, Read;
    EvaluateDigits(Dec(m));
    EvaluateNegative(Dec(m));
  }

  lemma EvaluateDigits(d: string)
    requires d != [] && d[0] != '-'
    ensures Evaluate(d) == Read(d)
  {
    hide Read;
  }

  lemma EvaluateNegative(d: string)
    requires d != [] && forall i | 0 <= i < |d| :: d[i] != ' '
    ensures Evaluate("-" + d) == -Read(d)
    ensures Evaluate("-" + d + " - 1") == -Read(d) - 1
  {
    hide Read;
    var s := "-" + d;
    assert s[1..] == d;
    if |s| >= 5 {
      assert s[|s| - 4..][0] == d[|d| - 4];
    }
    var t := "-" + d + " - 1";
    assert t[|t| - 4..] == " - 1" && t[1..|t| - 4] == d;
  }

  /** What is written for them: a terminator follows, but not after the subtraction, whose last
      character takes its place. */
  function IntegerBytes(majorType: byte, n: u64): (r: string)
    ensures |r| <= 25
  {
    U64Digits(n);
    U64Digits(if n < U64_MAX then 1 + n else n);
    IntegerText(majorType, n) + (if majorType != 0 && n == U64_MAX then "" else [NUL])
  }

  // ------------------------------------------------------------------ reading a memo

  /** A memo that is being read: bytes still to come (as the uint32 counter has it), the major type,
      and what has been written to the start of the display buffer. */
  datatype Memo = Memo(remaining: u32, majorType: byte, copied: string)

  const U32 := 0x1_0000_0000

  /** The memory after a memo has been written over what it held. */
  function Holding(stale: Memory, copied: string): (r: Memory)
    requires |copied| <= 510
  {
    Written(stale, 0, copied)
  }

  /** What lies behind the buffer: majorType, and then what is behind it.  A copy that overruns the buffer
      changes both, after majorType has been read for the last time. */
  function Behind(memory: Memory, majorType: byte): (r: string) {
    [majorType as char] + memory[DISPLAY_SIZE + 1..]
  }

  /** The text of the memo step. */
  function MemoText(stale: Memory, m: Memo): (r: string)
    requires |m.copied| <= 510
  {
    CText(Holding(stale, m.copied)[..DISPLAY_SIZE] + Behind(Holding(stale, m.copied), m.majorType))
  }

  /** readCborInitial for a memo of the declared length. */
  function StartMemo(declared: u32, data: Cdata, length: byte): (r: Outcome<Memo>)
    ensures r.Ok? ==> |r.value.copied| <= 255
    ensures r.Ok? ==> r.value.majorType == 3 || (r.value.majorType <= 1 && r.value.remaining == 0)
  {
    if data[0] % 32 == 31 then Throw(UnsupportedCbor)
    else if ArgumentSize(data[0]).None? then Throw(InvalidParam)
    else
      var size, n, majorType := ArgumentSize(data[0]).value, Argument(data), data[0] / 32;
      var left := (declared - 1 - size) % U32;
      if majorType <= 1 then
        if left != 0 then Throw(InvalidState) else Ok(Memo(0, majorType, IntegerBytes(majorType, n)))
      else if majorType == 3 then
        if left != n then Throw(InvalidState)
        else
          // An unsigned subtraction in eight bits.
          var content := (length - 1 - size) % 0x100;
          Ok(Memo((left - content) % U32, 3, Chars(data[1 + size..1 + size + content])))
      else Throw(UnsupportedCbor)
  }

  /** readCborContent */
  function ContinueMemo(m: Memo, content: bytes): (r: Outcome<Memo>)
    ensures r.Ok? ==> |r.value.copied| == |m.copied| + |content|
  {
    if m.majorType == 3 then Ok(Memo((m.remaining - |content|) % U32, 3, m.copied + Chars(content)))
    else if m.majorType <= 1 then Throw(UnsupportedCbor)
    else Throw(InvalidState)
  }

  class CborContext {
    var cborLength: u32
    var displayUsed: u32
    /** The display buffer, which is its first 255 bytes. */
    const display: array<char>
    var majorType: byte
    /** What the memory held when the memo was begun. */
    ghost var stale: Memory

    constructor ()
      ensures display.Length == 510 && fresh(display)
    {
      display := new char[510];
    }

    ghost predicate Holds(m: Memo)
      reads this, display
      ensures Holds(m) ==> display.Length == 510 && |m.copied| <= 510 && cborLength == m.remaining
    {
      && display.Length == 510 && |m.copied| <= 510
      && cborLength == m.remaining && majorType == m.majorType
      && display[..] == Holding(stale, m.copied)
      && (m.majorType == 3 ==> displayUsed == |m.copied|)
    }

    /** What the memo step prints. */
    method Shown(ghost m: Memo) returns (text: string)
      requires Holds(m)
      ensures text == MemoText(stale, m)
    {
      text := CText(display[..DISPLAY_SIZE] + Behind(display[..], majorType));
    }

    method ReadCborInitial(cdata: Cdata, dataLength: byte) returns (r: Outcome<()>)
      requires display.Length == 510
      modifies this, display
      ensures stale == old(display[..]) && display[DISPLAY_SIZE..] == old(display[DISPLAY_SIZE..])
      ensures match StartMemo(old(cborLength), cdata, dataLength)
              case Throw(e) => r == Throw(e)
              case Ok(m) => r == Ok(()) && Holds(m)
    {
      hide Dec, ArgumentSize, Argument, Written, IntegerBytes, Holding;
      cborLength := (cborLength - 1) % U32;
      majorType := cdata[0] / 32;
      stale := display[..];
      displayUsed := 0;
      var argument :- ReadArgument(cdata);
      var sizeLength, length := argument.0, argument.1;
      WrapTwice(old(cborLength), sizeLength);
      cborLength := (cborLength - sizeLength) % U32;
      r := ReadValue(cdata, dataLength, sizeLength, length);
    }

    /** The size and value of the argument, by the short count. */
    method ReadArgument(cdata: Cdata) returns (r: Outcome<(byte, u64)>)
      ensures r == if cdata[0] % 32 == 31 then Throw(UnsupportedCbor)
                   else if ArgumentSize(cdata[0]).None? then Throw(InvalidParam)
                   else Ok((ArgumentSize(cdata[0]).value, Argument(cdata)))
      ensures r.Throw? <==> cdata[0] % 32 >= 28
      ensures r.Ok? ==> r.value.0 <= 8 && EncodesHead(cdata[..1 + r.value.0], cdata[0] / 32, r.value.1)
    {
      hide EncodesHead, U2BE, U4BE, U8BE;
      HeadRead(cdata);
      var shortCount := cdata[0] % 32;
      if shortCount < 24 {
        r := Ok((0, shortCount));
      } else if shortCount == 24 {
        r := Ok((1, cdata[1]));
      } else if shortCount == 25 {
        r := Ok((2, U2BE(cdata, 1)));
      } else if shortCount == 26 {
        r := Ok((4, U4BE(cdata, 1)));
      } else if shortCount == 27 {
        r := Ok((8, U8BE(cdata, 1)));
      } else if shortCount == 31 {
        r := Throw(UnsupportedCbor);
      } else {
        r := Throw(InvalidParam);
      }
    }

    /** The texts of integers, written into the buffer. */
    method WriteInteger(length: u64)
      requires majorType <= 1 && display.Length == 510
      modifies display
      ensures display[..] == Written(old(display[..]), 0, IntegerBytes(majorType, length))
    {
      hide Dec, Written;
      ghost var was := display[..];
      U64Digits(length);
      if majorType == 0 {
        var overflow, _ := Bin2Dec(display, 0, 255, length);
      } else {
        WriteOne(was, 0, '-');
        display[0] := '-';
        if length == U64_MAX {
          U64MaxDigits();
          var overflow, _ := Bin2Dec(display, 1, 254, length);
          WriteAfter(was, 0, "-", Dec(length) + [NUL]);
          Overwrite(was, "-" + Dec(length), [NUL], " - 1");
          PutFour(display, 21, " - 1");
          assert "-" + (Dec(length) + [NUL]) == "-" + Dec(length) + [NUL];
          assert "-" + Dec(length) + " - 1" + "" == "-" + Dec(length) + " - 1";
        } else {
          U64Digits(1 + length);
          var overflow, _ := Bin2Dec(display, 1, 254, 1 + length);
          WriteAfter(was, 0, "-", Dec(1 + length) + [NUL]);
          assert "-" + (Dec(1 + length) + [NUL]) == "-" + Dec(1 + length) + [NUL];
        }
      }
    }

    /** The switch on the major type. */
    method ReadValue(cdata: Cdata, dataLength: byte, sizeLength: byte, length: u64) returns (r: Outcome<()>)
      requires sizeLength <= 8 && displayUsed == 0 && display.Length == 510 && stale == display[..]
      modifies this`cborLength, this`displayUsed, display
      ensures display[DISPLAY_SIZE..] == old(display[DISPLAY_SIZE..])
      ensures majorType <= 1 ==>
        if old(cborLength) != 0 then r == Throw(InvalidState)
        else r == Ok(()) && Holds(Memo(0, majorType, IntegerBytes(majorType, length)))
      ensures majorType == 3 ==>
        var content := (dataLength - 1 - sizeLength) % 0x100;
        if old(cborLength) != length then r == Throw(InvalidState)
        else r == Ok(()) && Holds(Memo((old(cborLength) - content) % U32, 3,
                                       Chars(cdata[1 + sizeLength..1 + sizeLength + content])))
      ensures majorType != 0 && majorType != 1 && majorType != 3 ==> r == Throw(UnsupportedCbor)
    {
      hide Dec, IntegerBytes, Chars, MemoText, CText, Written;
      if majorType <= 1 {
        BehindInteger(stale, IntegerBytes(majorType, length));
        WriteInteger(length);
        if cborLength != 0 {
          return Throw(InvalidState);
        }
      } else if majorType == 3 {
        if cborLength != length {
          return Throw(InvalidState);
        }
        EmptyCopy(stale);
        ghost var content := Chars(cdata[1 + sizeLength..1 + sizeLength + (dataLength - 1 - sizeLength) % 0x100]);
        assert "" + content == content;
        r := ReadCborContent(cdata, 1 + sizeLength, (dataLength - 1 - sizeLength) % 0x100, Memo(cborLength, 3, ""));
        return;
      } else {
        return Throw(UnsupportedCbor);
      }
      return Ok(());
    }

    /** Nothing keeps the copy inside the buffer; it reaches as far as displayUsed + contentLength. */
    method ReadCborContent(cdata: Cdata, at: nat, contentLength: byte, ghost m: Memo) returns (r: Outcome<()>)
      requires at + contentLength <= 264 && Holds(m) && |m.copied| <= 255
      modifies this`cborLength, this`displayUsed, display
      ensures match ContinueMemo(m, cdata[at..at + contentLength])
              case Throw(e) => r == Throw(e) && display[..] == old(display[..])
              case Ok(n) => r == Ok(()) && Holds(n)
      ensures |m.copied| + contentLength <= DISPLAY_SIZE ==> display[DISPLAY_SIZE..] == old(display[DISPLAY_SIZE..])
    {
      hide Written;
      CopiedInside(stale, m.copied, Chars(cdata[at..at + contentLength]));
      cborLength := (cborLength - contentLength) % U32;
      if majorType == 3 {
        CopyContent(cdata, at, contentLength);
        WriteAfter(stale, 0, m.copied, Chars(cdata[at..at + contentLength]));
        displayUsed := displayUsed + contentLength;
        return Ok(());
      } else if majorType <= 1 {
        return Throw(UnsupportedCbor);
      } else {
        return Throw(InvalidState);
      }
    }

    /** The memmove. */
    method CopyContent(cdata: Cdata, at: nat, contentLength: byte)
      requires at + contentLength <= 264 && displayUsed + contentLength <= display.Length
      modifies display
      ensures display[..] == Written(old(display[..]), displayUsed, Chars(cdata[at..at + contentLength]))
    {
      forall i | 0 <= i < contentLength {
        display[displayUsed + i] := cdata[at + i] as char;
      }
      assert display[displayUsed..displayUsed + contentLength] == Chars(cdata[at..at + contentLength]);
    }
  }

  lemma CopiedInside(stale: Memory, copied: string, text: string)
    requires |copied| <= 255 && |text| <= 255
    ensures |copied + text| <= DISPLAY_SIZE ==>
      Holding(stale, copied + text)[DISPLAY_SIZE..] == Holding(stale, copied)[DISPLAY_SIZE..]
  {
  }

  lemma BehindInteger(stale: Memory, text: string)
    requires |text| <= 25
    ensures Written(stale, 0, text)[DISPLAY_SIZE..] == stale[DISPLAY_SIZE..]
  {
  }

  lemma EmptyCopy(stale: Memory)
    ensures Holding(stale, "") == stale
  {
  }

  method PutFour(dst: array<char>, at: nat, text: string)
    requires |text| == 4 && at + 4 <= dst.Length
    modifies dst
    ensures dst[..] == Written(old(dst[..]), at, text)
  {
    dst[at], dst[at + 1], dst[at + 2], dst[at + 3] := text[0], text[1], text[2], text[3];
    assert dst[at..at + 4] == text;
  }

  lemma Overwrite(s: string, t: string, u: string, v: string)
    requires |t| + |u| <= |s| && |t| + |v| <= |s| && |u| <= |v|
    ensures Written(Written(s, 0, t + u), |t|, v) == Written(s, 0, t + v)
  {
  }

  lemma U64MaxDigits()
    ensures |Dec(U64_MAX)| == 20
  {
    PowersOfTen();
    PowAdd(10, 14, 5);
    PowAdd(10, 3, 2);
    DecDrop(U64_MAX, 19);
  }

  lemma WrapTwice(n: u32, k: nat)
    requires k <= 8
    ensures ((n - 1) % U32 - k) % U32 == (n - 1 - k) % U32
  {
  }

  lemma U64Digits(n: u64)
    ensures |Dec(n)| <= 20
  {
    PowersOfTen();
    PowAdd(10, 14, 6);
    DecShort(n, 20);
  }

  // ------------------------------------------------------------------ what an accepted memo is

  /** A memo in transit: the declared length, the first packet's length, the size of the argument, the
      bytes hashed, and what has been read. */
  datatype Transit = Transit(declared: u16, first: byte, size: nat, hashed: bytes, memo: Memo)

  function BeginTransit(declared: u16, data: Cdata, length: byte): (r: Outcome<Transit>)
  {
    var m :- StartMemo(declared, data, length);
    Ok(Transit(declared, length, ArgumentSize(data[0]).value, data[..length], m))
  }

  function ContinueTransit(t: Transit, data: Cdata, length: byte): (r: Outcome<Transit>)
  {
    var m :- ContinueMemo(t.memo, data[..length]);
    Ok(t.(hashed := t.hashed + data[..length], memo := m))
  }

  /** What a first packet without the whole header adds to the length left of it, in eight bits. */
  function Shift(t: Transit): (r: nat) {
    if t.first <= t.size then 256 else 0
  }

  /** The counter is exact but for the shift, and the text after the header is in the buffer. */
  ghost predicate TransitOk(t: Transit) {
    && t.size <= 8 && |t.hashed| >= t.first && t.declared <= 256
    && (t.memo.majorType == 3 ==>
          && t.memo.remaining == (t.declared - |t.hashed| - Shift(t)) % U32
          && |t.memo.copied| == |t.hashed| - 1 - t.size + Shift(t)
          && (t.size == 0 ==> (t.declared - 1) % U32 < 24)
          && (t.first > t.size ==>
                && t.hashed[0] / 32 == 3 && ArgumentSize(t.hashed[0]) == Some(t.size)
                && Argument(t.hashed) == (t.declared - 1 - t.size) % U32
                && t.memo.copied == Chars(t.hashed[1 + t.size..])))
    && (t.memo.majorType != 3 ==> IntegerTransit(t))
  }

  /** The sizes that an argument can have. */
  predicate SizeOk(size: nat) {
    size == 0 || size == 1 || size == 2 || size == 4 || size == 8
  }

  ghost predicate IntegerTransit(t: Transit) {
    && t.memo.majorType <= 1 && t.memo.remaining == 0 && t.declared == 1 + t.size && |t.hashed| == t.first
    && |t.memo.copied| <= 25 && SizeOk(t.size)
    && (t.first >= 1 ==> ArgumentSize(t.hashed[0]) == Some(t.size) && t.hashed[0] / 32 == t.memo.majorType)
    && (t.first == t.declared ==>
          && t.memo.copied == IntegerBytes(t.memo.majorType, Argument(t.hashed)))
  }

  lemma ArgumentPrefix(b: bytes, n: nat)
    requires 1 <= n <= |b| && ArgumentSize(b[0]).Some? && n >= 1 + ArgumentSize(b[0]).value
    ensures Argument(b[..n]) == Argument(b)
  {
  }

  lemma CharsAppend(a: bytes, b: bytes)
    ensures Chars(a + b) == Chars(a) + Chars(b)
  {
  }

  lemma SmallArgument(b: bytes)
    requires |b| >= 1 && ArgumentSize(b[0]) == Some(0)
    ensures Argument(b) < 24
  {
  }

  lemma WrapMinus(x: int, k: nat)
    ensures (x % U32 - k) % U32 == (x - k) % U32
  {
  }

  lemma ArgumentSizes(initial: byte)
    ensures ArgumentSize(initial).Some? ==>
      ArgumentSize(initial).value <= 8 && SizeOk(ArgumentSize(initial).value) && initial % 32 != 31
  {
  }

  lemma BeginTransitOk(declared: u16, data: Cdata, length: byte)
    requires declared <= 256 && BeginTransit(declared, data, length).Ok?
    ensures TransitOk(BeginTransit(declared, data, length).value)
  {
    hide IntegerBytes, Argument, Chars;
    if ArgumentSize(data[0]) == Some(0) { SmallArgument(data); }
    hide ArgumentSize;
    var t := BeginTransit(declared, data, length).value;
    ArgumentSizes(data[0]);
    assert length >= 1 ==> t.hashed[0] == data[0];
    if length > t.size {
      ArgumentPrefix(data, length);
      assert t.hashed[1 + t.size..] == data[1 + t.size..length];
    }
    Contents(length, t.size);
    if t.memo.majorType == 3 {
      Wrap(declared, t.size, length);
    } else {
      ExactLength(declared, t.size);
    }
  }

  lemma Contents(length: byte, size: nat)
    requires size <= 8
    ensures (length - 1 - size) % 0x100 == length - 1 - size + (if length <= size then 256 else 0)
  {
  }

  lemma ExactLength(declared: nat, size: nat)
    requires declared <= 256 && size <= 8
    ensures (declared - 1 - size) % U32 == 0 <==> declared == 1 + size
  {
  }

  lemma Wrap(declared: nat, size: nat, length: nat)
    requires declared <= 256 && size <= 8 && length < 256
    ensures var content := (length - 1 - size) % 0x100;
            ((declared - 1 - size) % U32 - content) % U32
            == (declared - length - (if length <= size then 256 else 0)) % U32
  {
    var content := (length - 1 - size) % 0x100;
    assert content == length - 1 - size + (if length <= size then 256 else 0);
  }

  lemma ContinueTransitOk(t: Transit, data: Cdata, length: byte)
    requires TransitOk(t) && ContinueTransit(t, data, length).Ok?
    ensures TransitOk(ContinueTransit(t, data, length).value)
  {
    hide IntegerBytes, ArgumentSize, Argument, Chars;
    var u := ContinueTransit(t, data, length).value;
    WrapMinus(t.declared - |t.hashed| - Shift(t), length);
    if t.first > t.size {
      ArgumentPrefix(u.hashed, |t.hashed|);
      assert u.hashed[..|t.hashed|] == t.hashed;
      CharsAppend(t.hashed[1 + t.size..], data[..length]);
      assert u.hashed[1 + t.size..] == t.hashed[1 + t.size..] + data[..length];
    }
  }

  /** At most two packets are used, so that many bytes can have been hashed. */
  ghost predicate Received(t: Transit) {
    TransitOk(t) && t.memo.remaining == 0 && |t.hashed| <= 2 * 255
  }

  /** A text memo that has been taken as complete is one text string of the declared length, copied
      whole and inside the buffer -- provided that its first packet was not empty. */
  lemma ReceivedText(t: Transit)
    requires Received(t) && t.memo.majorType == 3 && t.first >= 1
    ensures |t.hashed| == t.declared >= 1 + t.size
    ensures Decode(t.hashed) == Some(Text(t.hashed[1 + t.size..]))
    ensures t.memo.copied == Chars(t.hashed[1 + t.size..]) && |t.memo.copied| <= 254
  {
    if t.size == 0 { SmallArgument(t.hashed); }
    hide Argument, ArgumentSize;
    assert t.first > t.size;
    assert t.declared >= 1 + t.size;
  }

  /** No accepted memo reaches beyond the buffer. */
  lemma ReceivedInside(t: Transit)
    requires Received(t)
    ensures |t.memo.copied| <= 254
  {
    hide Argument, ArgumentSize, Chars, IntegerBytes;
  }

  /** With an empty first packet the counter can reach zero although nothing has been hashed, namely
      exactly for a declared length of 256; so emptiness decides. */
  lemma TextLengthExact(t: Transit)
    requires Received(t) && t.memo.majorType == 3
    ensures |t.hashed| == t.declared <==> t.first >= 1
    ensures t.first == 0 ==> t.declared == 256 && t.hashed == []
  {
    if t.first >= 1 { ReceivedText(t); }
  }

  /** Such a memo: the packet is empty, the header is whatever the buffer holds. */
  lemma EmptyFirstPacket()
    ensures var data: Cdata := [0x78, 254] + seq(262, i => 65);
            var t := BeginTransit(256, data, 0);
            t.Ok? && t.value.memo.remaining == 0 && t.value.hashed == [] && |t.value.memo.copied| == 254
  {
    var data: Cdata := [0x78, 254] + seq(262, i => 65);
    assert ArgumentSize(0x78) == Some(1) && Argument(data) == 254;
  }

  /** An integer memo is complete after its first packet.  What was hashed is what was declared
      exactly when the packet had the declared length, and then its value is what was written. */
  lemma ReceivedInteger(t: Transit)
    requires Received(t) && t.memo.majorType != 3
    ensures |t.hashed| == t.declared <==> t.first == t.declared
    ensures t.first == t.declared ==>
      var n := Argument(t.hashed);
      && t.memo.copied == IntegerBytes(t.memo.majorType, n)
      && Decode(t.hashed) == Some(Integer(Evaluate(IntegerText(t.memo.majorType, n))))
  {
    if t.first == t.declared {
      IntegerTextMeaning(t.memo.majorType, Argument(t.hashed));
    }
  }

  /** The integer 5, declared as one byte, in a packet of 200: accepted, and 200 bytes are hashed. */
  lemma LongIntegerPacket()
    ensures var data: Cdata := [5] + seq(263, i => 65);
            var t := BeginTransit(1, data, 200);
            t.Ok? && t.value.memo.remaining == 0 && t.value.declared == 1 && |t.value.hashed| == 200
  {
    var data: Cdata := [5] + seq(263, i => 65);
    assert ArgumentSize(5) == Some(0) && Argument(data) == 5;
  }

  // ------------------------------------------------------------------ what the memo step shows

  /** The memo step starts with what was copied, up to a zero byte; it shows a text exactly if and only
      if the text holds no zero byte and the byte behind it, left from before, is zero. */
  lemma TextShown(stale: Memory, m: Memo)
    requires |m.copied| <= 254
    ensures MemoText(stale, m) == m.copied <==> NUL !in m.copied && stale[|m.copied|] == NUL
    ensures NUL !in m.copied ==> m.copied <= MemoText(stale, m)
  {
    var behind := Behind(Holding(stale, m.copied), m.majorType);
    var after := stale[|m.copied|..DISPLAY_SIZE] + behind;
    assert Holding(stale, m.copied)[..DISPLAY_SIZE] + behind == m.copied + after;
    ShownExactly(m.copied, after);
    if NUL !in m.copied { ShownOtherwise(m.copied, after); }
  }

  /** Without a zero byte in the buffer, majorType shows behind it. */
  lemma FilledDisplay(stale: Memory, m: Memo)
    requires |m.copied| <= 254 && m.majorType == 3 && NUL !in Holding(stale, m.copied)[..DISPLAY_SIZE]
    ensures var memory := Holding(stale, m.copied);
            MemoText(stale, m) == memory[..DISPLAY_SIZE] + [3 as char] + CText(memory[DISPLAY_SIZE + 1..])
  {
    var memory := Holding(stale, m.copied);
    ShownOtherwise(memory[..DISPLAY_SIZE], Behind(memory, 3));
    ShownOtherwise([3 as char], memory[DISPLAY_SIZE + 1..]);
  }

  /** Behind a shorter text the rest of an earlier one shows. */
  lemma StaleTail(stale: Memory, earlier: string, m: Memo)
    requires NUL !in earlier && NUL !in m.copied && |m.copied| < |earlier| <= 254
    ensures earlier[|m.copied|..] <= MemoText(Holding(stale, earlier), m)[|m.copied|..]
    ensures m.copied <= MemoText(Holding(stale, earlier), m) != m.copied
  {
    var k := |m.copied|;
    var behind := Behind(Holding(Holding(stale, earlier), m.copied), m.majorType);
    var rest := stale[|earlier|..DISPLAY_SIZE] + behind;
    assert Holding(Holding(stale, earlier), m.copied)[..DISPLAY_SIZE] + behind == m.copied + (earlier[k..] + rest);
    ShownOtherwise(m.copied, earlier[k..] + rest);
    ShownOtherwise(earlier[k..], rest);
    TextShown(Holding(stale, earlier), m);
  }

  /** For instance five letters after a hundred. */
  lemma HelloAfterAHundred(stale: Memory)
    requires stale[100] == NUL
    ensures var earlier := seq(100, i => 'A');
            MemoText(Holding(stale, earlier), Memo(0, 3, "HELLO")) == "HELLO" + seq(95, i => 'A')
  {
    var earlier := seq(100, i => 'A');
    var shown := "HELLO" + seq(95, i => 'A');
    var behind := Behind(Holding(Holding(stale, earlier), "HELLO"), 3);
    var after := stale[100..DISPLAY_SIZE] + behind;
    assert Holding(Holding(stale, earlier), "HELLO")[..DISPLAY_SIZE] + behind == shown + after;
    ShownExactly(shown, after);
  }

  /** An integer is shown exactly, except that for -2^64 the byte behind the text has to be zero. */
  lemma IntegerShown(stale: Memory, majorType: byte, n: u64)
    requires majorType <= 1
    ensures var lastOne := majorType == 1 && n == U64_MAX;
            MemoText(stale, Memo(0, majorType, IntegerBytes(majorType, n))) == IntegerText(majorType, n)
            <==> !lastOne || stale[25] == NUL
  {
    var text, copied := IntegerText(majorType, n), IntegerBytes(majorType, n);
    NoZeroInInteger(majorType, n);
    if majorType == 1 && n == U64_MAX {
      U64MaxDigits();
      assert copied == text;
      TextShown(stale, Memo(0, majorType, copied));
    } else {
      var behind := Behind(Holding(stale, copied), majorType);
      var after := [NUL] + stale[|copied|..DISPLAY_SIZE] + behind;
      assert Holding(stale, copied)[..DISPLAY_SIZE] + behind == text + after;
      ShownExactly(text, after);
    }
  }

  lemma NoZeroInInteger(majorType: byte, n: u64)
    ensures NUL !in IntegerText(majorType, n)
  {
    hide Dec;
    DecDigits(n);
    if n < U64_MAX { DecDigits(1 + n); }
  }

  // ------------------------------------------------------------------ the end of the buffer

  /** A copy leaves what is behind the buffer alone, whatever is there, if and only if it ends inside. */
  lemma CopyInside(used: nat, chunk: string)
    requires used <= DISPLAY_SIZE && used + |chunk| <= 510
    ensures used + |chunk| <= DISPLAY_SIZE
            <==> forall memory: Memory :: Written(memory, used, chunk)[DISPLAY_SIZE..] == memory[DISPLAY_SIZE..]
  {
    if used + |chunk| > DISPLAY_SIZE {
      var k := used + |chunk| - 1;
      var other := if chunk[|chunk| - 1] == 'x' then 'y' else 'x';
      var memory: Memory := seq(510, i => other);
      assert Written(memory, used, chunk)[DISPLAY_SIZE..][k - DISPLAY_SIZE] == chunk[|chunk| - 1];
      assert memory[DISPLAY_SIZE..][k - DISPLAY_SIZE] == other;
    }
  }

  /** The second packet of a text is copied behind the content of the first one, whose length wraps
      around in eight bits.  It stays inside the buffer if and only if both lengths do, and a memo that
      does not is refused, when it has been copied. */
  lemma SecondPacket(declared: u16, first: Cdata, length: byte, second: Cdata, more: byte)
    requires declared <= 256 && BeginTransit(declared, first, length).Ok?
    requires BeginTransit(declared, first, length).value.memo.majorType == 3
    ensures var t := BeginTransit(declared, first, length).value;
            var content, chunk := (length - 1 - t.size) % 0x100, Chars(second[..more]);
            && |t.memo.copied| == content
            && (content + more <= DISPLAY_SIZE
                <==> forall memory: Memory ::
                       Written(memory, content, chunk)[DISPLAY_SIZE..] == memory[DISPLAY_SIZE..])
            && ContinueTransit(t, second, more).Ok?
            && (content + more > DISPLAY_SIZE ==> ContinueTransit(t, second, more).value.memo.remaining != 0)
  {
    hide Argument, ArgumentSize, Written, IntegerBytes, Chars;
    BeginTransitOk(declared, first, length);
    var t := BeginTransit(declared, first, length).value;
    ContinueTransitOk(t, second, more);
    CopyInside(|t.memo.copied|, Chars(second[..more]));
  }

  /** Two packets of 255 bytes, declared as 256: 508 characters are copied into the buffer of 255. */
  lemma OverrunningPackets(second: Cdata)
    ensures var first: Cdata := [0x78, 254] + seq(262, i => 65);
            var t := BeginTransit(256, first, 255);
            && t.Ok? && |t.value.memo.copied| == 253 && t.value.memo.remaining == 1
            && var u := ContinueTransit(t.value, second, 255);
               u.Ok? && |u.value.memo.copied| == 508 && u.value.memo.remaining == U32 - 254
  {
    var first: Cdata := [0x78, 254] + seq(262, i => 65);
    assert ArgumentSize(0x78) == Some(1) && Argument(first) == 254;
  }

  // ------------------------------------------------------------------ every text memo can be sent

  lemma FirstPiece(b: bytes, text: bytes, k: nat, first: Cdata)
    requires |b| <= 256 && Decode(b) == Some(Text(text))
    requires ArgumentSize(b[0]).value < k <= |b| && k <= 255 && first[..k] == b[..k]
    ensures var size := ArgumentSize(b[0]).value;
            BeginTransit(|b|, first, k)
            == Ok(Transit(|b|, k, size, b[..k], Memo(|b| - k, 3, Chars(b[1 + size..k]))))
    ensures text == b[1 + ArgumentSize(b[0]).value..]
  {
    hide Argument, ArgumentSize, Chars;
    var size := ArgumentSize(b[0]).value;
    assert first[0] == first[..k][0] == b[0];
    ArgumentPrefix(first, k);
    ArgumentPrefix(b, k);
    assert first[1 + size..k] == first[..k][1 + size..] == b[..k][1 + size..] == b[1 + size..k];
    FirstCounts(|b|, size, k);
    ArgumentSizes(b[0]);
  }

  lemma FirstCounts(total: nat, size: nat, k: nat)
    requires size < k <= total <= 256 && k <= 255
    ensures (total - 1 - size) % U32 == total - 1 - size
    ensures (k - 1 - size) % 0x100 == k - 1 - size
    ensures (total - 1 - size - (k - 1 - size)) % U32 == total - k
  {
  }

  /** A text string of at most 256 bytes, sent whole or in two pieces of which the first holds the
      header, is accepted and copied whole. */
  lemma TextMemoAccepted(b: bytes, text: bytes, k: nat, first: Cdata, second: Cdata)
    requires |b| <= 256 && Decode(b) == Some(Text(text))
    requires ArgumentSize(b[0]).value < k <= |b| && k <= 255 && |b| - k <= 255
    requires first[..k] == b[..k] && second[..|b| - k] == b[k..]
    ensures var t := BeginTransit(|b|, first, k);
            && t.Ok? && (t.value.memo.remaining == 0 <==> k == |b|)
            && (k == |b| ==> t.value.hashed == b && t.value.memo.copied == Chars(text))
            && (k < |b| ==> var u := ContinueTransit(t.value, second, |b| - k);
                  u.Ok? && u.value.memo.remaining == 0 && u.value.hashed == b && u.value.memo.copied == Chars(text))
  {
    FirstPiece(b, text, k, first);
    hide Decode, BeginTransit, Chars, ArgumentSize;
    var size := ArgumentSize(b[0]).value;
    if k < |b| {
      CharsAppend(b[1 + size..k], b[k..]);
      assert b[1 + size..k] + b[k..] == text;
      assert b[..k] + b[k..] == b;
    } else {
      assert b[..k] == b;
    }
  }

  // ------------------------------------------------------------------ which bytes a memo can hash

  /** A text string of the declared length; nothing at all for a declared length of 256; or, for the length
      of an integer, up to 255 bytes that begin like one. */
  ghost predicate MemoOk(declared: nat, b: bytes) {
    || (|b| == declared <= 256 && Decode(b).Some? && Decode(b).value.Text?)
    || (b == [] && declared == 256)
    || (|b| <= 255 && declared >= 1 && SizeOk(declared - 1)
        && (b != [] ==> b[0] / 32 <= 1 && ArgumentSize(b[0]) == Some(declared - 1)))
  }

  lemma ReceivedMemo(t: Transit)
    requires Received(t)
    ensures MemoOk(t.declared, t.hashed) && t.declared <= 256
  {
    if t.memo.majorType == 3 {
      TextLengthExact(t);
      if t.first >= 1 { ReceivedText(t); }
    } else {
      hide Decode, ArgumentSize;
    }
  }

  /** What one packet, or a second one as well, makes of a memo. */
  ghost predicate Sent(declared: u16, first: Cdata, k: byte, second: Cdata, more: byte, t: Transit) {
    var r := BeginTransit(declared, first, k);
    && r.Ok? && Received(t)
    && if r.value.memo.remaining == 0 then t == r.value
       else ContinueTransit(r.value, second, more) == Ok(t)
  }

  /** Every such memo can be sent. */
  lemma SendMemo(declared: nat, b: bytes) returns (first: Cdata, k: byte, second: Cdata, more: byte, t: Transit)
    requires MemoOk(declared, b)
    ensures Sent(declared, first, k, second, more, t) && t.declared == declared && t.hashed == b
  {
    second, more := Pad([]), 0;
    if |b| == declared <= 256 && Decode(b).Some? && Decode(b).value.Text? {
      first, k, second, more, t := SendText(b);
    } else if b == [] && declared == 256 {
      EmptyFirstPacket();
      first, k := [0x78, 254] + seq(262, i => 65), 0;
      t := BeginTransit(declared, first, k).value;
      BeginTransitOk(declared, first, k);
    } else {
      first, k, t := SendInteger(declared, b);
    }
  }

  lemma SendText(b: bytes) returns (first: Cdata, k: byte, second: Cdata, more: byte, t: Transit)
    requires |b| <= 256 && Decode(b).Some? && Decode(b).value.Text?
    ensures Sent(|b|, first, k, second, more, t) && t.declared == |b| && t.hashed == b
  {
    hide ArgumentSize, Argument;
    ArgumentSizes(b[0]);
    k := if |b| <= 255 then |b| else 255;
    more := |b| - k;
    first, second := Pad(b[..k]), Pad(b[k..]);
    assert first[..k] == b[..k] && second[..more] == b[k..];
    TextMemoAccepted(b, Decode(b).value.text, k, first, second);
    BeginTransitOk(|b|, first, k);
    t := BeginTransit(|b|, first, k).value;
    if k < |b| {
      ContinueTransitOk(t, second, more);
      t := ContinueTransit(t, second, more).value;
    }
  }

  /** An initial byte for an argument of the given size. */
  function InitialByte(size: nat): (r: byte)
    requires SizeOk(size)
    ensures r / 32 == 0 && ArgumentSize(r) == Some(size)
  {
    if size == 0 then 0 else if size == 1 then 24 else if size == 2 then 25 else if size == 4 then 26 else 27
  }

  lemma SendInteger(declared: nat, b: bytes) returns (first: Cdata, k: byte, t: Transit)
    requires |b| <= 255 && declared >= 1 && SizeOk(declared - 1)
    requires b != [] ==> b[0] / 32 <= 1 && ArgumentSize(b[0]) == Some(declared - 1)
    ensures Sent(declared, first, k, first, 0, t) && t.declared == declared && t.hashed == b
    ensures BeginTransit(declared, first, k) == Ok(t) && t.memo.remaining == 0
  {
    k := |b|;
    first := if b == [] then Pad([InitialByte(declared - 1)]) else Pad(b);
    assert first[0] == if b == [] then first[..1][0] else first[..k][0];
    assert first[..k] == b;
    hide ArgumentSize, Argument, IntegerBytes;
    ArgumentSizes(first[0]);
    ExactLength(declared, declared - 1);
    BeginTransitOk(declared, first, k);
    t := BeginTransit(declared, first, k).value;
  }
}
