/** src/common/base58check.c: the in-place base-256 to base-58 conversion and the address text. */
module Base58 {
  import opened Bytes
  import opened Positional

  const MAX_ENC_INPUT_SIZE := 120
  const PAGE_SIZE := 10
  const ADDRESS_LENGTH := 32

  // ------------------------------------------------------------------ how many digits are enough

  lemma SmallPowers()
    ensures Pow(256, 8) == 0x1_0000_0000_0000_0000
    ensures Pow(256, 4) == 0x1_0000_0000
    ensures Pow(58, 4) == 11316496
    ensures Pow(58, 5) == 656356768
    ensures Pow(58, 10) == 430804206899405824
    ensures Pow(58, 11) == 24986644000165537792
  {
    PowAdd(58, 5, 5);
    PowAdd(58, 10, 1);
    PowAdd(256, 4, 4);
  }

  /** floor(138 n / 100) + 1 base-58 digits hold every n-byte number. */
  lemma EnoughDigits(n: nat, digits: nat)
    requires 100 * digits > 138 * n
    ensures Pow(256, n) <= Pow(58, digits)
  {
    hide Pow;
    var big, small := Pow(58, digits), Pow(256, n);
    if big < small {
      PowOfStrictlyLarger(big, small, 8);
      PowPow(58, digits, 8);
      PowPow(256, n, 8);
      PowPow(58, 11, n);
      PowPow(256, 8, n);
      SmallPowers();
      PowOfLarger(Pow(256, 8), Pow(58, 11), n);
      PowMonotone(58, 11 * n, digits * 8);
      assert false;
    }
  }

  // ------------------------------------------------------------------ the carry loop

  /** What the buffer denotes in the middle of a carry loop: cells not yet visited still have to be
      multiplied by 256 and to receive the carry, the suffix is finished. */
  ghost function Pending(prefix: bytes, carry: nat, suffix: bytes): nat {
    (Value(58, prefix) * 256 + carry) * Pow(58, |suffix|) + Value(58, suffix)
  }

  lemma CarryStep(prefix: bytes, digit: byte, suffix: bytes, carry: nat, carry': nat, cell: byte)
    requires carry + 256 * digit == 58 * carry' + cell
    ensures Pending(prefix + [digit], carry, suffix) == Pending(prefix, carry', [cell] + suffix)
  {
    var v, scale := Value(58, prefix), Pow(58, |suffix|);
    assert (prefix + [digit])[..|prefix|] == prefix;
    assert Value(58, prefix + [digit]) == v * 58 + digit;
    ValueAppend(58, [cell], suffix);
    ValueOfOne(58, cell);
    calc {
      ((v * 58 + digit) * 256 + carry) * scale;
      ((v * 256 + carry') * 58 + cell) * scale;
      (v * 256 + carry') * 58 * scale + cell * scale;
      { Associate(v * 256 + carry', 58, scale); }
      (v * 256 + carry') * (scale * 58) + cell * scale;
    }
  }

  lemma PendingDone(zeros: bytes, suffix: bytes)
    requires Zeros(zeros)
    ensures Pending(zeros, 0, suffix) == Value(58, suffix) == Value(58, zeros + suffix)
  {
    ValueOfZeros(58, zeros);
    assert (zeros + suffix)[..|zeros|] == zeros && (zeros + suffix)[|zeros|..] == suffix;
    ValueDropZeros(58, zeros + suffix, |zeros|);
  }

  /** A carry that survives the leftmost cell means that the number did not fit. */
  lemma PendingOverflow(carry: nat, suffix: bytes)
    requires Pending([], carry, suffix) < Pow(58, |suffix|)
    ensures carry == 0
  {
    if carry != 0 { MulAtLeast(Pow(58, |suffix|), carry); }
  }

  lemma PendingStart(digits: bytes, b: byte)
    ensures Pending(digits, b, []) == Value(58, digits) * 256 + b
  {
  }

  /** Lines 63-73: multiplies the number held in out by 256 and adds one byte.  The loop leaves
      through its early exit, at the first cell past the old digits where no carry is left. */
  method AddByte(out: array<byte>, outputSize: nat, stopAt: nat, b: byte) returns (j: int)
    requires 1 <= stopAt < outputSize <= out.Length
    requires Digits(58, out[..outputSize])
    requires Zeros(out[..stopAt])
    requires Value(58, out[..outputSize]) * 256 + b < Pow(58, outputSize)
    modifies out
    ensures 0 <= j < stopAt
    ensures Digits(58, out[..outputSize])
    ensures Zeros(out[..j])
    ensures j < stopAt - 1 ==> out[j] != 0
    ensures Value(58, out[..outputSize]) == Value(58, old(out[..outputSize])) * 256 + b
    ensures out[outputSize..] == old(out[outputSize..])
  {
    hide Value, Pow, Pending;
    ghost var was := out[..outputSize];
    ghost var total := Value(58, was) * 256 + b;
    var carry: int := b;
    j := outputSize - 1;
    assert was[..j + 1] == was && out[j + 1..outputSize] == [];
    PendingStart(was, b);
    while j >= 0
      invariant 0 <= j < outputSize && 0 <= carry < 256
      invariant forall k | 0 <= k <= j :: out[k] == was[k]
      invariant out[outputSize..] == old(out[outputSize..])
      invariant forall k | j < k < outputSize :: out[k] < 58
      invariant j < stopAt - 1 ==> carry != 0
      invariant Pending(was[..j + 1], carry, out[j + 1..outputSize]) == total
      decreases j
    {
      ghost var c, suffix := carry, out[j + 1..outputSize];
      assert was[..j + 1] == was[..j] + [was[j]];
      carry := carry + 256 * (out[j] as int);
      out[j] := carry % 58;
      carry := carry / 58;
      assert out[j..outputSize] == [out[j]] + suffix;
      CarryStep(was[..j], was[j], suffix, c, carry, out[j]);
      if j == 0 {
        PendingOverflow(carry, out[j..outputSize]);
      }

      if j <= stopAt - 1 && carry == 0 {
        break;
      }
      j := j - 1;
    }
    assert was[..j] == out[..j];
    PendingDone(out[..j], out[j..outputSize]);
    assert out[..j] + out[j..outputSize] == out[..outputSize];
  }

  /** A number of the first k bytes never needs a cell further left than floor(138 k / 100). */
  lemma StopBound(outputSize: nat, digits: bytes, j: nat, k: nat)
    requires j < outputSize == |digits|
    requires Zeros(digits[..j]) && digits[j] != 0
    requires Value(58, digits) < Pow(256, k)
    ensures outputSize - 1 - j <= 138 * k / 100
  {
    var e := outputSize - 1 - j;
    ValueDropZeros(58, digits, j);
    ValueFromFirst(58, digits[j..]);
    if e > 138 * k / 100 {
      EnoughDigits(k, e);
    }
  }

  /** Lines 60-74: after the two loops the buffer holds the base-58 digits of the input. */
  method EncodeDigits(input: bytes, zeroCount: nat, out: array<byte>, outputSize: nat)
    requires zeroCount <= |input|
    requires (|input| - zeroCount) * 138 / 100 + 1 <= outputSize <= out.Length
    modifies out
    ensures Digits(58, out[..outputSize])
    ensures Value(58, out[..outputSize]) == Value(256, input[zeroCount..])
    ensures out[outputSize..] == old(out[outputSize..])
  {
    hide Value, Pow;
    forall k | 0 <= k < outputSize { out[k] := 0; }
    var stopAt := outputSize - 1;
    ValueOfZeros(58, out[..outputSize]);
    assert input[zeroCount..zeroCount] == [];
    ValueOfZeros(256, input[zeroCount..zeroCount]);
    for startAt := zeroCount to |input|
      invariant Digits(58, out[..outputSize])
      invariant 0 <= stopAt < outputSize && Zeros(out[..stopAt])
      invariant outputSize - 1 - stopAt <= 138 * (startAt - zeroCount) / 100
      invariant Value(58, out[..outputSize]) == Value(256, input[zeroCount..startAt])
      invariant out[outputSize..] == old(out[outputSize..])
    {
      var k := startAt - zeroCount;
      AppendByte(input[zeroCount..startAt], input[startAt]);
      assert input[zeroCount..startAt + 1] == input[zeroCount..startAt] + [input[startAt]];
      EnoughDigits(k + 1, outputSize);
      var j := AddByte(out, outputSize, stopAt, input[startAt]);
      if j < stopAt - 1 {
        assert out[..outputSize][..j] == out[..j];
        StopBound(outputSize, out[..outputSize], j, k + 1);
      }
      stopAt := j;
    }
    assert input[zeroCount..|input|] == input[zeroCount..];
  }

  lemma AppendByte(s: bytes, b: byte)
    ensures Value(256, s + [b]) == Value(256, s) * 256 + b < Pow(256, |s| + 1)
  {
    assert (s + [b])[..|s|] == s;
    ValueBound(256, s + [b]);
  }

  // ------------------------------------------------------------------ the address text

  const BASE58ALPHABET: string :=
    "123456789" + "ABCDEFGH" + "JKLMN" + "PQRSTUVWXYZ" + "abcdefghijk" + "mnopqrstuvwxyz"
  const SPACE: byte := 32

  /** A checksummed address: version byte 1, the 32-byte address, 4 checksum bytes. */
  ghost predicate Payload(p: bytes) {
    |p| == 37 && p[0] == 1
  }

  function Letter(digit: nat): (r: byte)
    requires digit < 58
    ensures r != SPACE && DigitOf(r) == digit
  {
    LetterRuns(digit);
    BASE58ALPHABET[digit] as int
  }

  /** The alphabet read backwards. */
  function DigitOf(c: nat): (r: nat)
  {
    if c < 49 then 0
    else if c < 65 then c - 49
    else if c < 73 then c - 65 + 9
    else if c < 79 then c - 74 + 17
    else if c < 97 then c - 80 + 22
    else if c < 108 then c - 97 + 33
    else c - 109 + 44
  }

  ghost predicate Run(s: string, first: int) {
    forall i | 0 <= i < |s| :: s[i] as int == first + i
  }

  lemma SixRuns(a: string, b: string, c: string, d: string, e: string, f: string, digit: nat)
    requires Run(a, 49) && |a| == 9 && Run(b, 65) && |b| == 8 && Run(c, 74) && |c| == 5
    requires Run(d, 80) && |d| == 11 && Run(e, 97) && |e| == 11 && Run(f, 109) && |f| == 14
    requires digit < 58
    ensures var r := (a + b + c + d + e + f)[digit] as int; 49 <= r < 123 && DigitOf(r) == digit
  {
  }

  /** The alphabet consists of six runs of consecutive characters. */
  lemma LetterRuns(digit: nat)
    requires digit < 58
    ensures |BASE58ALPHABET| == 58
    ensures var c := BASE58ALPHABET[digit] as int; 49 <= c < 123 && DigitOf(c) == digit
  {
    assert Run("PQRSTUVWXYZ", 80);
    assert Run("abcdefghijk", 97);
    assert Run("mnopqrstuvwxyz", 109);
    SixRuns("123456789", "ABCDEFGH", "JKLMN", "PQRSTUVWXYZ", "abcdefghijk", "mnopqrstuvwxyz", digit);
  }

  /** The base-58 digits of a payload: exactly fifty. */
  function AddressDigits(payload: bytes): (r: seq<nat>)
    ensures |r| == 50
  {
    ToDigits(58, 50, Value(256, payload))
  }

  lemma {:induction false} AddressSize(payload: bytes)
    requires Payload(payload)
    ensures Pow(58, 49) <= Value(256, payload) < Pow(58, 50)
  {
    hide Value, Pow;
    assert payload == [payload[0]] + payload[1..];
    ValueAppend(256, [payload[0]], payload[1..]);
    ValueOfOne(256, payload[0]);
    ValueBound(256, payload[1..]);
    BigPowers();
  }

  lemma BigPowers()
    ensures Pow(58, 49) <= Pow(256, 36)
    ensures 2 * Pow(256, 36) <= Pow(58, 50)
  {
    SmallPowers();
    hide Pow;
    PowAdd(58, 10, 10);
    PowAdd(58, 20, 20);
    PowAdd(58, 40, 10);
    PowAdd(58, 40, 5);
    PowAdd(58, 45, 4);
    PowAdd(256, 8, 8);
    PowAdd(256, 16, 16);
    PowAdd(256, 32, 4);
  }

  /** Of the 57 cells, the first seven stay empty and the next holds a nonzero digit. */
  lemma {:induction false} SevenZeros(cells: bytes, payload: bytes)
    requires Payload(payload)
    requires |cells| == 57 && Digits(58, cells) && Value(58, cells) == Value(256, payload)
    ensures Zeros(cells[..7]) && cells[7] != 0
    ensures cells[7..] == AddressDigits(payload)
  {
    hide Pow, Value, ToDigits;
    var digits, zeros := AddressDigits(payload), seq(7, i => 0);
    AddressSize(payload);
    ValueOfDigits(58, 50, Value(256, payload));
    ValueDropZeros(58, zeros + digits, 7);
    assert (zeros + digits)[7..] == digits;
    ValueInjective(58, cells, zeros + digits);
    if digits[0] == 0 {
      ValueDropZeros(58, digits, 1);
      ValueBound(58, digits[1..]);
    }
  }

  /** The text of an address: five pages of ten characters, each followed by a space. */
  function Paged(digits: seq<nat>): (r: bytes)
    requires |digits| == 50 && Digits(58, digits)
    ensures |r| == 55
  {
    seq(55, i requires 0 <= i < 55 => if i % 11 == 10 then SPACE else Letter(digits[i - i / 11]))
  }

  /** Reads the digits of a text, skipping the spaces. */
  function ReadDigits(text: seq<nat>): (r: seq<nat>)
  {
    if text == [] then []
    else
      var c := text[|text| - 1];
      ReadDigits(text[..|text| - 1]) + (if c == SPACE then [] else [DigitOf(c)])
  }

  /** Reads an address text: drop the spaces, take the base-58 value, write it as 37 bytes. */
  function ReadAddress(text: seq<nat>): (r: bytes)
    ensures |r| == 37
  {
    DigitsBelow(256, 37, Value(58, ReadDigits(text)));
    ToDigits(256, 37, Value(58, ReadDigits(text)))
  }

  lemma OneMore(text: seq<nat>, digits: seq<nat>, i: nat, n: nat, m: nat)
    requires 0 < i <= |text| && n <= |digits| && ReadDigits(text[..i - 1]) == digits[..n]
    requires if text[i - 1] == SPACE then m == n else n < |digits| && m == n + 1 && DigitOf(text[i - 1]) == digits[n]
    ensures ReadDigits(text[..i]) == digits[..m]
  {
    hide DigitOf;
    assert text[..i][..i - 1] == text[..i - 1];
    if m == n + 1 { assert digits[..n + 1] == digits[..n] + [digits[n]]; }
  }

  /** The first i characters of the text hold the first i - i/11 digits. */
  lemma {:induction false} ReadPaged(digits: seq<nat>, i: nat)
    requires |digits| == 50 && Digits(58, digits) && i <= 55
    ensures ReadDigits(Paged(digits)[..i]) == digits[..i - i / 11]
  {
    var text := Paged(digits);
    if i > 0 {
      hide Paged, DigitOf, Letter, ReadDigits, Digits;
      ReadPaged(digits, i - 1);
      PagedAt(digits, i - 1);
      OneMore(text, digits, i, i - 1 - (i - 1) / 11, i - i / 11);
    } else {
      assert text[..0] == [] && digits[..0] == [];
    }
  }

  lemma PagedAt(digits: seq<nat>, i: nat)
    requires |digits| == 50 && Digits(58, digits) && i < 55
    ensures var n := i - i / 11;
            && n <= 50
            && (Paged(digits)[i] == SPACE ==> i + 1 - (i + 1) / 11 == n)
            && (Paged(digits)[i] != SPACE ==>
                  n < 50 && i + 1 - (i + 1) / 11 == n + 1 && DigitOf(Paged(digits)[i]) == digits[n])
  {
  }

  ghost function AddressText(payload: bytes): (r: bytes)
    requires Payload(payload)
    ensures |r| == 55
  {
    AddressSize(payload);
    ValueOfDigits(58, 50, Value(256, payload));
    Paged(AddressDigits(payload))
  }

  /** The shown text determines the version, the address and the checksum. */
  lemma {:induction false} AddressRoundTrip(payload: bytes)
    requires Payload(payload)
    ensures ReadAddress(AddressText(payload)) == payload
  {
    hide Value, Pow, ReadDigits, Paged, ToDigits;
    var digits, text := AddressDigits(payload), AddressText(payload);
    AddressSize(payload);
    ValueOfDigits(58, 50, Value(256, payload));
    ReadPaged(digits, 55);
    assert text[..55] == text && digits[..50] == digits;
    DigitsOfValue(256, payload);
  }

  /** Layout: a space after every tenth character and nowhere else, letters of the alphabet elsewhere. */
  lemma AddressLayout(payload: bytes, i: nat)
    requires Payload(payload) && i < 55
    ensures AddressText(payload)[i] == SPACE <==> i % 11 == 10
    ensures i % 11 != 10 ==> exists d | 0 <= d < 58 :: AddressText(payload)[i] == Letter(d)
  {
    AddressSize(payload);
    ValueOfDigits(58, 50, Value(256, payload));
    if i % 11 != 10 {
      assert AddressText(payload)[i] == Letter(AddressDigits(payload)[i - i / 11]);
    }
  }

  /** Lines 76-113: drops the leading zero cells and turns digits into letters in place, moving
      every cell left by the zero cells it skips and right by the spaces already put in. */
  method AlphabetPass(out: array<byte>, outputSize: nat, ghost payload: bytes) returns (written: nat)
    requires Payload(payload) && outputSize == 57 <= out.Length
    requires Digits(58, out[..57]) && Value(58, out[..57]) == Value(256, payload)
    modifies out
    ensures written == 50
    ensures out[..55] == AddressText(payload)
  {
    ghost var cells := out[..57];
    ghost var text := AddressText(payload);
    SevenZeros(cells, payload);
    assert forall k | 0 <= k < 7 :: cells[k] == cells[..7][k];
    var zeroCount, spaces := 0, 5;
    var j := 0;
    while j < outputSize && out[j] == 0
      invariant j <= 7
    {
      j := j + 1;
    }
    written := zeroCount + outputSize - j;
    var distance := zeroCount - j;
    var nextSpace, offset := PAGE_SIZE, 0;
    for i := zeroCount to written + spaces
      invariant offset == i / 11 && nextSpace == PAGE_SIZE + 11 * offset
      invariant out[..i] == text[..i]
      invariant forall k | i <= k < 57 :: out[k] == cells[k]
    {
      if i == nextSpace {
        out[i] := SPACE;
        nextSpace := nextSpace + (PAGE_SIZE + 1);
        offset := offset + 1;
      } else {
        assert cells[i - distance - offset] == cells[7..][i - i / 11];
        out[i] := Letter(out[i - distance - offset]);
      }
    }
  }

  /** Lines 48-50. */
  method CountLeadingZeros(input: bytes) returns (zeroCount: nat)
    ensures zeroCount <= |input| && Zeros(input[..zeroCount])
    ensures zeroCount < |input| ==> input[zeroCount] != 0
  {
    zeroCount := 0;
    while zeroCount < |input| && input[zeroCount] == 0
      invariant zeroCount <= |input| && Zeros(input[..zeroCount])
    {
      zeroCount := zeroCount + 1;
    }
  }

  /** base58_encode.  Inputs that are too long, and buffers that are too small, are refused before
      anything is written. */
  method Base58Encode(input: bytes, out: array<byte>, outlen: nat) returns (rc: int, written: nat)
    requires Payload(input) || |input| > MAX_ENC_INPUT_SIZE
    requires outlen <= out.Length
    modifies out
    ensures rc == 0 <==> |input| <= MAX_ENC_INPUT_SIZE && outlen >= 57
    ensures rc != 0 ==> rc == -1 && out[..] == old(out[..])
    ensures rc == 0 ==> written == 50 && out[..55] == AddressText(input)
  {
    if |input| > MAX_ENC_INPUT_SIZE {
      return -1, outlen;
    }
    var zeroCount := CountLeadingZeros(input);
    var outputSize := (|input| - zeroCount) * 138 / 100 + 1;
    var spaces := outputSize / PAGE_SIZE;
    outputSize := outputSize + spaces;
    if outlen < outputSize {
      return -1, outputSize;
    }
    EncodeDigits(input, zeroCount, out, outputSize);
    written := AlphabetPass(out, outputSize, input);
    rc := 0;
  }

  /** The payload of an address: version, address and the first bytes of a double hash of both. */
  ghost function PayloadOf(sha: Sha256, address: bytes): (r: bytes)
    requires |address| == ADDRESS_LENGTH
    ensures Payload(r) && r[1..33] == address
  {
    [1] + address + sha(sha([1] + address))[..4]
  }

  ghost function AddressTextOf(sha: Sha256, address: bytes): (r: bytes)
    requires |address| == ADDRESS_LENGTH
    ensures |r| == 55
  {
    AddressText(PayloadOf(sha, address))
  }

  /** A text stands for an address when it reads as version 1, the address, and the first four bytes of the
      double hash of both. */
  ghost predicate StandsFor(sha: Sha256, text: seq<nat>, address: bytes) {
    var p := ReadAddress(text);
    p[0] == 1 && p[1..33] == address && p[33..] == sha(sha(p[..33]))[..4]
  }

  lemma AddressTextRead(sha: Sha256, address: bytes)
    requires |address| == ADDRESS_LENGTH
    ensures StandsFor(sha, AddressTextOf(sha, address), address)
  {
    var p := PayloadOf(sha, address);
    AddressRoundTrip(p);
    hide ReadAddress, AddressText;
    assert p[..33] == [1] + address;
    assert p[33..] == sha(sha([1] + address))[..4];
  }

  /** Different addresses are shown as different texts. */
  lemma {:induction false} AddressTextInjective(sha: Sha256, a: bytes, b: bytes)
    requires |a| == |b| == ADDRESS_LENGTH && AddressTextOf(sha, a) == AddressTextOf(sha, b)
    ensures a == b
  {
    AddressRoundTrip(PayloadOf(sha, a));
    AddressRoundTrip(PayloadOf(sha, b));
    assert PayloadOf(sha, a) == PayloadOf(sha, b);
  }

  /** base58check_encode: Throws is ERROR_INVALID_TRANSACTION for an input of the wrong length.  The
      57-byte buffers of the callers always suffice. */
  method Base58CheckEncode(sha: Sha256, input: bytes, out: array<byte>, outlen: nat)
    returns (throws: bool, rc: int, written: nat)
    requires outlen <= out.Length
    modifies out
    ensures throws <==> |input| != ADDRESS_LENGTH
    ensures !throws ==> (rc == 0 <==> outlen >= 57)
    ensures !throws && rc == 0 ==> out[..55] == AddressTextOf(sha, input)
    ensures !throws && rc == 0 ==>
      var p := ReadAddress(out[..55]);
      p[0] == 1 && p[1..33] == input && p[33..] == sha(sha(p[..33]))[..4]
  {
    if |input| != ADDRESS_LENGTH {
      return true, -1, outlen;
    }
    var buffer: bytes := [1];
    buffer := buffer + input;
    var hash := sha(buffer);
    hash := sha(hash);
    assert |hash| == 32;
    buffer := buffer + hash[..4];
    assert buffer == PayloadOf(sha, input);
    AddressTextRead(sha, input);
    rc, written := Base58Encode(buffer, out, outlen);
    throws := false;
  }
}
