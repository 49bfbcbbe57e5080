/** src/common/numberHelpers.c: toPaginatedHex. */
module PaginatedHex {
  import opened Bytes

  const HEX: string := "0123456789abcdef"
  const NUL := 0 as char

  function HexPair(b: byte): (r: string)
    ensures |r| == 2 && r[0] != ' ' && r[1] != ' '
  {
    [HEX[b / 16], HEX[b % 16]]
  }

  /** What comes between the first n bytes and the next one. */
  function Separator(n: nat): (r: string)
    ensures |r| <= 1
  {
    if n > 0 && n % 8 == 0 then " " else ""
  }

  /** Hexadecimal with a space between every eight bytes. */
  function PagedHex(b: bytes): (r: string)
  {
    if b == [] then ""
    else
      var n := |b| - 1;
      PagedHex(b[..n]) + Separator(n) + HexPair(b[n])
  }

  lemma {:induction false} PagedHexLength(b: bytes)
    requires b != []
    ensures |PagedHex(b)| == 2 * |b| + (|b| - 1) / 8
  {
    var n := |b| - 1;
    if n > 0 {
      PagedHexLength(b[..n]);
      SeparatorLength(n);
    }
  }

  /** Spaces stand after every 16 characters, and nowhere else. */
  lemma {:induction false} PagedHexSpaces(b: bytes, i: nat)
    requires i < |PagedHex(b)|
    ensures PagedHex(b)[i] == ' ' <==> i % 17 == 16
  {
    hide HexPair;
    var n := |b| - 1;
    if i < |PagedHex(b[..n])| {
      PagedHexSpaces(b[..n], i);
    } else if n > 0 {
      PagedHexLength(b[..n]);
      SpaceAt(n, i);
    }
  }

  lemma SpaceAt(n: nat, i: nat)
    requires n > 0 && 2 * n + (n - 1) / 8 <= i < 2 * n + (n - 1) / 8 + |Separator(n)| + 2
    ensures i % 17 == 16 <==> Separator(n) == " " && i == 2 * n + (n - 1) / 8
  {
    var q, r := n / 8, n % 8;
    if r == 0 {
      assert i == 17 * (q - 1) + 16 + (i - 2 * n - (n - 1) / 8);
    } else {
      assert i == 17 * q + 2 * r + (i - 2 * n - (n - 1) / 8);
    }
  }

  function Nibble(c: char): (r: int) {
    if c <= '9' then c as int - '0' as int else c as int - 'a' as int + 10
  }

  /** Reads hexadecimal from the right, skipping spaces. */
  function ReadHex(s: string): (r: seq<int>)
  {
    if s == [] then []
    else if s[|s| - 1] == ' ' then ReadHex(s[..|s| - 1])
    else if |s| == 1 then []
    else ReadHex(s[..|s| - 2]) + [Nibble(s[|s| - 2]) * 16 + Nibble(s[|s| - 1])]
  }

  lemma HexPairValue(b: byte)
    ensures Nibble(HexPair(b)[0]) == b / 16 && Nibble(HexPair(b)[1]) == b % 16
  {
  }

  lemma ReadPair(s: string, b: byte)
    ensures ReadHex(s + HexPair(b)) == ReadHex(s) + [b]
  {
    HexPairValue(b);
    var t := s + HexPair(b);
    assert t[|t| - 1] == HexPair(b)[1] && t[|t| - 2] == HexPair(b)[0] && t[..|t| - 2] == s;
  }

  lemma ReadSpace(s: string)
    ensures ReadHex(s + " ") == ReadHex(s)
  {
    assert (s + " ")[..|s|] == s;
  }

  lemma {:induction false} PagedHexRoundTrip(b: bytes)
    ensures ReadHex(PagedHex(b)) == b
  {
    if b != [] {
      hide ReadHex, HexPair, Separator;
      var n := |b| - 1;
      PagedHexRoundTrip(b[..n]);
      ReadSeparator(PagedHex(b[..n]), n);
      ReadPair(PagedHex(b[..n]) + Separator(n), b[n]);
    }
  }

  lemma ReadSeparator(s: string, n: nat)
    ensures ReadHex(s + Separator(n)) == ReadHex(s)
  {
    hide ReadHex;
    ReadSpace(s);
    assert s + "" == s;
  }

  lemma PagedHexInjective(a: bytes, b: bytes)
    requires PagedHex(a) == PagedHex(b)
    ensures a == b
  {
    PagedHexRoundTrip(a);
    PagedHexRoundTrip(b);
  }

  /** The memory that text and terminator take. */
  function Needed(len: nat): (r: nat) {
    if len == 0 then 1 else 2 * len + (len - 1) / 8 + 1
  }

  /** The size test at the start counts one space per 16 bytes, half of what is written. */
  predicate Passes(size: nat, len: nat) {
    size >= len * 2 + len / 16 + 1
  }

  /** It protects the buffer, whatever its size, only for these lengths. */
  lemma SizeTestProtects(len: nat)
    ensures (forall size: nat :: Passes(size, len) ==> size >= Needed(len)) <==> len <= 8 || len == 16
  {
    var least := len * 2 + len / 16 + 1;
    assert Passes(least, len);
    if len > 8 && len != 16 {
      assert least < Needed(len);
    }
  }

  /** Nine bytes, in a buffer of 19, take 20. */
  lemma NineBytesOverrun()
    ensures Passes(19, 9) && Needed(9) == 20
    ensures forall b: bytes | |b| == 9 :: |PagedHex(b)| + 1 == 20
  {
    forall b: bytes | |b| == 9
      ensures |PagedHex(b)| + 1 == 20
    {
      PagedHexLength(b);
    }
  }

  /** What has been written after i bytes: a space has been put after every full page but the last. */
  ghost function Progress(b: bytes, i: nat): (r: string)
    requires i <= |b|
  {
    PagedHex(b[..i]) + (if i < |b| then Separator(i) else "")
  }

  lemma ProgressStep(b: bytes, i: nat)
    requires i < |b|
    ensures Progress(b, i + 1)
         == Progress(b, i) + HexPair(b[i]) + (if (2 * (i + 1)) % 16 == 0 && i != |b| - 1 then " " else "")
    ensures |Progress(b, i + 1)| <= |PagedHex(b)|
    ensures |b| <= 2048 ==> |Progress(b, i + 1)| < 2 * (i + 1) + 256
  {
    SeparatorAt(i + 1);
    SeparatorLength(i + 1);
    PagedHexLength(b);
    PagedHexLength(b[..i + 1]);
    hide Separator;
    assert b[..i + 1][..i] == b[..i];
  }

  lemma SeparatorAt(n: nat)
    requires n > 0
    ensures Separator(n) == if (2 * n) % 16 == 0 then " " else ""
  {
  }

  lemma SeparatorLength(n: nat)
    ensures |Separator(n)| == if n == 0 then 0 else n / 8 - (n - 1) / 8
  {
  }

  lemma ProgressEnds(b: bytes)
    ensures Progress(b, 0) == "" && Progress(b, |b|) == PagedHex(b)
    ensures |PagedHex(b)| + 1 == Needed(|b|)
  {
    if b != [] { PagedHexLength(b); }
    hide HexPair;
    assert b[..|b|] == b && b[..0] == [];
    assert PagedHex(b) + "" == PagedHex(b);
  }

  lemma HexPairChars(b: byte)
    ensures HexPair(b)[0] == HEX[b / 16] && HexPair(b)[1] == HEX[b % 16]
  {
  }

  /** The loop. */
  method WritePages(byteArray: bytes, asHex: array<char>)
    requires |byteArray| <= 2048 && asHex.Length >= Needed(|byteArray|)
    modifies asHex
    ensures |PagedHex(byteArray)| + 1 == Needed(|byteArray|)
    ensures asHex[..] == PagedHex(byteArray) + [NUL] + old(asHex[Needed(|byteArray|)..])
  {
    hide PagedHex, Progress, HexPair, Needed;
    var len := |byteArray|;
    var offset: byte := 0;
    ProgressEnds(byteArray);
    for i := 0 to len
      invariant 2 * i + offset == |Progress(byteArray, i)| <= |PagedHex(byteArray)|
      invariant forall k | 0 <= k < 2 * i + offset :: asHex[k] == Progress(byteArray, i)[k]
      invariant forall k | Needed(len) <= k < asHex.Length :: asHex[k] == old(asHex[k])
    {
      ProgressStep(byteArray, i);
      HexPairChars(byteArray[i]);
      asHex[2 * i + offset] := HEX[byteArray[i] / 16];
      asHex[2 * i + (offset + 1)] := HEX[byteArray[i] % 16];
      if (2 * (i + 1)) % 16 == 0 && i != len - 1 {
        asHex[2 * i + (offset + 2)] := ' ';
        offset := offset + 1;
      }
    }
    asHex[2 * len + offset] := NUL;
    assert asHex[..|PagedHex(byteArray)|] == PagedHex(byteArray);
  }

  /** toPaginatedHex.  asHex is the memory that the buffer of asHexSize is part of. */
  method ToPaginatedHex(byteArray: bytes, asHex: array<char>, asHexSize: nat) returns (overflow: bool)
    requires |byteArray| <= 2048
    requires Passes(asHexSize, |byteArray|) ==> asHex.Length >= Needed(|byteArray|)
    modifies asHex
    ensures overflow <==> !Passes(asHexSize, |byteArray|)
    ensures overflow ==> asHex[..] == old(asHex[..])
    ensures !overflow ==> |PagedHex(byteArray)| + 1 == Needed(|byteArray|)
    ensures !overflow ==> asHex[..] == PagedHex(byteArray) + [NUL] + old(asHex[Needed(|byteArray|)..])
  {
    hide PagedHex, Needed;
    if asHexSize < |byteArray| * 2 + |byteArray| / 16 + 1 {
      return true;
    }
    WritePages(byteArray, asHex);
    overflow := false;
  }
}
