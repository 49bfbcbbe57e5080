/** Machine integers and big-endian byte strings, as the handlers read and hash them. */
module Bytes {
  type byte = x: int | 0 <= x < 0x100
  type u16 = x: int | 0 <= x < 0x1_0000
  type u32 = x: int | 0 <= x < 0x1_0000_0000
  type u64 = x: int | 0 <= x < 0x1_0000_0000_0000_0000

  type bytes = seq<byte>

  datatype Option<+T> = None | Some(value: T)

  /** U2BE, U4BE and U8BE of the SDK and of util.h: big-endian reads at an offset. */
  function U2BE(b: bytes, at: nat): (r: u16)
    requires at + 2 <= |b|
  {
    (b[at] as int) * 0x100 + b[at + 1]
  }

  function U4BE(b: bytes, at: nat): (r: u32)
    requires at + 4 <= |b|
  {
    (U2BE(b, at) as int) * 0x1_0000 + U2BE(b, at + 2)
  }

  function U8BE(b: bytes, at: nat): (r: u64)
    requires at + 8 <= |b|
  {
    (U4BE(b, at) as int) * 0x1_0000_0000 + U4BE(b, at + 4)
  }

  /** The serializations the chain uses for unsigned integers. */
  function Put2(n: u16): (r: bytes)
    ensures |r| == 2
  {
    [n / 0x100, n % 0x100]
  }

  function Put4(n: u32): (r: bytes)
    ensures |r| == 4
  {
    Put2(n / 0x1_0000) + Put2(n % 0x1_0000)
  }

  lemma Put2Get2(b: bytes, at: nat)
    requires at + 2 <= |b|
    ensures Put2(U2BE(b, at)) == b[at..at + 2]
  {
  }

  lemma Put4Get4(b: bytes, at: nat)
    requires at + 4 <= |b|
    ensures Put4(U4BE(b, at)) == b[at..at + 4]
  {
    var hi, lo := U2BE(b, at), U2BE(b, at + 2);
    assert U4BE(b, at) / 0x1_0000 == hi && U4BE(b, at) % 0x1_0000 == lo;
    assert Put2(hi) == b[at..at + 2] && Put2(lo) == b[at + 2..at + 4];
  }

  lemma Put2Injective(m: u16, n: u16)
    requires Put2(m) == Put2(n)
    ensures m == n
  {
    assert Put2(m)[0] == Put2(n)[0] && Put2(m)[1] == Put2(n)[1];
  }

  /** Unsigned arithmetic in 32 bits. */
  function Add32(a: u32, b: u32): (r: u32)
    ensures a + b < 0x1_0000_0000 ==> r == a + b
  {
    (a + b) % 0x1_0000_0000
  }

  function Sub32(a: u32, b: u32): (r: u32)
    ensures a >= b ==> r == a - b
    ensures a < b ==> r == a - b + 0x1_0000_0000
  {
    (a - b) % 0x1_0000_0000
  }

  /** The same in eight bits. */
  function Sub8(a: byte, b: byte): (r: byte)
    ensures a >= b ==> r == a - b
    ensures a < b ==> r == a - b + 0x100
  {
    (a - b) % 0x100
  }

  function NoHash(b: bytes): bytes {
    seq(32, i => 0)
  }

  /** SHA-256 is not interpreted: any function to 32 bytes. */
  type Sha256 = f: bytes -> bytes | forall b :: |f(b)| == 32 witness NoHash
}
