/** The reads of Bytes are big-endian: what they return is the base-256 value of the bytes they read. */
module BigEndian {
  import opened Bytes
  import opened Lists
  import opened Positional

  lemma PowersOf256()
    ensures Pow(256, 1) == 0x100 && Pow(256, 2) == 0x1_0000 && Pow(256, 4) == 0x1_0000_0000
    ensures Pow(256, 8) == 0x1_0000_0000_0000_0000
  {
    assert Pow(256, 1) == Pow(256, 0) * 256;
    PowAdd(256, 1, 1);
    PowAdd(256, 2, 2);
    PowAdd(256, 4, 4);
  }

  lemma Read2(b: bytes, at: nat)
    requires at + 2 <= |b|
    ensures U2BE(b, at) == Value(256, b[at..at + 2])
  {
    PowersOf256();
    assert b[at..at + 2] == [b[at]] + [b[at + 1]];
    ValueAppend(256, [b[at]], [b[at + 1]]);
    ValueOfOne(256, b[at]);
    ValueOfOne(256, b[at + 1]);
  }

  lemma Read4(b: bytes, at: nat)
    requires at + 4 <= |b|
    ensures U4BE(b, at) == Value(256, b[at..at + 4])
  {
    hide Value, Pow;
    PowersOf256();
    Read2(b, at);
    Read2(b, at + 2);
    assert b[at..at + 4] == b[at..at + 2] + b[at + 2..at + 4];
    ValueAppend(256, b[at..at + 2], b[at + 2..at + 4]);
  }

  lemma Read8(b: bytes, at: nat)
    requires at + 8 <= |b|
    ensures U8BE(b, at) == Value(256, b[at..at + 8])
  {
    hide Value, Pow;
    PowersOf256();
    Read4(b, at);
    Read4(b, at + 4);
    assert b[at..at + 8] == b[at..at + 4] + b[at + 4..at + 8];
    ValueAppend(256, b[at..at + 4], b[at + 4..at + 8]);
  }

  /** What is written big-endian has the value that was written. */
  lemma Wrote2(n: u16)
    ensures Value(256, Put2(n)) == n
  {
    Read2(Put2(n), 0);
    assert Put2(n)[0..2] == Put2(n);
  }

  lemma Wrote4(n: u32)
    ensures Value(256, Put4(n)) == n
  {
    var b := Put4(n);
    Put4Get4(b, 0);
    assert b[0..4] == b;
    Put4Injective(U4BE(b, 0), n);
    Read4(b, 0);
  }
}
