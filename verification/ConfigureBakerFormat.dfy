/** Configure-baker bit by bit: which fields are signed behind the bitmap, and which steps show them. */
module ConfigureBakerFormat {
  import opened Bytes
  import opened Lists
  import opened Positional
  import opened Device
  import opened Runs
  import opened ConfigureBakerTx
  import opened ConfigureBakerRuns
  import BigEndian

  predicate Bit(bitmap: nat, i: nat) {
    bitmap / Pow(2, i) % 2 == 1
  }

  /** Capital, restake earnings, open status, the keys with their proofs, the URL behind its length, and the
      three rates. */
  ghost predicate FieldOk(i: nat, field: bytes) {
    match i
    case 0 => |field| == 8
    case 1 => |field| == 1 && field[0] <= 1
    case 2 => |field| == 1 && field[0] <= 2
    case 3 => |field| == 192 + 160
    case 4 => 2 <= |field| <= 2 + 2048 && |field| == 2 + Value(256, field[..2])
    case _ => |field| == 4 && Value(256, field) <= 100000
  }

  /** The fields whose bit is set, and no others. */
  ghost predicate Announced(bitmap: nat, fields: seq<bytes>) {
    |fields| == 8 && forall i | 0 <= i < 8 :: if Bit(bitmap, i) then FieldOk(i, fields[i]) else fields[i] == []
  }

  /** Header and kind; a bitmap of ten bits, of which one of the low eight is set; and the announced fields in
      the order of their bits. */
  ghost predicate Format(b: bytes) {
    && |b| >= 63 && b[60] == 25
    && var bitmap := Value(256, b[61..63]);
       && bitmap <= 1023 && (exists i | 0 <= i < 8 :: Bit(bitmap, i))
       && exists fields :: Announced(bitmap, fields) && b[63..] == Flat(fields)
  }

  lemma PowersOfTwo()
    ensures Pow(2, 0) == 1 && Pow(2, 1) == 2 && Pow(2, 2) == 4 && Pow(2, 3) == 8
    ensures Pow(2, 4) == 16 && Pow(2, 5) == 32 && Pow(2, 6) == 64 && Pow(2, 7) == 128
  {
    PowAdd(2, 3, 1);
    PowAdd(2, 3, 2);
    PowAdd(2, 3, 3);
    PowAdd(2, 3, 4);
  }

  function ByBit(bitmap: nat): (r: Fields) {
    Fields(Bit(bitmap, 0), Bit(bitmap, 1), Bit(bitmap, 2), Bit(bitmap, 3),
           Bit(bitmap, 4), Bit(bitmap, 5), Bit(bitmap, 6), Bit(bitmap, 7))
  }

  /** FieldsOf shifts; here is what it reads. */
  lemma Bits(bitmap: u16)
    ensures FieldsOf(bitmap) == ByBit(bitmap)
  {
    PowersOfTwo();
    hide Pow;
  }

  lemma SomeBit(bitmap: u16)
    ensures BitmapOk(bitmap) <==> bitmap <= 1023 && exists i | 0 <= i < 8 :: Bit(bitmap, i)
  {
    Bits(bitmap);
    hide FieldsOf, Bit;
    if BitmapOk(bitmap) {
      var i := if Bit(bitmap, 0) then 0 else if Bit(bitmap, 1) then 1 else if Bit(bitmap, 2) then 2
               else if Bit(bitmap, 3) then 3 else if Bit(bitmap, 4) then 4 else if Bit(bitmap, 5) then 5
               else if Bit(bitmap, 6) then 6 else 7;
      assert Bit(bitmap, i);
    }
  }

  // ------------------------------------------------------------------ a transaction has the format

  function FieldsIn(tx: Tx): (r: seq<bytes>)
    requires WellFormed(tx)
    ensures |r| == 8
  {
    var f := FieldsOf(tx.bitmap);
    var c, s, o, e, w := CapitalEnd(f), RestakeEnd(f), OpenEnd(f), FeeEnd(f), RewardEnd(f);
    [tx.first[..c], tx.first[c..s], tx.first[s..o], tx.first[o..] + tx.aggregation, UrlPart(f.url, tx.url),
     tx.rates[..e], tx.rates[e..w], tx.rates[w..]]
  }

  lemma FlatEight(a: bytes, b: bytes, c: bytes, d: bytes, e: bytes, f: bytes, g: bytes, h: bytes)
    ensures Flat([a, b, c, d, e, f, g, h]) == a + b + c + d + e + f + g + h
  {
    var none: seq<bytes> := [];
    FlatAppend(none, a);
    FlatAppend([a], b);
    FlatAppend([a, b], c);
    FlatAppend([a, b, c], d);
    FlatAppend([a, b, c, d], e);
    FlatAppend([a, b, c, d, e], f);
    FlatAppend([a, b, c, d, e, f], g);
    FlatAppend([a, b, c, d, e, f, g], h);
    assert [a, b] == [a] + [b] && none + [a] == [a];
    assert [a, b, c] == [a, b] + [c];
    assert [a, b, c, d] == [a, b, c] + [d];
    assert [a, b, c, d, e] == [a, b, c, d] + [e];
    assert [a, b, c, d, e, f] == [a, b, c, d, e] + [f];
    assert [a, b, c, d, e, f, g] == [a, b, c, d, e, f] + [g];
    assert [a, b, c, d, e, f, g, h] == [a, b, c, d, e, f, g] + [h];
    assert Flat(none) + a == a;
  }

  lemma FieldsFlat(tx: Tx)
    requires WellFormed(tx)
    ensures Flat(FieldsIn(tx)) == tx.first + tx.aggregation + UrlPart(FieldsOf(tx.bitmap).url, tx.url) + tx.rates
  {
    var f, url := FieldsOf(tx.bitmap), UrlPart(FieldsOf(tx.bitmap).url, tx.url);
    var c, s, o, e, w := CapitalEnd(f), RestakeEnd(f), OpenEnd(f), FeeEnd(f), RewardEnd(f);
    FlatEight(tx.first[..c], tx.first[c..s], tx.first[s..o], tx.first[o..] + tx.aggregation, url,
              tx.rates[..e], tx.rates[e..w], tx.rates[w..]);
    Rejoin(tx.first, c, s, o, tx.aggregation, url, tx.rates, e, w);
  }

  lemma Rejoin(x: bytes, c: nat, s: nat, o: nat, y: bytes, u: bytes, z: bytes, e: nat, w: nat)
    requires c <= s <= o <= |x| && e <= w <= |z|
    ensures x[..c] + x[c..s] + x[s..o] + (x[o..] + y) + u + z[..e] + z[e..w] + z[w..] == x + y + u + z
  {
  }

  lemma UrlField(url: bytes)
    requires |url| <= MAX_URL
    ensures FieldOk(4, UrlPart(true, url)) && UrlPart(false, url) == []
  {
    hide Put2, Value;
    BigEndian.Wrote2(|url|);
    assert UrlPart(true, url)[..2] == Put2(|url|);
  }

  lemma RateField(rates: bytes, at: nat, next: nat)
    requires at <= next <= |rates| && next <= at + 4 && (next == at + 4 ==> U4BE(rates, at) <= MAX_RATE)
    ensures next == at + 4 ==> FieldOk(5, rates[at..next]) && FieldOk(6, rates[at..next]) && FieldOk(7, rates[at..next])
  {
    hide Value, U4BE;
    if next == at + 4 { BigEndian.Read4(rates, at); }
  }

  ghost predicate Fits(announced: bool, i: nat, field: bytes) {
    if announced then FieldOk(i, field) else field == []
  }

  lemma FirstFields(tx: Tx)
    requires WellFormed(tx)
    ensures var f, fields := FieldsOf(tx.bitmap), FieldsIn(tx);
            && Fits(f.capital, 0, fields[0]) && Fits(f.restake, 1, fields[1]) && Fits(f.open, 2, fields[2])
            && Fits(f.keys, 3, fields[3])
  {
    hide FieldsOf, UrlPart, RatesOk;
  }

  lemma OtherFields(tx: Tx)
    requires WellFormed(tx)
    ensures var f, fields := FieldsOf(tx.bitmap), FieldsIn(tx);
            && Fits(f.url, 4, fields[4])
            && Fits(f.fee, 5, fields[5]) && Fits(f.reward, 6, fields[6]) && Fits(f.finalization, 7, fields[7])
  {
    hide FieldsOf, UrlPart, FirstOk, FieldOk, U4BE;
    var f := FieldsOf(tx.bitmap);
    UrlField(tx.url);
    assert tx.rates[0..FeeEnd(f)] == tx.rates[..FeeEnd(f)];
    assert tx.rates[RewardEnd(f)..|tx.rates|] == tx.rates[RewardEnd(f)..];
    RateField(tx.rates, 0, FeeEnd(f));
    RateField(tx.rates, FeeEnd(f), RewardEnd(f));
    RateField(tx.rates, RewardEnd(f), |tx.rates|);
  }

  lemma FieldsAnnounced(tx: Tx)
    requires WellFormed(tx)
    ensures Announced(tx.bitmap, FieldsIn(tx))
  {
    hide FieldsIn, FieldOk, WellFormed, FieldsOf, Bit, Fits;
    FirstFields(tx);
    OtherFields(tx);
    Bits(tx.bitmap);
    var fields := FieldsIn(tx);
    forall i | 0 <= i < 8
      ensures Fits(Bit(tx.bitmap, i), i, fields[i])
    {
      assert i == 0 || i == 1 || i == 2 || i == 3 || i == 4 || i == 5 || i == 6 || i == 7;
    }
    AllFit(tx.bitmap, fields);
  }

  lemma AllFit(bitmap: nat, fields: seq<bytes>)
    requires |fields| == 8 && forall i | 0 <= i < 8 :: Fits(Bit(bitmap, i), i, fields[i])
    ensures Announced(bitmap, fields)
  {
    hide Bit, FieldOk;
  }

  lemma TxHasFormat(tx: Tx)
    requires WellFormed(tx)
    ensures Format(TxBytes(tx))
  {
    hide FieldsOf, Put2, Value, UrlPart, Bit, Flat, Announced, FirstOk, RatesOk, BitmapOk;
    BigEndian.Wrote2(tx.bitmap);
    SomeBit(tx.bitmap);
    FieldsAnnounced(tx);
    FieldsFlat(tx);
    HeadOf(tx.header, tx.bitmap, tx.first, tx.aggregation, UrlPart(FieldsOf(tx.bitmap).url, tx.url), tx.rates);
    assert Announced(tx.bitmap, FieldsIn(tx));
  }

  lemma HeadOf(header: bytes, bitmap: u16, x: bytes, y: bytes, u: bytes, z: bytes)
    requires |header| == 61
    ensures var b := header + Put2(bitmap) + x + y + u + z;
            |b| >= 63 && b[60] == header[60] && b[61..63] == Put2(bitmap) && b[63..] == x + y + u + z
                && b[..61] == header
  {
    hide Put2;
  }

  // ------------------------------------------------------------------ the format is that of a transaction

  function TxOf(header: bytes, bitmap: u16, fields: seq<bytes>): (r: Tx)
    requires |fields| == 8
  {
    var keys, url := fields[3], fields[4];
    var long := |keys| == 352;
    Tx(header, bitmap, fields[0] + fields[1] + fields[2] + (if long then keys[..192] else []),
       if long then keys[192..] else [], if |url| >= 2 then url[2..] else [], fields[5] + fields[6] + fields[7])
  }

  lemma FirstOfFields(bitmap: u16, fields: seq<bytes>)
    requires Announced(bitmap, fields)
    ensures var f, tx := FieldsOf(bitmap), TxOf([], bitmap, fields);
            && FirstOk(f, tx.first) && |tx.aggregation| == (if f.keys then 160 else 0)
            && tx.first + tx.aggregation == fields[0] + fields[1] + fields[2] + fields[3]
  {
    Bits(bitmap);
    hide FieldsOf, Bit;
    var f := FieldsOf(bitmap);
    assert Fits(f.capital, 0, fields[0]) && Fits(f.restake, 1, fields[1]) && Fits(f.open, 2, fields[2])
        && Fits(f.keys, 3, fields[3]);
    hide Announced;
    FirstOfFour(f, fields[0], fields[1], fields[2], fields[3]);
  }

  lemma FirstOfFour(f: Fields, a: bytes, b: bytes, c: bytes, keys: bytes)
    requires Fits(f.capital, 0, a) && Fits(f.restake, 1, b) && Fits(f.open, 2, c) && Fits(f.keys, 3, keys)
    ensures var tx := TxOf([], 0, [a, b, c, keys, [], [], [], []]);
            && FirstOk(f, tx.first) && |tx.aggregation| == (if f.keys then 160 else 0)
            && tx.first + tx.aggregation == a + b + c + keys
  {
    var x := if f.keys then keys[..192] else [];
    assert |a| == CapitalEnd(f) && |a + b| == RestakeEnd(f) && |a + b + c| == OpenEnd(f);
    assert f.restake ==> (a + b + c + x)[|a|] == b[0];
    assert f.open ==> (a + b + c + x)[|a + b|] == c[0];
    if f.keys {
      assert keys == x + keys[192..];
      Regroup(a + b + c, x, keys[192..]);
    } else {
      assert a + b + c + [] + [] == a + b + c + [];
    }
  }

  lemma UrlOfFields(bitmap: u16, fields: seq<bytes>)
    requires Announced(bitmap, fields)
    ensures var f, tx := FieldsOf(bitmap), TxOf([], bitmap, fields);
            |tx.url| <= (if f.url then MAX_URL else 0) && UrlPart(f.url, tx.url) == fields[4]
  {
    Bits(bitmap);
    hide FieldsOf, Bit, Value, Put2, U2BE;
    var f, url := FieldsOf(bitmap), fields[4];
    assert if f.url then FieldOk(4, url) else url == [];
    if f.url {
      BigEndian.Read2(url, 0);
      Put2Get2(url, 0);
      assert url == url[0..2] + url[2..] && url[0..2] == url[..2];
    }
  }

  lemma RatesOfFields(bitmap: u16, fields: seq<bytes>)
    requires Announced(bitmap, fields)
    ensures var f, tx := FieldsOf(bitmap), TxOf([], bitmap, fields);
            RatesOk(f, tx.rates)
  {
    Bits(bitmap);
    hide FieldsOf, Bit, Value, U4BE;
    var f := FieldsOf(bitmap);
    assert (if f.fee then FieldOk(5, fields[5]) else fields[5] == [])
        && (if f.reward then FieldOk(6, fields[6]) else fields[6] == [])
        && (if f.finalization then FieldOk(7, fields[7]) else fields[7] == []);
    Rate(fields[5] + fields[6] + fields[7], 0, fields[5]);
    Rate(fields[5] + fields[6] + fields[7], |fields[5]|, fields[6]);
    Rate(fields[5] + fields[6] + fields[7], |fields[5] + fields[6]|, fields[7]);
    hide Announced;
  }

  lemma Rate(rates: bytes, at: nat, field: bytes)
    requires at + |field| <= |rates| && rates[at..at + |field|] == field
    ensures |field| == 4 ==> U4BE(rates, at) == Value(256, field)
  {
    if |field| == 4 { BigEndian.Read4(rates, at); }
  }

  lemma FormatOfTx(b: bytes) returns (tx: Tx)
    requires Format(b)
    ensures WellFormed(tx) && TxBytes(tx) == b
  {
    hide Bit, FieldsOf, Announced, Value, BitmapOk, FirstOk, RatesOk, UrlPart, Flat;
    BigEndian.Read2(b, 61);
    var bitmap := U2BE(b, 61);
    SomeBit(bitmap);
    var fields: seq<bytes> :| Announced(Value(256, b[61..63]), fields) && b[63..] == Flat(fields);
    Eight(bitmap, fields);
    tx := TxOf(b[..61], bitmap, fields);
    FirstOfFields(bitmap, fields);
    UrlOfFields(bitmap, fields);
    RatesOfFields(bitmap, fields);
    Put2Get2(b, 61);
    hide Put2, U2BE, TxOf;
    Whole(b, fields, tx.first, tx.aggregation, UrlPart(FieldsOf(bitmap).url, tx.url), tx.rates);
  }

  lemma Eight(bitmap: nat, fields: seq<bytes>)
    requires Announced(bitmap, fields)
    ensures |fields| == 8
    ensures Flat(fields) == fields[0] + fields[1] + fields[2] + fields[3] + fields[4] + fields[5] + fields[6]
        + fields[7]
  {
    hide Bit, FieldOk, Flat;
    FlatEight(fields[0], fields[1], fields[2], fields[3], fields[4], fields[5], fields[6], fields[7]);
    assert fields == [fields[0], fields[1], fields[2], fields[3], fields[4], fields[5], fields[6], fields[7]];
  }

  lemma Whole(b: bytes, f: seq<bytes>, x: bytes, y: bytes, u: bytes, z: bytes)
    requires |b| >= 63 && |f| == 8 && b[63..] == f[0] + f[1] + f[2] + f[3] + f[4] + f[5] + f[6] + f[7]
    requires x + y == f[0] + f[1] + f[2] + f[3] && u == f[4] && z == f[5] + f[6] + f[7]
    ensures b[..61] + b[61..63] + x + y + u + z == b
  {
    assert b[..61] + b[61..63] + b[63..] == b;
    assert b[63..] == (x + y) + u + z;
  }

  /** A byte string can be brought to the sign screen by the packets of a transaction if and only if it has the
      format: behind the bitmap the fields whose bit is set, from the lowest bit on, and nothing else. */
  lemma SignedFormat(b: bytes)
    ensures (exists packets: seq<Packet> :: Signs(packets, b)) <==> Format(b)
    ensures (exists tx: Tx :: WellFormed(tx) && TxBytes(tx) == b) <==> Format(b)
  {
    hide Signs, TxBytes, Format, FieldsOf, FirstOk, RatesOk, BitmapOk;
    SignedStrings(b);
    if tx: Tx :| WellFormed(tx) && TxBytes(tx) == b {
      TxHasFormat(tx);
    }
    if Format(b) {
      var tx := FormatOfTx(b);
      assert WellFormed(tx) && TxBytes(tx) == b;
    }
  }
}
