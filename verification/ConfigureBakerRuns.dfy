/** Whole runs of configure-baker: exactly which byte strings can be signed. */
module ConfigureBakerRuns {
  import opened Bytes
  import opened Lists
  import opened Device
  import opened Runs
  import opened ConfigureBakerTx

  // ------------------------------------------------------------------ the transaction

  datatype Tx = Tx(header: bytes, bitmap: u16, first: bytes, aggregation: bytes, url: bytes, rates: bytes)

  /** Every announced field is there once, with its exact length and in the order of the bitmap, and no
      other field is. */
  predicate WellFormed(tx: Tx) {
    var f := FieldsOf(tx.bitmap);
    && |tx.header| == 61 && tx.header[60] == CONFIGURE_BAKER && BitmapOk(tx.bitmap)
    && FirstOk(f, tx.first) && |tx.aggregation| == (if f.keys then 160 else 0)
    && |tx.url| <= (if f.url then MAX_URL else 0) && RatesOk(f, tx.rates)
  }

  function UrlPart(announced: bool, url: bytes): (r: bytes)
    requires |url| <= MAX_URL
  {
    if announced then Put2(|url|) + url else []
  }

  function TxBytes(tx: Tx): (r: bytes)
    requires |tx.url| <= MAX_URL
  {
    tx.header + Put2(tx.bitmap) + tx.first + tx.aggregation + UrlPart(FieldsOf(tx.bitmap).url, tx.url) + tx.rates
  }

  function Received(p: Progress): (r: Tx) {
    Tx(p.header, p.bitmap, p.first, p.aggregation, Flat(p.pieces), p.rates)
  }

  lemma ReceivedBytes(p: Progress)
    requires ProgressOk(p) && p.stage.End?
    ensures WellFormed(Received(p)) && TxBytes(Received(p)) == Transcript(p)
  {
    hide FieldsOf, Put2;
    NoPieces();
  }

  ghost predicate Signs(packets: seq<Packet>, b: bytes) {
    var r := Run(Accept, BEGIN, packets);
    r.Ok? && r.value.stage.End? && Gathered(Accept, Hashed, BEGIN, packets) == b
  }

  lemma SignedIsTx(packets: seq<Packet>, b: bytes)
    requires Signs(packets, b)
    ensures var p := Run(Accept, BEGIN, packets).value;
            ProgressOk(p) && WellFormed(Received(p)) && TxBytes(Received(p)) == b
  {
    forall p: Progress, packet: Packet | ProgressOk(p) && Accept(p, packet).Ok?
      ensures ProgressOk(Accept(p, packet).value)
      ensures Transcript(Accept(p, packet).value) == Transcript(p) + Hashed(p, packet)
    {
      AcceptExtends(p, packet);
    }
    hide Accept, Hashed, ProgressOk, Run, Gathered, Transcript, TxBytes, WellFormed;
    assert Sound(Accept, Hashed, ProgressOk, Transcript);
    Began(BEGIN);
    RunSound(Accept, Hashed, ProgressOk, Transcript, BEGIN, packets);
    ReceivedBytes(Run(Accept, BEGIN, packets).value);
    assert [] + b == b;
  }

  // ------------------------------------------------------------------ completeness

  function Packed(p1: byte, b: bytes): (r: Packet)
    requires |b| <= 255
  {
    Packet(p1, 0, Pad(b), |b|)
  }

  /** What has been received before the URL. */
  function Base(tx: Tx): (r: Progress) {
    BEGIN.(header := tx.header, bitmap := tx.bitmap, fields := FieldsOf(tx.bitmap), first := tx.first,
           aggregation := tx.aggregation)
  }

  function AtFirst(tx: Tx): (r: Progress) {
    var f := FieldsOf(tx.bitmap);
    Base(tx).(first := [], aggregation := [], stage := if f.First() then First else AfterFirst(f))
  }

  function AtUrl(tx: Tx): (r: Progress) {
    Base(tx).(stage := AfterFirst(FieldsOf(tx.bitmap)))
  }

  function AtRates(tx: Tx): (r: Progress) {
    if |tx.url| < 0x1_0000
        then Base(tx).(length := |tx.url|, pieces := Cut(tx.url), stage := AfterUrl(FieldsOf(tx.bitmap)))
    else AtUrl(tx)
  }

  lemma SendStart(tx: Tx) returns (packet: Packet)
    requires WellFormed(tx)
    ensures Accept(BEGIN, packet) == Ok(AtFirst(tx))
  {
    hide FieldsOf, FirstOk, RatesOk;
    var head := [0] + tx.header;
    var b := head + Put2(tx.bitmap);
    var data := Pad(b);
    ReadPut2(head, tx.bitmap);
    assert data[..62] == head;
    assert data[0] == data[..62][0] && data[61] == data[..62][61] && data[1..62] == data[..62][1..62] == tx.header;
    packet := Packet(P1_INITIAL, 0, data, 64);
  }

  lemma SendFirst(tx: Tx) returns (packets: seq<Packet>)
    requires WellFormed(tx)
    ensures Run(Accept, AtFirst(tx), packets) == Ok(AtUrl(tx))
  {
    hide FieldsOf, RatesOk;
    var f, p := FieldsOf(tx.bitmap), AtFirst(tx);
    if f.First() {
      var x := Packed(P1_FIRST_BATCH, tx.first);
      var q := p.(first := tx.first, stage := if f.keys then Aggregation else AfterFirst(f));
      assert Accept(p, x) == Ok(q);
      hide FirstOk;
      One(Accept, p, x);
      packets := [x];
      if f.keys {
        var y := Packed(P1_AGGREGATION_KEY, tx.aggregation);
        assert Accept(q, y) == Ok(AtUrl(tx));
        One(Accept, q, y);
        Both(Accept, p, [x], q, [y], AtUrl(tx));
        packets := [x] + [y];
      }
    } else {
      packets := [];
      assert tx.first == [] && tx.aggregation == [];
      assert Run(Accept, p, []) == Ok(p);
    }
  }

  /** All pieces of the URL from the k-th on. */
  lemma {:induction false} SendPieces(p: Progress, pieces: seq<bytes>, k: nat) returns (packets: seq<Packet>)
    requires Chunks(pieces) && k < |pieces| && pieces[|pieces| - 1] != [] && |Flat(pieces)| == p.length
    requires p.stage.Url? && p.pieces == pieces[..k]
    ensures Run(Accept, p, packets) == Ok(p.(pieces := pieces, stage := AfterUrl(p.fields)))
    decreases |pieces| - k
  {
    var x := Packed(P1_URL, pieces[k]);
    var end := p.(pieces := pieces, stage := AfterUrl(p.fields));
    Prefixes(pieces, k);
    hide Flat;
    One(Accept, p, x);
    if k + 1 == |pieces| {
      assert pieces[..k + 1] == pieces;
      packets := [x];
    } else {
      var q := p.(pieces := pieces[..k + 1]);
      assert Accept(p, x) == Ok(q);
      var rest := SendPieces(q, pieces, k + 1);
      Both(Accept, p, [x], q, rest, end);
      packets := [x] + rest;
    }
  }

  lemma SendUrl(tx: Tx) returns (packets: seq<Packet>)
    requires WellFormed(tx)
    ensures Run(Accept, AtUrl(tx), packets) == Ok(AtRates(tx))
  {
    hide FieldsOf, RatesOk, FirstOk;
    var f, p, n := FieldsOf(tx.bitmap), AtUrl(tx), |tx.url|;
    CutFlat(tx.url);
    if f.url {
      var x := Packed(P1_URL_LENGTH, Put2(n));
      ReadPut2([], n);
      assert [] + Put2(n) == Put2(n);
      One(Accept, p, x);
      packets := [x];
      if n > 0 {
        var q := p.(length := n, stage := Url);
        assert Accept(p, x) == Ok(q);
        assert Cut(tx.url)[..0] == [];
        var rest := SendPieces(q, Cut(tx.url), 0);
        Both(Accept, p, [x], q, rest, AtRates(tx));
        packets := [x] + rest;
      }
    } else {
      packets := [];
      assert tx.url == [];
      assert Run(Accept, p, []) == Ok(p);
    }
  }

  lemma SendRates(tx: Tx) returns (packets: seq<Packet>)
    requires WellFormed(tx)
    ensures Run(Accept, AtRates(tx), packets) == Ok(AtRates(tx).(rates := tx.rates, stage := End))
  {
    hide FieldsOf, FirstOk;
    var f, p := FieldsOf(tx.bitmap), AtRates(tx);
    if f.Rates() {
      var x := Packed(P1_COMMISSION_RATES, tx.rates);
      One(Accept, p, x);
      packets := [x];
    } else {
      packets := [];
      assert Run(Accept, p, []) == Ok(p);
    }
  }

  lemma SendAll(tx: Tx) returns (packets: seq<Packet>)
    requires WellFormed(tx)
    ensures Run(Accept, BEGIN, packets) == Ok(AtRates(tx).(rates := tx.rates, stage := End))
    ensures Received(AtRates(tx).(rates := tx.rates, stage := End)) == tx
  {
    hide FieldsOf, FirstOk, RatesOk, Accept, Run;
    CutFlat(tx.url);
    var x := SendStart(tx);
    One(Accept, BEGIN, x);
    var xs := SendFirst(tx);
    var ys := SendUrl(tx);
    var zs := SendRates(tx);
    var end := AtRates(tx).(rates := tx.rates, stage := End);
    Both(Accept, BEGIN, [x], AtFirst(tx), xs, AtUrl(tx));
    Both(Accept, BEGIN, [x] + xs, AtUrl(tx), ys, AtRates(tx));
    Both(Accept, BEGIN, [x] + xs + ys, AtRates(tx), zs, end);
    packets := [x] + xs + ys + zs;
  }

  // ------------------------------------------------------------------ what can be signed

  lemma TxBytesInjective(tx: Tx, ty: Tx)
    requires WellFormed(tx) && WellFormed(ty) && TxBytes(tx) == TxBytes(ty)
    ensures tx == ty
  {
    hide FieldsOf, Put2, FirstOk, RatesOk, UrlPart, BitmapOk;
    SameEnds(tx, ty);
    var u := UrlPart(FieldsOf(tx.bitmap).url, tx.url) + tx.rates;
    var v := UrlPart(FieldsOf(ty.bitmap).url, ty.url) + ty.rates;
    Nested(tx);
    Nested(ty);
    hide TxBytes;
    Split(tx.header, ty.header, Put2(tx.bitmap) + (tx.first + (tx.aggregation + u)), Put2(ty.bitmap)
        + (ty.first + (ty.aggregation + v)));
    Split(Put2(tx.bitmap), Put2(ty.bitmap), tx.first + (tx.aggregation + u), ty.first + (ty.aggregation + v));
    Put2Injective(tx.bitmap, ty.bitmap);
    Split(tx.first, ty.first, tx.aggregation + u, ty.aggregation + v);
    Split(tx.aggregation, ty.aggregation, u, v);
    SplitUrl(FieldsOf(tx.bitmap).url, tx.url, ty.url, tx.rates, ty.rates);
  }

  lemma Nested(tx: Tx)
    requires |tx.url| <= MAX_URL
    ensures TxBytes(tx) == tx.header + (Put2(tx.bitmap) + (tx.first + (tx.aggregation
                           + (UrlPart(FieldsOf(tx.bitmap).url, tx.url) + tx.rates))))
  {
    hide FieldsOf, Put2, UrlPart;
  }

  lemma SameEnds(tx: Tx, ty: Tx)
    requires WellFormed(tx) && WellFormed(ty)
    ensures tx.bitmap == ty.bitmap ==> |tx.first| == |ty.first| && |tx.rates| == |ty.rates|
  {
  }

  lemma SplitUrl(announced: bool, x: bytes, y: bytes, r: bytes, s: bytes)
    requires |x| <= MAX_URL && |y| <= MAX_URL && (!announced ==> x == y == [])
    requires UrlPart(announced, x) + r == UrlPart(announced, y) + s
    ensures x == y && r == s
  {
    hide Put2;
    if announced {
      Regroup(Put2(|x|), x, r);
      Regroup(Put2(|y|), y, s);
      Split(Put2(|x|), Put2(|y|), x + r, y + s);
      Put2Injective(|x|, |y|);
      Split(x, y, r, s);
    } else {
      assert [] + r == r && [] + s == s;
    }
  }

  /** A byte string can be brought to the sign screen if and only if it serializes a well-formed
      transaction; the transaction is then determined. */
  lemma SignedStrings(b: bytes)
    ensures (exists packets: seq<Packet> :: Signs(packets, b)) <==> (exists tx: Tx :: WellFormed(tx) && TxBytes(tx) == b)
  {
    hide Accept, Run, Gathered, FieldsOf, FirstOk, RatesOk, Received, ProgressOk;
    if packets: seq<Packet> :| Signs(packets, b) {
      SignedIsTx(packets, b);
      assert TxBytes(Received(Run(Accept, BEGIN, packets).value)) == b;
    }
    if tx: Tx :| WellFormed(tx) && TxBytes(tx) == b {
      var packets := SendAll(tx);
      var gathered := Gathered(Accept, Hashed, BEGIN, packets);
      assert Signs(packets, gathered);
      SignedIsTx(packets, gathered);
    }
  }
}
