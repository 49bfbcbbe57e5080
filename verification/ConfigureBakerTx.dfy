/** The configure-baker transaction: a bitmap announces which fields follow; serialization, screens, and
    which packets may come next. */
module ConfigureBakerTx {
  import opened Bytes
  import opened Lists
  import opened Device
  import opened NumberHelpers
  import opened Screens

  const CONFIGURE_BAKER: byte := 25
  const MAX_URL := 2048
  const MAX_RATE := 100000

  const P1_INITIAL: byte := 0x00
  const P1_FIRST_BATCH: byte := 0x01
  const P1_AGGREGATION_KEY: byte := 0x02
  const P1_URL_LENGTH: byte := 0x03
  const P1_URL: byte := 0x04
  const P1_COMMISSION_RATES: byte := 0x05

  // ------------------------------------------------------------------ the announced fields

  datatype Fields = Fields(
    capital: bool, restake: bool, open: bool, keys: bool, url: bool, fee: bool, reward: bool, finalization: bool)
  {
    predicate First() {
      capital || restake || open || keys
    }

    /** hasCommissionRate */
    predicate Rates() {
      fee || reward || finalization
    }
  }

  /** The low eight bits, (bitmap >> i) & 1. */
  function FieldsOf(bitmap: u16): (r: Fields) {
    var b1 := bitmap / 2;
    var b2 := b1 / 2;
    var b3 := b2 / 2;
    var b4 := b3 / 2;
    var b5 := b4 / 2;
    var b6 := b5 / 2;
    var b7 := b6 / 2;
    Fields(bitmap % 2 == 1, b1 % 2 == 1, b2 % 2 == 1, b3 % 2 == 1, b4 % 2 == 1, b5 % 2 == 1, b6 % 2 == 1, b7 % 2 == 1)
  }

  /** Some field is announced, and nothing above the tenth bit. */
  predicate BitmapOk(bitmap: u16) {
    bitmap <= 1023 && (FieldsOf(bitmap).First() || FieldsOf(bitmap).url || FieldsOf(bitmap).Rates())
  }

  // Where the fields of the first batch, and the commission rates, end.

  function CapitalEnd(f: Fields): (r: nat) {
    if f.capital then 8 else 0
  }

  function RestakeEnd(f: Fields): (r: nat) {
    CapitalEnd(f) + if f.restake then 1 else 0
  }

  function OpenEnd(f: Fields): (r: nat)
    ensures r <= 10
  {
    RestakeEnd(f) + if f.open then 1 else 0
  }

  function FirstEnd(f: Fields): (r: nat)
    ensures r <= 202
  {
    OpenEnd(f) + if f.keys then 192 else 0
  }

  function FeeEnd(f: Fields): (r: nat) {
    if f.fee then 4 else 0
  }

  function RewardEnd(f: Fields): (r: nat) {
    FeeEnd(f) + if f.reward then 4 else 0
  }

  function RatesEnd(f: Fields): (r: nat)
    ensures r <= 12
  {
    RewardEnd(f) + if f.finalization then 4 else 0
  }

  /** The first batch holds exactly the announced fields, with valid values. */
  predicate FirstOk(f: Fields, b: bytes) {
    && |b| == FirstEnd(f)
    && (f.restake ==> b[CapitalEnd(f)] <= 1) && (f.open ==> b[RestakeEnd(f)] <= 2)
  }

  predicate RatesOk(f: Fields, b: bytes) {
    && |b| == RatesEnd(f)
    && (f.fee ==> U4BE(b, 0) <= MAX_RATE)
    && (f.reward ==> U4BE(b, FeeEnd(f)) <= MAX_RATE)
    && (f.finalization ==> U4BE(b, RewardEnd(f)) <= MAX_RATE)
  }

  // ------------------------------------------------------------------ what has been received

  datatype Stage = Start | First | Aggregation | UrlLength | Url | Rates | End

  datatype Progress = Progress(
    header: bytes, bitmap: u16, fields: Fields, first: bytes, aggregation: bytes, length: u16, pieces: seq<bytes>,
    rates: bytes, stage: Stage)

  const NO_FIELDS := Fields(false, false, false, false, false, false, false, false)
  const BEGIN := Progress([], 0, NO_FIELDS, [], [], 0, [], [], Start)

  predicate HeadOk(p: Progress) {
    && |p.header| == 61 && p.header[60] == CONFIGURE_BAKER && BitmapOk(p.bitmap) && p.fields == FieldsOf(p.bitmap)
  }

  predicate FirstDone(p: Progress) {
    (if p.fields.First() then FirstOk(p.fields, p.first) else p.first == [])
    && |p.aggregation| == (if p.fields.keys then 160 else 0)
  }

  predicate UrlDone(p: Progress) {
    |Flat(p.pieces)| == p.length <= MAX_URL && (!p.fields.url || p.length == 0 ==> p.length == 0 && p.pieces == [])
  }

  ghost predicate ProgressOk(p: Progress) {
    && (!p.stage.Start? ==> HeadOk(p)) && Chunks(p.pieces)
    && match p.stage
       case Start => p == BEGIN
       case First => p.fields.First() && p.first == [] && p.aggregation == [] && p.length == 0 && p.pieces == []
           && p.rates == []
       case Aggregation => p.fields.keys && FirstOk(p.fields, p.first) && p.aggregation == [] && p.length == 0
           && p.pieces == [] && p.rates == []
       case UrlLength => FirstDone(p) && p.fields.url && p.length == 0 && p.pieces == [] && p.rates == []
       case Url => FirstDone(p) && p.fields.url && |Flat(p.pieces)| < p.length <= MAX_URL && p.rates == []
       case Rates => FirstDone(p) && UrlDone(p) && p.fields.Rates() && p.rates == []
       case End => FirstDone(p) && UrlDone(p) && RatesOk(p.fields, p.rates)
  }

  /** The length of the URL has been received. */
  predicate UrlBegun(p: Progress) {
    p.fields.url && (p.stage.Url? || p.stage.Rates? || p.stage.End?)
  }

  function UrlBytes(p: Progress): (r: bytes) {
    if UrlBegun(p) then Put2(p.length) + Flat(p.pieces) else []
  }

  function Transcript(p: Progress): (r: bytes) {
    if p.stage.Start? then [] else p.header + Put2(p.bitmap) + p.first + p.aggregation + UrlBytes(p) + p.rates
  }

  // ------------------------------------------------------------------ the screens

  /** The steps of an announced field. */
  function If(announced: bool, step: Step): (r: seq<Step>) {
    if announced then [step] else []
  }

  function CapitalStep(b: bytes): (r: Step)
    requires |b| >= 8
  {
    if U8BE(b, 0) == 0 then Show("Stop", "baking") else Show("Amount to stake", AmountText(U8BE(b, 0)))
  }

  function RestakeText(value: byte): (r: string) {
    if value == 0 then "No" else "Yes"
  }

  function OpenText(value: byte): (r: string) {
    if value == 0 then "Open for all" else if value == 1 then "Closed for new" else "Closed for all"
  }

  const CONFIRM := [Sign, Decline]

  function FirstBody(f: Fields, b: bytes): (r: Flow)
    requires FirstOk(f, b)
  {
    (if f.capital then [CapitalStep(b)] else [])
    + (if f.restake then [Show("Restake earnings", RestakeText(b[CapitalEnd(f)]))] else [])
    + (if f.open then [Show("Pool status", OpenText(b[RestakeEnd(f)]))] else [])
    + If(f.keys, Show("Update baker", "keys"))
    + (if f.url || f.Rates() then [PROCEED] else CONFIRM)
  }

  function LastPage(f: Fields, step: Step): (r: Flow) {
    [step] + (if f.Rates() then [PROCEED] else CONFIRM)
  }

  /** What urlDisplay holds; it shares its memory with the other members of the union. */
  type UrlBuffer = s: string | |s| == 256 witness seq(256, i => NUL)

  /** What the screens depend on besides the packets: the hash function of the address text, and what
      urlDisplay held when the length of the URL came. */
  datatype Before = Before(sha: Sha256, url: UrlBuffer)

  /** The buffer after some pieces that are not the last; each is copied to the start, and no terminator
      is written. */
  function BufferAfter(url: UrlBuffer, pieces: seq<bytes>): (r: UrlBuffer)
    requires Chunks(pieces)
  {
    if pieces == [] then url
    else Written(BufferAfter(url, pieces[..|pieces| - 1]), 0, Chars(pieces[|pieces| - 1]))
  }

  /** A page of the URL: the next page follows when the user has confirmed this one. */
  function NextPage(buffer: UrlBuffer): (r: Flow) {
    [Continue("URL", CText(buffer))]
  }

  /** Behind the last piece there is a terminator. */
  function UrlStep(piece: bytes): (r: Step) {
    Show("URL", CText(Chars(piece)))
  }

  function Pages(f: Fields, url: UrlBuffer, pieces: seq<bytes>, complete: bool): (r: seq<Flow>)
    requires Chunks(pieces)
  {
    seq(|pieces|, i requires 0 <= i < |pieces| =>
      if complete && i == |pieces| - 1 then LastPage(f, UrlStep(pieces[i]))
      else NextPage(BufferAfter(url, pieces[..i + 1])))
  }

  function UrlBodies(url: UrlBuffer, p: Progress): (r: seq<Flow>)
    requires Chunks(p.pieces)
  {
    if !UrlBegun(p) then []
    else if p.length == 0 then [LastPage(p.fields, Show("Empty URL", ""))]
    else Pages(p.fields, url, p.pieces, !p.stage.Url?)
  }

  /** A page that is not the last shows exactly its piece if and only if the piece holds no zero byte and
      the byte behind it, which the copy leaves alone, is zero; the last page needs only the former. */
  lemma PageShown(url: UrlBuffer, pieces: seq<bytes>, piece: bytes)
    requires Chunks(pieces) && |piece| <= 255
    ensures Chunks(pieces + [piece])
    ensures NextPage(BufferAfter(url, pieces + [piece]))[0].text == Chars(piece)
            <==> 0 !in piece && BufferAfter(url, pieces)[|piece|] == NUL
    ensures UrlStep(piece).text == Chars(piece) <==> 0 !in piece
  {
    var buffer := BufferAfter(url, pieces);
    assert (pieces + [piece])[..|pieces|] == pieces;
    assert BufferAfter(url, pieces + [piece]) == Chars(piece) + buffer[|piece|..];
    ShownExactly(Chars(piece), buffer[|piece|..]);
    Terminated(Chars(piece), "");
    NoZeroInChars(piece);
  }

  function RatesBody(f: Fields, b: bytes): (r: Flow)
    requires RatesOk(f, b)
  {
    [Show("Commission", "rates")]
    + (if f.fee then [Show("Transaction fee", PercentText(U4BE(b, 0)))] else [])
    + (if f.reward then [Show("Baking reward", PercentText(U4BE(b, FeeEnd(f))))] else [])
    + (if f.finalization then [Show("Finalization reward", PercentText(U4BE(b, RewardEnd(f))))] else [])
    + CONFIRM
  }

  /** The first batch is shown when its last packet has arrived. */
  predicate FirstShown(p: Progress) {
    p.fields.First() && (p.stage.UrlLength? || p.stage.Url? || p.stage.Rates? || p.stage.End?)
  }

  function FirstBodies(p: Progress): (r: seq<Flow>)
    requires ProgressOk(p)
  {
    if FirstShown(p) then [FirstBody(p.fields, p.first)] else []
  }

  function RatesBodies(p: Progress): (r: seq<Flow>)
    requires ProgressOk(p)
  {
    if p.stage.End? && p.fields.Rates() then [RatesBody(p.fields, p.rates)] else []
  }

  /** The flows without the review and sender steps. */
  function Bodies(url: UrlBuffer, p: Progress): (r: seq<Flow>)
    requires ProgressOk(p)
  {
    FirstBodies(p) + UrlBodies(url, p) + RatesBodies(p)
  }

  ghost function Introduction(sha: Sha256, header: bytes): (r: Flow)
    requires |header| == 61
  {
    [REVIEW, Show("Sender", AddressChars(sha, header[..32]))]
  }

  /** The first flow starts with the review and sender steps. */
  ghost function Introduced(sha: Sha256, header: bytes, bodies: seq<Flow>): (r: seq<Flow>)
    requires |header| == 61
  {
    if bodies == [] then [] else [Introduction(sha, header) + bodies[0]] + bodies[1..]
  }

  ghost function Rendered(v: Before, p: Progress): (r: seq<Flow>)
    requires ProgressOk(p)
  {
    if p.stage.Start? then [] else Introduced(v.sha, p.header, Bodies(v.url, p))
  }

  // ------------------------------------------------------------------ what may come next

  function AfterFirst(f: Fields): (r: Stage)
    ensures r.UrlLength? || r.Rates? || r.End?
    ensures r.End? <==> !f.url && !f.Rates()
  {
    if f.url then UrlLength else if f.Rates() then Rates else End
  }

  function AfterUrl(f: Fields): (r: Stage)
    ensures r.Rates? || r.End?
    ensures r.End? <==> !f.Rates()
  {
    if f.Rates() then Rates else End
  }

  function AcceptStart(data: Cdata): (r: Outcome<Progress>) {
    var header :- HeaderAt(data, 60, CONFIGURE_BAKER);
    var bitmap := U2BE(data, PathLength(data).value + 61);
    var f := FieldsOf(bitmap);
    if !BitmapOk(bitmap) then Throw(InvalidTransaction)
    else Ok(BEGIN.(header := header, bitmap := bitmap, fields := f, stage := if f.First() then First else AfterFirst(f)))
  }

  /** The next packet of a session whose first packet announces a field. */
  function Accept(p: Progress, packet: Packet): (r: Outcome<Progress>)
  {
    var Packet(p1, _, data, length) := packet;
    var f := p.fields;
    match p.stage
    case Start => if p1 == P1_INITIAL then AcceptStart(data) else Throw(InvalidState)
    case First =>
      if p1 == P1_FIRST_BATCH then
        if FirstOk(f, data[..length]) then
          Ok(p.(first := data[..length], stage := if f.keys then Aggregation else AfterFirst(f)))
        else Throw(InvalidTransaction)
      else Throw(InvalidState)
    case Aggregation =>
      if p1 == P1_AGGREGATION_KEY then
        if length == 160 then Ok(p.(aggregation := data[..160], stage := AfterFirst(f))) else Throw(InvalidTransaction)
      else Throw(InvalidState)
    case UrlLength =>
      if p1 == P1_URL_LENGTH then
        var n := U2BE(data, 0);
        if n > MAX_URL then Throw(InvalidTransaction)
            else Ok(p.(length := n, stage := if n == 0 then AfterUrl(f) else Url))
      else Throw(InvalidState)
    case Url =>
      if p1 == P1_URL then
        var have := |Flat(p.pieces)| + length;
        if have > p.length then Throw(InvalidTransaction)
        else Ok(p.(pieces := p.pieces + [data[..length]], stage := if have == p.length then AfterUrl(f) else Url))
      else Throw(InvalidState)
    case Rates =>
      if p1 == P1_COMMISSION_RATES then
        if RatesOk(f, data[..length]) then Ok(p.(rates := data[..length], stage := End)) else Throw(InvalidTransaction)
      else Throw(InvalidState)
    case End => Throw(InvalidState)
  }

  /** How an accepted packet is answered: each flow ends in a question to go on, or to sign. */
  function Answer(p: Progress, q: Progress): (r: Reply) {
    if q.stage.First? || q.stage.Aggregation? || p.stage.Start? || (p.stage.UrlLength? && q.stage.Url?) then Success
    else if q.stage.End? then Await(Ask)
    else Await(Proceed)
  }

  function Hashed(p: Progress, packet: Packet): (r: bytes) {
    var data := packet.data;
    match p.stage
    case Start => if PathLength(data).Ok? then var at := PathLength(data).value; data[at..at + 63] else []
    case UrlLength => data[..2]
    case _ => data[..packet.length]
  }

  // ------------------------------------------------------------------ invariants

  lemma StartExtends(url: UrlBuffer, data: Cdata)
    requires AcceptStart(data).Ok?
    ensures PathLength(data).Ok?
    ensures var q, at := AcceptStart(data).value, PathLength(data).value;
            ProgressOk(q) && Transcript(q) == data[at..at + 63] && Bodies(url, q) == []
  {
    var at := PathLength(data).value;
    Put2Get2(data, at + 61);
    NoPieces();
    hide FieldsOf, Put2, U2BE;
    assert data[at..at + 61] + data[at + 61..at + 63] + [] + [] + [] + [] == data[at..at + 63];
  }

  lemma NoPieces()
    ensures Flat([]) == []
  {
  }

  /** Appending to the parts of the transcript. */
  lemma Parts(a: bytes, b: bytes, c: bytes, d: bytes, more: bytes)
    ensures a + (b + more) + [] + [] + [] == a + b + [] + [] + [] + more
    ensures a + b + (c + more) + [] + [] == a + b + c + [] + [] + more
    ensures a + b + c + (d + more) + [] == a + b + c + d + [] + more
    ensures a + b + c + d + ([] + more) == a + b + c + d + [] + more
  {
    assert a + (b + more) == a + b + more && a + b + (c + more) == a + b + c + more
        && a + b + c + (d + more) == a + b + c + d + more;
  }

  lemma FirstExtends(p: Progress, packet: Packet)
    requires ProgressOk(p) && (p.stage.First? || p.stage.Aggregation?) && Accept(p, packet).Ok?
    ensures var q := Accept(p, packet).value;
            ProgressOk(q) && Transcript(q) == Transcript(p) + packet.data[..packet.length]
  {
    hide FieldsOf, Put2, FirstOk, Flat;
    var start, data := p.header + Put2(p.bitmap), packet.data[..packet.length];
    NoPieces();
    if p.stage.First? {
      assert [] + data == data;
      Parts(start, [], [], [], data);
    } else {
      assert [] + data == data;
      Parts(start, p.first, [], [], data);
    }
  }

  lemma UrlExtends(p: Progress, packet: Packet)
    requires ProgressOk(p) && (p.stage.UrlLength? || p.stage.Url?) && Accept(p, packet).Ok?
    ensures var q := Accept(p, packet).value;
            ProgressOk(q) && Transcript(q) == Transcript(p) + Hashed(p, packet)
  {
    var start, data := p.header + Put2(p.bitmap), packet.data[..packet.length];
    NoPieces();
    Put2Get2(packet.data, 0);
    FlatAppend(p.pieces, data);
    hide FieldsOf, Put2, FirstOk, Flat, U2BE;
    if p.stage.UrlLength? {
      assert packet.data[0..2] + [] == packet.data[..2] == [] + packet.data[..2];
      Parts(start, p.first, p.aggregation, [], packet.data[..2]);
    } else {
      Regroup(Put2(p.length), Flat(p.pieces), data);
      Parts(start, p.first, p.aggregation, UrlBytes(p), data);
    }
  }

  lemma RatesExtends(p: Progress, packet: Packet)
    requires ProgressOk(p) && p.stage.Rates? && Accept(p, packet).Ok?
    ensures var q := Accept(p, packet).value;
            ProgressOk(q) && Transcript(q) == Transcript(p) + packet.data[..packet.length]
  {
    var data := packet.data[..packet.length];
    hide FieldsOf, Put2, FirstOk, Flat, RatesOk;
    assert [] + data == data;
    Parts(p.header + Put2(p.bitmap), p.first, p.aggregation, UrlBytes(p), data);
  }

  /** Every accepted packet extends the serialization by exactly the bytes hashed. */
  lemma AcceptExtends(p: Progress, packet: Packet)
    requires ProgressOk(p) && Accept(p, packet).Ok?
    ensures var q := Accept(p, packet).value;
            ProgressOk(q) && Transcript(q) == Transcript(p) + Hashed(p, packet)
  {
    hide ProgressOk, Transcript, AcceptStart;
    match p.stage
    case Start =>
      StartExtends(seq(256, i => NUL), packet.data);
      Began(p);
      assert [] + Hashed(p, packet) == Hashed(p, packet);
    case First => FirstExtends(p, packet);
    case Aggregation => FirstExtends(p, packet);
    case UrlLength => UrlExtends(p, packet);
    case Url => UrlExtends(p, packet);
    case Rates => RatesExtends(p, packet);
    case End =>
  }

  lemma Began(p: Progress)
    ensures ProgressOk(BEGIN) && Transcript(BEGIN) == []
    ensures ProgressOk(p) && p.stage.Start? ==> Transcript(p) == []
  {
  }

  // ------------------------------------------------------------------ one flow for each part

  /** The flow that an accepted packet of the first batch shows. */
  lemma FirstShows(url: UrlBuffer, p: Progress, packet: Packet)
    requires ProgressOk(p) && (p.stage.First? || p.stage.Aggregation?) && Accept(p, packet).Ok?
    ensures var q := Accept(p, packet).value;
            && ProgressOk(q) && Bodies(url, p) == []
            && Bodies(url, q) == if q.stage.Aggregation? then [] else [FirstBody(q.fields, q.first)]
  {
    FirstExtends(p, packet);
    hide FieldsOf, FirstBody, HeadOk, Flat;
  }

  lemma UrlLengthShows(url: UrlBuffer, p: Progress, packet: Packet)
    requires ProgressOk(p) && p.stage.UrlLength? && Accept(p, packet).Ok?
    ensures var q := Accept(p, packet).value;
            && ProgressOk(q)
            && Bodies(url, q) == Bodies(url, p) + if q.stage.Url? then [] else [LastPage(p.fields, Show("Empty URL", ""))]
  {
    UrlExtends(p, packet);
    hide FieldsOf, FirstBody, HeadOk, Flat, LastPage, U2BE, FirstOk;
    assert FirstBodies(p) + [] + [] == FirstBodies(p);
  }

  /** The flow of a piece. */
  function PieceFlow(f: Fields, url: UrlBuffer, pieces: seq<bytes>, piece: bytes, complete: bool): (r: Flow)
    requires Chunks(pieces) && |piece| <= 255
  {
    if complete then LastPage(f, UrlStep(piece)) else NextPage(Written(BufferAfter(url, pieces), 0, Chars(piece)))
  }

  lemma PagesAppend(f: Fields, url: UrlBuffer, pieces: seq<bytes>, piece: bytes, complete: bool)
    requires Chunks(pieces) && |piece| <= 255
    ensures Chunks(pieces + [piece])
    ensures Pages(f, url, pieces + [piece], complete)
         == Pages(f, url, pieces, false) + [PieceFlow(f, url, pieces, piece, complete)]
  {
    var more := pieces + [piece];
    assert more[..|pieces|] == pieces && more[..|pieces| + 1] == more;
    assert BufferAfter(url, more) == Written(BufferAfter(url, pieces), 0, Chars(piece));
    hide LastPage, NextPage, Chars, UrlStep, BufferAfter, Written;
    forall i | 0 <= i < |pieces|
      ensures Pages(f, url, more, complete)[i] == Pages(f, url, pieces, false)[i]
    {
      assert more[..i + 1] == pieces[..i + 1];
    }
  }

  lemma UrlShows(url: UrlBuffer, p: Progress, packet: Packet)
    requires ProgressOk(p) && p.stage.Url? && Accept(p, packet).Ok?
    ensures var q, piece := Accept(p, packet).value, packet.data[..packet.length];
            && ProgressOk(q)
            && Bodies(url, q) == Bodies(url, p) + [PieceFlow(p.fields, url, p.pieces, piece, !q.stage.Url?)]
  {
    hide FieldsOf, HeadOk, Flat, LastPage, NextPage, Pages, FirstOk, FirstBody, PieceFlow, BufferAfter, Transcript;
    UrlExtends(p, packet);
    var q, piece := Accept(p, packet).value, packet.data[..packet.length];
    PagesAppend(p.fields, url, p.pieces, piece, !q.stage.Url?);
    assert FirstBodies(q) == FirstBodies(p);
    hide FirstBodies;
    var page := PieceFlow(p.fields, url, p.pieces, piece, !q.stage.Url?);
    assert FirstBodies(p) + (Pages(p.fields, url, p.pieces, false) + [page]) + []
        == FirstBodies(p) + Pages(p.fields, url, p.pieces, false) + [] + [page];
  }

  lemma RatesShows(url: UrlBuffer, p: Progress, packet: Packet)
    requires ProgressOk(p) && p.stage.Rates? && Accept(p, packet).Ok?
    ensures var q := Accept(p, packet).value;
            ProgressOk(q) && Bodies(url, q) == Bodies(url, p) + [RatesBody(p.fields, q.rates)]
  {
    RatesExtends(p, packet);
    var q := Accept(p, packet).value;
    assert FirstBodies(q) == FirstBodies(p) && UrlBodies(url, q) == UrlBodies(url, p);
    hide FieldsOf, FirstBodies, UrlBodies, HeadOk, Flat, FirstOk, RatesOk, RatesBody;
    assert FirstBodies(p) + UrlBodies(url, p) + [] == FirstBodies(p) + UrlBodies(url, p);
  }

  // ------------------------------------------------------------------ where the user is asked

  /** The step that asks for a signature. */
  predicate Asks(flow: Flow) {
    Sign in flow
  }

  predicate Reviews(flow: Flow) {
    REVIEW in flow
  }

  lemma FirstBodyAsks(f: Fields, b: bytes)
    requires FirstOk(f, b)
    ensures Asks(FirstBody(f, b)) <==> !f.url && !f.Rates()
    ensures !Reviews(FirstBody(f, b))
  {
    hide AmountText, U8BE, RestakeText, OpenText;
    assert CapitalEnd(f) >= 0;
  }

  lemma PageAsks(f: Fields, step: Step, buffer: UrlBuffer)
    requires step.Show? && step != REVIEW
    ensures Asks(LastPage(f, step)) <==> !f.Rates()
    ensures !Asks(NextPage(buffer)) && !Reviews(LastPage(f, step)) && !Reviews(NextPage(buffer))
  {
    hide CText;
  }

  lemma PagesAsk(f: Fields, url: UrlBuffer, pieces: seq<bytes>, complete: bool)
    requires Chunks(pieces)
    ensures forall i | 0 <= i < |pieces| ::
              && (Asks(Pages(f, url, pieces, complete)[i]) <==> complete && i == |pieces| - 1 && !f.Rates())
              && !Reviews(Pages(f, url, pieces, complete)[i])
  {
    hide LastPage, NextPage, UrlStep, BufferAfter, Asks, Reviews;
    forall i | 0 <= i < |pieces|
      ensures Asks(Pages(f, url, pieces, complete)[i]) <==> complete && i == |pieces| - 1 && !f.Rates()
      ensures !Reviews(Pages(f, url, pieces, complete)[i])
    {
      LastStep(pieces[i]);
      PageAsks(f, UrlStep(pieces[i]), BufferAfter(url, pieces[..i + 1]));
    }
  }

  lemma LastStep(piece: bytes)
    ensures UrlStep(piece).Show? && UrlStep(piece) != REVIEW
  {
  }

  lemma RatesBodyAsks(f: Fields, b: bytes)
    requires RatesOk(f, b)
    ensures Asks(RatesBody(f, b)) && !Reviews(RatesBody(f, b))
  {
    hide PercentText, U4BE;
  }

  /** The flows that ask: none before the end, then the last and no other. */
  ghost predicate AsksAtEnd(flows: seq<Flow>, end: bool) {
    forall i | 0 <= i < |flows| :: Asks(flows[i]) <==> end && i == |flows| - 1
  }

  ghost predicate ReviewsFirst(flows: seq<Flow>, first: bool) {
    forall i | 0 <= i < |flows| :: Reviews(flows[i]) <==> first && i == 0
  }

  lemma Join(x: seq<Flow>, y: seq<Flow>, end: bool)
    requires if y == [] then AsksAtEnd(x, end) else AsksAtEnd(x, false) && AsksAtEnd(y, end)
    requires ReviewsFirst(x, false) && ReviewsFirst(y, false)
    ensures AsksAtEnd(x + y, end) && ReviewsFirst(x + y, false)
  {
    hide Asks, Reviews;
    forall i | 0 <= i < |x + y|
      ensures (Asks((x + y)[i]) <==> end && i == |x + y| - 1) && !Reviews((x + y)[i])
    {
      assert (x + y)[i] == if i < |x| then x[i] else y[i - |x|];
    }
  }

  lemma UrlBodiesAsk(url: UrlBuffer, p: Progress)
    requires ProgressOk(p)
    ensures AsksAtEnd(UrlBodies(url, p), !p.stage.Url? && !p.fields.Rates()) && ReviewsFirst(UrlBodies(url, p), false)
    ensures UrlBegun(p) && !p.stage.Url? ==> UrlBodies(url, p) != []
  {
    hide FieldsOf, Flat, FirstOk, RatesOk, LastPage, Pages, Asks, Reviews;
    PagesAsk(p.fields, url, p.pieces, !p.stage.Url?);
    PageAsks(p.fields, Show("Empty URL", ""), url);
    PagesCount(p.fields, url, p.pieces, !p.stage.Url?);
    NoPieces();
  }

  lemma PagesCount(f: Fields, url: UrlBuffer, pieces: seq<bytes>, complete: bool)
    requires Chunks(pieces)
    ensures |Pages(f, url, pieces, complete)| == |pieces|
  {
  }

  lemma BodiesAsk(url: UrlBuffer, p: Progress)
    requires ProgressOk(p)
    ensures AsksAtEnd(Bodies(url, p), p.stage.End?) && ReviewsFirst(Bodies(url, p), false)
    ensures p.stage.End? ==> Bodies(url, p) != []
  {
    UrlBodiesAsk(url, p);
    var f := p.fields;
    var first, rates := FirstBodies(p), RatesBodies(p);
    hide FieldsOf, Flat, UrlBodies, FirstBody, RatesBody, Asks, Reviews;
    if FirstShown(p) { FirstBodyAsks(f, p.first); }
    if p.stage.End? { RatesBodyAsks(f, p.rates); }
    Join(first, UrlBodies(url, p), if rates == [] then p.stage.End? else false);
    Join(first + UrlBodies(url, p), rates, p.stage.End?);
  }

  /** In every session: the review and sender steps are in the first flow and in no other, and the
      question to sign is in the last flow of a complete transaction and in no other. */
  lemma ReviewFirstSignLast(v: Before, p: Progress)
    requires ProgressOk(p)
    ensures ReviewsFirst(Rendered(v, p), true) && AsksAtEnd(Rendered(v, p), p.stage.End?)
    ensures p.stage.End? ==> Rendered(v, p) != []
  {
    BodiesAsk(v.url, p);
    hide Bodies, AddressChars, ProgressOk;
    if !p.stage.Start? {
      IntroducedAsks(v.sha, p.header, Bodies(v.url, p), p.stage.End?);
    }
  }

  lemma IntroducedAsks(sha: Sha256, header: bytes, bodies: seq<Flow>, end: bool)
    requires |header| == 61 && AsksAtEnd(bodies, end) && ReviewsFirst(bodies, false)
    ensures AsksAtEnd(Introduced(sha, header, bodies), end) && ReviewsFirst(Introduced(sha, header, bodies), true)
  {
    hide AddressChars;
    var flows := Introduced(sha, header, bodies);
    if bodies != [] {
      IntroductionAsks(sha, header, bodies[0]);
    }
    hide Asks, Reviews, Introduction;
    forall i | 0 < i < |flows|
      ensures flows[i] == bodies[i]
    {
    }
  }

  lemma IntroductionAsks(sha: Sha256, header: bytes, body: Flow)
    requires |header| == 61
    ensures Asks(Introduction(sha, header) + body) <==> Asks(body)
    ensures Reviews(Introduction(sha, header) + body)
  {
    hide AddressChars;
    assert (Introduction(sha, header) + body)[0] == REVIEW;
  }

  // ------------------------------------------------------------------ the bitmap

  /** The two bits above the eighth are let through.  A bitmap that has no other bit is let through as
      well, but starts no transaction. */
  lemma BitmapCases(bitmap: u16)
    ensures bitmap != 0 && bitmap <= 1023 <==> BitmapOk(bitmap) || bitmap == 256 || bitmap == 512 || bitmap == 768
  {
  }
}
