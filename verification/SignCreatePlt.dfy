/** governance-app/src/signCreatePlt.c */
module SignCreatePlt {
  import opened Bytes
  import opened Lists
  import opened Device
  import opened DecimalText
  import opened PaginatedHex
  import opened Displays
  import opened Screens
  import opened Runs
  import NumberHelpers

  const UPDATE_TYPE_CREATE_PLT: byte := 24
  const P1_INITIAL: byte := 0x00
  const P1_PAYLOAD: byte := 0x01
  const P1_INIT_PARAMS: byte := 0x02
  const SHOWN_PARAMS := 512

  // ------------------------------------------------------------------ what has been received

  datatype Payload = Payload(tokenId: bytes, tokenModule: bytes, decimals: byte, length: u32)

  datatype Stage = Start | AwaitPayload | Params(payload: Payload) | Done(payload: Payload)

  datatype Progress = Progress(header: bytes, params: bytes, stage: Stage)

  const BEGIN := Progress([], [], Start)

  predicate PayloadOk(l: Payload) {
    1 <= |l.tokenId| <= 128 && |l.tokenModule| == 32 && l.length > 0
  }

  predicate ProgressOk(p: Progress) {
    && (!p.stage.Start? ==> |p.header| == 29 && p.header[28] == UPDATE_TYPE_CREATE_PLT)
    && match p.stage
       case Start => p == BEGIN
       case AwaitPayload => p.params == []
       case Params(l) => PayloadOk(l) && |p.params| < l.length
       case Done(l) => PayloadOk(l) && |p.params| == l.length
  }

  function PayloadBytes(l: Payload): (r: bytes) {
    (if |l.tokenId| < 0x100 then [|l.tokenId|] else []) + l.tokenId + l.tokenModule + [l.decimals] + Put4(l.length)
  }

  function Transcript(p: Progress): (r: bytes) {
    match p.stage
    case Start => []
    case AwaitPayload => p.header
    case Params(l) => p.header + PayloadBytes(l) + p.params
    case Done(l) => p.header + PayloadBytes(l) + p.params
  }

  /** The first 512 bytes of the parameters. */
  function Shown(params: bytes): (r: bytes)
    ensures |r| <= SHOWN_PARAMS
  {
    if |params| <= SHOWN_PARAMS then params else params[..SHOWN_PARAMS]
  }

  /** A single flow, when all parameters have been received. */
  ghost function Rendered(p: Progress): (r: seq<Flow>)
    requires ProgressOk(p)
  {
    match p.stage
    case Done(l) =>
      [[REVIEW, Show("Update type", "Create PLT"), Show("Token ID", CText(Chars(l.tokenId))),
        Show("Token Module", PagedHex(l.tokenModule)), Show("Decimals", Dec(l.decimals)),
        Show("Init Params", PagedHex(Shown(p.params))), Sign, Decline]]
    case _ => []
  }

  /** The fields of the second packet. */
  function PayloadAt(data: Cdata): (r: Outcome<Payload>)
    ensures r.Ok? ==> PayloadOk(r.value) && |PayloadBytes(r.value)| <= 166
  {
    var n := data[0];
    if n > 128 || n == 0 then Throw(InvalidTransaction)
    else
      var l := Payload(data[1..1 + n], data[1 + n..33 + n], data[33 + n], U4BE(data, 34 + n));
      if l.length == 0 then Throw(InvalidTransaction) else Ok(l)
  }

  function Accept(p: Progress, packet: Packet): (r: Outcome<Progress>)
  {
    var Packet(p1, _, data, length) := packet;
    match p.stage
    case Start =>
      if p1 == P1_INITIAL then
        var header :- HeaderAt(data, 28, UPDATE_TYPE_CREATE_PLT);
        Ok(p.(header := header, stage := AwaitPayload))
      else Throw(InvalidState)
    case AwaitPayload =>
      if p1 == P1_PAYLOAD then
        var l :- PayloadAt(data);
        Ok(p.(stage := Params(l)))
      else Throw(InvalidState)
    case Params(l) =>
      if p1 == P1_INIT_PARAMS && |p.params| + length <= l.length then
        var params := p.params + data[..length];
        Ok(p.(params := params, stage := if |params| == l.length then Done(l) else Params(l)))
      else Throw(InvalidState)
    case Done(_) => Throw(InvalidState)
  }

  function Hashed(p: Progress, packet: Packet): (r: bytes) {
    var data := packet.data;
    match p.stage
    case Start => if PathLength(data).Ok? then var at := PathLength(data).value; data[at..at + 29] else []
    case AwaitPayload => if data[0] <= 128 then data[..38 + data[0]] else []
    case _ => data[..packet.length]
  }

  lemma PayloadSlices(data: Cdata)
    requires PayloadAt(data).Ok?
    ensures PayloadBytes(PayloadAt(data).value) == data[..38 + data[0]]
  {
    var n := data[0];
    Put4Get4(data, 34 + n);
    hide Put4, U4BE;
    assert data[..1] == [n] && data[33 + n..34 + n] == [data[33 + n]];
    assert data[..1] + data[1..1 + n] + data[1 + n..33 + n] + data[33 + n..34 + n] + data[34 + n..38 + n]
        == data[..38 + n];
  }

  lemma AcceptExtends(p: Progress, packet: Packet)
    requires ProgressOk(p) && Accept(p, packet).Ok?
    ensures ProgressOk(Accept(p, packet).value)
    ensures Transcript(Accept(p, packet).value) == Transcript(p) + Hashed(p, packet)
  {
    var data := packet.data;
    match p.stage
    case Start => assert [] + Hashed(p, packet) == Hashed(p, packet);
    case AwaitPayload =>
      PayloadSlices(data);
      assert p.header + data[..38 + data[0]] + [] == p.header + data[..38 + data[0]];
    case Params(l) => Regroup(p.header + PayloadBytes(l), p.params, data[..packet.length]);
  }

  /** What was shown is what was hashed: two updates have the same screens if and only if they have the
      same module, decimals and first 512 bytes of the parameters, and the same token id up to its first
      zero byte.  Ids without a zero byte are then the same. */
  lemma ShownDetermines(p: Progress, q: Progress)
    requires ProgressOk(p) && ProgressOk(q) && p.stage.Done? && q.stage.Done?
    ensures var l, m := p.stage.payload, q.stage.payload;
            && (Rendered(p) == Rendered(q) <==>
                  && BeforeZero(l.tokenId) == BeforeZero(m.tokenId) && l.tokenModule == m.tokenModule
                  && l.decimals == m.decimals && Shown(p.params) == Shown(q.params))
            && (Rendered(p) == Rendered(q) && 0 !in l.tokenId && 0 !in m.tokenId ==> l.tokenId == m.tokenId)
  {
    var l, m := p.stage.payload, q.stage.payload;
    SameText(l.tokenId, m.tokenId);
    hide PagedHex, Dec, Chars, CText, BeforeZero, Shown;
    if Rendered(p) == Rendered(q) {
      var f, g := Rendered(p)[0], Rendered(q)[0];
      assert f[2] == g[2] && f[3] == g[3] && f[4] == g[4] && f[5] == g[5];
      PagedHexInjective(l.tokenModule, m.tokenModule);
      DecInjective(l.decimals, m.decimals);
      PagedHexInjective(Shown(p.params), Shown(q.params));
    }
  }

  /** "A", zero, "B" and "A", zero, "C" look the same. */
  lemma SameTokenScreen()
    ensures CText(Chars([0x41, 0, 0x42])) == CText(Chars([0x41, 0, 0x43])) == "A"
  {
    var a: bytes, b: bytes := [0x41, 0, 0x42], [0x41, 0, 0x43];
    assert a[1..][0] == 0 && b[1..][0] == 0;
    assert BeforeZero(a[1..]) == [] == BeforeZero(b[1..]);
    TextOfBytes(a);
    TextOfBytes(b);
  }

  predicate TokenIdOk(id: bytes) {
    1 <= |id| <= 128
  }

  /** The screen determines a token id among all of them if and only if the id has the greatest length
      and no zero byte; any other id looks like one that is cut at, or continued after, a zero. */
  lemma TokenIdDetermined(id: bytes)
    requires TokenIdOk(id)
    ensures (forall other: bytes :: TokenIdOk(other) && CText(Chars(other)) == CText(Chars(id)) ==> other == id)
            <==> |id| == 128 && 0 !in id
  {
    hide CText, Chars;
    var k := |BeforeZero(id)|;
    if |id| == 128 && 0 !in id {
      forall other: bytes | TokenIdOk(other) && CText(Chars(other)) == CText(Chars(id))
        ensures other == id
      {
        SameText(other, id);
        assert |other| >= k;
      }
    } else {
      var tail: bytes := if k < |id| && id[k..] == [0] then [0, 1] else [0];
      var other := if k == 127 then (if id[127..] == [0] then id[..127] else id[..127] + [0]) else id[..k] + tail;
      OtherLooks(id, k, other);
      SameText(other, id);
      assert TokenIdOk(other) && other != id;
    }
  }

  lemma OtherLooks(id: bytes, k: nat, other: bytes)
    requires k == |BeforeZero(id)| && k <= |other| && id[..k] == other[..k] && (k < |other| ==> other[k] == 0)
    ensures BeforeZero(other) == BeforeZero(id)
  {
    var j := |BeforeZero(other)|;
    assert forall i | 0 <= i < k :: id[..k][i] == other[..k][i] == other[i];
    assert forall i | 0 <= i < j :: BeforeZero(other)[i] == other[i];
  }

  // ------------------------------------------------------------------ runs

  /** There is no press that matters before the sign screen. */
  function Take(p: Progress, e: Event): (r: Outcome<Progress>) {
    if e.Host? then Accept(p, e.packet) else Throw(InvalidState)
  }

  /** How an accepted packet is answered. */
  function Answer(q: Progress): (r: Reply) {
    if q.stage.Done? then Await(Ask) else Success
  }

  function HashedBy(p: Progress, e: Event): (r: bytes) {
    if e.Host? then Hashed(p, e.packet) else []
  }

  function Send(p1: byte, b: bytes): (r: Event)
    requires |b| <= 255
  {
    Host(Packet(p1, 0, Pad(b), |b|))
  }

  function ParamsPackets(chunks: seq<bytes>): (r: seq<Event>)
    requires Chunks(chunks)
  {
    seq(|chunks|, i requires 0 <= i < |chunks| => Send(P1_INIT_PARAMS, chunks[i]))
  }

  /** The state after chunks of parameters: waiting while bytes are missing, at the sign screen exactly
      when the last chunk brings the last byte, otherwise refused. */
  ghost predicate AfterChunks(p: Progress, chunks: seq<bytes>, r: Outcome<Progress>)
    requires p.stage.Params?
  {
    var l, all := p.stage.payload, Flat(chunks);
    if |all| < l.length then r == Ok(p.(params := all))
    else if |all| == l.length && chunks != [] && chunks[|chunks| - 1] != [] then
      r == Ok(p.(params := all, stage := Done(l)))
    else r == Throw(InvalidState)
  }

  lemma {:induction false} ChunksSign(p: Progress, chunks: seq<bytes>)
    requires ProgressOk(p) && p.stage.Params? && p.params == [] && Chunks(chunks)
    ensures AfterChunks(p, chunks, Run(Take, p, ParamsPackets(chunks)))
  {
    if chunks == [] {
      assert Run(Take, p, []) == Ok(p);
    } else {
      hide PayloadOk;
      var n := |chunks| - 1;
      ChunksSign(p, chunks[..n]);
      assert ParamsPackets(chunks)[..n] == ParamsPackets(chunks[..n]);
      FlatAppend(chunks[..n], chunks[n]);
      assert chunks[..n] + [chunks[n]] == chunks;
      hide Flat, ParamsPackets;
      if |Flat(chunks[..n])| <= p.stage.payload.length {
        Last(p, chunks[n], Flat(chunks[..n]));
      }
    }
  }

  lemma Last(p: Progress, chunk: bytes, before: bytes)
    requires p.stage.Params? && |chunk| <= 255 && |before| <= p.stage.payload.length
    ensures var l, e := p.stage.payload, Send(P1_INIT_PARAMS, chunk);
            && Take(p.(params := before), e)
               == (if |before| + |chunk| < l.length then Ok(p.(params := before + chunk))
                   else if |before| + |chunk| == l.length then Ok(p.(params := before + chunk, stage := Done(l)))
                   else Throw(InvalidState))
            && Take(p.(params := before, stage := Done(l)), e) == Throw(InvalidState)
  {
  }

  ghost predicate Signs(events: seq<Event>, b: bytes) {
    var r := Run(Take, BEGIN, events);
    r.Ok? && r.value.stage.Done? && Gathered(Take, HashedBy, BEGIN, events) == b
  }

  /** The serialization of the update. */
  ghost predicate Serializes(header: bytes, l: Payload, params: bytes, b: bytes) {
    && |header| == 29 && header[28] == UPDATE_TYPE_CREATE_PLT && PayloadOk(l) && |params| == l.length
    && b == header + PayloadBytes(l) + params
  }

  lemma SerializesOnce(h: bytes, l: Payload, x: bytes, i: bytes, m: Payload, y: bytes, b: bytes)
    requires Serializes(h, l, x, b) && Serializes(i, m, y, b)
    ensures h == i && l == m && x == y
  {
    hide Put4;
    var t, u := [l.decimals] + (Put4(l.length) + x), [m.decimals] + (Put4(m.length) + y);
    assert b == h + ([|l.tokenId|] + (l.tokenId + (l.tokenModule + t)));
    assert b == i + ([|m.tokenId|] + (m.tokenId + (m.tokenModule + u)));
    Split(h, i, [|l.tokenId|] + (l.tokenId + (l.tokenModule + t)), [|m.tokenId|] + (m.tokenId + (m.tokenModule + u)));
    Split([|l.tokenId|], [|m.tokenId|], l.tokenId + (l.tokenModule + t), m.tokenId + (m.tokenModule + u));
    SameNumber(|l.tokenId|, |m.tokenId|);
    Split(l.tokenId, m.tokenId, l.tokenModule + t, m.tokenModule + u);
    Split(l.tokenModule, m.tokenModule, t, u);
    Split([l.decimals], [m.decimals], Put4(l.length) + x, Put4(m.length) + y);
    SameNumber(l.decimals, m.decimals);
    Split(Put4(l.length), Put4(m.length), x, y);
    Put4Injective(l.length, m.length);
  }

  lemma SignedSerializes(events: seq<Event>, b: bytes)
    requires Signs(events, b)
    ensures var p := Run(Take, BEGIN, events).value; Serializes(p.header, p.stage.payload, p.params, b)
  {
    hide PayloadAt, HeaderAt;
    forall p: Progress, e: Event | ProgressOk(p) && Take(p, e).Ok?
      ensures ProgressOk(Take(p, e).value) && Transcript(Take(p, e).value) == Transcript(p) + HashedBy(p, e)
    {
      AcceptExtends(p, e.packet);
    }
    hide Take, HashedBy, ProgressOk, Run, Gathered;
    assert Sound(Take, HashedBy, ProgressOk, Transcript);
    Began();
    RunSound(Take, HashedBy, ProgressOk, Transcript, BEGIN, events);
    EndOk(Run(Take, BEGIN, events).value);
    assert Transcript(BEGIN) + b == b;
  }

  lemma Began()
    ensures ProgressOk(BEGIN) && Transcript(BEGIN) == []
  {
  }

  lemma EndOk(p: Progress)
    requires ProgressOk(p) && p.stage.Done?
    ensures Serializes(p.header, p.stage.payload, p.params, Transcript(p))
  {
  }

  lemma SendHeader(header: bytes) returns (e: Event)
    requires |header| == 29 && header[28] == UPDATE_TYPE_CREATE_PLT
    ensures Take(BEGIN, e) == Ok(Progress(header, [], AwaitPayload))
  {
    var data := Pad([0] + header);
    assert data[..30] == [0] + header;
    assert data[0] == data[..30][0] && data[29] == data[..30][29] && data[1..30] == data[..30][1..30] == header;
    e := Host(Packet(P1_INITIAL, 0, data, 30));
  }

  lemma SendPayload(header: bytes, l: Payload) returns (e: Event)
    requires PayloadOk(l)
    ensures Take(Progress(header, [], AwaitPayload), e) == Ok(Progress(header, [], Params(l)))
  {
    hide Put4, U4BE;
    var n := |l.tokenId|;
    var b := [n] + l.tokenId + l.tokenModule + [l.decimals] + Put4(l.length);
    var data := Pad(b);
    Fields([n], l.tokenId, l.tokenModule, [l.decimals], Put4(l.length));
    Prefix(data, 38 + n, 0, 1);
    Prefix(data, 38 + n, 1, 1 + n);
    Prefix(data, 38 + n, 1 + n, 33 + n);
    Prefix(data, 38 + n, 33 + n, 34 + n);
    Prefix(data, 38 + n, 34 + n, 38 + n);
    assert data[0] == data[0..1][0] && data[33 + n] == data[33 + n..34 + n][0];
    Put4Get4(data, 34 + n);
    Put4Injective(U4BE(data, 34 + n), l.length);
    e := Host(Packet(P1_PAYLOAD, 0, data, 38 + n));
  }

  lemma Fields(a: bytes, b: bytes, c: bytes, d: bytes, e: bytes)
    ensures var s, i, j, k := a + b + c + d + e, |a| + |b|, |a| + |b| + |c|, |a| + |b| + |c| + |d|;
            s[0..|a|] == a && s[|a|..i] == b && s[i..j] == c && s[j..k] == d && s[k..k + |e|] == e
  {
  }

  lemma Prefix(data: bytes, n: nat, i: nat, j: nat)
    requires i <= j <= n <= |data|
    ensures data[i..j] == data[..n][i..j]
  {
  }

  lemma SendAll(header: bytes, l: Payload, params: bytes, b: bytes) returns (events: seq<Event>)
    requires Serializes(header, l, params, b)
    ensures Run(Take, BEGIN, events) == Ok(Progress(header, params, Done(l)))
  {
    hide Take, Run, ParamsPackets;
    var x := SendHeader(header);
    var y := SendPayload(header, l);
    One(Take, BEGIN, x);
    One(Take, Progress(header, [], AwaitPayload), y);
    Both(Take, BEGIN, [x], Progress(header, [], AwaitPayload), [y], Progress(header, [], Params(l)));
    CutFlat(params);
    ChunksSign(Progress(header, [], Params(l)), Cut(params));
    var rest := ParamsPackets(Cut(params));
    Both(Take, BEGIN, [x] + [y], Progress(header, [], Params(l)), rest, Progress(header, params, Done(l)));
    events := [x] + [y] + rest;
  }

  /** A byte string can be brought to the sign screen if and only if it serializes an update. */
  lemma SignedStrings(b: bytes)
    ensures (exists events: seq<Event> :: Signs(events, b))
       <==> (exists header: bytes, l: Payload, params: bytes :: Serializes(header, l, params, b))
  {
    hide Take, Run, Gathered, PayloadOk;
    if events: seq<Event> :| Signs(events, b) {
      SignedSerializes(events, b);
    }
    if header: bytes, l: Payload, params: bytes :| Serializes(header, l, params, b) {
      var events := SendAll(header, l, params, b);
      var gathered := Gathered(Take, HashedBy, BEGIN, events);
      assert Signs(events, gathered);
      SignedSerializes(events, gathered);
    }
  }

  // ------------------------------------------------------------------ the handler

  datatype State = TX_CREATE_PLT_INITIAL | TX_CREATE_PLT_PAYLOAD | TX_CREATE_PLT_INIT_PARAMS

  class Context {
    const dev: Globals
    var initializationParamsLength: u32
    var remainingInitializationParamsBytes: u32
    /** The buffer of the token id up to its terminator. */
    var tokenId: string
    var tokenModule: string
    var decimals: string
    /** sizeof is 512. */
    const initParams: array<byte>
    var initParamsHex: string
    var state: State
    ghost var progress: Progress

    constructor (dev: Globals)
      ensures this.dev == dev && initParams.Length == SHOWN_PARAMS && fresh(initParams)
    {
      this.dev := dev;
      initParams := new byte[SHOWN_PARAMS];
      progress := BEGIN;
    }

    ghost predicate PayloadValid(l: Payload)
      reads this
    {
      && CText(tokenId) == CText(Chars(l.tokenId)) && tokenModule == PagedHex(l.tokenModule) && decimals == Dec(l.decimals)
      && initializationParamsLength == l.length
    }

    ghost predicate Stored(params: bytes)
      reads initParams
    {
      initParams.Length == SHOWN_PARAMS && initParams[..|Shown(params)|] == Shown(params)
    }

    ghost predicate Valid()
      reads this, initParams, dev
    {
      && ProgressOk(progress) && initParams.Length == SHOWN_PARAMS
      && (match progress.stage
          case Start => state == TX_CREATE_PLT_INITIAL
          case AwaitPayload => state == TX_CREATE_PLT_PAYLOAD
          case Params(l) =>
            && state == TX_CREATE_PLT_INIT_PARAMS && PayloadValid(l) && Stored(progress.params)
            && remainingInitializationParamsBytes == l.length - |progress.params|
          case Done(l) => PayloadValid(l) && Stored(progress.params))
      && (!progress.stage.Start? ==> dev.hash == Transcript(progress))
      && dev.shown == Rendered(progress)
    }

    ghost predicate Handled(p: Progress, packet: Packet, r: Outcome<Reply>)
      reads this, initParams, dev
    {
      match Accept(p, packet)
      case Throw(e) => r == Throw(e)
      case Ok(q) => Valid() && progress == q && r == Ok(Answer(q))
    }

    method HandleInitial(packet: Packet) returns (r: Outcome<Reply>)
      requires Valid() && progress.stage.Start? && packet.p1 == P1_INITIAL
      modifies this, dev
      ensures Handled(old(progress), packet, r)
    {
      var start :- dev.StartUpdate(packet.data, UPDATE_TYPE_CREATE_PLT);
      state := TX_CREATE_PLT_PAYLOAD;
      r := Ok(Success);
      progress := Accept(progress, packet).value;
    }

    /** The fields of the payload, each hashed as it is read. */
    method ReadPayload(cdata: Cdata) returns (r: Outcome<()>)
      modifies this`tokenId, this`tokenModule, this`decimals, this`initializationParamsLength, dev`hash
      ensures match PayloadAt(cdata)
              case Throw(e) => r == Throw(e)
              case Ok(l) => r == Ok(()) && PayloadValid(l) && dev.hash == old(dev.hash) + cdata[..38 + cdata[0]]
    {
      hide PagedHex, Dec, U4BE, Put4, PayloadBytes, Chars, CText;
      ghost var hash := dev.hash;
      var tokenIdLength := cdata[0];
      if tokenIdLength > 128 || tokenIdLength == 0 {
        return Throw(InvalidTransaction);
      }
      dev.UpdateHash(cdata[..1]);
      tokenId := Chars(cdata[1..1 + tokenIdLength]) + [NumberHelpers.NUL];
      Terminated(Chars(cdata[1..1 + tokenIdLength]), "");
      assert tokenId + "" == tokenId;
      dev.UpdateHash(cdata[1..1 + tokenIdLength]);
      var at := 1 + tokenIdLength;
      Further(hash, cdata, 1, at);
      tokenModule := ShowHex(cdata[at..at + 32], 69);
      dev.UpdateHash(cdata[at..at + 32]);
      Further(hash, cdata, at, at + 32);
      decimals := ShowByte(cdata[at + 32]);
      dev.UpdateHash(cdata[at + 32..at + 33]);
      Further(hash, cdata, at + 32, at + 33);
      initializationParamsLength := U4BE(cdata, at + 33);
      dev.UpdateHash(cdata[at + 33..at + 37]);
      Further(hash, cdata, at + 33, at + 37);
      r := if initializationParamsLength == 0 then Throw(InvalidTransaction) else Ok(());
    }

    method HandlePayload(packet: Packet) returns (r: Outcome<Reply>)
      requires Valid() && progress.stage.AwaitPayload? && packet.p1 == P1_PAYLOAD
      modifies this, dev
      ensures Handled(old(progress), packet, r)
    {
      hide PagedHex, Dec, PayloadAt, Transcript, CText;
      var read :- ReadPayload(packet.data);
      AcceptExtends(progress, packet);
      PayloadSlices(packet.data);
      remainingInitializationParamsBytes := initializationParamsLength;
      state := TX_CREATE_PLT_INIT_PARAMS;
      r := Ok(Success);
      progress := Accept(progress, packet).value;
      assert initParams[..0] == Shown([]);
    }

    /** The part of a chunk that is kept for the screen. */
    method Store(cdata: Cdata, dataLength: byte, ghost params: bytes)
      requires Stored(params) && |params| + dataLength <= initializationParamsLength
      requires remainingInitializationParamsBytes == initializationParamsLength - |params|
      modifies initParams
      ensures Stored(params + cdata[..dataLength])
    {
      var currentOffset := Sub32(initializationParamsLength, remainingInitializationParamsBytes);
      var bytesToStore: u32 := dataLength;
      if Add32(currentOffset, bytesToStore) > SHOWN_PARAMS {
        // Wraps when the buffer is full already; then nothing is copied.
        bytesToStore := Sub32(SHOWN_PARAMS, currentOffset);
      }
      hide Add32, Sub32;
      if bytesToStore > 0 && currentOffset < SHOWN_PARAMS {
        forall i | 0 <= i < bytesToStore {
          initParams[currentOffset + i] := cdata[i];
        }
      }
      ghost var all := params + cdata[..dataLength];
      assert forall i | 0 <= i < |Shown(all)| :: initParams[i] == all[i];
    }

    method HandleParams(packet: Packet) returns (r: Outcome<Reply>)
      requires Valid() && progress.stage.Params? && packet.p1 == P1_INIT_PARAMS
      modifies this, dev, initParams
      ensures Handled(old(progress), packet, r)
    {
      hide PagedHex, Dec, Put4, Transcript, PayloadBytes, CText;
      var Packet(_, _, cdata, dataLength) := packet;
      if remainingInitializationParamsBytes < dataLength {
        return Throw(InvalidState);
      }
      AcceptExtends(progress, packet);
      dev.UpdateHash(cdata[..dataLength]);
      Store(cdata, dataLength, progress.params);
      remainingInitializationParamsBytes := remainingInitializationParamsBytes - dataLength;
      if remainingInitializationParamsBytes == 0 {
        var displayLength := initializationParamsLength;
        if displayLength > SHOWN_PARAMS {
          displayLength := SHOWN_PARAMS;
        }
        initParamsHex := ShowHex(initParams[..displayLength], 1089);
        dev.UxFlowInit([REVIEW, Show("Update type", "Create PLT"), Show("Token ID", CText(tokenId)),
            Show("Token Module", tokenModule),
                        Show("Decimals", decimals), Show("Init Params", initParamsHex), Sign, Decline]);
        r := Ok(Await(Ask));
      } else {
        r := Ok(Success);
      }
      progress := Accept(progress, packet).value;
    }

    /** handleSignCreatePlt */
    method HandleSignCreatePlt(packet: Packet, isInitialCall: bool) returns (r: Outcome<Reply>)
      requires isInitialCall || (Valid() && !progress.stage.Done?)
      requires isInitialCall ==> dev.shown == [] && initParams.Length == SHOWN_PARAMS
      modifies this, dev, initParams
      ensures Handled(if isInitialCall then BEGIN else old(progress), packet, r)
    {
      if isInitialCall {
        state := TX_CREATE_PLT_INITIAL;
        progress := BEGIN;
      }
      if packet.p1 == P1_INITIAL && state == TX_CREATE_PLT_INITIAL {
        r := HandleInitial(packet);
      } else if packet.p1 == P1_PAYLOAD && state == TX_CREATE_PLT_PAYLOAD {
        r := HandlePayload(packet);
      } else if packet.p1 == P1_INIT_PARAMS && state == TX_CREATE_PLT_INIT_PARAMS {
        r := HandleParams(packet);
      } else {
        r := Throw(InvalidState);
      }
    }
  }
}
