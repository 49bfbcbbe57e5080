/** Sessions of configure-baker: those that their first packet starts anew, and those that go on with what
    an earlier session has left. */
module ConfigureBakerSessions {
  import opened Bytes
  import opened Lists
  import opened Device
  import opened Runs
  import opened NumberHelpers
  import opened Screens
  import opened ConfigureBakerTx
  import opened ConfigureBakerMemory
  import ConfigureBakerRuns

  // ------------------------------------------------------------------ memory and transaction

  /** The memory is that of a session which has received p since its initial packet; url is what the URL
      buffer held when the length of the URL came. */
  ghost predicate Follows(url: UrlBuffer, p: Progress, m: BakerMemory) {
    && ProgressOk(p) && !p.stage.Start? && m.has == p.fields && m.hash == Transcript(p)
    && m.firstDisplay == (Bodies(url, p) == []) && StageFollows(url, p, m)
  }

  ghost predicate StageFollows(url: UrlBuffer, p: Progress, m: BakerMemory)
    requires Chunks(p.pieces)
  {
    && m.state == (if p.stage.End? && p.fields.Rates() then CONFIGURE_BAKER_COMMISSION_RATES else StateOf(p.stage))
    && (p.stage.Aggregation? ==> FirstOk(m.has, p.first) && m.view == FirstView(m.has, p.first))
    && (p.stage.Url? ==>
          m.view.UrlView? && m.view.urlLength == p.length - |Flat(p.pieces)| && m.url == BufferAfter(url, p.pieces))
  }

  lemma FollowsLinked(url: UrlBuffer, p: Progress, m: BakerMemory)
    requires Follows(url, p, m)
    ensures Linked(m)
  {
    hide FieldsOf, Bodies, Transcript, AmountText, OpenText, RestakeText, U8BE, Flat, BufferAfter;
  }

  /** What the URL buffer held when the length of the URL came: known from then on. */
  function UrlFrom(url: UrlBuffer, p: Progress, m: BakerMemory): (r: UrlBuffer) {
    if p.stage.UrlLength? then m.url else url
  }

  /** The flow of an accepted packet, without the review and sender steps. */
  function Body(n: Next): (r: seq<Flow>) {
    if n.flow.None? then [] else [n.flow.value]
  }

  /** A packet does to the memory what it does to the transaction: the same acceptance, error and reply, and
      the flow that is shown is the next one of the transaction. */
  ghost predicate Goes(url: UrlBuffer, p: Progress, m: BakerMemory, packet: Packet)
    requires ProgressOk(p) && Linked(m)
  {
    var r := Effect(m, packet, false);
    match Accept(p, packet)
    case Throw(e) => r == Throw(e)
    case Ok(q) => r.Ok? && GoesTo(url, p, m, q, r.value)
  }

  ghost predicate GoesTo(url: UrlBuffer, p: Progress, m: BakerMemory, q: Progress, n: Next)
    requires ProgressOk(p)
  {
    var next := UrlFrom(url, p, m);
    && q.header == p.header && Follows(next, q, n.memory) && n.reply == Answer(p, q)
    && Bodies(next, q) == Bodies(url, p) + Body(n) && (n.flow.Some? ==> n.introduced == (Bodies(url, p) == []))
  }

  lemma FirstGoes(url: UrlBuffer, p: Progress, m: BakerMemory, packet: Packet)
    requires Follows(url, p, m) && p.stage.First? && packet.p1 == P1_FIRST_BATCH
    ensures Linked(m) && Goes(url, p, m, packet)
  {
    hide FirstBody, FirstView, FirstOk, Transcript, Bodies, HeadOk, FieldsOf;
    FollowsLinked(url, p, m);
    if Accept(p, packet).Ok? {
      FirstExtends(p, packet);
      FirstShows(url, p, packet);
    }
  }

  lemma AggregationGoes(url: UrlBuffer, p: Progress, m: BakerMemory, packet: Packet)
    requires Follows(url, p, m) && p.stage.Aggregation? && packet.p1 == P1_AGGREGATION_KEY
    ensures Linked(m) && Goes(url, p, m, packet)
  {
    hide FirstBody, FirstView, FirstOk, Transcript, Bodies, HeadOk, FieldsOf, FirstFlow, Readable;
    FollowsLinked(url, p, m);
    FirstFlowIs(m.has, p.first);
    if Accept(p, packet).Ok? {
      FirstExtends(p, packet);
      FirstShows(url, p, packet);
    }
  }

  lemma LengthGoes(url: UrlBuffer, p: Progress, m: BakerMemory, packet: Packet)
    requires Follows(url, p, m) && p.stage.UrlLength? && packet.p1 == P1_URL_LENGTH
    ensures Linked(m) && Goes(url, p, m, packet)
  {
    hide FirstBody, FirstOk, Transcript, HeadOk, FieldsOf, U2BE, LastPage, Flat;
    FollowsLinked(url, p, m);
    NoPieces();
    NoUrlYet(url, m.url, p);
    hide Bodies;
    if Accept(p, packet).Ok? {
      UrlExtends(p, packet);
      UrlLengthShows(m.url, p, packet);
      assert Bodies(m.url, p) + [] == Bodies(m.url, p);
    }
  }

  /** Before the URL the screens do not depend on the buffer. */
  lemma NoUrlYet(url: UrlBuffer, other: UrlBuffer, p: Progress)
    requires ProgressOk(p) && p.stage.UrlLength?
    ensures Bodies(url, p) == Bodies(other, p)
  {
  }

  lemma BufferNext(url: UrlBuffer, pieces: seq<bytes>, piece: bytes)
    requires Chunks(pieces) && |piece| <= 255
    ensures Chunks(pieces + [piece])
    ensures BufferAfter(url, pieces + [piece]) == Written(BufferAfter(url, pieces), 0, Chars(piece))
  {
    assert (pieces + [piece])[..|pieces|] == pieces;
  }

  lemma PieceGoes(url: UrlBuffer, p: Progress, m: BakerMemory, packet: Packet)
    requires Follows(url, p, m) && p.stage.Url? && packet.p1 == P1_URL
    ensures Linked(m) && Goes(url, p, m, packet)
  {
    hide FirstBody, FirstOk, Transcript, HeadOk, FieldsOf, LastPage, NextPage, UrlStep, Flat, Bodies, BufferAfter,
        Written;
    FollowsLinked(url, p, m);
    var piece := packet.data[..packet.length];
    FlatAppend(p.pieces, piece);
    BufferNext(url, p.pieces, piece);
    if Accept(p, packet).Ok? {
      UrlExtends(p, packet);
      UrlShows(url, p, packet);
    }
  }

  lemma RatesGoes(url: UrlBuffer, p: Progress, m: BakerMemory, packet: Packet)
    requires Follows(url, p, m) && p.stage.Rates? && packet.p1 == P1_COMMISSION_RATES
    ensures Linked(m) && Goes(url, p, m, packet)
  {
    hide FirstBody, FirstOk, Transcript, HeadOk, FieldsOf, RatesBody, RatesView, RatesOk, Flat, Bodies;
    FollowsLinked(url, p, m);
    if Accept(p, packet).Ok? {
      RatesExtends(p, packet);
      RatesShows(url, p, packet);
      assert Bodies(url, Accept(p, packet).value) != [];
    }
  }

  /** In a session that its first packet has started anew. */
  lemma SessionGoes(url: UrlBuffer, p: Progress, m: BakerMemory, packet: Packet)
    requires Follows(url, p, m) && !p.stage.End?
    ensures Linked(m) && Goes(url, p, m, packet)
  {
    FollowsLinked(url, p, m);
    match p.stage
    case First =>
      if packet.p1 == P1_FIRST_BATCH { FirstGoes(url, p, m, packet); }
    case Aggregation =>
      if packet.p1 == P1_AGGREGATION_KEY { AggregationGoes(url, p, m, packet); }
    case UrlLength =>
      if packet.p1 == P1_URL_LENGTH { LengthGoes(url, p, m, packet); }
    case Url =>
      if packet.p1 == P1_URL { PieceGoes(url, p, m, packet); }
    case Rates =>
      if packet.p1 == P1_COMMISSION_RATES { RatesGoes(url, p, m, packet); }
  }

  /** An initial packet whose bitmap has one of the eight bits that stand for fields. */
  predicate Announces(packet: Packet) {
    && packet.p1 == P1_INITIAL && PathLength(packet.data).Ok?
    && BitmapOk(U2BE(packet.data, PathLength(packet.data).value + 61))
  }

  /** The packet that starts it. */
  lemma StartGoes(url: UrlBuffer, m: Leftover, packet: Packet)
    ensures Accept(BEGIN, packet).Ok? <==> Effect(m, packet, true).Ok? && Announces(packet)
    ensures Accept(BEGIN, packet).Ok? ==>
      var q, n := Accept(BEGIN, packet).value, Effect(m, packet, true).value;
      Follows(url, q, n.memory) && n.flow == None && n.reply == Answer(BEGIN, q) && !q.stage.End? && Bodies(url, q) == []
  {
    hide FieldsOf, Transcript, Flat, U2BE;
    var data := packet.data;
    if PathLength(data).Ok? { BitmapCases(U2BE(data, PathLength(data).value + 61)); }
    if AcceptStart(data).Ok? { StartExtends(url, data); }
  }

  // ------------------------------------------------------------------ sessions

  /** A session: whether its first command has come, and whether the user has been asked to sign. */
  datatype Sitting = Sitting(begun: bool, asked: bool, memory: Leftover)

  /** Before its first command it finds what is left in memory. */
  function Found(m: Leftover): (r: Sitting) {
    Sitting(false, false, m)
  }

  function Take(s: Sitting, e: Event): (r: Outcome<Sitting>) {
    if e.Confirm? || s.asked then Throw(InvalidState)
    else
      var n :- Effect(s.memory, e.packet, !s.begun);
      EffectLinked(s.memory, e.packet, !s.begun);
      Ok(Sitting(true, n.reply == Await(Ask), n.memory))
  }

  function ReplyTo(s: Sitting, e: Event): (r: Reply) {
    if Take(s, e).Ok? then Effect(s.memory, e.packet, !s.begun).value.reply else Success
  }

  /** What an event adds to the hash. */
  function HashedBy(s: Sitting, e: Event): (r: bytes) {
    if e.Host? then PacketBytes(e.packet) else []
  }

  /** What the first event leaves of the hash that the session has found. */
  function Kept(s: Sitting, e: Event): (r: bytes) {
    if e.Host? && e.packet.p1 == P1_INITIAL then [] else s.memory.hash
  }

  /** The bytes that a session itself has received. */
  function Own(events: seq<Event>): (r: bytes) {
    if events == [] then []
    else
      var e := events[|events| - 1];
      Own(events[..|events| - 1]) + if e.Host? then PacketBytes(e.packet) else []
  }

  /** The flows that a session shows. */
  function ShownIn(sender: string, s: Sitting, events: seq<Event>): (r: seq<Flow>)
    requires Run(Take, s, events).Ok?
  {
    if events == [] then []
    else
      var before, e := events[..|events| - 1], events[|events| - 1];
      var t := Run(Take, s, before).value;
      ShownIn(sender, s, before) + Flows(Effect(t.memory, e.packet, !t.begun).value, sender)
  }

  lemma TakeHashes(s: Sitting, e: Event)
    requires Take(s, e).Ok?
    ensures e.Host? && Take(s, e).value.begun
    ensures Take(s, e).value.memory.hash == (if s.begun then s.memory.hash else Kept(s, e)) + HashedBy(s, e)
  {
    hide Effect, PacketBytes;
    EffectHashes(s.memory, e.packet, !s.begun);
  }

  /** In every session the hash holds what its first packet has kept, and the session's own bytes. */
  lemma {:induction false} SessionHash(s: Sitting, events: seq<Event>)
    requires events != [] && !s.begun && Run(Take, s, events).Ok?
    ensures var t := Run(Take, s, events).value; t.begun && t.memory.hash == Kept(s, events[0]) + Own(events)
    ensures Gathered(Take, HashedBy, s, events) == Own(events)
  {
    hide Take, Kept, PacketBytes;
    var n := |events| - 1;
    var before, e := events[..n], events[n];
    var t := Run(Take, s, before).value;
    TakeHashes(t, e);
    if before == [] {
      assert [] + HashedBy(t, e) == HashedBy(t, e);
      assert Own(before) == [];
    } else {
      SessionHash(s, before);
      Regroup(Kept(s, events[0]), Own(before), HashedBy(t, e));
    }
  }

  // ------------------------------------------------------------------ sessions of a transaction

  function Packets(events: seq<Event>): (r: seq<Packet>)
    requires forall e | e in events :: e.Host?
  {
    seq(|events|, i requires 0 <= i < |events| => events[i].packet)
  }

  /** The review and sender steps before the first flow. */
  function Introduced(sender: string, bodies: seq<Flow>): (r: seq<Flow>) {
    if bodies == [] then [] else [[REVIEW, Show("Sender", sender)] + bodies[0]] + bodies[1..]
  }

  lemma IntroducedMore(sender: string, bodies: seq<Flow>, n: Next)
    requires n.flow.Some? ==> n.introduced == (bodies == [])
    ensures Introduced(sender, bodies + Body(n)) == Introduced(sender, bodies) + Flows(n, sender)
  {
    if n.flow.None? {
      assert bodies + [] == bodies;
    } else if bodies != [] {
      assert (bodies + Body(n))[1..] == bodies[1..] + Body(n);
    }
  }

  lemma AnswerAsks(p: Progress, packet: Packet)
    requires Accept(p, packet).Ok?
    ensures Answer(p, Accept(p, packet).value) == Await(Ask) <==> Accept(p, packet).value.stage.End?
  {
    hide FieldsOf, FirstOk, RatesOk, Flat, U2BE;
  }

  lemma TakeStart(sender: string, m: Leftover, e: Event)
    requires e.Host? && Announces(e.packet) && Take(Found(m), e).Ok?
    ensures Accept(BEGIN, e.packet).Ok?
    ensures var p, s := Accept(BEGIN, e.packet).value, Take(Found(m), e).value;
            && Follows(m.url, p, s.memory) && (s.asked <==> p.stage.End?) && Bodies(m.url, p) == []
            && Flows(Effect(m, e.packet, true).value, sender) == []
  {
    StartGoes(m.url, m, e.packet);
    hide Effect, Follows, Accept, Bodies, Announces;
    AnswerAsks(BEGIN, e.packet);
  }

  lemma TakeMore(sender: string, url: UrlBuffer, p: Progress, s: Sitting, e: Event)
    requires Follows(url, p, s.memory) && s.begun && (s.asked <==> p.stage.End?) && Take(s, e).Ok?
    ensures e.Host? && Accept(p, e.packet).Ok?
    ensures var q, t, next := Accept(p, e.packet).value, Take(s, e).value, UrlFrom(url, p, s.memory);
            && Follows(next, q, t.memory) && (t.asked <==> q.stage.End?)
            && Introduced(sender, Bodies(next, q))
               == Introduced(sender, Bodies(url, p)) + Flows(Effect(s.memory, e.packet, false).value, sender)
  {
    SessionGoes(url, p, s.memory, e.packet);
    hide Effect, Accept, Bodies, StageFollows, Flows;
    AnswerAsks(p, e.packet);
    IntroducedMore(sender, Bodies(url, p), Effect(s.memory, e.packet, false).value);
  }

  /** A session whose first packet announces a field receives a transaction: it accepts what ConfigureBakerTx
      accepts, its hash is the serialization so far, and its screens are those of the transaction. */
  lemma {:induction false} AnewSession(sender: string, m: Leftover, events: seq<Event>)
    returns (url: UrlBuffer, p: Progress)
    requires events != [] && events[0].Host? && Announces(events[0].packet) && Run(Take, Found(m), events).Ok?
    ensures forall e | e in events :: e.Host?
    ensures Run(Accept, BEGIN, Packets(events)) == Ok(p)
    ensures var s := Run(Take, Found(m), events).value;
            Follows(url, p, s.memory) && (s.asked <==> p.stage.End?)
    ensures ShownIn(sender, Found(m), events) == Introduced(sender, Bodies(url, p))
  {
    hide Effect, Take, Accept, Bodies, Follows, Flows, Announces, Introduced;
    var n := |events| - 1;
    var before, e := events[..n], events[n];
    var t := Run(Take, Found(m), before).value;
    if before == [] {
      TakeStart(sender, m, e);
      url, p := m.url, Accept(BEGIN, e.packet).value;
      assert Packets(events) == [e.packet];
      One(Accept, BEGIN, e.packet);
      assert ShownIn(sender, Found(m), before) == [];
      IntroducedNothing(sender);
    } else {
      var q;
      url, q := AnewSession(sender, m, before);
      BegunAfter(Found(m), before);
      TakeMore(sender, url, q, t, e);
      p := Accept(q, e.packet).value;
      assert Packets(events)[..n] == Packets(before);
      url := UrlFrom(url, q, t.memory);
    }
  }

  lemma IntroducedNothing(sender: string)
    ensures Introduced(sender, []) == []
  {
  }

  lemma BegunAfter(s: Sitting, events: seq<Event>)
    requires events != [] && Run(Take, s, events).Ok?
    ensures Run(Take, s, events).value.begun
  {
    hide Effect;
  }

  /** Its screens are those of the transaction, over what the URL buffer held. */
  lemma SessionScreens(sha: Sha256, m: Leftover, events: seq<Event>) returns (url: UrlBuffer, p: Progress)
    requires events != [] && events[0].Host? && Announces(events[0].packet) && Run(Take, Found(m), events).Ok?
    ensures ProgressOk(p) && |p.header| == 61
    ensures ShownIn(AddressChars(sha, p.header[..32]), Found(m), events) == Rendered(Before(sha, url), p)
  {
    hide Effect, Take, Accept, Bodies, Announces, AddressChars, ShownIn;
    url, p := AnewSession("", m, events);
    var again, q := AnewSession(AddressChars(sha, p.header[..32]), m, events);
    url := again;
  }

  // ------------------------------------------------------------------ what is signed

  ghost predicate Serializes(b: bytes) {
    exists tx: ConfigureBakerRuns.Tx :: ConfigureBakerRuns.WellFormed(tx) && ConfigureBakerRuns.TxBytes(tx) == b
  }

  predicate Anew(events: seq<Event>)
    requires events != []
  {
    events[0].Host? && Announces(events[0].packet)
  }

  lemma AnewSerializes(m: Leftover, events: seq<Event>)
    requires events != [] && Anew(events) && Run(Take, Found(m), events).Ok?
    requires Run(Take, Found(m), events).value.asked
    ensures Serializes(Run(Take, Found(m), events).value.memory.hash)
  {
    hide Effect, Take, Accept, Bodies, Announces, ConfigureBakerRuns.WellFormed, ConfigureBakerRuns.TxBytes;
    var url, p := AnewSession("", m, events);
    ConfigureBakerRuns.ReceivedBytes(p);
    assert ConfigureBakerRuns.WellFormed(ConfigureBakerRuns.Received(p));
  }

  /** The bitmap of a serialization announces a field. */
  lemma BitmapInside(header: bytes, bitmap: u16, rest: bytes)
    requires |header| == 61 && !BitmapOk(bitmap)
    ensures !Serializes(header + Put2(bitmap) + rest)
  {
    hide FieldsOf, BitmapOk, Put2, FirstOk, RatesOk, ConfigureBakerRuns.UrlPart;
    var b := header + Put2(bitmap) + rest;
    if tx: ConfigureBakerRuns.Tx :| ConfigureBakerRuns.WellFormed(tx) && ConfigureBakerRuns.TxBytes(tx) == b {
      ConfigureBakerRuns.Nested(tx);
      Regroup(header, Put2(bitmap), rest);
      var more := tx.first + (tx.aggregation
          + (ConfigureBakerRuns.UrlPart(FieldsOf(tx.bitmap).url, tx.url) + tx.rates));
      Split(tx.header, header, Put2(tx.bitmap) + more, Put2(bitmap) + rest);
      Split(Put2(tx.bitmap), Put2(bitmap), more, rest);
      Put2Injective(tx.bitmap, bitmap);
    }
  }

  lemma {:induction false} OwnStarts(events: seq<Event>) returns (rest: bytes)
    requires events != [] && events[0].Host?
    ensures Own(events) == PacketBytes(events[0].packet) + rest
  {
    hide PacketBytes;
    var n := |events| - 1;
    var e := events[n];
    var last := if e.Host? then PacketBytes(e.packet) else [];
    if n == 0 {
      rest := [];
      assert Own(events[..n]) == [] && [] + last == last == last + [];
    } else {
      var before := OwnStarts(events[..n]);
      rest := before + last;
      Regroup(PacketBytes(events[0].packet), before, last);
    }
  }

  lemma StartBytes(packet: Packet)
    requires packet.p1 == P1_INITIAL && PathLength(packet.data).Ok?
    ensures var data, at := packet.data, PathLength(packet.data).value;
            PacketBytes(packet) == data[at..at + 61] + Put2(U2BE(data, at + 61))
  {
    var data, at := packet.data, PathLength(packet.data).value;
    Put2Get2(data, at + 61);
    hide PathLength, Put2, U2BE;
    assert data[at..at + 63] == data[at..at + 61] + data[at + 61..at + 63];
  }

  /** An initial packet that announces nothing starts no transaction. */
  lemma NoTransaction(m: Leftover, events: seq<Event>)
    requires events != [] && Run(Take, Found(m), events).Ok? && events[0].Host?
    requires events[0].packet.p1 == P1_INITIAL && !Announces(events[0].packet)
    ensures !Serializes(Own(events))
  {
    hide Effect, Take, PacketBytes, BitmapOk, Serializes, PathLength;
    var packet := events[0].packet;
    FirstTaken(m, events);
    StartAccepted(m, packet);
    var rest := OwnStarts(events);
    StartBytes(packet);
    var data, at := packet.data, PathLength(packet.data).value;
    BitmapInside(data[at..at + 61], U2BE(data, at + 61), rest);
  }

  lemma StartAccepted(m: Leftover, packet: Packet)
    requires packet.p1 == P1_INITIAL && Effect(m, packet, true).Ok?
    ensures PathLength(packet.data).Ok?
  {
  }

  lemma {:induction false} FirstTaken(m: Leftover, events: seq<Event>)
    requires events != [] && Run(Take, Found(m), events).Ok?
    ensures events[0].Host? && Effect(m, events[0].packet, true).Ok?
  {
    hide Effect;
    var n := |events| - 1;
    if n > 0 { FirstTaken(m, events[..n]); }
  }

  /** What a signature is over, by the events of its session and what the hash held before. */
  ghost predicate SignedAs(events: seq<Event>, left: bytes, b: bytes)
    requires events != []
  {
    && b == (if events[0].Host? && events[0].packet.p1 == P1_INITIAL then [] else left) + Own(events)
    && (b == Own(events) <==> left == [] || (events[0].Host? && events[0].packet.p1 == P1_INITIAL))
    && (Anew(events) ==> Serializes(b))
    && (left != [] ==> (b == Own(events) && Serializes(b) <==> Anew(events)))
  }

  /** In whatever memory a session begins: what it has the user sign is its own bytes, and one well-formed
      transaction, if and only if its first packet is an initial one that announces a field.  What the hash
      has absorbed before stays in front of the bytes of every session that begins with another packet. */
  lemma SignedExactly(m: Leftover, events: seq<Event>)
    requires events != [] && Run(Take, Found(m), events).Ok? && Run(Take, Found(m), events).value.asked
    ensures SignedAs(events, m.hash, Run(Take, Found(m), events).value.memory.hash)
  {
    hide Take, Effect, Announces, Own, Serializes;
    SessionHash(Found(m), events);
    FirstTaken(m, events);
    var b := Run(Take, Found(m), events).value.memory.hash;
    assert [] + Own(events) == Own(events) && |m.hash + Own(events)| == |m.hash| + |Own(events)|;
    if Anew(events) {
      AnewSerializes(m, events);
      AnewInitial(events[0].packet);
    } else if events[0].packet.p1 == P1_INITIAL {
      NoTransaction(m, events);
    }
  }

  lemma AnewInitial(packet: Packet)
    ensures Announces(packet) ==> packet.p1 == P1_INITIAL
  {
  }

  // ------------------------------------------------------------------ every transaction, from any memory

  function Hosts(packets: seq<Packet>): (r: seq<Event>) {
    seq(|packets|, i requires 0 <= i < |packets| => Host(packets[i]))
  }

  /** Whatever is left in memory, the packets of a transaction are accepted. */
  lemma {:induction false} AcceptedAnew(m: Leftover, packets: seq<Packet>) returns (url: UrlBuffer)
    requires packets != [] && Run(Accept, BEGIN, packets).Ok?
    ensures Announces(packets[0]) && Run(Take, Found(m), Hosts(packets)).Ok?
    ensures var p, s := Run(Accept, BEGIN, packets).value, Run(Take, Found(m), Hosts(packets)).value;
            Follows(url, p, s.memory) && s.begun && (s.asked <==> p.stage.End?)
  {
    hide Effect, Accept, Bodies, Follows, Flows, Announces, Introduced;
    var n := |packets| - 1;
    var before, packet := packets[..n], packets[n];
    assert Hosts(packets)[..n] == Hosts(before);
    var q := Run(Accept, BEGIN, before).value;
    if before == [] {
      url := m.url;
      StartGoes(url, m, packet);
      TakeStart("", m, Host(packet));
    } else {
      url := AcceptedAnew(m, before);
      var t := Run(Take, Found(m), Hosts(before)).value;
      NotAfterEnd(q, packet);
      SessionGoes(url, q, t.memory, packet);
      TakeMore("", url, q, t, Host(packet));
      url := UrlFrom(url, q, t.memory);
    }
  }

  lemma NotAfterEnd(p: Progress, packet: Packet)
    requires Accept(p, packet).Ok?
    ensures !p.stage.End?
  {
  }

  /** A byte string can be brought to the sign screen by a session that is started anew, in whatever memory,
      if and only if it serializes a well-formed transaction. */
  lemma SignedAnew(m: Leftover, b: bytes)
    ensures Serializes(b) <==> exists events: seq<Event> ::
      && events != [] && Anew(events) && Run(Take, Found(m), events).Ok?
      && Run(Take, Found(m), events).value.asked && Run(Take, Found(m), events).value.memory.hash == b
  {
    hide Take, Accept, Announces, FieldsOf, FirstOk, RatesOk, BitmapOk, ConfigureBakerRuns.TxBytes;
    if tx: ConfigureBakerRuns.Tx :| ConfigureBakerRuns.WellFormed(tx) && ConfigureBakerRuns.TxBytes(tx) == b {
      var packets := ConfigureBakerRuns.SendAll(tx);
      assert packets != [];
      var url := AcceptedAnew(m, packets);
      var p := Run(Accept, BEGIN, packets).value;
      ConfigureBakerRuns.ReceivedBytes(p);
      assert Anew(Hosts(packets));
    }
    if events: seq<Event> :|
      && events != [] && Anew(events) && Run(Take, Found(m), events).Ok?
      && Run(Take, Found(m), events).value.asked && Run(Take, Found(m), events).value.memory.hash == b
    {
      AnewSerializes(m, events);
    }
  }

  // ------------------------------------------------------------------ sessions that go on with an earlier one

  /** Bitmaps with bits 8 and 9 only: the hash is new, and the state stays as it was. */
  lemma StateKept(m: Leftover, packet: Packet)
    requires packet.p1 == P1_INITIAL && HeaderAt(packet.data, 60, CONFIGURE_BAKER).Ok?
    ensures PathLength(packet.data).Ok?
    ensures var at := PathLength(packet.data).value;
            var bitmap := U2BE(packet.data, at + 61);
            bitmap == 256 || bitmap == 512 || bitmap == 768 ==>
              Effect(m, packet, true)
              == Ok(Next(
                   m.(has := NO_FIELDS, firstDisplay := true, hash := packet.data[at..at + 63]), None, false, Success))
  {
    hide HeaderAt, U2BE;
    EmptyBitmaps();
    hide FieldsOf;
  }

  lemma EmptyBitmaps()
    ensures FieldsOf(256) == FieldsOf(512) == FieldsOf(768) == NO_FIELDS && FieldsOf(32) == ONLY_FEE
  {
  }

  /** What is accepted then: an empty first batch, rest of a URL, or rates, if the state awaits it. */
  lemma NothingAnnounced(m: Leftover, packet: Packet)
    requires m.has == NO_FIELDS
    ensures Effect(m, packet, false).Ok? <==>
      || (packet.p1 == P1_FIRST_BATCH && m.state == CONFIGURE_BAKER_FIRST && packet.length == 0)
      || (packet.p1 == P1_URL && m.state == CONFIGURE_BAKER_URL && packet.length <= m.view.urlLength)
      || (packet.p1 == P1_COMMISSION_RATES && m.state == CONFIGURE_BAKER_COMMISSION_RATES && packet.length == 0)
    ensures Effect(m, packet, false).Ok? && packet.p1 != P1_URL ==> Effect(m, packet, false).value.reply == Await(Ask)
  {
    hide U4BE, U8BE, Written, NextPage, LastPage, UrlStep, AmountText, PercentText;
  }

  const ONLY_FEE := NO_FIELDS.(fee := true)

  /** The initial packet of a transaction with a transaction fee only, and a packet with a rate. */
  predicate FeeStart(packet: Packet) {
    && packet.p1 == P1_INITIAL && HeaderAt(packet.data, 60, CONFIGURE_BAKER).Ok?
    && U2BE(packet.data, PathLength(packet.data).value + 61) == 32
  }

  predicate FeeRate(packet: Packet) {
    packet.p1 == P1_COMMISSION_RATES && packet.length == 4 && U4BE(packet.data, 0) <= MAX_RATE
  }

  function FeeBytes(packet: Packet): (r: bytes) {
    packet.data[..4]
  }

  /** A transaction fee is sent, and the user declines.  The memory still awaits rates. */
  lemma FeeAsked(m: Leftover, start: Packet, rate: Packet)
    requires FeeStart(start) && FeeRate(rate)
    ensures Take(Found(m), Host(start)).Ok? && ReplyTo(Found(m), Host(start)) == Success
    ensures var s := Take(Found(m), Host(start)).value;
            && Take(s, Host(rate)).Ok? && ReplyTo(s, Host(rate)) == Await(Ask)
            && var t := Take(s, Host(rate)).value;
               && t.asked && t.memory.state == CONFIGURE_BAKER_COMMISSION_RATES && t.memory.has == ONLY_FEE
               && !t.memory.firstDisplay && t.memory.hash == PacketBytes(start) + FeeBytes(rate)
  {
    hide U4BE, PercentText, HeaderAt, U2BE;
    SameRate(rate);
  }

  lemma SameRate(rate: Packet)
    requires rate.length == 4
    ensures U4BE(rate.data[..4], 0) == U4BE(rate.data, 0)
  {
  }

  /** A session that begins with another rate asks again, without the review and sender steps, and its
      signature is over both. */
  lemma FeeAgain(m: Leftover, rate: Packet, sender: string)
    requires m.state == CONFIGURE_BAKER_COMMISSION_RATES && m.has == ONLY_FEE && !m.firstDisplay && FeeRate(rate)
    ensures Take(Found(m), Host(rate)).Ok? && ReplyTo(Found(m), Host(rate)) == Await(Ask)
    ensures Take(Found(m), Host(rate)).value.memory.hash == m.hash + FeeBytes(rate)
    ensures Flows(Effect(m, rate, true).value, sender)
         == [[Show("Commission", "rates"), Show("Transaction fee", PercentText(U4BE(rate.data, 0))), Sign, Decline]]
  {
    hide U4BE, PercentText;
    SameRate(rate);
    FeeFlow(rate.data[..4]);
  }

  lemma FeeFlow(b: bytes)
    requires RatesOk(ONLY_FEE, b)
    ensures RatesFlow(ONLY_FEE, b)
         == [Show("Commission", "rates"), Show("Transaction fee", PercentText(U4BE(b, 0))), Sign, Decline]
  {
    hide U4BE, PercentText;
  }

  /** That is no transaction. */
  lemma TwoFees(start: Packet, first: bytes, second: bytes)
    requires FeeStart(start) && |first| == |second| == 4
    ensures !Serializes(PacketBytes(start) + first + second)
  {
    hide HeaderAt, BitmapOk, Put2, U2BE, FirstOk, ConfigureBakerRuns.UrlPart;
    StartBytes(start);
    var data, at := start.data, PathLength(start.data).value;
    var header, b := data[at..at + 61], PacketBytes(start) + first + second;
    if tx: ConfigureBakerRuns.Tx :| ConfigureBakerRuns.WellFormed(tx) && ConfigureBakerRuns.TxBytes(tx) == b {
      ConfigureBakerRuns.Nested(tx);
      var more := tx.first + (tx.aggregation
          + (ConfigureBakerRuns.UrlPart(FieldsOf(tx.bitmap).url, tx.url) + tx.rates));
      Regroup(PacketBytes(start), first, second);
      Regroup(header, Put2(32), first + second);
      Split(tx.header, header, Put2(tx.bitmap) + more, Put2(32) + (first + second));
      Split(Put2(tx.bitmap), Put2(32), more, first + second);
      Put2Injective(tx.bitmap, 32);
      OneFee(tx);
    }
  }

  lemma OneFee(tx: ConfigureBakerRuns.Tx)
    requires ConfigureBakerRuns.WellFormed(tx) && tx.bitmap == 32
    ensures |tx.first + (tx.aggregation
               + (ConfigureBakerRuns.UrlPart(FieldsOf(tx.bitmap).url, tx.url) + tx.rates))| == 4
  {
    EmptyBitmaps();
  }
}
