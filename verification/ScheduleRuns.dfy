/** Whole runs over the releases of a scheduled transfer: host packets, and a press on "Show next
    release" for every release that is not the last. */
module ScheduleRuns {
  import opened Bytes
  import opened Lists
  import opened Device
  import opened Runs
  import opened ScheduleTx
  import DisplayCbor

  /** A packet that has been loaded, and the presses until the next packet or the sign screen. */
  function Drain(p: Progress): (r: Outcome<Progress>)
    requires AllOf(p.packet, 16)
    decreases |p.packet|
  {
    var q :- Next(p);
    if q.stage.PairShown? then Drain(q) else Ok(q)
  }

  /** The packets of releases, one after the other. */
  function Send(p: Progress, packets: seq<Cdata>): (r: Outcome<Progress>)
    requires |p.pairs| <= p.n
    decreases |packets|
  {
    if packets == [] then Ok(p)
    else if !p.stage.NextPacket? then Throw(InvalidState)
    else
      var q :- Drain(TakePacket(p, packets[0]));
      if |q.pairs| <= q.n then Send(q, packets[1..]) else Throw(InvalidState)
  }

  ghost predicate AllAccepted(pairs: seq<bytes>)
    requires AllOf(pairs, 16)
  {
    forall i | 0 <= i < |pairs| :: Accepted(pairs[i])
  }

  /** What is left when all releases of the packet have been shown. */
  function AllShown(p: Progress): (r: Progress) {
    p.(pairs := p.pairs + p.packet, packet := [],
       stage := if |p.pairs| + |p.packet| == p.n then Done else NextPacket)
  }

  /** One release at a time. */
  lemma DrainOne(p: Progress)
    requires AllOf(p.packet, 16) && p.packet != []
    ensures !Accepted(p.packet[0]) ==> Drain(p) == Throw(InvalidParam)
    ensures Accepted(p.packet[0]) ==>
      && Next(p).Ok?
      && var q := Next(p).value;
         && AllOf(q.packet, 16) && q.packet == p.packet[1..] && AllShown(q) == AllShown(p)
         && (q.stage.Done? || q.stage.PairShown?) && Drain(p) == if q.stage.Done? then Ok(q) else Drain(q)
  {
    hide Accepted;
    assert p.pairs + [p.packet[0]] + p.packet[1..] == p.pairs + p.packet;
  }

  lemma DrainNone(p: Progress)
    requires Midway(p) && p.n > 0 && p.packet == []
    ensures Drain(p) == Ok(AllShown(p)) && ProgressOk(AllShown(p))
  {
    hide Releases, HeadOk, DisplayCbor.Received;
    NextExtends(p);
    assert p.pairs + p.packet == p.pairs;
  }

  /** A packet gets through exactly when all its releases are accepted; then each has been shown. */
  lemma {:induction false} DrainShowsAll(p: Progress)
    requires Midway(p) && p.n > 0
    ensures AllOf(p.packet, 16)
    ensures Drain(p) == if AllAccepted(p.packet) then Ok(AllShown(p)) else Throw(InvalidParam)
    ensures AllAccepted(p.packet) ==> ProgressOk(AllShown(p))
    decreases |p.packet|
  {
    MidwayBounds(p);
    hide Accepted, Midway, AllOf, Drain, Next, AllShown, AllAccepted, PairPhase;
    if p.packet == [] {
      DrainNone(p);
      NoReleases();
    } else {
      DrainSplit(p.packet);
      DrainOne(p);
      if Accepted(p.packet[0]) {
        NextExtends(p);
        var q := Next(p).value;
        if q.stage.PairShown? {
          ShownMidway(q);
          DrainShowsAll(q);
        } else {
          DoneShown(q);
          NoReleases();
        }
      }
    }
  }

  // ------------------------------------------------------------------ all packets

  function InPacket(left: nat): (r: nat)
    ensures r <= left && r <= PAIRS_PER_PACKET && (left > 0 ==> r > 0)
  {
    if left <= PAIRS_PER_PACKET then left else PAIRS_PER_PACKET
  }

  /** The releases in a list of packets when left are still to come. */
  function Carried(left: nat, packets: seq<Cdata>): (r: seq<bytes>)
    ensures AllOf(r, 16)
    decreases |packets|
  {
    if packets == [] then [] else Pieces(packets[0], InPacket(left)) + Carried(left - InPacket(left), packets[1..])
  }

  /** The packets that left releases take. */
  function PacketCount(left: nat): (r: nat) {
    (left + PAIRS_PER_PACKET - 1) / PAIRS_PER_PACKET
  }

  lemma PacketCounts(left: nat)
    requires left > 0
    ensures PacketCount(left) == 1 + PacketCount(left - InPacket(left))
    ensures PacketCount(0) == 0
  {
  }

  ghost predicate Signed(r: Outcome<Progress>) {
    r.Ok? && r.value.stage.Done?
  }

  lemma SendFirst(p: Progress, packets: seq<Cdata>)
    requires ProgressOk(p) && p.stage.NextPacket? && p.n > 0 && packets != []
    ensures |p.pairs| < p.n
    ensures var left := p.n - |p.pairs|;
            var items := Pieces(packets[0], InPacket(left));
            var q := p.(pairs := p.pairs + items, batches := p.batches + 1,
                        stage := if left <= PAIRS_PER_PACKET then Done else NextPacket);
            if !AllAccepted(items) then Send(p, packets) == Throw(InvalidParam)
            else ProgressOk(q) && |q.pairs| <= q.n && Send(p, packets) == Send(q, packets[1..])
  {
    hide Accepted, Releases, HeadOk, BatchesOk, DisplayCbor.Received, AllAccepted, Drain;
    TakePacketMidway(p, packets[0]);
    DrainShowsAll(TakePacket(p, packets[0]));
  }

  /** q signs p with items for the releases that were left. */
  ghost predicate Completes(p: Progress, items: seq<bytes>, q: Progress) {
    && ProgressOk(q) && q.stage.Done? && q.pairs == p.pairs + items && |q.pairs| == q.n
    && q.header == p.header && q.to == p.to && q.memo == p.memo && q.n == p.n
  }

  lemma AfterDone(q: Progress, packets: seq<Cdata>)
    requires ProgressOk(q) && q.stage.Done?
    ensures |q.pairs| <= q.n && (Signed(Send(q, packets)) <==> packets == [])
    ensures packets == [] ==> Send(q, packets) == Ok(q)
  {
  }

  lemma AcceptedAppend(a: seq<bytes>, b: seq<bytes>)
    requires AllOf(a, 16) && AllOf(b, 16)
    ensures AllOf(a + b, 16) && (AllAccepted(a + b) <==> AllAccepted(a) && AllAccepted(b))
  {
    hide Accepted;
    forall i | 0 <= i < |b|
      ensures b[i] == (a + b)[|a| + i]
    {
    }
    if AllAccepted(a + b) {
      forall i | 0 <= i < |a|
        ensures Accepted(a[i])
      {
        assert a[i] == (a + b)[i];
      }
    }
  }

  /** The sign screen is reached exactly with the number of packets that n releases take and with
      releases that are all accepted; then these are the releases signed. */
  lemma {:induction false} SignedExactly(p: Progress, packets: seq<Cdata>)
    requires ProgressOk(p) && p.stage.NextPacket? && p.n > 0
    ensures |p.pairs| < p.n
    ensures Signed(Send(p, packets)) <==>
      |packets| == PacketCount(p.n - |p.pairs|) && AllAccepted(Carried(p.n - |p.pairs|, packets))
    ensures Signed(Send(p, packets)) ==>
      Completes(p, Carried(p.n - |p.pairs|, packets), Send(p, packets).value)
    decreases |packets|
  {
    hide AllAccepted, ProgressOk, Pieces, PacketCount;
    var left := p.n - |p.pairs|;
    SendBounds(p);
    PacketCounts(left);
    if packets != [] {
      SendFirst(p, packets);
      var items, rest := Pieces(packets[0], InPacket(left)), Carried(left - InPacket(left), packets[1..]);
      AcceptedAppend(items, rest);
      assert p.pairs + items + rest == p.pairs + (items + rest);
      if AllAccepted(items) {
        var q := p.(pairs := p.pairs + items, batches := p.batches + 1,
                    stage := if left <= PAIRS_PER_PACKET then Done else NextPacket);
        if left <= PAIRS_PER_PACKET {
          AfterDone(q, packets[1..]);
          NoReleases();
          assert items + [] == items;
        } else {
          SignedExactly(q, packets[1..]);
        }
      }
    }
  }

  lemma SendBounds(p: Progress)
    requires ProgressOk(p) && p.stage.NextPacket? && p.n > 0
    ensures |p.pairs| < p.n
  {
  }
  lemma NoReleases()
    ensures AllOf([], 16) && AllAccepted([])
  {
  }

  // ------------------------------------------------------------------ every list can be sent

  /** A packet with the first releases of a list. */
  function PacketOf(pairs: seq<bytes>): (r: Cdata)
    requires AllOf(pairs, 16)
  {
    seq(264, j requires 0 <= j < 264 => if j / 16 < |pairs| then pairs[j / 16][j % 16] else 0)
  }

  lemma PacketOfPieces(pairs: seq<bytes>)
    requires AllOf(pairs, 16)
    ensures Pieces(PacketOf(pairs), InPacket(|pairs|)) == pairs[..InPacket(|pairs|)]
  {
    var data, k := PacketOf(pairs), InPacket(|pairs|);
    forall i | 0 <= i < k
      ensures Pieces(data, k)[i] == pairs[i]
    {
      forall j | 0 <= j < 16
        ensures data[16 * i..16 * i + 16][j] == pairs[i][j]
      {
        assert (16 * i + j) / 16 == i && (16 * i + j) % 16 == j;
      }
    }
  }

  function Packets(pairs: seq<bytes>): (r: seq<Cdata>)
    requires AllOf(pairs, 16)
    decreases |pairs|
  {
    if pairs == [] then [] else [PacketOf(pairs)] + Packets(pairs[InPacket(|pairs|)..])
  }

  lemma {:induction false} PacketsCarry(pairs: seq<bytes>)
    requires AllOf(pairs, 16)
    ensures Carried(|pairs|, Packets(pairs)) == pairs && |Packets(pairs)| == PacketCount(|pairs|)
    decreases |pairs|
  {
    hide Pieces, PacketOf, PacketCount, InPacket;
    if pairs != [] {
      var k := InPacket(|pairs|);
      PacketOfPieces(pairs);
      PacketCounts(|pairs|);
      PacketsCarry(pairs[k..]);
      assert Packets(pairs)[1..] == Packets(pairs[k..]);
      TakeDrop(pairs, k);
    } else {
      PacketCounts(1);
    }
  }

  /** Every list of 1 to 255 releases that are accepted can be brought to the sign screen. */
  lemma EveryScheduleCanBeSigned(p: Progress, pairs: seq<bytes>)
    requires ProgressOk(p) && p.stage.NextPacket? && BeforePairs(p) && |pairs| == p.n > 0 && Releases(pairs)
    ensures |p.pairs| <= p.n && Signed(Send(p, Packets(pairs)))
    ensures Completes(p, pairs, Send(p, Packets(pairs)).value)
  {
    hide Packets, Carried, PacketCount, Accepted, ProgressOk, Send, Run;
    PacketsCarry(pairs);
    SignedExactly(p, Packets(pairs));
  }

  lemma DoneShown(q: Progress)
    requires ProgressOk(q) && q.stage.Done?
    ensures AllShown(q) == q && q.packet == []
  {
    assert q.pairs + [] == q.pairs;
  }

  lemma DrainSplit(packet: seq<bytes>)
    requires AllOf(packet, 16) && packet != []
    ensures AllOf(packet[1..], 16) && |packet[0]| == 16
    ensures AllAccepted(packet) <==> Accepted(packet[0]) && AllAccepted(packet[1..])
  {
    hide Accepted;
    assert packet == [packet[0]] + packet[1..];
  }

  // ------------------------------------------------------------------ single events

  /** A packet from the host, or a press on "Show next release". */
  function Take(p: Progress, e: Event): (r: Outcome<Progress>) {
    if p.stage.PairShown? then
      if e.Confirm? && AllOf(p.packet, 16) then Next(p) else Throw(InvalidState)
    else if e.Host? && !p.stage.Done? && |p.pairs| <= p.n && (p.stage.MemoMore? ==> p.memo.Some?) then Accept(p, e.packet)
    else Throw(InvalidState)
  }

  /** Releases are hashed when they are shown. */
  function HashedBy(p: Progress, e: Event): (r: bytes) {
    if !Take(p, e).Ok? then []
    else if p.stage.PairShown? then (if p.packet == [] then [] else p.packet[0])
    else if p.stage.NextPacket? then
      var items := TakePacket(p, e.packet.data).packet;
      if items == [] then [] else items[0]
    else Hashed(p, e.packet)
  }

  lemma TakeExtends(p: Progress, e: Event)
    requires ProgressOk(p) && Take(p, e).Ok?
    ensures ProgressOk(Take(p, e).value) && Transcript(Take(p, e).value) == Transcript(p) + HashedBy(p, e)
  {
    hide Transcript, Hashed, Next, PairPhase, HeadOk, Pieces;
    if p.stage.PairShown? {
      ShownMidway(p);
      NextHashed(p);
      assert Transcript(p) + [] == Transcript(p);
    } else if p.stage.NextPacket? {
      var q := TakePacket(p, e.packet.data);
      TakePacketMidway(p, e.packet.data);
      SamePart(p, q);
      AcceptIsNext(p, e.packet);
      NextHashed(q);
      assert Transcript(p) + [] == Transcript(p);
    } else {
      AcceptExtends(p, e.packet);
    }
  }

  lemma AcceptIsNext(p: Progress, packet: Packet)
    requires p.stage.NextPacket? && |p.pairs| <= p.n && Accept(p, packet).Ok?
    ensures Accept(p, packet) == Next(TakePacket(p, packet.data))
  {
  }

  lemma SamePart(p: Progress, q: Progress)
    requires q == p.(packet := q.packet, batches := q.batches) && p.stage.NextPacket?
    ensures Transcript(q) == Transcript(p)
  {
  }

  ghost predicate Reached(withMemo: bool, events: seq<Event>, b: bytes) {
    var r := Run(Take, Begin(withMemo), events);
    r.Ok? && r.value.stage.Done? && Gathered(Take, HashedBy, Begin(withMemo), events) == b
  }

  /** Header, recipient, memo, and at least one release, all of them accepted, after their number. */
  ghost predicate Serializes(withMemo: bool, p: Progress, b: bytes) {
    && HeadOk(p) && p.withMemo == withMemo && p.memo.Some? == withMemo
        && (withMemo ==> DisplayCbor.Received(p.memo.value))
    && Releases(p.pairs) && |p.pairs| == p.n >= 1
    && b == p.header + p.to + MemoBytes(p) + [p.n] + Flat(p.pairs)
  }

  /** Whatever packets and presses led to the sign screen, the bytes hashed are one scheduled transfer. */
  lemma SignedIsSchedule(withMemo: bool, events: seq<Event>, b: bytes)
    requires Reached(withMemo, events, b)
    ensures var p := Run(Take, Begin(withMemo), events).value; ProgressOk(p) && Serializes(withMemo, p, b)
  {
    var ok := p => ProgressOk(p) && p.withMemo == withMemo;
    forall p: Progress, e: Event | ok(p) && Take(p, e).Ok?
      ensures ok(Take(p, e).value) && Transcript(Take(p, e).value) == Transcript(p) + HashedBy(p, e)
    {
      hide ProgressOk, Transcript, HashedBy;
      TakeExtends(p, e);
      SameKind(p, e);
    }
    BeginOk(withMemo);
    hide ProgressOk, Take, HashedBy, Run, Gathered, Transcript;
    assert Sound(Take, HashedBy, ok, Transcript);
    RunSound(Take, HashedBy, ok, Transcript, Begin(withMemo), events);
    assert [] + b == b;
    DoneSerializes(withMemo, Run(Take, Begin(withMemo), events).value);
  }

  lemma SameKind(p: Progress, e: Event)
    requires Take(p, e).Ok?
    ensures Take(p, e).value.withMemo == p.withMemo
  {
    hide Accepted, DisplayCbor.StartMemo, DisplayCbor.ContinueMemo;
  }

  lemma DoneSerializes(withMemo: bool, p: Progress)
    requires ProgressOk(p) && p.stage.Done? && p.withMemo == withMemo
    ensures Serializes(withMemo, p, Transcript(p))
  {
    hide DisplayCbor.Received, Releases, Flat;
  }
}
