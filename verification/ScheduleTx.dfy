/** Scheduled transfers: serialization, screens, and which events may come next. */
module ScheduleTx {
  import opened Bytes
  import opened Lists
  import opened Device
  import opened NumberHelpers
  import opened Displays
  import opened DisplayCbor
  import opened Screens
  import opened Readback
  import BigEndian
  import Positional
  import Time
  import TimeText

  const TRANSFER_WITH_SCHEDULE: byte := 19
  const TRANSFER_WITH_SCHEDULE_WITH_MEMO: byte := 24
  const MAX_MEMO_SIZE := 256
  const PAIRS_PER_PACKET := 15

  const P1_INITIAL_PACKET: byte := 0x00
  const P1_SCHEDULED_TRANSFER_PAIRS: byte := 0x01
  const P1_INITIAL_WITH_MEMO: byte := 0x02
  const P1_MEMO: byte := 0x03

  // ------------------------------------------------------------------ releases

  /** The seconds of a release: eight bytes of milliseconds. */
  function Seconds(pair: bytes): (r: nat)
    requires |pair| == 16
    ensures r <= 0xffff_ffff_ffff_ffff / 1000
  {
    U8BE(pair, 0) / 1000
  }

  /** Releases whose year is refused cannot be signed. */
  predicate Accepted(pair: bytes)
    requires |pair| == 16
  {
    Time.TmOf(Seconds(pair)).year <= 9999
  }

  ghost predicate Releases(pairs: seq<bytes>) {
    AllOf(pairs, 16) && forall i | 0 <= i < |pairs| :: Accepted(pairs[i])
  }

  /** The release screen; the last one offers to sign. */
  ghost function PairFlow(pair: bytes, last: bool): (r: Flow)
    requires |pair| == 16
  {
    [Show("Release time (UTC)", TimeString(Seconds(pair))), Show("Amount", AmountText(U8BE(pair, 8)))]
    + (if last then [Sign, Decline] else [Continue("Show", "next release")])
  }

  /** The screen says which second the release begins in, and its amount. */
  lemma ReleaseShows(pair: bytes, last: bool)
    requires |pair| == 16 && Accepted(pair)
    ensures ShowsRelease(PairFlow(pair, last), pair, last)
  {
    hide U8BE, Time.TmOf, AmountText, TimeString, ShowsTime, ShowsAmount, Positional.Value;
    SecondBegun(pair);
    assert TimeText.Showable(Seconds(pair));
    TimeShown(Seconds(pair));
    AmountShown(pair[8..]);
    var flow := PairFlow(pair, last);
    assert flow[2..] == if last then [Sign, Decline] else [Continue("Show", "next release")];
  }

  lemma SecondBegun(pair: bytes)
    requires |pair| == 16
    ensures 1000 * Seconds(pair) <= Positional.Value(256, pair[..8]) < 1000 * Seconds(pair) + 1000
    ensures U8BE(pair, 8) == U8BE(pair[8..], 0)
  {
    assert pair[0..8] == pair[..8];
    BigEndian.Read8(pair, 0);
  }

  // ------------------------------------------------------------------ what has been received

  /** n announced releases; pairs have been hashed and shown, packet holds those that have not. */
  datatype Progress = Progress(
    withMemo: bool, header: bytes, to: bytes, memo: Option<Transit>, n: byte,
    pairs: seq<bytes>, packet: seq<bytes>, batches: nat, stage: Stage)

  /** PairShown waits for the user, every other stage but Done for the host. */
  datatype Stage = Start | MemoStart(declared: u16) | MemoMore | NextPacket | PairShown | Done

  function Begin(withMemo: bool): (r: Progress) {
    Progress(withMemo, [], [], None, 0, [], [], 0, Start)
  }

  ghost predicate HeadOk(p: Progress) {
    && |p.header| == 61 && |p.to| == 32
    && p.header[60] == (if p.withMemo then TRANSFER_WITH_SCHEDULE_WITH_MEMO else TRANSFER_WITH_SCHEDULE)
    && (p.memo.Some? ==> |p.memo.value.memo.copied| <= 510)
  }

  /** From the first packet of releases on. */
  ghost predicate PairPhase(p: Progress) {
    && HeadOk(p) && p.memo.Some? == p.withMemo && (p.withMemo ==> DisplayCbor.Received(p.memo.value))
    && Releases(p.pairs) && AllOf(p.packet, 16) && |p.pairs| + |p.packet| <= p.n
    && (p.n > 0 ==> BatchesOk(p))
  }

  ghost predicate ProgressOk(p: Progress) {
    match p.stage
    case Start => p == Begin(p.withMemo)
    case MemoStart(declared) =>
      HeadOk(p) && p.withMemo && p.memo.None? && declared <= MAX_MEMO_SIZE && BeforePairs(p)
    case MemoMore =>
      && HeadOk(p) && p.withMemo && p.memo.Some? && TransitOk(p.memo.value) && |p.memo.value.hashed| <= 255
      && |p.memo.value.memo.copied| <= 255 && p.memo.value.memo.majorType == 3
      && BeforePairs(p)
    case NextPacket => PairPhase(p) && p.packet == [] && (p.n > 0 ==> |p.pairs| < p.n)
    case PairShown => PairPhase(p) && |p.pairs| < p.n
    case Done => PairPhase(p) && |p.pairs| == p.n > 0 && p.packet == []
  }

  ghost predicate BeforePairs(p: Progress) {
    p.pairs == [] && p.packet == [] && p.batches == 0
  }

  /** Every packet but the last brings fifteen releases, and none is sent in vain. */
  ghost predicate BatchesOk(p: Progress) {
    && |p.pairs| + |p.packet| == (if p.n < PAIRS_PER_PACKET * p.batches then p.n else PAIRS_PER_PACKET * p.batches)
    && (p.batches > 0 ==> PAIRS_PER_PACKET * (p.batches - 1) < p.n)
  }

  function MemoBytes(p: Progress): (r: bytes) {
    if p.memo.Some? then Put2(p.memo.value.declared) + p.memo.value.hashed else []
  }

  function Transcript(p: Progress): (r: bytes) {
    match p.stage
    case Start => []
    case MemoStart(declared) => p.header + p.to + Put2(declared)
    case MemoMore => p.header + p.to + MemoBytes(p)
    case _ => p.header + p.to + MemoBytes(p) + [p.n] + Flat(p.pairs)
  }

  function Introduction(sender: string, recipient: string, memo: seq<Step>): (r: Flow) {
    [REVIEW, Show("Sender", sender), Show("Recipient", recipient)] + memo + [PROCEED]
  }

  ghost function StartFlow(sha: Sha256, header: bytes, to: bytes, memo: seq<Step>): (r: Flow)
    requires |header| == 61 && |to| == 32
  {
    Introduction(AddressChars(sha, header[..32]), AddressChars(sha, to), memo)
  }

  function MemoStep(stale: Memory, memo: Option<Transit>): (r: seq<Step>)
    requires memo.Some? ==> |memo.value.memo.copied| <= 510
  {
    if memo.Some? then [Show("Memo", MemoText(stale, memo.value.memo))] else []
  }

  ghost function InitialFlow(view: View, p: Progress): (r: Flow)
    requires HeadOk(p)
  {
    StartFlow(view.sha, p.header, p.to, MemoStep(view.stale, p.memo))
  }

  ghost function PairFlows(pairs: seq<bytes>, n: byte): (r: seq<Flow>)
    requires AllOf(pairs, 16)
  {
    seq(|pairs|, i requires 0 <= i < |pairs| => PairFlow(pairs[i], i + 1 == n))
  }

  /** The initial flow, then one flow for each release, in the order received; the n-th offers to sign. */
  ghost function Rendered(view: View, p: Progress): (r: seq<Flow>)
    requires ProgressOk(p)
  {
    if p.stage.Start? || p.stage.MemoStart? || p.stage.MemoMore? then []
    else [InitialFlow(view, p)] + PairFlows(p.pairs, p.n)
  }

  // ------------------------------------------------------------------ what may come next

  /** The releases at the start of a packet. */
  function Pieces(data: Cdata, k: nat): (r: seq<bytes>)
    requires k <= PAIRS_PER_PACKET
    ensures |r| == k && AllOf(r, 16)
  {
    seq(k, i requires 0 <= i < k => data[16 * i..16 * i + 16])
  }

  /** processNextScheduledAmount: from the handler and from the "Show next release" step. */
  function Next(p: Progress): (r: Outcome<Progress>)
    requires AllOf(p.packet, 16)
  {
    if p.packet == [] then Ok(p.(stage := NextPacket))
    else if !Accepted(p.packet[0]) then Throw(InvalidParam)
    else
      var q := p.(pairs := p.pairs + [p.packet[0]], packet := p.packet[1..]);
      Ok(q.(stage := if |q.pairs| == p.n then Done else PairShown))
  }

  function AcceptStart(p: Progress, packet: Packet): (r: Outcome<Progress>)
  {
    var data := packet.data;
    if p.withMemo && packet.p1 == P1_INITIAL_WITH_MEMO then
      var header :- HeaderAt(data, 60, TRANSFER_WITH_SCHEDULE_WITH_MEMO);
      var at := PathLength(data).value + 61;
      var declared := U2BE(data, at + 33);
      if declared > MAX_MEMO_SIZE then Throw(InvalidParam)
      else Ok(p.(header := header, to := data[at..at + 32], n := data[at + 32], stage := MemoStart(declared)))
    else if !p.withMemo && packet.p1 == P1_INITIAL_PACKET then
      var header :- HeaderAt(data, 60, TRANSFER_WITH_SCHEDULE);
      var at := PathLength(data).value + 61;
      Ok(p.(header := header, to := data[at..at + 32], n := data[at + 32], stage := NextPacket))
    else Throw(InvalidParam)
  }

  /** The part of a packet of releases that is used. */
  function TakePacket(p: Progress, data: Cdata): (r: Progress)
    requires |p.pairs| <= p.n
    ensures AllOf(r.packet, 16) && r.stage == p.stage
  {
    var left := p.n - |p.pairs|;
    p.(packet := Pieces(data, if left <= PAIRS_PER_PACKET then left else PAIRS_PER_PACKET), batches := p.batches + 1)
  }

  function Accept(p: Progress, packet: Packet): (r: Outcome<Progress>)
    requires !p.stage.PairShown? && !p.stage.Done? && |p.pairs| <= p.n && (p.stage.MemoMore? ==> p.memo.Some?)
  {
    var Packet(p1, _, data, length) := packet;
    match p.stage
    case Start => AcceptStart(p, packet)
    case MemoStart(declared) =>
      if p1 == P1_MEMO then
        var t :- BeginTransit(declared, data, length);
        Ok(p.(memo := Some(t), stage := if t.memo.remaining == 0 then NextPacket else MemoMore))
      else Throw(InvalidParam)
    case MemoMore =>
      if p1 == P1_MEMO then
        var t :- ContinueTransit(p.memo.value, data, length);
        if t.memo.remaining != 0 then Throw(InvalidState) else Ok(p.(memo := Some(t), stage := NextPacket))
      else Throw(InvalidParam)
    case NextPacket =>
      if p1 == P1_SCHEDULED_TRANSFER_PAIRS then Next(TakePacket(p, data)) else Throw(InvalidParam)
  }

  /** How an accepted event is answered.  After the packets before the releases the first flow waits;
      after a release its own. */
  function Answer(p: Progress, q: Progress): (r: Reply) {
    if q.stage.Done? then Await(Ask)
    else if q.stage.PairShown? then Await(ProcessNextScheduledAmount)
    else if q.stage.NextPacket? && !p.stage.NextPacket? && !p.stage.PairShown? then Await(Proceed)
    else Success
  }

  // ------------------------------------------------------------------ invariants

  /** In the middle of a packet, before its next release is looked at. */
  ghost predicate Midway(p: Progress) {
    PairPhase(p) && (p.packet == [] && p.n > 0 ==> |p.pairs| < p.n)
  }

  /** Each release is hashed and shown once, in order; what is left strictly decreases. */
  lemma NextExtends(p: Progress)
    requires Midway(p) && Next(p).Ok?
    ensures var q := Next(p).value;
            && ProgressOk(q) && q.header == p.header && q.to == p.to && q.memo == p.memo && q.n == p.n
            && (p.packet == [] ==> q == p.(stage := NextPacket))
            && (p.packet != [] ==>
                  && q.n - |q.pairs| == p.n - |p.pairs| - 1
                  && Flat(q.pairs) == Flat(p.pairs) + p.packet[0]
                  && PairFlows(q.pairs, q.n)
                     == PairFlows(p.pairs, p.n) + [PairFlow(p.packet[0], q.stage.Done?)])
  {
    hide PairFlow, PairFlows, Flat, Releases, AllOf, Accepted, DisplayCbor.Received;
    if p.packet != [] {
      NextReleases(p);
      NextPhase(p);
      FlatAppend(p.pairs, p.packet[0]);
      PairFlowsAppend(p.pairs, p.packet[0], p.n);
    }
  }

  lemma NextRefused(p: Progress)
    requires AllOf(p.packet, 16) && p.packet != []
    ensures if Accepted(p.packet[0]) then Next(p).Ok? else Next(p) == Throw(InvalidParam)
  {
  }

  lemma MidwayBounds(p: Progress)
    requires Midway(p)
    ensures AllOf(p.packet, 16) && |p.pairs| + |p.packet| <= p.n
  {
    hide Releases, AllOf, HeadOk, BatchesOk, DisplayCbor.Received;
  }

  /** What Next adds to the hash and to the screens. */
  lemma NextHashed(p: Progress)
    requires Midway(p) && (p.stage.NextPacket? || p.stage.PairShown?) && Next(p).Ok?
    ensures var q := Next(p).value;
            && ProgressOk(q) && q.header == p.header && q.to == p.to && q.n == p.n
            && (p.packet == [] ==> q == p.(stage := NextPacket) && Transcript(q) == Transcript(p))
            && (p.packet != [] ==>
                  && q.pairs == p.pairs + [p.packet[0]] && q.packet == p.packet[1..]
                  && (if |q.pairs| == p.n then q.stage.Done? else q.stage.PairShown?)
                  && Transcript(q) == Transcript(p) + p.packet[0])
  {
    hide PairFlow, PairFlows, Flat, PairPhase, ProgressOk, Accepted;
    MidwayBounds(p);
    NextExtends(p);
    assert MemoBytes(Next(p).value) == MemoBytes(p);
    if p.packet != [] {
      Regroup(p.header + p.to + MemoBytes(p) + [p.n], Flat(p.pairs), p.packet[0]);
    }
  }

  /** The screens from the first packet of releases on. */
  ghost function PairScreens(view: View, p: Progress): (r: seq<Flow>)
    requires HeadOk(p) && AllOf(p.pairs, 16)
  {
    [InitialFlow(view, p)] + PairFlows(p.pairs, p.n)
  }

  lemma NextRendered(view: View, p: Progress)
    requires Midway(p) && (p.stage.NextPacket? || p.stage.PairShown?) && Next(p).Ok?
    ensures var q := Next(p).value;
            && ProgressOk(q)
            && (p.packet == [] ==> Rendered(view, q) == PairScreens(view, p))
            && (p.packet != [] ==>
                  Rendered(view, q) == PairScreens(view, p) + [PairFlow(p.packet[0], |q.pairs| == p.n)])
  {
    NextExtends(p);
    var q := Next(p).value;
    RenderedPairs(view, q);
    hide PairFlow, PairFlows, Flat, ProgressOk, Accepted, PairPhase, Rendered, AddressChars, AllOf;
    assert InitialFlow(view, q) == InitialFlow(view, p);
    if p.packet != [] {
      hide InitialFlow;
      Regroup([InitialFlow(view, p)], PairFlows(p.pairs, p.n), [PairFlow(p.packet[0], q.stage.Done?)]);
    }
  }

  /** The releases of a packet that start at pos. */
  ghost predicate InBuffer(items: seq<bytes>, b: bytes, pos: nat) {
    items != [] ==>
      && pos + 16 * |items| <= 240 <= |b|
      && forall i | 0 <= i < |items| :: items[i] == b[pos + 16 * i..pos + 16 * i + 16]
  }

  lemma InBufferNext(items: seq<bytes>, b: bytes, pos: nat)
    requires InBuffer(items, b, pos) && items != []
    ensures pos + 16 <= 240 && InBuffer(items[1..], b, pos + 16) && items[0] == b[pos..pos + 16]
  {
    forall i | 0 <= i < |items| - 1
      ensures items[1..][i] == b[pos + 16 + 16 * i..pos + 16 + 16 * i + 16]
    {
      assert items[1..][i] == items[i + 1];
    }
    assert items[0] == b[pos + 16 * 0..pos + 16 * 0 + 16];
  }

  lemma PiecesInBuffer(data: Cdata, b: bytes, k: nat)
    requires k <= PAIRS_PER_PACKET && |b| >= 240 && forall i | 0 <= i < 16 * k :: b[i] == data[i]
    ensures InBuffer(Pieces(data, k), b, 0)
  {
    forall i | 0 <= i < k
      ensures Pieces(data, k)[i] == b[0 + 16 * i..0 + 16 * i + 16]
    {
    }
  }

  lemma RenderedPairs(view: View, p: Progress)
    requires ProgressOk(p) && (p.stage.NextPacket? || p.stage.PairShown? || p.stage.Done?)
    ensures HeadOk(p) && AllOf(p.pairs, 16) && Rendered(view, p) == PairScreens(view, p)
  {
    hide PairFlows, AddressChars, Accepted, AllOf, DisplayCbor.Received;
  }

  lemma TakePacketScreens(view: View, p: Progress, data: Cdata)
    requires ProgressOk(p) && p.stage.NextPacket?
    ensures var q := TakePacket(p, data);
            && Midway(q) && HeadOk(q) && AllOf(q.pairs, 16)
            && PairScreens(view, q) == Rendered(view, p) && Transcript(q) == Transcript(p)
            && |p.pairs| <= p.n && |p.packet| == 0
  {
    TakePacketMidway(p, data);
    RenderedPairs(view, p);
    hide PairFlows, AddressChars, Accepted, AllOf, DisplayCbor.Received, Pieces;
  }

  lemma AcceptPairs(p: Progress, packet: Packet)
    requires ProgressOk(p) && p.stage.NextPacket? && packet.p1 == P1_SCHEDULED_TRANSFER_PAIRS
    ensures |p.pairs| <= p.n && Accept(p, packet) == Next(TakePacket(p, packet.data))
    ensures Accept(p, packet).Ok? ==> var s := Accept(p, packet).value.stage; s.NextPacket? || s.PairShown? || s.Done?
  {
    hide Accepted, DisplayCbor.Received;
    TakePacketMidway(p, packet.data);
  }

  lemma NextReleases(p: Progress)
    requires Releases(p.pairs) && AllOf(p.packet, 16) && p.packet != [] && Accepted(p.packet[0])
    ensures Releases(p.pairs + [p.packet[0]]) && AllOf(p.packet[1..], 16) && |p.packet[0]| == 16
    ensures AllOf(p.pairs, 16)
  {
  }

  lemma NextPhase(p: Progress)
    requires Midway(p) && p.packet != [] && Next(p).Ok?
    ensures var q := Next(p).value;
            PairPhase(q) && |q.pairs| == |p.pairs| + 1 && q.packet == p.packet[1..]
  {
    hide PairFlow, PairFlows, Flat, Accepted, Releases, AllOf, DisplayCbor.Received;
    NextReleases(p);
  }

  lemma PairFlowsAppend(pairs: seq<bytes>, pair: bytes, n: byte)
    requires AllOf(pairs, 16) && |pair| == 16
    ensures PairFlows(pairs + [pair], n) == PairFlows(pairs, n) + [PairFlow(pair, |pairs| + 1 == n)]
  {
    hide PairFlow;
  }

  lemma TakePacketMidway(p: Progress, data: Cdata)
    requires ProgressOk(p) && p.stage.NextPacket?
    ensures Midway(TakePacket(p, data))
  {
  }

  lemma ShownMidway(p: Progress)
    requires ProgressOk(p) && p.stage.PairShown?
    ensures Midway(p)
  {
  }

  /** What the packets before the releases add to the hash. */
  function Hashed(p: Progress, packet: Packet): (r: bytes)
    requires p.stage.Start? || p.stage.MemoStart? || p.stage.MemoMore?
    requires p.stage.MemoMore? ==> p.memo.Some?
    requires |p.pairs| <= p.n && Accept(p, packet).Ok?
  {
    var Packet(_, _, data, length) := packet;
    var q := Accept(p, packet).value;
    if p.stage.Start? then
      var at := PathLength(data).value;
      if p.withMemo then data[at..at + 93] + data[at + 94..at + 96] else data[at..at + 94]
    else data[..length] + (if q.stage.NextPacket? then [p.n] else [])
  }

  lemma AcceptExtends(p: Progress, packet: Packet)
    requires ProgressOk(p) && (p.stage.Start? || p.stage.MemoStart? || p.stage.MemoMore?) && Accept(p, packet).Ok?
    ensures var q := Accept(p, packet).value;
            && ProgressOk(q) && BeforePairs(q) && q.withMemo == p.withMemo
            && Transcript(q) == Transcript(p) + Hashed(p, packet)
            && (q.stage.NextPacket? ==> PairFlows(q.pairs, q.n) == [])
  {
    hide StartMemo, ContinueMemo, TransitOk;
    if p.stage.Start? {
      StartExtends(p, packet);
    } else {
      MemoExtends(p, packet);
    }
  }

  lemma StartExtends(p: Progress, packet: Packet)
    requires ProgressOk(p) && p.stage.Start? && Accept(p, packet).Ok?
    ensures var q := Accept(p, packet).value;
            && ProgressOk(q) && BeforePairs(q) && q.withMemo == p.withMemo
            && Transcript(q) == Transcript(p) + Hashed(p, packet)
  {
    hide TransitOk;
    var data, at := packet.data, PathLength(packet.data).value;
    StartSlices(data, at, 1);
    if p.withMemo {
      Put2Get2(data, at + 94);
    } else {
      assert data[at + 93..at + 94] == [data[at + 93]];
      assert data[at..at + 93] + [] == data[at..at + 93] && data[at..at + 94] + [] == data[at..at + 94];
    }
  }

  lemma MemoExtends(p: Progress, packet: Packet)
    requires ProgressOk(p) && (p.stage.MemoStart? || p.stage.MemoMore?) && Accept(p, packet).Ok?
    ensures var q := Accept(p, packet).value;
            && ProgressOk(q) && BeforePairs(q) && q.withMemo == p.withMemo
            && Transcript(q) == Transcript(p) + Hashed(p, packet)
  {
    hide StartMemo, ContinueMemo, TransitOk;
    var Packet(_, _, data, length) := packet;
    var q := Accept(p, packet).value;
    match p.stage {
      case MemoStart(declared) =>
        BeginTransitOk(declared, data, length);
      case MemoMore =>
        ContinueTransitOk(p.memo.value, data, length);
    }
    MemoTranscript(p, q, data[..length]);
  }

  lemma MemoTranscript(p: Progress, q: Progress, piece: bytes)
    requires (p.stage.MemoStart? || (p.stage.MemoMore? && p.memo.Some?)) && q.memo.Some? && q.pairs == []
    requires q.header == p.header && q.to == p.to && q.n == p.n && (q.stage.MemoMore? || q.stage.NextPacket?)
    requires p.stage.MemoStart? ==> q.memo.value.declared == p.stage.declared && q.memo.value.hashed == piece
    requires p.stage.MemoMore? ==>
      q.memo.value.declared == p.memo.value.declared && q.memo.value.hashed == p.memo.value.hashed + piece
    ensures Transcript(q) == Transcript(p) + (piece + (if q.stage.NextPacket? then [p.n] else []))
  {
    var start, tail := p.header + p.to, if q.stage.NextPacket? then [p.n] else [];
    var length := Put2(q.memo.value.declared);
    assert Flat([]) == [];
    if p.stage.MemoMore? {
      assert start + (length + (p.memo.value.hashed + piece)) + tail
          == start + (length + p.memo.value.hashed) + (piece + tail);
    } else {
      assert start + (length + piece) + tail == start + length + (piece + tail);
    }
    assert Transcript(q) == start + (length + q.memo.value.hashed) + tail;
  }

  /** The first packet, when it is accepted. */
  lemma AcceptInitial(withMemo: bool, packet: Packet)
    requires packet.p1 == if withMemo then P1_INITIAL_WITH_MEMO else P1_INITIAL_PACKET
    ensures var p, data := Begin(withMemo), packet.data;
            match HeaderAt(data, 60, if withMemo then TRANSFER_WITH_SCHEDULE_WITH_MEMO else TRANSFER_WITH_SCHEDULE)
            case Throw(e) => Accept(p, packet) == Throw(e)
            case Ok(header) =>
              var at := PathLength(data).value;
              var q := p.(header := header, to := data[at + 61..at + 93], n := data[at + 93]);
              if !withMemo then
                Accept(p, packet) == Ok(q.(stage := NextPacket)) && Hashed(p, packet) == data[at..at + 94]
              else if U2BE(data, at + 94) > MAX_MEMO_SIZE then Accept(p, packet) == Throw(InvalidParam)
              else Accept(p, packet) == Ok(q.(stage := MemoStart(U2BE(data, at + 94))))
                   && Hashed(p, packet) == data[at..at + 93] + data[at + 94..at + 96]
  {
  }

  lemma BeginOk(withMemo: bool)
    ensures ProgressOk(Begin(withMemo)) && Transcript(Begin(withMemo)) == []
    ensures Begin(withMemo).stage.Start? && Begin(withMemo).withMemo == withMemo
  {
  }

  lemma BeginShown(view: View, withMemo: bool)
    ensures ProgressOk(Begin(withMemo)) && Rendered(view, Begin(withMemo)) == []
  {
  }

  /** The same for transfers without memo: the first flow is shown at once. */
  lemma AcceptInitialPlain(view: View, packet: Packet)
    requires packet.p1 == P1_INITIAL_PACKET
    ensures var data := packet.data;
            match HeaderAt(data, 60, TRANSFER_WITH_SCHEDULE)
            case Throw(e) => Accept(Begin(false), packet) == Throw(e)
            case Ok(header) =>
              var at := PathLength(data).value;
              && Accept(Begin(false), packet).Ok?
              && var q := Accept(Begin(false), packet).value;
                 && ProgressOk(q) && q.stage == NextPacket && q.n == data[at + 93] && |q.pairs| == 0
                 && |q.header| == 61 && q.header[..32] == data[at..at + 32] && q.to == data[at + 61..at + 93]
                     && |q.to| == 32
                 && Transcript(q) == data[at..at + 93] + data[at + 93..at + 94]
                 && Rendered(view, q) == [StartFlow(view.sha, q.header, q.to, [])]
  {
    hide Transcript, Accept, Hashed, ProgressOk, Rendered;
    BeginOk(false);
    AcceptInitial(false, packet);
    if Accept(Begin(false), packet).Ok? {
      var at := PathLength(packet.data).value;
      AcceptExtends(Begin(false), packet);
      FirstScreens(view, Accept(Begin(false), packet).value);
      StartSlices(packet.data, at, 1);
    }
  }

  /** The same with what it does to the hash, for transfers with memo. */
  lemma AcceptInitialMemo(view: View, packet: Packet)
    requires packet.p1 == P1_INITIAL_WITH_MEMO
    ensures var data := packet.data;
            match HeaderAt(data, 60, TRANSFER_WITH_SCHEDULE_WITH_MEMO)
            case Throw(e) => Accept(Begin(true), packet) == Throw(e)
            case Ok(header) =>
              var at := PathLength(data).value;
              if U2BE(data, at + 94) > MAX_MEMO_SIZE then Accept(Begin(true), packet) == Throw(InvalidParam)
              else
                && Accept(Begin(true), packet).Ok?
                && var q := Accept(Begin(true), packet).value;
                   && ProgressOk(q) && q.stage == MemoStart(U2BE(data, at + 94)) && q.n == data[at + 93]
                   && |q.header| == 61 && q.header[..32] == data[at..at + 32] && q.to == data[at + 61..at + 93]
                   && Transcript(q) == data[at..at + 93] + data[at + 94..at + 96] && Rendered(view, q) == []
  {
    hide Transcript, Accept, Hashed, ProgressOk, Rendered;
    BeginOk(true);
    AcceptInitial(true, packet);
    if Accept(Begin(true), packet).Ok? {
      AcceptExtends(Begin(true), packet);
      NothingShown(view, Accept(Begin(true), packet).value);
      StartSlices(packet.data, PathLength(packet.data).value, 0);
    }
  }

  /** The screens once the first flow has been shown. */
  lemma FirstScreens(view: View, p: Progress)
    requires ProgressOk(p) && p.stage.NextPacket? && BeforePairs(p)
    ensures HeadOk(p) && Rendered(view, p) == [InitialFlow(view, p)]
  {
    hide AddressChars, DisplayCbor.Received;
    assert PairFlows(p.pairs, p.n) == [];
    assert [InitialFlow(view, p)] + [] == [InitialFlow(view, p)];
  }

  lemma NothingShown(view: View, p: Progress)
    requires ProgressOk(p) && (p.stage.MemoStart? || p.stage.MemoMore?)
    ensures Rendered(view, p) == [] && |p.pairs| <= p.n && (p.stage.MemoMore? ==> p.memo.Some?)
  {
  }

  /** A packet of the memo: m is what has been read, if it can be read. */
  ghost predicate MemoTaken(view: View, p: Progress, packet: Packet, m: Memo, q: Progress) {
    && Accept.requires(p, packet) && Accept(p, packet) == Ok(q) && ProgressOk(q)
    && q.header == p.header && q.to == p.to && q.n == p.n && q.withMemo == p.withMemo && q.memo.Some?
        && q.memo.value.memo == m
    && |q.header| == 61 && |q.to| == 32 && BeforePairs(q) && |q.pairs| == 0
    && q.stage == (if m.remaining == 0 then NextPacket else MemoMore)
    && Transcript(q) == Transcript(p) + packet.data[..packet.length] + (if m.remaining == 0 then [p.n] else [])
    && |m.copied| <= 510 && (m.remaining != 0 ==> |m.copied| <= 255)
    && Rendered(view, q) == if m.remaining == 0
                            then [StartFlow(view.sha, p.header, p.to, [Show("Memo", MemoText(view.stale, m))])] else []
  }

  lemma MemoRendered(view: View, p: Progress, packet: Packet, m: Memo, q: Progress)
    requires MemoTaken(view, p, packet, m, q)
    ensures ProgressOk(q) && q.stage == (if m.remaining == 0 then NextPacket else MemoMore)
    ensures |m.copied| <= 510 && |p.header| == 61 && |p.to| == 32
    ensures Rendered(view, q) == if m.remaining == 0
                            then [StartFlow(view.sha, p.header, p.to, [Show("Memo", MemoText(view.stale, m))])] else []
  {
    hide ProgressOk, Rendered, Accept, Transcript, MemoText, StartFlow;
  }

  lemma AcceptMemo(view: View, p: Progress, packet: Packet)
    requires ProgressOk(p) && (p.stage.MemoStart? || p.stage.MemoMore?) && packet.p1 == P1_MEMO
    ensures var read := if p.stage.MemoStart? then StartMemo(p.stage.declared, packet.data, packet.length)
                        else ContinueMemo(p.memo.value.memo, packet.data[..packet.length]);
            match read
            case Throw(e) => Accept(p, packet) == Throw(e)
            case Ok(m) =>
              if p.stage.MemoMore? && m.remaining != 0 then Accept(p, packet) == Throw(InvalidState)
              else Accept(p, packet).Ok? && MemoTaken(view, p, packet, m, Accept(p, packet).value)
  {
    hide StartMemo, ContinueMemo, TransitOk, Transcript, AddressChars, PairFlows;
    if Accept(p, packet).Ok? {
      AcceptExtends(p, packet);
      var q := Accept(p, packet).value;
      Regroup(Transcript(p), packet.data[..packet.length], if q.stage.NextPacket? then [p.n] else []);
      if q.stage.NextPacket? {
        FirstScreens(view, q);
      }
    }
  }

  /** At the sign screen all n announced releases, at least one, have been hashed and shown, after
      as many packets as n releases need. */
  lemma SignedSchedule(view: View, p: Progress)
    requires ProgressOk(p) && p.stage.Done?
    ensures |p.pairs| == p.n >= 1 && p.batches == (p.n + 14) / 15
    ensures Transcript(p) == p.header + p.to + MemoBytes(p) + [|p.pairs|] + Flat(p.pairs)
    ensures Rendered(view, p) == [InitialFlow(view, p)] + PairFlows(p.pairs, |p.pairs|)
  {
    hide Flat, PairFlows, InitialFlow, DisplayCbor.Received;
  }
}
