/** src/signTransfer.c: transfers, with and without a memo. */
module SignTransfer {
  import opened Bytes
  import opened Device
  import opened Runs
  import Base58
  import opened DecimalText
  import opened NumberHelpers
  import opened Displays
  import opened DisplayCbor
  import opened Screens
  import opened Readback

  const TRANSFER: byte := 3
  const TRANSFER_WITH_MEMO: byte := 22
  const MAX_MEMO_SIZE := 256

  const P1_INITIAL_WITH_MEMO: byte := 0x01
  const P1_MEMO: byte := 0x02
  const P1_AMOUNT: byte := 0x03

  // ------------------------------------------------------------------ what has been received

  datatype Stage =
    | Start | MemoInitial(declared: u16) | MemoMore(memo: Transit) | Amount(memo: Transit)
    | Done(memo: Transit, amount: bytes)

  datatype Progress = Progress(header: bytes, to: bytes, stage: Stage)

  const BEGIN := Progress([], [], Start)

  ghost predicate ProgressOk(p: Progress) {
    && (!p.stage.Start? ==> |p.header| == 61 && p.header[60] == TRANSFER_WITH_MEMO && |p.to| == 32)
    && match p.stage
       case Start => p == BEGIN
       case MemoInitial(declared) => declared <= MAX_MEMO_SIZE
       case MemoMore(t) => TransitOk(t) && |t.hashed| <= 255 && |t.memo.copied| <= 255 && t.memo.majorType == 3
       case Amount(t) => Received(t)
       case Done(t, amount) => Received(t) && |amount| == 8
  }

  /** Header, kind, recipient, memo length, memo and amount. */
  function Transcript(p: Progress): (r: bytes) {
    var start := p.header + p.to;
    match p.stage
    case Start => []
    case MemoInitial(declared) => start + Put2(declared)
    case MemoMore(t) => start + Put2(t.declared) + t.hashed
    case Amount(t) => start + Put2(t.declared) + t.hashed
    case Done(t, amount) => start + Put2(t.declared) + t.hashed + amount
  }

  ghost function TransferFlow(sha: Sha256, header: bytes, to: bytes, amount: bytes, memo: seq<Step>): (r: Flow)
    requires |header| == 61 && |to| == 32 && |amount| == 8
  {
    [REVIEW, Show("Sender", AddressChars(sha, header[..32])), Show("Amount", AmountText(U8BE(amount, 0))),
     Show("Recipient", AddressChars(sha, to))] + memo + [Sign, Decline]
  }

  /** The texts say who sends how much to whom. */
  lemma FlowShows(sha: Sha256, header: bytes, to: bytes, amount: bytes, memo: seq<Step>)
    requires |header| == 61 && |to| == 32 && |amount| == 8
    ensures ShowsTransfer(sha, TransferFlow(sha, header, to, amount, memo), header[..32], to, amount, memo)
  {
    hide AddressChars, AmountText, U8BE, ShowsAddress, ShowsAmount;
    AddressShown(sha, header[..32]);
    AddressShown(sha, to);
    AmountShown(amount);
    Steps(AddressChars(sha, header[..32]), AmountText(U8BE(amount, 0)), AddressChars(sha, to), memo);
  }

  lemma Steps(sender: string, amount: string, to: string, memo: seq<Step>)
    ensures var flow := [REVIEW, Show("Sender", sender), Show("Amount", amount), Show("Recipient", to)]
                        + memo + [Sign, Decline];
            && flow[0] == Show("Review", "transaction") && flow[1] == Show("Sender", sender)
            && flow[2] == Show("Amount", amount) && flow[3] == Show("Recipient", to)
            && flow[4..] == memo + [Sign, Decline]
  {
  }

  /** A single flow, at the end. */
  ghost function Rendered(view: View, p: Progress): (r: seq<Flow>)
    requires ProgressOk(p)
  {
    match p.stage
    case Done(t, amount) =>
      ReceivedInside(t);
      [TransferFlow(view.sha, p.header, p.to, amount, [Show("Memo", MemoText(view.stale, t.memo))])]
    case _ => []
  }

  function Accept(p: Progress, packet: Packet): (r: Outcome<Progress>)
    requires !p.stage.Done?
  {
    var Packet(p1, _, data, length) := packet;
    match p.stage
    case Start =>
      if p1 == P1_INITIAL_WITH_MEMO then
        var header :- HeaderAt(data, 60, TRANSFER_WITH_MEMO);
        var at := PathLength(data).value + 61;
        var declared := U2BE(data, at + 32);
        if declared > MAX_MEMO_SIZE then Throw(InvalidParam)
        else Ok(Progress(header, data[at..at + 32], MemoInitial(declared)))
      else Throw(InvalidState)
    case MemoInitial(declared) =>
      if p1 == P1_MEMO then
        var t :- BeginTransit(declared, data, length);
        Ok(p.(stage := if t.memo.remaining == 0 then Amount(t) else MemoMore(t)))
      else Throw(InvalidState)
    case MemoMore(t) =>
      if p1 == P1_MEMO then
        var u :- ContinueTransit(t, data, length);
        if u.memo.remaining != 0 then Throw(InvalidState) else Ok(p.(stage := Amount(u)))
      else Throw(InvalidState)
    case Amount(t) => if p1 == P1_AMOUNT then Ok(p.(stage := Done(t, data[..8]))) else Throw(InvalidState)
  }

  function Hashed(p: Progress, packet: Packet): (r: bytes)
    requires !p.stage.Done? && Accept(p, packet).Ok?
  {
    match p.stage
    case Start => var at := PathLength(packet.data).value; packet.data[at..at + 95]
    case Amount(_) => packet.data[..8]
    case MemoInitial(_) => packet.data[..packet.length]
    case MemoMore(_) => packet.data[..packet.length]
  }

  lemma AcceptExtends(p: Progress, packet: Packet)
    requires ProgressOk(p) && !p.stage.Done? && Accept(p, packet).Ok?
    ensures ProgressOk(Accept(p, packet).value)
    ensures Transcript(Accept(p, packet).value) == Transcript(p) + Hashed(p, packet)
  {
    hide StartMemo, ContinueMemo, TransitOk, IntegerText;
    var data := packet.data;
    match p.stage
    case Start =>
      var at := PathLength(data).value;
      Put2Get2(data, at + 93);
      assert data[at..at + 61] + data[at + 61..at + 93] + data[at + 93..at + 95] == data[at..at + 95];
    case MemoInitial(declared) =>
      BeginTransitOk(declared, data, packet.length);
    case MemoMore(t) =>
      ContinueTransitOk(t, data, packet.length);
      var before := p.header + p.to + Put2(t.declared);
      assert before + (t.hashed + data[..packet.length]) == before + t.hashed + data[..packet.length];
    case Amount(t) =>
  }

  /** The first packet, when it is accepted. */
  lemma AcceptInitial(packet: Packet)
    requires packet.p1 == P1_INITIAL_WITH_MEMO
    ensures match HeaderAt(packet.data, 60, TRANSFER_WITH_MEMO)
            case Throw(e) => Accept(BEGIN, packet) == Throw(e)
            case Ok(header) =>
              var at := PathLength(packet.data).value;
              var declared := U2BE(packet.data, at + 93);
              if declared > MAX_MEMO_SIZE then Accept(BEGIN, packet) == Throw(InvalidParam)
              else
                && Accept(BEGIN, packet) == Ok(Progress(header, packet.data[at + 61..at + 93], MemoInitial(declared)))
                && header[..32] == packet.data[at..at + 32]
                && var q := Accept(BEGIN, packet).value;
                   ProgressOk(q) && Transcript(q) == packet.data[at..at + 93] + packet.data[at + 93..at + 95]
  {
    hide TransitOk, Put2, U2BE;
    if Accept(BEGIN, packet).Ok? {
      AcceptExtends(BEGIN, packet);
      StartSlices(packet.data, PathLength(packet.data).value, 2);
      assert [] + Hashed(BEGIN, packet) == Hashed(BEGIN, packet);
    }
  }

  /** No press matters before the sign screen. */
  function Take(p: Progress, e: Event): (r: Outcome<Progress>) {
    if e.Host? && !p.stage.Done? then Accept(p, e.packet) else Throw(InvalidState)
  }

  /** How an accepted packet is answered. */
  function Answer(q: Progress): (r: Reply) {
    if q.stage.Done? then Await(Ask) else Success
  }

  function HashedBy(p: Progress, e: Event): (r: bytes) {
    if Take(p, e).Ok? then Hashed(p, e.packet) else []
  }

  // ------------------------------------------------------------------ transfers without a memo

  /** They take one packet. */
  datatype Plain = Unsent | Sent(header: bytes, to: bytes, amount: bytes)

  function TakePlain(p: Plain, e: Event): (r: Outcome<Plain>) {
    if p.Unsent? && e.Host? then
      var data := e.packet.data;
      var header :- HeaderAt(data, 60, TRANSFER);
      var at := PathLength(data).value;
      Ok(Sent(header, data[at + 61..at + 93], data[at + 93..at + 101]))
    else Throw(InvalidState)
  }

  function PlainBytes(p: Plain): (r: bytes) {
    if p.Sent? then p.header + p.to + p.amount else []
  }

  function HashedPlain(p: Plain, e: Event): (r: bytes) {
    if TakePlain(p, e).Ok? then PlainBytes(TakePlain(p, e).value) else []
  }

  ghost predicate SerializesPlain(header: bytes, to: bytes, amount: bytes, b: bytes) {
    && |header| == 61 && header[60] == TRANSFER && |to| == 32 && |amount| == 8 && b == header + to + amount
  }

  /** The one packet of a transfer is all that is hashed. */
  lemma PlainSigned(events: seq<Event>, p: Plain)
    requires events != [] && Run(TakePlain, Unsent, events) == Ok(p)
    ensures p.Sent? && |events| == 1
    ensures SerializesPlain(p.header, p.to, p.amount, Gathered(TakePlain, HashedPlain, Unsent, events))
  {
    hide TakePlain, HashedPlain;
    var n := |events| - 1;
    var before, e := events[..n], events[n];
    var q := Run(TakePlain, Unsent, before).value;
    if before != [] {
      PlainSigned(before, q);
    }
    PlainStep(q, e);
    assert [] + HashedPlain(q, e) == HashedPlain(q, e);
  }

  lemma PlainStep(q: Plain, e: Event)
    requires TakePlain(q, e).Ok?
    ensures q.Unsent? && TakePlain(q, e).value.Sent?
    ensures var p := TakePlain(q, e).value; SerializesPlain(p.header, p.to, p.amount, HashedPlain(q, e))
  {
  }

  // ------------------------------------------------------------------ transfers with a memo

  /** Header, recipient, memo length, memo and amount, of which the memo has been received as stated
      in DisplayCbor. */
  ghost predicate Serializes(header: bytes, to: bytes, t: Transit, amount: bytes, b: bytes) {
    && |header| == 61 && header[60] == TRANSFER_WITH_MEMO && |to| == 32 && Received(t) && |amount| == 8
    && b == header + to + Put2(t.declared) + t.hashed + amount
  }

  ghost predicate Signs(events: seq<Event>, b: bytes) {
    var r := Run(Take, BEGIN, events);
    r.Ok? && r.value.stage.Done? && Gathered(Take, HashedBy, BEGIN, events) == b
  }

  /** Whatever packets led to the sign screen, the bytes hashed are one transfer. */
  lemma SignedIsTransfer(events: seq<Event>, b: bytes)
    requires Signs(events, b)
    ensures var p := Run(Take, BEGIN, events).value;
            ProgressOk(p) && Serializes(p.header, p.to, p.stage.memo, p.stage.amount, b)
  {
    hide TransitOk;
    forall p: Progress, e: Event | ProgressOk(p) && Take(p, e).Ok?
      ensures ProgressOk(Take(p, e).value) && Transcript(Take(p, e).value) == Transcript(p) + HashedBy(p, e)
    {
      AcceptExtends(p, e.packet);
    }
    hide Take, HashedBy, Run, Gathered;
    assert Sound(Take, HashedBy, ProgressOk, Transcript);
    RunSound(Take, HashedBy, ProgressOk, Transcript, BEGIN, events);
    assert [] + b == b;
  }

  /** What the screen then says of these bytes: the sender in the first 32 of them, the recipient behind
      header and kind, the amount in the last eight. */
  lemma SignedShows(view: View, events: seq<Event>, b: bytes)
    requires Signs(events, b)
    ensures var p := Run(Take, BEGIN, events).value;
            && ProgressOk(p) && p.stage.Done? && Shows(view, p, b)
  {
    hide ProgressOk, Rendered, Take, HashedBy, Run, Gathered, Shows;
    SignedIsTransfer(events, b);
    DoneShows(view, Run(Take, BEGIN, events).value, b);
  }

  ghost predicate Shows(view: View, p: Progress, b: bytes)
    requires ProgressOk(p) && p.stage.Done?
  {
    && |b| >= 103 && b[60] == 22 && |p.stage.memo.memo.copied| <= 510 && |Rendered(view, p)| == 1
    && ShowsTransfer(view.sha, Rendered(view, p)[0], b[..32], b[61..93], b[|b| - 8..],
                     [Show("Memo", MemoText(view.stale, p.stage.memo.memo))])
  }

  lemma DoneShows(view: View, p: Progress, b: bytes)
    requires ProgressOk(p) && p.stage.Done? && Serializes(p.header, p.to, p.stage.memo, p.stage.amount, b)
    ensures Shows(view, p, b)
  {
    hide TransitOk, Put2, MemoText, ShowsTransfer, AddressChars, AmountText;
    var memo := Put2(p.stage.memo.declared) + p.stage.memo.hashed;
    ReceivedInside(p.stage.memo);
    FlowShows(view.sha, p.header, p.to, p.stage.amount, [Show("Memo", MemoText(view.stale, p.stage.memo.memo))]);
    assert b == p.header + p.to + memo + p.stage.amount;
    SignedParts(p.header, p.to, memo, p.stage.amount);
  }

  lemma SignedParts(header: bytes, to: bytes, memo: bytes, amount: bytes)
    requires |header| == 61 && |to| == 32 && |amount| == 8
    ensures var b := header + to + memo + amount;
            b[..32] == header[..32] && b[60] == header[60] && b[61..93] == to && b[|b| - 8..] == amount
  {
  }

  /** At the sign screen of a text memo whose first packet was not empty: the signed bytes are header,
      recipient, length, one text string of that length, and the amount.  The memo step shows exactly
      the text if and only if it holds no zero byte and the byte behind it, left from before, is zero. */
  lemma SignedTextMemo(view: View, p: Progress)
    requires ProgressOk(p) && p.stage.Done? && p.stage.memo.memo.majorType == 3 && p.stage.memo.first >= 1
    ensures var memo := p.stage.memo.hashed;
            && |memo| == p.stage.memo.declared
            && Transcript(p) == p.header + p.to + Put2(|memo|) + memo + p.stage.amount
            && exists text: bytes ::
                 && Decode(memo) == Some(Text(text)) && |text| <= 254 && p.stage.memo.memo.copied == Chars(text)
                 && (MemoText(view.stale, p.stage.memo.memo) == Chars(text)
                     <==> 0 !in text && view.stale[|text|] == NUL)
  {
    hide TransitOk, Decode, Chars, MemoText;
    var t := p.stage.memo;
    ReceivedText(t);
    var text := t.hashed[1 + t.size..];
    TextShown(view.stale, t.memo);
    NoZeroInChars(text);
  }

  /** At the sign screen of an integer memo: its declared length is right if and only if its packet had
      that length.  Then the memo is an integer, and the step shows its value, except that for -2^64 the
      byte behind the text has to be zero. */
  lemma SignedIntegerMemo(view: View, p: Progress)
    requires ProgressOk(p) && p.stage.Done? && p.stage.memo.memo.majorType != 3
    ensures var t := p.stage.memo;
            && Transcript(p) == p.header + p.to + Put2(t.declared) + t.hashed + p.stage.amount
            && (|t.hashed| == t.declared <==> t.first == t.declared)
            && (t.first == t.declared ==>
                  exists majorType: byte, n: u64 ::
                    && majorType <= 1 && t.memo.majorType == majorType
                    && Decode(t.hashed) == Some(Integer(Evaluate(IntegerText(majorType, n))))
                    && (MemoText(view.stale, t.memo) == IntegerText(majorType, n)
                        <==> !(majorType == 1 && n == U64_MAX) || view.stale[25] == NUL))
  {
    hide Decode, IntegerText, IntegerBytes, MemoText, Evaluate;
    var t := p.stage.memo;
    ReceivedInteger(t);
    if t.first == t.declared {
      IntegerShown(view.stale, t.memo.majorType, Argument(t.hashed));
    }
  }

  /** A memo that is one byte by its length and 200 by its packet can be signed. */
  lemma LongIntegerSigned(p: Progress, data: Cdata)
    requires p.stage == MemoInitial(1) && data[0] == 5
    ensures var r := Accept(p, Packet(P1_MEMO, 0, data, 200));
            && r.Ok? && r.value.stage.Amount?
            && Transcript(r.value) == p.header + p.to + Put2(1) + data[..200]
  {
    assert ArgumentSize(5) == Some(0) && Argument(data) == 5;
  }

  /** Two transfers have the same screens if and only if sender, recipient, amount and memo step are the
      same; memos that are shown exactly are then the same as well. */
  lemma ShownDetermines(v: View, w: View, p: Progress, q: Progress)
    requires v.sha == w.sha
    requires ProgressOk(p) && ProgressOk(q) && p.stage.Done? && q.stage.Done?
    ensures |p.stage.memo.memo.copied| <= 254 && |q.stage.memo.memo.copied| <= 254
    ensures var m, n := p.stage.memo.memo, q.stage.memo.memo;
            && (Rendered(v, p) == Rendered(w, q) <==>
                  && p.header[..32] == q.header[..32] && p.to == q.to
                  && U8BE(p.stage.amount, 0) == U8BE(q.stage.amount, 0)
                  && MemoText(v.stale, m) == MemoText(w.stale, n))
            && (Rendered(v, p) == Rendered(w, q) && MemoText(v.stale, m) == m.copied && MemoText(w.stale, n) == n.copied
                ==> m.copied == n.copied)
  {
    hide AddressChars, AmountText, TransitOk, MemoText, U8BE;
    ReceivedInside(p.stage.memo);
    ReceivedInside(q.stage.memo);
    if Rendered(v, p) == Rendered(w, q) {
      var f, g := Rendered(v, p)[0], Rendered(w, q)[0];
      assert f[1] == g[1] && f[2] == g[2] && f[3] == g[3] && f[4] == g[4];
      AddressCharsInjective(v.sha, p.header[..32], q.header[..32]);
      AddressCharsInjective(v.sha, p.to, q.to);
      AmountRoundTrip(U8BE(p.stage.amount, 0));
      AmountRoundTrip(U8BE(q.stage.amount, 0));
    }
  }

  /** Two memos with one screen, over the same old contents of the buffer. */
  lemma SameScreen(stale: Memory)
    requires stale[1] == 'B' && stale[2] == NUL
    ensures MemoText(stale, Memo(0, 3, "A")) == MemoText(stale, Memo(0, 3, "AB")) == "AB"
  {
    var behind := Behind(stale, 3);
    var after := stale[2..DISPLAY_SIZE] + behind;
    assert Behind(Holding(stale, "A"), 3) == Behind(Holding(stale, "AB"), 3) == behind;
    assert Holding(stale, "A")[..DISPLAY_SIZE] + behind == "AB" + after;
    assert Holding(stale, "AB")[..DISPLAY_SIZE] + behind == "AB" + after;
    ShownExactly("AB", after);
  }

  /** Every text memo of at most 256 bytes gets through, whole or split after its header. */
  lemma TextMemoReachesAmount(p: Progress, b: bytes, text: bytes, k: nat, first: Cdata, second: Cdata)
    requires |b| <= 256 && p.stage == MemoInitial(|b|) && Decode(b) == Some(Text(text))
    requires ArgumentSize(b[0]).value < k <= |b| && k <= 255 && |b| - k <= 255
    requires first[..k] == b[..k] && second[..|b| - k] == b[k..]
    ensures var q := Accept(p, Packet(P1_MEMO, 0, first, k));
            && q.Ok?
            && var r := if k == |b| then q else Accept(q.value, Packet(P1_MEMO, 0, second, |b| - k));
               r.Ok? && r.value.stage.Amount? && r.value.stage.memo.hashed == b
               && r.value.stage.memo.memo.copied == Chars(text)
  {
    TextMemoAccepted(b, text, k, first, second);
  }

  lemma TransferParts(data: Cdata, at: nat)
    requires at <= 33
    ensures var b := data[at..at + 101];
            b[..61] == data[at..at + 61] && b[61..93] == data[at + 61..at + 93] && b[93..101] == data[at + 93..at + 101]
    ensures data[at..at + 101][60] == data[at + 60] && data[at..at + 101][..32] == data[at..at + 61][..32]
  {
    var b := data[at..at + 101];
    assert forall k | 0 <= k < 101 :: b[k] == data[at + k];
    assert b[61..93] == data[at + 61..at + 93];
  }

  lemma SameAmount(data: Cdata)
    ensures U8BE(data[..8], 0) == U8BE(data, 0)
  {
  }

  // ------------------------------------------------------------------ the handlers

  datatype State = TX_TRANSFER_INITIAL | TX_TRANSFER_MEMO_INITIAL | TX_TRANSFER_MEMO | TX_TRANSFER_AMOUNT

  class Context {
    const dev: Globals
    const memo: CborContext
    var state: State
    var displayStr: string
    var displayAmount: string
    ghost var progress: Progress

    constructor (dev: Globals, memo: CborContext)
      ensures this.dev == dev && this.memo == memo
    {
      this.dev, this.memo := dev, memo;
    }

    ghost function View(): View
      reads memo
    {
      Screens.View(dev.sha, memo.stale)
    }

    ghost predicate StageValid()
      reads this, memo, memo.display, dev
    {
      match progress.stage
      case Start => state == TX_TRANSFER_INITIAL
      case MemoInitial(declared) => state == TX_TRANSFER_MEMO_INITIAL && memo.cborLength == declared
      case MemoMore(t) => state == TX_TRANSFER_MEMO && memo.Holds(t.memo)
      case Amount(t) => state == TX_TRANSFER_AMOUNT && memo.Holds(t.memo)
      case Done(t, _) => true
    }

    ghost predicate Valid()
      reads this, memo, memo.display, dev
    {
      && ProgressOk(progress) && StageValid()
      && (!progress.stage.Start? ==>
            && dev.hash == Transcript(progress)
            && dev.sender == AddressChars(dev.sha, progress.header[..32])
            && displayStr == AddressChars(dev.sha, progress.to))
      && memo.display.Length == 510 && dev.shown == Rendered(View(), progress)
    }

    /** startTransferDisplay */
    method StartTransferDisplay(displayMemo: bool, ghost m: Memo)
      requires displayMemo ==> memo.Holds(m)
      modifies dev`shown, dev`display
      ensures dev.shown == old(dev.shown)
        + [[REVIEW, Show("Sender", dev.sender), Show("Amount", displayAmount), Show("Recipient", displayStr)]
           + (if displayMemo then [Show("Memo", MemoText(memo.stale, m))] else []) + [Sign, Decline]]
    {
      hide CborContext.Holds, MemoText;
      var flow := [REVIEW, Show("Sender", dev.sender), Show("Amount", displayAmount), Show("Recipient", displayStr)];
      assert flow + [] == flow;
      if displayMemo {
        var text := memo.Shown(m);
        flow := flow + [Show("Memo", text)];
      }
      flow := flow + [Sign, Decline];
      dev.UxFlowInit(flow);
    }

    /** handleSignTransfer: one packet, one flow. */
    method HandleSignTransfer(cdata: Cdata) returns (r: Outcome<Reply>)
      requires dev.shown == []
      modifies this`displayStr, this`displayAmount, dev
      ensures r == match HeaderAt(cdata, 60, TRANSFER) case Throw(e) => Throw(e) case Ok(_) => Ok(Await(Ask))
      ensures r.Ok? ==>
        var at := PathLength(cdata).value;
        && dev.hash == cdata[at..at + 101]
        && dev.shown == [TransferFlow(dev.sha, cdata[at..at + 61], cdata[at + 61..at + 93], cdata[at + 93..at + 101], [])]
      ensures r.Ok? ==>
        && |dev.hash| == 101 && dev.hash[60] == 3 && |dev.shown| == 1
        && ShowsTransfer(dev.sha, dev.shown[0], dev.hash[..32], dev.hash[61..93], dev.hash[93..101], [])
    {
      hide AddressChars, AmountText, Base58.AddressTextOf;
      var at, recipient := dev.HandleHeaderAndToAddress(cdata, TRANSFER);
      if at.Throw? {
        return Throw(at.error);
      }
      displayStr := recipient;
      var amount := U8BE(cdata, at.value);
      displayAmount := ShowAmount(amount);
      dev.UpdateHash(cdata[at.value..at.value + 8]);
      StartSlices(cdata, at.value - 93, 8);
      assert U8BE(cdata[at.value..at.value + 8], 0) == amount;
      StartTransferDisplay(false, Memo(0, 0, ""));
      TransferParts(cdata, at.value - 93);
      FlowShows(dev.sha, dev.hash[..61], dev.hash[61..93], dev.hash[93..101], []);
      r := Ok(Await(Ask));
    }

    /** finishMemo */
    method FinishMemo() returns (r: Outcome<Reply>)
      modifies this`state
      ensures r == Ok(Success) && state == TX_TRANSFER_AMOUNT
    {
      state := TX_TRANSFER_AMOUNT;
      r := Ok(Success);
    }

    /** Only the second packet of a memo can write behind the buffer, and only when both are too long
        for it; see DisplayCbor.SecondPacket. */
    ghost predicate Overruns(p: Progress, packet: Packet) {
      && p.stage.MemoMore? && packet.p1 == P1_MEMO
      && |p.stage.memo.memo.copied| + packet.length > DISPLAY_SIZE
    }

    ghost predicate Handled(p: Progress, packet: Packet, r: Outcome<Reply>)
      requires !p.stage.Done?
      reads this, memo, memo.display, dev
    {
      match Accept(p, packet)
      case Throw(e) => r == Throw(e)
      case Ok(q) => Valid() && progress == q && r == Ok(Answer(q))
    }

    method HandleInitial(packet: Packet) returns (r: Outcome<Reply>)
      requires Valid() && progress.stage.Start? && packet.p1 == P1_INITIAL_WITH_MEMO
      modifies this, memo, dev
      ensures Handled(old(progress), packet, r)
    {
      hide CborContext.Holds, MemoText, AddressChars, AmountText, TransitOk, Transcript, Accept, U2BE;
      AcceptInitial(packet);
      var cdata := packet.data;
      var at, recipient := dev.HandleHeaderAndToAddress(cdata, TRANSFER_WITH_MEMO);
      if at.Throw? {
        return Throw(at.error);
      }
      displayStr := recipient;
      memo.cborLength := U2BE(cdata, at.value);
      if memo.cborLength > MAX_MEMO_SIZE {
        return Throw(InvalidParam);
      }
      dev.UpdateHash(cdata[at.value..at.value + 2]);
      state := TX_TRANSFER_MEMO_INITIAL;
      r := Ok(Success);
      progress := Accept(progress, packet).value;
    }

    method HandleMemoInitial(packet: Packet) returns (r: Outcome<Reply>)
      requires Valid() && progress.stage.MemoInitial? && packet.p1 == P1_MEMO
      modifies this, memo, memo.display, dev
      ensures Handled(old(progress), packet, r)
      ensures memo.display[DISPLAY_SIZE..] == old(memo.display[DISPLAY_SIZE..])
    {
      hide CborContext.Holds, MemoText, AddressChars, AmountText, TransitOk, StartMemo, Transcript;
      dev.UpdateHash(packet.data[..packet.length]);
      var read := memo.ReadCborInitial(packet.data, packet.length);
      if read.Throw? {
        return Throw(read.error);
      }
      AcceptExtends(progress, packet);
      if memo.cborLength == 0 {
        r := FinishMemo();
      } else {
        state := TX_TRANSFER_MEMO;
        r := Ok(Success);
      }
      progress := Accept(progress, packet).value;
    }

    method HandleMemoMore(packet: Packet) returns (r: Outcome<Reply>)
      requires Valid() && progress.stage.MemoMore? && packet.p1 == P1_MEMO
      modifies this, memo, memo.display, dev
      ensures Handled(old(progress), packet, r)
      ensures !Overruns(old(progress), packet) ==> memo.display[DISPLAY_SIZE..] == old(memo.display[DISPLAY_SIZE..])
    {
      hide CborContext.Holds, MemoText, AddressChars, AmountText, TransitOk, Transcript, ContinueMemo, Chars, U2BE,
          HeaderAt;
      dev.UpdateHash(packet.data[..packet.length]);
      assert packet.data[0..packet.length] == packet.data[..packet.length];
      var read := memo.ReadCborContent(packet.data, 0, packet.length, progress.stage.memo.memo);
      if read.Throw? {
        return Throw(read.error);
      }
      if memo.cborLength != 0 {
        return Throw(InvalidState);
      }
      AcceptExtends(progress, packet);
      r := FinishMemo();
      progress := Accept(progress, packet).value;
    }

    method HandleAmount(packet: Packet) returns (r: Outcome<Reply>)
      requires Valid() && progress.stage.Amount? && packet.p1 == P1_AMOUNT
      modifies this, memo, dev
      ensures Handled(old(progress), packet, r)
    {
      hide CborContext.Holds, MemoText, AddressChars, AmountText, TransitOk, Transcript, U8BE;
      AcceptExtends(progress, packet);
      SameAmount(packet.data);
      var amount := U8BE(packet.data, 0);
      displayAmount := ShowAmount(amount);
      dev.UpdateHash(packet.data[..8]);
      StartTransferDisplay(true, progress.stage.memo.memo);
      r := Ok(Await(Ask));
      progress := Accept(progress, packet).value;
    }

    /** handleSignTransferWithMemo */
    method HandleSignTransferWithMemo(packet: Packet, isInitialCall: bool) returns (r: Outcome<Reply>)
      requires isInitialCall || (Valid() && !progress.stage.Done?)
      requires isInitialCall ==> dev.shown == [] && memo.display.Length == 510
      modifies this, memo, memo.display, dev
      ensures Handled(if isInitialCall then BEGIN else old(progress), packet, r)
      ensures isInitialCall || !Overruns(old(progress), packet) ==>
        memo.display[DISPLAY_SIZE..] == old(memo.display[DISPLAY_SIZE..])
    {
      hide CborContext.Holds, MemoText, AddressChars, AmountText, TransitOk, Transcript;
      if isInitialCall {
        state := TX_TRANSFER_INITIAL;
        progress := BEGIN;
      }
      var p1 := packet.p1;
      if p1 == P1_INITIAL_WITH_MEMO && state == TX_TRANSFER_INITIAL {
        r := HandleInitial(packet);
      } else if p1 == P1_MEMO && state == TX_TRANSFER_MEMO_INITIAL {
        r := HandleMemoInitial(packet);
      } else if p1 == P1_MEMO && state == TX_TRANSFER_MEMO {
        r := HandleMemoMore(packet);
      } else if p1 == P1_AMOUNT && state == TX_TRANSFER_AMOUNT {
        r := HandleAmount(packet);
      } else {
        r := Throw(InvalidState);
      }
    }
  }
}
