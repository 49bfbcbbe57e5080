/** src/signTransferWithSchedule.c */
module SignTransferWithSchedule {
  import opened Bytes
  import opened Lists
  import opened Device
  import opened NumberHelpers
  import opened Displays
  import opened DisplayCbor
  import opened Screens
  import opened Readback
  import opened ScheduleTx
  import Base58
  import Time

  datatype State =
    | TX_TRANSFER_WITH_SCHEDULE_INITIAL | TX_TRANSFER_WITH_SCHEDULE_TRANSFER_PAIRS
    | TX_TRANSFER_WITH_SCHEDULE_MEMO_START | TX_TRANSFER_WITH_SCHEDULE_MEMO

  class Context {
    const dev: Globals
    const memo: CborContext
    var state: State
    var displayStr: string
    var remainingNumberOfScheduledAmounts: byte
    var scheduledAmountsInCurrentPacket: byte
    var displayAmount: string
    var displayTimestamp: string
    /** The packet of releases that is being shown. */
    const buffer: array<byte>
    var pos: byte
    ghost var progress: Progress

    constructor (dev: Globals, memo: CborContext)
      ensures this.dev == dev && this.memo == memo && buffer.Length == 255 && fresh(buffer)
    {
      this.dev, this.memo := dev, memo;
      buffer := new byte[255];
    }

    /** The counters, and the releases that are still in the buffer. */
    ghost predicate Loaded(p: Progress)
      reads this, buffer
    {
      && state == TX_TRANSFER_WITH_SCHEDULE_TRANSFER_PAIRS && buffer.Length == 255
      && remainingNumberOfScheduledAmounts == p.n - |p.pairs| - |p.packet|
      && scheduledAmountsInCurrentPacket == |p.packet|
      && InBuffer(p.packet, buffer[..], pos)
    }

    ghost predicate StageValid()
      reads this, buffer, memo, memo.display
    {
      var p := progress;
      match p.stage
      case Start => state == TX_TRANSFER_WITH_SCHEDULE_INITIAL
      case MemoStart(declared) =>
        && state == TX_TRANSFER_WITH_SCHEDULE_MEMO_START && remainingNumberOfScheduledAmounts == p.n
        && memo.cborLength == declared
      case MemoMore =>
        && state == TX_TRANSFER_WITH_SCHEDULE_MEMO && remainingNumberOfScheduledAmounts == p.n
        && p.memo.Some? && memo.Holds(p.memo.value.memo) && |p.memo.value.memo.copied| <= 255
      case NextPacket => state == TX_TRANSFER_WITH_SCHEDULE_TRANSFER_PAIRS
          && remainingNumberOfScheduledAmounts == p.n - |p.pairs|
      case PairShown => Loaded(p)
      case Done => true
    }

    ghost function View(): View
      reads memo
    {
      Screens.View(dev.sha, memo.stale)
    }

    ghost predicate HeadValid()
      reads this, dev
    {
      && |progress.header| == 61 && |progress.to| == 32
      && dev.sender == AddressChars(dev.sha, progress.header[..32])
      && displayStr == AddressChars(dev.sha, progress.to)
    }

    ghost predicate Valid()
      reads this, buffer, memo, memo.display, dev
    {
      && ProgressOk(progress) && StageValid() && buffer.Length == 255 && memo.display.Length == 510
      && (!progress.stage.Start? ==> dev.hash == Transcript(progress) && HeadValid())
      && dev.shown == Rendered(View(), progress)
    }

    /** The first flow: sender, recipient and memo. */
    method StartInitialScheduledTransferDisplay(displayMemo: bool, ghost m: Memo)
      requires HeadValid() && (displayMemo ==> memo.Holds(m))
      modifies dev`shown, dev`display
      ensures dev.shown == old(dev.shown)
        + [StartFlow(dev.sha, progress.header, progress.to,
                     if displayMemo then [Show("Memo", MemoText(memo.stale, m))] else [])]
    {
      hide AddressChars, CborContext.Holds, MemoText;
      var flow := [REVIEW, Show("Sender", dev.sender), Show("Recipient", displayStr)];
      if displayMemo {
        var text := memo.Shown(m);
        flow := flow + [Show("Memo", text)] + [PROCEED];
        assert flow == Introduction(dev.sender, displayStr, [Show("Memo", text)]);
      } else {
        flow := flow + [PROCEED];
        assert flow == Introduction(dev.sender, displayStr, []);
      }
      hide Introduction;
      dev.UxFlowInit(flow);
    }

    // ---------------------------------------------------------------- releases

    /** Before the next release is looked at. */
    ghost predicate Ready(p: Progress)
      reads this, buffer, memo, dev
    {
      && Midway(p) && (p.stage.NextPacket? || p.stage.PairShown?) && Loaded(p)
      && dev.hash == Transcript(p) && HeadValid() && p == progress && memo.display.Length == 510
      && dev.shown == PairScreens(View(), p)
    }

    ghost predicate Processed(p: Progress, r: Outcome<Reply>)
      requires AllOf(p.packet, 16)
      reads this, buffer, memo, memo.display, dev
    {
      match Next(p)
      case Throw(e) => r == Throw(e)
      case Ok(q) => Valid() && progress == q && r == Ok(Answer(p, q))
    }

    /** Hashes and renders the release at pos, and shows it. */
    method ShowRelease() returns (r: Outcome<()>)
      requires buffer.Length == 255 && pos <= 239
      modifies this`pos, this`displayAmount, this`displayTimestamp, this`scheduledAmountsInCurrentPacket, dev`hash,
          dev`shown, dev`display
      requires scheduledAmountsInCurrentPacket > 0
      ensures var pair := old(buffer[pos..pos + 16]);
              if !Accepted(pair) then r == Throw(InvalidParam)
              else
                && r == Ok(()) && pos == old(pos) + 16
                && scheduledAmountsInCurrentPacket == old(scheduledAmountsInCurrentPacket) - 1
                && dev.hash == old(dev.hash) + pair
                && dev.shown == old(dev.shown)
                   + [PairFlow(pair, remainingNumberOfScheduledAmounts == 0 && scheduledAmountsInCurrentPacket == 0)]
      ensures r.Ok? ==>
        && |dev.shown| == |old(dev.shown)| + 1
        && ShowsRelease(dev.shown[|dev.shown| - 1], old(buffer[pos..pos + 16]),
                        remainingNumberOfScheduledAmounts == 0 && scheduledAmountsInCurrentPacket == 0)
    {
      hide TimeString, Time.TmOf, AmountText, ShowsRelease;
      ghost var pair := buffer[pos..pos + 16];
      assert U8BE(pair, 0) == U8BE(buffer[..], pos) && U8BE(pair, 8) == U8BE(buffer[..], pos + 8);
      assert buffer[pos..pos + 8] + buffer[pos + 8..pos + 16] == pair;
      var timestamp := U8BE(buffer[..], pos) / 1000;
      dev.UpdateHash(buffer[pos..pos + 8]);
      pos := pos + 8;
      displayTimestamp :- ShowTime(timestamp);
      var amount := U8BE(buffer[..], pos);
      dev.UpdateHash(buffer[pos..pos + 8]);
      pos := pos + 8;
      displayAmount := ShowAmount(amount);
      scheduledAmountsInCurrentPacket := scheduledAmountsInCurrentPacket - 1;
      var flow := [Show("Release time (UTC)", displayTimestamp), Show("Amount", displayAmount)];
      if remainingNumberOfScheduledAmounts == 0 && scheduledAmountsInCurrentPacket == 0 {
        dev.UxFlowInit(flow + [Sign, Decline]);
      } else {
        dev.UxFlowInit(flow + [Continue("Show", "next release")]);
      }
      ReleaseShows(pair, remainingNumberOfScheduledAmounts == 0 && scheduledAmountsInCurrentPacket == 0);
      r := Ok(());
    }

    /** A release is left in the packet. */
    method ProcessRelease() returns (r: Outcome<Reply>)
      requires Ready(progress) && progress.packet != []
      modifies this, dev
      ensures Processed(old(progress), r)
    {
      hide CborContext.Holds, MemoText, AllOf, Releases, Accepted, Midway, ProgressOk, Transcript, Rendered,
          PairScreens, PairFlow, PairFlows, AddressChars, InBuffer, Next, ShowsRelease;
      ghost var p := progress;
      MidwayBounds(p);
      NextRefused(p);
      if Next(p).Ok? {
        NextHashed(p);
        NextRendered(View(), p);
      }
      InBufferNext(p.packet, buffer[..], pos);
      assert buffer[..][pos..pos + 16] == buffer[pos..pos + 16];
      var done :- ShowRelease();
      var last := remainingNumberOfScheduledAmounts == 0 && scheduledAmountsInCurrentPacket == 0;
      r := Ok(Await(if last then Ask else Callback.ProcessNextScheduledAmount));
      progress := Next(p).value;
    }

    /** processNextScheduledAmount, also the callback of "Show next release". */
    method ProcessNextScheduledAmount() returns (r: Outcome<Reply>)
      requires Ready(progress)
      modifies this, dev
      ensures Processed(old(progress), r)
    {
      hide CborContext.Holds, MemoText, AllOf, Releases, Accepted, Midway, ProgressOk, Transcript, Rendered,
          PairScreens, AddressChars, InBuffer;
      MidwayBounds(progress);
      if scheduledAmountsInCurrentPacket == 0 {
        NextHashed(progress);
        NextRendered(View(), progress);
        r := Ok(Success);
        progress := Next(progress).value;
      } else {
        r := ProcessRelease();
      }
    }

    /** The number of releases in the packet, and the copy of the packet. */
    method LoadPacket(cdata: Cdata) returns (ghost k: nat)
      requires buffer.Length == 255
      modifies this`remainingNumberOfScheduledAmounts, this`scheduledAmountsInCurrentPacket, this`pos, buffer
      ensures k == scheduledAmountsInCurrentPacket && pos == 0
      ensures var n := old(remainingNumberOfScheduledAmounts);
              k == (if n <= PAIRS_PER_PACKET then n else PAIRS_PER_PACKET) && remainingNumberOfScheduledAmounts == n - k
      ensures InBuffer(Pieces(cdata, k), buffer[..], 0)
    {
      hide InBuffer;
      if remainingNumberOfScheduledAmounts <= PAIRS_PER_PACKET {
        scheduledAmountsInCurrentPacket := remainingNumberOfScheduledAmounts;
        remainingNumberOfScheduledAmounts := 0;
      } else {
        scheduledAmountsInCurrentPacket := PAIRS_PER_PACKET;
        remainingNumberOfScheduledAmounts := remainingNumberOfScheduledAmounts - PAIRS_PER_PACKET;
      }
      k := scheduledAmountsInCurrentPacket;
      pos := 0;
      var size := 16 * scheduledAmountsInCurrentPacket;
      forall i | 0 <= i < size {
        buffer[i] := cdata[i];
      }
      PiecesInBuffer(cdata, buffer[..], k);
    }

    /** handleTransferPairs */
    method HandleTransferPairs(cdata: Cdata) returns (r: Outcome<Reply>)
      requires Valid() && progress.stage.NextPacket?
      modifies this, dev, buffer
      ensures Processed(TakePacket(old(progress), cdata), r)
    {
      hide CborContext.Holds, MemoText, AllOf, Midway, ProgressOk, Rendered, PairScreens, InitialFlow, AddressChars,
          InBuffer, Transcript,
          Processed, Pieces;
      TakePacketMidway(progress, cdata);
      TakePacketScreens(View(), progress, cdata);
      ghost var k := LoadPacket(cdata);
      progress := TakePacket(progress, cdata);
      r := ProcessNextScheduledAmount();
    }

    // ---------------------------------------------------------------- host packets

    /** Accepted packets before the releases are answered at once, those that end a part of the
        transaction wait for the user. */
    ghost predicate Handled(p: Progress, packet: Packet, r: Outcome<Reply>)
      requires ProgressOk(p) && !p.stage.PairShown? && !p.stage.Done?
      reads this, buffer, memo, memo.display, dev
    {
      match Accept(p, packet)
      case Throw(e) => r == Throw(e)
      case Ok(q) =>
        && Valid() && progress == q
        && r == Ok(Answer(p, q))
    }

    /** The last packet of the memo has been read: progress becomes q. */
    ghost predicate MemoRead(packet: Packet, q: Progress)
      reads this, buffer, memo, memo.display, dev
    {
      && (progress.stage.MemoStart? || progress.stage.MemoMore?) && q.memo.Some?
      && MemoTaken(View(), progress, packet, q.memo.value.memo, q) && memo.Holds(q.memo.value.memo)
      && HeadValid() && dev.hash == Transcript(progress) + packet.data[..packet.length] && dev.shown == []
      && remainingNumberOfScheduledAmounts == progress.n && buffer.Length == 255 && memo.display.Length == 510
    }

    /** finishMemoScheduled */
    method FinishMemoScheduled(ghost packet: Packet, ghost q: Progress) returns (r: Outcome<Reply>)
      requires MemoRead(packet, q) && memo.cborLength == 0
      modifies this`state, this`progress, dev`hash, dev`shown, dev`display
      ensures r == Ok(Await(Proceed)) && Valid() && progress == q
    {
      hide CborContext.Holds, MemoText, AddressChars, Transcript, Rendered, ProgressOk, Accept, BeforePairs, StartFlow;
      dev.UpdateHash([remainingNumberOfScheduledAmounts]);
      state := TX_TRANSFER_WITH_SCHEDULE_TRANSFER_PAIRS;
      StartInitialScheduledTransferDisplay(true, q.memo.value.memo);
      r := Ok(Await(Proceed));
      progress := q;
    }

    method AwaitMemo(ghost packet: Packet, ghost q: Progress) returns (r: Outcome<Reply>)
      requires MemoRead(packet, q) && memo.cborLength != 0
      modifies this`state, this`progress
      ensures r == Ok(Success) && Valid() && progress == q
    {
      hide CborContext.Holds, MemoText, AddressChars, Transcript, Rendered, ProgressOk, Accept, BeforePairs, StartFlow;
      state := TX_TRANSFER_WITH_SCHEDULE_MEMO;
      r := Ok(Success);
      assert dev.hash + [] == dev.hash;
      progress := q;
    }

    /** Only the second packet of a memo can write behind the buffer; see DisplayCbor.SecondPacket. */
    ghost predicate Overruns(p: Progress, packet: Packet) {
      && p.stage.MemoMore? && packet.p1 == P1_MEMO
      && p.memo.Some? && |p.memo.value.memo.copied| + packet.length > DISPLAY_SIZE
    }

    method HandleInitialWithMemo(packet: Packet) returns (r: Outcome<Reply>)
      requires Valid() && progress == Begin(true) && packet.p1 == P1_INITIAL_WITH_MEMO
      modifies this, memo, dev
      ensures Handled(old(progress), packet, r)
    {
      hide CborContext.Holds, MemoText, AddressChars, Transcript, Accept, ProgressOk, Rendered, HeaderAt, PathLength,
          U2BE, Loaded;
      AcceptInitialMemo(View(), packet);
      BeginShown(View(), true);
      var cdata := packet.data;
      var at, recipient := dev.HandleHeaderAndToAddress(cdata, TRANSFER_WITH_SCHEDULE_WITH_MEMO);
      if at.Throw? {
        return Throw(at.error);
      }
      displayStr := recipient;
      remainingNumberOfScheduledAmounts := cdata[at.value];
      memo.cborLength := U2BE(cdata, at.value + 1);
      if memo.cborLength > MAX_MEMO_SIZE {
        return Throw(InvalidParam);
      }
      dev.UpdateHash(cdata[at.value + 1..at.value + 3]);
      state := TX_TRANSFER_WITH_SCHEDULE_MEMO_START;
      r := Ok(Success);
      progress := Accept(progress, packet).value;
    }

    method HandleInitial(packet: Packet) returns (r: Outcome<Reply>)
      requires Valid() && progress == Begin(false) && packet.p1 == P1_INITIAL_PACKET
      modifies this, dev
      ensures Handled(old(progress), packet, r)
    {
      hide CborContext.Holds, MemoText, AddressChars, Transcript, Accept, ProgressOk, Rendered, StartFlow, HeaderAt,
          PathLength, Loaded;
      AcceptInitialPlain(View(), packet);
      BeginShown(View(), false);
      var cdata := packet.data;
      var at, recipient := dev.HandleHeaderAndToAddress(cdata, TRANSFER_WITH_SCHEDULE);
      if at.Throw? {
        return Throw(at.error);
      }
      displayStr := recipient;
      remainingNumberOfScheduledAmounts := cdata[at.value];
      dev.UpdateHash(cdata[at.value..at.value + 1]);
      r := AwaitReleases(Accept(progress, packet).value);
    }

    /** The transaction is known up to the releases; progress becomes q. */
    method AwaitReleases(ghost q: Progress) returns (r: Outcome<Reply>)
      requires ProgressOk(q) && q.stage.NextPacket? && |q.pairs| == 0 && buffer.Length == 255 && memo.display.Length == 510
      requires remainingNumberOfScheduledAmounts == q.n && dev.hash == Transcript(q) && dev.shown == []
      requires |q.header| == 61 && dev.sender == AddressChars(dev.sha, q.header[..32])
      requires |q.to| == 32 && displayStr == AddressChars(dev.sha, q.to)
      requires Rendered(View(), q) == [StartFlow(dev.sha, q.header, q.to, [])]
      modifies this`state, this`progress, dev`shown, dev`display
      ensures r == Ok(Await(Proceed)) && Valid() && progress == q
    {
      hide CborContext.Holds, MemoText, AddressChars, Transcript, ProgressOk, Rendered, StartFlow;
      state := TX_TRANSFER_WITH_SCHEDULE_TRANSFER_PAIRS;
      progress := q;
      StartInitialScheduledTransferDisplay(false, Memo(0, 0, ""));
      r := Ok(Await(Proceed));
    }

    method HandleMemoStart(packet: Packet) returns (r: Outcome<Reply>)
      requires Valid() && progress.stage.MemoStart? && packet.p1 == P1_MEMO
      modifies this, memo, memo.display, dev
      ensures Handled(old(progress), packet, r)
      ensures memo.display[DISPLAY_SIZE..] == old(memo.display[DISPLAY_SIZE..])
    {
      hide CborContext.Holds, MemoText, AddressChars, Transcript, StartMemo, Accept, Rendered, BeforePairs,
          ProgressOk, StartFlow, Loaded, IntegerBytes, Releases;
      AcceptMemo(Screens.View(dev.sha, memo.display[..]), progress, packet);
      NothingShown(View(), progress);
      dev.UpdateHash(packet.data[..packet.length]);
      var read := memo.ReadCborInitial(packet.data, packet.length);
      if read.Throw? {
        return Throw(read.error);
      }
      if memo.cborLength == 0 {
        r := FinishMemoScheduled(packet, Accept(progress, packet).value);
      } else {
        r := AwaitMemo(packet, Accept(progress, packet).value);
      }
    }

    method HandleMemoMore(packet: Packet) returns (r: Outcome<Reply>)
      requires Valid() && progress.stage.MemoMore? && packet.p1 == P1_MEMO
      modifies this, memo, memo.display, dev
      ensures Handled(old(progress), packet, r)
      ensures !Overruns(old(progress), packet) ==> memo.display[DISPLAY_SIZE..] == old(memo.display[DISPLAY_SIZE..])
    {
      hide CborContext.Holds, MemoText, AddressChars, Transcript, ContinueMemo, Accept, Rendered, BeforePairs,
          ProgressOk, StartFlow;
      AcceptMemo(View(), progress, packet);
      NothingShown(View(), progress);
      dev.UpdateHash(packet.data[..packet.length]);
      assert packet.data[0..packet.length] == packet.data[..packet.length];
      var read := memo.ReadCborContent(packet.data, 0, packet.length, progress.memo.value.memo);
      if read.Throw? {
        return Throw(read.error);
      }
      if memo.cborLength != 0 {
        return Throw(InvalidState);
      }
      r := FinishMemoScheduled(packet, Accept(progress, packet).value);
    }


    method HandlePairs(packet: Packet) returns (r: Outcome<Reply>)
      requires Valid() && progress.stage.NextPacket? && packet.p1 == P1_SCHEDULED_TRANSFER_PAIRS
      modifies this, dev, buffer
      ensures Handled(old(progress), packet, r)
    {
      hide CborContext.Holds, MemoText, ProgressOk, Accept, TakePacket, Next, Transcript, Rendered, Loaded,
          AddressChars;
      AcceptPairs(progress, packet);
      hide CborContext.Holds, MemoText, Valid;
      r := HandleTransferPairs(packet.data);
    }

    /** handleSignTransferWithScheduleAndMemo */
    method HandleSignTransferWithScheduleAndMemo(packet: Packet, isInitialCall: bool) returns (r: Outcome<Reply>)
      requires isInitialCall || (Valid() && progress.withMemo && !progress.stage.PairShown? && !progress.stage.Done?)
      requires isInitialCall ==> dev.shown == [] && buffer.Length == 255 && memo.display.Length == 510
      modifies this, memo, memo.display, dev, buffer
      ensures Handled(if isInitialCall then Begin(true) else old(progress), packet, r)
      ensures isInitialCall || !Overruns(old(progress), packet) ==>
        memo.display[DISPLAY_SIZE..] == old(memo.display[DISPLAY_SIZE..])
    {
      hide CborContext.Holds, MemoText, AddressChars, Transcript, PairPhase, StartMemo, ContinueMemo,
          DisplayCbor.Received, Next, HeadOk;
      if isInitialCall {
        state := TX_TRANSFER_WITH_SCHEDULE_INITIAL;
        progress := Begin(true);
        BeginOk(true);
      }
      var p1 := packet.p1;
      if p1 == P1_INITIAL_WITH_MEMO && state == TX_TRANSFER_WITH_SCHEDULE_INITIAL {
        r := HandleInitialWithMemo(packet);
      } else if p1 == P1_MEMO && state == TX_TRANSFER_WITH_SCHEDULE_MEMO_START {
        r := HandleMemoStart(packet);
      } else if p1 == P1_MEMO && state == TX_TRANSFER_WITH_SCHEDULE_MEMO {
        r := HandleMemoMore(packet);
      } else if p1 == P1_SCHEDULED_TRANSFER_PAIRS && state == TX_TRANSFER_WITH_SCHEDULE_TRANSFER_PAIRS {
        r := HandlePairs(packet);
      } else {
        r := Throw(InvalidParam);
      }
    }

    /** handleSignTransferWithSchedule */
    method HandleSignTransferWithSchedule(packet: Packet, isInitialCall: bool) returns (r: Outcome<Reply>)
      requires isInitialCall || (Valid() && !progress.withMemo && !progress.stage.PairShown? && !progress.stage.Done?)
      requires isInitialCall ==> dev.shown == [] && buffer.Length == 255 && memo.display.Length == 510
      modifies this, dev, buffer
      ensures Handled(if isInitialCall then Begin(false) else old(progress), packet, r)
    {
      hide CborContext.Holds, MemoText, AddressChars, Transcript, PairPhase, StartMemo, ContinueMemo,
          DisplayCbor.Received, Next, HeadOk;
      if isInitialCall {
        state := TX_TRANSFER_WITH_SCHEDULE_INITIAL;
        progress := Begin(false);
        BeginOk(false);
      }
      if packet.p1 == P1_INITIAL_PACKET && state == TX_TRANSFER_WITH_SCHEDULE_INITIAL {
        r := HandleInitial(packet);
      } else if packet.p1 == P1_SCHEDULED_TRANSFER_PAIRS && state == TX_TRANSFER_WITH_SCHEDULE_TRANSFER_PAIRS {
        r := HandlePairs(packet);
      } else {
        r := Throw(InvalidParam);
      }
    }

    /** The user presses "Show next release". */
    method ShowNextRelease() returns (r: Outcome<Reply>)
      requires Valid() && progress.stage.PairShown?
      modifies this, dev
      ensures Midway(old(progress)) && Processed(old(progress), r)
    {
      hide CborContext.Holds, MemoText, AddressChars, Rendered, Transcript, PairScreens, InBuffer, AllOf, Next,
          DisplayCbor.Received, BatchesOk,
          Releases;
      ShownMidway(progress);
      RenderedPairs(View(), progress);
      r := ProcessNextScheduledAmount();
    }
  }
}
