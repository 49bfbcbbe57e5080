/** src/signConfigureBaker.c */
module SignConfigureBaker {
  import opened Bytes
  import opened Lists
  import opened Device
  import opened NumberHelpers
  import opened Displays
  import opened Screens
  import opened ConfigureBakerTx
  import opened ConfigureBakerMemory
  import ConfigureBakerFormat

  class Context {
    const dev: Globals
    var has: Fields
    var firstDisplay: bool
    var view: Union
    /** The text of the member UrlView. */
    const urlDisplay: array<char>
    var state: State

    constructor (dev: Globals)
      ensures this.dev == dev && urlDisplay.Length == 256 && fresh(urlDisplay)
      ensures Linked(Contents())
    {
      this.dev := dev;
      urlDisplay := new char[256];
      state := OTHER;
    }

    ghost function Contents(): (m: BakerMemory)
      requires urlDisplay.Length == 256
      reads this, urlDisplay, dev
    {
      BakerMemory(state, has, firstDisplay, view, urlDisplay[..], dev.hash)
    }

    /** The memory is as the outcome says, and its flow has been added to what had been shown. */
    ghost predicate Did(o: Outcome<Next>, shown: seq<Flow>, r: Outcome<Reply>)
      reads this, urlDisplay, dev
    {
      && urlDisplay.Length == 256 && Linked(Contents())
      && match o
         case Throw(e) => r == Throw(e)
         case Ok(n) => r == Ok(n.reply) && Contents() == n.memory && dev.shown == shown + Flows(n, dev.sender)
    }

    // ---------------------------------------------------------------- the flows

    /** startConfigureBakerDisplay: the texts that it reads are those of the member written last. */
    method StartConfigureBakerDisplay()
      requires Readable(has, view)
      modifies this`firstDisplay, dev`shown, dev`display
      ensures !firstDisplay
      ensures dev.shown == old(dev.shown) + [[REVIEW, Show("Sender", dev.sender)] + FirstFlow(has, view)]
    {
      firstDisplay := false;
      var steps: seq<Step> := [];
      if has.capital {
        steps := steps + [if view.texts.stopBaking then Show("Stop", "baking")
            else Show("Amount to stake", view.texts.displayCapital.value)];
      }
      steps := steps + if has.restake then [Show("Restake earnings", view.texts.displayRestake.value)] else [];
      steps := steps + if has.open then [Show("Pool status", view.texts.displayOpenForDelegation.value)] else [];
      steps := steps + If(has.keys, Show("Update baker", "keys"));
      steps := steps + if has.url || has.Rates() then [PROCEED] else CONFIRM;
      assert steps == FirstFlow(has, view);
      dev.UxFlowInit([REVIEW, Show("Sender", dev.sender)] + steps);
    }

    /** The review and sender steps, unless a flow has shown them. */
    method Introduce(steps: Flow)
      modifies this`firstDisplay, dev`shown, dev`display
      ensures !firstDisplay
      ensures dev.shown == old(dev.shown)
          + [if old(firstDisplay) then [REVIEW, Show("Sender", dev.sender)] + steps else steps]
    {
      var flow := steps;
      if firstDisplay {
        flow := [REVIEW, Show("Sender", dev.sender)] + steps;
        firstDisplay := false;
      }
      dev.UxFlowInit(flow);
    }

    /** startConfigureBakerUrlDisplay */
    method StartConfigureBakerUrlDisplay(lastUrlPage: bool)
      requires (view.UrlView? || view.Elsewhere?) && urlDisplay.Length == 256
      modifies this`firstDisplay, dev`shown, dev`display
      ensures !firstDisplay
      ensures var page := if !lastUrlPage then NextPage(urlDisplay[..])
                          else if view.urlLength == 0 then LastPage(has, Show("Empty URL", ""))
                          else LastPage(has, Show("URL", CText(urlDisplay[..])));
              dev.shown == old(dev.shown)
                  + [if old(firstDisplay) then [REVIEW, Show("Sender", dev.sender)] + page else page]
    {
      hide CText;
      if !lastUrlPage {
        Introduce([Continue("URL", CText(urlDisplay[..]))]);
      } else {
        var step := if view.urlLength == 0 then Show("Empty URL", "") else Show("URL", CText(urlDisplay[..]));
        Introduce([step] + if has.Rates() then [PROCEED] else CONFIRM);
      }
    }

    /** startConfigureBakerCommissionDisplay */
    method StartConfigureBakerCommissionDisplay(ghost b: bytes)
      requires RatesOk(has, b) && view == RatesView(has, b)
      modifies this`firstDisplay, dev`shown, dev`display
      ensures !firstDisplay
      ensures dev.shown == old(dev.shown)
        + [if old(firstDisplay) then [REVIEW, Show("Sender", dev.sender)] + RatesFlow(has, b) else RatesFlow(has, b)]
    {
      hide PercentText, U4BE;
      var steps := if has.Rates() then [Show("Commission", "rates")] else [];
      steps := steps + if has.fee then [Show("Transaction fee", view.fee.value)] else [];
      steps := steps + if has.reward then [Show("Baking reward", view.reward.value)] else [];
      steps := steps + if has.finalization then [Show("Finalization reward", view.finalization.value)] else [];
      steps := steps + CONFIRM;
      assert steps == RatesFlow(has, b);
      hide RatesFlow;
      Introduce(steps);
    }

    // ---------------------------------------------------------------- the fields

    method ReadCapital(cdata: Cdata)
      modifies this`view, dev`hash
      ensures dev.hash == old(dev.hash) + cdata[..CapitalEnd(has)]
      ensures view == CapitalRestakeDelegation(Texts(
        has.capital && U8BE(cdata, 0) == 0,
        if has.capital && U8BE(cdata, 0) != 0 then Some(AmountText(U8BE(cdata, 0))) else None, None, None))
    {
      hide AmountText, U8BE;
      view := CapitalRestakeDelegation(Texts(false, None, None, None));
      if has.capital {
        var capitalAmount := U8BE(cdata, 0);
        if capitalAmount == 0 {
          view := CapitalRestakeDelegation(view.texts.(stopBaking := true));
        } else {
          var text := ShowAmount(capitalAmount);
          view := CapitalRestakeDelegation(view.texts.(stopBaking := false, displayCapital := Some(text)));
        }
        dev.UpdateHash(cdata[..8]);
      } else {
        assert dev.hash + cdata[..0] == dev.hash;
      }
    }

    method ReadRestake(cdata: Cdata, ghost hash: bytes) returns (r: Outcome<()>)
      requires view.CapitalRestakeDelegation? && dev.hash == hash + cdata[..CapitalEnd(has)]
      modifies this`view, dev`hash
      ensures r == if has.restake && cdata[CapitalEnd(has)] > 1 then Throw(InvalidTransaction) else Ok(())
      ensures view.CapitalRestakeDelegation?
      ensures r.Ok? ==>
        && dev.hash == hash + cdata[..RestakeEnd(has)]
        && view.texts == old(view).texts.(displayRestake :=
             if has.restake then Some(RestakeText(cdata[CapitalEnd(has)])) else old(view).texts.displayRestake)
    {
      if has.restake {
        var at := CapitalEnd(has);
        var restake := cdata[at];
        Further(hash, cdata, at, at + 1);
        dev.UpdateHash(cdata[at..at + 1]);
        if restake == 0 {
          view := CapitalRestakeDelegation(view.texts.(displayRestake := Some("No")));
        } else if restake == 1 {
          view := CapitalRestakeDelegation(view.texts.(displayRestake := Some("Yes")));
        } else {
          return Throw(InvalidTransaction);
        }
      }
      r := Ok(());
    }

    method ReadOpenForDelegation(cdata: Cdata, ghost hash: bytes) returns (r: Outcome<()>)
      requires view.CapitalRestakeDelegation? && dev.hash == hash + cdata[..RestakeEnd(has)]
      modifies this`view, dev`hash
      ensures r == if has.open && cdata[RestakeEnd(has)] > 2 then Throw(InvalidTransaction) else Ok(())
      ensures view.CapitalRestakeDelegation?
      ensures r.Ok? ==>
        && dev.hash == hash + cdata[..OpenEnd(has)]
        && view.texts == old(view).texts.(displayOpenForDelegation :=
             if has.open then Some(OpenText(cdata[RestakeEnd(has)])) else old(view).texts.displayOpenForDelegation)
    {
      if has.open {
        var at := RestakeEnd(has);
        var openForDelegation := cdata[at];
        Further(hash, cdata, at, at + 1);
        dev.UpdateHash(cdata[at..at + 1]);
        if openForDelegation == 0 {
          view := CapitalRestakeDelegation(view.texts.(displayOpenForDelegation := Some("Open for all")));
        } else if openForDelegation == 1 {
          view := CapitalRestakeDelegation(view.texts.(displayOpenForDelegation := Some("Closed for new")));
        } else if openForDelegation == 2 {
          view := CapitalRestakeDelegation(view.texts.(displayOpenForDelegation := Some("Closed for all")));
        } else {
          return Throw(InvalidTransaction);
        }
      }
      r := Ok(());
    }

    /** Two keys and their proofs, and the check of the length. */
    method ReadKeys(cdata: Cdata, dataLength: byte, ghost hash: bytes) returns (r: Outcome<()>)
      requires dev.hash == hash + cdata[..OpenEnd(has)]
      modifies dev`hash
      ensures r == if dataLength != FirstEnd(has) then Throw(InvalidTransaction) else Ok(())
      ensures r.Ok? ==> dev.hash == hash + cdata[..dataLength]
    {
      var at := OpenEnd(has);
      var lengthCheck: int := dataLength - at;
      if has.keys {
        if lengthCheck != 192 {
          return Throw(InvalidTransaction);
        }
        dev.UpdateHash(cdata[at..at + 32]);
        Further(hash, cdata, at, at + 32);
        dev.UpdateHash(cdata[at + 32..at + 96]);
        Further(hash, cdata, at + 32, at + 96);
        dev.UpdateHash(cdata[at + 96..at + 128]);
        Further(hash, cdata, at + 96, at + 128);
        dev.UpdateHash(cdata[at + 128..at + 192]);
        Further(hash, cdata, at + 128, at + 192);
      } else if lengthCheck != 0 {
        return Throw(InvalidTransaction);
      }
      r := Ok(());
    }

    /** The first batch is accepted exactly when it consists of the announced fields with valid values. */
    method ReadFirst(cdata: Cdata, dataLength: byte) returns (r: Outcome<()>)
      modifies this`view, dev`hash
      ensures r == if FirstOk(has, cdata[..dataLength]) then Ok(()) else Throw(InvalidTransaction)
      ensures r.Ok? ==>
        view == FirstView(has, cdata[..dataLength]) && dev.hash == old(dev.hash) + cdata[..dataLength]
    {
      hide AmountText, OpenText, RestakeText;
      ghost var hash := dev.hash;
      SameValues(has, cdata, dataLength);
      hide U8BE;
      ReadCapital(cdata);
      var restake :- ReadRestake(cdata, hash);
      var open :- ReadOpenForDelegation(cdata, hash);
      r := ReadKeys(cdata, dataLength, hash);
    }

    method ReadRate(cdata: Cdata, at: nat, end: nat, ghost hash: bytes) returns (r: Outcome<string>)
      requires end == at + 4 <= 264 && dev.hash == hash + cdata[..at]
      modifies dev`hash
      ensures r == if U4BE(cdata, at) > MAX_RATE then Throw(InvalidTransaction) else Ok(PercentText(U4BE(cdata, at)))
      ensures r.Ok? ==> dev.hash == hash + cdata[..end]
    {
      hide PercentText, U4BE;
      var rate := U4BE(cdata, at);
      r := ShowPercentage(rate);
      if r.Ok? {
        dev.UpdateHash(cdata[at..end]);
        Further(hash, cdata, at, end);
      }
    }

    /** The rates packet is accepted exactly when it consists of the announced rates with valid values. */
    method ReadRates(cdata: Cdata, dataLength: byte) returns (r: Outcome<()>)
      modifies this`view, dev`hash
      ensures r == if RatesOk(has, cdata[..dataLength]) then Ok(()) else Throw(InvalidTransaction)
      ensures r.Ok? ==>
        view == RatesView(has, cdata[..dataLength]) && dev.hash == old(dev.hash) + cdata[..dataLength]
    {
      SameRates(has, cdata, dataLength);
      hide PercentText, U4BE;
      ghost var hash := dev.hash;
      view := CommissionRates(None, None, None);
      // dataLength is counted down in eight bits; it ends at zero only for the exact length.
      var left := dataLength;
      assert dev.hash == hash + cdata[..0];
      if has.fee {
        var text :- ReadRate(cdata, 0, 4, hash);
        view := view.(fee := Some(text));
        left := Sub8(left, 4);
      }
      if has.reward {
        var text :- ReadRate(cdata, FeeEnd(has), FeeEnd(has) + 4, hash);
        view := view.(reward := Some(text));
        left := Sub8(left, 4);
      }
      if has.finalization {
        var text :- ReadRate(cdata, RewardEnd(has), RewardEnd(has) + 4, hash);
        view := view.(finalization := Some(text));
        left := Sub8(left, 4);
      }
      if left != 0 {
        return Throw(InvalidTransaction);
      }
      r := Ok(());
    }

    // ---------------------------------------------------------------- host packets

    /** The fields that a bitmap announces, and the state that awaits the first of them. */
    method ReadBitmap(bitmap: u16)
      modifies this`has, this`state
      ensures has == FieldsOf(bitmap) && state == FirstState(has, old(state))
      ensures has == ConfigureBakerFormat.ByBit(bitmap)
    {
      hide FieldsOf, ConfigureBakerFormat.ByBit;
      ConfigureBakerFormat.Bits(bitmap);
      has := FieldsOf(bitmap);
      if has.First() {
        state := CONFIGURE_BAKER_FIRST;
      } else if has.url {
        state := CONFIGURE_BAKER_URL_LENGTH;
      } else if has.Rates() {
        state := CONFIGURE_BAKER_COMMISSION_RATES;
      }
    }

    /** The bitmap behind the header. */
    method HandleBitmap(cdata: Cdata, at: nat) returns (r: Outcome<Reply>)
      requires at <= 94
      modifies this`has, this`state, this`firstDisplay, dev`hash
      ensures r == if LetThrough(U2BE(cdata, at)) then Ok(Success) else Throw(InvalidTransaction)
      ensures r.Throw? ==> has == old(has) && state == old(state)
      ensures r.Ok? ==>
        && has == FieldsOf(U2BE(cdata, at)) == ConfigureBakerFormat.ByBit(U2BE(cdata, at))
        && state == FirstState(has, old(state)) && firstDisplay && dev.hash == old(dev.hash) + cdata[at..at + 2]
    {
      hide FieldsOf, U2BE, ConfigureBakerFormat.ByBit;
      firstDisplay := true;
      dev.UpdateHash(cdata[at..at + 2]);
      var bitmap := U2BE(cdata, at);
      if bitmap == 0 || bitmap > 1023 {
        return Throw(InvalidTransaction);
      }
      ReadBitmap(bitmap);
      r := Ok(Success);
    }

    /** The first packet of a session. */
    method HandleInitial(packet: Packet) returns (r: Outcome<Reply>)
      requires urlDisplay.Length == 256 && Linked(Contents()) && packet.p1 == P1_INITIAL
      modifies this, dev
      ensures Did(Begun(old(Contents()), packet.data), old(dev.shown), r)
      ensures r.Ok? ==> dev.sender == AddressChars(dev.sha, HeaderAt(packet.data, 60, CONFIGURE_BAKER).value[..32])
      ensures r.Ok? ==>
        has == ConfigureBakerFormat.ByBit(U2BE(packet.data, PathLength(packet.data).value + 61))
    {
      hide AddressChars, FieldsOf, U2BE, CText, ConfigureBakerFormat.ByBit, LetThrough;
      var cdata := packet.data;
      HeaderCases(cdata, 60, CONFIGURE_BAKER);
      hide HeaderAt, PathLength;
      var start :- dev.StartAccountTransaction(cdata, CONFIGURE_BAKER);
      var at := start + 61;
      HeaderSlices(cdata, start);
      r := HandleBitmap(cdata, at);
      if r.Ok? {
        KeptLinked(old(state), U2BE(cdata, at));
        assert dev.shown + [] == dev.shown;
      }
    }

    method HandleFirst(packet: Packet) returns (r: Outcome<Reply>)
      requires urlDisplay.Length == 256 && Linked(Contents()) && state == CONFIGURE_BAKER_FIRST
      modifies this, dev
      ensures Did(TakeFirst(old(Contents()), packet.data[..packet.length]), old(dev.shown), r)
      ensures dev.sender == old(dev.sender)
    {
      hide FirstBody, FirstOk, FirstView, FirstFlow;
      var Packet(_, _, cdata, dataLength) := packet;
      var read :- ReadFirst(cdata, dataLength);
      FirstFlowIs(has, cdata[..dataLength]);
      if has.keys {
        state := CONFIGURE_BAKER_AGGREGATION_KEY;
        r := Ok(Success);
        assert dev.shown + [] == dev.shown;
      } else {
        r := FinishFirst();
      }
    }

    /** After the first batch, or the keys: shows what the first batch has announced. */
    method FinishFirst() returns (r: Outcome<Reply>)
      requires Readable(has, view)
      modifies this`state, this`firstDisplay, dev`shown, dev`display
      ensures state == StateOf(AfterFirst(has)) && !firstDisplay && r == Ok(AwaitsMore(has.url || has.Rates()))
      ensures dev.shown == old(dev.shown) + [[REVIEW, Show("Sender", dev.sender)] + FirstFlow(has, view)]
    {
      if has.url {
        state := CONFIGURE_BAKER_URL_LENGTH;
      } else if has.Rates() {
        state := CONFIGURE_BAKER_COMMISSION_RATES;
      } else {
        state := CONFIGURE_BAKER_END;
      }
      StartConfigureBakerDisplay();
      r := Ok(Await(if has.url || has.Rates() then Proceed else Ask));
    }

    method HandleAggregation(packet: Packet) returns (r: Outcome<Reply>)
      requires urlDisplay.Length == 256 && Linked(Contents()) && state == CONFIGURE_BAKER_AGGREGATION_KEY
      modifies this, dev
      ensures Did(TakeAggregation(old(Contents()), packet.data, packet.length), old(dev.shown), r)
      ensures dev.sender == old(dev.sender)
    {
      hide FirstFlow;
      var Packet(_, _, cdata, dataLength) := packet;
      if !has.keys || dataLength != 160 {
        return Throw(InvalidTransaction);
      }
      Further(dev.hash, cdata, 96, 160);
      dev.UpdateHash(cdata[..96]);
      dev.UpdateHash(cdata[96..160]);
      r := FinishFirst();
    }

    method HandleUrlLength(packet: Packet) returns (r: Outcome<Reply>)
      requires urlDisplay.Length == 256 && Linked(Contents()) && state == CONFIGURE_BAKER_URL_LENGTH
      modifies this, dev
      ensures Did(TakeLength(old(Contents()), packet.data), old(dev.shown), r)
      ensures dev.sender == old(dev.sender)
    {
      hide U2BE, LastPage, CText;
      var cdata := packet.data;
      if !has.url {
        return Throw(InvalidTransaction);
      }
      view := UrlView(U2BE(cdata, 0));
      if view.urlLength > MAX_URL {
        return Throw(InvalidTransaction);
      }
      dev.UpdateHash(cdata[..2]);
      if view.urlLength == 0 {
        r := FinishUrl();
      } else {
        state := CONFIGURE_BAKER_URL;
        r := Ok(Success);
        assert dev.shown + [] == dev.shown;
      }
    }

    /** A copy to the start of urlDisplay. */
    method CopyUrl(cdata: Cdata, dataLength: byte)
      requires urlDisplay.Length == 256
      modifies urlDisplay
      ensures urlDisplay[..] == Written(old(urlDisplay[..]), 0, Chars(cdata[..dataLength]))
    {
      forall i | 0 <= i < dataLength {
        urlDisplay[i] := cdata[i] as char;
      }
      assert urlDisplay[..dataLength] == Chars(cdata[..dataLength]);
    }

    method HandleUrl(packet: Packet) returns (r: Outcome<Reply>)
      requires urlDisplay.Length == 256 && Linked(Contents()) && state == CONFIGURE_BAKER_URL
      modifies this, urlDisplay, dev
      ensures Did(TakePiece(old(Contents()), packet.data[..packet.length]), old(dev.shown), r)
      ensures dev.sender == old(dev.sender)
    {
      hide LastPage, NextPage, UrlStep, CText, Written, Chars;
      var Packet(_, _, cdata, dataLength) := packet;
      if view.urlLength > dataLength {
        dev.UpdateHash(cdata[..dataLength]);
        view := view.(urlLength := view.urlLength - dataLength);
        CopyUrl(cdata, dataLength);
        StartConfigureBakerUrlDisplay(false);
        r := Ok(Await(Proceed));
      } else if view.urlLength == dataLength {
        CopyLast(cdata, dataLength);
        dev.UpdateHash(cdata[..dataLength]);
        r := FinishUrl();
      } else {
        r := Throw(InvalidTransaction);
      }
    }

    /** The last piece, and a terminator. */
    method CopyLast(cdata: Cdata, dataLength: byte)
      requires urlDisplay.Length == 256
      modifies urlDisplay
      ensures urlDisplay[..] == Written(old(urlDisplay[..]), 0, Chars(cdata[..dataLength]) + [NUL])
      ensures Show("URL", CText(urlDisplay[..])) == UrlStep(cdata[..dataLength])
    {
      hide CText;
      CopyUrl(cdata, dataLength);
      urlDisplay[dataLength] := NUL;
      ghost var piece := Chars(cdata[..dataLength]);
      assert urlDisplay[..] == piece + [NUL] + urlDisplay[dataLength + 1..];
      Terminated(piece, urlDisplay[dataLength + 1..]);
    }

    /** After the last page of the URL. */
    method FinishUrl() returns (r: Outcome<Reply>)
      requires (view.UrlView? || view.Elsewhere?) && urlDisplay.Length == 256
      modifies this`state, this`firstDisplay, dev`shown, dev`display
      ensures state == StateOf(AfterUrl(has)) && !firstDisplay && r == Ok(AwaitsMore(has.Rates()))
      ensures var page := LastPage(has, if view.urlLength == 0 then Show("Empty URL", "")
                                        else Show("URL", CText(urlDisplay[..])));
              dev.shown == old(dev.shown)
                  + [if old(firstDisplay) then [REVIEW, Show("Sender", dev.sender)] + page else page]
    {
      hide CText, LastPage;
      if has.Rates() {
        state := CONFIGURE_BAKER_COMMISSION_RATES;
      } else {
        state := CONFIGURE_BAKER_END;
      }
      StartConfigureBakerUrlDisplay(true);
      r := Ok(Await(if has.Rates() then Proceed else Ask));
    }

    /** handleCommissionRates: the state stays as it is. */
    method HandleCommissionRates(packet: Packet) returns (r: Outcome<Reply>)
      requires urlDisplay.Length == 256 && Linked(Contents()) && state == CONFIGURE_BAKER_COMMISSION_RATES
      modifies this, dev
      ensures Did(TakeRates(old(Contents()), packet.data[..packet.length]), old(dev.shown), r)
      ensures dev.sender == old(dev.sender)
    {
      hide RatesBody, RatesOk, RatesView, RatesFlow;
      var Packet(_, _, cdata, dataLength) := packet;
      var read :- ReadRates(cdata, dataLength);
      StartConfigureBakerCommissionDisplay(cdata[..dataLength]);
      r := Ok(Await(Ask));
    }

    /** handleSignConfigureBaker, in any memory: only an initial call with P1 zero resets it. */
    method HandleSignConfigureBaker(packet: Packet, isInitialCall: bool) returns (r: Outcome<Reply>)
      requires urlDisplay.Length == 256 && Linked(Contents())
      modifies this, urlDisplay, dev
      ensures Did(Effect(old(Contents()), packet, isInitialCall), old(dev.shown), r)
      ensures packet.p1 == P1_INITIAL && r.Ok? ==>
        dev.sender == AddressChars(dev.sha, HeaderAt(packet.data, 60, CONFIGURE_BAKER).value[..32])
      ensures packet.p1 != P1_INITIAL ==> dev.sender == old(dev.sender)
    {
      hide AddressChars, Begun, TakeFirst, TakeAggregation, TakeLength, TakePiece, TakeRates, HeaderAt;
      var p1 := packet.p1;
      if p1 == P1_INITIAL && isInitialCall {
        r := HandleInitial(packet);
      } else if p1 == P1_FIRST_BATCH && state == CONFIGURE_BAKER_FIRST {
        r := HandleFirst(packet);
      } else if p1 == P1_AGGREGATION_KEY && state == CONFIGURE_BAKER_AGGREGATION_KEY {
        r := HandleAggregation(packet);
      } else if p1 == P1_URL_LENGTH && state == CONFIGURE_BAKER_URL_LENGTH {
        r := HandleUrlLength(packet);
      } else if p1 == P1_URL && state == CONFIGURE_BAKER_URL {
        r := HandleUrl(packet);
      } else if p1 == P1_COMMISSION_RATES && state == CONFIGURE_BAKER_COMMISSION_RATES {
        r := HandleCommissionRates(packet);
      } else {
        r := Throw(InvalidState);
      }
    }

    /** What sessions of other instructions have left in the union, and in the hash: any memory. */
    method Find(m: Leftover)
      requires urlDisplay.Length == 256
      modifies this, urlDisplay, dev`hash
      ensures Contents() == m
    {
      state, has, firstDisplay, view, dev.hash := m.state, m.has, m.firstDisplay, m.view, m.hash;
      forall i | 0 <= i < 256 {
        urlDisplay[i] := m.url[i];
      }
    }
  }

  /** A state that is kept reads nothing of the first batch. */
  lemma HeaderSlices(cdata: Cdata, start: nat)
    requires start <= 33
    ensures cdata[start..start + 61] + cdata[start + 61..start + 63] == cdata[start..start + 63]
    ensures cdata[start..start + 61][..32] == cdata[start..start + 32]
  {
  }

  lemma KeptLinked(s: State, bitmap: u16)
    ensures FirstState(FieldsOf(bitmap), s) == CONFIGURE_BAKER_AGGREGATION_KEY ==> !FieldsOf(bitmap).keys
    ensures FirstState(FieldsOf(bitmap), s) == CONFIGURE_BAKER_URL ==> s == CONFIGURE_BAKER_URL
  {
    hide FieldsOf;
  }

  lemma SameRates(f: Fields, data: Cdata, length: byte)
    ensures length == RatesEnd(f) ==>
      && (f.fee ==> U4BE(data[..length], 0) == U4BE(data, 0))
      && (f.reward ==> U4BE(data[..length], FeeEnd(f)) == U4BE(data, FeeEnd(f)))
      && (f.finalization ==> U4BE(data[..length], RewardEnd(f)) == U4BE(data, RewardEnd(f)))
  {
  }

  lemma SameValues(f: Fields, data: Cdata, length: byte)
    ensures length == FirstEnd(f) ==>
      && (f.capital ==> U8BE(data[..length], 0) == U8BE(data, 0))
      && (f.restake ==> data[..length][CapitalEnd(f)] == data[CapitalEnd(f)])
      && (f.open ==> data[..length][RestakeEnd(f)] == data[RestakeEnd(f)])
  {
  }
}
