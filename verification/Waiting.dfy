/** A handler that puts a flow on the display waits for the user, and no other does: a flow that ends in the
    steps to sign and decline for the question, one that ends in a step with a callback for anything else. */
module Waiting {
  import opened Bytes
  import opened Lists
  import opened Device
  import opened Runs
  import DisplayCbor
  import Displays
  import NumberHelpers
  import PaginatedHex
  import Screens
  import AuthorizationsTx
  import ConfigureBakerMemory
  import ConfigureBakerTx
  import AuthorizationsRuns
  import CredentialTx
  import SignCredentialDeployment
  import IdentityProviderTx
  import ScheduleTx
  import ScheduleRuns
  import SignAddIdentityProvider
  import SignCreatePlt
  import SignTransfer

  predicate Closes(flow: Flow, callback: Callback) {
    if callback == Ask then |flow| >= 2 && flow[|flow| - 2..] == [Sign, Decline]
    else flow != [] && flow[|flow| - 1].Continue?
  }

  ghost predicate Waited(before: seq<Flow>, after: seq<Flow>, reply: Reply) {
    match reply
    case Success => after == before
    case Await(callback) => exists flow: Flow :: after == before + [flow] && Closes(flow, callback)
  }

  lemma Nothing(before: seq<Flow>)
    ensures before + [] == before && Waited(before, before, Success)
  {
  }

  lemma OneFlow(before: seq<Flow>, flow: Flow, callback: Callback)
    requires Closes(flow, callback)
    ensures Waited(before, before + [flow], Await(callback))
  {
  }

  lemma OnlyFlow(flow: Flow, callback: Callback)
    requires Closes(flow, callback)
    ensures Waited([], [flow], Await(callback))
  {
    assert [] + [flow] == [flow];
  }

  // ------------------------------------------------------------------ level 2 key updates

  lemma AuthorizationsConfirm(updateType: byte, p: AuthorizationsTx.Progress)
    requires AuthorizationsTx.ProgressOk(updateType, p) && AuthorizationsRuns.Take(updateType, p, Confirm).Ok?
    ensures var q := AuthorizationsRuns.Take(updateType, p, Confirm).value;
            && AuthorizationsTx.ProgressOk(updateType, q)
            && Waited(AuthorizationsTx.Rendered(updateType, p), AuthorizationsTx.Rendered(updateType, q),
                      AuthorizationsTx.Answer(p, q))
  {
    hide AuthorizationsTx.Rendered, AuthorizationsTx.AuthorizationName, AuthorizationsTx.VersionOf,
        AuthorizationsTx.StructureCount, AuthorizationsTx.ProgressOk, AuthorizationsTx.Transcript,
            AuthorizationsTx.Within,
        Waited, AuthorizationsTx.NextIndex, AuthorizationsTx.AfterThreshold;
    var before := AuthorizationsTx.Rendered(updateType, p);
    Nothing(before);
    if p.stage.IndexShown? {
      ShownLoaded(updateType, p);
      AuthorizationsTx.NextIndexOk(updateType, p);
      if AuthorizationsTx.NextIndex(p).value.stage.IndexShown? {
        NextItem(before, AuthorizationsTx.AuthorizationName(|p.structures|).value, p.queue[0], ProcessKeyIndices);
      }
    } else {
      AuthorizationsTx.AfterThresholdOk(updateType, p);
      OneFlow(before, [Sign, Decline], Ask);
      Completing(updateType, p);
    }
  }

  lemma ShownLoaded(updateType: byte, p: AuthorizationsTx.Progress)
    requires AuthorizationsTx.ProgressOk(updateType, p) && p.stage.IndexShown?
    ensures AuthorizationsTx.Loaded(updateType, p) && AllOf(p.queue, 2)
    ensures AuthorizationsTx.LoadedFlows(updateType, p) == AuthorizationsTx.Rendered(updateType, p)
  {
  }

  lemma KeysNext(updateType: byte, packet: Packet)
    requires AuthorizationsTx.AcceptStart(updateType, packet).Ok?
    ensures AuthorizationsTx.AcceptStart(updateType, packet).value.stage.Keys?
  {
  }

  lemma Completing(updateType: byte, p: AuthorizationsTx.Progress)
    requires AuthorizationsTx.VersionOf(updateType, p.prefix).Some?
    ensures var q := AuthorizationsTx.AfterThreshold(updateType, p); q.stage.Done? || q.stage.Size?
  {
  }

  lemma NextItem(before: seq<Flow>, name: string, item: bytes, callback: Callback)
    requires |item| == 2 && callback != Ask
    ensures Waited(before, before + [AuthorizationsTx.IndexFlow(name, item)], Await(callback))
  {
    OneFlow(before, AuthorizationsTx.IndexFlow(name, item), callback);
  }

  lemma AuthorizationsHost(updateType: byte, p: AuthorizationsTx.Progress, packet: Packet)
    requires AuthorizationsTx.ProgressOk(updateType, p) && AuthorizationsRuns.Take(updateType, p, Host(packet)).Ok?
    ensures var q := AuthorizationsRuns.Take(updateType, p, Host(packet)).value;
            && AuthorizationsTx.ProgressOk(updateType, q)
            && Waited(AuthorizationsTx.Rendered(updateType, p), AuthorizationsTx.Rendered(updateType, q),
                      AuthorizationsTx.Answer(p, q))
  {
    hide AuthorizationsTx.Rendered, AuthorizationsTx.ProgressOk, AuthorizationsTx.AcceptStart,
        AuthorizationsTx.NextIndex,
        AuthorizationsTx.AuthorizationName, AuthorizationsTx.Transcript, AuthorizationsTx.IndexFlow, Waited;
    var before := AuthorizationsTx.Rendered(updateType, p);
    Nothing(before);
    match p.stage {
      case Start =>
        AuthorizationsTx.StartOk(updateType, packet);
        KeysNext(updateType, packet);
        AuthorizationsRuns.BeginOk(updateType, p);
        var flow := [REVIEW, Continue("Update", AuthorizationsTx.TypeText(updateType))];
        OnlyFlow(flow, Proceed);
      case Keys =>
        AuthorizationsTx.KeyOk(updateType, p, packet);
        OneFlow(before, AuthorizationsTx.KeyFlow(packet.data[..33]), Proceed);
      case Size => AuthorizationsTx.SizeOk(updateType, p, packet);
      case Indices =>
        var q := p.(queue := AuthorizationsTx.Pieces(packet.data, packet.length));
        AuthorizationsTx.LoadOk(updateType, p, packet.data, packet.length);
        AuthorizationsTx.NextIndexOk(updateType, q);
        if AuthorizationsTx.NextIndex(q).value.stage.IndexShown? {
          NextItem(before, AuthorizationsTx.AuthorizationName(|p.structures|).value, q.queue[0], ProcessKeyIndices);
        }
      case Threshold =>
        AuthorizationsTx.ThresholdOk(updateType, p, packet);
        NextItem(before, "Threshold", packet.data[..2], ProcessThreshold);
    }
  }

  // ------------------------------------------------------------------ update-credentials

  lemma CredentialWaits(sha: Sha256, p: CredentialTx.Progress, packet: Packet)
    requires CredentialTx.ProgressOk(p) && CredentialTx.Take(p, packet).Ok?
    ensures var q := CredentialTx.Take(p, packet).value;
            && CredentialTx.ProgressOk(q)
            && Waited(SignCredentialDeployment.Rendered(sha, p), SignCredentialDeployment.Rendered(sha, q),
                      SignCredentialDeployment.Answer(p, packet))
  {
    hide CredentialTx.ProgressOk, CredentialTx.Accept, CredentialTx.AcceptPart, SignCredentialDeployment.Rendered,
        Waited,
        SignCredentialDeployment.KeyShown, AddressChars;
    var before := SignCredentialDeployment.Rendered(sha, p);
    SignCredentialDeployment.RenderedGrows(sha, p, packet);
    Nothing(before);
    CredentialFlow(sha, p, packet);
    if SignCredentialDeployment.Answer(p, packet).Await? {
      OneFlow(before, SignCredentialDeployment.NewFlow(sha, p, packet)[0],
              SignCredentialDeployment.Answer(p, packet).callback);
    }
  }

  lemma CredentialFlow(sha: Sha256, p: CredentialTx.Progress, packet: Packet)
    requires CredentialTx.ProgressOk(p) && !p.stage.Done? && CredentialTx.Accept(p, packet).Ok?
    ensures var flows := SignCredentialDeployment.NewFlow(sha, p, packet);
            match SignCredentialDeployment.Answer(p, packet)
            case Success => flows == []
            case Await(callback) => |flows| == 1 && flows == [flows[0]] && Closes(flows[0], callback)
  {
    hide CredentialTx.ProgressOk, CredentialTx.Accept, CredentialTx.AcceptPart, SignCredentialDeployment.KeyShown,
        AddressChars;
  }

  // ------------------------------------------------------------------ add-identity-provider

  lemma IdentityProviderConfirm(sha: Sha256, behind: IdentityProviderTx.Behind, p: IdentityProviderTx.Progress)
    requires IdentityProviderTx.ProgressOk(p) && p.stage.TextShown?
    ensures var q := IdentityProviderTx.Confirmed(p);
            && IdentityProviderTx.ProgressOk(q)
            && Waited(IdentityProviderTx.Rendered(sha, behind, p), IdentityProviderTx.Rendered(sha, behind, q),
                      IdentityProviderTx.Answer(p, q))
  {
    hide IdentityProviderTx.Rendered, IdentityProviderTx.ProgressOk, IdentityProviderTx.Left,
        IdentityProviderTx.Transcript,
        Waited;
    Nothing(IdentityProviderTx.Rendered(sha, behind, p));
    SignAddIdentityProvider.ConfirmTaken(sha, behind, p);
  }

  lemma IdentityProviderHost(
    sha: Sha256, behind: IdentityProviderTx.Behind, p: IdentityProviderTx.Progress, packet: Packet)
    requires IdentityProviderTx.ProgressOk(p) && IdentityProviderTx.Take(p, Host(packet)).Ok?
    ensures var q := IdentityProviderTx.Take(p, Host(packet)).value;
            && IdentityProviderTx.ProgressOk(q)
            && Waited(IdentityProviderTx.Rendered(sha, behind, p), IdentityProviderTx.Rendered(sha, behind, q),
                      IdentityProviderTx.Answer(p, q))
  {
    hide IdentityProviderTx.Rendered, IdentityProviderTx.ProgressOk, IdentityProviderTx.Left,
        IdentityProviderTx.Transcript,
        IdentityProviderTx.AcceptStart, IdentityProviderTx.PieceText, Waited;
    var before := IdentityProviderTx.Rendered(sha, behind, p);
    Nothing(before);
    match p.stage {
      case Start => IdentityProviderStart(sha, behind, p, packet);
      case Length => SignAddIdentityProvider.LengthTaken(sha, behind, p, packet);
      case Text =>
        SignAddIdentityProvider.TextTaken(sha, behind, p, packet);
        OneFlow(before, [IdentityProviderTx.PieceStep(behind, |p.parts|, packet.data[..packet.length])],
                HandleDescriptionPart);
      case Key =>
        SignAddIdentityProvider.KeyTaken(sha, behind, p, packet);
        var key := p.key + packet.data[..packet.length];
        OneFlow(before, [Continue("Verify Key Hash", PaginatedHex.PagedHex(sha(key)))], Proceed);
      case Cdi =>
        SignAddIdentityProvider.CdiTaken(sha, behind, p, packet);
        OneFlow(before, [Show("CDI Verify key", PaginatedHex.PagedHex(packet.data[..32])), Sign, Decline], Ask);
    }
  }

  lemma IdentityProviderStart(
    sha: Sha256, behind: IdentityProviderTx.Behind, p: IdentityProviderTx.Progress, packet: Packet)
    requires IdentityProviderTx.ProgressOk(p) && p.stage.Start? && IdentityProviderTx.Take(p, Host(packet)).Ok?
    ensures var q := IdentityProviderTx.Take(p, Host(packet)).value;
            && IdentityProviderTx.ProgressOk(q)
            && Waited(IdentityProviderTx.Rendered(sha, behind, p), IdentityProviderTx.Rendered(sha, behind, q),
                      IdentityProviderTx.Answer(p, q))
  {
    SignAddIdentityProvider.StartTaken(sha, behind, packet.data);
    SignAddIdentityProvider.NothingYet(sha, behind, p);
    hide IdentityProviderTx.Rendered, IdentityProviderTx.ProgressOk, Waited;
    var q := IdentityProviderTx.Take(p, Host(packet)).value;
    OnlyFlow(IdentityProviderTx.Rendered(sha, behind, q)[0], Proceed);
  }

  // ------------------------------------------------------------------ scheduled transfers

  /** The next release of a packet, or none. */
  lemma ReleaseWaits(view: Screens.View, p: ScheduleTx.Progress, before: seq<Flow>)
    requires ScheduleTx.Midway(p) && (p.stage.NextPacket? || p.stage.PairShown?) && ScheduleTx.Next(p).Ok?
    requires before == ScheduleTx.PairScreens(view, p)
    ensures var q := ScheduleTx.Next(p).value;
            ScheduleTx.ProgressOk(q) && Waited(before, ScheduleTx.Rendered(view, q), ScheduleTx.Answer(p, q))
  {
    hide ScheduleTx.Rendered, ScheduleTx.ProgressOk, ScheduleTx.PairScreens, ScheduleTx.Midway,
        ScheduleTx.Accepted, Waited,
        ScheduleTx.PairFlow;
    ScheduleTx.MidwayBounds(p);
    ScheduleTx.NextRendered(view, p);
    ScheduleTx.NextExtends(p);
    Nothing(before);
    if p.packet != [] {
      var q := ScheduleTx.Next(p).value;
      ReleaseCloses(p.packet[0], |q.pairs| == p.n);
      OneFlow(before, ScheduleTx.PairFlow(p.packet[0], |q.pairs| == p.n), if q.stage.Done? then Ask else
        ProcessNextScheduledAmount);
    }
  }

  lemma ReleaseCloses(pair: bytes, last: bool)
    requires |pair| == 16
    ensures Closes(ScheduleTx.PairFlow(pair, last), if last then Ask else ProcessNextScheduledAmount)
  {
    hide ScheduleTx.Seconds, Displays.TimeString, NumberHelpers.AmountText;
  }

  lemma StartWaits(view: Screens.View, p: ScheduleTx.Progress, packet: Packet)
    requires ScheduleTx.ProgressOk(p) && p.stage.Start? && ScheduleTx.Accept(p, packet).Ok?
    ensures var q := ScheduleTx.Accept(p, packet).value;
            && ScheduleTx.ProgressOk(q)
            && Waited(ScheduleTx.Rendered(view, p), ScheduleTx.Rendered(view, q), ScheduleTx.Answer(p, q))
  {
    InitialP1(p, packet);
    hide ScheduleTx.Rendered, ScheduleTx.ProgressOk, ScheduleTx.Accept, ScheduleTx.StartFlow,
        ScheduleTx.Transcript, Waited;
    ScheduleTx.BeginShown(view, p.withMemo);
    var q := ScheduleTx.Accept(p, packet).value;
    if p.withMemo {
      ScheduleTx.AcceptInitialMemo(view, packet);
      Nothing([]);
    } else {
      ScheduleTx.AcceptInitialPlain(view, packet);
      IntroductionCloses(view.sha, q.header, q.to, []);
      OnlyFlow(ScheduleTx.StartFlow(view.sha, q.header, q.to, []), Proceed);
    }
  }

  lemma InitialP1(p: ScheduleTx.Progress, packet: Packet)
    requires ScheduleTx.ProgressOk(p) && p.stage.Start? && ScheduleTx.Accept(p, packet).Ok?
    ensures p == ScheduleTx.Begin(p.withMemo)
    ensures packet.p1 == if p.withMemo then ScheduleTx.P1_INITIAL_WITH_MEMO else ScheduleTx.P1_INITIAL_PACKET
  {
  }

  lemma IntroductionCloses(sha: Sha256, header: bytes, to: bytes, memo: seq<Step>)
    requires |header| == 61 && |to| == 32
    ensures Closes(ScheduleTx.StartFlow(sha, header, to, memo), Proceed)
  {
    hide AddressChars;
  }

  lemma MemoWaits(view: Screens.View, p: ScheduleTx.Progress, packet: Packet)
    requires ScheduleTx.ProgressOk(p) && (p.stage.MemoStart? || p.stage.MemoMore?)
    requires p.stage.MemoMore? ==> p.memo.Some?
    requires packet.p1 == ScheduleTx.P1_MEMO && ScheduleTx.Accept(p, packet).Ok?
    ensures var q := ScheduleTx.Accept(p, packet).value;
            && ScheduleTx.ProgressOk(q)
            && Waited(ScheduleTx.Rendered(view, p), ScheduleTx.Rendered(view, q), ScheduleTx.Answer(p, q))
  {
    hide ScheduleTx.Rendered, ScheduleTx.ProgressOk, ScheduleTx.Accept, ScheduleTx.MemoTaken, DisplayCbor.StartMemo,
        DisplayCbor.ContinueMemo, Waited;
    ScheduleTx.AcceptMemo(view, p, packet);
    ScheduleTx.NothingShown(view, p);
    var m := if p.stage.MemoStart? then DisplayCbor.StartMemo(p.stage.declared, packet.data, packet.length)
             else DisplayCbor.ContinueMemo(p.memo.value.memo, packet.data[..packet.length]);
    MemoScreens(view, p, packet, m.value, ScheduleTx.Accept(p, packet).value);
  }

  lemma MemoScreens(
    view: Screens.View, p: ScheduleTx.Progress, packet: Packet, m: DisplayCbor.Memo, q: ScheduleTx.Progress)
    requires p.stage.MemoStart? || p.stage.MemoMore?
    requires ScheduleTx.MemoTaken(view, p, packet, m, q)
    ensures ScheduleTx.ProgressOk(q) && Waited([], ScheduleTx.Rendered(view, q), ScheduleTx.Answer(p, q))
  {
    hide ScheduleTx.MemoTaken, ScheduleTx.Rendered, ScheduleTx.ProgressOk, DisplayCbor.MemoText,
        ScheduleTx.StartFlow, Waited;
    ScheduleTx.MemoRendered(view, p, packet, m, q);
    Nothing([]);
    if m.remaining == 0 {
      var memo := [Show("Memo", DisplayCbor.MemoText(view.stale, m))];
      IntroductionCloses(view.sha, p.header, p.to, memo);
      OnlyFlow(ScheduleTx.StartFlow(view.sha, p.header, p.to, memo), Proceed);
    }
  }

  lemma ScheduleWaits(view: Screens.View, p: ScheduleTx.Progress, e: Event)
    requires ScheduleTx.ProgressOk(p) && ScheduleRuns.Take(p, e).Ok?
    ensures var q := ScheduleRuns.Take(p, e).value;
            && ScheduleTx.ProgressOk(q)
            && Waited(ScheduleTx.Rendered(view, p), ScheduleTx.Rendered(view, q), ScheduleTx.Answer(p, q))
  {
    hide ScheduleTx.Rendered, ScheduleTx.ProgressOk, ScheduleTx.Accept, ScheduleTx.Midway, ScheduleTx.Next, Waited;
    if p.stage.PairShown? {
      ScheduleTx.ShownMidway(p);
      ScheduleTx.RenderedPairs(view, p);
      ReleaseWaits(view, p, ScheduleTx.Rendered(view, p));
    } else if p.stage.NextPacket? {
      ScheduleTx.TakePacketScreens(view, p, e.packet.data);
      ScheduleRuns.AcceptIsNext(p, e.packet);
      ReleaseWaits(view, ScheduleTx.TakePacket(p, e.packet.data), ScheduleTx.Rendered(view, p));
    } else if p.stage.Start? {
      StartWaits(view, p, e.packet);
    } else {
      MemoP1(p, e);
      MemoWaits(view, p, e.packet);
    }
  }

  lemma MemoP1(p: ScheduleTx.Progress, e: Event)
    requires !p.stage.PairShown? && !p.stage.NextPacket? && !p.stage.Start? && ScheduleRuns.Take(p, e).Ok?
    ensures (p.stage.MemoStart? || p.stage.MemoMore?) && (p.stage.MemoMore? ==> p.memo.Some?)
    ensures e.Host? && e.packet.p1 == ScheduleTx.P1_MEMO
  {
    hide DisplayCbor.StartMemo, DisplayCbor.ContinueMemo;
  }

  // ------------------------------------------------------------------ transfers and PLTs

  lemma TransferWaits(view: Screens.View, p: SignTransfer.Progress, e: Event)
    requires SignTransfer.ProgressOk(p) && SignTransfer.Take(p, e).Ok?
    ensures var q := SignTransfer.Take(p, e).value;
            && SignTransfer.ProgressOk(q)
            && Waited(SignTransfer.Rendered(view, p), SignTransfer.Rendered(view, q), SignTransfer.Answer(q))
  {
    hide DisplayCbor.StartMemo, DisplayCbor.ContinueMemo, DisplayCbor.TransitOk, DisplayCbor.MemoText, AddressChars,
        NumberHelpers.AmountText, SignTransfer.Transcript, Waited;
    SignTransfer.AcceptExtends(p, e.packet);
    var q := SignTransfer.Take(p, e).value;
    Nothing([]);
    if q.stage.Done? {
      var flow := SignTransfer.Rendered(view, q)[0];
      assert flow[|flow| - 2..] == [Sign, Decline];
      OnlyFlow(flow, Ask);
    }
  }

  lemma PltWaits(p: SignCreatePlt.Progress, e: Event)
    requires SignCreatePlt.ProgressOk(p) && SignCreatePlt.Take(p, e).Ok?
    ensures var q := SignCreatePlt.Take(p, e).value;
            && SignCreatePlt.ProgressOk(q)
            && Waited(SignCreatePlt.Rendered(p), SignCreatePlt.Rendered(q), SignCreatePlt.Answer(q))
  {
    hide SignCreatePlt.PayloadAt, SignCreatePlt.Transcript, PaginatedHex.PagedHex, Waited;
    SignCreatePlt.AcceptExtends(p, e.packet);
    var q := SignCreatePlt.Take(p, e).value;
    Nothing([]);
    if q.stage.Done? {
      var flow := SignCreatePlt.Rendered(q)[0];
      assert flow[|flow| - 2..] == [Sign, Decline];
      OnlyFlow(flow, Ask);
    }
  }

  // ------------------------------------------------------------------ configure-baker

  /** In any memory. */
  lemma BakerWaits(m: ConfigureBakerMemory.Leftover, packet: Packet, isInitialCall: bool)
    requires ConfigureBakerMemory.Effect(m, packet, isInitialCall).Ok?
    ensures var n := ConfigureBakerMemory.Effect(m, packet, isInitialCall).value;
            match n.reply
            case Success => n.flow == None
            case Await(callback) => n.flow.Some? && Closes(n.flow.value, callback)
  {
    hide ConfigureBakerTx.FieldsOf, ConfigureBakerTx.CapitalStep, ConfigureBakerTx.RestakeText,
        ConfigureBakerTx.OpenText,
        NumberHelpers.PercentText, NumberHelpers.AmountText, HeaderAt, U2BE, U4BE, U8BE, Screens.CText, Chars;
  }
}
