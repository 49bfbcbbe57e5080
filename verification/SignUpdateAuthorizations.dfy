/** governance-app/src/signUpdateAuthorizations.c */
module SignUpdateAuthorizations {
  import opened Bytes
  import opened Lists
  import opened Device
  import opened DecimalText
  import opened PaginatedHex
  import opened Displays
  import opened AuthorizationsTx
  import NumberHelpers

  datatype State =
    | TX_UPDATE_AUTHORIZATIONS_INITIAL | TX_UPDATE_AUTHORIZATIONS_PUBLIC_KEY
    | TX_UPDATE_AUTHORIZATIONS_ACCESS_STRUCTURE_SIZE | TX_UPDATE_AUTHORIZATIONS_ACCESS_STRUCTURE_INDEX
    | TX_UPDATE_AUTHORIZATIONS_ACCESS_STRUCTURE_THRESHOLD

  /** The indices of a packet that start at pos. */
  ghost predicate InBuffer(items: seq<bytes>, b: bytes, pos: nat) {
    items != [] ==>
      && pos + 2 * |items| <= 255 <= |b|
      && forall i | 0 <= i < |items| :: items[i] == b[pos + 2 * i..pos + 2 * i + 2]
  }

  lemma InBufferNext(items: seq<bytes>, b: bytes, pos: nat)
    requires InBuffer(items, b, pos) && items != []
    ensures pos + 2 <= 255 && InBuffer(items[1..], b, pos + 2) && items[0] == b[pos..pos + 2]
    ensures U2BE(items[0], 0) == U2BE(b, pos)
  {
    forall i | 0 <= i < |items| - 1
      ensures items[1..][i] == b[pos + 2 + 2 * i..pos + 2 + 2 * i + 2]
    {
      assert items[1..][i] == items[i + 1];
    }
    assert items[0] == b[pos + 2 * 0..pos + 2 * 0 + 2];
  }

  lemma PiecesInBuffer(data: Cdata, length: byte, b: bytes)
    requires |b| >= 255 && length % 2 == 0 && forall i | 0 <= i < length :: b[i] == data[i]
    ensures InBuffer(Pieces(data, length), b, 0) && |Pieces(data, length)| == length / 2
  {
    forall i | 0 <= i < length / 2
      ensures Pieces(data, length)[i] == b[0 + 2 * i..0 + 2 * i + 2]
    {
    }
  }

  class Context {
    const dev: Globals
    var state: State
    var publicKeyListLength: u16
    var publicKey: string
    var accessStructureSize: u16
    var title: string
    var displayKeyIndex: string
    var updateText: string
    var processedCount: byte
    const buffer: array<byte>
    var bufferPointer: nat
    var authorizationType: byte
    /** A static of the file, not a part of the context. */
    var authsVersion: Version
    ghost var kind: byte
    ghost var progress: Progress

    constructor (dev: Globals)
      ensures this.dev == dev && buffer.Length == 255 && fresh(buffer)
    {
      this.dev := dev;
      buffer := new byte[255];
      progress := BEGIN;
    }

    ghost predicate VersionSet()
      reads this
    {
      VersionOf(kind, progress.prefix) == Some(authsVersion) && authorizationType == |progress.structures|
    }

    /** The counters, and the indices that are still in the buffer. */
    ghost predicate Counted(p: Progress)
      reads this, buffer
    {
      && state == TX_UPDATE_AUTHORIZATIONS_ACCESS_STRUCTURE_INDEX && buffer.Length == 255
      && accessStructureSize == p.size - |p.indices| && processedCount == |p.queue|
      && InBuffer(p.queue, buffer[..], bufferPointer)
    }

    ghost predicate StageValid()
      reads this, buffer
    {
      var p := progress;
      match p.stage
      case Start => state == TX_UPDATE_AUTHORIZATIONS_INITIAL
      case Keys =>
        state == TX_UPDATE_AUTHORIZATIONS_PUBLIC_KEY && publicKeyListLength == p.keyCount - |p.keys| && VersionSet()
      case Size => state == TX_UPDATE_AUTHORIZATIONS_ACCESS_STRUCTURE_SIZE && VersionSet()
      case Indices =>
        && state == TX_UPDATE_AUTHORIZATIONS_ACCESS_STRUCTURE_INDEX && accessStructureSize == p.size - |p.indices|
        && VersionSet()
      case IndexShown => Counted(p) && VersionSet()
      case Threshold => state == TX_UPDATE_AUTHORIZATIONS_ACCESS_STRUCTURE_THRESHOLD && VersionSet()
      case ThresholdShown => VersionSet()
      case Done => true
    }

    ghost predicate Valid()
      reads this, buffer, dev
    {
      && ProgressOk(kind, progress) && StageValid() && buffer.Length == 255
      && Structures(progress.structures)
      && (!progress.stage.Start? ==> dev.hash == Transcript(progress))
      && dev.shown == Rendered(kind, progress)
    }

    // ---------------------------------------------------------------- indices

    ghost predicate Ready()
      reads this, buffer, dev
    {
      && Loaded(kind, progress) && Counted(progress) && VersionSet() && Structures(progress.structures)
      && dev.hash == Transcript(progress) && dev.shown == LoadedFlows(kind, progress)
    }

    ghost predicate Processed(u: byte, p: Progress, r: Outcome<Reply>)
      reads this, buffer, dev
    {
      match NextIndex(p)
      case Throw(e) => r == Throw(e)
      case Ok(q) =>
        Valid() && progress == q && kind == u && r == Ok(Answer(p, q))
    }

    /** Shows the index at bufferPointer. */
    method ShowIndex()
      requires buffer.Length == 255 && bufferPointer + 2 <= 255 && accessStructureSize > 0 && processedCount > 0
      requires authorizationType < 15
      modifies this`displayKeyIndex, this`title, this`bufferPointer, this`accessStructureSize, this`processedCount
      modifies dev`shown, dev`display
      ensures bufferPointer == old(bufferPointer) + 2
      ensures accessStructureSize == old(accessStructureSize) - 1 && processedCount == old(processedCount) - 1
      ensures dev.shown == old(dev.shown)
        + [[Continue(AuthorizationName(authorizationType).value, Dec(U2BE(old(buffer[..]), old(bufferPointer))))]]
    {
      hide Dec, AuthorizationName;
      var keyIndex := U2BE(buffer[..], bufferPointer);
      U16Digits(keyIndex);
      var text := ShowNumber(6, keyIndex);
      displayKeyIndex := text.value;
      title := AuthorizationName(authorizationType).value;
      bufferPointer := bufferPointer + 2;
      accessStructureSize := accessStructureSize - 1;
      processedCount := processedCount - 1;
      dev.UxFlowInit([Continue(title, displayKeyIndex)]);
    }

    /** processKeyIndices */
    method ProcessKeyIndices() returns (r: Outcome<Reply>)
      requires Ready()
      modifies this, dev
      ensures Processed(old(kind), old(progress), r)
    {
      hide Loaded, LoadedFlows, Rendered, Transcript, ProgressOk, InBuffer, AuthorizationName, Structures, Dec,
          VersionOf;
      ghost var p := progress;
      NextIndexOk(kind, p);
      if accessStructureSize == 0 {
        if processedCount != 0 {
          return Throw(InvalidTransaction);
        }
        state := TX_UPDATE_AUTHORIZATIONS_ACCESS_STRUCTURE_THRESHOLD;
        r := Ok(Success);
      } else if processedCount == 0 {
        r := Ok(Success);
      } else {
        InBufferNext(p.queue, buffer[..], bufferPointer);
        ShowIndex();
        r := Ok(Await(Callback.ProcessKeyIndices));
      }
      progress := NextIndex(p).value;
    }

    /** The user confirms an index. */
    method ConfirmIndex() returns (r: Outcome<Reply>)
      requires Valid() && progress.stage.IndexShown?
      modifies this, dev
      ensures Processed(old(kind), old(progress), r)
    {
      hide BaseFlows, IndexFlows, Base, Current, InBuffer, HeadOk, VersionOf, StructureCount, Structures;
      r := ProcessKeyIndices();
    }

    /** processThreshold: the user confirms a threshold. */
    method ProcessThreshold() returns (r: Outcome<Reply>)
      requires Valid() && progress.stage.ThresholdShown?
      modifies this, dev
      ensures Valid() && kind == old(kind) && VersionOf(kind, old(progress).prefix).Some?
      ensures progress == AfterThreshold(kind, old(progress))
      ensures r == Ok(Answer(old(progress), progress))
      ensures |progress.structures| == |old(progress).structures| + 1
      ensures r == Ok(Await(Ask)) <==> Prefix(kind, progress.prefix, |progress.structures|)
    {
      AfterThresholdOk(kind, progress);
      BoundedStructures(kind, progress);
      Numbers(kind, progress.prefix, |progress.structures| + 1);
      hide ProgressOk, Rendered, Transcript, InBuffer, VersionOf, StructureCount, Structures, Prefix;
      ghost var p := progress;
      authorizationType := authorizationType + 1;
      var endMarker := StructureCount(authsVersion);
      if authorizationType == endMarker {
        dev.UxFlowInit([Sign, Decline]);
        r := Ok(Await(Ask));
      } else {
        state := TX_UPDATE_AUTHORIZATIONS_ACCESS_STRUCTURE_SIZE;
        r := Ok(Success);
      }
      progress := AfterThreshold(kind, p);
    }

    // ---------------------------------------------------------------- host packets

    ghost predicate Handled(u: byte, p: Progress, packet: Packet, r: Outcome<Reply>)
      requires !p.stage.IndexShown? && !p.stage.ThresholdShown? && !p.stage.Done?
      reads this, buffer, dev
    {
      match Accept(u, p, packet)
      case Throw(e) => r == Throw(e)
      case Ok(q) =>
        && Valid() && progress == q && kind == u
        && r == Ok(Answer(p, q))
    }

    method HandleInitial(packet: Packet, updateType: byte) returns (r: Outcome<Reply>)
      requires Valid() && kind == updateType && progress.stage.Start? && packet.p1 == P1_INITIAL && packet.p2 <= 2
      modifies this, dev
      ensures Handled(old(kind), old(progress), packet, r)
    {
      hide Rendered, Transcript, VersionOf, TypeText;
      var cdata := packet.data;
      if AcceptStart(kind, packet).Ok? { StartOk(kind, packet); }
      NothingYet(kind, progress);
      hide ProgressOk;
      var start :- dev.StartUpdate(cdata, updateType);
      var at := start + 29;
      var keyUpdateType := cdata[at];
      dev.UpdateHash([keyUpdateType]);
      var version := VersionOf(updateType, keyUpdateType);
      if version.None? {
        return Throw(InvalidTransaction);
      }
      authsVersion := version.value;
      if P2Of(authsVersion) != packet.p2 {
        return Throw(InvalidParam);
      }
      publicKeyListLength := U2BE(cdata, at + 1);
      dev.UpdateHash(cdata[at + 1..at + 3]);
      updateText := TypeText(updateType);
      state := TX_UPDATE_AUTHORIZATIONS_PUBLIC_KEY;
      authorizationType := 0;
      dev.UxFlowInit([REVIEW, Continue("Update", updateText)]);
      r := Ok(Await(Proceed));
      assert cdata[start..at] + [keyUpdateType] + cdata[at + 1..at + 3] == cdata[start..at + 3];
      progress := AcceptStart(kind, packet).value;
    }

    method HandlePublicKey(packet: Packet) returns (r: Outcome<Reply>)
      requires Valid() && progress.stage.Keys? && packet.p1 == P1_PUBLIC_KEY && packet.p2 <= 2 && publicKeyListLength > 0
      modifies this, dev
      ensures Handled(old(kind), old(progress), packet, r)
    {
      hide Rendered, Transcript, VersionOf, PagedHex;
      var cdata := packet.data;
      KeyOk(kind, progress, packet);
      hide ProgressOk, Structures;
      dev.UpdateHash(cdata[..1]);
      var publicKeyInput := cdata[1..33];
      publicKey := ShowHex(publicKeyInput, 68);
      dev.UpdateHash(publicKeyInput);
      KeySlices(cdata);
      publicKeyListLength := publicKeyListLength - 1;
      if publicKeyListLength == 0 {
        state := TX_UPDATE_AUTHORIZATIONS_ACCESS_STRUCTURE_SIZE;
      }
      dev.UxFlowInit([Continue("Public key", publicKey)]);
      r := Ok(Await(Proceed));
      progress := Accept(kind, progress, packet).value;
    }

    method HandleSize(packet: Packet) returns (r: Outcome<Reply>)
      requires Valid() && progress.stage.Size? && packet.p1 == P1_ACCESS_STRUCTURE_INITIAL && packet.p2 <= 2
      modifies this, dev
      ensures Handled(old(kind), old(progress), packet, r)
    {
      hide Rendered, Transcript, VersionOf;
      SizeOk(kind, progress, packet);
      var lastAuthType := StructureCount(authsVersion) - 1;
      if authorizationType > lastAuthType {
        // Never the case: the sign screen has been shown instead.
        assert false;
      }
      hide ProgressOk, Structures;
      dev.UpdateHash(packet.data[..2]);
      accessStructureSize := U2BE(packet.data, 0);
      state := TX_UPDATE_AUTHORIZATIONS_ACCESS_STRUCTURE_INDEX;
      r := Ok(Success);
      progress := Accept(kind, progress, packet).value;
    }

    /** The number of indices in the packet, and the copy of the packet. */
    method LoadIndices(cdata: Cdata, dataLength: byte)
      requires buffer.Length == 255 && dataLength % 2 == 0
      modifies this`processedCount, this`bufferPointer, buffer
      ensures processedCount == |Pieces(cdata, dataLength)|
      ensures bufferPointer == 0 && InBuffer(Pieces(cdata, dataLength), buffer[..], 0)
    {
      hide InBuffer;
      bufferPointer := 0;
      processedCount := dataLength / 2;
      forall i | 0 <= i < dataLength {
        buffer[i] := cdata[i];
      }
      PiecesInBuffer(cdata, dataLength, buffer[..]);
    }

    method HandleIndices(packet: Packet) returns (r: Outcome<Reply>)
      requires Valid() && progress.stage.Indices? && packet.p1 == P1_ACCESS_STRUCTURE && packet.p2 <= 2
      modifies this, dev, buffer
      ensures Handled(old(kind), old(progress), packet, r)
    {
      var Packet(_, _, cdata, dataLength) := packet;
      if dataLength % 2 == 1 {
        return Throw(InvalidTransaction);
      }
      LoadOk(kind, progress, cdata, dataLength);
      hide Rendered, Transcript, VersionOf, ProgressOk, LoadedFlows, Loaded, InBuffer, Pieces, Structures, NextIndex,
          Valid;
      dev.UpdateHash(cdata[..dataLength]);
      LoadIndices(cdata, dataLength);
      progress := progress.(queue := Pieces(cdata, dataLength));
      r := ProcessKeyIndices();
    }

    method HandleThreshold(packet: Packet) returns (r: Outcome<Reply>)
      requires Valid() && progress.stage.Threshold? && packet.p1 == P1_ACCESS_STRUCTURE_THRESHOLD && packet.p2 <= 2
      modifies this, dev
      ensures Handled(old(kind), old(progress), packet, r)
    {
      hide Rendered, Transcript, VersionOf, Dec;
      ThresholdOk(kind, progress, packet);
      hide ProgressOk, Structures;
      var threshold := U2BE(packet.data, 0);
      dev.UpdateHash(packet.data[..2]);
      assert U2BE(packet.data[..2], 0) == threshold;
      U16Digits(threshold);
      var text := ShowNumber(6, threshold);
      displayKeyIndex := text.value;
      title := "Threshold";
      dev.UxFlowInit([Continue(title, displayKeyIndex)]);
      r := Ok(Await(Callback.ProcessThreshold));
      progress := Accept(kind, progress, packet).value;
    }

    /** handleSignUpdateAuthorizations */
    method HandleSignUpdateAuthorizations(packet: Packet, updateType: byte,
        isInitialCall: bool) returns (r: Outcome<Reply>)
      requires isInitialCall ==> dev.shown == [] && buffer.Length == 255
      requires !isInitialCall ==>
        && Valid() && kind == updateType
        && !progress.stage.IndexShown? && !progress.stage.ThresholdShown? && !progress.stage.Done?
      modifies this, dev, buffer
      ensures Handled(updateType, if isInitialCall then BEGIN else old(progress), packet, r)
    {
      hide Rendered, Transcript, VersionOf, Within, AcceptStart, NextIndex, HeadOk;
      if packet.p2 > 2 {
        return Throw(InvalidParam);
      }
      if isInitialCall {
        state := TX_UPDATE_AUTHORIZATIONS_INITIAL;
        kind, progress := updateType, BEGIN;
        NothingYet(updateType, BEGIN);
      }
      var p1 := packet.p1;
      if p1 == P1_INITIAL && state == TX_UPDATE_AUTHORIZATIONS_INITIAL {
        r := HandleInitial(packet, updateType);
      } else if p1 == P1_PUBLIC_KEY && state == TX_UPDATE_AUTHORIZATIONS_PUBLIC_KEY && publicKeyListLength > 0 {
        r := HandlePublicKey(packet);
      } else if p1 == P1_ACCESS_STRUCTURE_INITIAL && state == TX_UPDATE_AUTHORIZATIONS_ACCESS_STRUCTURE_SIZE {
        r := HandleSize(packet);
      } else if p1 == P1_ACCESS_STRUCTURE && state == TX_UPDATE_AUTHORIZATIONS_ACCESS_STRUCTURE_INDEX {
        r := HandleIndices(packet);
      } else if p1 == P1_ACCESS_STRUCTURE_THRESHOLD && state == TX_UPDATE_AUTHORIZATIONS_ACCESS_STRUCTURE_THRESHOLD {
        r := HandleThreshold(packet);
      } else {
        r := Throw(InvalidState);
      }
    }
  }

  lemma NothingYet(updateType: byte, p: Progress)
    requires p == BEGIN
    ensures ProgressOk(updateType, p) && Transcript(p) == [] && Rendered(updateType, p) == []
  {
  }

  lemma BoundedStructures(updateType: byte, p: Progress)
    requires ProgressOk(updateType, p) && p.stage.ThresholdShown?
    ensures |p.structures| < 15 && VersionOf(updateType, p.prefix).Some?
  {
  }

  lemma KeySlices(data: Cdata)
    ensures data[..1] + data[1..33] == data[..33] && data[..33][1..] == data[1..33]
  {
  }

  lemma U16Digits(n: u16)
    ensures |Dec(n)| <= 5
  {
    NumberHelpers.PowersOfTen();
    DecShort(n, 5);
  }
}
