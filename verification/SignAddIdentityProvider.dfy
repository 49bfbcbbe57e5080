/** governance-app/src/signAddIdentityProvider.c and descriptionView.c */
module SignAddIdentityProvider {
  import opened Bytes
  import opened Lists
  import opened Device
  import opened DecimalText
  import opened PaginatedHex
  import opened Displays
  import opened Screens
  import NumberHelpers
  import opened IdentityProviderTx

  datatype State =
    | TX_ADD_IDENTITY_PROVIDER_INITIAL | TX_ADD_IDENTITY_PROVIDER_DESCRIPTION_LENGTH
    | TX_ADD_IDENTITY_PROVIDER_DESCRIPTION | TX_ADD_IDENTITY_PROVIDER_VERIFY_KEY | TX_ADD_IDENTITY_PROVIDER_CDI_VERIFY_KEY

  datatype DescriptionState = DESC_NAME | DESC_URL | DESC_DESCRIPTION

  function DescriptionOf(i: nat): (r: DescriptionState) {
    if i == 0 then DESC_NAME else if i == 1 then DESC_URL else DESC_DESCRIPTION
  }

  /** The values of the enumeration. */
  function Number(s: DescriptionState): (r: nat) {
    match s case DESC_NAME => 0 case DESC_URL => 1 case DESC_DESCRIPTION => 2
  }

  class Context {
    const dev: Globals
    var payloadLength: u32
    /** What the second hash has absorbed. */
    var keyHash: bytes
    var verifyKeyHash: string
    var verifyKeyLength: u32
    var ipIdentity: string
    var cdiVerifyKey: string
    var state: State
    // The description context.
    var textLength: u32
    var header: string
    const text: array<char>
    /** What lies behind text, by the number of descriptionState. */
    const behind: Behind
    var descriptionState: DescriptionState
    ghost var progress: Progress

    constructor (dev: Globals, behind: Behind)
      ensures this.dev == dev && this.behind == behind && text.Length == 255 && fresh(text)
    {
      this.dev, this.behind := dev, behind;
      text := new char[255];
      progress := BEGIN;
    }

    /** The state while a description is received, and when its last piece has been. */
    ghost predicate DescriptionValid()
      reads this
    {
      var last := |progress.parts| == 2;
      && textLength == progress.length - |Flat(progress.pieces)|
      && descriptionState == DescriptionOf(|progress.parts|)
      && (if textLength > 0 then state == TX_ADD_IDENTITY_PROVIDER_DESCRIPTION
          else if last then state == TX_ADD_IDENTITY_PROVIDER_VERIFY_KEY && verifyKeyLength == Sub32(payloadLength, 32)
          else state == TX_ADD_IDENTITY_PROVIDER_DESCRIPTION_LENGTH)
    }

    ghost predicate StageValid()
      reads this
    {
      match progress.stage
      case Start => state == TX_ADD_IDENTITY_PROVIDER_INITIAL
      case Length =>
        state == TX_ADD_IDENTITY_PROVIDER_DESCRIPTION_LENGTH && descriptionState == DescriptionOf(|progress.parts|)
      case Text => DescriptionValid()
      case TextShown => DescriptionValid()
      case Key => state == TX_ADD_IDENTITY_PROVIDER_VERIFY_KEY && verifyKeyLength == Sub32(payloadLength, 32)
      case Cdi => state == TX_ADD_IDENTITY_PROVIDER_CDI_VERIFY_KEY
      case Done => true
    }

    ghost predicate Valid()
      reads this, dev
    {
      && ProgressOk(progress) && StageValid() && text.Length == 255
      && (!progress.stage.Start?
          ==> dev.hash == Transcript(progress) && payloadLength == Left(progress) && keyHash == progress.key)
      && dev.shown == Rendered(dev.sha, behind, progress)
    }

    // ---------------------------------------------------------------- descriptions

    /** checkIfDescriptionPartIsDoneIdentityProvider */
    method CheckIfDescriptionPartIsDone()
      modifies this`state, this`verifyKeyLength
      ensures textLength > 0 ==> state == old(state) && verifyKeyLength == old(verifyKeyLength)
      ensures textLength == 0 ==>
        if descriptionState == DESC_DESCRIPTION then
          state == TX_ADD_IDENTITY_PROVIDER_VERIFY_KEY && verifyKeyLength == Sub32(payloadLength, 32)
        else state == TX_ADD_IDENTITY_PROVIDER_DESCRIPTION_LENGTH
    {
      if textLength == 0 {
        match descriptionState {
          case DESC_DESCRIPTION =>
            state := TX_ADD_IDENTITY_PROVIDER_VERIFY_KEY;
            verifyKeyLength := Sub32(payloadLength, CDI_VERIFY_KEY_LENGTH);
          case DESC_NAME => state := TX_ADD_IDENTITY_PROVIDER_DESCRIPTION_LENGTH;
          case DESC_URL => state := TX_ADD_IDENTITY_PROVIDER_DESCRIPTION_LENGTH;
        }
      }
    }

    /** handleDescriptionPart: replies to the host. */
    method HandleDescriptionPart() returns (r: Outcome<Reply>)
      modifies this`descriptionState
      ensures r == Ok(Success)
      ensures descriptionState ==
        if textLength == 0 then (if old(descriptionState) == DESC_NAME then DESC_URL else DESC_DESCRIPTION)
        else old(descriptionState)
    {
      if textLength == 0 {
        match descriptionState {
          case DESC_NAME => descriptionState := DESC_URL;
          case DESC_URL => descriptionState := DESC_DESCRIPTION;
          case DESC_DESCRIPTION => descriptionState := DESC_DESCRIPTION;
        }
      }
      r := Ok(Success);
    }

    /** displayDescriptionPart */
    method DisplayDescriptionPart(ghost i: nat)
      requires descriptionState == DescriptionOf(i)
      modifies this`header, dev`shown, dev`display
      ensures dev.shown == old(dev.shown)
          + [[Continue(PartName(i), CText(text[..] + behind(Number(descriptionState))))]]
    {
      match descriptionState {
        case DESC_NAME => header := "Name";
        case DESC_URL => header := "URL";
        case DESC_DESCRIPTION => header := "Description";
      }
      dev.UxFlowInit([Continue(header, CText(text[..] + behind(Number(descriptionState))))]);
    }

    // ---------------------------------------------------------------- events

    ghost predicate Taken(p: Progress, e: Event, r: Outcome<Reply>)
      reads this, dev
    {
      match Take(p, e)
      case Throw(e) => r == Throw(e)
      case Ok(q) =>
        && Valid() && progress == q
        && r == Ok(Answer(p, q))
    }

    /** The payload length and the number of the provider. */
    method ReadNumbers(cdata: Cdata, at: nat) returns (r: Outcome<()>)
      requires at + 8 <= 264
      modifies this`payloadLength, this`ipIdentity, dev`hash
      ensures r == if |Dec(U4BE(cdata, at + 4))| > 4 then Throw(BufferOverflow) else Ok(())
      ensures r.Ok? ==>
        && payloadLength == Sub32(U4BE(cdata, at), 4) && ipIdentity == Dec(U4BE(cdata, at + 4))
        && dev.hash == old(dev.hash) + cdata[at..at + 4] + cdata[at + 4..at + 8]
    {
      hide Dec, U4BE;
      dev.UpdateHash(cdata[at..at + 4]);
      payloadLength := U4BE(cdata, at);
      var identity := U4BE(cdata, at + 4);
      dev.UpdateHash(cdata[at + 4..at + 8]);
      ipIdentity :- ShowNumber(5, identity);
      payloadLength := Sub32(payloadLength, 4);
      r := Ok(());
    }

    method HandleInitial(packet: Packet) returns (r: Outcome<Reply>)
      requires Valid() && progress.stage.Start? && packet.p1 == P1_INITIAL
      modifies this, dev
      ensures Taken(old(progress), Host(packet), r)
    {
      NothingYet(dev.sha, behind, progress);
      assert Take(progress, Host(packet)) == AcceptStart(packet.data);
      hide Take, Payload, Left, Transcript, Rendered, ProgressOk, Dec, U4BE, AcceptStart, Sub32, HeaderAt, PathLength;
      var cdata := packet.data;
      StartTaken(dev.sha, behind, cdata);
      keyHash := [];
      var start :- dev.StartUpdate(cdata, UPDATE_TYPE_ADD_IDENTITY_PROVIDER);
      var at := start + 29;
      var numbers :- ReadNumbers(cdata, at);
      r := AwaitDescriptions(AcceptStart(cdata).value);
    }

    /** Shows the number of the provider; progress becomes q. */
    method AwaitDescriptions(ghost q: Progress) returns (r: Outcome<Reply>)
      requires ProgressOk(q) && q.stage.Length? && |q.parts| == 0 && q.key == [] && keyHash == [] && dev.shown == []
      requires dev.hash == Transcript(q) && payloadLength == Left(q) && text.Length == 255
      requires Rendered(dev.sha, behind, q)
            == [[REVIEW, Show("Update type", "Add identity provider"), Continue("Identity provider", ipIdentity)]]
      modifies this`state, this`descriptionState, this`progress, dev`shown, dev`display
      ensures r == Ok(Await(Proceed)) && Valid() && progress == q
    {
      hide Left, Transcript, Rendered, ProgressOk;
      state := TX_ADD_IDENTITY_PROVIDER_DESCRIPTION_LENGTH;
      descriptionState := DESC_NAME;
      dev.UxFlowInit([REVIEW, Show("Update type", "Add identity provider"), Continue("Identity provider", ipIdentity)]);
      r := Ok(Await(Proceed));
      progress := q;
    }

    method HandleLength(packet: Packet) returns (r: Outcome<Reply>)
      requires Valid() && progress.stage.Length? && packet.p1 == P1_DESCRIPTION_LENGTH
      modifies this, dev
      ensures Taken(old(progress), Host(packet), r)
    {
      hide Take, Left, Transcript, Rendered, ProgressOk, U4BE, Completed, Flat, Sub32, PieceStep, CText, Payload;
      LengthTaken(dev.sha, behind, progress, packet);
      ghost var q := Take(progress, Host(packet)).value;
      textLength := U4BE(packet.data, 0);
      dev.UpdateHash(packet.data[..4]);
      payloadLength := Sub32(payloadLength, 4);
      state := TX_ADD_IDENTITY_PROVIDER_DESCRIPTION;
      CheckIfDescriptionPartIsDone();
      r := HandleDescriptionPart();
      progress := q;
    }

    /** The piece, and a terminator if there is room for it. */
    method CopyPiece(piece: bytes, ghost after: string)
      requires text.Length == TEXT_SIZE && |piece| <= TEXT_SIZE
      modifies text
      ensures CText(text[..] + after) == PieceText(after, piece)
    {
      hide CText;
      forall i | 0 <= i < |piece| {
        text[i] := piece[i] as char;
      }
      assert text[..|piece|] == Chars(piece);
      if |piece| < TEXT_SIZE {
        text[|piece|] := NumberHelpers.NUL;
        var rest := text[|piece| + 1..];
        assert text[..] + after == Chars(piece) + [NumberHelpers.NUL] + (rest + after);
        Terminated(Chars(piece), rest + after);
      } else {
        assert text[..] == Chars(piece);
      }
    }

    /** Hashes and shows a piece of the i-th description. */
    method ReceivePiece(piece: bytes, ghost i: nat)
      requires text.Length == 255 && |piece| <= textLength && |piece| <= 255
      requires i < 3 && descriptionState == DescriptionOf(i)
      modifies text, this`header, this`textLength, this`payloadLength, this`state, this`verifyKeyLength, dev
      ensures dev.hash == old(dev.hash) + piece && payloadLength == Sub32(old(payloadLength), |piece|)
      ensures dev.sender == old(dev.sender) && dev.path == old(dev.path)
      ensures textLength == old(textLength) - |piece|
      ensures textLength > 0 ==> state == old(state)
      ensures textLength == 0 ==>
        if descriptionState == DESC_DESCRIPTION then
          state == TX_ADD_IDENTITY_PROVIDER_VERIFY_KEY && verifyKeyLength == Sub32(payloadLength, 32)
        else state == TX_ADD_IDENTITY_PROVIDER_DESCRIPTION_LENGTH
      ensures dev.shown == old(dev.shown) + [[PieceStep(behind, i, piece)]]
    {
      hide Sub32, Chars, PartName, CText;
      dev.UpdateHash(piece);
      CopyPiece(piece, behind(Number(descriptionState)));
      payloadLength := Sub32(payloadLength, |piece|);
      textLength := textLength - |piece|;
      CheckIfDescriptionPartIsDone();
      DisplayDescriptionPart(i);
    }

    /** A piece that is not too long. */
    method TakePiece(piece: bytes, ghost q: Progress) returns (r: Outcome<Reply>)
      requires text.Length == 255 && |piece| <= textLength && |piece| <= 255
      requires ProgressOk(q) && q.stage.TextShown? && |q.parts| < 3 && descriptionState == DescriptionOf(|q.parts|)
      requires textLength - |piece| == q.length - |Flat(q.pieces)|
      requires (textLength > 0 ==> state == TX_ADD_IDENTITY_PROVIDER_DESCRIPTION) && keyHash == q.key
      requires dev.hash + piece == Transcript(q) && Sub32(payloadLength, |piece|) == Left(q)
      requires Rendered(dev.sha, behind, q) == dev.shown + [[PieceStep(behind, |q.parts|, piece)]]
      modifies this, text, dev
      ensures Valid() && progress == q && r == Ok(Await(Callback.HandleDescriptionPart))
    {
      hide Take, Left, Transcript, Rendered, ProgressOk, Flat, Sub32, PieceStep, CText, Payload, PartName, TextFlows;
      ReceivePiece(piece, |q.parts|);
      r := Ok(Await(Callback.HandleDescriptionPart));
      progress := q;
    }

    method HandleText(packet: Packet) returns (r: Outcome<Reply>)
      requires Valid() && progress.stage.Text? && packet.p1 == P1_DESCRIPTION
      modifies this, text, dev
      ensures Taken(old(progress), Host(packet), r)
    {
      hide Take, Left, Transcript, Rendered, ProgressOk, Flat, Sub32, PieceStep, CText, Payload, PartName, TextFlows;
      TextTaken(dev.sha, behind, progress, packet);
      if textLength < packet.length {
        return Throw(InvalidState);
      }
      r := TakePiece(packet.data[..packet.length], Take(progress, Host(packet)).value);
    }

    /** The user confirms a piece of a description. */
    method ConfirmText() returns (r: Outcome<Reply>)
      requires Valid() && progress.stage.TextShown?
      modifies this
      ensures Taken(old(progress), Confirm, r)
    {
      hide Take, Left, Transcript, Rendered, ProgressOk, Flat, Sub32;
      ConfirmTaken(dev.sha, behind, progress);
      r := HandleDescriptionPart();
      progress := Take(progress, Confirm).value;
    }

    method HandleVerifyKey(packet: Packet) returns (r: Outcome<Reply>)
      requires Valid() && progress.stage.Key? && packet.p1 == P1_VERIFY_KEY
      modifies this, dev
      ensures Taken(old(progress), Host(packet), r)
    {
      hide Take, Left, Transcript, Rendered, ProgressOk, PagedHex, Sub32;
      KeyTaken(dev.sha, behind, progress, packet);
      KeyCounters(payloadLength, packet.length);
      var Packet(_, _, cdata, dataLength) := packet;
      dev.UpdateHash(cdata[..dataLength]);
      keyHash := keyHash + cdata[..dataLength];
      verifyKeyLength := Sub32(verifyKeyLength, dataLength);
      payloadLength := Sub32(payloadLength, dataLength);
      // An unsigned counter: the source's test for a negative one never holds.
      if verifyKeyLength == 0 {
        var hashBytes := dev.sha(keyHash);
        verifyKeyHash := ShowHex(hashBytes, 68);
        state := TX_ADD_IDENTITY_PROVIDER_CDI_VERIFY_KEY;
        dev.UxFlowInit([Continue("Verify Key Hash", verifyKeyHash)]);
        r := Ok(Await(Proceed));
      } else {
        r := Ok(Success);
      }
      progress := Take(progress, Host(packet)).value;
    }

    method HandleCdiVerifyKey(packet: Packet) returns (r: Outcome<Reply>)
      requires Valid() && progress.stage.Cdi? && packet.p1 == P1_CDI_VERIFY_KEY
      modifies this, dev
      ensures Taken(old(progress), Host(packet), r)
    {
      hide Take, Left, Transcript, Rendered, ProgressOk, PagedHex;
      CdiTaken(dev.sha, behind, progress, packet);
      var Packet(_, _, cdata, dataLength) := packet;
      dev.UpdateHash(cdata[..32]);
      cdiVerifyKey := ShowHex(cdata[..32], 68);
      payloadLength := Sub32(payloadLength, CDI_VERIFY_KEY_LENGTH);
      if dataLength != CDI_VERIFY_KEY_LENGTH || payloadLength != 0 {
        return Throw(InvalidState);
      }
      dev.UxFlowInit([Show("CDI Verify key", cdiVerifyKey), Sign, Decline]);
      r := Ok(Await(Ask));
      progress := Take(progress, Host(packet)).value;
    }

    /** handleSignAddIdentityProvider */
    method HandleSignAddIdentityProvider(packet: Packet, isInitialCall: bool) returns (r: Outcome<Reply>)
      requires isInitialCall || (Valid() && !progress.stage.TextShown? && !progress.stage.Done?)
      requires isInitialCall ==> dev.shown == [] && text.Length == 255
      modifies this, text, dev
      ensures Taken(if isInitialCall then BEGIN else old(progress), Host(packet), r)
    {
      hide Transcript, Left, AcceptStart, Completed, HeadOk, Flat;
      if isInitialCall {
        state := TX_ADD_IDENTITY_PROVIDER_INITIAL;
        progress := BEGIN;
        NothingYet(dev.sha, behind, progress);
      }
      hide Rendered;
      var p1 := packet.p1;
      if p1 == P1_INITIAL && state == TX_ADD_IDENTITY_PROVIDER_INITIAL {
        r := HandleInitial(packet);
      } else if p1 == P1_DESCRIPTION_LENGTH && state == TX_ADD_IDENTITY_PROVIDER_DESCRIPTION_LENGTH {
        r := HandleLength(packet);
      } else if p1 == P1_DESCRIPTION && state == TX_ADD_IDENTITY_PROVIDER_DESCRIPTION {
        r := HandleText(packet);
      } else if p1 == P1_VERIFY_KEY && state == TX_ADD_IDENTITY_PROVIDER_VERIFY_KEY {
        r := HandleVerifyKey(packet);
      } else if p1 == P1_CDI_VERIFY_KEY && state == TX_ADD_IDENTITY_PROVIDER_CDI_VERIFY_KEY {
        r := HandleCdiVerifyKey(packet);
      } else {
        r := Throw(InvalidState);
      }
    }
  }

  /** The first packet, and all it does. */
  lemma StartTaken(sha: Sha256, behind: Behind, data: Cdata)
    ensures match HeaderAt(data, 28, UPDATE_TYPE_ADD_IDENTITY_PROVIDER)
            case Throw(e) => AcceptStart(data) == Throw(e)
            case Ok(_) =>
              var at := PathLength(data).value;
              var number := Dec(U4BE(data, at + 33));
              if |number| > 4 then AcceptStart(data) == Throw(BufferOverflow)
              else
                && AcceptStart(data).Ok?
                && var q := AcceptStart(data).value;
                   && ProgressOk(q) && q.stage.Length? && |q.parts| == 0 && q.key == []
                   && Transcript(q) == data[at..at + 29] + data[at + 29..at + 33] + data[at + 33..at + 37]
                   && Left(q) == Sub32(U4BE(data, at + 29), 4)
                   && Rendered(sha, behind, q) == [[REVIEW, Show("Update type", "Add identity provider"),
                       Continue("Identity provider", number)]]
  {
    if PathLength(data).Ok? { SameNumber4(data, PathLength(data).value + 33); }
    hide Payload, Transcript, Rendered, Dec, Put4, U4BE, Sub32;
    if AcceptStart(data).Ok? {
      StartExtends(data);
      StartShown(sha, behind, AcceptStart(data).value);
      UpdateSlices(data, PathLength(data).value);
      FirstLeft(data);
    }
  }

  lemma NothingYet(sha: Sha256, behind: Behind, p: Progress)
    requires p == BEGIN
    ensures ProgressOk(p) && Transcript(p) == [] && Rendered(sha, behind, p) == []
  {
  }

  lemma SameNumber4(data: Cdata, at: nat)
    requires at + 4 <= 264
    ensures U4BE(data[at..at + 4], 0) == U4BE(data, at)
  {
  }

  lemma UpdateSlices(data: Cdata, at: nat)
    requires at + 37 <= 264
    ensures data[at..at + 29] + data[at + 29..at + 33] + data[at + 33..at + 37] == data[at..at + 37]
  {
  }

  lemma FirstLeft(data: Cdata)
    requires AcceptStart(data).Ok?
    ensures PathLength(data).Ok? && Left(AcceptStart(data).value) == Sub32(U4BE(data, PathLength(data).value + 29), 4)
  {
    hide U4BE, NumberFits;
  }

  /** Both counters go down together: the key is complete when 32 bytes of the payload are left. */
  lemma KeyCounters(left: u32, n: byte)
    ensures Sub32(Sub32(left, 32), n) == Sub32(Sub32(left, n), 32)
    ensures Sub32(Sub32(left, n), 32) == 0 <==> Sub32(left, n) == 32
  {
  }

  lemma LengthTaken(sha: Sha256, behind: Behind, p: Progress, packet: Packet)
    requires ProgressOk(p) && p.stage.Length? && packet.p1 == P1_DESCRIPTION_LENGTH
    ensures Take(p, Host(packet)).Ok?
    ensures var q, n := Take(p, Host(packet)).value, U4BE(packet.data, 0);
            && ProgressOk(q) && q.key == p.key && |p.parts| < 3
            && Transcript(q) == Transcript(p) + packet.data[..4] && Left(q) == Sub32(Left(p), 4)
            && Rendered(sha, behind, q) == Rendered(sha, behind, p)
            && (n > 0 ==> q.stage.Text? && q.parts == p.parts && q.length == n && Flat(q.pieces) == [])
            && (n == 0 ==> |q.parts| == |p.parts| + 1 && q.stage == if |p.parts| == 2 then Key else Length)
  {
    hide Put4, NumberFits, U4BE, StartFlow;
    LengthExtends(p, packet);
    var q := p.(length := U4BE(packet.data, 0), stage := Text);
    CompletedFlows(behind, q);
    assert TextFlows(behind, q) == TextFlows(behind, p);
    hide Payload, Transcript, TextFlows, HeadOk, Left;
    LeftDrops(p, Take(p, Host(packet)).value, packet.data[..4]);
  }

  lemma TextTaken(sha: Sha256, behind: Behind, p: Progress, packet: Packet)
    requires ProgressOk(p) && p.stage.Text? && packet.p1 == P1_DESCRIPTION
    ensures |Flat(p.pieces)| + packet.length > p.length ==> Take(p, Host(packet)) == Throw(InvalidState)
    ensures |Flat(p.pieces)| + packet.length <= p.length ==>
      && Take(p, Host(packet)).Ok?
      && var q, piece := Take(p, Host(packet)).value, packet.data[..packet.length];
         && ProgressOk(q) && q.stage.TextShown? && q.parts == p.parts && q.length == p.length && q.key == p.key
         && |Flat(q.pieces)| == |Flat(p.pieces)| + packet.length && |p.parts| < 3
         && Transcript(q) == Transcript(p) + piece && Left(q) == Sub32(Left(p), packet.length)
         && Rendered(sha, behind, q) == Rendered(sha, behind, p) + [[PieceStep(behind, |p.parts|, piece)]]
  {
    hide Payload, StartFlow, PieceFlows, PartsFlows, PieceStep;
    if |Flat(p.pieces)| + packet.length <= p.length {
      TextExtends(p, packet);
      FlatAppend(p.pieces, packet.data[..packet.length]);
      PieceShown(behind, p, packet.data[..packet.length]);
      LeftDrops(p, Take(p, Host(packet)).value, packet.data[..packet.length]);
    }
  }

  lemma ConfirmTaken(sha: Sha256, behind: Behind, p: Progress)
    requires ProgressOk(p) && p.stage.TextShown?
    ensures Take(p, Confirm).Ok?
    ensures var q := Take(p, Confirm).value;
            && ProgressOk(q) && q.key == p.key && Transcript(q) == Transcript(p) && Left(q) == Left(p)
            && Rendered(sha, behind, q) == Rendered(sha, behind, p) && |p.parts| < 3 && |Flat(p.pieces)| <= p.length
            && (if |Flat(p.pieces)| == p.length
                then |q.parts| == |p.parts| + 1 && q.stage == (if |p.parts| == 2 then Key else Length)
                else q == p.(stage := Text))
  {
    hide TextFlows, Payload, Left, Transcript, Flat;
    if |Flat(p.pieces)| == p.length {
      CompletedFlows(behind, p);
      CompletedPayload(p);
    } else {
      StillText(behind, p);
    }
  }

  lemma StillText(behind: Behind, p: Progress)
    requires ProgressOk(p) && p.stage.TextShown? && |Flat(p.pieces)| < p.length
    ensures var q := p.(stage := Text);
            && ProgressOk(q) && Transcript(q) == Transcript(p) && Left(q) == Left(p)
            && TextFlows(behind, q) == TextFlows(behind, p)
  {
    assert Payload(p.(stage := Text)) == Payload(p);
  }

  lemma CompletedPayload(p: Progress)
    requires ProgressOk(p) && p.stage.TextShown? && |Flat(p.pieces)| == p.length
    ensures ProgressOk(Completed(p)) && Transcript(Completed(p)) == Transcript(p) && Left(Completed(p)) == Left(p)
  {
    hide Put4, NumberFits;
    CompletedSame(p);
  }

  lemma KeyTaken(sha: Sha256, behind: Behind, p: Progress, packet: Packet)
    requires ProgressOk(p) && p.stage.Key? && packet.p1 == P1_VERIFY_KEY
    ensures Take(p, Host(packet)).Ok?
    ensures var q, piece := Take(p, Host(packet)).value, packet.data[..packet.length];
            && ProgressOk(q) && q.key == p.key + piece
            && Transcript(q) == Transcript(p) + piece && Left(q) == Sub32(Left(p), packet.length)
            && q.stage == (if Left(q) == 32 then Cdi else Key)
            && Rendered(sha, behind, q) == Rendered(sha, behind, p)
                + (if q.stage.Cdi? then [[Continue("Verify Key Hash", PagedHex(sha(q.key)))]] else [])
  {
    hide Payload, Transcript, HeadOk, Left, PagedHex, Rendered;
    KeyExtends(p, packet);
    var q := Take(p, Host(packet)).value;
    SameLeft(p.(key := q.key), q);
    LeftDrops(p, q, packet.data[..packet.length]);
    KeyShown(sha, behind, p, q);
  }

  lemma KeyShown(sha: Sha256, behind: Behind, p: Progress, q: Progress)
    requires ProgressOk(p) && ProgressOk(q) && p.stage.Key?
    requires q == p.(key := q.key, stage := q.stage) && (q.stage.Cdi? || q.stage.Key?)
    ensures Rendered(sha, behind, q) == Rendered(sha, behind, p)
                + (if q.stage.Cdi? then [[Continue("Verify Key Hash", PagedHex(sha(q.key)))]] else [])
  {
    assert TextFlows(behind, q) == TextFlows(behind, p);
    hide TextFlows, HeadOk, PagedHex;
    assert TextFlows(behind, p) + [] == TextFlows(behind, p);
  }

  lemma SameLeft(p: Progress, q: Progress)
    requires p.stage.Key? && q == p.(stage := q.stage) && (q.stage.Cdi? || q.stage.Key?)
    ensures Left(p) == Left(q)
  {
  }

  lemma CdiTaken(sha: Sha256, behind: Behind, p: Progress, packet: Packet)
    requires ProgressOk(p) && p.stage.Cdi? && packet.p1 == P1_CDI_VERIFY_KEY
    ensures Left(p) == 32
    ensures Take(p, Host(packet)) == if packet.length == 32 then Ok(p.(cdi := packet.data[..32], stage := Done))
        else Throw(InvalidState)
    ensures packet.length == 32 ==>
      var q := Take(p, Host(packet)).value;
      && ProgressOk(q) && Transcript(q) == Transcript(p) + packet.data[..32] && Left(q) == 0
      && Rendered(sha, behind, q)
         == Rendered(sha, behind, p) + [[Show("CDI Verify key", PagedHex(packet.data[..32])), Sign, Decline]]
  {
    hide Put4, NumberFits;
    LengthCheckNeverFails(p, packet);
    if packet.length == 32 {
      KeyExtends(p, packet);
      assert TextFlows(behind, Take(p, Host(packet)).value) == TextFlows(behind, p);
      hide Payload, Transcript, TextFlows, HeadOk, PagedHex;
    }
  }
}
