/** The add-identity-provider update: serialization, screens, and which packets and presses may come
    next, with the payload length counted down in 32 bits. */
module IdentityProviderTx {
  import opened Bytes
  import opened Lists
  import opened Device
  import opened DecimalText
  import opened PaginatedHex
  import opened Screens
  import NumberHelpers

  const UPDATE_TYPE_ADD_IDENTITY_PROVIDER: byte := 13
  const U32 := 0x1_0000_0000
  const CDI_VERIFY_KEY_LENGTH := 32

  const P1_INITIAL: byte := 0x00
  const P1_DESCRIPTION_LENGTH: byte := 0x01
  const P1_DESCRIPTION: byte := 0x02
  const P1_VERIFY_KEY: byte := 0x03
  const P1_CDI_VERIFY_KEY: byte := 0x04

  // ------------------------------------------------------------------ what has been received

  /** TextShown waits for the user, every other stage but Done for the host. */
  datatype Stage = Start | Length | Text | TextShown | Key | Cdi | Done

  /** parts are the complete descriptions, each with the pieces it arrived in; pieces and length belong
      to the description that is being received. */
  datatype Progress = Progress(
    header: bytes, declared: u32, ip: bytes, parts: seq<seq<bytes>>, length: u32, pieces: seq<bytes>,
    key: bytes, cdi: bytes, stage: Stage)

  const BEGIN := Progress([], 0, [], [], 0, [], [], [], Start)

  function Part(pieces: seq<bytes>): (r: bytes) {
    (if |Flat(pieces)| < U32 then Put4(|Flat(pieces)|) else []) + Flat(pieces)
  }

  function PartsBytes(parts: seq<seq<bytes>>): (r: bytes) {
    if parts == [] then [] else PartsBytes(parts[..|parts| - 1]) + Part(parts[|parts| - 1])
  }

  /** The payload so far. */
  function Payload(p: Progress): (r: bytes) {
    p.ip + PartsBytes(p.parts) + (if p.stage.Text? || p.stage.TextShown? then Put4(p.length) + Flat(p.pieces) else [])
    + p.key + p.cdi
  }

  function Transcript(p: Progress): (r: bytes) {
    if p.stage.Start? then [] else p.header + Put4(p.declared) + Payload(p)
  }

  /** What the device still expects, as it counts: modulo 2^32. */
  function Left(p: Progress): (r: u32) {
    (p.declared - |Payload(p)|) % U32
  }

  ghost predicate Parts(parts: seq<seq<bytes>>) {
    forall i | 0 <= i < |parts| :: |Flat(parts[i])| < U32 && Chunks(parts[i])
  }

  /** The provider's number has to fit into four digits. */
  predicate NumberFits(ip: bytes)
    requires |ip| == 4
  {
    |Dec(U4BE(ip, 0))| <= 4
  }

  ghost predicate HeadOk(p: Progress) {
    && |p.header| == 29 && p.header[28] == UPDATE_TYPE_ADD_IDENTITY_PROVIDER && |p.ip| == 4 && NumberFits(p.ip)
    && Parts(p.parts) && Chunks(p.pieces)
  }

  ghost predicate ProgressOk(p: Progress) {
    match p.stage
    case Start => p == BEGIN
    case Length => HeadOk(p) && |p.parts| < 3 && p.pieces == [] && p.length == 0 && p.key == [] && p.cdi == []
    case Text => HeadOk(p) && |p.parts| < 3 && |Flat(p.pieces)| < p.length && p.key == [] && p.cdi == []
    case TextShown => HeadOk(p) && |p.parts| < 3 && |Flat(p.pieces)| <= p.length && p.key == [] && p.cdi == []
    case Key => HeadOk(p) && |p.parts| == 3 && p.pieces == [] && p.length == 0 && p.cdi == []
    case Cdi =>
      HeadOk(p) && |p.parts| == 3 && p.pieces == [] && p.length == 0 && p.cdi == [] && Left(p) == CDI_VERIFY_KEY_LENGTH
    case Done => HeadOk(p) && |p.parts| == 3 && p.pieces == [] && p.length == 0 && |p.cdi| == 32 && Left(p) == 0
  }

  // ------------------------------------------------------------------ the screens

  function PartName(i: nat): (r: string) {
    if i == 0 then "Name" else if i == 1 then "URL" else "Description"
  }

  /** What lies behind the text buffer while the pieces of the i-th description are shown: it begins with
      descriptionState, or with the padding before it, so that it depends on i. */
  type Behind = nat -> string

  const TEXT_SIZE := 255

  /** A piece that fills the buffer gets no terminator. */
  function PieceText(behind: string, piece: bytes): (r: string) {
    if |piece| < TEXT_SIZE then CText(Chars(piece)) else CText(Chars(piece) + behind)
  }

  /** The step of a piece of the i-th description. */
  function PieceStep(behind: Behind, i: nat, piece: bytes): (r: Step) {
    Continue(PartName(i), PieceText(behind(i), piece))
  }

  ghost function PieceFlows(behind: Behind, i: nat, pieces: seq<bytes>): (r: seq<Flow>) {
    seq(|pieces|, k requires 0 <= k < |pieces| => [PieceStep(behind, i, pieces[k])])
  }

  ghost function PartsFlows(behind: Behind, parts: seq<seq<bytes>>): (r: seq<Flow>) {
    if parts == [] then []
    else PartsFlows(behind, parts[..|parts| - 1]) + PieceFlows(behind, |parts| - 1, parts[|parts| - 1])
  }

  ghost function StartFlow(ip: bytes): (r: Flow)
    requires |ip| == 4
  {
    [REVIEW, Show("Update type", "Add identity provider"), Continue("Identity provider", Dec(U4BE(ip, 0)))]
  }

  ghost function TextFlows(behind: Behind, p: Progress): (r: seq<Flow>)
    requires |p.ip| == 4
  {
    [StartFlow(p.ip)] + PartsFlows(behind, p.parts) + PieceFlows(behind, |p.parts|, p.pieces)
  }

  ghost function KeyFlow(sha: Sha256, key: bytes): (r: Flow) {
    [Continue("Verify Key Hash", PagedHex(sha(key)))]
  }

  ghost function FinishFlow(cdi: bytes): (r: Flow)
    requires |cdi| == 32
  {
    [Show("CDI Verify key", PagedHex(cdi)), Sign, Decline]
  }

  /** The number, every piece of every description under its name, the hash of the verify key, and
      the CDI key with the question to sign. */
  ghost function Rendered(sha: Sha256, behind: Behind, p: Progress): (r: seq<Flow>)
    requires ProgressOk(p)
  {
    match p.stage
    case Start => []
    case Cdi => TextFlows(behind, p) + [KeyFlow(sha, p.key)]
    case Done => TextFlows(behind, p) + [KeyFlow(sha, p.key)] + [FinishFlow(p.cdi)]
    case _ => TextFlows(behind, p)
  }

  // ------------------------------------------------------------------ what may come next

  function Completed(p: Progress): (r: Progress) {
    p.(parts := p.parts + [p.pieces], pieces := [], length := 0, stage := if |p.parts| == 2 then Key else Length)
  }

  /** handleDescriptionPart: the user confirms a piece of a description. */
  function Confirmed(p: Progress): (r: Progress) {
    if |Flat(p.pieces)| == p.length then Completed(p) else p.(stage := Text)
  }

  function AcceptStart(data: Cdata): (r: Outcome<Progress>) {
    var header :- HeaderAt(data, 28, UPDATE_TYPE_ADD_IDENTITY_PROVIDER);
    var at := PathLength(data).value + 29;
    var ip := data[at + 4..at + 8];
    if NumberFits(ip) then Ok(BEGIN.(header := header, declared := U4BE(data, at), ip := ip, stage := Length))
    else Throw(BufferOverflow)
  }

  function Accept(p: Progress, packet: Packet): (r: Outcome<Progress>)
    requires !p.stage.TextShown? && !p.stage.Done?
  {
    var Packet(p1, _, data, length) := packet;
    match p.stage
    case Start => if p1 == P1_INITIAL then AcceptStart(data) else Throw(InvalidState)
    case Length =>
      if p1 == P1_DESCRIPTION_LENGTH then
        var q := p.(length := U4BE(data, 0), stage := Text);
        Ok(if q.length == 0 then Completed(q) else q)
      else Throw(InvalidState)
    case Text =>
      if p1 == P1_DESCRIPTION && |Flat(p.pieces)| + length <= p.length then
        Ok(p.(pieces := p.pieces + [data[..length]], stage := TextShown))
      else Throw(InvalidState)
    case Key =>
      if p1 == P1_VERIFY_KEY then
        var q := p.(key := p.key + data[..length]);
        Ok(if Left(q) == CDI_VERIFY_KEY_LENGTH then q.(stage := Cdi) else q)
      else Throw(InvalidState)
    case Cdi =>
      if p1 == P1_CDI_VERIFY_KEY then
        var q := p.(cdi := data[..32], stage := Done);
        if length != CDI_VERIFY_KEY_LENGTH || Left(q) != 0 then Throw(InvalidState) else Ok(q)
      else Throw(InvalidState)
  }

  // ------------------------------------------------------------------ events

  function Take(p: Progress, e: Event): (r: Outcome<Progress>) {
    if p.stage.TextShown? then
      if e.Confirm? then Ok(Confirmed(p)) else Throw(InvalidState)
    else if e.Host? && !p.stage.Done? then Accept(p, e.packet)
    else Throw(InvalidState)
  }

  /** How an accepted event is answered. */
  function Answer(p: Progress, q: Progress): (r: Reply) {
    if q.stage.Done? then Await(Ask)
    else if q.stage.TextShown? then Await(HandleDescriptionPart)
    else if p.stage.Start? || q.stage.Cdi? then Await(Proceed)
    else Success
  }

  function Hashed(p: Progress, e: Event): (r: bytes) {
    if e.Confirm? then []
    else
      var data := e.packet.data;
      match p.stage
      case Start => if PathLength(data).Ok? then var at := PathLength(data).value; data[at..at + 37] else []
      case Length => data[..4]
      case Cdi => data[..32]
      case _ => data[..e.packet.length]
  }

  lemma Slices(data: Cdata, at: nat)
    requires at <= 33
    ensures data[at..at + 29] + data[at + 29..at + 33] + data[at + 33..at + 37] == data[at..at + 37]
  {
  }

  lemma StartExtends(data: Cdata)
    requires AcceptStart(data).Ok?
    ensures var q, at := AcceptStart(data).value, PathLength(data).value;
            PathLength(data).Ok? && ProgressOk(q) && Transcript(q) == data[at..at + 37]
  {
    var at := PathLength(data).value;
    Put4Get4(data, at + 29);
    hide Put4, U4BE, NumberFits;
    Slices(data, at);
  }

  lemma LengthExtends(p: Progress, packet: Packet)
    requires ProgressOk(p) && p.stage.Length? && Accept(p, packet).Ok?
    ensures ProgressOk(Accept(p, packet).value)
    ensures Transcript(Accept(p, packet).value) == Transcript(p) + packet.data[..4]
  {
    var q := p.(length := U4BE(packet.data, 0), stage := Text);
    Put4Get4(packet.data, 0);
    assert Flat([]) == [];
    hide Put4, U4BE, NumberFits;
    assert packet.data[0..4] + [] == packet.data[..4];
    if q.length == 0 {
      CompletedSame(q);
    }
    var start := p.header + Put4(p.declared);
    assert start + (p.ip + PartsBytes(p.parts) + [] + [] + []) + packet.data[..4]
        == start + (p.ip + PartsBytes(p.parts) + packet.data[..4] + [] + []);
  }

  /** A description that is complete has the same serialization as part of the list. */
  lemma CompletedSame(p: Progress)
    requires p.stage.Text? || p.stage.TextShown?
    requires HeadOk(p) && |p.parts| < 3 && |Flat(p.pieces)| == p.length && p.key == [] && p.cdi == []
    ensures ProgressOk(Completed(p)) && Payload(Completed(p)) == Payload(p) && Transcript(Completed(p)) == Transcript(p)
  {
    hide Put4, NumberFits, Flat, Part;
    var parts := p.parts + [p.pieces];
    assert parts[..|p.parts|] == p.parts;
    LastPart(p.pieces, p.length);
    Regroup(p.ip, PartsBytes(p.parts), Part(p.pieces));
    assert p.ip + PartsBytes(p.parts) + Part(p.pieces) + [] == p.ip + PartsBytes(p.parts) + Part(p.pieces);
  }

  lemma LastPart(pieces: seq<bytes>, length: u32)
    requires |Flat(pieces)| == length
    ensures Part(pieces) == Put4(length) + Flat(pieces)
  {
  }

  lemma TextExtends(p: Progress, packet: Packet)
    requires ProgressOk(p) && p.stage.Text? && Accept(p, packet).Ok?
    ensures ProgressOk(Accept(p, packet).value)
    ensures Transcript(Accept(p, packet).value) == Transcript(p) + packet.data[..packet.length]
  {
    hide Put4, NumberFits;
    var data := packet.data[..packet.length];
    FlatAppend(p.pieces, data);
    var start, before := p.header + Put4(p.declared), p.ip + PartsBytes(p.parts);
    assert start + (before + (Put4(p.length) + (Flat(p.pieces) + data)) + [] + [])
        == start + (before + (Put4(p.length) + Flat(p.pieces)) + [] + []) + data;
  }

  lemma KeyExtends(p: Progress, packet: Packet)
    requires ProgressOk(p) && (p.stage.Key? || p.stage.Cdi?) && Accept(p, packet).Ok?
    ensures ProgressOk(Accept(p, packet).value)
    ensures Transcript(Accept(p, packet).value) == Transcript(p) + Hashed(p, Host(packet))
  {
    hide Put4, NumberFits;
    var start, before := p.header + Put4(p.declared), p.ip + PartsBytes(p.parts) + [];
    var data := Hashed(p, Host(packet));
    if p.stage.Key? {
      assert start + (before + (p.key + data) + []) == start + (before + p.key + []) + data;
    } else {
      assert start + (before + p.key + data) == start + (before + p.key + []) + data;
    }
  }

  /** Every event keeps the state well-formed and extends the transcript by what it hashes. */
  lemma TakeExtends(p: Progress, e: Event)
    requires ProgressOk(p) && Take(p, e).Ok?
    ensures ProgressOk(Take(p, e).value) && Transcript(Take(p, e).value) == Transcript(p) + Hashed(p, e)
  {
    hide Transcript, AcceptStart, Put4, HeadOk;
    if p.stage.TextShown? {
      assert Transcript(p) + [] == Transcript(p);
      if |Flat(p.pieces)| == p.length {
        CompletedSame(p);
      } else {
        BackToText(p);
      }
    } else {
      match p.stage {
        case Start =>
          StartExtends(e.packet.data);
          Began();
          assert [] + Hashed(p, e) == Hashed(p, e);
        case Length => LengthExtends(p, e.packet);
        case Text => TextExtends(p, e.packet);
        case Key => KeyExtends(p, e.packet);
        case Cdi => KeyExtends(p, e.packet);
      }
    }
  }

  lemma BackToText(p: Progress)
    requires ProgressOk(p) && p.stage.TextShown? && |Flat(p.pieces)| != p.length
    ensures ProgressOk(p.(stage := Text)) && Transcript(p.(stage := Text)) == Transcript(p)
  {
  }

  lemma Began()
    ensures ProgressOk(BEGIN) && Transcript(BEGIN) == []
  {
  }

  /** The final check of the payload length cannot fail: the verify key ends exactly when 32 bytes are
      left. */
  lemma LengthCheckNeverFails(p: Progress, packet: Packet)
    requires ProgressOk(p) && p.stage.Cdi? && packet.p1 == P1_CDI_VERIFY_KEY
    ensures Accept(p, packet).Ok? <==> packet.length == 32
  {
    hide PartsBytes;
    assert Left(p.(cdi := packet.data[..32], stage := Done)) == (p.declared - |Payload(p)| - 32) % U32;
  }

  // ------------------------------------------------------------------ screens and counters

  lemma Residue(n: int, k: u32)
    ensures (n - k) % U32 == Sub32(n % U32, k)
  {
  }

  /** The counter follows the hash. */
  lemma LeftDrops(p: Progress, q: Progress, hashed: bytes)
    requires !p.stage.Start? && !q.stage.Start? && q.header == p.header && q.declared == p.declared
    requires Transcript(q) == Transcript(p) + hashed && |hashed| < U32
    ensures Left(q) == Sub32(Left(p), |hashed|)
  {
    hide Payload, Put4, Sub32;
    Residue(p.declared - |Payload(p)|, |hashed|);
  }

  lemma PieceFlowsAppend(behind: Behind, i: nat, pieces: seq<bytes>, piece: bytes)
    ensures PieceFlows(behind, i, pieces + [piece]) == PieceFlows(behind, i, pieces) + [[PieceStep(behind, i, piece)]]
    ensures PieceFlows(behind, i, []) == []
  {
    hide PieceStep;
  }

  /** Completing a description shows nothing. */
  lemma CompletedFlows(behind: Behind, p: Progress)
    requires |p.ip| == 4
    ensures TextFlows(behind, Completed(p)) == TextFlows(behind, p)
  {
    var parts := p.parts + [p.pieces];
    assert parts[..|p.parts|] == p.parts;
    PieceFlowsAppend(behind, |parts|, [], []);
    hide PieceFlows, StartFlow;
    Regroup([StartFlow(p.ip)], PartsFlows(behind, p.parts), PieceFlows(behind, |p.parts|, p.pieces));
    assert TextFlows(behind, Completed(p)) == [StartFlow(p.ip)] + PartsFlows(behind, parts);
  }

  /** A text is shown exactly if and only if it holds no zero byte and, when it fills the buffer, there is
      a zero byte behind it. */
  predicate Whole(behind: string, piece: bytes) {
    0 !in piece && (|piece| < TEXT_SIZE || behind == [] || behind[0] == NumberHelpers.NUL)
  }

  lemma WholeText(behind: string, piece: bytes)
    ensures PieceText(behind, piece) == Chars(piece) <==> Whole(behind, piece)
  {
    Terminated(Chars(piece), "");
    NoZeroInChars(piece);
    ShownExactly(Chars(piece), behind);
  }

  /** A piece of 255 letters of the second description, behind which descriptionState is 1. */
  lemma FullPiece(behind: string)
    requires behind != [] && behind[0] == 1 as char
    ensures var piece: bytes := seq(255, i => 65);
            PieceText(behind, piece) != Chars(piece) && Chars(piece) + [1 as char] <= PieceText(behind, piece)
  {
    var piece: bytes := seq(255, i => 65);
    WholeText(behind, piece);
    NoZeroInChars(piece);
    ShownOtherwise(Chars(piece), behind);
    ShownOtherwise([behind[0]], behind[1..]);
    assert behind == [behind[0]] + behind[1..];
  }

  /** A piece of a description is shown under the name of the description, and shown whole as stated. */
  lemma PieceShown(behind: Behind, p: Progress, piece: bytes)
    requires |p.ip| == 4
    ensures PieceStep(behind, |p.parts|, piece).title == PartName(|p.parts|)
    ensures PieceStep(behind, |p.parts|, piece).text == Chars(piece) <==> Whole(behind(|p.parts|), piece)
    ensures TextFlows(behind, p.(pieces := p.pieces + [piece], stage := TextShown))
         == TextFlows(behind, p) + [[PieceStep(behind, |p.parts|, piece)]]
  {
    WholeText(behind(|p.parts|), piece);
    PieceFlowsAppend(behind, |p.parts|, p.pieces, piece);
    hide PieceFlows, StartFlow, PieceStep;
    Regroup([StartFlow(p.ip)] + PartsFlows(behind, p.parts), PieceFlows(behind, |p.parts|, p.pieces),
        [[PieceStep(behind, |p.parts|, piece)]]);
  }

  lemma StartShown(sha: Sha256, behind: Behind, p: Progress)
    requires ProgressOk(p) && p.stage.Length? && p.parts == []
    ensures Rendered(sha, behind, p) == [StartFlow(p.ip)]
  {
    PieceFlowsAppend(behind, 0, [], []);
    hide PieceFlows, StartFlow;
  }
}
