/** Updates of the level 2 keys: serialization, screens, and which packets and presses may come next. */
module AuthorizationsTx {
  import opened Bytes
  import opened Lists
  import opened Device
  import opened DecimalText
  import opened PaginatedHex
  import opened NumberHelpers

  const UPDATE_TYPE_UPDATE_ROOT_KEYS: byte := 10
  const UPDATE_TYPE_UPDATE_LEVEL1_KEYS: byte := 11
  const ROOT_UPDATE_LEVEL_2_V0: byte := 2
  const LEVEL1_UPDATE_LEVEL_2_V0: byte := 1

  const P1_INITIAL: byte := 0x00
  const P1_PUBLIC_KEY: byte := 0x01
  const P1_ACCESS_STRUCTURE_INITIAL: byte := 0x02
  const P1_ACCESS_STRUCTURE: byte := 0x03
  const P1_ACCESS_STRUCTURE_THRESHOLD: byte := 0x04

  // ------------------------------------------------------------------ the payload

  datatype Version = V0 | V1 | V2

  /** The version that the payload's prefix stands for, which depends on the kind of update. */
  function VersionOf(updateType: byte, prefix: byte): (r: Option<Version>) {
    if updateType == UPDATE_TYPE_UPDATE_ROOT_KEYS then
      if prefix == ROOT_UPDATE_LEVEL_2_V0 then Some(V0)
      else if prefix == ROOT_UPDATE_LEVEL_2_V0 + 1 then Some(V1)
      else if prefix == ROOT_UPDATE_LEVEL_2_V0 + 2 then Some(V2)
      else None
    else if updateType == UPDATE_TYPE_UPDATE_LEVEL1_KEYS then
      if prefix == LEVEL1_UPDATE_LEVEL_2_V0 then Some(V0)
      else if prefix == LEVEL1_UPDATE_LEVEL_2_V0 + 1 then Some(V1)
      else if prefix == LEVEL1_UPDATE_LEVEL_2_V0 + 2 then Some(V2)
      else None
    else None
  }

  function P2Of(v: Version): (r: byte) {
    match v case V0 => 0 case V1 => 1 case V2 => 2
  }

  /** AUTHORIZATION_END: the number of access structures. */
  function StructureCount(v: Version): (r: byte)
    ensures r <= 15
  {
    match v case V0 => 12 case V1 => 14 case V2 => 15
  }

  /** How many structures go with the byte behind the header: 12, 14 or 15. */
  ghost predicate Prefix(updateType: byte, prefix: byte, n: nat) {
    || (updateType == 10 && ((prefix == 2 && n == 12) || (prefix == 3 && n == 14) || (prefix == 4 && n == 15)))
    || (updateType == 11 && ((prefix == 1 && n == 12) || (prefix == 2 && n == 14) || (prefix == 3 && n == 15)))
  }

  lemma Numbers(updateType: byte, prefix: byte, n: nat)
    ensures Prefix(updateType, prefix, n) <==>
      VersionOf(updateType, prefix).Some? && StructureCount(VersionOf(updateType, prefix).value) == n
  {
  }

  /** getAuthorizationName */
  function AuthorizationName(kind: byte): (r: Outcome<string>)
    ensures r.Ok? <==> kind < 15
  {
    match kind
    case 0 => Ok("Emergency")
    case 1 => Ok("Protocol")
    case 2 => Ok("Consensus")
    case 3 => Ok("Euro per energy")
    case 4 => Ok("uCCD per Euro")
    case 5 => Ok("Foundation account")
    case 6 => Ok("Mint distribution")
    case 7 => Ok("Tx fee distribution")
    case 8 => Ok("GAS rewards")
    case 9 => Ok("Pool parameters")
    case 10 => Ok("Add anon. revoker")
    case 11 => Ok("Add ID provider")
    case 12 => Ok("Cooldown parameters")
    case 13 => Ok("Time parameters")
    case 14 => Ok("Create PLT")
    case _ => Throw(InvalidState)
  }

  /** The keys of the list that may authorize one kind of update, and how many of them have to. */
  datatype Structure = Structure(indices: seq<bytes>, threshold: bytes)

  ghost predicate Structures(ss: seq<Structure>) {
    forall i | 0 <= i < |ss| :: |ss[i].indices| < 0x1_0000 && AllOf(ss[i].indices, 2) && |ss[i].threshold| == 2
  }

  function StructureBytes(s: Structure): (r: bytes) {
    (if |s.indices| < 0x1_0000 then Put2(|s.indices|) else []) + Flat(s.indices) + s.threshold
  }

  function StructuresBytes(ss: seq<Structure>): (r: bytes) {
    if ss == [] then [] else StructuresBytes(ss[..|ss| - 1]) + StructureBytes(ss[|ss| - 1])
  }

  // ------------------------------------------------------------------ the screens

  function TypeText(updateType: byte): (r: string) {
    if updateType == UPDATE_TYPE_UPDATE_ROOT_KEYS then "Level 2 w. root keys" else "Level 2 w. level 1 keys"
  }

  function IndexFlow(name: string, index: bytes): (r: Flow)
    requires |index| == 2
  {
    [Continue(name, Dec(U2BE(index, 0)))]
  }

  /** A public key without its scheme. */
  ghost function KeyFlow(key: bytes): (r: Flow)
    requires |key| == 33
  {
    [Continue("Public key", PagedHex(key[1..]))]
  }

  ghost function KeyFlows(keys: seq<bytes>): (r: seq<Flow>)
    requires AllOf(keys, 33)
  {
    seq(|keys|, i requires 0 <= i < |keys| => KeyFlow(keys[i]))
  }

  ghost function IndexFlows(kind: byte, indices: seq<bytes>): (r: seq<Flow>)
    requires kind < 15 && AllOf(indices, 2)
  {
    seq(|indices|, i requires 0 <= i < |indices| => IndexFlow(AuthorizationName(kind).value, indices[i]))
  }

  ghost function StructuresFlows(ss: seq<Structure>): (r: seq<Flow>)
    requires Structures(ss) && |ss| <= 15
  {
    if ss == [] then []
    else
      var n := |ss| - 1;
      StructuresFlows(ss[..n]) + IndexFlows(n, ss[n].indices) + [IndexFlow("Threshold", ss[n].threshold)]
  }

  // ------------------------------------------------------------------ what has been received

  /** The keys and structures that are complete; then the structure that is being received: its size,
      the indices that have been shown, and those of the packet that have only been hashed. */
  datatype Progress = Progress(
    header: bytes, prefix: byte, keyCount: u16, keys: seq<bytes>, structures: seq<Structure>,
    size: u16, indices: seq<bytes>, queue: seq<bytes>, threshold: bytes, stage: Stage)

  /** IndexShown and ThresholdShown wait for the user. */
  datatype Stage = Start | Keys | Size | Indices | IndexShown | Threshold | ThresholdShown | Done

  const BEGIN := Progress([], 0, 0, [], [], 0, [], [], [], Start)

  ghost predicate HeadOk(updateType: byte, p: Progress) {
    && |p.header| == 29 && p.header[28] == updateType && VersionOf(updateType, p.prefix).Some?
    && AllOf(p.keys, 33) && Structures(p.structures) && AllOf(p.indices, 2) && AllOf(p.queue, 2)
    && |p.structures| <= StructureCount(VersionOf(updateType, p.prefix).value)
  }

  ghost predicate NoCurrent(p: Progress) {
    p.size == 0 && p.indices == [] && p.queue == [] && p.threshold == []
  }

  ghost predicate Within(updateType: byte, p: Progress) {
    && HeadOk(updateType, p) && |p.keys| == p.keyCount > 0
    && |p.structures| < StructureCount(VersionOf(updateType, p.prefix).value)
  }

  ghost predicate ProgressOk(updateType: byte, p: Progress) {
    match p.stage
    case Start => p == BEGIN
    case Keys =>
      && HeadOk(updateType, p) && p.structures == [] && NoCurrent(p)
      && (|p.keys| < p.keyCount || (p.keyCount == 0 && p.keys == []))
    case Size => Within(updateType, p) && NoCurrent(p)
    case Indices =>
      Within(updateType, p) && p.queue == [] && p.threshold == []
          && (|p.indices| < p.size || (p.size == 0 && p.indices == []))
    case IndexShown => Within(updateType, p) && |p.indices| <= p.size && p.threshold == []
    case Threshold => Within(updateType, p) && p.queue == [] && p.threshold == [] && |p.indices| == p.size
    case ThresholdShown => Within(updateType, p) && p.queue == [] && |p.threshold| == 2 && |p.indices| == p.size
    case Done =>
      && HeadOk(updateType, p) && NoCurrent(p) && |p.keys| == p.keyCount > 0
      && |p.structures| == StructureCount(VersionOf(updateType, p.prefix).value)
  }

  function Base(p: Progress): (r: bytes) {
    p.header + [p.prefix] + Put2(p.keyCount) + Flat(p.keys) + StructuresBytes(p.structures)
  }

  function Current(p: Progress): (r: bytes) {
    Put2(p.size) + Flat(p.indices + p.queue) + p.threshold
  }

  function Transcript(p: Progress): (r: bytes) {
    match p.stage
    case Start => []
    case Keys => Base(p)
    case Size => Base(p)
    case Done => Base(p)
    case _ => Base(p) + Current(p)
  }

  ghost function BaseFlows(updateType: byte, p: Progress): (r: seq<Flow>)
    requires HeadOk(updateType, p)
  {
    [[REVIEW, Continue("Update", TypeText(updateType))]] + KeyFlows(p.keys) + StructuresFlows(p.structures)
  }

  /** The kind of update, every key, and for every structure every index under the structure's name and
      then the threshold; the sign screen only at the end. */
  ghost function Rendered(updateType: byte, p: Progress): (r: seq<Flow>)
    requires ProgressOk(updateType, p)
  {
    match p.stage
    case Start => []
    case Keys => BaseFlows(updateType, p)
    case Size => BaseFlows(updateType, p)
    case Done => BaseFlows(updateType, p) + [[Sign, Decline]]
    case ThresholdShown =>
      BaseFlows(updateType, p) + IndexFlows(|p.structures|, p.indices) + [IndexFlow("Threshold", p.threshold)]
    case _ => BaseFlows(updateType, p) + IndexFlows(|p.structures|, p.indices)
  }

  // ------------------------------------------------------------------ what may come next

  /** A packet of indices, two bytes each. */
  function Pieces(data: Cdata, length: byte): (r: seq<bytes>)
    ensures AllOf(r, 2)
  {
    seq(length / 2, i requires 0 <= i < length / 2 => data[2 * i..2 * i + 2])
  }

  /** processKeyIndices: from the handler and when the user confirms an index. */
  function NextIndex(p: Progress): (r: Outcome<Progress>) {
    if |p.indices| == p.size then
      if p.queue != [] then Throw(InvalidTransaction) else Ok(p.(stage := Threshold))
    else if p.queue == [] then Ok(p.(stage := Indices))
    else Ok(p.(indices := p.indices + [p.queue[0]], queue := p.queue[1..], stage := IndexShown))
  }

  /** processThreshold: the user confirms a threshold. */
  function AfterThreshold(updateType: byte, p: Progress): (r: Progress)
    requires VersionOf(updateType, p.prefix).Some?
  {
    var ss := p.structures + [Structure(p.indices, p.threshold)];
    p.(structures := ss, size := 0, indices := [], threshold := [],
       stage := if |ss| == StructureCount(VersionOf(updateType, p.prefix).value) then Done else Size)
  }

  function AcceptStart(updateType: byte, packet: Packet): (r: Outcome<Progress>) {
    var data := packet.data;
    var header :- HeaderAt(data, 28, updateType);
    var at := PathLength(data).value + 29;
    if VersionOf(updateType, data[at]).None? then Throw(InvalidTransaction)
    else if P2Of(VersionOf(updateType, data[at]).value) != packet.p2 then Throw(InvalidParam)
    else Ok(BEGIN.(header := header, prefix := data[at], keyCount := U2BE(data, at + 1), stage := Keys))
  }

  /** How an accepted event is answered: every key, index and threshold has a screen. */
  function Answer(p: Progress, q: Progress): (r: Reply) {
    if q.stage.Done? then Await(Ask)
    else if q.stage.IndexShown? then Await(ProcessKeyIndices)
    else if q.stage.ThresholdShown? then Await(ProcessThreshold)
    else if p.stage.Start? || p.stage.Keys? then Await(Proceed)
    else Success
  }

  function Accept(updateType: byte, p: Progress, packet: Packet): (r: Outcome<Progress>)
    requires !p.stage.IndexShown? && !p.stage.ThresholdShown? && !p.stage.Done?
  {
    var Packet(p1, p2, data, length) := packet;
    if p2 > 2 then Throw(InvalidParam)
    else
      match p.stage
      case Start => if p1 == P1_INITIAL then AcceptStart(updateType, packet) else Throw(InvalidState)
      case Keys =>
        if p1 == P1_PUBLIC_KEY && |p.keys| < p.keyCount then
          var keys := p.keys + [data[..33]];
          Ok(p.(keys := keys, stage := if |keys| == p.keyCount then Size else Keys))
        else Throw(InvalidState)
      case Size =>
        if p1 == P1_ACCESS_STRUCTURE_INITIAL then Ok(p.(size := U2BE(data, 0), stage := Indices)) else Throw(InvalidState)
      case Indices =>
        if p1 == P1_ACCESS_STRUCTURE then
          if length % 2 == 1 then Throw(InvalidTransaction) else NextIndex(p.(queue := Pieces(data, length)))
        else Throw(InvalidState)
      case Threshold =>
        if p1 == P1_ACCESS_STRUCTURE_THRESHOLD then Ok(p.(threshold := data[..2], stage := ThresholdShown))
        else Throw(InvalidState)
  }

  // ------------------------------------------------------------------ invariants

  lemma StartOk(updateType: byte, packet: Packet)
    requires AcceptStart(updateType, packet).Ok?
    ensures PathLength(packet.data).Ok?
    ensures var q, at := AcceptStart(updateType, packet).value, PathLength(packet.data).value;
            && ProgressOk(updateType, q) && Transcript(q) == packet.data[at..at + 32]
            && Rendered(updateType, q) == [[REVIEW, Continue("Update", TypeText(updateType))]]
  {
    var data, at := packet.data, PathLength(packet.data).value;
    var q := AcceptStart(updateType, packet).value;
    Put2Get2(data, at + 30);
    assert data[at..at + 29] + [data[at + 29]] + data[at + 30..at + 32] == data[at..at + 32];
    assert Flat([]) == [] && StructuresBytes([]) == [];
    assert StructuresFlows([]) == [] && KeyFlows([]) == [];
  }

  lemma KeyOk(updateType: byte, p: Progress, packet: Packet)
    requires ProgressOk(updateType, p) && p.stage.Keys? && Accept(updateType, p, packet).Ok?
    ensures var q := Accept(updateType, p, packet).value;
            && ProgressOk(updateType, q) && Transcript(q) == Transcript(p) + packet.data[..33]
            && Rendered(updateType, q) == Rendered(updateType, p) + [KeyFlow(packet.data[..33])]
  {
    var key := packet.data[..33];
    FlatAppend(p.keys, key);
    KeyFlowsAppend(p.keys, key);
    hide Flat, KeyFlows, KeyFlow, VersionOf, StructureCount, TypeText;
    var start := p.header + [p.prefix] + Put2(p.keyCount);
    assert start + (Flat(p.keys) + key) + [] == start + Flat(p.keys) + [] + key;
    var review := [[REVIEW, Continue("Update", TypeText(updateType))]];
    assert review + (KeyFlows(p.keys) + [KeyFlow(key)]) + [] == review + KeyFlows(p.keys) + [] + [KeyFlow(key)];
  }

  lemma KeyFlowsAppend(keys: seq<bytes>, key: bytes)
    requires AllOf(keys, 33) && |key| == 33
    ensures AllOf(keys + [key], 33) && KeyFlows(keys + [key]) == KeyFlows(keys) + [KeyFlow(key)]
  {
    hide KeyFlow;
  }

  lemma SizeOk(updateType: byte, p: Progress, packet: Packet)
    requires ProgressOk(updateType, p) && p.stage.Size? && Accept(updateType, p, packet).Ok?
    ensures var q := Accept(updateType, p, packet).value;
            && ProgressOk(updateType, q) && Transcript(q) == Transcript(p) + packet.data[..2]
            && Rendered(updateType, q) == Rendered(updateType, p)
  {
    hide VersionOf, StructureCount, TypeText, KeyFlows, StructuresFlows;
    Put2Get2(packet.data, 0);
    assert Flat([] + []) == [];
    assert packet.data[0..2] + [] + [] == packet.data[..2];
    assert IndexFlows(|p.structures|, []) == [];
    assert BaseFlows(updateType, p) + [] == BaseFlows(updateType, p);
  }

  // ------------------------------------------------------------------ the indices of a structure

  /** Before the next index of the packet is looked at. */
  ghost predicate Loaded(updateType: byte, p: Progress) {
    Within(updateType, p) && |p.indices| <= p.size && p.threshold == [] && (p.stage.Indices? || p.stage.IndexShown?)
  }

  ghost function LoadedFlows(updateType: byte, p: Progress): (r: seq<Flow>)
    requires Within(updateType, p)
  {
    BaseFlows(updateType, p) + IndexFlows(|p.structures|, p.indices)
  }

  lemma {:induction false} FlatPieces(data: Cdata, length: byte)
    requires length % 2 == 0
    ensures Flat(Pieces(data, length)) == data[..length]
  {
    if length == 0 {
      assert Pieces(data, length) == [];
    } else {
      FlatPieces(data, length - 2);
      assert Pieces(data, length) == Pieces(data, length - 2) + [data[length - 2..length]];
      FlatAppend(Pieces(data, length - 2), data[length - 2..length]);
      assert data[..length - 2] + data[length - 2..length] == data[..length];
    }
  }

  /** A packet of indices is hashed whole. */
  lemma LoadOk(updateType: byte, p: Progress, data: Cdata, length: byte)
    requires ProgressOk(updateType, p) && p.stage.Indices? && length % 2 == 0
    ensures var q := p.(queue := Pieces(data, length));
            && Loaded(updateType, q) && Transcript(q) == Transcript(p) + data[..length]
            && LoadedFlows(updateType, q) == Rendered(updateType, p)
  {
    FlatPieces(data, length);
    FlatConcat(p.indices, Pieces(data, length));
    hide Pieces, Flat, VersionOf, StructureCount, KeyFlows, StructuresFlows, IndexFlows, TypeText;
    assert p.indices + [] == p.indices;
    var start := Base(p) + Put2(p.size);
    assert Base(p) + (Put2(p.size) + (Flat(p.indices) + data[..length]) + [])
        == Base(p) + (Put2(p.size) + Flat(p.indices) + []) + data[..length];
  }

  lemma IndexFlowsAppend(kind: byte, indices: seq<bytes>, index: bytes)
    requires kind < 15 && AllOf(indices, 2) && |index| == 2
    ensures AllOf(indices + [index], 2)
    ensures IndexFlows(kind, indices + [index])
         == IndexFlows(kind, indices) + [IndexFlow(AuthorizationName(kind).value, index)]
  {
    hide IndexFlow, AuthorizationName;
  }

  /** Every index that has been hashed is shown once, in order, under the name of its structure; one
      that was not announced stops the transaction. */
  lemma NextIndexOk(updateType: byte, p: Progress)
    requires Loaded(updateType, p)
    ensures NextIndex(p).Throw? <==> |p.indices| == p.size && p.queue != []
    ensures !p.stage.Start? && !p.stage.Keys?
    ensures NextIndex(p).Ok? ==>
      var q := NextIndex(p).value;
      && (q.stage.IndexShown? || q.stage.Indices? || q.stage.Threshold?)
      && ProgressOk(updateType, q) && Transcript(q) == Transcript(p) && |p.structures| < 15
      && (q.stage.IndexShown? <==> |p.indices| < p.size && p.queue != [])
      && Rendered(updateType, q) == LoadedFlows(updateType, p)
         + (if q.stage.IndexShown? then [IndexFlow(AuthorizationName(|p.structures|).value, p.queue[0])] else [])
  {
    hide Pieces, VersionOf, KeyFlows, StructuresFlows, IndexFlows, IndexFlow, TypeText, AuthorizationName, Flat,
      StructureCount;
    if |p.indices| < p.size && p.queue != [] {
      IndexFlowsAppend(|p.structures|, p.indices, p.queue[0]);
      assert p.indices + [p.queue[0]] + p.queue[1..] == p.indices + p.queue;
      Regroup(BaseFlows(updateType, p), IndexFlows(|p.structures|, p.indices),
              [IndexFlow(AuthorizationName(|p.structures|).value, p.queue[0])]);
    } else {
      assert LoadedFlows(updateType, p) + [] == LoadedFlows(updateType, p);
    }
  }

  // ------------------------------------------------------------------ thresholds

  lemma ThresholdOk(updateType: byte, p: Progress, packet: Packet)
    requires ProgressOk(updateType, p) && p.stage.Threshold? && Accept(updateType, p, packet).Ok?
    ensures var q := Accept(updateType, p, packet).value;
            && ProgressOk(updateType, q) && Transcript(q) == Transcript(p) + packet.data[..2]
            && Rendered(updateType, q) == Rendered(updateType, p) + [IndexFlow("Threshold", packet.data[..2])]
  {
    hide VersionOf, StructureCount, KeyFlows, StructuresFlows, IndexFlows, TypeText, Flat;
  }

  /** A confirmed threshold completes a structure; after the last one the sign screen is shown. */
  lemma AfterThresholdOk(updateType: byte, p: Progress)
    requires ProgressOk(updateType, p) && p.stage.ThresholdShown?
    ensures var q := AfterThreshold(updateType, p);
            && ProgressOk(updateType, q) && Transcript(q) == Transcript(p)
            && Rendered(updateType, q) == Rendered(updateType, p) + (if q.stage.Done? then [[Sign, Decline]] else [])
  {
    StructureDone(p);
    StructureShown(updateType, p);
    hide VersionOf, StructureCount, KeyFlows, IndexFlows, IndexFlow, TypeText, Flat, Base, StructuresFlows, BaseFlows;
    assert Rendered(updateType, p) + [] == Rendered(updateType, p);
  }

  lemma StructureDone(p: Progress)
    requires p.queue == []
    ensures var q := p.(structures := p.structures + [Structure(p.indices, p.threshold)]);
            |p.indices| == p.size ==> Base(q) == Base(p) + Current(p)
  {
    hide Flat;
    var s, n := Structure(p.indices, p.threshold), |p.structures|;
    assert (p.structures + [s])[..n] == p.structures;
    assert p.indices + p.queue == p.indices;
    Regroup(p.header + [p.prefix] + Put2(p.keyCount) + Flat(p.keys), StructuresBytes(p.structures), StructureBytes(s));
  }

  lemma StructureShown(updateType: byte, p: Progress)
    requires HeadOk(updateType, p) && |p.structures| < StructureCount(VersionOf(updateType, p.prefix).value)
    requires |p.indices| < 0x1_0000 && |p.threshold| == 2
    ensures var q := p.(structures := p.structures + [Structure(p.indices, p.threshold)]);
            && HeadOk(updateType, q)
            && BaseFlows(updateType, q)
               == BaseFlows(updateType, p) + IndexFlows(|p.structures|, p.indices) + [IndexFlow("Threshold", p.threshold)]
  {
    hide KeyFlows, IndexFlows, IndexFlow, TypeText, Flat;
    var s, n := Structure(p.indices, p.threshold), |p.structures|;
    assert (p.structures + [s])[..n] == p.structures;
    var start := [[REVIEW, Continue("Update", TypeText(updateType))]] + KeyFlows(p.keys);
    var more := [IndexFlow("Threshold", p.threshold)];
    Regroup(StructuresFlows(p.structures), IndexFlows(n, p.indices), more);
    Regroup(start, StructuresFlows(p.structures), IndexFlows(n, p.indices) + more);
    Regroup(BaseFlows(updateType, p), IndexFlows(n, p.indices), more);
  }
}
