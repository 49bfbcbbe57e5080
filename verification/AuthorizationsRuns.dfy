/** Whole runs of a level 2 key update: what can be signed, and what has been shown by then. */
module AuthorizationsRuns {
  import opened Bytes
  import opened Lists
  import opened Device
  import opened Runs
  import opened AuthorizationsTx

  // ------------------------------------------------------------------ the transaction

  datatype Update = Update(header: bytes, prefix: byte, keys: seq<bytes>, structures: seq<Structure>)

  /** At least one key, and as many access structures as the version has. */
  ghost predicate WellFormed(updateType: byte, u: Update) {
    && |u.header| == 29 && u.header[28] == updateType && VersionOf(updateType, u.prefix).Some?
    && 1 <= |u.keys| < 0x1_0000 && AllOf(u.keys, 33) && Structures(u.structures)
    && |u.structures| == StructureCount(VersionOf(updateType, u.prefix).value)
  }

  function UpdateBytes(u: Update): (r: bytes) {
    u.header + [u.prefix] + (if |u.keys| < 0x1_0000 then Put2(|u.keys|) else []) + Flat(u.keys)
        + StructuresBytes(u.structures)
  }

  /** What a user who has confirmed everything has seen. */
  ghost function UpdateFlows(updateType: byte, u: Update): (r: seq<Flow>)
    requires WellFormed(updateType, u)
  {
    [[REVIEW, Continue("Update", TypeText(updateType))]] + KeyFlows(u.keys) + StructuresFlows(u.structures)
    + [[Sign, Decline]]
  }

  // ------------------------------------------------------------------ runs

  /** One event; a packet when a screen waits, and a confirmation when none does, are not expected. */
  function Take(updateType: byte, p: Progress, e: Event): (r: Outcome<Progress>) {
    if p.stage.IndexShown? then
      if e.Confirm? then NextIndex(p) else Throw(InvalidState)
    else if p.stage.ThresholdShown? then
      if e.Confirm? && VersionOf(updateType, p.prefix).Some? then Ok(AfterThreshold(updateType, p))
          else Throw(InvalidState)
    else if e.Host? && !p.stage.Done? then Accept(updateType, p, e.packet)
    else Throw(InvalidState)
  }

  function Taker(updateType: byte): (r: (Progress, Event) -> Outcome<Progress>) {
    (p, e) => Take(updateType, p, e)
  }

  /** The bytes of a packet that are hashed, by stage. */
  function Hashed(p: Progress, e: Event): (r: bytes) {
    if e.Confirm? then []
    else
      var Packet(_, _, data, length) := e.packet;
      match p.stage
      case Start => if PathLength(data).Ok? then var at := PathLength(data).value; data[at..at + 32] else []
      case Keys => data[..33]
      case Indices => data[..length]
      case _ => data[..2]
  }

  /** The new screens of an accepted event. */
  ghost predicate Extends(updateType: byte, p: Progress, e: Event, q: Progress) {
    && ProgressOk(updateType, p) && ProgressOk(updateType, q)
    && Transcript(q) == Transcript(p) + Hashed(p, e)
    && |Rendered(updateType, p)| <= |Rendered(updateType, q)|
    && Rendered(updateType, p) == Rendered(updateType, q)[..|Rendered(updateType, p)|]
  }

  lemma Grows<T>(a: seq<T>, b: seq<T>)
    ensures |a| <= |a + b| && (a + b)[..|a|] == a && a + [] == a
  {
  }

  lemma ConfirmExtends(updateType: byte, p: Progress)
    requires ProgressOk(updateType, p) && Take(updateType, p, Confirm).Ok?
    ensures Extends(updateType, p, Confirm, Take(updateType, p, Confirm).value)
  {
    if p.stage.IndexShown? {
      NextIndexOk(updateType, p);
      hide ProgressOk, Transcript, NextIndex;
      var q := NextIndex(p).value;
      Grows(Transcript(p), []);
      Grows(Rendered(updateType, p), if q.stage.IndexShown?
          then [IndexFlow(AuthorizationName(|p.structures|).value, p.queue[0])] else []);
    } else {
      AfterThresholdOk(updateType, p);
      hide ProgressOk, Transcript, AfterThreshold, Rendered;
      Grows(Transcript(p), []);
      Grows(Rendered(updateType, p), if AfterThreshold(updateType, p).stage.Done? then [[Sign, Decline]] else []);
    }
  }

  lemma HostExtends(updateType: byte, p: Progress, packet: Packet)
    requires ProgressOk(updateType, p) && Take(updateType, p, Host(packet)).Ok?
    ensures Extends(updateType, p, Host(packet), Take(updateType, p, Host(packet)).value)
  {
    hide Transcript, Rendered, AcceptStart, NextIndex, ProgressOk;
    match p.stage {
      case Start =>
        StartOk(updateType, packet);
        BeginOk(updateType, p);
        assert [] + Hashed(p, Host(packet)) == Hashed(p, Host(packet));
      case Keys =>
        KeyOk(updateType, p, packet);
        Grows(Rendered(updateType, p), [KeyFlow(packet.data[..33])]);
      case Size =>
        SizeOk(updateType, p, packet);
        Grows(Rendered(updateType, p), []);
      case Indices =>
        LoadOk(updateType, p, packet.data, packet.length);
        var q := p.(queue := Pieces(packet.data, packet.length));
        NextIndexOk(updateType, q);
        Grows(Rendered(updateType, p),
              if NextIndex(q).value.stage.IndexShown?
                  then [IndexFlow(AuthorizationName(|q.structures|).value, q.queue[0])] else []);
      case Threshold =>
        ThresholdOk(updateType, p, packet);
        Grows(Rendered(updateType, p), [IndexFlow("Threshold", packet.data[..2])]);
    }
  }

  lemma BeginOk(updateType: byte, p: Progress)
    ensures ProgressOk(updateType, BEGIN) && Transcript(BEGIN) == [] && Rendered(updateType, BEGIN) == []
    ensures ProgressOk(updateType, p) && p.stage.Start? ==> p == BEGIN
  {
  }

  lemma RunExtends(updateType: byte, events: seq<Event>)
    requires Run(Taker(updateType), BEGIN, events).Ok?
    ensures var q := Run(Taker(updateType), BEGIN, events).value;
            ProgressOk(updateType, q) && Transcript(q) == Gathered(Taker(updateType), Hashed, BEGIN, events)
  {
    var take, ok := Taker(updateType), p => ProgressOk(updateType, p);
    forall p: Progress, e: Event | ok(p) && take(p, e).Ok?
      ensures ok(take(p, e).value) && Transcript(take(p, e).value) == Transcript(p) + Hashed(p, e)
    {
      hide ProgressOk, Take, Transcript, Rendered;
      match e
      case Host(packet) => HostExtends(updateType, p, packet);
      case Confirm => ConfirmExtends(updateType, p);
    }
    BeginOk(updateType, BEGIN);
    hide ProgressOk, Take, Transcript, Hashed, Run, Gathered;
    assert Sound(take, Hashed, ok, Transcript);
    RunSound(take, Hashed, ok, Transcript, BEGIN, events);
    assert [] + Gathered(take, Hashed, BEGIN, events) == Gathered(take, Hashed, BEGIN, events);
  }

  /** The transaction that has been received. */
  function Received(p: Progress): (r: Update) {
    Update(p.header, p.prefix, p.keys, p.structures)
  }

  /** Soundness: however the host cut the lists into packets, at the sign screen the hashed bytes are
      one well-formed update, and the screens have shown all of it in order. */
  lemma SignedIsShown(updateType: byte, events: seq<Event>)
    requires Run(Taker(updateType), BEGIN, events).Ok? && Run(Taker(updateType), BEGIN, events).value.stage.Done?
    ensures var p := Run(Taker(updateType), BEGIN, events).value;
            && WellFormed(updateType, Received(p)) && ProgressOk(updateType, p)
            && Gathered(Taker(updateType), Hashed, BEGIN, events) == UpdateBytes(Received(p))
            && Rendered(updateType, p) == UpdateFlows(updateType, Received(p))
  {
    RunExtends(updateType, events);
    hide Run, Gathered, VersionOf, StructureCount, KeyFlows, StructuresFlows, Structures, AllOf, TypeText;
  }
}
