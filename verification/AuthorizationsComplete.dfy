/** Every well-formed level 2 key update can be signed, and its serialization can be read in one way. */
module AuthorizationsComplete {
  import opened Bytes
  import opened Lists
  import opened Device
  import opened Runs
  import opened AuthorizationsTx
  import opened AuthorizationsRuns

  // ------------------------------------------------------------------ runs, event by event

  ghost predicate Reaches(updateType: byte, p: Progress, events: seq<Event>, q: Progress) {
    Run(Taker(updateType), p, events) == Ok(q)
  }

  lemma Once(updateType: byte, p: Progress, e: Event, q: Progress)
    requires Take(updateType, p, e) == Ok(q)
    ensures Reaches(updateType, p, [e], q)
  {
    hide Take, Run;
    One(Taker(updateType), p, e);
  }

  lemma Then(updateType: byte, p: Progress, xs: seq<Event>, q: Progress, ys: seq<Event>, r: Progress)
    requires Reaches(updateType, p, xs, q) && Reaches(updateType, q, ys, r)
    ensures Reaches(updateType, p, xs + ys, r)
  {
    hide Take, Run;
    Both(Taker(updateType), p, xs, q, ys, r);
  }

  // ------------------------------------------------------------------ the parts of an update

  function Send(p1: byte, b: bytes): (r: Event)
    requires |b| <= 255
  {
    Host(Packet(p1, 0, Pad(b), |b|))
  }

  function AtKeys(u: Update, i: nat): (r: Progress)
    requires |u.keys| < 0x1_0000 && i <= |u.keys|
  {
    BEGIN.(header := u.header, prefix := u.prefix, keyCount := |u.keys|, keys := u.keys[..i], stage := Keys)
  }

  function AtSize(u: Update, j: nat): (r: Progress)
    requires |u.keys| < 0x1_0000 && j <= |u.structures|
  {
    AtKeys(u, |u.keys|).(structures := u.structures[..j], stage := if j == |u.structures| then Done else Size)
  }

  function AtIndices(u: Update, j: nat, i: nat): (r: Progress)
    requires |u.keys| < 0x1_0000 && j < |u.structures| && i <= |u.structures[j].indices| < 0x1_0000
  {
    var indices := u.structures[j].indices;
    AtSize(u, j).(size := |indices|, indices := indices[..i], stage := Indices)
  }

  function AtThreshold(u: Update, j: nat): (r: Progress)
    requires |u.keys| < 0x1_0000 && j < |u.structures| && |u.structures[j].indices| < 0x1_0000
  {
    AtIndices(u, j, |u.structures[j].indices|).(stage := Threshold)
  }

  lemma SendStart(updateType: byte, u: Update) returns (e: Event)
    requires WellFormed(updateType, u)
    ensures Reaches(updateType, BEGIN, [e], AtKeys(u, 0))
  {
    var head := [0] + u.header + [u.prefix];
    var b := head + Put2(|u.keys|);
    var data := Pad(b);
    e := Host(Packet(P1_INITIAL, P2Of(VersionOf(updateType, u.prefix).value), data, 33));
    ReadPut2(head, |u.keys|);
    assert data[..31] == head;
    assert data[0] == data[..31][0] == 0 && data[29] == data[..31][29] == u.header[28] && data[30] == data[..31][30];
    assert data[1..30] == data[..31][1..30] == u.header;
    Once(updateType, BEGIN, e, AtKeys(u, 0));
  }

  lemma {:induction false} SendKeys(updateType: byte, u: Update, i: nat) returns (events: seq<Event>)
    requires WellFormed(updateType, u) && i < |u.keys|
    ensures Reaches(updateType, AtKeys(u, i), events, AtSize(u, 0))
    decreases |u.keys| - i
  {
    var e := Send(P1_PUBLIC_KEY, u.keys[i]);
    assert u.keys[..i] + [u.keys[i]] == u.keys[..i + 1];
    events := [e];
    if i + 1 == |u.keys| {
      Once(updateType, AtKeys(u, i), e, AtSize(u, 0));
    } else {
      Once(updateType, AtKeys(u, i), e, AtKeys(u, i + 1));
      var rest := SendKeys(updateType, u, i + 1);
      Then(updateType, AtKeys(u, i), events, AtKeys(u, i + 1), rest, AtSize(u, 0));
      events := events + rest;
    }
  }

  lemma SendNoIndices(updateType: byte, u: Update, j: nat) returns (events: seq<Event>)
    requires WellFormed(updateType, u) && j < |u.structures| && u.structures[j].indices == []
    ensures Reaches(updateType, AtIndices(u, j, 0), events, AtThreshold(u, j))
  {
    var e := Send(P1_ACCESS_STRUCTURE, []);
    assert Pieces(Pad([]), 0) == [];
    events := [e];
    Once(updateType, AtIndices(u, j, 0), e, AtThreshold(u, j));
  }

  /** The i-th index is on the screen, and q more have come in its packet. */
  function AtShown(u: Update, j: nat, i: nat, q: nat): (r: Progress)
    requires |u.keys| < 0x1_0000 && j < |u.structures| && i + q < |u.structures[j].indices| < 0x1_0000
  {
    var indices := u.structures[j].indices;
    AtIndices(u, j, i + 1).(queue := indices[i + 1..i + 1 + q], stage := IndexShown)
  }

  function AfterIndices(u: Update, j: nat, i: nat): (r: Progress)
    requires |u.keys| < 0x1_0000 && j < |u.structures| && i <= |u.structures[j].indices| < 0x1_0000
  {
    if i == |u.structures[j].indices| then AtThreshold(u, j) else AtIndices(u, j, i)
  }

  function Presses(n: nat): (r: seq<Event>) {
    seq(n, i => Confirm)
  }

  lemma ConfirmOne(updateType: byte, u: Update, j: nat, i: nat, q: nat)
    requires WellFormed(updateType, u) && j < |u.structures| && i + q < |u.structures[j].indices|
    ensures Reaches(updateType, AtShown(u, j, i, q), [Confirm],
              if q == 0 then AfterIndices(u, j, i + 1) else AtShown(u, j, i + 1, q - 1))
  {
    var indices := u.structures[j].indices;
    if q > 0 {
      assert indices[i + 1..i + 1 + q][1..] == indices[i + 2..i + 1 + q];
      assert indices[..i + 1] + [indices[i + 1]] == indices[..i + 2];
    } else {
      assert indices[i + 1..i + 1] == [];
    }
    hide VersionOf, StructureCount, Structures;
    Once(updateType, AtShown(u, j, i, q), Confirm,
         if q == 0 then AfterIndices(u, j, i + 1) else AtShown(u, j, i + 1, q - 1));
  }

  lemma {:induction false} ConfirmAll(updateType: byte, u: Update, j: nat, i: nat, q: nat)
    requires WellFormed(updateType, u) && j < |u.structures| && i + q < |u.structures[j].indices|
    ensures Reaches(updateType, AtShown(u, j, i, q), Presses(q + 1), AfterIndices(u, j, i + q + 1))
    decreases q
  {
    hide Reaches, AtShown, AfterIndices, VersionOf, StructureCount;
    ConfirmOne(updateType, u, j, i, q);
    if q > 0 {
      ConfirmAll(updateType, u, j, i + 1, q - 1);
      Then(updateType, AtShown(u, j, i, q), [Confirm], AtShown(u, j, i + 1, q - 1), Presses(q),
           AfterIndices(u, j, i + q + 1));
      assert [Confirm] + Presses(q) == Presses(q + 1);
    } else {
      assert Presses(1) == [Confirm];
    }
  }

  /** A packet with the next k indices: one press for each of them. */
  lemma SendBatch(updateType: byte, u: Update, j: nat, i: nat, k: nat) returns (e: Event)
    requires WellFormed(updateType, u) && j < |u.structures|
    requires 1 <= k <= 127 && i + k <= |u.structures[j].indices|
    ensures e.Host? && e.packet.length == 2 * k
    ensures Reaches(updateType, AtIndices(u, j, i), [e] + Presses(k), AfterIndices(u, j, i + k))
  {
    var indices := u.structures[j].indices;
    var batch := indices[i..i + k];
    FlatLength(batch, 2);
    e := Send(P1_ACCESS_STRUCTURE, Flat(batch));
    PiecesAre(batch);
    Taken(updateType, u, j, i, k, e);
    Once(updateType, AtIndices(u, j, i), e, AtShown(u, j, i, k - 1));
    hide Reaches, AtShown, AfterIndices, VersionOf, StructureCount, AtIndices;
    ConfirmAll(updateType, u, j, i, k - 1);
    Then(updateType, AtIndices(u, j, i), [e], AtShown(u, j, i, k - 1), Presses(k), AfterIndices(u, j, i + k));
  }

  lemma Taken(updateType: byte, u: Update, j: nat, i: nat, k: nat, e: Event)
    requires WellFormed(updateType, u) && j < |u.structures|
    requires 1 <= k <= 127 && i + k <= |u.structures[j].indices| && e.Host?
    requires e.packet.p1 == P1_ACCESS_STRUCTURE && e.packet.p2 == 0 && e.packet.length == 2 * k
    requires Pieces(e.packet.data, e.packet.length) == u.structures[j].indices[i..i + k]
    ensures Take(updateType, AtIndices(u, j, i), e) == Ok(AtShown(u, j, i, k - 1))
  {
    hide VersionOf, StructureCount, Structures, Pieces;
    var indices := u.structures[j].indices;
    assert indices[i..i + k][0] == indices[i] && indices[i..i + k][1..] == indices[i + 1..i + k];
    assert indices[..i] + [indices[i]] == indices[..i + 1];
  }

  lemma PiecesAre(batch: seq<bytes>)
    requires AllOf(batch, 2) && |batch| <= 127 && |Flat(batch)| == 2 * |batch|
    ensures Pieces(Pad(Flat(batch)), 2 * |batch|) == batch
  {
    hide Flat, Pad;
    var data := Pad(Flat(batch));
    assert data[..2 * |batch|] == Flat(batch);
    forall i | 0 <= i < |batch|
      ensures data[2 * i..2 * i + 2] == batch[i]
    {
      FlatItem(batch, i);
      FlatPart(batch, 2, i);
      Front(data, Flat(batch), 2 * i);
    }
  }

  lemma Front(data: bytes, list: bytes, k: nat)
    requires k + 2 <= |list| <= |data| && data[..|list|] == list
    ensures data[k..k + 2] == list[k..k + 2]
  {
  }

  function Total(sizes: seq<nat>): (r: nat) {
    if sizes == [] then 0 else sizes[0] + Total(sizes[1..])
  }

  /** Any cutting of the indices into packets of 1 to 127 of them is taken. */
  lemma {:induction false} SendBatches(updateType: byte, u: Update, j: nat, i: nat, sizes: seq<nat>)
    returns (events: seq<Event>)
    requires WellFormed(updateType, u) && j < |u.structures| && i + Total(sizes) == |u.structures[j].indices|
    requires sizes != [] && forall k | 0 <= k < |sizes| :: 1 <= sizes[k] <= 127
    ensures Reaches(updateType, AtIndices(u, j, i), events, AtThreshold(u, j))
    ensures |events| == |sizes| + Total(sizes) && events[0].Host? && events[0].packet.length == 2 * sizes[0]
    decreases |sizes|
  {
    hide Reaches, AtIndices, AtThreshold, VersionOf, StructureCount, Presses;
    var k := sizes[0];
    var e := SendBatch(updateType, u, j, i, k);
    PressCount(k);
    events := [e] + Presses(k);
    if |sizes| > 1 {
      assert sizes[1..][0] == sizes[1];
      Positive(sizes[1..]);
      var rest := SendBatches(updateType, u, j, i + k, sizes[1..]);
      Then(updateType, AtIndices(u, j, i), events, AtIndices(u, j, i + k), rest, AtThreshold(u, j));
      events := events + rest;
    } else {
      assert sizes[1..] == [];
    }
  }

  lemma PressCount(n: nat)
    ensures |Presses(n)| == n
  {
  }

  lemma Positive(sizes: seq<nat>)
    requires sizes != [] && sizes[0] >= 1
    ensures Total(sizes) >= 1
  {
  }

  /** One index a packet. */
  function Ones(n: nat): (r: seq<nat>)
    ensures |r| == n && Total(r) == n && forall k | 0 <= k < n :: r[k] == 1
  {
    if n == 0 then [] else [1] + Ones(n - 1)
  }

  lemma SendSize(updateType: byte, u: Update, j: nat) returns (e: Event)
    requires WellFormed(updateType, u) && j < |u.structures|
    ensures Reaches(updateType, AtSize(u, j), [e], AtIndices(u, j, 0))
  {
    var n := |u.structures[j].indices|;
    e := Send(P1_ACCESS_STRUCTURE_INITIAL, Put2(n));
    ReadPut2([], n);
    assert [] + Put2(n) == Put2(n);
    Once(updateType, AtSize(u, j), e, AtIndices(u, j, 0));
  }

  lemma SendThreshold(updateType: byte, u: Update, j: nat) returns (events: seq<Event>)
    requires WellFormed(updateType, u) && j < |u.structures|
    ensures Reaches(updateType, AtThreshold(u, j), events, AtSize(u, j + 1))
  {
    var s := u.structures[j];
    var e := Send(P1_ACCESS_STRUCTURE_THRESHOLD, s.threshold);
    var shown := AtThreshold(u, j).(threshold := s.threshold, stage := ThresholdShown);
    Once(updateType, AtThreshold(u, j), e, shown);
    assert s.indices[..|s.indices|] == s.indices;
    assert u.structures[..j] + [Structure(s.indices, s.threshold)] == u.structures[..j + 1];
    Once(updateType, shown, Confirm, AtSize(u, j + 1));
    Then(updateType, AtThreshold(u, j), [e], shown, [Confirm], AtSize(u, j + 1));
    events := [e] + [Confirm];
  }

  lemma SendStructure(updateType: byte, u: Update, j: nat) returns (events: seq<Event>)
    requires WellFormed(updateType, u) && j < |u.structures|
    ensures Reaches(updateType, AtSize(u, j), events, AtSize(u, j + 1))
  {
    hide Reaches, AtIndices, AtThreshold, AtSize, VersionOf, StructureCount;
    var e := SendSize(updateType, u, j);
    var xs;
    if u.structures[j].indices == [] {
      xs := SendNoIndices(updateType, u, j);
    } else {
      xs := SendBatches(updateType, u, j, 0, Ones(|u.structures[j].indices|));
    }
    var ys := SendThreshold(updateType, u, j);
    Then(updateType, AtSize(u, j), [e], AtIndices(u, j, 0), xs, AtThreshold(u, j));
    Then(updateType, AtSize(u, j), [e] + xs, AtThreshold(u, j), ys, AtSize(u, j + 1));
    events := [e] + xs + ys;
  }

  lemma {:induction false} SendStructures(updateType: byte, u: Update, j: nat) returns (events: seq<Event>)
    requires WellFormed(updateType, u) && j < |u.structures|
    ensures Reaches(updateType, AtSize(u, j), events, AtSize(u, |u.structures|))
    decreases |u.structures| - j
  {
    hide Reaches, AtSize, VersionOf, StructureCount;
    events := SendStructure(updateType, u, j);
    if j + 1 < |u.structures| {
      var rest := SendStructures(updateType, u, j + 1);
      Then(updateType, AtSize(u, j), events, AtSize(u, j + 1), rest, AtSize(u, |u.structures|));
      events := events + rest;
    }
  }

  /** Completeness. */
  lemma SendAll(updateType: byte, u: Update) returns (events: seq<Event>)
    requires WellFormed(updateType, u)
    ensures Run(Taker(updateType), BEGIN, events).Ok? && Run(Taker(updateType), BEGIN, events).value.stage.Done?
    ensures Received(Run(Taker(updateType), BEGIN, events).value) == u
  {
    hide Run;
    var e := SendStart(updateType, u);
    var xs := SendKeys(updateType, u, 0);
    var ys := SendStructures(updateType, u, 0);
    Then(updateType, BEGIN, [e], AtKeys(u, 0), xs, AtSize(u, 0));
    Then(updateType, BEGIN, [e] + xs, AtSize(u, 0), ys, AtSize(u, |u.structures|));
    events := [e] + xs + ys;
    assert u.keys[..|u.keys|] == u.keys && u.structures[..|u.structures|] == u.structures;
  }

  // ------------------------------------------------------------------ reading the serialization

  lemma SplitStructure(x: Structure, y: Structure, r: bytes, s: bytes)
    requires |x.indices| < 0x1_0000 && |y.indices| < 0x1_0000 && AllOf(x.indices, 2) && AllOf(y.indices, 2)
    requires |x.threshold| == |y.threshold| && StructureBytes(x) + r == StructureBytes(y) + s
    ensures x == y && r == s
  {
    hide Flat, Put2;
    Regroup(Put2(|x.indices|) + Flat(x.indices), x.threshold, r);
    Regroup(Put2(|y.indices|) + Flat(y.indices), y.threshold, s);
    SplitCounted(x.indices, y.indices, 2, x.threshold + r, y.threshold + s);
    Split(x.threshold, y.threshold, r, s);
  }

  lemma {:induction false} StructuresCons(x: seq<Structure>)
    requires Structures(x) && x != []
    ensures StructuresBytes(x) == StructureBytes(x[0]) + StructuresBytes(x[1..])
  {
    hide StructureBytes;
    var n := |x| - 1;
    if n == 0 {
      assert StructuresBytes(x[..0]) == [] && StructuresBytes(x[1..]) == [];
    } else {
      StructuresCons(x[..n]);
      assert x[..n][1..] == x[1..][..n - 1];
      Regroup(StructureBytes(x[0]), StructuresBytes(x[1..][..n - 1]), StructureBytes(x[n]));
    }
  }

  lemma {:induction false} SplitStructures(x: seq<Structure>, y: seq<Structure>)
    requires |x| == |y| && Structures(x) && Structures(y) && StructuresBytes(x) == StructuresBytes(y)
    ensures x == y
  {
    if x != [] {
      hide StructureBytes;
      StructuresCons(x);
      StructuresCons(y);
      hide StructuresBytes;
      SplitStructure(x[0], y[0], StructuresBytes(x[1..]), StructuresBytes(y[1..]));
      SplitStructures(x[1..], y[1..]);
      assert x == [x[0]] + x[1..] && y == [y[0]] + y[1..];
    }
  }

  lemma UpdateBytesInjective(updateType: byte, u: Update, v: Update)
    requires WellFormed(updateType, u) && WellFormed(updateType, v) && UpdateBytes(u) == UpdateBytes(v)
    ensures u == v
  {
    hide Flat, Put2, StructuresBytes, Structures, VersionOf, StructureCount;
    var x := Put2(|u.keys|) + Flat(u.keys) + StructuresBytes(u.structures);
    var y := Put2(|v.keys|) + Flat(v.keys) + StructuresBytes(v.structures);
    assert UpdateBytes(u) == u.header + ([u.prefix] + x) && UpdateBytes(v) == v.header + ([v.prefix] + y);
    Split(u.header, v.header, [u.prefix] + x, [v.prefix] + y);
    Split([u.prefix], [v.prefix], x, y);
    SameNumber(u.prefix, v.prefix);
    SplitCounted(u.keys, v.keys, 33, StructuresBytes(u.structures), StructuresBytes(v.structures));
    SplitStructures(u.structures, v.structures);
  }

  // ------------------------------------------------------------------ what can be signed

  ghost predicate Signs(updateType: byte, events: seq<Event>, b: bytes) {
    && Run(Taker(updateType), BEGIN, events).Ok? && Run(Taker(updateType), BEGIN, events).value.stage.Done?
    && Gathered(Taker(updateType), Hashed, BEGIN, events) == b
  }

  /** A byte string can be brought to the sign screen if and only if it is the serialization of a
      well-formed update. */
  lemma SignedStrings(updateType: byte, b: bytes)
    ensures (exists events: seq<Event> :: Signs(updateType, events, b))
       <==> (exists u: Update :: WellFormed(updateType, u) && UpdateBytes(u) == b)
  {
    hide Structures, UpdateBytes, Run, Gathered, Rendered, UpdateFlows, VersionOf, StructureCount;
    if events: seq<Event> :| Signs(updateType, events, b) {
      SignedIsShown(updateType, events);
      assert UpdateBytes(Received(Run(Taker(updateType), BEGIN, events).value)) == b;
    }
    if u: Update :| WellFormed(updateType, u) && UpdateBytes(u) == b {
      var events := SendAll(updateType, u);
      SignedIsShown(updateType, events);
      assert Signs(updateType, events, b);
    }
  }

  /** Runs that sign the same bytes have shown the same screens, however the host cut the lists. */
  lemma SignedBytesDetermineScreens(updateType: byte, b: bytes, xs: seq<Event>, ys: seq<Event>)
    requires Signs(updateType, xs, b) && Signs(updateType, ys, b)
    ensures ProgressOk(updateType, Run(Taker(updateType), BEGIN, xs).value)
    ensures ProgressOk(updateType, Run(Taker(updateType), BEGIN, ys).value)
    ensures Rendered(updateType, Run(Taker(updateType), BEGIN, xs).value)
        == Rendered(updateType, Run(Taker(updateType), BEGIN, ys).value)
  {
    hide WellFormed, UpdateBytes, Run, Gathered, Rendered, UpdateFlows, ProgressOk;
    SignedIsShown(updateType, xs);
    SignedIsShown(updateType, ys);
    UpdateBytesInjective(updateType, Received(Run(Taker(updateType), BEGIN, xs).value),
        Received(Run(Taker(updateType), BEGIN, ys).value));
  }
}
