/** Exactly which byte strings can be signed as scheduled transfers. */
module ScheduleComplete {
  import opened Bytes
  import opened Lists
  import opened Device
  import opened Runs
  import opened DisplayCbor
  import opened ScheduleTx
  import opened ScheduleRuns

  /** The memo with its length, for transfers that have one. */
  datatype Note = NoNote | Note(declared: u16, memo: bytes)

  function NoteBytes(note: Note): (r: bytes) {
    match note case NoNote => [] case Note(declared, memo) => Put2(declared) + memo
  }

  /** Header, recipient, memo, and at least one release, all of them accepted, after their number. */
  ghost predicate Strings(header: bytes, to: bytes, note: Note, pairs: seq<bytes>, b: bytes) {
    && |header| == 61 && |to| == 32
    && header[60] == (if note.Note? then TRANSFER_WITH_SCHEDULE_WITH_MEMO else TRANSFER_WITH_SCHEDULE)
    && (note.Note? ==> note.declared <= MAX_MEMO_SIZE && MemoOk(note.declared, note.memo))
    && 1 <= |pairs| <= 255 && Releases(pairs)
    && b == header + to + NoteBytes(note) + [|pairs|] + Flat(pairs)
  }

  function Packed(p1: byte, b: bytes): (r: Event)
    requires |b| <= 255
  {
    Host(Packet(p1, 0, Pad(b), |b|))
  }

  // ------------------------------------------------------------------ before the releases

  lemma SendPlainStart(header: bytes, to: bytes, n: byte) returns (e: Event)
    requires |header| == 61 && header[60] == TRANSFER_WITH_SCHEDULE && |to| == 32
    ensures Take(Begin(false), e) == Ok(Begin(false).(header := header, to := to, n := n, stage := NextPacket))
  {
    var b := [0] + header + to + [n];
    var data := Pad(b);
    assert data[..95] == b;
    assert data[0] == data[..95][0] && data[61] == data[..95][61] && data[94] == data[..95][94];
    assert data[1..62] == data[..95][1..62] == header && data[62..94] == data[..95][62..94] == to;
    e := Packed(P1_INITIAL_PACKET, b);
  }

  lemma SendMemoStart(header: bytes, to: bytes, n: byte, declared: u16) returns (e: Event)
    requires |header| == 61 && header[60] == TRANSFER_WITH_SCHEDULE_WITH_MEMO && |to| == 32 && declared <= MAX_MEMO_SIZE
    ensures Take(Begin(true), e) == Ok(Begin(true).(header := header, to := to, n := n, stage := MemoStart(declared)))
  {
    var head := [0] + header + to + [n];
    ReadPut2(head, declared);
    hide Put2, U2BE;
    var data := Pad(head + Put2(declared));
    assert data[..95] == head;
    assert data[0] == data[..95][0] && data[61] == data[..95][61] && data[94] == data[..95][94];
    assert data[1..62] == data[..95][1..62] == header && data[62..94] == data[..95][62..94] == to;
    e := Packed(P1_INITIAL_WITH_MEMO, head + Put2(declared));
  }

  lemma SendMemoPackets(p: Progress, memo: bytes) returns (events: seq<Event>, t: Transit)
    requires p.stage.MemoStart? && p.stage.declared <= MAX_MEMO_SIZE && MemoOk(p.stage.declared, memo) && |p.pairs| <= p.n
    ensures Run(Take, p, events) == Ok(p.(memo := Some(t), stage := NextPacket))
    ensures t.hashed == memo && t.declared == p.stage.declared
  {
    hide MemoOk, TransitOk, StartMemo, ContinueMemo;
    var first, k, second, more;
    first, k, second, more, t := SendMemo(p.stage.declared, memo);
    var x, y := Host(Packet(P1_MEMO, 0, first, k)), Host(Packet(P1_MEMO, 0, second, more));
    One(Take, p, x);
    var r := BeginTransit(p.stage.declared, first, k).value;
    if r.memo.remaining == 0 {
      events := [x];
    } else {
      var q := p.(memo := Some(r), stage := MemoMore);
      One(Take, q, y);
      Both(Take, p, [x], q, [y], p.(memo := Some(t), stage := NextPacket));
      events := [x] + [y];
    }
  }

  /** Everything up to the first packet of releases. */
  lemma SendHead(header: bytes, to: bytes, note: Note, pairs: seq<bytes>, b: bytes)
    returns (events: seq<Event>, p: Progress)
    requires Strings(header, to, note, pairs, b)
    ensures Run(Take, Begin(note.Note?), events) == Ok(p) && p.stage.NextPacket? && p.n == |pairs| && BeforePairs(p)
    ensures p.header == header && p.to == to && p.withMemo == note.Note? == p.memo.Some?
    ensures note.Note? ==> p.memo.value.hashed == note.memo && p.memo.value.declared == note.declared
  {
    hide MemoOk, Take, Run, Releases, Flat;
    match note
    case NoNote =>
      var x := SendPlainStart(header, to, |pairs|);
      p := Begin(false).(header := header, to := to, n := |pairs|, stage := NextPacket);
      One(Take, Begin(false), x);
      events := [x];
    case Note(declared, memo) =>
      var x := SendMemoStart(header, to, |pairs|, declared);
      var q := Begin(true).(header := header, to := to, n := |pairs|, stage := MemoStart(declared));
      var ys, t := SendMemoPackets(q, memo);
      p := q.(memo := Some(t), stage := NextPacket);
      One(Take, Begin(true), x);
      Both(Take, Begin(true), [x], q, ys, p);
      events := [x] + ys;
  }

  // ------------------------------------------------------------------ packets of releases as events

  /** The presses that show the rest of a packet. */
  lemma {:induction false} Presses(q: Progress) returns (events: seq<Event>)
    requires q.stage.PairShown? && AllOf(q.packet, 16) && Drain(q).Ok?
    ensures Run(Take, q, events) == Drain(q)
    decreases |q.packet|
  {
    hide Accepted, Run;
    var r := Next(q).value;
    One(Take, q, Confirm);
    if r.stage.PairShown? {
      var rest := Presses(r);
      Both(Take, q, [Confirm], r, rest, Drain(r).value);
      events := [Confirm] + rest;
    } else {
      events := [Confirm];
    }
  }

  lemma SendPacket(p: Progress, data: Cdata) returns (events: seq<Event>)
    requires p.stage.NextPacket? && |p.pairs| <= p.n && Drain(TakePacket(p, data)).Ok?
    ensures Run(Take, p, events) == Drain(TakePacket(p, data))
  {
    hide Accepted, Run, TakePacket, Next;
    var x := Host(Packet(P1_SCHEDULED_TRANSFER_PAIRS, 0, data, 240));
    var q := Next(TakePacket(p, data)).value;
    One(Take, p, x);
    if q.stage.PairShown? {
      NextPacketOk(TakePacket(p, data));
      var rest := Presses(q);
      Both(Take, p, [x], q, rest, Drain(q).value);
      events := [x] + rest;
    } else {
      events := [x];
    }
  }

  lemma NextPacketOk(p: Progress)
    requires AllOf(p.packet, 16) && Next(p).Ok?
    ensures AllOf(Next(p).value.packet, 16)
  {
    hide Accepted;
  }

  lemma {:induction false} SendEvents(p: Progress, packets: seq<Cdata>) returns (events: seq<Event>)
    requires |p.pairs| <= p.n && Send(p, packets).Ok?
    ensures Run(Take, p, events) == Send(p, packets)
    decreases |packets|
  {
    hide Take, Drain, TakePacket;
    if packets == [] {
      events := [];
      assert Run(Take, p, []) == Ok(p);
    } else {
      var q := Drain(TakePacket(p, packets[0])).value;
      hide Run;
      var xs := SendPacket(p, packets[0]);
      var ys := SendEvents(q, packets[1..]);
      Both(Take, p, xs, q, ys, Send(p, packets).value);
      events := xs + ys;
    }
  }

  lemma SendAll(header: bytes, to: bytes, note: Note, pairs: seq<bytes>, b: bytes)
    returns (events: seq<Event>, p: Progress)
    requires Strings(header, to, note, pairs, b)
    ensures Run(Take, Begin(note.Note?), events) == Ok(p) && p.stage.Done? && p.pairs == pairs && p.n == |pairs|
    ensures p.header == header && p.to == to && note.Note? == p.memo.Some?
    ensures note.Note? ==> p.memo.value.hashed == note.memo && p.memo.value.declared == note.declared
  {
    hide MemoOk, Take, Run, Flat, Send, Packets, ProgressOk;
    var xs, q := SendHead(header, to, note, pairs, b);
    HeadReached(note.Note?, xs);
    EveryScheduleCanBeSigned(q, pairs);
    p := Send(q, Packets(pairs)).value;
    var ys := SendEvents(q, Packets(pairs));
    Both(Take, Begin(note.Note?), xs, q, ys, p);
    events := xs + ys;
    assert q.pairs + pairs == pairs;
  }

  /** What has been received is well formed in every run. */
  lemma HeadReached(withMemo: bool, events: seq<Event>)
    requires Run(Take, Begin(withMemo), events).Ok?
    ensures ProgressOk(Run(Take, Begin(withMemo), events).value)
  {
    forall p: Progress, e: Event | ProgressOk(p) && Take(p, e).Ok?
      ensures ProgressOk(Take(p, e).value) && Transcript(Take(p, e).value) == Transcript(p) + HashedBy(p, e)
    {
      hide ProgressOk, Transcript, HashedBy;
      TakeExtends(p, e);
    }
    BeginOk(withMemo);
    hide ProgressOk, Take, HashedBy, Run, Gathered, Transcript;
    assert Sound(Take, HashedBy, ProgressOk, Transcript);
    RunSound(Take, HashedBy, ProgressOk, Transcript, Begin(withMemo), events);
  }

  // ------------------------------------------------------------------ what can be signed

  function NoteOf(p: Progress): (r: Note) {
    if p.memo.Some? then Note(p.memo.value.declared, p.memo.value.hashed) else NoNote
  }

  lemma SerializesStrings(withMemo: bool, p: Progress, b: bytes)
    requires Serializes(withMemo, p, b)
    ensures Strings(p.header, p.to, NoteOf(p), p.pairs, b) && NoteOf(p).Note? == withMemo
  {
    if withMemo { ReceivedMemo(p.memo.value); }
    hide MemoOk, TransitOk, Flat, Put2, Accepted;
  }

  /** A byte string can be brought to the sign screen as a scheduled transfer if and only if it consists of
      header, recipient, memo if there is one, and at least one release, all accepted, after their number. */
  lemma SignedStrings(withMemo: bool, b: bytes)
    ensures (exists events: seq<Event> :: Reached(withMemo, events, b))
        <==> (exists header, to, note: Note, pairs ::
                note.Note? == withMemo && Strings(header, to, note, pairs, b))
  {
    hide Take, Run, Gathered, Strings, Serializes;
    if events: seq<Event> :| Reached(withMemo, events, b) {
      SignedIsSchedule(withMemo, events, b);
      SerializesStrings(withMemo, Run(Take, Begin(withMemo), events).value, b);
    }
    if header: bytes, to: bytes, note: Note, pairs: seq<bytes> :|
      note.Note? == withMemo && Strings(header, to, note, pairs, b)
    {
      var events, p := SendAll(header, to, note, pairs, b);
      var gathered := Gathered(Take, HashedBy, Begin(withMemo), events);
      assert Reached(withMemo, events, gathered);
      SignedIsSchedule(withMemo, events, gathered);
      SameString(withMemo, p, gathered, header, to, note, pairs, b);
    }
  }

  lemma SameString(withMemo: bool, p: Progress, gathered: bytes,
                   header: bytes, to: bytes, note: Note, pairs: seq<bytes>, b: bytes)
    requires Serializes(withMemo, p, gathered) && Strings(header, to, note, pairs, b) && note.Note? == withMemo
    requires p.header == header && p.to == to && p.pairs == pairs && p.memo.Some? == withMemo
    requires note.Note? ==> p.memo.value.hashed == note.memo && p.memo.value.declared == note.declared
    ensures gathered == b
  {
    hide MemoOk, Received, Flat, Put2, Releases;
  }

  // ------------------------------------------------------------------ how they can be read

  ghost predicate AsDeclared(note: Note) {
    note.Note? ==> |note.memo| == note.declared
  }

  /** Such a string can be read in one way only, provided that its memo is as long as declared. */
  lemma StringsOnce(header: bytes, to: bytes, note: Note, pairs: seq<bytes>,
                    header': bytes, to': bytes, note': Note, pairs': seq<bytes>, b: bytes)
    requires Strings(header, to, note, pairs, b) && Strings(header', to', note', pairs', b)
    requires AsDeclared(note) && AsDeclared(note')
    ensures header == header' && to == to' && note == note' && pairs == pairs'
  {
    hide MemoOk, Put2, Flat, Accepted, NoteBytes, AsDeclared;
    Regroup(header + to, NoteBytes(note) + [|pairs|], Flat(pairs));
    Regroup(header' + to', NoteBytes(note') + [|pairs'|], Flat(pairs'));
    Regroup(header + to, NoteBytes(note), [|pairs|]);
    Regroup(header' + to', NoteBytes(note'), [|pairs'|]);
    Regroup(NoteBytes(note), [|pairs|], Flat(pairs));
    Regroup(NoteBytes(note'), [|pairs'|], Flat(pairs'));
    SameParts(header, to, note, [|pairs|] + Flat(pairs), header', to', note', [|pairs'|] + Flat(pairs'));
    Split([|pairs|], [|pairs'|], Flat(pairs), Flat(pairs'));
    assert [|pairs|][0] == [|pairs'|][0];
    SplitFlat(pairs, pairs', 16, [], []);
  }

  lemma SameParts(header: bytes, to: bytes, note: Note, x: bytes, header': bytes, to': bytes, note': Note, y: bytes)
    requires |header| == |header'| == 61 && |to| == |to'| == 32 && AsDeclared(note) && AsDeclared(note')
    requires note.Note? == (header[60] == TRANSFER_WITH_SCHEDULE_WITH_MEMO)
    requires note'.Note? == (header'[60] == TRANSFER_WITH_SCHEDULE_WITH_MEMO)
    requires header + to + (NoteBytes(note) + x) == header' + to' + (NoteBytes(note') + y)
    ensures header == header' && to == to' && note == note' && x == y
  {
    hide NoteBytes, AsDeclared;
    Split(header + to, header' + to', NoteBytes(note) + x, NoteBytes(note') + y);
    Split(header, header', to, to');
    SameNote(note, x, note', y);
  }

  lemma SameNote(note: Note, x: bytes, note': Note, y: bytes)
    requires AsDeclared(note) && AsDeclared(note') && note.Note? == note'.Note?
    requires NoteBytes(note) + x == NoteBytes(note') + y
    ensures note == note' && x == y
  {
    hide Put2;
    if note.Note? {
      Regroup(Put2(note.declared), note.memo, x);
      Regroup(Put2(note'.declared), note'.memo, y);
      Split(Put2(note.declared), Put2(note'.declared), note.memo + x, note'.memo + y);
      Put2Injective(note.declared, note'.declared);
      Split(note.memo, note'.memo, x, y);
    } else {
      assert [] + x == x && [] + y == y;
    }
  }

  /** The releases in as many bytes. */
  function Groups(b: bytes): (r: seq<bytes>)
    requires |b| % 16 == 0
    ensures |r| == |b| / 16 && AllOf(r, 16) && Flat(r) == b
  {
    if b == [] then []
    else
      var k := |b| - 16;
      FlatAppend(Groups(b[..k]), b[k..]);
      TakeDrop(b, k);
      Groups(b[..k]) + [b[k..]]
  }

  /** What follows the declared length can be read as a memo before n releases. */
  ghost predicate Reads(declared: u16, rest: bytes, n: byte) {
    && n >= 1 && 1 + 16 * n <= |rest|
    && var k := |rest| - 1 - 16 * n;
       rest[k] == n && MemoOk(declared, rest[..k]) && Releases(Groups(rest[k + 1..]))
  }

  /** Another reading, with the memo at the same place. */
  ghost predicate ReadsElse(note: Note, pairs: seq<bytes>, b: bytes) {
    exists header, to, other: Note, more ::
      Strings(header, to, other, more, b) && (other != note || more != pairs)
  }

  /** The strings with a second reading: those in which some other number of releases is found as many
      releases before the end. */
  lemma SecondReading(header: bytes, to: bytes, note: Note, pairs: seq<bytes>, b: bytes)
    requires Strings(header, to, note, pairs, b) && note.Note?
    ensures |b| >= 95
    ensures ReadsElse(note, pairs, b) <==> exists n: byte :: n != |pairs| && Reads(note.declared, b[95..], n)
  {
    hide MemoOk, Strings, Reads;
    Rest(header, to, note, pairs, b);
    if header': bytes, to': bytes, other: Note, more: seq<bytes> :|
      Strings(header', to', other, more, b) && (other != note || more != pairs)
    {
      OtherReads(header, to, note, pairs, header', to', other, more, b);
    }
    if n: byte :| n != |pairs| && Reads(note.declared, b[95..], n) {
      var other, more := ReadingOf(header, to, note, pairs, n, b);
    }
  }

  lemma OtherReads(header: bytes, to: bytes, note: Note, pairs: seq<bytes>,
                   header': bytes, to': bytes, other: Note, more: seq<bytes>, b: bytes)
    requires Strings(header, to, note, pairs, b) && Strings(header', to', other, more, b) && note.Note?
    requires other != note || more != pairs
    ensures |b| >= 95 && |more| <= 255 && |more| != |pairs| && Reads(note.declared, b[95..], |more|)
  {
    hide MemoOk, Put2, Flat, Releases, Groups, Reads, NoteBytes;
    SameHead(header, to, note, pairs, header', to', other, more, b);
    Rest(header, to, note, pairs, b);
    Rest(header', to', other, more, b);
    if |more| == |pairs| { SameRest(note, pairs, other, more, b[95..]); }
    ReadsIs(other, more, b[95..]);
  }

  lemma ReadingOf(header: bytes, to: bytes, note: Note, pairs: seq<bytes>, n: byte, b: bytes)
    returns (other: Note, more: seq<bytes>)
    requires Strings(header, to, note, pairs, b) && note.Note?
    requires |b| >= 95 && Reads(note.declared, b[95..], n)
    ensures Strings(header, to, other, more, b) && |more| == n
  {
    hide MemoOk, Put2, Flat, Releases, NoteBytes, Groups, Strings;
    Rest(header, to, note, pairs, b);
    var rest := b[95..];
    var k := |rest| - 1 - 16 * n;
    other, more := Note(note.declared, rest[..k]), Groups(rest[k + 1..]);
    GroupsCount(rest[k + 1..], n);
    AtByte(rest, k);
    OtherStrings(header, to, note, pairs, other, more, rest, b);
  }

  lemma GroupsCount(b: bytes, n: nat)
    requires |b| == 16 * n
    ensures |Groups(b)| == n && Flat(Groups(b)) == b
  {
  }

  lemma Grouped(pairs: seq<bytes>)
    requires Releases(pairs)
    ensures AllOf(pairs, 16)
  {
  }

  lemma AroundByte(x: bytes, n: byte, y: bytes)
    ensures var b := x + [n] + y;
            b[..|x|] == x && b[|x|] == n && b[|x| + 1..] == y && |b| == |x| + 1 + |y|
  {
  }

  lemma AtByte(b: bytes, k: nat)
    requires k < |b|
    ensures b == b[..k] + [b[k]] + b[k + 1..]
  {
  }

  lemma Rest(header: bytes, to: bytes, note: Note, pairs: seq<bytes>, b: bytes)
    requires Strings(header, to, note, pairs, b) && note.Note?
    ensures |b| >= 95 && b[95..] == note.memo + [|pairs|] + Flat(pairs)
    ensures |Flat(pairs)| == 16 * |pairs| && AllOf(pairs, 16)
    ensures b == header + to + Put2(note.declared) + b[95..]
  {
    hide MemoOk, Put2, Flat, Accepted;
    FlatLength(pairs, 16);
    var head := header + to + Put2(note.declared);
    assert b == head + (note.memo + [|pairs|] + Flat(pairs));
    assert |head| == 95;
    assert b[95..] == note.memo + [|pairs|] + Flat(pairs);
  }

  lemma SameHead(header: bytes, to: bytes, note: Note, pairs: seq<bytes>,
                 header': bytes, to': bytes, other: Note, more: seq<bytes>, b: bytes)
    requires Strings(header, to, note, pairs, b) && Strings(header', to', other, more, b) && note.Note?
    ensures header == header' && to == to' && other.Note? && other.declared == note.declared
  {
    hide MemoOk, Put2, Flat, Accepted;
    Rest(header, to, note, pairs, b);
    SameKind(header, to, note, pairs, header', to', other, more, b);
    Rest(header', to', other, more, b);
    Split(header + to + Put2(note.declared), header' + to' + Put2(other.declared), b[95..], b[95..]);
    Split(header + to, header' + to', Put2(note.declared), Put2(other.declared));
    Split(header, header', to, to');
    Put2Injective(note.declared, other.declared);
  }

  /** The kind is in the header. */
  lemma SameKind(header: bytes, to: bytes, note: Note, pairs: seq<bytes>,
                 header': bytes, to': bytes, other: Note, more: seq<bytes>, b: bytes)
    requires Strings(header, to, note, pairs, b) && Strings(header', to', other, more, b)
    ensures note.Note? == other.Note?
  {
    hide MemoOk, Put2, Flat, Accepted, NoteBytes;
    assert header[60] == b[60] && header'[60] == b[60];
  }

  lemma SameRest(note: Note, pairs: seq<bytes>, other: Note, more: seq<bytes>, rest: bytes)
    requires note.Note? && other.Note? && note.declared == other.declared && |more| == |pairs| <= 255
    requires AllOf(pairs, 16) && AllOf(more, 16)
    requires rest == note.memo + [|pairs|] + Flat(pairs) == other.memo + [|more|] + Flat(more)
    ensures note == other && pairs == more
  {
    FlatLength(pairs, 16);
    FlatLength(more, 16);
    hide Flat;
    Split(note.memo + [|pairs|], other.memo + [|more|], Flat(pairs), Flat(more));
    Split(note.memo, other.memo, [|pairs|], [|more|]);
    SplitFlat(pairs, more, 16, [], []);
  }

  lemma ReadsIs(note: Note, pairs: seq<bytes>, rest: bytes)
    requires note.Note? && MemoOk(note.declared, note.memo) && 1 <= |pairs| <= 255 && Releases(pairs)
    requires rest == note.memo + [|pairs|] + Flat(pairs)
    ensures Reads(note.declared, rest, |pairs|)
  {
    hide MemoOk, Releases, Flat, Groups;
    assert AllOf(pairs, 16) by { Grouped(pairs); }
    FlatLength(pairs, 16);
    AroundByte(note.memo, |pairs|, Flat(pairs));
    GroupsCount(Flat(pairs), |pairs|);
    SplitFlat(Groups(Flat(pairs)), pairs, 16, [], []);
  }

  lemma OtherStrings(header: bytes, to: bytes, note: Note, pairs: seq<bytes>, other: Note, more: seq<bytes>,
                     rest: bytes, b: bytes)
    requires Strings(header, to, note, pairs, b) && note.Note? && other.Note? && other.declared == note.declared
    requires b == header + to + Put2(note.declared) + rest && rest == other.memo + [|more|] + Flat(more)
    requires MemoOk(other.declared, other.memo) && 1 <= |more| <= 255 && Releases(more)
    ensures Strings(header, to, other, more, b)
  {
    hide MemoOk, Put2, Flat, Releases;
    Together(header + to, Put2(note.declared), other.memo, [|more|], Flat(more));
  }

  lemma Together(x: bytes, p: bytes, m: bytes, n: bytes, f: bytes)
    ensures x + p + (m + n + f) == x + (p + m) + n + f
  {
  }

  /** An integer memo in a longer packet leaves open where the memo ends: declared as one byte, it can be
      the integer alone before two releases, or that and sixteen more bytes before one. */
  lemma TwoReadings(header: bytes, to: bytes, zeros: bytes)
    requires |header| == 61 && header[60] == TRANSFER_WITH_SCHEDULE_WITH_MEMO && |to| == 32
    requires |zeros| == 15 && forall i | 0 <= i < 15 :: zeros[i] == 0
    ensures var b := header + to + ([0, 1] + ([5, 2] + zeros)) + [1] + (zeros + [0]);
            && Strings(header, to, Note(1, [5, 2] + zeros), [zeros + [0]], b)
            && Strings(header, to, Note(1, [5]), [zeros + [1], zeros + [0]], b)
  {
    hide Accepted, Flat, MemoOk, Put2;
    EarlyRelease(zeros + [0]);
    EarlyRelease(zeros + [1]);
    IntegerMemos(zeros);
    FlatTwo(zeros + [1], zeros + [0]);
    SameBytes(header + to, zeros);
    assert NoteBytes(Note(1, [5, 2] + zeros)) == [0, 1] + ([5, 2] + zeros);
    assert NoteBytes(Note(1, [5])) == [0, 1] + [5];
    hide NoteBytes;
  }

  lemma IntegerMemos(zeros: bytes)
    requires |zeros| == 15
    ensures MemoOk(1, [5, 2] + zeros) && MemoOk(1, [5]) && Put2(1) == [0, 1]
  {
    assert ArgumentSize(5) == Some(0);
  }

  lemma SameBytes(x: bytes, zeros: bytes)
    ensures x + ([0, 1] + ([5, 2] + zeros)) + [1] + (zeros + [0])
         == x + ([0, 1] + [5]) + [2] + ((zeros + [1]) + (zeros + [0]))
  {
  }

  lemma FlatTwo(x: bytes, y: bytes)
    ensures Flat([y]) == y && Flat([x, y]) == x + y
  {
    assert [x, y][..1] == [x] && [x][..0] == [] && [y][..0] == [];
    assert [] + x == x && [] + y == y;
  }

  /** The release at the start of 1970. */
  lemma EarlyRelease(pair: bytes)
    requires |pair| == 16 && forall i | 0 <= i < 8 :: pair[i] == 0
    ensures Accepted(pair)
  {
    assert Seconds(pair) == 0;
  }
}
