/** Exactly which byte strings can be signed as transfers. */
module TransferComplete {
  import opened Bytes
  import opened Lists
  import opened Device
  import opened Runs
  import opened DisplayCbor
  import opened SignTransfer

  /** Header, recipient, memo length, memo and amount. */
  ghost predicate Strings(header: bytes, to: bytes, declared: u16, memo: bytes, amount: bytes, b: bytes) {
    && |header| == 61 && header[60] == TRANSFER_WITH_MEMO && |to| == 32 && |amount| == 8
    && declared <= MAX_MEMO_SIZE && MemoOk(declared, memo)
    && b == header + to + Put2(declared) + memo + amount
  }

  function Packed(p1: byte, b: bytes): (r: Event)
    requires |b| <= 255
  {
    Host(Packet(p1, 0, Pad(b), |b|))
  }

  lemma SendStart(header: bytes, to: bytes, declared: u16) returns (e: Event)
    requires |header| == 61 && header[60] == TRANSFER_WITH_MEMO && |to| == 32 && declared <= MAX_MEMO_SIZE
    ensures Take(BEGIN, e) == Ok(Progress(header, to, MemoInitial(declared)))
  {
    var head := [0] + header + to;
    ReadPut2(head, declared);
    hide Put2, U2BE;
    var data := Pad(head + Put2(declared));
    assert data[..94] == head;
    assert data[0] == data[..94][0] && data[61] == data[..94][61];
    assert data[1..62] == data[..94][1..62] == header && data[62..94] == data[..94][62..94] == to;
    e := Packed(P1_INITIAL_WITH_MEMO, head + Put2(declared));
  }

  /** The packets of the memo. */
  lemma SendMemoPackets(p: Progress, memo: bytes) returns (events: seq<Event>, t: Transit)
    requires p.stage.MemoInitial? && p.stage.declared <= MAX_MEMO_SIZE && MemoOk(p.stage.declared, memo)
    ensures Run(Take, p, events) == Ok(p.(stage := Amount(t))) && t.hashed == memo && t.declared == p.stage.declared
  {
    hide MemoOk, TransitOk, StartMemo, ContinueMemo;
    var first, k, second, more;
    first, k, second, more, t := SendMemo(p.stage.declared, memo);
    var x, y := Host(Packet(P1_MEMO, 0, first, k)), Host(Packet(P1_MEMO, 0, second, more));
    One(Take, p, x);
    var r := BeginTransit(p.stage.declared, first, k).value;
    if r.memo.remaining == 0 {
      events := [x];
    } else {
      var q := p.(stage := MemoMore(r));
      One(Take, q, y);
      Both(Take, p, [x], q, [y], p.(stage := Amount(t)));
      events := [x] + [y];
    }
  }

  lemma SendAll(header: bytes, to: bytes, declared: u16, memo: bytes, amount: bytes, b: bytes)
    returns (events: seq<Event>, t: Transit)
    requires Strings(header, to, declared, memo, amount, b)
    ensures Run(Take, BEGIN, events) == Ok(Progress(header, to, Done(t, amount)))
    ensures t.hashed == memo && t.declared == declared
  {
    hide MemoOk, Take, Run;
    var x := SendStart(header, to, declared);
    var p := Progress(header, to, MemoInitial(declared));
    var ys;
    ys, t := SendMemoPackets(p, memo);
    var q := p.(stage := Amount(t));
    var z := SendAmount(q, amount);
    var end := Progress(header, to, Done(t, amount));
    One(Take, BEGIN, x);
    One(Take, q, z);
    Both(Take, BEGIN, [x], p, ys, q);
    Both(Take, BEGIN, [x] + ys, q, [z], end);
    events := [x] + ys + [z];
  }

  lemma SendAmount(q: Progress, amount: bytes) returns (z: Event)
    requires q.stage.Amount? && |amount| == 8
    ensures Take(q, z) == Ok(q.(stage := Done(q.stage.memo, amount)))
  {
    z := Packed(P1_AMOUNT, amount);
    assert Pad(amount)[..8] == amount;
  }

  /** Such a string can be read in one way only. */
  lemma StringsOnce(header: bytes, to: bytes, declared: u16, memo: bytes, amount: bytes,
                    header': bytes, to': bytes, declared': u16, memo': bytes, amount': bytes, b: bytes)
    requires Strings(header, to, declared, memo, amount, b) && Strings(header', to', declared', memo', amount', b)
    ensures header == header' && to == to' && declared == declared' && memo == memo' && amount == amount'
  {
    hide MemoOk, Put2;
    Split(header + to + Put2(declared) + memo, header' + to' + Put2(declared') + memo', amount, amount');
    Split(header + to + Put2(declared), header' + to' + Put2(declared'), memo, memo');
    Split(header + to, header' + to', Put2(declared), Put2(declared'));
    Split(header, header', to, to');
    Put2Injective(declared, declared');
  }

  /** A byte string can be brought to the sign screen as a transfer with memo if and only if it consists of
      header, recipient, memo length, such a memo as DisplayCbor.MemoOk describes, and amount. */
  lemma SignedStrings(b: bytes)
    ensures (exists events: seq<Event> :: Signs(events, b))
        <==> (exists header, to, declared, memo, amount :: Strings(header, to, declared, memo, amount, b))
  {
    hide Take, Run, Gathered, Transcript, MemoOk, TransitOk, Put2;
    if events: seq<Event> :| Signs(events, b) {
      SignedIsTransfer(events, b);
      var p := Run(Take, BEGIN, events).value;
      ReceivedMemo(p.stage.memo);
      assert Strings(p.header, p.to, p.stage.memo.declared, p.stage.memo.hashed, p.stage.amount, b);
    }
    if header: bytes, to: bytes, declared: u16, memo: bytes, amount: bytes :|
      Strings(header, to, declared, memo, amount, b)
    {
      var events, t := SendAll(header, to, declared, memo, amount, b);
      var gathered := Gathered(Take, HashedBy, BEGIN, events);
      assert Signs(events, gathered);
      SignedIsTransfer(events, gathered);
    }
  }

  // ------------------------------------------------------------------ without memo

  ghost predicate SignsPlain(events: seq<Event>, b: bytes) {
    var r := Run(TakePlain, Unsent, events);
    r.Ok? && r.value.Sent? && Gathered(TakePlain, HashedPlain, Unsent, events) == b
  }

  /** The same for transfers without memo. */
  lemma PlainStrings(b: bytes)
    ensures (exists events: seq<Event> :: SignsPlain(events, b))
        <==> (exists header, to, amount :: SerializesPlain(header, to, amount, b))
  {
    if events: seq<Event> :| SignsPlain(events, b) {
      assert events != [];
      PlainSigned(events, Run(TakePlain, Unsent, events).value);
    }
    if header: bytes, to: bytes, amount: bytes :| SerializesPlain(header, to, amount, b) {
      var e := SendPlain(header, to, amount);
      hide TakePlain, HashedPlain;
      One(TakePlain, Unsent, e);
      var gathered := Gathered(TakePlain, HashedPlain, Unsent, [e]);
      PlainSigned([e], Sent(header, to, amount));
      assert SignsPlain([e], gathered);
    }
  }

  lemma SendPlain(header: bytes, to: bytes, amount: bytes) returns (e: Event)
    requires |header| == 61 && header[60] == TRANSFER && |to| == 32 && |amount| == 8
    ensures TakePlain(Unsent, e) == Ok(Sent(header, to, amount))
  {
    var b := [0] + header + to + amount;
    var data := Pad(b);
    assert data[..102] == b;
    assert data[0] == data[..102][0] && data[61] == data[..102][61];
    assert data[1..62] == data[..102][1..62] == header && data[62..94] == data[..102][62..94] == to;
    assert data[94..102] == data[..102][94..102] == amount;
    e := Packed(0, b);
  }
}
