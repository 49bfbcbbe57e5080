/** The command loop lets every session go on: whatever its handler accepts can be sent and pressed, from any
    point of any history, and ends with the signature. */
module LoopCompletes {
  import opened Bytes
  import opened Lists
  import opened Device
  import opened Runs
  import opened MainHelpers

  // ------------------------------------------------------------------ what the host and the user do

  /** The host sends a packet; the user confirms what a screen shows. */
  function InputOf<M>(ins: byte, e: Event, found: M): (r: Input<M>) {
    match e
    case Host(packet) => Command(CLA, ins, packet, Foreign(Ends, []), found)
    case Confirm => PressContinue
  }

  /** The events of an accepted session, and a press wherever the device asks to go on. */
  function InputsOf<P(!new), M(!new)>(h: Handlers<P, M>, ins: byte, m: M, events: seq<Event>): (r: seq<Input<M>>)
    requires Run(Taker(h, ins), h.begin(ins, m), events).Ok?
  {
    if events == [] then []
    else
      var before, e := events[..|events| - 1], events[|events| - 1];
      var p := Run(Taker(h, ins), h.begin(ins, m), before).value;
      InputsOf(h, ins, m, before) + [InputOf(ins, e, m)]
      + if h.answer(p, e) == Await(Proceed) then [PressContinue] else []
  }

  /** What the device notes of them. */
  function Entries(ins: byte, events: seq<Event>): (r: seq<Entry>) {
    seq(|events|, i requires 0 <= i < |events| => Accepted(ins, events[i], i == 0))
  }

  // ------------------------------------------------------------------ handlers that go on

  /** After a reply the host sends the next packet; after a screen with a callback of its own the user
      confirms; after the question to sign nothing more is accepted. */
  predicate NextFits(reply: Reply, e: Event) {
    match reply
    case Success => e.Host?
    case Await(callback) => callback != Ask && (e.Host? <==> callback == Proceed)
  }

  ghost predicate Answered<P(!new), M(!new)>(h: Handlers<P, M>, ins: byte, p: P, reply: Reply) {
    && (h.done(p) ==> reply == Await(Ask))
    && forall e: Event :: h.take(ins, p, e).Ok? ==> NextFits(reply, e)
  }

  ghost predicate BeginsWell<P(!new), M(!new)>(h: Handlers<P, M>, ok: (byte, P) -> bool) {
    forall ins: byte, m: M :: h.known(ins) ==> ok(ins, h.begin(ins, m)) && Answered(h, ins, h.begin(ins, m), Success)
  }

  ghost predicate GoesOn<P(!new), M(!new)>(h: Handlers<P, M>, ok: (byte, P) -> bool) {
    forall ins: byte, p: P, e: Event :: h.known(ins) && ok(ins, p) && h.take(ins, p, e).Ok? ==>
      ok(ins, h.take(ins, p, e).value) && Answered(h, ins, h.take(ins, p, e).value, h.answer(p, e))
  }

  // ------------------------------------------------------------------ histories

  lemma HistoryOne<P(!new), M(!new)>(h: Handlers<P, M>, inputs: seq<Input<M>>, input: Input<M>)
    ensures var before := History(h, inputs);
            var now := Next(h, before.state, input);
            History(h, inputs + [input]) == Trace(now.state, before.log + now.log)
  {
    assert (inputs + [input])[..|inputs|] == inputs;
  }

  /** Whatever has happened: when the host has nothing to say, the next command starts a session. */
  lemma AlwaysIdle<P(!new), M(!new)>(h: Handlers<P, M>, inputs: seq<Input<M>>)
    ensures History(h, inputs + [NoApdu]).state.Idle?
  {
    HistoryOne(h, inputs, NoApdu);
  }

  lemma EntriesMore(ins: byte, events: seq<Event>)
    requires events != []
    ensures Entries(ins, events)
         == Entries(ins, events[..|events| - 1]) + [Accepted(ins, events[|events| - 1], |events| == 1)]
  {
  }

  lemma EntriesEnd(ins: byte, log: seq<Entry>, events: seq<Event>)
    ensures EndsWith(log + Entries(ins, events), ins, events)
  {
  }

  /** Where a session stands: its state, its hash, and what it waits for. */
  ghost predicate Standing<P(!new), M(!new)>(
    h: Handlers<P, M>, ins: byte, m: M, events: seq<Event>, log: seq<Entry>, r: Trace<P, M>)
    requires events != [] && Run(Taker(h, ins), h.begin(ins, m), events).Ok?
  {
    var n := |events| - 1;
    var start := h.begin(ins, m);
    var p := Run(Taker(h, ins), start, events[..n]).value;
    var reply := h.answer(p, events[n]);
    && r.log == log + Entries(ins, events)
    && r.state == Session(ins, Run(Taker(h, ins), start, events).value,
                          h.kept(start, events[0]) + Gathered(Taker(h, ins), h.hashed, start, events),
                          if reply == Await(Proceed) then None else Waits(reply))
  }

  /** What a handler has accepted, and the press that may follow. */
  lemma Pressed<P(!new), M(!new)>(
    h: Handlers<P, M>, inputs: seq<Input<M>>, input: Input<M>, ins: byte, q: P, hashed: bytes, reply: Reply,
    log: seq<Entry>)
    requires History(h, inputs + [input]) == Trace(Session(ins, q, hashed, Waits(reply)), log)
    ensures var more := if reply == Await(Proceed) then [PressContinue] else [];
            History(h, inputs + [input] + more)
            == Trace(Session(ins, q, hashed, if reply == Await(Proceed) then None else Waits(reply)), log)
  {
    hide History;
    if reply == Await(Proceed) {
      HistoryOne(h, inputs + [input], PressContinue);
      assert log + [] == log;
    } else {
      assert inputs + [input] + [] == inputs + [input];
    }
  }

  /** The first event of a session. */
  lemma FirstGoes<P(!new), M(!new)>(h: Handlers<P, M>, before: seq<Input<M>>, ins: byte, m: M, e: Event)
    requires h.known(ins) && e.Host? && h.take(ins, h.begin(ins, m), e).Ok?
    requires History(h, before).state.Idle? && Found(History(h, before).state, m) == m
    ensures var p := h.begin(ins, m);
            History(h, before + [InputOf(ins, e, m)])
            == Trace(Session(ins, h.take(ins, p, e).value, h.kept(p, e) + h.hashed(p, e), Waits(h.answer(p, e))),
                     History(h, before).log + [Accepted(ins, e, true)])
  {
    hide History;
    HistoryOne(h, before, InputOf(ins, e, m));
  }

  /** A further event. */
  lemma NextGoes<P(!new), M(!new)>(
    h: Handlers<P, M>, inputs: seq<Input<M>>, ins: byte, m: M, p: P, hashed: bytes, reply: Reply, e: Event)
    requires h.known(ins) && h.take(ins, p, e).Ok? && NextFits(reply, e)
    requires History(h, inputs).state
          == Session(ins, p, hashed, if reply == Await(Proceed) then None else Waits(reply))
    ensures History(h, inputs + [InputOf(ins, e, m)])
         == Trace(Session(ins, h.take(ins, p, e).value, hashed + h.hashed(p, e), Waits(h.answer(p, e))),
                  History(h, inputs).log + [Accepted(ins, e, false)])
  {
    hide History;
    HistoryOne(h, inputs, InputOf(ins, e, m));
  }

  // ------------------------------------------------------------------ whole sessions

  /** The states of an accepted run are well formed, and answered by what comes next. */
  lemma {:induction false} RunAnswered<P(!new), M(!new)>(
    h: Handlers<P, M>, ok: (byte, P) -> bool, ins: byte, m: M, events: seq<Event>)
    requires BeginsWell(h, ok) && GoesOn(h, ok) && h.known(ins) && Run(Taker(h, ins), h.begin(ins, m), events).Ok?
    ensures var start, n := h.begin(ins, m), |events| - 1;
            var q := Run(Taker(h, ins), start, events).value;
            && ok(ins, q)
            && (events == [] ==> q == start && Answered(h, ins, q, Success))
            && (events != [] ==>
                  Answered(h, ins, q, h.answer(Run(Taker(h, ins), start, events[..n]).value, events[n])))
  {
    hide Answered;
    if events != [] {
      RunAnswered(h, ok, ins, m, events[..|events| - 1]);
    }
  }

  lemma OneGathered<P(!new), M(!new)>(h: Handlers<P, M>, ins: byte, m: M, e: Event)
    requires h.take(ins, h.begin(ins, m), e).Ok?
    ensures var start := h.begin(ins, m);
            && Run(Taker(h, ins), start, [e]) == h.take(ins, start, e)
            && Gathered(Taker(h, ins), h.hashed, start, [e]) == h.hashed(start, e)
            && Run(Taker(h, ins), start, [e][..0]) == Ok(start)
  {
    assert [e][..0] == [];
    var start := h.begin(ins, m);
    assert Run(Taker(h, ins), start, []) == Ok(start) && Gathered(Taker(h, ins), h.hashed, start, []) == [];
    assert [] + h.hashed(start, e) == h.hashed(start, e);
  }

  /** From any point at which no session runs, an accepted session can be gone through, event by event. */
  lemma {:induction false} SessionGoes<P(!new), M(!new)>(
    h: Handlers<P, M>, ok: (byte, P) -> bool, before: seq<Input<M>>, ins: byte, m: M, events: seq<Event>)
    requires BeginsWell(h, ok) && GoesOn(h, ok) && h.known(ins)
    requires History(h, before).state.Idle? && Found(History(h, before).state, m) == m
    requires events != [] && Run(Taker(h, ins), h.begin(ins, m), events).Ok?
    ensures Standing(h, ins, m, events, History(h, before).log, History(h, before + InputsOf(h, ins, m, events)))
  {
    var n, start, log := |events| - 1, h.begin(ins, m), History(h, before).log;
    var earlier, e := events[..n], events[n];
    var p := Run(Taker(h, ins), start, earlier).value;
    RunAnswered(h, ok, ins, m, earlier);
    hide History, BeginsWell, GoesOn, Found, Entries, Next;
    EntriesMore(ins, events);
    if n == 0 {
      assert earlier == [] && events == [e] && InputsOf(h, ins, m, earlier) == [];
      OneGathered(h, ins, m, e);
      FirstGoes(h, before, ins, m, e);
      NoEntries(ins, log);
      Pressed(h, before, InputOf(ins, e, m), ins, h.take(ins, start, e).value, h.kept(start, e) + h.hashed(start, e),
          h.answer(start, e), log + Entries(ins, events));
      OneInput(before, InputOf(ins, e, m), if h.answer(start, e) == Await(Proceed) then [PressContinue] else []);
    } else {
      SessionGoes(h, ok, before, ins, m, earlier);
      FurtherEvent(h, before, ins, m, events);
    }
  }

  lemma NoEntries(ins: byte, log: seq<Entry>)
    ensures forall more: seq<Entry> :: log + (Entries(ins, []) + more) == log + more
  {
    assert Entries(ins, []) == [];
    forall more: seq<Entry>
      ensures log + (Entries(ins, []) + more) == log + more
    {
      assert [] + more == more;
    }
  }

  lemma OneInput<M>(before: seq<Input<M>>, input: Input<M>, more: seq<Input<M>>)
    ensures before + ([] + [input] + more) == before + [input] + more
  {
  }

  lemma FurtherEvent<P(!new), M(!new)>(
    h: Handlers<P, M>, before: seq<Input<M>>, ins: byte, m: M, events: seq<Event>)
    requires h.known(ins) && |events| >= 2 && Run(Taker(h, ins), h.begin(ins, m), events).Ok?
    requires var n, start := |events| - 1, h.begin(ins, m);
             var earlier := events[..n];
             && Standing(h, ins, m, earlier, History(h, before).log, History(h, before + InputsOf(h, ins, m, earlier)))
             && Answered(h, ins, Run(Taker(h, ins), start, earlier).value,
                         h.answer(Run(Taker(h, ins), start, earlier[..n - 1]).value, earlier[n - 1]))
    ensures Standing(h, ins, m, events, History(h, before).log, History(h, before + InputsOf(h, ins, m, events)))
  {
    hide History, Next, Entries;
    var n, start, log := |events| - 1, h.begin(ins, m), History(h, before).log;
    var earlier, e := events[..n], events[n];
    var p := Run(Taker(h, ins), start, earlier).value;
    var reply := h.answer(Run(Taker(h, ins), start, earlier[..n - 1]).value, earlier[n - 1]);
    var inputs := before + InputsOf(h, ins, m, earlier);
    var hashed := h.kept(start, events[0]) + Gathered(Taker(h, ins), h.hashed, start, earlier);
    TakerIs(h, ins, p, e);
    NextGoes(h, inputs, ins, m, p, hashed, reply, e);
    Pressed(h, inputs, InputOf(ins, e, m), ins, h.take(ins, p, e).value, hashed + h.hashed(p, e), h.answer(p, e),
        log + Entries(ins, earlier) + [Accepted(ins, e, false)]);
    EntriesMore(ins, events);
    Regroup(log, Entries(ins, earlier), [Accepted(ins, e, false)]);
    Regroup(h.kept(start, events[0]), Gathered(Taker(h, ins), h.hashed, start, earlier), h.hashed(p, e));
    var more := if h.answer(p, e) == Await(Proceed) then [PressContinue] else [];
    Regroup(before, InputsOf(h, ins, m, earlier), [InputOf(ins, e, m)]);
    Regroup(before, InputsOf(h, ins, m, earlier) + [InputOf(ins, e, m)], more);
  }

  /** A session that is done ends with its signature when the user agrees, and with nothing signed when the
      user does not; either way the next session can begin. */
  lemma SessionSigns<P(!new), M(!new)>(
    h: Handlers<P, M>, ok: (byte, P) -> bool, before: seq<Input<M>>, ins: byte, m: M, events: seq<Event>, b: bytes)
    requires BeginsWell(h, ok) && GoesOn(h, ok) && h.known(ins)
    requires History(h, before).state.Idle? && Found(History(h, before).state, m) == m
    requires exists p: P :: SessionOf(h, ins, m, events, p, b) && h.done(p)
    ensures Run(Taker(h, ins), h.begin(ins, m), events).Ok?
    ensures var log, inputs := History(h, before).log, before + InputsOf(h, ins, m, events);
            && History(h, inputs + [PressSign]) == Trace(Idle(None), log + Entries(ins, events) + [Signature(ins, b)])
            && History(h, inputs + [PressDecline]).log == log + Entries(ins, events) + [Declined]
            && History(h, inputs + [PressDecline]).state.Idle?
  {
    SessionGoes(h, ok, before, ins, m, events);
    RunAnswered(h, ok, ins, m, events);
    hide History, Entries, InputsOf, BeginsWell, GoesOn;
    var inputs := before + InputsOf(h, ins, m, events);
    HistoryOne(h, inputs, PressSign);
    HistoryOne(h, inputs, PressDecline);
  }

  /** What ends a session before that: a command of another class or instruction, or one that the handler
      refuses.  Nothing is signed, and the next command starts a session; only a memo of an unsupported kind or
      a text that is too long restarts the device. */
  lemma RefusedEnds<P(!new), M(!new)>(
    h: Handlers<P, M>, inputs: seq<Input<M>>, cla: byte, ins: byte, packet: Packet, foreign: Foreign, found: M)
    requires var s := History(h, inputs).state; s.Session? && s.waits == None && h.known(s.ins)
    ensures var r := History(h, inputs + [Command(cla, ins, packet, foreign, found)]);
            var s, log := History(h, inputs).state, History(h, inputs).log;
            && (cla != 0xE0 ==> r.state.Idle? && r.log == log + [Refused(InvalidCla)])
            && (cla == 0xE0 && ins != s.ins ==> r.state.Idle? && r.log == log + [Refused(InvalidState)])
            && (cla == 0xE0 && ins == s.ins && h.take(ins, s.p, Host(packet)).Throw? ==>
                  var e := h.take(ins, s.p, Host(packet)).error;
                  && r.state.Idle?
                  && r.log == log + [if e in {UnsupportedCbor, BufferOverflow} then Restarted(e) else Refused(e)])
  {
    hide History;
    HistoryOne(h, inputs, Command(cla, ins, packet, foreign, found));
  }
}
