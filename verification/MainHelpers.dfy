/** src/common/mainHelpers.c: the command loop as a function of what comes from the host and the user,
    for any set of handlers.  GovernanceMain and WalletMain prove their loops against it. */
module MainHelpers {
  import opened Bytes
  import opened Lists
  import opened Device
  import opened Runs

  const CLA: byte := 0xE0

  /** What the handlers of the known instructions do, all contexts in one type P: the state in which an
      initial call finds the memory M, what a session leaves there if that is known, what the first event
      keeps of the hash, how a packet or a press changes the state, what it adds to the hash, and how it is
      answered.  A session is done when it has been answered with the question to sign. */
  datatype Handlers<!P(!new), !M(!new)> = Handlers(
    known: byte -> bool, begin: (byte, M) -> P, leave: P -> Option<M>, kept: (P, Event) -> bytes,
    take: (byte, P, Event) -> Outcome<P>, hashed: (P, Event) -> bytes, answer: (P, Event) -> Reply, done: P -> bool)

  /** How a handler that is not part of the model ends: with an error, with a reply that goes on with the
      session, or with one that ends it; and what it leaves in the hash. */
  datatype Ending = Throws(error: Error) | Replies(reply: Reply) | Ends

  datatype Foreign = Foreign(ending: Ending, hash: bytes)

  /** With a command comes what the memory of the contexts holds where that has been left open. */
  datatype Input<M> =
    | NoApdu
    | Command(cla: byte, ins: byte, packet: Packet, foreign: Foreign, found: M)
    | PressContinue
    | PressSign
    | PressDecline

  /** What the device has done.  The first event of a session is marked. */
  datatype Entry =
    | Accepted(ins: byte, e: Event, first: bool)
    | Refused(error: Error)
    | Restarted(error: Error)
    | Signature(ins: byte, b: bytes)
    | Declined
    | OtherInstruction(ins: byte)

  /** The error codes that end the session with a reply; on any other one the device is reset. */
  predicate EndsSession(e: Error) {
    e != UnsupportedCbor && e != BufferOverflow
  }

  /** currentInstruction is -1, and what the memory holds may be known; or a session runs: its instruction
      and state, what the hash has absorbed, and the callback of the flow that waits for the user. */
  datatype State<P, M> =
    | Idle(left: Option<M>)
    | Session(ins: byte, p: P, hashed: bytes, waits: Option<Callback>)

  /** Where the device is, and what it has done. */
  datatype Trace<P, M> = Trace(state: State<P, M>, log: seq<Entry>)

  function Waits(r: Reply): (w: Option<Callback>) {
    match r case Success => None case Await(callback) => Some(callback)
  }

  /** CATCH_OTHER: either way the next command starts a session. */
  function Caught<P(!new), M(!new)>(e: Error, left: Option<M>): (r: Trace<P, M>) {
    Trace(Idle(left), [if EndsSession(e) then Refused(e) else Restarted(e)])
  }

  /** What the memory holds when the state is left as it is. */
  function Left<P(!new), M(!new)>(h: Handlers<P, M>, s: State<P, M>): (r: Option<M>) {
    match s
    case Idle(left) => left
    case Session(ins, p, _, _) => if h.known(ins) then h.leave(p) else None
  }

  /** What a session finds in memory. */
  function Found<P(!new), M(!new)>(s: State<P, M>, open: M): (r: M)
    requires s.Idle?
  {
    if s.left.Some? then s.left.value else open
  }

  /** A known handler, called with a packet or a press.  It may have written anything when it throws. */
  function Handled<P(!new), M(!new)>(h: Handlers<P, M>, ins: byte, p: P, hashed: bytes, e: Event, first: bool):
    (r: Trace<P, M>)
  {
    match h.take(ins, p, e)
    case Throw(error) => Caught(error, None)
    case Ok(q) => Trace(Session(ins, q, hashed + h.hashed(p, e), Waits(h.answer(p, e))), [Accepted(ins, e, first)])
  }

  /** A handler that is not part of the model. */
  function HandledElsewhere<P(!new), M(!new)>(ins: byte, p: P, ending: Ending): (r: Trace<P, M>) {
    match ending
    case Throws(error) => Caught(error, None)
    case Replies(reply) => Trace(Session(ins, p, [], Waits(reply)), [OtherInstruction(ins)])
    case Ends => Trace(Idle(None), [OtherInstruction(ins)])
  }

  /** One round of the loop, or a press.  The host sends nothing while a flow waits, and only the steps
      of such a flow can be pressed; anything else does not happen and changes nothing. */
  function Next<P(!new), M(!new)>(h: Handlers<P, M>, s: State<P, M>, input: Input<M>): (r: Trace<P, M>) {
    match input
    case NoApdu => Caught(NoApduReceived, Left(h, s))
    case Command(cla, ins, packet, foreign, found) =>
      if s.Session? && s.waits.Some? then Trace(s, [])
      else if cla != CLA then Caught(InvalidCla, Left(h, s))
      else if s.Session? && s.ins != ins then Caught(InvalidState, Left(h, s))
      else if s.Session? then
        if h.known(ins) then Handled(h, ins, s.p, s.hashed, Host(packet), false)
        else HandledElsewhere(ins, s.p, foreign.ending)
      else
        var p := h.begin(ins, Found(s, found));
        if h.known(ins) then Handled(h, ins, p, h.kept(p, Host(packet)), Host(packet), true)
        else HandledElsewhere(ins, p, foreign.ending)
    case PressContinue =>
      if s.Idle? || s.waits.None? || s.waits == Some(Ask) then Trace(s, [])
      else if s.waits == Some(Proceed) || !h.known(s.ins) then Trace(s.(waits := None), [])
      else Handled(h, s.ins, s.p, s.hashed, Confirm, false)
    case PressSign =>
      if s.Idle? || s.waits != Some(Ask) then Trace(s, [])
      else Trace(Idle(None), [if h.known(s.ins) then Signature(s.ins, s.hashed) else OtherInstruction(s.ins)])
    case PressDecline =>
      if s.Idle? || s.waits != Some(Ask) then Trace(s, []) else Trace(Idle(Left(h, s)), [Declined])
  }

  /** The whole history, from the start of the application. */
  function History<P(!new), M(!new)>(h: Handlers<P, M>, inputs: seq<Input<M>>): (r: Trace<P, M>) {
    if inputs == [] then Trace(Idle(None), [])
    else
      var before := History(h, inputs[..|inputs| - 1]);
      var now := Next(h, before.state, inputs[|inputs| - 1]);
      Trace(now.state, before.log + now.log)
  }

  lemma HistoryNext<P(!new), M(!new)>(h: Handlers<P, M>, inputs: seq<Input<M>>, k: nat)
    requires k < |inputs|
    ensures var before := History(h, inputs[..k]);
            var now := Next(h, before.state, inputs[k]);
            History(h, inputs[..k + 1]) == Trace(now.state, before.log + now.log)
  {
    assert inputs[..k + 1][..k] == inputs[..k];
  }

  // ------------------------------------------------------------------ sessions and signatures

  function Taker<P(!new), M(!new)>(h: Handlers<P, M>, ins: byte): (r: (P, Event) -> Outcome<P>) {
    (p, e) => h.take(ins, p, e)
  }

  /** The last entries of the log are the events of a session, from its first one. */
  ghost predicate EndsWith(log: seq<Entry>, ins: byte, events: seq<Event>) {
    && |events| <= |log|
    && forall i | 0 <= i < |events| :: log[|log| - |events| + i] == Accepted(ins, events[i], i == 0)
  }

  /** The log says which events these are. */
  lemma EndsWithOnce(log: seq<Entry>, ins: byte, xs: seq<Event>, ys: seq<Event>)
    requires xs != [] && ys != [] && EndsWith(log, ins, xs) && EndsWith(log, ins, ys)
    ensures xs == ys
  {
    NotLonger(log, ins, xs, ys);
    NotLonger(log, ins, ys, xs);
    assert forall i | 0 <= i < |xs| :: log[|log| - |xs| + i] == Accepted(ins, xs[i], i == 0);
  }

  lemma NotLonger(log: seq<Entry>, ins: byte, xs: seq<Event>, ys: seq<Event>)
    requires xs != [] && EndsWith(log, ins, xs) && EndsWith(log, ins, ys)
    ensures |ys| <= |xs|
  {
    assert log[|log| - |xs| + 0] == Accepted(ins, xs[0], true);
    var k := |ys| - |xs|;
    if k >= 0 {
      assert log[|log| - |ys| + k] == Accepted(ins, ys[k], k == 0);
    }
  }

  /** The events of a session: an accepted run of its instruction from the state in which an initial call
      finds the memory m, and what the hash has absorbed: what the first event has kept, and all that the
      events add. */
  ghost predicate SessionOf<P(!new), M(!new)>(
    h: Handlers<P, M>, ins: byte, m: M, events: seq<Event>, p: P, hashed: bytes)
  {
    && events != [] && Run(Taker(h, ins), h.begin(ins, m), events) == Ok(p)
    && hashed
       == h.kept(h.begin(ins, m), events[0]) + Gathered(Taker(h, ins), h.hashed, h.begin(ins, m), events)
  }

  /** Right before the signature come the events of one session of its instruction, without a refused
      packet, another signature or another instruction among them; the signed bytes are what the first of
      them has kept of the hash, and what they hashed. */
  ghost predicate FromOneSession<P(!new), M(!new)>(h: Handlers<P, M>, before: seq<Entry>, ins: byte, b: bytes) {
    exists events: seq<Event>, m: M, p: P ::
      EndsWith(before, ins, events) && SessionOf(h, ins, m, events, p, b) && h.done(p)
  }

  ghost predicate SignaturesOk<P(!new), M(!new)>(h: Handlers<P, M>, log: seq<Entry>) {
    forall i | 0 <= i < |log| ::
      log[i].Signature? ==> h.known(log[i].ins) && FromOneSession(h, log[..i], log[i].ins, log[i].b)
  }

  /** The question to sign is asked only when the transaction is done. */
  ghost predicate AsksWhenDone<P(!new), M(!new)>(h: Handlers<P, M>) {
    forall ins: byte, p: P, e: Event ::
      h.take(ins, p, e).Ok? && h.answer(p, e) == Await(Ask) ==> h.done(h.take(ins, p, e).value)
  }

  /** What is known of a session that runs. */
  ghost predicate Running<P(!new), M(!new)>(h: Handlers<P, M>, r: Trace<P, M>) {
    r.state.Session? && h.known(r.state.ins) ==>
      && (r.state.waits == Some(Ask) ==> h.done(r.state.p))
      && exists events: seq<Event>, m: M ::
           EndsWith(r.log, r.state.ins, events) && SessionOf(h, r.state.ins, m, events, r.state.p, r.state.hashed)
  }

  lemma LogAppend<P(!new), M(!new)>(h: Handlers<P, M>, log: seq<Entry>, more: seq<Entry>)
    requires SignaturesOk(h, log) && |more| <= 1
    requires more != [] && more[0].Signature? ==> h.known(more[0].ins) && FromOneSession(h, log, more[0].ins, more[0].b)
    ensures SignaturesOk(h, log + more)
  {
    hide FromOneSession;
    var all := log + more;
    forall i | 0 <= i < |all| && all[i].Signature?
      ensures h.known(all[i].ins) && FromOneSession(h, all[..i], all[i].ins, all[i].b)
    {
      assert all[..i] == log[..i];
      assert log[..|log|] == log;
    }
  }

  /** The first event of a session. */
  lemma OneEvent<P(!new), M(!new)>(h: Handlers<P, M>, log: seq<Entry>, ins: byte, m: M, e: Event)
    requires h.take(ins, h.begin(ins, m), e).Ok?
    ensures EndsWith(log + [Accepted(ins, e, true)], ins, [e])
    ensures var p := h.begin(ins, m); SessionOf(h, ins, m, [e], h.take(ins, p, e).value, h.kept(p, e) + h.hashed(p, e))
  {
    var p := h.begin(ins, m);
    assert [e][..0] == [];
    assert Run(Taker(h, ins), p, []) == Ok(p);
    assert Gathered(Taker(h, ins), h.hashed, p, []) == [];
    assert [] + h.hashed(p, e) == h.hashed(p, e);
  }

  /** One more event. */
  lemma MoreEvents<P(!new), M(!new)>(
    h: Handlers<P, M>, log: seq<Entry>, ins: byte, m: M, events: seq<Event>, p: P, hashed: bytes, e: Event)
    requires EndsWith(log, ins, events) && SessionOf(h, ins, m, events, p, hashed) && h.take(ins, p, e).Ok?
    ensures EndsWith(log + [Accepted(ins, e, false)], ins, events + [e])
    ensures SessionOf(h, ins, m, events + [e], h.take(ins, p, e).value, hashed + h.hashed(p, e))
  {
    assert (events + [e])[..|events|] == events;
    var gathered := Gathered(Taker(h, ins), h.hashed, h.begin(ins, m), events);
    Regroup(h.kept(h.begin(ins, m), events[0]), gathered, h.hashed(p, e));
  }

  /** One step keeps what is known of signatures and sessions. */
  lemma NextKeeps<P(!new), M(!new)>(h: Handlers<P, M>, r: Trace<P, M>, input: Input<M>)
    requires AsksWhenDone(h) && SignaturesOk(h, r.log) && Running(h, r)
    ensures var now := Next(h, r.state, input);
            SignaturesOk(h, r.log + now.log) && Running(h, Trace(now.state, r.log + now.log))
  {
    var s, now := r.state, Next(h, r.state, input);
    assert r.log + [] == r.log;
    hide EndsWith, SessionOf, SignaturesOk;
    if s.Session? && h.known(s.ins) {
      var events: seq<Event>, m: M :| EndsWith(r.log, s.ins, events) && SessionOf(h, s.ins, m, events, s.p, s.hashed);
      if input.PressSign? && s.waits == Some(Ask) {
        assert FromOneSession(h, r.log, s.ins, s.hashed);
      }
      LogAppend(h, r.log, now.log);
      if now.log != [] && now.log[0].Accepted? && now.state.Session? && h.known(now.log[0].ins) {
        MoreEvents(h, r.log, s.ins, m, events, s.p, s.hashed, now.log[0].e);
      }
    } else {
      LogAppend(h, r.log, now.log);
      if s.Idle? && now.log != [] && now.log[0].Accepted? {
        OneEvent(h, r.log, now.log[0].ins, Found(s, input.found), now.log[0].e);
      }
    }
  }

  /** In every history, whatever comes from the host and the user: right before each signature of a known
      instruction come the events of one session of that instruction, none refused, and the signed bytes
      are what the first of them has kept of the hash, and what these have hashed. */
  lemma {:induction false} EverySession<P(!new), M(!new)>(h: Handlers<P, M>, inputs: seq<Input<M>>)
    requires AsksWhenDone(h)
    ensures SignaturesOk(h, History(h, inputs).log) && Running(h, History(h, inputs))
  {
    if inputs != [] {
      EverySession(h, inputs[..|inputs| - 1]);
      hide Next, SignaturesOk, Running;
      NextKeeps(h, History(h, inputs[..|inputs| - 1]), inputs[|inputs| - 1]);
    }
  }

  lemma TakerIs<P(!new), M(!new)>(h: Handlers<P, M>, ins: byte, p: P, e: Event)
    ensures Taker(h, ins)(p, e) == h.take(ins, p, e)
  {
  }
}
