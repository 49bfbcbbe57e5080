/** src/main.c: the command loop with the account-transaction handlers of this model. */
module WalletMain {
  import opened Bytes
  import opened Device
  import opened Runs
  import opened MainHelpers
  import Readback
  import SignTransfer
  import ScheduleTx
  import ScheduleRuns
  import CredentialTx
  import DisplayCbor
  import TransferComplete
  import ScheduleComplete
  import SignTransferWithSchedule
  import SignCredentialDeployment
  import ConfigureBakerMemory
  import ConfigureBakerSessions
  import SignConfigureBaker

  type Leftover = ConfigureBakerMemory.Leftover

  const INS_SIGN_TRANSFER: byte := 0x02
  const INS_SIGN_TRANSFER_WITH_SCHEDULE: byte := 0x03
  const INS_CONFIGURE_BAKER: byte := 0x18
  const INS_SIGN_UPDATE_CREDENTIAL: byte := 0x31
  const INS_SIGN_TRANSFER_WITH_MEMO: byte := 0x32
  const INS_SIGN_TRANSFER_WITH_SCHEDULE_AND_MEMO: byte := 0x34

  predicate Known(ins: byte) {
    || ins == INS_SIGN_TRANSFER || ins == INS_SIGN_TRANSFER_WITH_MEMO || ins == INS_SIGN_TRANSFER_WITH_SCHEDULE
    || ins == INS_SIGN_TRANSFER_WITH_SCHEDULE_AND_MEMO || ins == INS_SIGN_UPDATE_CREDENTIAL || ins == INS_CONFIGURE_BAKER
  }

  /** What has been received, by context; Other stands for the instructions that are not part of this
      statement. */
  datatype Context =
    | PlainTransfer(x: SignTransfer.Plain)
    | Transfer(t: SignTransfer.Progress)
    | Schedule(withMemo: bool, s: ScheduleTx.Progress)
    | Credential(c: CredentialTx.Progress)
    | Baker(b: ConfigureBakerSessions.Sitting)
    | Other

  /** What has been hashed does not depend on the introduction screen, so false stands for both.  Only
      configure-baker depends on what it finds in memory. */
  function Begin(ins: byte, m: Leftover): (r: Context) {
    if ins == INS_SIGN_TRANSFER then PlainTransfer(SignTransfer.Unsent)
    else if ins == INS_SIGN_TRANSFER_WITH_MEMO then Transfer(SignTransfer.BEGIN)
    else if ins == INS_SIGN_TRANSFER_WITH_SCHEDULE then Schedule(false, ScheduleTx.Begin(false))
    else if ins == INS_SIGN_TRANSFER_WITH_SCHEDULE_AND_MEMO then Schedule(true, ScheduleTx.Begin(true))
    else if ins == INS_SIGN_UPDATE_CREDENTIAL then Credential(CredentialTx.Begin(false))
    else if ins == INS_CONFIGURE_BAKER then Baker(ConfigureBakerSessions.Found(m))
    else Other
  }

  /** What a session leaves in the memory of configure-baker: known only of its own sessions. */
  function Leave(c: Context): (r: Option<Leftover>) {
    if c.Baker? then Some(c.b.memory) else None
  }

  /** All other handlers reset the hash on an initial call. */
  function Kept(c: Context, e: Event): (r: bytes) {
    if c.Baker? then ConfigureBakerSessions.Kept(c.b, e) else []
  }

  function TakeCredential(c: CredentialTx.Progress, e: Event): (r: Outcome<CredentialTx.Progress>) {
    if e.Host? then CredentialTx.Take(c, e.packet) else Throw(InvalidState)
  }

  function HashedCredential(c: CredentialTx.Progress, e: Event): (r: bytes) {
    if e.Host? then CredentialTx.HashedBy(c, e.packet) else []
  }

  function AnswerCredential(c: CredentialTx.Progress, e: Event): (r: Reply)
    requires TakeCredential(c, e).Ok?
  {
    SignCredentialDeployment.Answer(c, e.packet)
  }

  function Take(ins: byte, c: Context, e: Event): (r: Outcome<Context>) {
    match c
    case PlainTransfer(x) => Lift(y => PlainTransfer(y), SignTransfer.TakePlain(x, e))
    case Transfer(t) => Lift(x => Transfer(x), SignTransfer.Take(t, e))
    case Schedule(m, s) => Lift(x => Schedule(m, x), ScheduleRuns.Take(s, e))
    case Credential(x) => Lift(y => Credential(y), TakeCredential(x, e))
    case Baker(b) => Lift(x => Baker(x), ConfigureBakerSessions.Take(b, e))
    case Other => Throw(InvalidInstruction)
  }

  function Hashed(c: Context, e: Event): (r: bytes) {
    match c
    case PlainTransfer(x) => SignTransfer.HashedPlain(x, e)
    case Transfer(t) => SignTransfer.HashedBy(t, e)
    case Schedule(_, s) => ScheduleRuns.HashedBy(s, e)
    case Credential(x) => HashedCredential(x, e)
    case Baker(b) => ConfigureBakerSessions.HashedBy(b, e)
    case Other => []
  }

  function Answer(c: Context, e: Event): (r: Reply) {
    match c
    case PlainTransfer(x) => Await(Ask)
    case Transfer(t) =>
      var r := SignTransfer.Take(t, e);
      if r.Ok? then SignTransfer.Answer(r.value) else Success
    case Schedule(_, s) =>
      var r := ScheduleRuns.Take(s, e);
      if r.Ok? then ScheduleTx.Answer(s, r.value) else Success
    case Credential(x) => if TakeCredential(x, e).Ok? then AnswerCredential(x, e) else Success
    case Baker(b) => ConfigureBakerSessions.ReplyTo(b, e)
    case Other => Success
  }

  predicate IsDone(c: Context) {
    match c
    case PlainTransfer(x) => x.Sent?
    case Transfer(t) => t.stage.Done?
    case Schedule(_, s) => s.stage.Done?
    case Credential(x) => x.stage.Done?
    case Baker(b) => b.asked
    case Other => false
  }

  const HANDLERS: Handlers<Context, Leftover> := Handlers(Known, Begin, Leave, Kept, Take, Hashed, Answer, IsDone)

  lemma Asks()
    ensures AsksWhenDone(HANDLERS)
  {
    forall ins: byte, c: Context, e: Event | Take(ins, c, e).Ok? && Answer(c, e) == Await(Ask)
      ensures IsDone(Take(ins, c, e).value)
    {
      match c
      case PlainTransfer(x) =>
      case Transfer(t) => hide SignTransfer.Take;
      case Schedule(_, s) => hide ScheduleRuns.Take;
      case Credential(x) => CredentialAsks(x, e);
      case Baker(b) => hide ConfigureBakerMemory.Effect;
      case Other =>
    }
  }

  lemma CredentialAsks(c: CredentialTx.Progress, e: Event)
    requires TakeCredential(c, e).Ok? && AnswerCredential(c, e) == Await(Ask)
    ensures TakeCredential(c, e).value.stage.Done?
  {
    hide CredentialTx.AcceptPart;
  }

  ghost predicate IsSchedule(withMemo: bool, b: bytes) {
    exists header, to, note: ScheduleComplete.Note, pairs ::
      note.Note? == withMemo && ScheduleComplete.Strings(header, to, note, pairs, b)
  }

  /** What a signature of an instruction other than configure-baker may be over. */
  ghost predicate Signable(ins: byte, b: bytes) {
    if ins == INS_SIGN_TRANSFER then exists header, to, amount :: SignTransfer.SerializesPlain(header, to, amount, b)
    else if ins == INS_SIGN_TRANSFER_WITH_MEMO then
      exists header, to, declared, memo, amount :: TransferComplete.Strings(header, to, declared, memo, amount, b)
    else if ins == INS_SIGN_TRANSFER_WITH_SCHEDULE then IsSchedule(false, b)
    else if ins == INS_SIGN_TRANSFER_WITH_SCHEDULE_AND_MEMO then IsSchedule(true, b)
    else if ins == INS_SIGN_UPDATE_CREDENTIAL then
      exists tx: CredentialTx.Tx :: CredentialTx.Signable(tx) && CredentialTx.TxBytes(tx) == b
    else false
  }

  ghost predicate Completes(ins: byte, events: seq<Event>, b: bytes) {
    exists m: Leftover, c: Context :: SessionOf(HANDLERS, ins, m, events, c, b) && IsDone(c)
  }

  lemma PlainSigned(events: seq<Event>, b: bytes)
    requires Completes(INS_SIGN_TRANSFER, events, b)
    ensures exists header, to, amount :: SignTransfer.SerializesPlain(header, to, amount, b)
  {
    hide SignTransfer.TakePlain, SignTransfer.HashedPlain, Run, Gathered;
    var ins, up := INS_SIGN_TRANSFER, (x: SignTransfer.Plain) => PlainTransfer(x);
    forall x: SignTransfer.Plain, e: Event
      ensures Taker(HANDLERS, ins)(up(x), e) == Lift(up, SignTransfer.TakePlain(x, e))
    {
      TakerIs(HANDLERS, ins, up(x), e);
    }
    RunWithin(SignTransfer.TakePlain, SignTransfer.HashedPlain, up, Taker(HANDLERS, ins), Hashed, SignTransfer.Unsent,
        events);
    var gathered := Gathered(SignTransfer.TakePlain, SignTransfer.HashedPlain, SignTransfer.Unsent, events);
    assert [] + gathered == gathered;
    SignTransfer.PlainSigned(events, Run(SignTransfer.TakePlain, SignTransfer.Unsent, events).value);
  }

  lemma TransferSigned(events: seq<Event>, b: bytes)
    requires Completes(INS_SIGN_TRANSFER_WITH_MEMO, events, b)
    ensures exists header, to, declared, memo, amount ::
              TransferComplete.Strings(header, to, declared, memo, amount, b)
  {
    hide SignTransfer.Take, SignTransfer.HashedBy, Run, Gathered;
    var ins, up := INS_SIGN_TRANSFER_WITH_MEMO, (x: SignTransfer.Progress) => Transfer(x);
    forall x: SignTransfer.Progress, e: Event
      ensures Taker(HANDLERS, ins)(up(x), e) == Lift(up, SignTransfer.Take(x, e))
    {
      TakerIs(HANDLERS, ins, up(x), e);
    }
    RunWithin(SignTransfer.Take, SignTransfer.HashedBy, up, Taker(HANDLERS, ins), Hashed, SignTransfer.BEGIN, events);
    assert SignTransfer.Signs(events, b);
    TransferComplete.SignedStrings(b);
  }

  lemma ScheduleSigned(ins: byte, withMemo: bool, events: seq<Event>, b: bytes)
    requires Completes(ins, events, b)
    requires ins == if withMemo then INS_SIGN_TRANSFER_WITH_SCHEDULE_AND_MEMO else INS_SIGN_TRANSFER_WITH_SCHEDULE
    ensures IsSchedule(withMemo, b)
  {
    hide ScheduleRuns.Take, ScheduleRuns.HashedBy, Run, Gathered;
    var up := (x: ScheduleTx.Progress) => Schedule(withMemo, x);
    forall x: ScheduleTx.Progress, e: Event
      ensures Taker(HANDLERS, ins)(up(x), e) == Lift(up, ScheduleRuns.Take(x, e))
    {
      TakerIs(HANDLERS, ins, up(x), e);
    }
    RunWithin(ScheduleRuns.Take, ScheduleRuns.HashedBy, up, Taker(HANDLERS, ins), Hashed, ScheduleTx.Begin(withMemo),
        events);
    assert ScheduleRuns.Reached(withMemo, events, b);
    ScheduleComplete.SignedStrings(withMemo, b);
  }

  lemma CredentialSigned(events: seq<Event>, b: bytes)
    requires Completes(INS_SIGN_UPDATE_CREDENTIAL, events, b)
    ensures exists tx: CredentialTx.Tx :: CredentialTx.Signable(tx) && CredentialTx.TxBytes(tx) == b
  {
    hide CredentialTx.Take, CredentialTx.HashedBy, Run, Gathered, CredentialTx.Signable, CredentialTx.TxBytes;
    var ins, up := INS_SIGN_UPDATE_CREDENTIAL, (x: CredentialTx.Progress) => Credential(x);
    forall x: CredentialTx.Progress, e: Event
      ensures Taker(HANDLERS, ins)(up(x), e) == Lift(up, TakeCredential(x, e))
    {
      TakerIs(HANDLERS, ins, up(x), e);
    }
    RunWithin(TakeCredential, HashedCredential, up, Taker(HANDLERS, ins), Hashed, CredentialTx.Begin(false), events);
    var packets := OnlyPackets(CredentialTx.Begin(false), events);
    CredentialTx.SignedBytesAreOneTransaction(false, packets);
  }

  /** The events of an accepted run are packets. */
  lemma {:induction false} OnlyPackets(c: CredentialTx.Progress, events: seq<Event>) returns (packets: seq<Packet>)
    requires Run(TakeCredential, c, events).Ok?
    ensures Run(CredentialTx.Take, c, packets) == Run(TakeCredential, c, events)
    ensures Gathered(CredentialTx.Take, CredentialTx.HashedBy, c, packets)
        == Gathered(TakeCredential, HashedCredential, c, events)
  {
    hide CredentialTx.Take, CredentialTx.HashedBy;
    packets := [];
    if events != [] {
      var e := events[|events| - 1];
      var before := OnlyPackets(c, events[..|events| - 1]);
      packets := before + [e.packet];
      assert packets[..|before|] == before;
    }
  }

  /** Right before the signature come the events of a session of configure-baker, from its first one, and
      for what the hash held when that came the signed bytes are as stated in SignedAs. */
  ghost predicate BakerSigned(before: seq<Entry>, b: bytes) {
    exists events: seq<Event>, left: bytes ::
      events != [] && EndsWith(before, INS_CONFIGURE_BAKER, events) && ConfigureBakerSessions.SignedAs(events, left, b)
  }

  lemma BakerCompletes(events: seq<Event>, m: Leftover, c: Context, b: bytes)
    requires SessionOf(HANDLERS, INS_CONFIGURE_BAKER, m, events, c, b) && IsDone(c)
    ensures ConfigureBakerSessions.SignedAs(events, m.hash, b)
  {
    hide ConfigureBakerSessions.Take, ConfigureBakerSessions.HashedBy, ConfigureBakerSessions.Kept, Run, Gathered,
        ConfigureBakerSessions.SignedAs;
    var ins, up := INS_CONFIGURE_BAKER, (x: ConfigureBakerSessions.Sitting) => Baker(x);
    forall x: ConfigureBakerSessions.Sitting, e: Event
      ensures Taker(HANDLERS, ins)(up(x), e) == Lift(up, ConfigureBakerSessions.Take(x, e))
    {
      TakerIs(HANDLERS, ins, up(x), e);
    }
    RunWithin(ConfigureBakerSessions.Take, ConfigureBakerSessions.HashedBy, up, Taker(HANDLERS, ins), Hashed,
        ConfigureBakerSessions.Found(m), events);
    ConfigureBakerSessions.SessionHash(ConfigureBakerSessions.Found(m), events);
    ConfigureBakerSessions.SignedExactly(m, events);
  }

  /** What is known of the i-th entry of a log. */
  ghost predicate SignedOk(log: seq<Entry>, i: nat)
    requires i < |log|
  {
    log[i].Signature? ==>
      if log[i].ins == INS_CONFIGURE_BAKER then BakerSigned(log[..i], log[i].b) else Signable(log[i].ins, log[i].b)
  }

  /** Every signature in every history of the command loop, whatever comes from the host and the user,
      other instructions included, and whatever the memory holds: it is over one well-formed transaction of
      the kind that its instruction stands for; for configure-baker, exactly when its session began with an
      initial packet that announces a field. */
  lemma EverySignature(inputs: seq<Input<Leftover>>, i: nat)
    requires i < |History(HANDLERS, inputs).log|
    ensures SignedOk(History(HANDLERS, inputs).log, i)
  {
    hide Run, Gathered, Hashed, History, TransferComplete.Strings, SignTransfer.SerializesPlain, IsSchedule,
        CredentialTx.Signable, CredentialTx.TxBytes, ConfigureBakerSessions.SignedAs;
    Asks();
    EverySession(HANDLERS, inputs);
    var log := History(HANDLERS, inputs).log;
    if log[i].Signature? {
      var ins, b := log[i].ins, log[i].b;
      var events: seq<Event>, m: Leftover, c: Context :|
        EndsWith(log[..i], ins, events) && SessionOf(HANDLERS, ins, m, events, c, b) && HANDLERS.done(c);
      assert Completes(ins, events, b);
      if ins == INS_CONFIGURE_BAKER {
        BakerCompletes(events, m, c, b);
      } else {
        SignedInstruction(ins, events, b);
      }
    }
  }

  lemma SignedInstruction(ins: byte, events: seq<Event>, b: bytes)
    requires Known(ins) && ins != INS_CONFIGURE_BAKER && Completes(ins, events, b)
    ensures Signable(ins, b)
  {
    hide Completes, TransferComplete.Strings, SignTransfer.SerializesPlain, IsSchedule, CredentialTx.Signable,
        CredentialTx.TxBytes;
    if ins == INS_SIGN_TRANSFER {
      PlainSigned(events, b);
    } else if ins == INS_SIGN_TRANSFER_WITH_MEMO {
      TransferSigned(events, b);
    } else if ins == INS_SIGN_TRANSFER_WITH_SCHEDULE {
      ScheduleSigned(ins, false, events, b);
    } else if ins == INS_SIGN_TRANSFER_WITH_SCHEDULE_AND_MEMO {
      ScheduleSigned(ins, true, events, b);
    } else {
      CredentialSigned(events, b);
    }
  }

  // ------------------------------------------------------------------ a session that goes on with another

  lemma HistoryAppend(inputs: seq<Input<Leftover>>, input: Input<Leftover>)
    ensures var before := History(HANDLERS, inputs);
            var now := Next(HANDLERS, before.state, input);
            History(HANDLERS, inputs + [input]) == Trace(now.state, before.log + now.log)
  {
    assert (inputs + [input])[..|inputs|] == inputs;
  }

  /** A transaction fee is sent and declined; then a session begins with another fee. */
  function FeeInputs(start: Packet, first: Packet, second: Packet, foreign: Foreign, found: Leftover):
    (r: seq<Input<Leftover>>)
  {
    var ins := INS_CONFIGURE_BAKER;
    [Command(CLA, ins, start, foreign, found)] + [Command(CLA, ins, first, foreign, found)] + [PressDecline]
    + [Command(CLA, ins, second, foreign, found)] + [PressSign]
  }

  /** What the device does: its signature is over both fees and no transaction. */
  lemma FeeHistory(start: Packet, first: Packet, second: Packet, foreign: Foreign, found: Leftover)
    requires ConfigureBakerSessions.FeeStart(start)
    requires ConfigureBakerSessions.FeeRate(first) && ConfigureBakerSessions.FeeRate(second)
    ensures var b := ConfigureBakerMemory.PacketBytes(start) + first.data[..4] + second.data[..4];
            && !ConfigureBakerSessions.Serializes(b)
            && History(HANDLERS, FeeInputs(start, first, second, foreign, found)).log
               == [Accepted(INS_CONFIGURE_BAKER, Host(start), true)] + [Accepted(INS_CONFIGURE_BAKER, Host(first), false)]
                  + [Declined] + [Accepted(INS_CONFIGURE_BAKER, Host(second), true)] + [Signature(INS_CONFIGURE_BAKER, b)]
  {
    hide ConfigureBakerSessions.Take, ConfigureBakerSessions.ReplyTo, ConfigureBakerMemory.Effect, History,
        ConfigureBakerSessions.FeeStart, ConfigureBakerSessions.FeeRate, ConfigureBakerMemory.PacketBytes,
        ConfigureBakerSessions.Serializes;
    var ins := INS_CONFIGURE_BAKER;
    var x1, x2, x3 := Command(CLA, ins, start, foreign, found), Command(CLA, ins, first, foreign, found), PressDecline;
    var x4, x5 := Command(CLA, ins, second, foreign, found), PressSign;
    FeePackets(start, first, second);
    ConfigureBakerSessions.FeeAsked(found, start, first);
    var s := ConfigureBakerSessions.Take(ConfigureBakerSessions.Found(found), Host(start)).value;
    var t := ConfigureBakerSessions.Take(s, Host(first)).value;
    ConfigureBakerSessions.FeeAgain(t.memory, second, "");
    var u := ConfigureBakerSessions.Take(ConfigureBakerSessions.Found(t.memory), Host(second)).value;
    ConfigureBakerSessions.TwoFees(start, first.data[..4], second.data[..4]);
    var started := ConfigureBakerMemory.PacketBytes(start);
    hide ConfigureBakerSessions.FeeBytes;
    assert [] + started == started;
    NoInputs();
    var r1 := Session(ins, Baker(s), started, None);
    assert Next(HANDLERS, Idle(None), x1) == Trace(r1, [Accepted(ins, Host(start), true)]);
    HistoryAppend([], x1);
    assert Next(HANDLERS, r1, x2)
        == Trace(Session(ins, Baker(t), started + first.data[..4], Some(Ask)), [Accepted(ins, Host(first), false)]);
    HistoryAppend([x1], x2);
    HistoryAppend([x1] + [x2], x3);
    assert Next(HANDLERS, Idle(Some(t.memory)), x4)
        == Trace(Session(ins, Baker(u), started + first.data[..4] + second.data[..4], Some(Ask)),
                 [Accepted(ins, Host(second), true)]);
    HistoryAppend([x1] + [x2] + [x3], x4);
    HistoryAppend([x1] + [x2] + [x3] + [x4], x5);
    assert [] + [x1] == [x1];
  }

  lemma NoInputs()
    ensures History(HANDLERS, []) == Trace(Idle(None), [])
  {
  }

  lemma FeePackets(start: Packet, first: Packet, second: Packet)
    requires ConfigureBakerSessions.FeeStart(start)
    requires ConfigureBakerSessions.FeeRate(first) && ConfigureBakerSessions.FeeRate(second)
    ensures start.p1 == 0 && first.p1 != 0 && second.p1 != 0
    ensures ConfigureBakerMemory.PacketBytes(first) == first.data[..4]
    ensures ConfigureBakerMemory.PacketBytes(second) == second.data[..4]
    ensures ConfigureBakerSessions.FeeBytes(first) == first.data[..4]
    ensures ConfigureBakerSessions.FeeBytes(second) == second.data[..4]
  {
  }

  // ------------------------------------------------------------------ the loop

  /** The context is one of the instruction. */
  predicate KindOf(ins: byte, c: Context) {
    match c
    case PlainTransfer(_) => ins == INS_SIGN_TRANSFER
    case Transfer(_) => ins == INS_SIGN_TRANSFER_WITH_MEMO
    case Schedule(m, s) =>
      && m == s.withMemo
      && ins == if m then INS_SIGN_TRANSFER_WITH_SCHEDULE_AND_MEMO else INS_SIGN_TRANSFER_WITH_SCHEDULE
    case Credential(_) => ins == INS_SIGN_UPDATE_CREDENTIAL
    case Baker(_) => ins == INS_CONFIGURE_BAKER
    case Other => false
  }

  predicate HostTurn(c: Context) {
    match c
    case PlainTransfer(x) => x.Unsent?
    case Transfer(t) => !t.stage.Done?
    case Schedule(_, s) => !s.stage.PairShown? && !s.stage.Done?
    case Credential(x) => !x.stage.Done?
    case Baker(b) => !b.asked
    case Other => true
  }

  /** What waits for the user is what the context is waiting for. */
  predicate Fits(c: Context, waits: Option<Callback>) {
    match waits
    case None => HostTurn(c)
    case Some(Proceed) => HostTurn(c)
    case Some(Ask) => IsDone(c)
    case Some(ProcessNextScheduledAmount) => c.Schedule? && c.s.stage.PairShown?
    case _ => false
  }

  /** What the hash has absorbed. */
  function TranscriptOf(c: Context): (r: bytes) {
    match c
    case PlainTransfer(x) => SignTransfer.PlainBytes(x)
    case Transfer(t) => SignTransfer.Transcript(t)
    case Schedule(_, s) => ScheduleTx.Transcript(s)
    case Credential(x) => CredentialTx.TranscriptOf(x)
    case Baker(b) => b.memory.hash
    case Other => []
  }

  ghost predicate ContextOk(c: Context) {
    match c
    case PlainTransfer(x) => true
    case Transfer(t) => SignTransfer.ProgressOk(t)
    case Schedule(_, s) => ScheduleTx.ProgressOk(s)
    case Credential(x) => CredentialTx.ProgressOk(x)
    case Baker(_) => true
    case Other => true
  }

  predicate AtStart(c: Context) {
    match c
    case PlainTransfer(x) => x.Unsent?
    case Transfer(t) => t.stage.Start?
    case Schedule(_, s) => s.stage.Start?
    case Credential(x) => x.stage.Start?
    case Baker(b) => !b.begun
    case Other => true
  }

  /** What of it an event adds to: at the start of a session, what this event keeps. */
  function Base(c: Context, e: Event): (r: bytes) {
    if AtStart(c) then Kept(c, e) else TranscriptOf(c)
  }

  lemma BakerFits(b: ConfigureBakerSessions.Sitting, e: Event)
    requires ConfigureBakerSessions.Take(b, e).Ok?
    ensures var d := ConfigureBakerSessions.Take(b, e).value;
            && d.begun && Fits(Baker(d), Waits(ConfigureBakerSessions.ReplyTo(b, e)))
            && d.memory.hash == Base(Baker(b), e) + ConfigureBakerSessions.HashedBy(b, e)
  {
    ConfigureBakerSessions.TakeHashes(b, e);
    RepliesOnly(b.memory, e.packet, !b.begun);
    hide ConfigureBakerMemory.Effect, ConfigureBakerSessions.Kept, ConfigureBakerSessions.HashedBy;
  }

  lemma RepliesOnly(m: Leftover, packet: Packet, isInitialCall: bool)
    requires ConfigureBakerMemory.Effect(m, packet, isInitialCall).Ok?
    ensures var reply := ConfigureBakerMemory.Effect(m, packet, isInitialCall).value.reply;
            reply == Success || reply == Await(Proceed) || reply == Await(Ask)
  {
  }

  lemma ScheduleFits(s: ScheduleTx.Progress, e: Event)
    requires ScheduleTx.ProgressOk(s) && ScheduleRuns.Take(s, e).Ok?
    ensures var t := ScheduleRuns.Take(s, e).value;
            && ScheduleTx.ProgressOk(t) && t.withMemo == s.withMemo
            && ScheduleTx.Transcript(t) == ScheduleTx.Transcript(s) + ScheduleRuns.HashedBy(s, e)
            && !t.stage.Start? && Fits(Schedule(t.withMemo, t), Waits(ScheduleTx.Answer(s, t)))
  {
    hide ScheduleTx.ProgressOk, ScheduleTx.Transcript, ScheduleTx.Accepted, DisplayCbor.StartMemo,
        DisplayCbor.ContinueMemo;
    ScheduleRuns.TakeExtends(s, e);
    ScheduleRuns.SameKind(s, e);
  }

  lemma CredentialFits(c: CredentialTx.Progress, e: Event)
    requires CredentialTx.ProgressOk(c) && TakeCredential(c, e).Ok?
    ensures var d := TakeCredential(c, e).value;
            && CredentialTx.ProgressOk(d) && !d.stage.Start?
            && CredentialTx.TranscriptOf(d) == CredentialTx.TranscriptOf(c) + HashedCredential(c, e)
            && Fits(Credential(d), Waits(AnswerCredential(c, e)))
  {
    hide CredentialTx.ProgressOk, CredentialTx.Transcript, CredentialTx.AcceptPart, CredentialTx.Hashed;
    CredentialTx.AcceptExtends(c, e.packet);
  }

  lemma TransferFits(t: SignTransfer.Progress, e: Event)
    requires SignTransfer.ProgressOk(t) && SignTransfer.Take(t, e).Ok?
    ensures var u := SignTransfer.Take(t, e).value;
            && SignTransfer.ProgressOk(u) && !u.stage.Start?
            && SignTransfer.Transcript(u) == SignTransfer.Transcript(t) + SignTransfer.HashedBy(t, e)
            && Fits(Transfer(u), Waits(SignTransfer.Answer(u)))
  {
    hide SignTransfer.ProgressOk, SignTransfer.Transcript, SignTransfer.Hashed, DisplayCbor.BeginTransit,
        DisplayCbor.ContinueTransit;
    SignTransfer.AcceptExtends(t, e.packet);
  }

  /** An accepted event is answered by what the new state waits for, and extends the transcript by what it
      hashes. */
  lemma TakeFits(ins: byte, c: Context, e: Event)
    requires Known(ins) && KindOf(ins, c) && ContextOk(c) && Take(ins, c, e).Ok?
    ensures var d := Take(ins, c, e).value;
            && KindOf(ins, d) && ContextOk(d) && !AtStart(d) && Fits(d, Waits(Answer(c, e)))
            && TranscriptOf(d) == Base(c, e) + Hashed(c, e)
  {
    if AtStart(c) && !c.Baker? { StartsEmpty(c); }
    match c
    case PlainTransfer(x) =>
      assert [] + Hashed(c, e) == Hashed(c, e);
    case Transfer(t) =>
      TransferFits(t, e);
      hide SignTransfer.Take, SignTransfer.ProgressOk, SignTransfer.Transcript, SignTransfer.HashedBy, Fits,
          SignTransfer.Answer;
    case Schedule(_, s) =>
      ScheduleFits(s, e);
      hide ScheduleRuns.Take, ScheduleTx.ProgressOk, ScheduleTx.Transcript, ScheduleRuns.HashedBy, Fits,
          ScheduleTx.Answer;
    case Credential(x) =>
      CredentialFits(x, e);
      hide TakeCredential, CredentialTx.ProgressOk, CredentialTx.TranscriptOf, HashedCredential, Fits, AnswerCredential;
    case Baker(b) =>
      BakerFits(b, e);
      hide ConfigureBakerSessions.Take, ConfigureBakerSessions.HashedBy, Fits, ConfigureBakerSessions.ReplyTo;
  }

  lemma StartsEmpty(c: Context)
    requires ContextOk(c) && AtStart(c) && !c.Baker?
    ensures TranscriptOf(c) == []
  {
  }

  lemma Starts(ins: byte, m: Leftover)
    requires Known(ins)
    ensures var c := Begin(ins, m); KindOf(ins, c) && ContextOk(c) && HostTurn(c) && AtStart(c)
  {
  }

  // ------------------------------------------------------------------ the introduction screen

  /** A credential update without its introduction. */
  function Bare(c: CredentialTx.Progress): (r: CredentialTx.Progress) {
    c.(intro := false)
  }

  /** Nothing that is accepted, hashed or answered depends on the introduction. */
  lemma IntroIrrelevant(c: CredentialTx.Progress, packet: Packet)
    requires !c.stage.Done?
    ensures CredentialTx.Accept(Bare(c), packet) == Lift(x => Bare(x), CredentialTx.Accept(c, packet))
    ensures CredentialTx.Accept(c, packet).Ok? ==>
      SignCredentialDeployment.Answer(Bare(c), packet) == SignCredentialDeployment.Answer(c, packet)
  {
    hide CredentialTx.AcceptPart;
  }

  lemma BareTranscript(c: CredentialTx.Progress)
    ensures CredentialTx.ProgressOk(Bare(c)) <==> CredentialTx.ProgressOk(c)
    ensures CredentialTx.TranscriptOf(Bare(c)) == CredentialTx.TranscriptOf(c)
  {
    hide CredentialTx.StageOk, CredentialTx.SignableCredential, CredentialTx.PartBytes;
  }

  lemma PlainParts(data: Cdata)
    requires HeaderAt(data, 60, SignTransfer.TRANSFER).Ok?
    ensures PathLength(data).Ok?
    ensures var at := PathLength(data).value;
            HeaderAt(data, 60, SignTransfer.TRANSFER).value + data[at + 61..at + 93] + data[at + 93..at + 101]
            == data[at..at + 101]
  {
  }

  lemma HostTakes(s: ScheduleTx.Progress, packet: Packet)
    requires ScheduleTx.ProgressOk(s) && !s.stage.PairShown? && !s.stage.Done?
    ensures ScheduleRuns.Take(s, Host(packet)) == ScheduleTx.Accept(s, packet)
  {
    hide ScheduleTx.Accept, ScheduleTx.Accepted, DisplayCbor.Received;
  }

  lemma BareFields(c: CredentialTx.Progress)
    ensures Bare(c).stage == c.stage && Bare(c).tx == c.tx
  {
  }

  class Main {
    const dev: Globals
    // The contexts; the source keeps them in a union, so that nothing is assumed of them when a session starts.
    const memo: DisplayCbor.CborContext
    const transfer: SignTransfer.Context
    const schedule: SignTransferWithSchedule.Context
    const credential: SignCredentialDeployment.Context
    const baker: SignConfigureBaker.Context
    var currentInstruction: Option<byte>
    var waits: Option<Callback>
    /** Whether the last session leaves open what the memory of configure-baker holds. */
    var open: bool
    ghost var state: State<Context, Leftover>

    constructor (sha: Sha256)
      ensures Valid() && state == Idle(None)
    {
      var d := new Globals(sha);
      var m := new DisplayCbor.CborContext();
      var t := new SignTransfer.Context(d, m);
      var s := new SignTransferWithSchedule.Context(d, m);
      var c := new SignCredentialDeployment.Context(d);
      var b := new SignConfigureBaker.Context(d);
      dev, memo, transfer, schedule, credential, baker := d, m, t, s, c, b;
      currentInstruction, waits, open, state := None, None, true, Idle(None);
    }

    ghost predicate Connected() {
      && transfer.dev == schedule.dev == credential.dev == baker.dev == dev && transfer.memo == schedule.memo == memo
      && memo.display.Length == 510 && schedule.buffer.Length == 255 && baker.urlDisplay.Length == 256
      && memo.display != baker.urlDisplay
    }

    /** The context of the session has received c. */
    ghost predicate Current(c: Context)
      requires Connected()
      reads memo, memo.display, transfer, schedule, schedule.buffer, credential, baker, baker.urlDisplay, dev
    {
      match c
      case PlainTransfer(x) => x.Sent? ==> dev.hash == SignTransfer.PlainBytes(x)
      case Transfer(t) => transfer.Valid() && transfer.progress == t
      case Schedule(_, s) => schedule.Valid() && schedule.progress == s
      case Credential(x) => credential.Valid() && Bare(credential.progress) == x
      case Baker(b) => baker.Contents() == b.memory
      case Other => true
    }

    /** What the contexts guarantee: a started session has hashed exactly what has been received. */
    lemma CurrentHash(c: Context)
      requires Connected() && Current(c)
      ensures ContextOk(c) && (!AtStart(c) ==> dev.hash == TranscriptOf(c))
    {
      hide SignTransfer.ProgressOk, ScheduleTx.ProgressOk, CredentialTx.ProgressOk,
          SignTransfer.Transcript, ScheduleTx.Transcript, CredentialTx.Transcript, Bare;
      if c.Credential? {
        BareTranscript(credential.progress);
        BareFields(credential.progress);
      }
    }

    ghost predicate Valid()
      reads this, memo, memo.display, transfer, schedule, schedule.buffer, credential, baker, baker.urlDisplay, dev
    {
      && Connected()
      && match state
         case Idle(left) =>
           currentInstruction == None && open == left.None? && (left.Some? ==> baker.Contents() == left.value)
         case Session(ins, c, hashed, w) =>
           && currentInstruction == Some(ins) && waits == w
           && (Known(ins) ==>
                 && Current(c) && KindOf(ins, c) && Fits(c, w) && !AtStart(c) && hashed == TranscriptOf(c) == dev.hash)
    }

    method TransferHandler(packet: Packet, isInitialCall: bool, ghost c: Context) returns (r: Outcome<Reply>)
      requires Connected() && c.Transfer? && HostTurn(c) && ContextOk(c)
      requires if isInitialCall then c == Transfer(SignTransfer.BEGIN) && dev.shown == [] else Current(c) && !AtStart(c)
      modifies memo, memo.display, transfer, schedule, schedule.buffer, credential, baker, baker.urlDisplay, dev
      ensures match Take(INS_SIGN_TRANSFER_WITH_MEMO, c, Host(packet))
              case Throw(e) => r == Throw(e)
              case Ok(d) => r == Ok(Answer(c, Host(packet))) && Current(d)
    {
      hide SignTransfer.Accept, AddressChars, SignTransfer.Transcript, SignTransfer.Rendered, SignTransfer.ProgressOk;
      r := transfer.HandleSignTransferWithMemo(packet, isInitialCall);
    }

    method ScheduleHandler(packet: Packet, isInitialCall: bool, withMemo: bool, ghost c: Context)
      returns (r: Outcome<Reply>)
      requires Connected() && c.Schedule? && c.withMemo == withMemo == c.s.withMemo && HostTurn(c) && ContextOk(c)
      requires if isInitialCall then c == Schedule(withMemo, ScheduleTx.Begin(withMemo)) && dev.shown == []
               else Current(c) && !AtStart(c)
      modifies memo, memo.display, transfer, schedule, schedule.buffer, credential, baker, baker.urlDisplay, dev
      ensures match Take(if withMemo then INS_SIGN_TRANSFER_WITH_SCHEDULE_AND_MEMO else INS_SIGN_TRANSFER_WITH_SCHEDULE,
                         c, Host(packet))
              case Throw(e) => r == Throw(e)
              case Ok(d) => r == Ok(Answer(c, Host(packet))) && Current(d)
    {
      HostTakes(c.s, packet);
      hide ScheduleTx.Accept, AddressChars, ScheduleTx.Transcript, ScheduleTx.Rendered, ScheduleTx.ProgressOk,
          ScheduleRuns.Take;
      if withMemo {
        r := schedule.HandleSignTransferWithScheduleAndMemo(packet, isInitialCall);
      } else {
        r := schedule.HandleSignTransferWithSchedule(packet, isInitialCall);
      }
    }

    method CredentialHandler(packet: Packet, isInitialCall: bool, ghost c: Context) returns (r: Outcome<Reply>)
      requires Connected() && c.Credential? && HostTurn(c) && ContextOk(c)
      requires if isInitialCall then c == Credential(CredentialTx.Begin(false)) && dev.shown == []
               else Current(c) && !AtStart(c)
      modifies memo, memo.display, transfer, schedule, schedule.buffer, credential, baker, baker.urlDisplay, dev
      ensures match Take(INS_SIGN_UPDATE_CREDENTIAL, c, Host(packet))
              case Throw(e) => r == Throw(e)
              case Ok(d) => r == Ok(Answer(c, Host(packet))) && Current(d)
    {
      hide CredentialTx.Accept, AddressChars, CredentialTx.Transcript, SignCredentialDeployment.Rendered,
          CredentialTx.ProgressOk, SignCredentialDeployment.Answer, SignCredentialDeployment.ShownOk,
          SignCredentialDeployment.OuterFields;
      ghost var before := if isInitialCall then CredentialTx.Begin(credential.showIntro) else credential.progress;
      IntroIrrelevant(before, packet);
      r := credential.HandleSignUpdateCredential(packet, isInitialCall);
    }

    /** handler: the switch on the instruction. */
    method Handler(ins: byte, packet: Packet, isInitialCall: bool, ghost c: Context, ghost m: Leftover)
      returns (r: Outcome<Reply>)
      requires Connected() && Known(ins) && KindOf(ins, c) && HostTurn(c) && ContextOk(c)
      requires if isInitialCall then c == Begin(ins, m) && dev.shown == [] else Current(c) && !AtStart(c)
      requires c.Baker? ==> Current(c)
      modifies memo, memo.display, transfer, schedule, schedule.buffer, credential, baker, baker.urlDisplay, dev
      ensures match Take(ins, c, Host(packet))
              case Throw(e) => r == Throw(e)
              case Ok(d) => r == Ok(Answer(c, Host(packet))) && Current(d)
    {
      hide Current, Answer, SignTransfer.Take, ScheduleRuns.Take, TakeCredential, ContextOk;
      if ins == INS_SIGN_TRANSFER {
        r := PlainHandler(packet, c);
      } else if ins == INS_SIGN_TRANSFER_WITH_MEMO {
        r := TransferHandler(packet, isInitialCall, c);
      } else if ins == INS_SIGN_TRANSFER_WITH_SCHEDULE {
        r := ScheduleHandler(packet, isInitialCall, false, c);
      } else if ins == INS_SIGN_TRANSFER_WITH_SCHEDULE_AND_MEMO {
        r := ScheduleHandler(packet, isInitialCall, true, c);
      } else if ins == INS_SIGN_UPDATE_CREDENTIAL {
        r := CredentialHandler(packet, isInitialCall, c);
      } else {
        r := BakerHandler(packet, isInitialCall, c);
      }
    }

    method BakerHandler(packet: Packet, isInitialCall: bool, ghost c: Context) returns (r: Outcome<Reply>)
      requires Connected() && c.Baker? && HostTurn(c) && Current(c) && c.b.begun == !isInitialCall
      modifies memo, memo.display, transfer, schedule, schedule.buffer, credential, baker, baker.urlDisplay, dev
      ensures match Take(INS_CONFIGURE_BAKER, c, Host(packet))
              case Throw(e) => r == Throw(e)
              case Ok(d) => r == Ok(Answer(c, Host(packet))) && Current(d)
    {
      hide ConfigureBakerMemory.Effect, AddressChars;
      r := baker.HandleSignConfigureBaker(packet, isInitialCall);
    }

    /** The one packet of a transfer without memo, which is always the initial call. */
    method PlainHandler(packet: Packet, ghost c: Context) returns (r: Outcome<Reply>)
      requires Connected() && c == PlainTransfer(SignTransfer.Unsent) && dev.shown == []
      modifies memo, memo.display, transfer, schedule, schedule.buffer, credential, baker, baker.urlDisplay, dev
      ensures match Take(INS_SIGN_TRANSFER, c, Host(packet))
              case Throw(e) => r == Throw(e)
              case Ok(d) => r == Ok(Answer(c, Host(packet))) && Current(d)
    {
      hide AddressChars, HeaderAt, Readback.ShowsTransfer;
      r := transfer.HandleSignTransfer(packet.data);
      if r.Ok? { PlainParts(packet.data); }
    }

    /** The callback of the step that is pressed. */
    method Press(callback: Callback, ghost ins: byte, ghost c: Context) returns (r: Outcome<Reply>)
      requires Connected() && Current(c) && Fits(c, Some(callback)) && callback != Ask && callback != Proceed
      modifies memo, memo.display, transfer, schedule, schedule.buffer, credential, baker, baker.urlDisplay, dev
      ensures match Take(ins, c, Confirm)
              case Throw(e) => r == Throw(e)
              case Ok(d) => r == Ok(Answer(c, Confirm)) && Current(d)
    {
      r := schedule.ShowNextRelease();
    }

    /** CATCH_OTHER: replies with the error, or resets the device, which then starts the application again. */
    method Catch(error: Error, leavesOpen: bool, ghost left: Option<Leftover>) returns (log: seq<Entry>)
      requires Connected() && leavesOpen == left.None? && (left.Some? ==> baker.Contents() == left.value)
      modifies this
      ensures Valid() && Trace(state, log) == Caught(error, left)
    {
      currentInstruction := None;
      open := leavesOpen;
      state := Idle(left);
      log := if EndsSession(error) then [Refused(error)] else [Restarted(error)];
    }

    /** An error before any handler is called, or a refusal: only the memory of configure-baker is known. */
    function LeavesOpen(): (r: bool)
      reads this
    {
      if currentInstruction.None? then open else currentInstruction.value != INS_CONFIGURE_BAKER
    }

    lemma LeftIs()
      requires Valid()
      ensures var left := Left(HANDLERS, state);
              LeavesOpen() == left.None? && (left.Some? ==> baker.Contents() == left.value)
    {
    }

    /** The handler, or the callback, has returned: a screen waits, the host has its reply, or an error ends
        the session. */
    method Conclude(ins: byte, ghost c: Context, ghost hashed: bytes, e: Event, first: bool, r: Outcome<Reply>)
      returns (log: seq<Entry>)
      requires Connected() && Known(ins) && KindOf(ins, c) && ContextOk(c) && hashed == Base(c, e)
      requires currentInstruction == Some(ins)
      requires match Take(ins, c, e)
               case Throw(error) => r == Throw(error)
               case Ok(d) => r == Ok(Answer(c, e)) && Current(d)
      modifies this
      ensures Valid() && Trace(state, log) == Handled(HANDLERS, ins, c, hashed, e, first)
    {
      hide Take, Answer, Hashed, TranscriptOf, KindOf, Fits, Current, ContextOk, Base, AtStart;
      match r {
        case Throw(error) => log := Catch(error, true, None);
        case Ok(reply) =>
          TakeFits(ins, c, e);
          CurrentHash(Take(ins, c, e).value);
          waits := Waits(reply);
          state := Session(ins, Take(ins, c, e).value, hashed + Hashed(c, e), waits);
          log := [Accepted(ins, e, first)];
      }
    }

    /** A round of the loop that has received a command.  The source clears only its own pointer to the
        contexts, so that a session finds what is left there. */
    method Exchange(cla: byte, ins: byte, packet: Packet, foreign: Foreign, found: Leftover) returns (log: seq<Entry>)
      requires Valid()
      modifies this, memo, memo.display, transfer, schedule, schedule.buffer, credential, baker, baker.urlDisplay, dev
      ensures Valid() && Trace(state, log) == Next(HANDLERS, old(state), Command(cla, ins, packet, foreign, found))
    {
      hide Take, Answer, Hashed, TranscriptOf, Handled, HandledElsewhere, Caught;
      if currentInstruction.Some? && waits.Some? {
        return [];
      }
      if cla != CLA {
        LeftIs();
        log := Catch(InvalidCla, LeavesOpen(), Left(HANDLERS, state));
      } else if currentInstruction.None? {
        log := FirstCommand(ins, packet, foreign, found);
      } else if currentInstruction.value != ins {
        LeftIs();
        log := Catch(InvalidState, LeavesOpen(), Left(HANDLERS, state));
      } else if Known(ins) {
        ghost var c, hashed := state.p, state.hashed;
        CurrentHash(c);
        var r := Handler(ins, packet, false, c, found);
        log := Conclude(ins, c, hashed, Host(packet), false, r);
      } else {
        log := ForeignHandler(ins, foreign, state.p);
      }
    }

    /** The initial call of an instruction. */
    method FirstCommand(ins: byte, packet: Packet, foreign: Foreign, found: Leftover) returns (log: seq<Entry>)
      requires Valid() && state.Idle?
      modifies this, memo, memo.display, transfer, schedule, schedule.buffer, credential, baker, baker.urlDisplay, dev
      ensures Valid()
      ensures var c := Begin(ins, MainHelpers.Found(old(state), found));
              Trace(state, log) == if Known(ins) then Handled(HANDLERS, ins, c, Kept(c, Host(packet)), Host(packet), true)
                                   else HandledElsewhere(ins, c, foreign.ending)
    {
      hide Take, Answer, Hashed, TranscriptOf, Handled, HandledElsewhere;
      ghost var m := MainHelpers.Found(state, found);
      ghost var c := Begin(ins, m);
      dev.shown := [];
      currentInstruction := Some(ins);
      if Known(ins) {
        if open && ins == INS_CONFIGURE_BAKER {
          baker.Find(found);
        }
        Starts(ins, m);
        var r := Handler(ins, packet, true, c, m);
        log := Conclude(ins, c, Kept(c, Host(packet)), Host(packet), true, r);
      } else {
        log := ForeignHandler(ins, foreign, c);
      }
    }

    /** A handler that is not part of the model leaves anything in the hash. */
    method ForeignHandler(ins: byte, foreign: Foreign, ghost c: Context) returns (log: seq<Entry>)
      requires Connected() && !Known(ins) && currentInstruction == Some(ins)
      modifies this, dev
      ensures Valid() && Trace(state, log) == HandledElsewhere(ins, c, foreign.ending)
    {
      dev.hash := foreign.hash;
      match foreign.ending {
        case Throws(error) => log := Catch(error, true, None);
        case Replies(reply) =>
          waits := Waits(reply);
          state := Session(ins, c, [], waits);
          log := [OtherInstruction(ins)];
        case Ends =>
          currentInstruction := None;
          open := true;
          state := Idle(None);
          log := [OtherInstruction(ins)];
      }
    }

    /** The user presses the step of a flow that goes on. */
    method Continue() returns (log: seq<Entry>)
      requires Valid()
      modifies this, memo, memo.display, transfer, schedule, schedule.buffer, credential, baker, baker.urlDisplay, dev
      ensures Valid() && Trace(state, log) == Next(HANDLERS, old(state), PressContinue)
      ensures old(state).Session? && old(state).waits == Some(Proceed) ==>
        state == old(state).(waits := None) && log == []
    {
      hide Take, Answer, Hashed, TranscriptOf;
      log := [];
      if currentInstruction.None? || waits.None? || waits == Some(Ask) {
        return;
      }
      var ins, callback := currentInstruction.value, waits.value;
      if callback == Proceed || !Known(ins) {
        waits := None;
        state := state.(waits := None);
        return;
      }
      ghost var c, hashed := state.p, state.hashed;
      CurrentHash(c);
      var r := Press(callback, ins, c);
      log := Conclude(ins, c, hashed, Confirm, false, r);
    }

    /** buildAndSignTransactionHash and sendSuccess: what tx_state.hash has absorbed is signed. */
    method Sign() returns (log: seq<Entry>)
      requires Valid()
      modifies this
      ensures Valid() && Trace(state, log) == Next(HANDLERS, old(state), PressSign)
    {
      log := [];
      if currentInstruction.Some? && waits == Some(Ask) {
        var ins := currentInstruction.value;
        log := [if Known(ins) then Signature(ins, dev.hash) else OtherInstruction(ins)];
        currentInstruction := None;
        open := true;
        state := Idle(None);
      }
    }

    /** sendUserRejection */
    method Decline() returns (log: seq<Entry>)
      requires Valid()
      modifies this
      ensures Valid() && Trace(state, log) == Next(HANDLERS, old(state), PressDecline)
    {
      log := [];
      if currentInstruction.Some? && waits == Some(Ask) {
        log := [Declined];
        LeftIs();
        open := LeavesOpen();
        state := Idle(Left(HANDLERS, state));
        currentInstruction := None;
      }
    }

    /** concordium_main, for any commands and presses: it does what History says, so that every signature is
        as EverySignature says. */
    method Loop(inputs: seq<Input<Leftover>>) returns (log: seq<Entry>)
      requires Valid() && state == Idle(None)
      modifies this, memo, memo.display, transfer, schedule, schedule.buffer, credential, baker, baker.urlDisplay, dev
      ensures Valid() && Trace(state, log) == History(HANDLERS, inputs)
      ensures forall i | 0 <= i < |log| :: SignedOk(log, i)
    {
      hide Next, Valid, SignedOk;
      log := [];
      for i := 0 to |inputs|
        invariant Valid() && Trace(state, log) == History(HANDLERS, inputs[..i])
      {
        HistoryNext(HANDLERS, inputs, i);
        var now;
        match inputs[i] {
          case NoApdu => now := NoCommand();
          case Command(cla, ins, packet, foreign, found) => now := Exchange(cla, ins, packet, foreign, found);
          case PressContinue => now := Continue();
          case PressSign => now := Sign();
          case PressDecline => now := Decline();
        }
        log := log + now;
      }
      assert inputs[..|inputs|] == inputs;
      forall i | 0 <= i < |log|
        ensures SignedOk(log, i)
      {
        EverySignature(inputs, i);
      }
    }

    method NoCommand() returns (log: seq<Entry>)
      requires Valid()
      modifies this
      ensures Valid() && Trace(state, log) == Next(HANDLERS, old(state), NoApdu)
    {
      LeftIs();
      log := Catch(NoApduReceived, LeavesOpen(), Left(HANDLERS, state));
    }
  }
}
