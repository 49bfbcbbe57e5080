/** What the wallet app signs, exactly: the histories of its loop that end with a signature. */
module WalletSigned {
  import opened Bytes
  import opened Device
  import opened Runs
  import opened MainHelpers
  import opened LoopCompletes
  import opened WalletMain
  import SignTransfer
  import TransferComplete
  import ScheduleTx
  import ScheduleRuns
  import ScheduleComplete
  import CredentialTx
  import CredentialUnique
  import CredentialFormat
  import ConfigureBakerMemory
  import ConfigureBakerSessions
  import ConfigureBakerFormat

  ghost predicate Good(ins: byte, c: Context) {
    KindOf(ins, c) && ContextOk(c)
  }

  /** What a context waits for is what it takes. */
  lemma FitsNext(ins: byte, c: Context, reply: Reply)
    requires Known(ins) && KindOf(ins, c) && Fits(c, Waits(reply))
    ensures Answered(HANDLERS, ins, c, reply)
  {
    hide SignTransfer.Accept, ScheduleTx.Accept, ScheduleTx.Next, CredentialTx.Accept, ConfigureBakerMemory.Effect;
    forall e: Event | Take(ins, c, e).Ok?
      ensures NextFits(reply, e)
    {
      match c
      case PlainTransfer(x) =>
      case Transfer(t) =>
      case Schedule(m, s) =>
      case Credential(x) =>
      case Baker(b) =>
    }
  }

  lemma Goes()
    ensures BeginsWell(HANDLERS, Good) && GoesOn(HANDLERS, Good)
  {
    forall ins: byte, m: Leftover | Known(ins)
      ensures Good(ins, Begin(ins, m)) && Answered(HANDLERS, ins, Begin(ins, m), Success)
    {
      Starts(ins, m);
      FitsNext(ins, Begin(ins, m), Success);
    }
    hide Take, Answer, KindOf, ContextOk, Answered;
    forall ins: byte, c: Context, e: Event | Known(ins) && Good(ins, c) && Take(ins, c, e).Ok?
      ensures Good(ins, Take(ins, c, e).value)
      ensures Answered(HANDLERS, ins, Take(ins, c, e).value, Answer(c, e))
    {
      TakeFits(ins, c, e);
      FitsNext(ins, Take(ins, c, e).value, Answer(c, e));
    }
  }

  // ------------------------------------------------------------------ every transaction has a session

  /** A run of the instruction from the memory m that is done and has hashed b. */
  ghost predicate Signing(ins: byte, m: Leftover, events: seq<Event>, b: bytes) {
    exists c: Context :: SessionOf(HANDLERS, ins, m, events, c, b) && IsDone(c)
  }

  lemma SessionIs(ins: byte, m: Leftover, events: seq<Event>, c: Context, b: bytes)
    requires Run(Taker(HANDLERS, ins), Begin(ins, m), events) == Ok(c) && IsDone(c) && !c.Baker?
    requires Gathered(Taker(HANDLERS, ins), Hashed, Begin(ins, m), events) == b
    requires !Begin(ins, m).Baker? && !IsDone(Begin(ins, m))
    ensures Signing(ins, m, events, b)
  {
    hide Gathered;
    assert events != [];
    hide Run;
    assert [] + b == b;
    assert SessionOf(HANDLERS, ins, m, events, c, b);
  }

  lemma PlainSent(m: Leftover, b: bytes) returns (events: seq<Event>)
    requires exists header, to, amount :: SignTransfer.SerializesPlain(header, to, amount, b)
    ensures Signing(INS_SIGN_TRANSFER, m, events, b)
  {
    hide SignTransfer.TakePlain, SignTransfer.HashedPlain, Run, Gathered, SignTransfer.SerializesPlain;
    TransferComplete.PlainStrings(b);
    events :| TransferComplete.SignsPlain(events, b);
    var ins, up := INS_SIGN_TRANSFER, (x: SignTransfer.Plain) => PlainTransfer(x);
    forall x: SignTransfer.Plain, e: Event
      ensures Taker(HANDLERS, ins)(up(x), e) == Lift(up, SignTransfer.TakePlain(x, e))
    {
      TakerIs(HANDLERS, ins, up(x), e);
    }
    RunWithin(SignTransfer.TakePlain, SignTransfer.HashedPlain, up, Taker(HANDLERS, ins), Hashed, SignTransfer.Unsent,
        events);
    SessionIs(ins, m, events, PlainTransfer(Run(SignTransfer.TakePlain, SignTransfer.Unsent, events).value), b);
  }

  lemma TransferSent(m: Leftover, b: bytes) returns (events: seq<Event>)
    requires exists header, to, declared, memo, amount ::
               TransferComplete.Strings(header, to, declared, memo, amount, b)
    ensures Signing(INS_SIGN_TRANSFER_WITH_MEMO, m, events, b)
  {
    hide SignTransfer.Take, SignTransfer.HashedBy, Run, Gathered, TransferComplete.Strings;
    TransferComplete.SignedStrings(b);
    events :| SignTransfer.Signs(events, b);
    var ins, up := INS_SIGN_TRANSFER_WITH_MEMO, (x: SignTransfer.Progress) => Transfer(x);
    forall x: SignTransfer.Progress, e: Event
      ensures Taker(HANDLERS, ins)(up(x), e) == Lift(up, SignTransfer.Take(x, e))
    {
      TakerIs(HANDLERS, ins, up(x), e);
    }
    RunWithin(SignTransfer.Take, SignTransfer.HashedBy, up, Taker(HANDLERS, ins), Hashed, SignTransfer.BEGIN, events);
    SessionIs(ins, m, events, Transfer(Run(SignTransfer.Take, SignTransfer.BEGIN, events).value), b);
  }

  lemma ScheduleSent(ins: byte, m: Leftover, withMemo: bool, b: bytes) returns (events: seq<Event>)
    requires IsSchedule(withMemo, b)
    requires ins == if withMemo then INS_SIGN_TRANSFER_WITH_SCHEDULE_AND_MEMO else INS_SIGN_TRANSFER_WITH_SCHEDULE
    ensures Signing(ins, m, events, b)
  {
    hide ScheduleRuns.Take, ScheduleRuns.HashedBy, Run, Gathered, ScheduleComplete.Strings;
    ScheduleComplete.SignedStrings(withMemo, b);
    events :| ScheduleRuns.Reached(withMemo, events, b);
    var up := (x: ScheduleTx.Progress) => Schedule(withMemo, x);
    forall x: ScheduleTx.Progress, e: Event
      ensures Taker(HANDLERS, ins)(up(x), e) == Lift(up, ScheduleRuns.Take(x, e))
    {
      TakerIs(HANDLERS, ins, up(x), e);
    }
    RunWithin(ScheduleRuns.Take, ScheduleRuns.HashedBy, up, Taker(HANDLERS, ins), Hashed, ScheduleTx.Begin(withMemo),
        events);
    var start := ScheduleTx.Begin(withMemo);
    SessionIs(ins, m, events, Schedule(withMemo, Run(ScheduleRuns.Take, start, events).value), b);
  }

  /** Packets as events. */
  lemma {:induction false} AsEvents(c: CredentialTx.Progress, packets: seq<Packet>)
    requires Run(CredentialTx.Take, c, packets).Ok?
    ensures var events := ConfigureBakerSessions.Hosts(packets);
            && Run(TakeCredential, c, events) == Run(CredentialTx.Take, c, packets)
            && Gathered(TakeCredential, HashedCredential, c, events)
               == Gathered(CredentialTx.Take, CredentialTx.HashedBy, c, packets)
  {
    hide CredentialTx.Take, CredentialTx.HashedBy;
    if packets != [] {
      var n := |packets| - 1;
      AsEvents(c, packets[..n]);
      assert ConfigureBakerSessions.Hosts(packets)[..n] == ConfigureBakerSessions.Hosts(packets[..n]);
    }
  }

  lemma CredentialSent(m: Leftover, b: bytes) returns (events: seq<Event>)
    requires exists tx: CredentialTx.Tx :: CredentialTx.Signable(tx) && CredentialTx.TxBytes(tx) == b
    ensures Signing(INS_SIGN_UPDATE_CREDENTIAL, m, events, b)
  {
    hide CredentialTx.Take, CredentialTx.HashedBy, Run, Gathered, CredentialTx.Signable, CredentialTx.TxBytes,
        TakeCredential, HashedCredential, ConfigureBakerSessions.Hosts;
    var start := CredentialTx.Begin(false);
    CredentialUnique.SignedStrings(b, false);
    var packets: seq<Packet> :| CredentialUnique.Signs(false, packets, b);
    AsEvents(start, packets);
    events := ConfigureBakerSessions.Hosts(packets);
    var ins, up := INS_SIGN_UPDATE_CREDENTIAL, (x: CredentialTx.Progress) => Credential(x);
    forall x: CredentialTx.Progress, e: Event
      ensures Taker(HANDLERS, ins)(up(x), e) == Lift(up, TakeCredential(x, e))
    {
      TakerIs(HANDLERS, ins, up(x), e);
    }
    RunWithin(TakeCredential, HashedCredential, up, Taker(HANDLERS, ins), Hashed, start, events);
    SessionIs(ins, m, events, Credential(Run(TakeCredential, start, events).value), b);
  }

  lemma Sent(ins: byte, m: Leftover, b: bytes) returns (events: seq<Event>)
    requires Signable(ins, b)
    ensures Known(ins) && ins != INS_CONFIGURE_BAKER && Signing(ins, m, events, b)
  {
    hide Signing, TransferComplete.Strings, SignTransfer.SerializesPlain, IsSchedule, CredentialTx.Signable,
        CredentialTx.TxBytes;
    if ins == INS_SIGN_TRANSFER {
      events := PlainSent(m, b);
    } else if ins == INS_SIGN_TRANSFER_WITH_MEMO {
      events := TransferSent(m, b);
    } else if ins == INS_SIGN_TRANSFER_WITH_SCHEDULE {
      events := ScheduleSent(ins, m, false, b);
    } else if ins == INS_SIGN_TRANSFER_WITH_SCHEDULE_AND_MEMO {
      events := ScheduleSent(ins, m, true, b);
    } else {
      events := CredentialSent(m, b);
    }
  }

  /** A session of configure-baker that has asked to sign, from any memory. */
  lemma BakerSigning(m: Leftover, events: seq<Event>)
    requires events != [] && Run(ConfigureBakerSessions.Take, ConfigureBakerSessions.Found(m), events).Ok?
    requires Run(ConfigureBakerSessions.Take, ConfigureBakerSessions.Found(m), events).value.asked
    ensures var s := Run(ConfigureBakerSessions.Take, ConfigureBakerSessions.Found(m), events).value;
            Signing(INS_CONFIGURE_BAKER, m, events, s.memory.hash)
  {
    hide ConfigureBakerSessions.Take, ConfigureBakerSessions.HashedBy, ConfigureBakerSessions.Kept, Run, Gathered;
    var ins, up := INS_CONFIGURE_BAKER, (x: ConfigureBakerSessions.Sitting) => Baker(x);
    var start := ConfigureBakerSessions.Found(m);
    forall x: ConfigureBakerSessions.Sitting, e: Event
      ensures Taker(HANDLERS, ins)(up(x), e) == Lift(up, ConfigureBakerSessions.Take(x, e))
    {
      TakerIs(HANDLERS, ins, up(x), e);
    }
    RunWithin(ConfigureBakerSessions.Take, ConfigureBakerSessions.HashedBy, up, Taker(HANDLERS, ins), Hashed,
        start, events);
    ConfigureBakerSessions.SessionHash(start, events);
    var s := Run(ConfigureBakerSessions.Take, start, events).value;
    assert SessionOf(HANDLERS, ins, m, events, Baker(s), s.memory.hash);
  }

  // ------------------------------------------------------------------ what is signed

  ghost predicate EndsSigned(inputs: seq<Input<Leftover>>, ins: byte, b: bytes) {
    var log := History(HANDLERS, inputs).log;
    log != [] && log[|log| - 1] == Signature(ins, b)
  }

  /** Every accepted session that is done can be gone through from any point at which no session runs and the
      memory is as it begins: the log then gets its events and its signature, and nothing else. */
  lemma SessionSigned(before: seq<Input<Leftover>>, ins: byte, m: Leftover, events: seq<Event>, b: bytes)
    requires Known(ins) && Signing(ins, m, events, b)
    requires History(HANDLERS, before).state.Idle? && Found(History(HANDLERS, before).state, m) == m
    ensures Run(Taker(HANDLERS, ins), Begin(ins, m), events).Ok?
    ensures var inputs := before + InputsOf(HANDLERS, ins, m, events) + [PressSign];
            History(HANDLERS, inputs)
            == Trace(Idle(None), History(HANDLERS, before).log + Entries(ins, events) + [Signature(ins, b)])
  {
    hide History, BeginsWell, GoesOn, InputsOf, Entries, Run, Gathered, Take;
    Goes();
    SessionSigns(HANDLERS, Good, before, ins, m, events, b);
  }

  /** Whatever has happened before, every well-formed transaction can be signed. */
  lemma SignedFromAnywhere(before: seq<Input<Leftover>>, any: Leftover, ins: byte, b: bytes)
    returns (more: seq<Input<Leftover>>)
    requires Signable(ins, b)
    ensures EndsSigned(before + more, ins, b)
  {
    hide History, InputsOf, Entries, Run, Signing, Signable, Take;
    AlwaysIdle(HANDLERS, before);
    var m := Found(History(HANDLERS, before + [NoApdu]).state, any);
    var events := Sent(ins, m, b);
    SessionSigned(before + [NoApdu], ins, m, events, b);
    more := [NoApdu] + InputsOf(HANDLERS, ins, m, events) + [PressSign];
    assert before + more == before + [NoApdu] + InputsOf(HANDLERS, ins, m, events) + [PressSign];
  }

  /** The wallet signs a byte string for an instruction other than configure-baker in some history if and only
      if it is a well-formed transaction of the kind that the instruction stands for. */
  lemma SignedExactly(ins: byte, b: bytes)
    requires Known(ins) && ins != INS_CONFIGURE_BAKER
    ensures (exists inputs: seq<Input<Leftover>> :: EndsSigned(inputs, ins, b)) <==> Signable(ins, b)
  {
    hide History, Signable;
    if inputs: seq<Input<Leftover>> :| EndsSigned(inputs, ins, b) {
      EverySignature(inputs, |History(HANDLERS, inputs).log| - 1);
    }
    if Signable(ins, b) {
      var any: Leftover := *;
      var more := SignedFromAnywhere([], any, ins, b);
    }
  }

  /** The history ends with a session of configure-baker that begins anew, and its signature. */
  ghost predicate EndsAnew(inputs: seq<Input<Leftover>>, events: seq<Event>, b: bytes) {
    var log := History(HANDLERS, inputs).log;
    && EndsSigned(inputs, INS_CONFIGURE_BAKER, b) && events != [] && ConfigureBakerSessions.Anew(events)
    && EndsWith(log[..|log| - 1], INS_CONFIGURE_BAKER, events)
  }

  lemma BakerFromAnywhere(before: seq<Input<Leftover>>, any: Leftover, b: bytes)
    returns (more: seq<Input<Leftover>>, events: seq<Event>)
    requires ConfigureBakerSessions.Serializes(b)
    ensures EndsAnew(before + more, events, b)
  {
    hide History, InputsOf, Entries, Signing, Take, ConfigureBakerSessions.Serializes, ConfigureBakerSessions.Take,
        ConfigureBakerSessions.Announces, EndsWith;
    AlwaysIdle(HANDLERS, before);
    var now := History(HANDLERS, before + [NoApdu]);
    var m := Found(now.state, any);
    ConfigureBakerSessions.SignedAnew(m, b);
    events :| events != [] && ConfigureBakerSessions.Anew(events)
      && Run(ConfigureBakerSessions.Take, ConfigureBakerSessions.Found(m), events).Ok?
      && Run(ConfigureBakerSessions.Take, ConfigureBakerSessions.Found(m), events).value.asked
      && Run(ConfigureBakerSessions.Take, ConfigureBakerSessions.Found(m), events).value.memory.hash == b;
    BakerSigning(m, events);
    hide Run;
    SessionSigned(before + [NoApdu], INS_CONFIGURE_BAKER, m, events, b);
    more := [NoApdu] + InputsOf(HANDLERS, INS_CONFIGURE_BAKER, m, events) + [PressSign];
    assert before + more == before + [NoApdu] + InputsOf(HANDLERS, INS_CONFIGURE_BAKER, m, events) + [PressSign];
    EntriesEnd(INS_CONFIGURE_BAKER, now.log, events);
    var entries := now.log + Entries(INS_CONFIGURE_BAKER, events);
    assert (entries + [Signature(INS_CONFIGURE_BAKER, b)])[..|entries|] == entries;
  }

  /** Sessions of configure-baker that begin with an initial packet announcing a field sign exactly the
      well-formed transactions, whatever is left in memory. */
  lemma BakerSignedExactly(b: bytes)
    ensures (exists inputs: seq<Input<Leftover>>, events: seq<Event> :: EndsAnew(inputs, events, b))
       <==> ConfigureBakerSessions.Serializes(b)
  {
    hide History, ConfigureBakerSessions.Serializes, EndsWith, ConfigureBakerSessions.Announces;
    if inputs: seq<Input<Leftover>>, events: seq<Event> :| EndsAnew(inputs, events, b) {
      var log := History(HANDLERS, inputs).log;
      EverySignature(inputs, |log| - 1);
      var own: seq<Event>, left: bytes :|
        own != [] && EndsWith(log[..|log| - 1], INS_CONFIGURE_BAKER, own)
            && ConfigureBakerSessions.SignedAs(own, left, b);
      EndsWithOnce(log[..|log| - 1], INS_CONFIGURE_BAKER, events, own);
    }
    if ConfigureBakerSessions.Serializes(b) {
      var any: Leftover := *;
      var more, events := BakerFromAnywhere([], any, b);
    }
  }

  /** Transfers take 0x02, credential updates 0x31; configure-baker is 0x18. */
  lemma SignedByNumber(b: bytes)
    ensures (exists inputs: seq<Input<Leftover>> :: EndsSigned(inputs, 0x02, b)) <==> |b| == 101 && b[60] == 3
    ensures (exists inputs: seq<Input<Leftover>> :: EndsSigned(inputs, 0x31, b)) <==> CredentialFormat.Format(b)
    ensures (exists inputs: seq<Input<Leftover>>, events: seq<Event> :: EndsAnew(inputs, events, b))
       <==> ConfigureBakerFormat.Format(b)
  {
    hide EndsSigned, EndsAnew, CredentialFormat.Format, ConfigureBakerFormat.Format, CredentialUnique.Signs,
        CredentialTx.Signable, CredentialTx.TxBytes;
    SignedExactly(0x02, b);
    SignedExactly(0x31, b);
    BakerSignedExactly(b);
    PlainIs(b);
    CredentialUnique.SignedStrings(b, false);
    CredentialFormat.SignedFormat(b, false);
    ConfigureBakerFormat.SignedFormat(b);
  }

  lemma PlainIs(b: bytes)
    ensures (exists header, to, amount :: SignTransfer.SerializesPlain(header, to, amount, b))
        <==> |b| == 101 && b[60] == 3
  {
    if |b| == 101 && b[60] == 3 {
      assert b[..61] + b[61..93] + b[93..] == b;
      assert SignTransfer.SerializesPlain(b[..61], b[61..93], b[93..], b);
    }
  }
}
