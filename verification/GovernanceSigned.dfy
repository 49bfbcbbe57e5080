/** What the governance app signs, exactly: the histories of its loop that end with a signature. */
module GovernanceSigned {
  import opened Bytes
  import opened Device
  import opened Runs
  import opened MainHelpers
  import opened LoopCompletes
  import opened GovernanceMain
  import AuthorizationsTx
  import AuthorizationsRuns
  import AuthorizationsComplete
  import AuthorizationsFormat
  import IdentityProviderTx
  import IdentityProviderRuns
  import IdentityProviderComplete
  import IdentityProviderFormat
  import PltFormat
  import SignCreatePlt

  ghost predicate Good(ins: byte, c: Context) {
    KindOf(ins, c) && ContextOk(c)
  }

  /** What a context waits for is what it takes. */
  lemma FitsNext(ins: byte, c: Context, reply: Reply)
    requires Known(ins) && KindOf(ins, c) && Fits(c, Waits(reply))
    ensures Answered(HANDLERS, ins, c, reply)
  {
    hide AuthorizationsTx.Accept, AuthorizationsTx.NextIndex, AuthorizationsTx.AfterThreshold, SignCreatePlt.PayloadAt;
    forall e: Event | Take(ins, c, e).Ok?
      ensures NextFits(reply, e)
    {
      match c
      case Authorizations(u, a) =>
      case IdentityProvider(i) =>
      case Plt(p) =>
    }
  }

  lemma Goes()
    ensures BeginsWell(HANDLERS, Good) && GoesOn(HANDLERS, Good)
  {
    forall ins: byte, m: () | Known(ins)
      ensures Good(ins, BeginIn(ins, m)) && Answered(HANDLERS, ins, BeginIn(ins, m), Success)
    {
      Starts(ins);
      FitsNext(ins, Begin(ins), Success);
    }
    hide Take, Answer, KindOf, ContextOk, Answered;
    forall ins: byte, c: Context, e: Event | Known(ins) && Good(ins, c) && Take(ins, c, e).Ok?
      ensures Good(ins, Take(ins, c, e).value)
      ensures Answered(HANDLERS, ins, Take(ins, c, e).value, Answer(c, e))
    {
      TakeFits(ins, c, e);
      FitsNext(ins, Take(ins, c, e).value, Answer(c, e));
    }
  }

  // ------------------------------------------------------------------ every update has a session

  lemma AuthorizationsSent(ins: byte, u: byte, b: bytes) returns (events: seq<Event>)
    requires Begin(ins) == Authorizations(u, AuthorizationsTx.BEGIN)
    requires exists v :: AuthorizationsRuns.WellFormed(u, v) && AuthorizationsRuns.UpdateBytes(v) == b
    ensures Completes(ins, events, b)
  {
    hide AuthorizationsRuns.Take, AuthorizationsRuns.Hashed, Run, Gathered, AuthorizationsRuns.WellFormed,
        AuthorizationsRuns.UpdateBytes;
    AuthorizationsComplete.SignedStrings(u, b);
    events :| AuthorizationsComplete.Signs(u, events, b);
    var up := (x: AuthorizationsTx.Progress) => Authorizations(u, x);
    forall x: AuthorizationsTx.Progress, e: Event
      ensures Taker(HANDLERS, ins)(up(x), e) == Lift(up, AuthorizationsRuns.Taker(u)(x, e))
    {
      TakerIs(HANDLERS, ins, up(x), e);
    }
    RunWithin(AuthorizationsRuns.Taker(u), AuthorizationsRuns.Hashed, up, Taker(HANDLERS, ins), Hashed,
        AuthorizationsTx.BEGIN, events);
    var c := Authorizations(u, Run(AuthorizationsRuns.Taker(u), AuthorizationsTx.BEGIN, events).value);
    NotDoneAtStart(ins, events, c);
    SessionIs(ins, events, c, b);
  }

  lemma IdentityProviderSent(b: bytes) returns (events: seq<Event>)
    requires exists u :: IdentityProviderRuns.WellFormed(u) && IdentityProviderRuns.UpdateBytes(u) == b
    ensures Completes(INS_ADD_IDENTITY_PROVIDER, events, b)
  {
    hide IdentityProviderTx.Take, IdentityProviderTx.Hashed, Run, Gathered, IdentityProviderRuns.WellFormed,
        IdentityProviderRuns.UpdateBytes;
    IdentityProviderComplete.SignedStrings(b);
    events :| IdentityProviderRuns.Signs(events, b);
    var ins, up := INS_ADD_IDENTITY_PROVIDER, (x: IdentityProviderTx.Progress) => IdentityProvider(x);
    forall x: IdentityProviderTx.Progress, e: Event
      ensures Taker(HANDLERS, ins)(up(x), e) == Lift(up, IdentityProviderTx.Take(x, e))
    {
      TakerIs(HANDLERS, ins, up(x), e);
    }
    RunWithin(IdentityProviderTx.Take, IdentityProviderTx.Hashed, up, Taker(HANDLERS, ins), Hashed,
        IdentityProviderTx.BEGIN, events);
    var c := IdentityProvider(Run(IdentityProviderTx.Take, IdentityProviderTx.BEGIN, events).value);
    NotDoneAtStart(ins, events, c);
    SessionIs(ins, events, c, b);
  }

  lemma PltSent(b: bytes) returns (events: seq<Event>)
    requires exists header, l, params :: SignCreatePlt.Serializes(header, l, params, b)
    ensures Completes(INS_CREATE_PLT, events, b)
  {
    hide SignCreatePlt.Take, SignCreatePlt.HashedBy, Run, Gathered, SignCreatePlt.Serializes;
    SignCreatePlt.SignedStrings(b);
    events :| SignCreatePlt.Signs(events, b);
    var ins, up := INS_CREATE_PLT, (x: SignCreatePlt.Progress) => Plt(x);
    forall x: SignCreatePlt.Progress, e: Event
      ensures Taker(HANDLERS, ins)(up(x), e) == Lift(up, SignCreatePlt.Take(x, e))
    {
      TakerIs(HANDLERS, ins, up(x), e);
    }
    RunWithin(SignCreatePlt.Take, SignCreatePlt.HashedBy, up, Taker(HANDLERS, ins), Hashed, SignCreatePlt.BEGIN,
        events);
    var c := Plt(Run(SignCreatePlt.Take, SignCreatePlt.BEGIN, events).value);
    NotDoneAtStart(ins, events, c);
    SessionIs(ins, events, c, b);
  }

  lemma NotDoneAtStart(ins: byte, events: seq<Event>, c: Context)
    requires Run(Taker(HANDLERS, ins), Begin(ins), events) == Ok(c) && IsDone(c)
    ensures events != []
  {
  }

  lemma SessionIs(ins: byte, events: seq<Event>, c: Context, b: bytes)
    requires events != [] && Run(Taker(HANDLERS, ins), Begin(ins), events) == Ok(c) && IsDone(c)
    requires Gathered(Taker(HANDLERS, ins), Hashed, Begin(ins), events) == b
    ensures Completes(ins, events, b)
  {
    hide Run, Gathered;
    assert [] + b == b;
    assert SessionOf(HANDLERS, ins, (), events, c, b);
  }

  lemma Sent(ins: byte, b: bytes) returns (events: seq<Event>)
    requires Signable(ins, b)
    ensures Known(ins) && Completes(ins, events, b)
  {
    hide Completes, AuthorizationsRuns.WellFormed, IdentityProviderRuns.WellFormed, SignCreatePlt.Serializes,
        AuthorizationsRuns.UpdateBytes, IdentityProviderRuns.UpdateBytes;
    if ins == INS_UPDATE_LEVEL2_KEYS_ROOT {
      events := AuthorizationsSent(ins, AuthorizationsTx.UPDATE_TYPE_UPDATE_ROOT_KEYS, b);
    } else if ins == INS_UPDATE_LEVEL2_KEYS_LEVEL1 {
      events := AuthorizationsSent(ins, AuthorizationsTx.UPDATE_TYPE_UPDATE_LEVEL1_KEYS, b);
    } else if ins == INS_ADD_IDENTITY_PROVIDER {
      events := IdentityProviderSent(b);
    } else {
      events := PltSent(b);
    }
  }

  // ------------------------------------------------------------------ what is signed

  ghost predicate EndsSigned(inputs: seq<Input<()>>, ins: byte, b: bytes) {
    var log := History(HANDLERS, inputs).log;
    log != [] && log[|log| - 1] == Signature(ins, b)
  }

  /** Every accepted session that is done can be gone through from any point at which no session runs: the
      log then gets its events and its signature, and nothing else. */
  lemma SessionSigned(before: seq<Input<()>>, ins: byte, events: seq<Event>, b: bytes)
    requires Known(ins) && History(HANDLERS, before).state.Idle? && Completes(ins, events, b)
    ensures Run(Taker(HANDLERS, ins), Begin(ins), events).Ok?
    ensures var inputs := before + InputsOf(HANDLERS, ins, (), events) + [PressSign];
            History(HANDLERS, inputs)
            == Trace(Idle(None), History(HANDLERS, before).log + Entries(ins, events) + [Signature(ins, b)])
  {
    hide History, BeginsWell, GoesOn, InputsOf, Entries, Run, Gathered, Take;
    Goes();
    assert Found(History(HANDLERS, before).state, ()) == ();
    SessionSigns(HANDLERS, Good, before, ins, (), events, b);
  }

  /** Whatever has happened before, every well-formed update can be signed. */
  lemma SignedFromAnywhere(before: seq<Input<()>>, ins: byte, b: bytes) returns (more: seq<Input<()>>)
    requires Signable(ins, b)
    ensures EndsSigned(before + more, ins, b)
  {
    hide History, InputsOf, Entries, Run, Completes, Signable, Take;
    var events := Sent(ins, b);
    AlwaysIdle(HANDLERS, before);
    SessionSigned(before + [NoApdu], ins, events, b);
    more := [NoApdu] + InputsOf(HANDLERS, ins, (), events) + [PressSign];
    assert before + more == before + [NoApdu] + InputsOf(HANDLERS, ins, (), events) + [PressSign];
  }

  /** The governance app signs a byte string for an instruction in some history if and only if it is a
      well-formed update of the kind that the instruction stands for. */
  lemma SignedExactly(ins: byte, b: bytes)
    requires Known(ins)
    ensures (exists inputs: seq<Input<()>> :: EndsSigned(inputs, ins, b)) <==> Signable(ins, b)
  {
    hide History, Signable;
    if inputs: seq<Input<()>> :| EndsSigned(inputs, ins, b) {
      EverySignature(inputs, |History(HANDLERS, inputs).log| - 1);
    }
    if Signable(ins, b) {
      var more := SignedFromAnywhere([], ins, b);
    }
  }

  /** The same by instruction number, update type and position: root keys 0x2A, level 1 keys 0x2B, identity
      providers 0x2D, and PLTs 0x48. */
  lemma SignedByNumber(ins: byte, b: bytes)
    requires ins in {0x2A, 0x2B, 0x2D, 0x48}
    ensures (exists inputs: seq<Input<()>> :: EndsSigned(inputs, ins, b)) <==>
      if ins == 0x2A then AuthorizationsFormat.Format(10, b)
      else if ins == 0x2B then AuthorizationsFormat.Format(11, b)
      else if ins == 0x2D then IdentityProviderFormat.Format(b)
      else PltFormat.Format(b)
  {
    hide EndsSigned, AuthorizationsFormat.Format, IdentityProviderFormat.Format, PltFormat.Format,
        AuthorizationsComplete.Signs, IdentityProviderRuns.Signs, SignCreatePlt.Signs, AuthorizationsRuns.WellFormed,
        AuthorizationsRuns.UpdateBytes, IdentityProviderRuns.WellFormed, IdentityProviderRuns.UpdateBytes,
        SignCreatePlt.Serializes;
    SignedExactly(ins, b);
    AuthorizationsComplete.SignedStrings(10, b);
    AuthorizationsComplete.SignedStrings(11, b);
    AuthorizationsFormat.SignedFormat(10, b);
    AuthorizationsFormat.SignedFormat(11, b);
    IdentityProviderComplete.SignedStrings(b);
    IdentityProviderFormat.SignedFormat(b);
    SignCreatePlt.SignedStrings(b);
    PltFormat.SignedFormat(b);
  }
}
