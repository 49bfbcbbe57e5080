/** governance-app/src/main.c: the command loop with the handlers of this model. */
module GovernanceMain {
  import opened Bytes
  import opened Device
  import opened Runs
  import opened MainHelpers
  import AuthorizationsTx
  import AuthorizationsRuns
  import IdentityProviderTx
  import IdentityProviderRuns
  import SignCreatePlt
  import SignUpdateAuthorizations
  import SignAddIdentityProvider

  const INS_UPDATE_LEVEL2_KEYS_ROOT: byte := 0x2A
  const INS_UPDATE_LEVEL2_KEYS_LEVEL1: byte := 0x2B
  const INS_ADD_IDENTITY_PROVIDER: byte := 0x2D
  const INS_CREATE_PLT: byte := 0x48

  predicate Known(ins: byte) {
    || ins == INS_UPDATE_LEVEL2_KEYS_ROOT || ins == INS_UPDATE_LEVEL2_KEYS_LEVEL1
    || ins == INS_ADD_IDENTITY_PROVIDER || ins == INS_CREATE_PLT
  }

  /** What has been received, by context; Other stands for the instructions that are not part of this
      model. */
  datatype Context =
    | Authorizations(updateType: byte, a: AuthorizationsTx.Progress)
    | IdentityProvider(i: IdentityProviderTx.Progress)
    | Plt(p: SignCreatePlt.Progress)
    | Other

  function Begin(ins: byte): (r: Context) {
    if ins == INS_UPDATE_LEVEL2_KEYS_ROOT then
      Authorizations(AuthorizationsTx.UPDATE_TYPE_UPDATE_ROOT_KEYS, AuthorizationsTx.BEGIN)
    else if ins == INS_UPDATE_LEVEL2_KEYS_LEVEL1 then
      Authorizations(AuthorizationsTx.UPDATE_TYPE_UPDATE_LEVEL1_KEYS, AuthorizationsTx.BEGIN)
    else if ins == INS_ADD_IDENTITY_PROVIDER then IdentityProvider(IdentityProviderTx.BEGIN)
    else if ins == INS_CREATE_PLT then Plt(SignCreatePlt.BEGIN)
    else Other
  }

  // Every handler of the model resets its context and the hash, so that nothing is left in memory.

  function BeginIn(ins: byte, memory: ()): (r: Context) {
    Begin(ins)
  }

  function Leave(c: Context): (r: Option<()>) {
    None
  }

  function Kept(c: Context, e: Event): (r: bytes) {
    []
  }

  function Take(ins: byte, c: Context, e: Event): (r: Outcome<Context>) {
    match c
    case Authorizations(u, a) => Lift(x => Authorizations(u, x), AuthorizationsRuns.Take(u, a, e))
    case IdentityProvider(i) => Lift(x => IdentityProvider(x), IdentityProviderTx.Take(i, e))
    case Plt(p) => Lift(x => Plt(x), SignCreatePlt.Take(p, e))
    case Other => Throw(InvalidInstruction)
  }

  function Hashed(c: Context, e: Event): (r: bytes) {
    match c
    case Authorizations(_, a) => AuthorizationsRuns.Hashed(a, e)
    case IdentityProvider(i) => IdentityProviderTx.Hashed(i, e)
    case Plt(p) => SignCreatePlt.HashedBy(p, e)
    case Other => []
  }

  function Answer(c: Context, e: Event): (r: Reply) {
    match c
    case Authorizations(u, a) =>
      var r := AuthorizationsRuns.Take(u, a, e);
      if r.Ok? then AuthorizationsTx.Answer(a, r.value) else Success
    case IdentityProvider(i) =>
      var r := IdentityProviderTx.Take(i, e);
      if r.Ok? then IdentityProviderTx.Answer(i, r.value) else Success
    case Plt(p) =>
      var r := SignCreatePlt.Take(p, e);
      if r.Ok? then SignCreatePlt.Answer(r.value) else Success
    case Other => Success
  }

  predicate IsDone(c: Context) {
    match c
    case Authorizations(_, a) => a.stage.Done?
    case IdentityProvider(i) => i.stage.Done?
    case Plt(p) => p.stage.Done?
    case Other => false
  }

  const HANDLERS: Handlers<Context, ()> := Handlers(Known, BeginIn, Leave, Kept, Take, Hashed, Answer, IsDone)

  lemma Asks()
    ensures AsksWhenDone(HANDLERS)
  {
    hide AuthorizationsRuns.Take, IdentityProviderTx.Take, SignCreatePlt.Take;
  }

  /** What a signature of an instruction may be over. */
  ghost predicate Signable(ins: byte, b: bytes) {
    if ins == INS_UPDATE_LEVEL2_KEYS_ROOT then
      exists u :: AuthorizationsRuns.WellFormed(AuthorizationsTx.UPDATE_TYPE_UPDATE_ROOT_KEYS, u)
                  && AuthorizationsRuns.UpdateBytes(u) == b
    else if ins == INS_UPDATE_LEVEL2_KEYS_LEVEL1 then
      exists u :: AuthorizationsRuns.WellFormed(AuthorizationsTx.UPDATE_TYPE_UPDATE_LEVEL1_KEYS, u)
                  && AuthorizationsRuns.UpdateBytes(u) == b
    else if ins == INS_ADD_IDENTITY_PROVIDER then
      exists u :: IdentityProviderRuns.WellFormed(u) && IdentityProviderRuns.UpdateBytes(u) == b
    else if ins == INS_CREATE_PLT then
      exists header, l, params :: SignCreatePlt.Serializes(header, l, params, b)
    else false
  }

  ghost predicate Completes(ins: byte, events: seq<Event>, b: bytes) {
    exists c: Context :: SessionOf(HANDLERS, ins, (), events, c, b) && IsDone(c)
  }

  lemma AuthorizationsSigned(ins: byte, u: byte, events: seq<Event>, b: bytes)
    requires Completes(ins, events, b) && Begin(ins) == Authorizations(u, AuthorizationsTx.BEGIN)
    ensures exists v :: AuthorizationsRuns.WellFormed(u, v) && AuthorizationsRuns.UpdateBytes(v) == b
  {
    hide AuthorizationsRuns.Take, AuthorizationsRuns.Hashed, Run, Gathered;
    var up := (x: AuthorizationsTx.Progress) => Authorizations(u, x);
    forall x: AuthorizationsTx.Progress, e: Event
      ensures Taker(HANDLERS, ins)(up(x), e) == Lift(up, AuthorizationsRuns.Taker(u)(x, e))
    {
      TakerIs(HANDLERS, ins, up(x), e);
    }
    RunWithin(AuthorizationsRuns.Taker(u), AuthorizationsRuns.Hashed, up, Taker(HANDLERS, ins), Hashed,
        AuthorizationsTx.BEGIN, events);
    AuthorizationsRuns.SignedIsShown(u, events);
  }

  lemma IdentityProviderSigned(events: seq<Event>, b: bytes)
    requires Completes(INS_ADD_IDENTITY_PROVIDER, events, b)
    ensures exists u :: IdentityProviderRuns.WellFormed(u) && IdentityProviderRuns.UpdateBytes(u) == b
  {
    hide IdentityProviderTx.Take, IdentityProviderTx.Hashed, Run, Gathered;
    var up := (x: IdentityProviderTx.Progress) => IdentityProvider(x);
    forall x: IdentityProviderTx.Progress, e: Event
      ensures Taker(HANDLERS, INS_ADD_IDENTITY_PROVIDER)(up(x), e) == Lift(up, IdentityProviderTx.Take(x, e))
    {
      TakerIs(HANDLERS, INS_ADD_IDENTITY_PROVIDER, up(x), e);
    }
    RunWithin(IdentityProviderTx.Take, IdentityProviderTx.Hashed, up, Taker(HANDLERS, INS_ADD_IDENTITY_PROVIDER), Hashed,
              IdentityProviderTx.BEGIN, events);
    assert IdentityProviderRuns.Signs(events, b);
    IdentityProviderRuns.SignedIsUpdate(events, b);
  }

  lemma PltSigned(events: seq<Event>, b: bytes)
    requires Completes(INS_CREATE_PLT, events, b)
    ensures exists header, l, params :: SignCreatePlt.Serializes(header, l, params, b)
  {
    hide SignCreatePlt.Take, SignCreatePlt.HashedBy, Run, Gathered;
    var up := (x: SignCreatePlt.Progress) => Plt(x);
    forall x: SignCreatePlt.Progress, e: Event
      ensures Taker(HANDLERS, INS_CREATE_PLT)(up(x), e) == Lift(up, SignCreatePlt.Take(x, e))
    {
      TakerIs(HANDLERS, INS_CREATE_PLT, up(x), e);
    }
    RunWithin(SignCreatePlt.Take, SignCreatePlt.HashedBy, up, Taker(HANDLERS, INS_CREATE_PLT), Hashed,
        SignCreatePlt.BEGIN, events);
    assert SignCreatePlt.Signs(events, b);
    SignCreatePlt.SignedSerializes(events, b);
  }

  /** Every signature in every history of the command loop, whatever comes from the host and the user,
      other instructions included, is over one well-formed update of the kind that its instruction
      stands for. */
  lemma EverySignature(inputs: seq<Input<()>>, i: nat)
    requires i < |History(HANDLERS, inputs).log| && History(HANDLERS, inputs).log[i].Signature?
    ensures Signable(History(HANDLERS, inputs).log[i].ins, History(HANDLERS, inputs).log[i].b)
  {
    hide Run, Gathered, Hashed, History, AuthorizationsRuns.WellFormed, IdentityProviderRuns.WellFormed,
        SignCreatePlt.Serializes;
    Asks();
    EverySession(HANDLERS, inputs);
    var log := History(HANDLERS, inputs).log;
    var ins, b := log[i].ins, log[i].b;
    var events: seq<Event>, m: (), c: Context :|
      EndsWith(log[..i], ins, events) && SessionOf(HANDLERS, ins, m, events, c, b) && HANDLERS.done(c);
    assert m == ();
    assert Completes(ins, events, b);
    if ins == INS_UPDATE_LEVEL2_KEYS_ROOT {
      AuthorizationsSigned(ins, AuthorizationsTx.UPDATE_TYPE_UPDATE_ROOT_KEYS, events, b);
    } else if ins == INS_UPDATE_LEVEL2_KEYS_LEVEL1 {
      AuthorizationsSigned(ins, AuthorizationsTx.UPDATE_TYPE_UPDATE_LEVEL1_KEYS, events, b);
    } else if ins == INS_ADD_IDENTITY_PROVIDER {
      IdentityProviderSigned(events, b);
    } else {
      PltSigned(events, b);
    }
  }

  // ------------------------------------------------------------------ the loop

  /** The context is one of the instruction. */
  predicate KindOf(ins: byte, c: Context) {
    match Begin(ins)
    case Authorizations(u, _) => c.Authorizations? && c.updateType == u
    case IdentityProvider(_) => c.IdentityProvider?
    case Plt(_) => c.Plt?
    case Other => false
  }

  predicate HostTurn(c: Context) {
    match c
    case Authorizations(_, a) => !a.stage.IndexShown? && !a.stage.ThresholdShown? && !a.stage.Done?
    case IdentityProvider(i) => !i.stage.TextShown? && !i.stage.Done?
    case Plt(p) => !p.stage.Done?
    case Other => true
  }

  /** What waits for the user is what the context is waiting for. */
  predicate Fits(c: Context, waits: Option<Callback>) {
    match waits
    case None => HostTurn(c)
    case Some(Proceed) => HostTurn(c)
    case Some(Ask) => IsDone(c)
    case Some(ProcessKeyIndices) => c.Authorizations? && c.a.stage.IndexShown?
    case Some(ProcessThreshold) => c.Authorizations? && c.a.stage.ThresholdShown?
    case Some(HandleDescriptionPart) => c.IdentityProvider? && c.i.stage.TextShown?
    case Some(ProcessNextScheduledAmount) => false
  }

  function TranscriptOf(c: Context): (r: bytes) {
    match c
    case Authorizations(_, a) => AuthorizationsTx.Transcript(a)
    case IdentityProvider(i) => IdentityProviderTx.Transcript(i)
    case Plt(p) => SignCreatePlt.Transcript(p)
    case Other => []
  }

  ghost predicate ContextOk(c: Context) {
    match c
    case Authorizations(u, a) => AuthorizationsTx.ProgressOk(u, a)
    case IdentityProvider(i) => IdentityProviderTx.ProgressOk(i)
    case Plt(p) => SignCreatePlt.ProgressOk(p)
    case Other => true
  }

  predicate AtStart(c: Context) {
    match c
    case Authorizations(_, a) => a.stage.Start?
    case IdentityProvider(i) => i.stage.Start?
    case Plt(p) => p.stage.Start?
    case Other => true
  }

  lemma AuthorizationsFit(u: byte, a: AuthorizationsTx.Progress, e: Event)
    requires AuthorizationsTx.ProgressOk(u, a) && AuthorizationsRuns.Take(u, a, e).Ok?
    ensures var b := AuthorizationsRuns.Take(u, a, e).value;
            && AuthorizationsTx.ProgressOk(u, b)
            && AuthorizationsTx.Transcript(b) == AuthorizationsTx.Transcript(a) + AuthorizationsRuns.Hashed(a, e)
            && !b.stage.Start? && Fits(Authorizations(u, b), Waits(AuthorizationsTx.Answer(a, b)))
  {
    hide AuthorizationsTx.ProgressOk, AuthorizationsTx.Transcript, AuthorizationsTx.Rendered;
    if e.Confirm? { AuthorizationsRuns.ConfirmExtends(u, a); } else { AuthorizationsRuns.HostExtends(u, a, e.packet); }
  }

  lemma IdentityProviderFits(i: IdentityProviderTx.Progress, e: Event)
    requires IdentityProviderTx.ProgressOk(i) && IdentityProviderTx.Take(i, e).Ok?
    ensures var j := IdentityProviderTx.Take(i, e).value;
            && IdentityProviderTx.ProgressOk(j)
            && IdentityProviderTx.Transcript(j) == IdentityProviderTx.Transcript(i) + IdentityProviderTx.Hashed(i, e)
            && !j.stage.Start? && Fits(IdentityProvider(j), Waits(IdentityProviderTx.Answer(i, j)))
  {
    hide IdentityProviderTx.ProgressOk, IdentityProviderTx.Transcript;
    IdentityProviderTx.TakeExtends(i, e);
  }

  /** An accepted event is answered by what the new state waits for, and extends the transcript by what it
      hashes. */
  lemma TakeFits(ins: byte, c: Context, e: Event)
    requires Known(ins) && KindOf(ins, c) && ContextOk(c) && Take(ins, c, e).Ok?
    ensures var d := Take(ins, c, e).value;
            && KindOf(ins, d) && ContextOk(d) && !AtStart(d) && Fits(d, Waits(Answer(c, e)))
            && TranscriptOf(d) == TranscriptOf(c) + Hashed(c, e)
  {
    match c
    case Authorizations(u, a) =>
      AuthorizationsFit(u, a, e);
      hide AuthorizationsRuns.Take, AuthorizationsTx.ProgressOk, AuthorizationsTx.Transcript, AuthorizationsRuns.Hashed,
          Fits, AuthorizationsTx.Answer;
    case IdentityProvider(i) =>
      IdentityProviderFits(i, e);
      hide IdentityProviderTx.Take, IdentityProviderTx.ProgressOk, IdentityProviderTx.Transcript,
          IdentityProviderTx.Hashed, Fits, IdentityProviderTx.Answer;
    case Plt(p) =>
      hide SignCreatePlt.ProgressOk, SignCreatePlt.Transcript, SignCreatePlt.PayloadAt;
      SignCreatePlt.AcceptExtends(p, e.packet);
  }

  lemma Starts(ins: byte)
    requires Known(ins)
    ensures KindOf(ins, Begin(ins)) && ContextOk(Begin(ins)) && HostTurn(Begin(ins)) && TranscriptOf(Begin(ins)) == []
  {
  }

  class Main {
    const dev: Globals
    // The contexts; the source keeps them in a union, so that nothing is assumed of them when a session starts.
    const auth: SignUpdateAuthorizations.Context
    const idp: SignAddIdentityProvider.Context
    const plt: SignCreatePlt.Context
    var currentInstruction: Option<byte>
    var waits: Option<Callback>
    ghost var state: State<Context, ()>

    constructor (sha: Sha256, behind: IdentityProviderTx.Behind)
      ensures Valid() && state == Idle(None)
    {
      var d := new Globals(sha);
      var a := new SignUpdateAuthorizations.Context(d);
      var i := new SignAddIdentityProvider.Context(d, behind);
      var p := new SignCreatePlt.Context(d);
      dev, auth, idp, plt := d, a, i, p;
      currentInstruction, waits, state := None, None, Idle(None);
    }

    ghost predicate Connected() {
      && auth.dev == idp.dev == plt.dev == dev && auth.buffer != plt.initParams
      && auth.buffer.Length == 255 && idp.text.Length == 255 && plt.initParams.Length == SignCreatePlt.SHOWN_PARAMS
    }

    /** The context of the session has received c. */
    ghost predicate Current(c: Context)
      requires Connected()
      reads auth, auth.buffer, idp, idp.text, plt, plt.initParams, dev
    {
      match c
      case Authorizations(u, a) => auth.Valid() && auth.kind == u && auth.progress == a
      case IdentityProvider(i) => idp.Valid() && idp.progress == i
      case Plt(p) => plt.Valid() && plt.progress == p
      case Other => true
    }

    /** What the contexts guarantee: a started session has hashed exactly what has been received. */
    lemma CurrentHash(c: Context)
      requires Connected() && Current(c)
      ensures ContextOk(c) && (!AtStart(c) ==> dev.hash == TranscriptOf(c))
    {
      hide AuthorizationsTx.ProgressOk, IdentityProviderTx.ProgressOk, SignCreatePlt.ProgressOk,
          AuthorizationsTx.Transcript, IdentityProviderTx.Transcript, SignCreatePlt.Transcript;
    }

    ghost predicate Valid()
      reads this, auth, auth.buffer, idp, idp.text, plt, plt.initParams, dev
    {
      && Connected()
      && match state
         case Idle(left) => currentInstruction == None && left == None
         case Session(ins, c, hashed, w) =>
           && currentInstruction == Some(ins) && waits == w
           && (Known(ins) ==>
                 && Current(c) && KindOf(ins, c) && Fits(c, w) && hashed == TranscriptOf(c) == dev.hash)
    }

    /** handler: the switch on the instruction. */
    method Handler(ins: byte, packet: Packet, isInitialCall: bool, ghost c: Context) returns (r: Outcome<Reply>)
      requires Connected() && Known(ins) && KindOf(ins, c) && HostTurn(c)
      requires if isInitialCall then c == Begin(ins) && dev.shown == [] else Current(c)
      modifies auth, auth.buffer, idp, idp.text, plt, plt.initParams, dev
      ensures match Take(ins, c, Host(packet))
              case Throw(e) => r == Throw(e)
              case Ok(d) => r == Ok(Answer(c, Host(packet))) && Current(d)
    {
      if ins == INS_UPDATE_LEVEL2_KEYS_ROOT {
        r := auth.HandleSignUpdateAuthorizations(packet, AuthorizationsTx.UPDATE_TYPE_UPDATE_ROOT_KEYS, isInitialCall);
      } else if ins == INS_UPDATE_LEVEL2_KEYS_LEVEL1 {
        r := auth.HandleSignUpdateAuthorizations(packet, AuthorizationsTx.UPDATE_TYPE_UPDATE_LEVEL1_KEYS, isInitialCall);
      } else if ins == INS_ADD_IDENTITY_PROVIDER {
        r := idp.HandleSignAddIdentityProvider(packet, isInitialCall);
      } else {
        r := plt.HandleSignCreatePlt(packet, isInitialCall);
      }
    }

    /** The callback of the step that is pressed. */
    method Press(callback: Callback, ghost ins: byte, ghost c: Context) returns (r: Outcome<Reply>)
      requires Connected() && Current(c) && Fits(c, Some(callback)) && callback != Ask && callback != Proceed
      modifies auth, auth.buffer, idp, idp.text, plt, plt.initParams, dev
      ensures match Take(ins, c, Confirm)
              case Throw(e) => r == Throw(e)
              case Ok(d) => r == Ok(Answer(c, Confirm)) && Current(d)
    {
      if callback == ProcessKeyIndices {
        r := auth.ConfirmIndex();
      } else if callback == ProcessThreshold {
        r := auth.ProcessThreshold();
      } else {
        r := idp.ConfirmText();
      }
    }

    /** CATCH_OTHER: replies with the error, or resets the device, which then starts the application again. */
    method Catch(error: Error) returns (log: seq<Entry>)
      requires Connected()
      modifies this
      ensures Valid() && Trace(state, log) == Caught(error, None)
    {
      currentInstruction := None;
      state := Idle(None);
      log := if EndsSession(error) then [Refused(error)] else [Restarted(error)];
    }

    /** The handler, or the callback, has returned: a screen waits, the host has its reply, or an error ends
        the session. */
    method Conclude(ins: byte, ghost c: Context, ghost hashed: bytes, e: Event, first: bool, r: Outcome<Reply>)
      returns (log: seq<Entry>)
      requires Connected() && Known(ins) && KindOf(ins, c) && ContextOk(c) && hashed == TranscriptOf(c)
      requires currentInstruction == Some(ins)
      requires match Take(ins, c, e)
               case Throw(error) => r == Throw(error)
               case Ok(d) => r == Ok(Answer(c, e)) && Current(d)
      modifies this
      ensures Valid() && Trace(state, log) == Handled(HANDLERS, ins, c, hashed, e, first)
    {
      hide Take, Answer, Hashed, TranscriptOf, KindOf, Fits, Current, ContextOk;
      match r {
        case Throw(error) => log := Catch(error);
        case Ok(reply) =>
          TakeFits(ins, c, e);
          CurrentHash(Take(ins, c, e).value);
          waits := Waits(reply);
          state := Session(ins, Take(ins, c, e).value, hashed + Hashed(c, e), waits);
          log := [Accepted(ins, e, first)];
      }
    }

    /** A round of the loop that has received a command.  The source clears only its own pointer to the
        contexts. */
    method Exchange(cla: byte, ins: byte, packet: Packet, foreign: Foreign) returns (log: seq<Entry>)
      requires Valid()
      modifies this, auth, auth.buffer, idp, idp.text, plt, plt.initParams, dev
      ensures Valid() && Trace(state, log) == Next(HANDLERS, old(state), Command(cla, ins, packet, foreign, ()))
    {
      hide Take, Answer, Hashed, TranscriptOf;
      if currentInstruction.Some? && waits.Some? {
        return [];
      }
      if cla != CLA {
        log := Catch(InvalidCla);
        return;
      }
      var isInitialCall := currentInstruction.None?;
      if isInitialCall {
        dev.shown := [];
        currentInstruction := Some(ins);
      } else if currentInstruction.value != ins {
        log := Catch(InvalidState);
        return;
      }
      if Known(ins) {
        ghost var c, hashed := if isInitialCall then Begin(ins) else state.p, if isInitialCall then [] else state.hashed;
        if isInitialCall { Starts(ins); } else { CurrentHash(c); }
        var r := Handler(ins, packet, isInitialCall, c);
        log := Conclude(ins, c, hashed, Host(packet), isInitialCall, r);
      } else {
        log := ForeignHandler(ins, foreign, if isInitialCall then Begin(ins) else state.p);
      }
    }

    /** A handler that is not part of the model leaves anything in the hash. */
    method ForeignHandler(ins: byte, foreign: Foreign, ghost c: Context) returns (log: seq<Entry>)
      requires Connected() && !Known(ins) && currentInstruction == Some(ins)
      modifies this, dev
      ensures Valid() && Trace(state, log) == HandledElsewhere(ins, c, foreign.ending)
    {
      dev.hash := foreign.hash;
      match foreign.ending {
        case Throws(error) => log := Catch(error);
        case Replies(reply) =>
          waits := Waits(reply);
          state := Session(ins, c, [], waits);
          log := [OtherInstruction(ins)];
        case Ends =>
          currentInstruction := None;
          state := Idle(None);
          log := [OtherInstruction(ins)];
      }
    }

    /** The user presses the step of a flow that goes on. */
    method Continue() returns (log: seq<Entry>)
      requires Valid()
      modifies this, auth, auth.buffer, idp, idp.text, plt, plt.initParams, dev
      ensures Valid() && Trace(state, log) == Next(HANDLERS, old(state), PressContinue)
      ensures old(state).Session? && old(state).waits == Some(Proceed) ==>
        state == old(state).(waits := None) && log == []
    {
      hide Take, Answer, Hashed, TranscriptOf;
      log := [];
      if currentInstruction.None? || waits.None? || waits == Some(Ask) {
        return;
      }
      var ins, callback := currentInstruction.value, waits.value;
      if callback == Proceed || !Known(ins) {
        waits := None;
        state := state.(waits := None);
        return;
      }
      ghost var c, hashed := state.p, state.hashed;
      CurrentHash(c);
      var r := Press(callback, ins, c);
      log := Conclude(ins, c, hashed, Confirm, false, r);
    }

    /** buildAndSignTransactionHash and sendSuccess: what tx_state.hash has absorbed is signed. */
    method Sign() returns (log: seq<Entry>)
      requires Valid()
      modifies this
      ensures Valid() && Trace(state, log) == Next(HANDLERS, old(state), PressSign)
    {
      log := [];
      if currentInstruction.Some? && waits == Some(Ask) {
        var ins := currentInstruction.value;
        log := [if Known(ins) then Signature(ins, dev.hash) else OtherInstruction(ins)];
        currentInstruction := None;
        state := Idle(None);
      }
    }

    /** sendUserRejection */
    method Decline() returns (log: seq<Entry>)
      requires Valid()
      modifies this
      ensures Valid() && Trace(state, log) == Next(HANDLERS, old(state), PressDecline)
    {
      log := [];
      if currentInstruction.Some? && waits == Some(Ask) {
        log := [Declined];
        currentInstruction := None;
        state := Idle(None);
      }
    }

    /** concordium_main, for any commands and presses: it does what History says, so that every signature is
        over one well-formed update of the kind that its instruction stands for. */
    method Loop(inputs: seq<Input<()>>) returns (log: seq<Entry>)
      requires Valid() && state == Idle(None)
      modifies this, auth, auth.buffer, idp, idp.text, plt, plt.initParams, dev
      ensures Valid() && Trace(state, log) == History(HANDLERS, inputs)
      ensures forall i | 0 <= i < |log| :: log[i].Signature? ==> Signable(log[i].ins, log[i].b)
    {
      hide Next, Valid, Signable;
      log := [];
      for i := 0 to |inputs|
        invariant Valid() && Trace(state, log) == History(HANDLERS, inputs[..i])
      {
        HistoryNext(HANDLERS, inputs, i);
        var now;
        match inputs[i] {
          case NoApdu => now := NoCommand();
          case Command(cla, ins, packet, foreign, found) =>
            assert found == ();
            now := Exchange(cla, ins, packet, foreign);
          case PressContinue => now := Continue();
          case PressSign => now := Sign();
          case PressDecline => now := Decline();
        }
        log := log + now;
      }
      assert inputs[..|inputs|] == inputs;
      forall i | 0 <= i < |log| && log[i].Signature?
        ensures Signable(log[i].ins, log[i].b)
      {
        EverySignature(inputs, i);
      }
    }

    method NoCommand() returns (log: seq<Entry>)
      requires Valid()
      modifies this
      ensures Valid() && Trace(state, log) == Next(HANDLERS, old(state), NoApdu)
    {
      log := Catch(NoApduReceived);
    }
  }
}
