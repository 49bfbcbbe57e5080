/** src/signCredentialDeployment.c: the handler of the update-credentials instruction. */
module SignCredentialDeployment {
  import opened Bytes
  import opened Lists
  import opened Device
  import opened DecimalText
  import opened PaginatedHex
  import opened NumberHelpers
  import opened Displays
  import opened CredentialTx

  // ------------------------------------------------------------------ what is shown

  function KeyFlow(intro: bool, key: bytes): (r: Flow)
    requires |key| == 34
  {
    (if intro then [Continue("Review", "details")] else []) + [Show("Public key", PagedHex(key[2..])), PROCEED]
  }

  function IdFlow(id: bytes): (r: Flow) {
    [Continue("Rem. credential", PagedHex(id))]
  }

  function ThresholdFlow(threshold: byte): (r: Flow) {
    [Show("Cred. sig. threshold", Dec(threshold)), Sign, Decline]
  }

  ghost function InitialFlow(sha: Sha256, header: bytes): (r: Flow)
    requires |header| == 61
  {
    [REVIEW, Show("Sender", AddressChars(sha, header[..32])), PROCEED]
  }

  function KeyFlows(intro: bool, keys: seq<bytes>): (r: seq<Flow>)
    requires AllOf(keys, 34)
  {
    seq(|keys|, i requires 0 <= i < |keys| => KeyFlow(intro && i == 0, keys[i]))
  }

  function IdFlows(ids: seq<bytes>): (r: seq<Flow>) {
    seq(|ids|, i requires 0 <= i < |ids| => IdFlow(ids[i]))
  }

  /** The keys of complete credentials that get a screen: all but the last one of each. */
  function ShownKeys(cs: seq<Credential>): (r: seq<bytes>)
    requires Credentials(cs)
    ensures AllOf(r, 34)
  {
    if cs == [] then []
    else
      var last := cs[|cs| - 1].keys;
      ShownKeys(cs[..|cs| - 1]) + last[..|last| - 1]
  }

  function ShownPart(c: Credential, stage: Stage): (r: seq<bytes>)
    requires StageOk(c, stage)
    ensures AllOf(r, 34)
  {
    if stage.KeyCount? || stage.Keys? then c.keys else c.keys[..|c.keys| - 1]
  }

  /** The flows of a session. */
  ghost function Rendered(sha: Sha256, p: Progress): (r: seq<Flow>)
    requires ProgressOk(p)
  {
    if p.stage.Start? then []
    else [InitialFlow(sha, p.tx.header)] + KeyFlows(p.intro, p.shown) + IdFlows(p.tx.ids)
         + (if p.stage.Done? then [ThresholdFlow(p.tx.threshold)] else [])
  }

  /** A key packet is shown unless it completes the list of keys. */
  predicate KeyShown(p: Progress, packet: Packet)
    requires p.stage.Within? && Accept(p, packet).Ok?
  {
    var q := Accept(p, packet).value;
    p.stage.stage.Keys? && q.stage.Within? && q.stage.stage.Keys?
  }

  /** How an accepted packet is answered. */
  function Answer(p: Progress, packet: Packet): (r: Reply)
    requires !p.stage.Done? && Accept(p, packet).Ok?
  {
    match p.stage
    case Within(_, _, _) => if KeyShown(p, packet) then Await(Proceed) else Success
    case Start => Await(Proceed)
    case Ids(_) => Await(Proceed)
    case Threshold => Await(Ask)
    case _ => Success
  }

  /** The flow that an accepted packet puts on the display, if any. */
  ghost function NewFlow(sha: Sha256, p: Progress, packet: Packet): (r: seq<Flow>)
    requires ProgressOk(p) && !p.stage.Done? && Accept(p, packet).Ok?
  {
    match p.stage
    case Start => AcceptExtends(p, packet); [InitialFlow(sha, Accept(p, packet).value.tx.header)]
    case Within(_, _, stage) =>
      if KeyShown(p, packet) then [KeyFlow(p.intro && p.shown == [], packet.data[..34])] else []
    case Ids(_) => [IdFlow(packet.data[..48])]
    case Threshold => [ThresholdFlow(packet.data[0])]
    case _ => []
  }

  /** What a packet outside the credentials changes. */
  lemma OuterShape(p: Progress, packet: Packet)
    requires ProgressOk(p) && !p.stage.Within? && !p.stage.Index? && !p.stage.Done? && Accept(p, packet).Ok?
    ensures var q := Accept(p, packet).value;
            && !q.stage.Within? && !q.stage.Start? && (q.stage.Done? <==> p.stage.Threshold?)
            && q.shown == p.shown && q.intro == p.intro && q.tx.credentials == p.tx.credentials
            && q.tx.ids == (if p.stage.Ids? then p.tx.ids + [packet.data[..48]] else p.tx.ids)
            && (p.stage.Start? ==> p.shown == [] && p.tx.ids == [])
            && (!p.stage.Start? ==> q.tx.header == p.tx.header)
            && (p.stage.Threshold? ==> q.tx.threshold == packet.data[0])
  {
  }

  lemma IndexShape(p: Progress, packet: Packet)
    requires ProgressOk(p) && p.stage.Index? && Accept(p, packet).Ok?
    ensures var q := Accept(p, packet).value;
            && q.stage.Within? && q.shown == p.shown && q.intro == p.intro && q.tx == p.tx && p.tx.ids == []
            && q.stage.stage.KeyCount? && q.stage.credential.keys == []
  {
  }

  lemma WithinShape(p: Progress, packet: Packet)
    requires ProgressOk(p) && p.stage.Within? && Accept(p, packet).Ok?
    ensures var q, c, stage := Accept(p, packet).value, p.stage.credential, p.stage.stage;
            var received := AcceptPart(c, stage, packet.p1, packet.data);
            && q.tx.ids == p.tx.ids == [] && q.tx.header == p.tx.header && q.intro == p.intro
            && !q.stage.Start? && !q.stage.Done? && received.Ok?
            && q.shown == p.shown + (if KeyShown(p, packet) then [packet.data[..34]] else [])
            && match received.value
               case More(c', stage') =>
                 && q.tx == p.tx && q.stage.Within? && q.stage.credential == c' && q.stage.stage == stage'
                 && (KeyShown(p, packet) <==> stage.Keys? && stage'.Keys?)
               case Complete(c') => q.tx.credentials == p.tx.credentials + [c'] && !q.stage.Within?
  {
    hide StageOk, SignableCredential, AcceptPart, HashedPart;
  }

  /** The screens of a session are a function of what has been received; each accepted packet adds
      the flow it displays, and nothing else is displayed. */
  lemma RenderedGrows(sha: Sha256, p: Progress, packet: Packet)
    requires ProgressOk(p) && !p.stage.Done? && Accept(p, packet).Ok?
    ensures ProgressOk(Accept(p, packet).value)
    ensures Rendered(sha, Accept(p, packet).value) == Rendered(sha, p) + NewFlow(sha, p, packet)
  {
    hide Accept, ProgressOk, Transcript, KeyShown, AcceptPart, Rendered, KeyFlow, IdFlow, ThresholdFlow, InitialFlow;
    AcceptExtends(p, packet);
    if p.stage.Within? {
      WithinShape(p, packet);
    } else if p.stage.Index? {
      IndexShape(p, packet);
    } else {
      OuterShape(p, packet);
    }
    var q := Accept(p, packet).value;
    if p.stage.Start? {
      RenderFirst(sha, p, q);
    } else if p.stage.Within? && KeyShown(p, packet) {
      RenderKey(sha, p, q, packet.data[..34]);
    } else if p.stage.Ids? {
      RenderId(sha, p, q, packet.data[..48]);
    } else {
      assert p.shown + [] == p.shown;
      RenderRest(sha, p, q);
    }
  }

  /** Neither the header nor the introduction changes between two stages of a session. */
  ghost predicate Later(p: Progress, q: Progress) {
    && ProgressOk(p) && ProgressOk(q) && !p.stage.Start? && !q.stage.Start? && !p.stage.Done?
    && q.tx.header == p.tx.header && q.intro == p.intro
  }

  lemma RenderFirst(sha: Sha256, p: Progress, q: Progress)
    requires ProgressOk(p) && ProgressOk(q) && p.stage.Start? && !q.stage.Start? && !q.stage.Done?
    requires q.shown == [] && q.tx.ids == []
    ensures Rendered(sha, q) == Rendered(sha, p) + [InitialFlow(sha, q.tx.header)]
  {
    hide Transcript, InitialFlow;
    NoFlows(q.intro);
  }

  lemma RenderKey(sha: Sha256, p: Progress, q: Progress, key: bytes)
    requires Later(p, q) && !q.stage.Done? && q.tx.ids == p.tx.ids == []
    requires |key| == 34 && q.shown == p.shown + [key]
    ensures Rendered(sha, q) == Rendered(sha, p) + [KeyFlow(p.intro && p.shown == [], key)]
  {
    SizesKnown(p);
    hide Transcript, InitialFlow, ProgressOk, KeyFlow;
    NoFlows(q.intro);
    KeyFlowsAppend(p.intro, p.shown, key);
  }

  lemma RenderId(sha: Sha256, p: Progress, q: Progress, id: bytes)
    requires Later(p, q) && !q.stage.Done? && q.shown == p.shown && q.tx.ids == p.tx.ids + [id]
    ensures Rendered(sha, q) == Rendered(sha, p) + [IdFlow(id)]
  {
    SizesKnown(p);
    hide Transcript, InitialFlow, ProgressOk, IdFlow;
    IdFlowsAppend(p.tx.ids, id);
  }

  lemma RenderRest(sha: Sha256, p: Progress, q: Progress)
    requires Later(p, q) && q.shown == p.shown && q.tx.ids == p.tx.ids
    ensures Rendered(sha, q) == Rendered(sha, p) + (if q.stage.Done? then [ThresholdFlow(q.tx.threshold)] else [])
  {
    SizesKnown(p);
    hide Transcript, InitialFlow, ProgressOk;
  }

  lemma SizesKnown(p: Progress)
    requires ProgressOk(p)
    ensures (!p.stage.Start? ==> |p.tx.header| == 61) && AllOf(p.shown, 34)
  {
  }

  lemma NoFlows(intro: bool)
    ensures KeyFlows(intro, []) == [] && IdFlows([]) == []
  {
  }

  lemma KeyFlowsAppend(intro: bool, keys: seq<bytes>, key: bytes)
    requires AllOf(keys, 34) && |key| == 34
    ensures KeyFlows(intro, keys + [key]) == KeyFlows(intro, keys) + [KeyFlow(intro && keys == [], key)]
  {
  }

  lemma IdFlowsAppend(ids: seq<bytes>, id: bytes)
    ensures IdFlows(ids + [id]) == IdFlows(ids) + [IdFlow(id)]
  {
  }

  /** The keys that got a screen are all keys but the last one of each credential. */
  ghost predicate ShownOk(p: Progress)
    requires ProgressOk(p)
  {
    p.shown == ShownKeys(p.tx.credentials)
               + (if p.stage.Within? then ShownPart(p.stage.credential, p.stage.stage) else [])
  }

  lemma KeysShown(p: Progress, packet: Packet)
    requires ProgressOk(p) && ShownOk(p) && !p.stage.Done? && Accept(p, packet).Ok?
    ensures ProgressOk(Accept(p, packet).value) && ShownOk(Accept(p, packet).value)
  {
    AcceptExtends(p, packet);
    if p.stage.Within? {
      KeysShownWithin(p, packet);
    } else if p.stage.Index? {
      IndexShape(p, packet);
    } else {
      OuterShape(p, packet);
      hide ProgressOk, Transcript, Accept, ShownKeys;
      assert ShownOk(Accept(p, packet).value);
    }
  }

  lemma KeysShownWithin(p: Progress, packet: Packet)
    requires ProgressOk(p) && ShownOk(p) && p.stage.Within? && Accept(p, packet).Ok?
    requires ProgressOk(Accept(p, packet).value)
    ensures ShownOk(Accept(p, packet).value)
  {
    var data, cs := packet.data, p.tx.credentials;
    var Within(n, c, stage) := p.stage;
    WithinShape(p, packet);
    AcceptPartExtends(c, stage, packet.p1, data);
    var before, part := ShownKeys(cs), ShownPart(c, stage);
    assert before + part + [] == before + part;
    assert Credentials(cs) && StageOk(c, stage);
    hide Accept, ProgressOk, KeyShown, AcceptPart, StageOk, SignableCredential, ShownPart, ShownKeys, Transcript,
        PartBytes;
    match AcceptPart(c, stage, packet.p1, data).value
    case More(c', stage') =>
      ShownPartGrows(c, stage, packet.p1, data);
      assert before + (part + [data[..34]]) == before + part + [data[..34]];
      assert part + [] == part;
    case Complete(c') =>
      ShownComplete(cs, c, c', stage, packet.p1, data);
      assert ShownKeys(cs + [c']) + [] == ShownKeys(cs + [c']);
  }

  lemma ShownPartGrows(c: Credential, stage: Stage, p1: byte, data: Cdata)
    requires StageOk(c, stage) && AcceptPart(c, stage, p1, data).Ok? && AcceptPart(c, stage, p1, data).value.More?
    requires ReceivedOk(AcceptPart(c, stage, p1, data).value)
    ensures var r := AcceptPart(c, stage, p1, data).value;
            ShownPart(r.credential, r.stage)
            == ShownPart(c, stage) + (if stage.Keys? && r.stage.Keys? then [data[..34]] else [])
  {
    var r := AcceptPart(c, stage, p1, data).value;
    if stage.Keys? {
      hide StageOk;
      assert (c.keys + [data[..34]])[..|c.keys|] == c.keys;
    } else {
      assert r.credential.keys == c.keys && (r.stage.Keys? ==> c.keys == []) && !(stage.KeyCount? && !r.stage.Keys?);
      hide StageOk, AcceptPart;
    }
  }

  lemma ShownComplete(cs: seq<Credential>, c: Credential, c': Credential, stage: Stage, p1: byte, data: Cdata)
    requires Credentials(cs) && StageOk(c, stage) && AcceptPart(c, stage, p1, data) == Ok(Complete(c'))
    requires SignableCredential(c')
    ensures Credentials(cs + [c']) && stage.Proofs?
    ensures ShownKeys(cs + [c']) == ShownKeys(cs) + ShownPart(c, stage)
  {
    hide SignableCredential;
    assert (cs + [c'])[..|cs|] == cs;
  }

  // ------------------------------------------------------------------ the handler

  /** updateCredentialState_t */
  datatype UpdateState =
    | UPDATE_INITIAL | UPDATE_INDEX | UPDATE_CREDENTIAL | UPDATE_ID_COUNT | UPDATE_ID | UPDATE_THRESHOLD

  /** protocolState_t; NO_STATE is the plain zero that is stored after the last credential. */
  datatype DeploymentState =
    | NO_STATE | INITIAL | VERIFICATION_KEYS_LENGTH | VERIFICATION_KEY | SIGNATURE_THRESHOLD | AR_IDENTITY
    | CREDENTIAL_DATES | ATTRIBUTE_TAG | ATTRIBUTE_VALUE | LENGTH_OF_PROOFS | PROOFS | NEW_OR_EXISTING

  /** The fields that steer the protocol. */
  datatype Fields = Fields(
    state: DeploymentState, update: UpdateState, keys: byte, credentials: byte, ars: u16, attributes: u16,
    valueLength: byte, proofs: u32, ids: byte)

  /** The inner state and its counter, for each stage of a credential: what is still missing. */
  ghost predicate PartFields(f: Fields, c: Credential, stage: Stage) {
    match stage
    case KeyCount => f.state == VERIFICATION_KEYS_LENGTH
    case Keys(n) => f.state == VERIFICATION_KEY && f.keys == n - |c.keys|
    case Holder => f.state == SIGNATURE_THRESHOLD && f.keys == 0
    case Ars(n) => f.state == AR_IDENTITY && f.ars == n - |c.ars|
    case Dates => f.state == CREDENTIAL_DATES
    case Tag(n) => f.state == ATTRIBUTE_TAG && f.attributes == n - |c.attributes|
    case AttributeValue(n, _, length) =>
      f.state == ATTRIBUTE_VALUE && f.attributes == n - |c.attributes| && f.valueLength == length
    case ProofLength => f.state == LENGTH_OF_PROOFS
    case Proofs(n) => f.state == PROOFS && f.proofs == n - |c.proofs|
  }

  /** The outer state and its counters. */
  ghost predicate OuterFields(f: Fields, p: Progress) {
    match p.stage
    case Start => f.update == UPDATE_INITIAL && f.state == VERIFICATION_KEYS_LENGTH
    case Index(n) =>
      f.update == UPDATE_INDEX && f.state == VERIFICATION_KEYS_LENGTH && f.credentials == n - |p.tx.credentials|
    case Within(n, c, stage) =>
      f.update == UPDATE_CREDENTIAL && f.credentials == n - |p.tx.credentials| && PartFields(f, c, stage)
    case IdCount => f.update == UPDATE_ID_COUNT
    case Ids(n) => f.update == UPDATE_ID && f.ids == n - |p.tx.ids|
    case Threshold => f.update == UPDATE_THRESHOLD
    case Done => true
  }

  /** One inner packet: what the handler returned, hashed and did to the fields, against the acceptor. */
  ghost predicate PartEffect(
    f: Fields, f': Fields, c: Credential, stage: Stage, p1: byte, data: Cdata, r: Outcome<Reply>, hashed: bytes)
    requires StageOk(c, stage)
  {
    match AcceptPart(c, stage, p1, data)
    case Throw(e) => r == Throw(e)
    case Ok(More(c', stage')) =>
      && r == Ok(if stage.Keys? && stage'.Keys? then Await(Proceed) else Success) && hashed == HashedPart(c, stage, data)
      && PartFields(f', c', stage') && f'.update == f.update && f'.credentials == f.credentials
    case Ok(Complete(c')) =>
      && r == Ok(Success) && hashed == HashedPart(c, stage, data)
      && f'.credentials == f.credentials - 1
      && (f'.credentials == 0 ==> f'.update == UPDATE_ID_COUNT)
      && (f'.credentials > 0 ==> f'.update == UPDATE_INDEX && f'.state == VERIFICATION_KEYS_LENGTH)
  }

  /** A session's state at one moment, for comparing before and after. */
  datatype Snapshot = Snapshot(fields: Fields, hash: bytes, shown: seq<Flow>, intro: bool)

  class Context {
    const dev: Globals
    var state: DeploymentState
    var updateCredentialState: UpdateState
    var numberOfVerificationKeys: byte
    var credentialDeploymentCount: byte
    var credentialIdCount: byte
    var anonymityRevocationListLength: u16
    var attributeListLength: u16
    var attributeValueLength: byte
    var proofLength: u32
    var showIntro: bool
    var accountVerificationKey: string
    var signatureThreshold: string
    var anonymityRevocationThreshold: string
    var credentialId: string
    var threshold: string

    /** What the session has received; reset by the first command of a session. */
    ghost var progress: Progress

    /** Fields hold anything at the start: they share memory with the other instructions. */
    constructor (dev: Globals)
      ensures this.dev == dev
    {
      this.dev := dev;
    }

    ghost function F(): Fields
      reads this
    {
      Fields(state, updateCredentialState, numberOfVerificationKeys, credentialDeploymentCount,
             anonymityRevocationListLength, attributeListLength, attributeValueLength, proofLength, credentialIdCount)
    }

    ghost function Now(): Snapshot
      reads this, dev
    {
      Snapshot(F(), dev.hash, dev.shown, showIntro)
    }

    /** The effect of one inner packet, seen from the state before it. */
    ghost predicate PartDone(
      was: Snapshot, c: Credential, stage: Stage, p1: byte, cdata: Cdata, r: Outcome<Reply>)
      requires StageOk(c, stage)
      reads this, dev
    {
      && (r.Ok? ==> |dev.hash| >= |was.hash| && dev.hash[..|was.hash|] == was.hash)
      && PartEffect(was.fields, F(), c, stage, p1, cdata, r, if r.Ok? then dev.hash[|was.hash|..] else [])
      && (r == Ok(Await(Proceed)) ==> dev.shown == was.shown + [KeyFlow(was.intro, cdata[..34])] && !showIntro)
      && (r == Ok(Success) ==> dev.shown == was.shown && showIntro == was.intro)
    }

    /** The counters are what is still missing, the hash is one serialization of what has been
        received, and the screens are its rendering. */
    ghost predicate Valid()
      reads this, dev
    {
      && ProgressOk(progress) && ShownOk(progress) && OuterFields(F(), progress)
      && showIntro == (progress.intro && progress.shown == [])
      && (progress.stage.Start? || dev.hash == Transcript(progress))
      && dev.shown == Rendered(dev.sha, progress)
    }

    /** processNextVerificationKey, the callback of the key screens.  Keys are still missing then, so
        it only asks the host to go on. */
    method ProcessNextVerificationKey() returns (r: Reply)
      modifies this`state
      ensures r == Success
      ensures state == if numberOfVerificationKeys == 0 then SIGNATURE_THRESHOLD else old(state)
      ensures old(Valid() && progress.stage.Within? && progress.stage.stage.Keys? && progress.stage.stage.n > 0)
              ==> state == old(state)
    {
      if numberOfVerificationKeys == 0 {
        state := SIGNATURE_THRESHOLD;
        return Success;
      }
      return Success;
    }

    /** parseVerificationKey */
    method ParseVerificationKey(cdata: Cdata)
      requires numberOfVerificationKeys > 0
      modifies this`accountVerificationKey, this`numberOfVerificationKeys, dev`hash
      ensures dev.hash == old(dev.hash) + cdata[..34]
      ensures accountVerificationKey == PagedHex(cdata[..34][2..])
      ensures numberOfVerificationKeys == old(numberOfVerificationKeys) - 1
    {
      dev.UpdateHash(cdata[0..1]);
      dev.UpdateHash(cdata[1..2]);
      var verificationKey := cdata[2..34];
      dev.UpdateHash(verificationKey);
      assert cdata[0..1] + cdata[1..2] + cdata[2..34] == cdata[..34];
      assert cdata[..34][2..] == cdata[2..34];
      accountVerificationKey := ShowHex(verificationKey, 68);
      numberOfVerificationKeys := numberOfVerificationKeys - 1;
    }

    /** "x out of y" in 13 bytes. */
    method ShowThresholds(threshold: byte, revokers: u16) returns (r: Outcome<string>)
      ensures r == if ThresholdFits(threshold, revokers) then Ok(Dec(threshold) + " out of " + Dec(revokers))
                   else Throw(BufferOverflow)
    {
      hide Dec, Written;
      var dst := new char[13](_ => NumberHelpers.NUL);
      ghost var was := dst[..];
      ByteDigits(threshold);
      var overflow, offset := NumberToText(dst, 0, 13, threshold);
      WriteEight(dst[..], offset, " out of ");
      WriteAfter(was, 0, Dec(threshold), " out of ");
      forall i | 0 <= i < 8 { dst[offset + i] := " out of "[i]; }
      assert dst[..] == Written(was, 0, Dec(threshold) + " out of ") by {
        assert forall i | 0 <= i < 13 :: dst[i] == Written(Written(was, 0, Dec(threshold)), offset, " out of ")[i];
      }
      offset := offset + 8;
      var len;
      overflow, len := Bin2Dec(dst, offset, 13 - offset, revokers);
      if overflow {
        return Throw(BufferOverflow);
      }
      ghost var text := Dec(threshold) + " out of " + Dec(revokers);
      WriteAfter(was, 0, Dec(threshold) + " out of ", Dec(revokers) + [NumberHelpers.NUL]);
      assert Dec(threshold) + " out of " + (Dec(revokers) + [NumberHelpers.NUL]) == text + [NumberHelpers.NUL];
      WrittenPrefix(was, text, [NumberHelpers.NUL]);
      return Ok(dst[..offset + len - 1]);
    }

    /** A key packet; the last key of a credential is not shown here. */
    method OnVerificationKey(cdata: Cdata) returns (r: Outcome<Reply>)
      modifies this`accountVerificationKey, this`numberOfVerificationKeys, this`showIntro, this`state
      modifies dev`hash, dev`shown, dev`display
      ensures r.Throw? <==> old(numberOfVerificationKeys) == 0 || old(state) != VERIFICATION_KEY
      ensures r.Throw? ==> r == Throw(InvalidState)
      ensures r.Ok? ==> dev.hash == old(dev.hash) + cdata[..34]
      ensures r.Ok? ==> numberOfVerificationKeys == old(numberOfVerificationKeys) - 1
      ensures r.Ok? && numberOfVerificationKeys > 0 ==>
        && r == Ok(Await(Proceed)) && state == old(state) && !showIntro
        && dev.shown == old(dev.shown) + [KeyFlow(old(showIntro), cdata[..34])]
      ensures r.Ok? && numberOfVerificationKeys == 0 ==>
        r == Ok(Success) && state == SIGNATURE_THRESHOLD && showIntro == old(showIntro) && dev.shown == old(dev.shown)
    {
      if numberOfVerificationKeys > 0 && state == VERIFICATION_KEY {
        ParseVerificationKey(cdata);
      } else {
        return Throw(InvalidState);
      }
      if numberOfVerificationKeys > 0 {
        ghost var key := [Show("Public key", accountVerificationKey), PROCEED];
        assert [Continue("Review", "details")] + key == [Continue("Review", "details"), key[0], key[1]];
        assert [] + key == key;
        if showIntro {
          showIntro := false;
          dev.UxFlowInit([Continue("Review", "details"), Show("Public key", accountVerificationKey), PROCEED]);
        } else {
          dev.UxFlowInit([Show("Public key", accountVerificationKey), PROCEED]);
        }
        return Ok(Await(Proceed));
      }
      state := SIGNATURE_THRESHOLD;
      return Ok(Success);
    }

    /** Signature threshold, registration id, identity provider, revocation threshold and the number
        of anonymity revokers. */
    method OnSignatureThreshold(cdata: Cdata) returns (r: Outcome<Reply>)
      requires numberOfVerificationKeys == 0
      modifies this`signatureThreshold, this`anonymityRevocationThreshold, this`anonymityRevocationListLength
      modifies this`state, dev`hash
      ensures r == if ThresholdFits(cdata[53], U2BE(cdata, 54)) then Ok(Success) else Throw(BufferOverflow)
      ensures r.Ok? ==> dev.hash == old(dev.hash) + cdata[..56]
      ensures r.Ok? ==> anonymityRevocationListLength == U2BE(cdata, 54) && state == AR_IDENTITY
      ensures r.Ok? ==> signatureThreshold == Dec(cdata[0])
      ensures r.Ok? ==> anonymityRevocationThreshold == Dec(cdata[53]) + " out of " + Dec(U2BE(cdata, 54))
    {
      hide Dec;
      ByteDigits(cdata[0]);
      var text := ShowNumber(4, cdata[0]);
      signatureThreshold := text.value;
      dev.UpdateHash(cdata[0..1]);
      dev.UpdateHash(cdata[1..49]);
      dev.UpdateHash(cdata[49..53]);
      dev.UpdateHash(cdata[53..54]);
      anonymityRevocationListLength := U2BE(cdata, 54);
      dev.UpdateHash(cdata[54..56]);
      assert cdata[0..1] + cdata[1..49] + cdata[49..53] + cdata[53..54] + cdata[54..56] == cdata[..56];
      anonymityRevocationThreshold :- ShowThresholds(cdata[53], anonymityRevocationListLength);
      state := AR_IDENTITY;
      return Ok(Success);
    }

    method OnArIdentity(cdata: Cdata) returns (r: Outcome<Reply>)
      modifies this`anonymityRevocationListLength, this`state, dev`hash
      ensures r == if old(anonymityRevocationListLength) == 0 then Throw(InvalidState) else Ok(Success)
      ensures r.Ok? ==> dev.hash == old(dev.hash) + cdata[..100]
      ensures r.Ok? ==> anonymityRevocationListLength == old(anonymityRevocationListLength) - 1
      ensures r.Ok? ==> state == if anonymityRevocationListLength == 0 then CREDENTIAL_DATES else old(state)
    {
      if anonymityRevocationListLength == 0 {
        return Throw(InvalidState);
      }
      dev.UpdateHash(cdata[0..4]);
      var encIdCredPubShare := cdata[4..100];
      dev.UpdateHash(encIdCredPubShare);
      assert cdata[0..4] + cdata[4..100] == cdata[..100];
      if anonymityRevocationListLength == 1 {
        state := CREDENTIAL_DATES;
      }
      anonymityRevocationListLength := anonymityRevocationListLength - 1;
      return Ok(Success);
    }

    method OnCredentialDates(cdata: Cdata)
      modifies this`attributeListLength, this`state, dev`hash
      ensures dev.hash == old(dev.hash) + cdata[..8] && attributeListLength == U2BE(cdata, 6)
      ensures state == if attributeListLength == 0 then LENGTH_OF_PROOFS else ATTRIBUTE_TAG
    {
      dev.UpdateHash(cdata[0..6]);
      attributeListLength := U2BE(cdata, 6);
      dev.UpdateHash(cdata[6..8]);
      assert cdata[0..6] + cdata[6..8] == cdata[..8];
      if attributeListLength == 0 {
        state := LENGTH_OF_PROOFS;
      } else {
        state := ATTRIBUTE_TAG;
      }
    }

    method OnAttributeTag(cdata: Cdata) returns (r: Outcome<Reply>)
      modifies this`attributeValueLength, this`state, dev`hash
      ensures r == if attributeListLength == 0 then Throw(InvalidState) else Ok(Success)
      ensures r.Ok? ==> dev.hash == old(dev.hash) + cdata[..2]
      ensures r.Ok? ==> attributeValueLength == cdata[1] && state == ATTRIBUTE_VALUE
    {
      if attributeListLength <= 0 {
        return Throw(InvalidState);
      }
      dev.UpdateHash(cdata[0..1]);
      attributeValueLength := cdata[1];
      dev.UpdateHash(cdata[1..2]);
      assert cdata[0..1] + cdata[1..2] == cdata[..2];
      state := ATTRIBUTE_VALUE;
      return Ok(Success);
    }

    /** attributeListLength is a uint16 and wraps around. */
    method OnAttributeValue(cdata: Cdata)
      modifies this`attributeListLength, this`state, dev`hash
      ensures dev.hash == old(dev.hash) + cdata[..attributeValueLength]
      ensures attributeListLength == (old(attributeListLength) + 0xffff) % 0x1_0000
      ensures state == if attributeListLength == 0 then LENGTH_OF_PROOFS else ATTRIBUTE_TAG
    {
      dev.UpdateHash(cdata[..attributeValueLength]);
      attributeListLength := (attributeListLength + 0xffff) % 0x1_0000;
      if attributeListLength == 0 {
        state := LENGTH_OF_PROOFS;
      } else {
        state := ATTRIBUTE_TAG;
      }
    }

    predicate Updating(p2: byte)
      reads this
    {
      p2 == P2_CREDENTIAL_CREDENTIAL && updateCredentialState == UPDATE_CREDENTIAL && credentialDeploymentCount > 0
    }

    /** A packet of proofs; the one that completes them ends the credential. */
    method OnProofs(cdata: Cdata, p2: byte)
      modifies this`proofLength, this`state, this`updateCredentialState, this`credentialDeploymentCount, dev`hash
      ensures old(proofLength) > MAX_CDATA_LENGTH ==>
        && dev.hash == old(dev.hash) + cdata[..MAX_CDATA_LENGTH]
        && proofLength == old(proofLength) - MAX_CDATA_LENGTH && state == old(state)
        && updateCredentialState == old(updateCredentialState)
        && credentialDeploymentCount == old(credentialDeploymentCount)
      ensures old(proofLength) <= MAX_CDATA_LENGTH ==> dev.hash == old(dev.hash) + cdata[..old(proofLength)]
      ensures old(proofLength) <= MAX_CDATA_LENGTH && !old(Updating(p2)) ==>
        && state == NEW_OR_EXISTING && updateCredentialState == old(updateCredentialState)
        && credentialDeploymentCount == old(credentialDeploymentCount)
      ensures old(proofLength) <= MAX_CDATA_LENGTH && old(Updating(p2)) ==>
        && credentialDeploymentCount == old(credentialDeploymentCount) - 1
        && (credentialDeploymentCount == 0 ==> updateCredentialState == UPDATE_ID_COUNT)
        && (credentialDeploymentCount > 0 ==>
              updateCredentialState == UPDATE_INDEX && state == VERIFICATION_KEYS_LENGTH)
    {
      if proofLength > MAX_CDATA_LENGTH {
        dev.UpdateHash(cdata[..MAX_CDATA_LENGTH]);
        proofLength := proofLength - MAX_CDATA_LENGTH;
      } else {
        dev.UpdateHash(cdata[..proofLength]);
        if p2 == P2_CREDENTIAL_CREDENTIAL && updateCredentialState == UPDATE_CREDENTIAL
           && credentialDeploymentCount > 0 {
          credentialDeploymentCount := credentialDeploymentCount - 1;
          if credentialDeploymentCount == 0 {
            updateCredentialState := UPDATE_ID_COUNT;
            state := NO_STATE;
          } else {
            updateCredentialState := UPDATE_INDEX;
            state := VERIFICATION_KEYS_LENGTH;
          }
        } else {
          state := NEW_OR_EXISTING;
        }
      }
    }

    method KeyLengthPart(cdata: Cdata, ghost c: Credential, ghost stage: Stage)
      requires StageOk(c, stage) && PartFields(F(), c, stage) && state == VERIFICATION_KEYS_LENGTH
      modifies this`numberOfVerificationKeys, this`state, dev`hash
      ensures PartDone(old(Now()), c, stage, P1_VERIFICATION_KEY_LENGTH, cdata, Ok(Success))
    {
      hide StageOk, PartFields, PartEffect;
      ghost var f := F();
      numberOfVerificationKeys := cdata[0];
      dev.UpdateHash(cdata[..1]);
      state := VERIFICATION_KEY;
      KeyCountEffect(f, F(), c, stage, cdata);
    }

    method KeyPart(cdata: Cdata, ghost c: Credential, ghost stage: Stage) returns (r: Outcome<Reply>)
      requires StageOk(c, stage) && PartFields(F(), c, stage)
      modifies this`accountVerificationKey, this`numberOfVerificationKeys, this`showIntro, this`state
      modifies dev`hash, dev`shown, dev`display
      ensures PartDone(old(Now()), c, stage, P1_VERIFICATION_KEY, cdata, r)
    {
      hide StageOk, PartFields, PartEffect, KeyFlow;
      ghost var f := F();
      r := OnVerificationKey(cdata);
      KeyEffect(f, F(), c, stage, cdata, r);
    }

    method HolderPart(cdata: Cdata, ghost c: Credential, ghost stage: Stage) returns (r: Outcome<Reply>)
      requires StageOk(c, stage) && PartFields(F(), c, stage) && state == SIGNATURE_THRESHOLD
      modifies this`signatureThreshold, this`anonymityRevocationThreshold, this`anonymityRevocationListLength
      modifies this`state, dev`hash
      ensures PartDone(old(Now()), c, stage, P1_SIGNATURE_THRESHOLD, cdata, r)
    {
      hide StageOk, PartFields, PartEffect, Dec;
      ghost var f := F();
      StateOfStage(f, c, stage);
      if numberOfVerificationKeys != 0 {
        assert false;
      }
      r := OnSignatureThreshold(cdata);
      HolderEffect(f, F(), c, stage, cdata, r);
    }

    method ArPart(cdata: Cdata, ghost c: Credential, ghost stage: Stage) returns (r: Outcome<Reply>)
      requires StageOk(c, stage) && PartFields(F(), c, stage) && state == AR_IDENTITY
      modifies this`anonymityRevocationListLength, this`state, dev`hash
      ensures PartDone(old(Now()), c, stage, P1_AR_IDENTITY, cdata, r)
    {
      hide StageOk, PartFields, PartEffect;
      ghost var f := F();
      r := OnArIdentity(cdata);
      ArEffect(f, F(), c, stage, cdata, r);
    }

    method DatesPart(cdata: Cdata, ghost c: Credential, ghost stage: Stage)
      requires StageOk(c, stage) && PartFields(F(), c, stage) && state == CREDENTIAL_DATES
      modifies this`attributeListLength, this`state, dev`hash
      ensures PartDone(old(Now()), c, stage, P1_CREDENTIAL_DATES, cdata, Ok(Success))
    {
      hide StageOk, PartFields, PartEffect;
      ghost var f := F();
      OnCredentialDates(cdata);
      DatesEffect(f, F(), c, stage, cdata);
    }

    method TagPart(cdata: Cdata, ghost c: Credential, ghost stage: Stage) returns (r: Outcome<Reply>)
      requires StageOk(c, stage) && PartFields(F(), c, stage) && state == ATTRIBUTE_TAG
      modifies this`attributeValueLength, this`state, dev`hash
      ensures PartDone(old(Now()), c, stage, P1_ATTRIBUTE_TAG, cdata, r)
    {
      hide StageOk, PartFields, PartEffect;
      ghost var f := F();
      r := OnAttributeTag(cdata);
      TagEffect(f, F(), c, stage, cdata, r);
    }

    method ValuePart(cdata: Cdata, ghost c: Credential, ghost stage: Stage)
      requires StageOk(c, stage) && PartFields(F(), c, stage) && state == ATTRIBUTE_VALUE
      modifies this`attributeListLength, this`state, dev`hash
      ensures PartDone(old(Now()), c, stage, P1_ATTRIBUTE_VALUE, cdata, Ok(Success))
    {
      hide StageOk, PartFields, PartEffect;
      ghost var f := F();
      OnAttributeValue(cdata);
      ValueEffect(f, F(), c, stage, cdata);
    }

    method ProofLengthPart(cdata: Cdata, p2: byte, ghost c: Credential, ghost stage: Stage)
      requires StageOk(c, stage) && PartFields(F(), c, stage) && state == LENGTH_OF_PROOFS
      requires p2 == P2_CREDENTIAL_CREDENTIAL
      modifies this`proofLength, this`state, dev`hash
      ensures PartDone(old(Now()), c, stage, P1_LENGTH_OF_PROOFS, cdata, Ok(Success))
    {
      hide StageOk, PartFields, PartEffect;
      ghost var f := F();
      proofLength := U4BE(cdata, 0);
      if p2 == P2_CREDENTIAL_CREDENTIAL {
        dev.UpdateHash(cdata[..4]);
      }
      state := PROOFS;
      ProofLengthEffect(f, F(), c, stage, cdata);
    }

    method ProofsPart(cdata: Cdata, p2: byte, ghost c: Credential, ghost stage: Stage)
      requires StageOk(c, stage) && PartFields(F(), c, stage) && state == PROOFS && Updating(p2)
      modifies this`proofLength, this`state, this`updateCredentialState, this`credentialDeploymentCount, dev`hash
      ensures PartDone(old(Now()), c, stage, P1_PROOFS, cdata, Ok(Success))
    {
      hide StageOk, PartFields, PartEffect;
      ghost var f := F();
      OnProofs(cdata, p2);
      ProofsEffect(f, F(), c, stage, cdata);
    }

    /** handleSignCredentialDeployment, as update-credentials calls it: the inner protocol accepts
        exactly the packets of AcceptPart, hashes exactly their bytes, and ends each credential by
        moving the outer protocol on. */
    method HandleSignCredentialDeployment(
      cdata: Cdata, p1: byte, p2: byte, ghost c: Credential, ghost stage: Stage) returns (r: Outcome<Reply>)
      requires StageOk(c, stage) && PartFields(F(), c, stage) && Updating(p2)
      modifies this`state, this`updateCredentialState, this`numberOfVerificationKeys, this`credentialDeploymentCount
      modifies this`anonymityRevocationListLength, this`attributeListLength, this`attributeValueLength
      modifies this`proofLength, this`showIntro, this`accountVerificationKey, this`signatureThreshold
      modifies this`anonymityRevocationThreshold, dev`hash, dev`shown, dev`display
      ensures PartDone(old(Now()), c, stage, p1, cdata, r)
    {
      hide StageOk, PartFields, PartEffect, KeyFlow;
      StateOfStage(F(), c, stage);
      r := Ok(Success);
      if p1 == P1_INITIAL_PACKET && state == INITIAL {
        assert false;
      } else if p1 == P1_VERIFICATION_KEY_LENGTH && state == VERIFICATION_KEYS_LENGTH {
        KeyLengthPart(cdata, c, stage);
      } else if p1 == P1_VERIFICATION_KEY {
        r := KeyPart(cdata, c, stage);
      } else if p1 == P1_SIGNATURE_THRESHOLD && state == SIGNATURE_THRESHOLD {
        r := HolderPart(cdata, c, stage);
      } else if p1 == P1_AR_IDENTITY && state == AR_IDENTITY {
        r := ArPart(cdata, c, stage);
      } else if p1 == P1_CREDENTIAL_DATES && state == CREDENTIAL_DATES {
        DatesPart(cdata, c, stage);
      } else if p1 == P1_ATTRIBUTE_TAG && state == ATTRIBUTE_TAG {
        r := TagPart(cdata, c, stage);
      } else if p1 == P1_ATTRIBUTE_VALUE && state == ATTRIBUTE_VALUE {
        ValuePart(cdata, c, stage);
      } else if p1 == P1_LENGTH_OF_PROOFS && state == LENGTH_OF_PROOFS {
        ProofLengthPart(cdata, p2, c, stage);
      } else if p1 == P1_PROOFS && state == PROOFS {
        ProofsPart(cdata, p2, c, stage);
      } else if p1 == P1_NEW_OR_EXISTING && state == NEW_OR_EXISTING {
        assert false;
      } else {
        r := Throw(InvalidState);
        NoEffect(F(), F(), c, stage, p1, cdata);
      }
    }

    /** The packet that starts a transaction. */
    method OnInitial(cdata: Cdata) returns (r: Outcome<Reply>)
      modifies this`credentialDeploymentCount, this`updateCredentialState
      modifies dev`path, dev`hash, dev`sender, dev`shown, dev`display
      ensures r == match HeaderAt(cdata, 60, UPDATE_CREDENTIALS) case Throw(e) => Throw(e) case Ok(_) => Ok(Await(Proceed))
      ensures r.Ok? ==>
        var at := PathLength(cdata).value;
        && dev.hash == cdata[at..at + 62]
        && credentialDeploymentCount == cdata[at + 61]
        && updateCredentialState == (if cdata[at + 61] == 0 then UPDATE_ID_COUNT else UPDATE_INDEX)
        && dev.shown == old(dev.shown) + [InitialFlow(dev.sha, cdata[at..at + 61])]
    {
      hide AddressChars;
      var at :- dev.StartAccountTransaction(cdata, UPDATE_CREDENTIALS);
      credentialDeploymentCount := cdata[at + 61];
      dev.UpdateHash(cdata[at + 61..at + 62]);
      assert cdata[at..at + 61] + cdata[at + 61..at + 62] == cdata[at..at + 62];
      if credentialDeploymentCount == 0 {
        updateCredentialState := UPDATE_ID_COUNT;
      } else {
        updateCredentialState := UPDATE_INDEX;
      }
      assert cdata[at..at + 61][..32] == cdata[at..at + 32];
      dev.UxFlowInit([REVIEW, Show("Sender", dev.sender), PROCEED]);
      return Ok(Await(Proceed));
    }

    /** A credential id to remove; the counter is a uint8 and wraps around. */
    method OnId(cdata: Cdata)
      modifies this`credentialIdCount, this`updateCredentialState, this`credentialId, dev`hash, dev`shown, dev`display
      ensures dev.hash == old(dev.hash) + cdata[..48]
      ensures credentialIdCount == (old(credentialIdCount) + 0xff) % 0x100
      ensures updateCredentialState == if credentialIdCount == 0 then UPDATE_THRESHOLD else old(updateCredentialState)
      ensures dev.shown == old(dev.shown) + [IdFlow(cdata[..48])]
    {
      dev.UpdateHash(cdata[..48]);
      credentialId := ShowHex(cdata[..48], 102);
      credentialIdCount := (credentialIdCount + 0xff) % 0x100;
      if credentialIdCount == 0 {
        updateCredentialState := UPDATE_THRESHOLD;
      }
      dev.UxFlowInit([Continue("Rem. credential", credentialId)]);
    }

    /** The effect of one packet: what the acceptor says, with all counters, the hash and the screens
        those of what has now been received. */
    ghost predicate Handled(p: Progress, packet: Packet, r: Outcome<Reply>)
      requires ProgressOk(p) && !p.stage.Done?
      reads this, dev
    {
      match Accept(p, packet)
      case Throw(e) => r == Throw(e)
      case Ok(q) =>
        Valid() && progress == q && r == Ok(Answer(p, packet))
    }

    /** Records an accepted packet. */
    ghost method Record(packet: Packet)
      requires ProgressOk(progress) && ShownOk(progress) && !progress.stage.Done? && Accept(progress, packet).Ok?
      requires OuterFields(F(), Accept(progress, packet).value)
      requires dev.hash == Transcript(progress) + Hashed(progress, packet)
      requires dev.shown == Rendered(dev.sha, progress) + NewFlow(dev.sha, progress, packet)
      requires showIntro == (progress.intro && progress.shown == []
                             && !(progress.stage.Within? && NewFlow(dev.sha, progress, packet) != []))
      modifies this`progress
      ensures Valid() && progress == Accept(old(progress), packet).value
    {
      hide Transcript, Rendered, ShownOk, ProgressOk, OuterFields, Accept, Answer, NewFlow, Hashed;
      AcceptExtends(progress, packet);
      KeysShown(progress, packet);
      RenderedGrows(dev.sha, progress, packet);
      IntroKept(dev.sha, progress, packet);
      progress := Accept(progress, packet).value;
    }

    method HandleInitial(packet: Packet) returns (r: Outcome<Reply>)
      requires Valid() && progress.stage.Start? && packet.p2 == P2_CREDENTIAL_INITIAL
      modifies this, dev
      ensures Handled(old(progress), packet, r)
    {
      hide Transcript, Rendered, ShownOk, ProgressOk, OuterFields, Accept, Answer, NewFlow, Hashed, InitialFlow;
      FieldsOfStage(F(), progress);
      r := OnInitial(packet.data);
      InitialEffect(dev.sha, progress, F(), packet, r);
      if r.Ok? {
        Record(packet);
      }
    }

    method HandleIndex(packet: Packet) returns (r: Outcome<Reply>)
      requires Valid() && packet.p2 == P2_CREDENTIAL_CREDENTIAL_INDEX && updateCredentialState == UPDATE_INDEX
      requires !progress.stage.Done?
      modifies this, dev
      ensures Handled(old(progress), packet, r)
    {
      hide Transcript, Rendered, ShownOk, ProgressOk, OuterFields, Accept, Answer, NewFlow, Hashed;
      ghost var f := F();
      FieldsOfStage(f, progress);
      dev.UpdateHash(packet.data[..1]);
      updateCredentialState := UPDATE_CREDENTIAL;
      r := Ok(Success);
      IndexEffect(dev.sha, progress, f, F(), packet);
      Record(packet);
    }

    method HandleCredential(packet: Packet) returns (r: Outcome<Reply>)
      requires Valid() && progress.stage.Within? && packet.p2 == P2_CREDENTIAL_CREDENTIAL
      modifies this, dev
      ensures Handled(old(progress), packet, r)
    {
      hide Transcript, Rendered, ShownOk, ProgressOk, OuterFields, Accept, Answer, NewFlow, Hashed, PartFields, StageOk,
          PartEffect;
      hide KeyFlow;
      ghost var p, was := progress, Now();
      FieldsOfStage(was.fields, p);
      r := HandleSignCredentialDeployment(packet.data, packet.p1, packet.p2, p.stage.credential, p.stage.stage);
      WithinEffect(dev.sha, p, was.fields, F(), packet, r, if r.Ok? then dev.hash[|was.hash|..] else []);
      if r.Ok? {
        Suffix(was.hash, dev.hash);
        Record(packet);
      }
    }

    method HandleIdCount(packet: Packet) returns (r: Outcome<Reply>)
      requires Valid() && packet.p2 == P2_CREDENTIAL_ID_COUNT && updateCredentialState == UPDATE_ID_COUNT
      requires !progress.stage.Done?
      modifies this, dev
      ensures Handled(old(progress), packet, r)
    {
      hide Transcript, Rendered, ShownOk, ProgressOk, OuterFields, Accept, Answer, NewFlow, Hashed;
      ghost var f := F();
      FieldsOfStage(f, progress);
      credentialIdCount := packet.data[0];
      dev.UpdateHash(packet.data[..1]);
      if credentialIdCount == 0 {
        updateCredentialState := UPDATE_THRESHOLD;
      } else {
        updateCredentialState := UPDATE_ID;
      }
      r := Ok(Success);
      IdCountEffect(dev.sha, progress, f, F(), packet);
      Record(packet);
    }

    method HandleId(packet: Packet) returns (r: Outcome<Reply>)
      requires Valid() && packet.p2 == P2_CREDENTIAL_ID && updateCredentialState == UPDATE_ID && !progress.stage.Done?
      modifies this, dev
      ensures Handled(old(progress), packet, r)
    {
      hide Transcript, Rendered, ShownOk, ProgressOk, OuterFields, Accept, Answer, NewFlow, Hashed, IdFlow;
      ghost var f := F();
      FieldsOfStage(f, progress);
      OnId(packet.data);
      r := Ok(Await(Proceed));
      IdEffect(dev.sha, progress, f, F(), packet);
      Record(packet);
    }

    method HandleThreshold(packet: Packet) returns (r: Outcome<Reply>)
      requires Valid() && packet.p2 == P2_THRESHOLD && updateCredentialState == UPDATE_THRESHOLD && !progress.stage.Done?
      modifies this, dev
      ensures Handled(old(progress), packet, r)
    {
      hide Transcript, Rendered, ShownOk, ProgressOk, OuterFields, Accept, Answer, NewFlow, Hashed, Dec;
      ghost var f := F();
      FieldsOfStage(f, progress);
      ByteDigits(packet.data[0]);
      var text := ShowNumber(4, packet.data[0]);
      threshold := text.value;
      dev.UpdateHash(packet.data[..1]);
      dev.UxFlowInit([Show("Cred. sig. threshold", threshold), Sign, Decline]);
      r := Ok(Await(Ask));
      ThresholdEffect(dev.sha, progress, f, F(), packet);
      Record(packet);
    }

    /** handleSignUpdateCredential.  In every state of a session it accepts exactly the packets of
        Accept, with the same errors. */
    method HandleSignUpdateCredential(packet: Packet, isInitialCall: bool) returns (r: Outcome<Reply>)
      requires isInitialCall || (Valid() && !progress.stage.Done?)
      requires isInitialCall ==> dev.shown == []
      modifies this, dev
      ensures Handled(if isInitialCall then Begin(old(showIntro)) else old(progress), packet, r)
    {
      hide Transcript, Rendered, ShownOk, ProgressOk, OuterFields, Accept, Answer, NewFlow;
      if isInitialCall {
        updateCredentialState := UPDATE_INITIAL;
        state := VERIFICATION_KEYS_LENGTH;
        progress := Begin(showIntro);
        BeginValid(dev.sha, F(), showIntro);
      }
      FieldsOfStage(F(), progress);
      var p2 := packet.p2;
      if p2 == P2_CREDENTIAL_INITIAL && updateCredentialState == UPDATE_INITIAL {
        r := HandleInitial(packet);
      } else if p2 == P2_CREDENTIAL_CREDENTIAL_INDEX && updateCredentialState == UPDATE_INDEX
                && credentialDeploymentCount > 0 {
        r := HandleIndex(packet);
      } else if p2 == P2_CREDENTIAL_CREDENTIAL && updateCredentialState == UPDATE_CREDENTIAL
                && credentialDeploymentCount > 0 {
        r := HandleCredential(packet);
      } else if p2 == P2_CREDENTIAL_ID_COUNT && updateCredentialState == UPDATE_ID_COUNT {
        r := HandleIdCount(packet);
      } else if p2 == P2_CREDENTIAL_ID && updateCredentialState == UPDATE_ID {
        r := HandleId(packet);
      } else if p2 == P2_THRESHOLD && updateCredentialState == UPDATE_THRESHOLD {
        r := HandleThreshold(packet);
      } else {
        r := Throw(InvalidState);
        OuterRefused(progress, F(), packet);
      }
    }
  }

  // ------------------------------------------------------------------ one lemma per kind of outer packet

  lemma Suffix(a: bytes, b: bytes)
    requires |a| <= |b| && b[..|a|] == a
    ensures b == a + b[|a|..]
  {
  }

  lemma BeginValid(sha: Sha256, f: Fields, intro: bool)
    requires f.update == UPDATE_INITIAL && f.state == VERIFICATION_KEYS_LENGTH
    ensures ProgressOk(Begin(intro)) && ShownOk(Begin(intro)) && OuterFields(f, Begin(intro))
    ensures Rendered(sha, Begin(intro)) == []
  {
  }

  /** Which stage a state stands for. */
  lemma FieldsOfStage(f: Fields, p: Progress)
    requires ProgressOk(p) && OuterFields(f, p) && !p.stage.Done?
    ensures f.update == UPDATE_INITIAL <==> p.stage.Start?
    ensures p.stage.Start? ==> f.state == VERIFICATION_KEYS_LENGTH
    ensures f.update == UPDATE_CREDENTIAL <==> p.stage.Within?
    ensures p.stage.Within? || p.stage.Index? ==> f.credentials > 0
    ensures p.stage.Within?
        ==> StageOk(p.stage.credential, p.stage.stage) && PartFields(f, p.stage.credential, p.stage.stage)
  {
    hide StageOk, PartFields;
  }

  lemma InitialEffect(sha: Sha256, p: Progress, f': Fields, packet: Packet, r: Outcome<Reply>)
    requires ProgressOk(p) && p.stage.Start? && packet.p2 == P2_CREDENTIAL_INITIAL
    requires r == match HeaderAt(packet.data, 60, UPDATE_CREDENTIALS)
                  case Throw(e) => Throw(e) case Ok(_) => Ok(Await(Proceed))
    requires r.Ok? ==> var n := packet.data[PathLength(packet.data).value + 61];
      f'.credentials == n && f'.update == (if n == 0 then UPDATE_ID_COUNT else UPDATE_INDEX)
      && f'.state == VERIFICATION_KEYS_LENGTH
    ensures match Accept(p, packet)
            case Throw(e) => r == Throw(e)
            case Ok(q) =>
              var at := PathLength(packet.data).value;
              && r == Ok(Await(Proceed)) == Ok(Answer(p, packet)) && OuterFields(f', q) && Transcript(p) == []
                  && Hashed(p, packet) == packet.data[at..at + 62]
              && NewFlow(sha, p, packet) == [InitialFlow(sha, packet.data[at..at + 61])]
  {
  }

  lemma IndexEffect(sha: Sha256, p: Progress, f: Fields, f': Fields, packet: Packet)
    requires ProgressOk(p) && OuterFields(f, p) && f.update == UPDATE_INDEX && !p.stage.Done?
    requires packet.p2 == P2_CREDENTIAL_CREDENTIAL_INDEX
    requires f' == f.(update := UPDATE_CREDENTIAL)
    ensures Accept(p, packet).Ok? && OuterFields(f', Accept(p, packet).value) && Answer(p, packet) == Success
    ensures Hashed(p, packet) == packet.data[..1] && NewFlow(sha, p, packet) == []
  {
    hide Transcript, SignableCredential, StageOk;
  }

  lemma WithinEffect(
    sha: Sha256, p: Progress, f: Fields, f': Fields, packet: Packet, r: Outcome<Reply>, hashed: bytes)
    requires ProgressOk(p) && OuterFields(f, p) && p.stage.Within? && packet.p2 == P2_CREDENTIAL_CREDENTIAL
    requires PartEffect(f, f', p.stage.credential, p.stage.stage, packet.p1, packet.data, r, hashed)
    ensures match Accept(p, packet)
            case Throw(e) => r == Throw(e)
            case Ok(q) =>
              && r == Ok(Answer(p, packet)) && (r == Ok(Success) || r == Ok(Await(Proceed)))
              && OuterFields(f', q) && hashed == Hashed(p, packet)
              && (r == Ok(Await(Proceed)) ==>
                    NewFlow(sha, p, packet) == [KeyFlow(p.intro && p.shown == [], packet.data[..34])])
              && (r == Ok(Success) ==> NewFlow(sha, p, packet) == [])
  {
    hide Transcript, SignableCredential, StageOk, AcceptPart, HashedPart, PartFields, KeyFlow;
  }

  lemma IdCountEffect(sha: Sha256, p: Progress, f: Fields, f': Fields, packet: Packet)
    requires ProgressOk(p) && OuterFields(f, p) && f.update == UPDATE_ID_COUNT && !p.stage.Done?
    requires packet.p2 == P2_CREDENTIAL_ID_COUNT
    requires var n := packet.data[0]; f' == f.(ids := n, update := if n == 0 then UPDATE_THRESHOLD else UPDATE_ID)
    ensures Accept(p, packet).Ok? && OuterFields(f', Accept(p, packet).value) && Answer(p, packet) == Success
    ensures Hashed(p, packet) == packet.data[..1] && NewFlow(sha, p, packet) == []
  {
    hide Transcript, SignableCredential, StageOk;
  }

  lemma IdEffect(sha: Sha256, p: Progress, f: Fields, f': Fields, packet: Packet)
    requires ProgressOk(p) && OuterFields(f, p) && f.update == UPDATE_ID && !p.stage.Done?
    requires packet.p2 == P2_CREDENTIAL_ID
    requires var n := (f.ids + 0xff) % 0x100; f' == f.(ids := n, update := if n == 0 then UPDATE_THRESHOLD else UPDATE_ID)
    ensures Accept(p, packet).Ok? && OuterFields(f', Accept(p, packet).value) && Answer(p, packet) == Await(Proceed)
    ensures Hashed(p, packet) == packet.data[..48] && NewFlow(sha, p, packet) == [IdFlow(packet.data[..48])]
  {
    hide Transcript, SignableCredential, StageOk, IdFlow;
  }

  lemma ThresholdEffect(sha: Sha256, p: Progress, f: Fields, f': Fields, packet: Packet)
    requires ProgressOk(p) && OuterFields(f, p) && f.update == UPDATE_THRESHOLD && !p.stage.Done?
    requires packet.p2 == P2_THRESHOLD
    ensures Accept(p, packet).Ok? && OuterFields(f', Accept(p, packet).value) && Answer(p, packet) == Await(Ask)
    ensures Hashed(p, packet) == packet.data[..1]
    ensures NewFlow(sha, p, packet) == [[Show("Cred. sig. threshold", Dec(packet.data[0])), Sign, Decline]]
  {
    hide Transcript, SignableCredential, StageOk, Dec;
  }

  lemma OuterRefused(p: Progress, f: Fields, packet: Packet)
    requires ProgressOk(p) && OuterFields(f, p) && !p.stage.Done?
    requires !(packet.p2 == P2_CREDENTIAL_INITIAL && f.update == UPDATE_INITIAL)
    requires !(packet.p2 == P2_CREDENTIAL_CREDENTIAL_INDEX && f.update == UPDATE_INDEX && f.credentials > 0)
    requires !(packet.p2 == P2_CREDENTIAL_CREDENTIAL && f.update == UPDATE_CREDENTIAL && f.credentials > 0)
    requires !(packet.p2 == P2_CREDENTIAL_ID_COUNT && f.update == UPDATE_ID_COUNT)
    requires !(packet.p2 == P2_CREDENTIAL_ID && f.update == UPDATE_ID)
    requires !(packet.p2 == P2_THRESHOLD && f.update == UPDATE_THRESHOLD)
    ensures Accept(p, packet) == Throw(InvalidState)
  {
    hide Transcript, SignableCredential, StageOk, AcceptPart;
  }

  /** Only a key screen uses up the introduction. */
  lemma IntroKept(sha: Sha256, p: Progress, packet: Packet)
    requires ProgressOk(p) && !p.stage.Done? && Accept(p, packet).Ok?
    ensures var q := Accept(p, packet).value;
            q.intro == p.intro
            && (q.shown == [] <==> p.shown == [] && !(p.stage.Within? && NewFlow(sha, p, packet) != []))
  {
    hide Transcript, KeyFlow, StageOk, SignableCredential;
    if p.stage.Within? { WithinShape(p, packet); } else if p.stage.Index? { IndexShape(p, packet); }
        else { OuterShape(p, packet); }
  }

  // ------------------------------------------------------------------ one lemma per kind of inner packet

  /** Neither the initial state nor the choice between new and existing accounts occurs here. */
  lemma StateOfStage(f: Fields, c: Credential, stage: Stage)
    requires StageOk(c, stage) && PartFields(f, c, stage)
    ensures f.state != INITIAL && f.state != NEW_OR_EXISTING && f.state != NO_STATE
    ensures f.state == SIGNATURE_THRESHOLD ==> f.keys == 0
  {
  }

  lemma KeyCountEffect(f: Fields, f': Fields, c: Credential, stage: Stage, data: Cdata)
    requires StageOk(c, stage) && PartFields(f, c, stage) && f.state == VERIFICATION_KEYS_LENGTH
    requires f' == f.(state := VERIFICATION_KEY, keys := data[0])
    ensures PartEffect(f, f', c, stage, P1_VERIFICATION_KEY_LENGTH, data, Ok(Success), data[..1])
  {
  }

  lemma KeyEffect(f: Fields, f': Fields, c: Credential, stage: Stage, data: Cdata, r: Outcome<Reply>)
    requires StageOk(c, stage) && PartFields(f, c, stage)
    requires r.Throw? <==> f.keys == 0 || f.state != VERIFICATION_KEY
    requires r.Throw? ==> r == Throw(InvalidState)
    requires r.Ok? ==> f' == f.(keys := f.keys - 1, state := if f.keys == 1 then SIGNATURE_THRESHOLD else f.state)
    requires r.Ok? ==> r == Ok(if f.keys == 1 then Success else Await(Proceed))
    ensures PartEffect(f, f', c, stage, P1_VERIFICATION_KEY, data, r, if r.Ok? then data[..34] else [])
  {
  }

  lemma HolderEffect(f: Fields, f': Fields, c: Credential, stage: Stage, data: Cdata, r: Outcome<Reply>)
    requires StageOk(c, stage) && PartFields(f, c, stage) && f.state == SIGNATURE_THRESHOLD
    requires r == if ThresholdFits(data[53], U2BE(data, 54)) then Ok(Success) else Throw(BufferOverflow)
    requires r.Ok? ==> f' == f.(ars := U2BE(data, 54), state := AR_IDENTITY)
    ensures PartEffect(f, f', c, stage, P1_SIGNATURE_THRESHOLD, data, r, if r.Ok? then data[..56] else [])
  {
  }

  lemma ArEffect(f: Fields, f': Fields, c: Credential, stage: Stage, data: Cdata, r: Outcome<Reply>)
    requires StageOk(c, stage) && PartFields(f, c, stage) && f.state == AR_IDENTITY
    requires r == if f.ars == 0 then Throw(InvalidState) else Ok(Success)
    requires r.Ok? ==> f' == f.(ars := f.ars - 1, state := if f.ars == 1 then CREDENTIAL_DATES else f.state)
    ensures PartEffect(f, f', c, stage, P1_AR_IDENTITY, data, r, if r.Ok? then data[..100] else [])
  {
  }

  lemma DatesEffect(f: Fields, f': Fields, c: Credential, stage: Stage, data: Cdata)
    requires StageOk(c, stage) && PartFields(f, c, stage) && f.state == CREDENTIAL_DATES
    requires var n := U2BE(data, 6);
             f' == f.(attributes := n, state := if n == 0 then LENGTH_OF_PROOFS else ATTRIBUTE_TAG)
    ensures PartEffect(f, f', c, stage, P1_CREDENTIAL_DATES, data, Ok(Success), data[..8])
  {
  }

  lemma TagEffect(f: Fields, f': Fields, c: Credential, stage: Stage, data: Cdata, r: Outcome<Reply>)
    requires StageOk(c, stage) && PartFields(f, c, stage) && f.state == ATTRIBUTE_TAG
    requires r == if f.attributes == 0 then Throw(InvalidState) else Ok(Success)
    requires r.Ok? ==> f' == f.(valueLength := data[1], state := ATTRIBUTE_VALUE)
    ensures PartEffect(f, f', c, stage, P1_ATTRIBUTE_TAG, data, r, if r.Ok? then data[..2] else [])
  {
  }

  lemma ValueEffect(f: Fields, f': Fields, c: Credential, stage: Stage, data: Cdata)
    requires StageOk(c, stage) && PartFields(f, c, stage) && f.state == ATTRIBUTE_VALUE
    requires var n := (f.attributes + 0xffff) % 0x1_0000;
             f' == f.(attributes := n, state := if n == 0 then LENGTH_OF_PROOFS else ATTRIBUTE_TAG)
    ensures PartEffect(f, f', c, stage, P1_ATTRIBUTE_VALUE, data, Ok(Success), data[..f.valueLength])
  {
  }

  lemma ProofLengthEffect(f: Fields, f': Fields, c: Credential, stage: Stage, data: Cdata)
    requires StageOk(c, stage) && PartFields(f, c, stage) && f.state == LENGTH_OF_PROOFS
    requires f' == f.(proofs := U4BE(data, 0), state := PROOFS)
    ensures PartEffect(f, f', c, stage, P1_LENGTH_OF_PROOFS, data, Ok(Success), data[..4])
  {
  }

  lemma ProofsEffect(f: Fields, f': Fields, c: Credential, stage: Stage, data: Cdata)
    requires StageOk(c, stage) && PartFields(f, c, stage) && f.state == PROOFS && f.credentials > 0
    requires f.proofs > MAX_CDATA_LENGTH ==> f' == f.(proofs := f.proofs - MAX_CDATA_LENGTH)
    requires f.proofs <= MAX_CDATA_LENGTH ==>
      && f'.credentials == f.credentials - 1
      && (f'.credentials == 0 ==> f'.update == UPDATE_ID_COUNT)
      && (f'.credentials > 0 ==> f'.update == UPDATE_INDEX && f'.state == VERIFICATION_KEYS_LENGTH)
    ensures PartEffect(f, f', c, stage, P1_PROOFS, data, Ok(Success),
              if f.proofs > MAX_CDATA_LENGTH then data[..MAX_CDATA_LENGTH] else data[..f.proofs])
  {
  }

  lemma NoEffect(f: Fields, f': Fields, c: Credential, stage: Stage, p1: byte, data: Cdata)
    requires StageOk(c, stage) && PartFields(f, c, stage) && p1 != P1_VERIFICATION_KEY
    requires !(p1 == P1_VERIFICATION_KEY_LENGTH && f.state == VERIFICATION_KEYS_LENGTH)
    requires !(p1 == P1_SIGNATURE_THRESHOLD && f.state == SIGNATURE_THRESHOLD)
    requires !(p1 == P1_AR_IDENTITY && f.state == AR_IDENTITY)
    requires !(p1 == P1_CREDENTIAL_DATES && f.state == CREDENTIAL_DATES)
    requires !(p1 == P1_ATTRIBUTE_TAG && f.state == ATTRIBUTE_TAG)
    requires !(p1 == P1_ATTRIBUTE_VALUE && f.state == ATTRIBUTE_VALUE)
    requires !(p1 == P1_LENGTH_OF_PROOFS && f.state == LENGTH_OF_PROOFS)
    requires !(p1 == P1_PROOFS && f.state == PROOFS)
    ensures PartEffect(f, f', c, stage, p1, data, Throw(InvalidState), [])
  {
  }

  lemma ByteDigits(b: byte)
    ensures |Dec(b)| <= 3
  {
    PowersOfTen();
    DecShort(b, 3);
  }

  lemma WriteEight(s: string, at: nat, t: string)
    requires |t| == 8 && at + 8 <= |s|
    ensures forall i | 0 <= i < |s| :: Written(s, at, t)[i] == if at <= i < at + 8 then t[i - at] else s[i]
  {
  }
}
