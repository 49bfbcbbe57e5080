/** The update-credentials transaction: its serialization, what is shown of it, and an acceptor that
    describes which packets may come next after a part of it has been received. */
module CredentialTx {
  import opened Bytes
  import opened Lists
  import opened Device
  import opened Runs
  import opened DecimalText
  import opened PaginatedHex

  const UPDATE_CREDENTIALS: byte := 20

  // ------------------------------------------------------------------ the transaction

  datatype Attribute = Attribute(tag: byte, value: bytes)

  /** holder: signature threshold, registration id (48), identity provider (4), revocation threshold. */
  datatype Credential = Credential(
    index: byte, keys: seq<bytes>, holder: bytes, ars: seq<bytes>, dates: bytes,
    attributes: seq<Attribute>, proofs: bytes)

  datatype Tx = Tx(header: bytes, credentials: seq<Credential>, ids: seq<bytes>, threshold: byte)

  function AttributeBytes(a: Attribute): (r: bytes)
    requires |a.value| < 0x100
  {
    [a.tag, |a.value|] + a.value
  }

  predicate Attributes(attributes: seq<Attribute>) {
    forall i | 0 <= i < |attributes| :: |attributes[i].value| < 0x100
  }

  function AttributesBytes(attributes: seq<Attribute>): (r: bytes)
    requires Attributes(attributes)
  {
    if attributes == [] then []
    else AttributesBytes(attributes[..|attributes| - 1]) + AttributeBytes(attributes[|attributes| - 1])
  }

  /** The threshold line "x out of y" and its terminator fit into 13 bytes. */
  predicate ThresholdFits(threshold: byte, revokers: u16) {
    |Dec(threshold)| + |Dec(revokers)| <= 4
  }

  /** A credential that the device can be made to sign: at least one key and one anonymity revoker. */
  predicate SignableCredential(c: Credential) {
    && 1 <= |c.keys| < 0x100 && AllOf(c.keys, 34)
    && |c.holder| == 54
    && 1 <= |c.ars| < 0x1_0000 && AllOf(c.ars, 100) && ThresholdFits(c.holder[53], |c.ars|)
    && |c.dates| == 6
    && |c.attributes| < 0x1_0000 && Attributes(c.attributes)
    && |c.proofs| < 0x1_0000_0000
  }

  predicate Credentials(cs: seq<Credential>) {
    forall i | 0 <= i < |cs| :: SignableCredential(cs[i])
  }

  predicate Signable(tx: Tx) {
    && |tx.header| == 61 && tx.header[60] == UPDATE_CREDENTIALS
    && |tx.credentials| < 0x100 && Credentials(tx.credentials)
    && |tx.ids| < 0x100 && AllOf(tx.ids, 48)
  }

  // ------------------------------------------------------------------ serialization

  predicate ListsFit(c: Credential) {
    && |c.keys| < 0x100 && |c.ars| < 0x1_0000 && |c.attributes| < 0x1_0000 && Attributes(c.attributes)
    && |c.proofs| < 0x1_0000_0000
  }

  function KeysBytes(c: Credential): (r: bytes)
    requires ListsFit(c)
  {
    [c.index, |c.keys|] + Flat(c.keys)
  }

  function ArsBytes(c: Credential): (r: bytes)
    requires ListsFit(c)
  {
    KeysBytes(c) + c.holder + Put2(|c.ars|) + Flat(c.ars)
  }

  function PolicyBytes(c: Credential): (r: bytes)
    requires ListsFit(c)
  {
    ArsBytes(c) + c.dates + Put2(|c.attributes|) + AttributesBytes(c.attributes)
  }

  function CredentialBytes(c: Credential): (r: bytes)
    requires ListsFit(c)
  {
    PolicyBytes(c) + Put4(|c.proofs|) + c.proofs
  }

  function CredentialsBytes(cs: seq<Credential>): (r: bytes)
    requires Credentials(cs)
  {
    if cs == [] then [] else CredentialsBytes(cs[..|cs| - 1]) + CredentialBytes(cs[|cs| - 1])
  }

  function AddedBytes(tx: Tx): (r: bytes)
    requires |tx.credentials| < 0x100 && Credentials(tx.credentials)
  {
    tx.header + [|tx.credentials|] + CredentialsBytes(tx.credentials)
  }

  function RemovedBytes(tx: Tx): (r: bytes)
    requires |tx.credentials| < 0x100 && Credentials(tx.credentials) && |tx.ids| < 0x100
  {
    AddedBytes(tx) + [|tx.ids|] + Flat(tx.ids)
  }

  function TxBytes(tx: Tx): (r: bytes)
    requires Signable(tx)
  {
    RemovedBytes(tx) + [tx.threshold]
  }

  // ------------------------------------------------------------------ received so far

  /** What is expected next within a credential; a number is a count or length that was announced. */
  datatype Stage =
    | KeyCount | Keys(n: byte) | Holder | Ars(count: u16) | Dates
    | Tag(total: u16) | AttributeValue(total: u16, tag: byte, length: byte) | ProofLength | Proofs(bytes: u32)

  /** What is expected next in the transaction; `added` is the announced number of credentials. */
  datatype TxStage =
    | Start | Index(added: byte) | Within(added: byte, credential: Credential, stage: Stage)
    | IdCount | Ids(removed: byte) | Threshold | Done

  /** tx holds the complete parts, shown the keys that got a screen; intro is showIntro as the session
      found it. */
  datatype Progress = Progress(tx: Tx, stage: TxStage, intro: bool, shown: seq<bytes>)

  const NO_CREDENTIAL := Credential(0, [], [], [], [], [], [])
  const NO_TX := Tx([], [], [], 0)

  predicate StageOk(c: Credential, stage: Stage) {
    && ListsFit(c) && AllOf(c.keys, 34) && AllOf(c.ars, 100)
    && (stage.KeyCount? ==> c == NO_CREDENTIAL.(index := c.index))
    && (stage.Keys? ==> c == NO_CREDENTIAL.(index := c.index, keys := c.keys)
                        && (|c.keys| < stage.n || (stage.n == 0 && c.keys == [])))
    && (!stage.KeyCount? && !stage.Keys? ==> |c.keys| >= 1)
    && (stage.Holder? ==> c == NO_CREDENTIAL.(index := c.index, keys := c.keys))
    && (stage.Ars? ==> c == NO_CREDENTIAL.(index := c.index, keys := c.keys, holder := c.holder, ars := c.ars)
                       && |c.holder| == 54 && ThresholdFits(c.holder[53], stage.count)
                       && (|c.ars| < stage.count || (stage.count == 0 && c.ars == [])))
    && (stage.Dates? || stage.Tag? || stage.AttributeValue? || stage.ProofLength? || stage.Proofs? ==>
          |c.holder| == 54 && |c.ars| >= 1 && ThresholdFits(c.holder[53], |c.ars|))
    && (stage.Dates? ==> c.dates == [] && c.attributes == [] && c.proofs == [])
    && (stage.Tag? || stage.AttributeValue? ==> |c.dates| == 6 && |c.attributes| < stage.total && c.proofs == [])
    && (stage.ProofLength? || stage.Proofs? ==> |c.dates| == 6)
    && (stage.ProofLength? ==> c.proofs == [])
    && (stage.Proofs? ==> |c.proofs| < stage.bytes || (stage.bytes == 0 && c.proofs == []))
  }

  /** The bytes hashed for a credential that is being received. */
  function PartBytes(c: Credential, stage: Stage): (r: bytes)
    requires StageOk(c, stage)
  {
    match stage
    case KeyCount => [c.index]
    case Keys(n) => [c.index, n] + Flat(c.keys)
    case Holder => KeysBytes(c)
    case Ars(n) => KeysBytes(c) + c.holder + Put2(n) + Flat(c.ars)
    case Dates => ArsBytes(c)
    case Tag(n) => ArsBytes(c) + c.dates + Put2(n) + AttributesBytes(c.attributes)
    case AttributeValue(n, tag, length) =>
      ArsBytes(c) + c.dates + Put2(n) + AttributesBytes(c.attributes) + [tag, length]
    case ProofLength => PolicyBytes(c)
    case Proofs(n) => PolicyBytes(c) + Put4(n) + c.proofs
  }

  predicate ProgressOk(p: Progress) {
    var tx := p.tx;
    && (!p.stage.Start? ==> |tx.header| == 61 && tx.header[60] == UPDATE_CREDENTIALS)
    && |tx.credentials| < 0x100 && Credentials(tx.credentials)
    && |tx.ids| < 0x100 && AllOf(tx.ids, 48) && AllOf(p.shown, 34)
    && match p.stage
       case Start => tx == NO_TX && p.shown == []
       case Index(n) => |tx.credentials| < n && tx == NO_TX.(header := tx.header, credentials := tx.credentials)
       case Within(n, c, stage) =>
         |tx.credentials| < n && tx == NO_TX.(header := tx.header, credentials := tx.credentials) && StageOk(c, stage)
       case IdCount => tx == NO_TX.(header := tx.header, credentials := tx.credentials)
       case Ids(n) => |tx.ids| < n && tx.threshold == 0
       case Threshold => tx.threshold == 0
       case Done => true
  }

  /** The transcript: what tx_state.hash has absorbed. */
  function Transcript(p: Progress): (r: bytes)
    requires ProgressOk(p)
  {
    match p.stage
    case Start => []
    case Index(n) => p.tx.header + [n] + CredentialsBytes(p.tx.credentials)
    case Within(n, c, stage) => p.tx.header + [n] + CredentialsBytes(p.tx.credentials) + PartBytes(c, stage)
    case IdCount => AddedBytes(p.tx)
    case Ids(n) => AddedBytes(p.tx) + [n] + Flat(p.tx.ids)
    case Threshold => RemovedBytes(p.tx)
    case Done => TxBytes(p.tx)
  }

  // ------------------------------------------------------------------ the acceptor

  const P1_VERIFICATION_KEY_LENGTH: byte := 0x0A
  const P1_INITIAL_PACKET: byte := 0x00
  const P1_VERIFICATION_KEY: byte := 0x01
  const P1_SIGNATURE_THRESHOLD: byte := 0x02
  const P1_AR_IDENTITY: byte := 0x03
  const P1_CREDENTIAL_DATES: byte := 0x04
  const P1_ATTRIBUTE_TAG: byte := 0x05
  const P1_ATTRIBUTE_VALUE: byte := 0x06
  const P1_LENGTH_OF_PROOFS: byte := 0x07
  const P1_PROOFS: byte := 0x08
  const P1_NEW_OR_EXISTING: byte := 0x09

  const P2_CREDENTIAL_INITIAL: byte := 0x00
  const P2_CREDENTIAL_CREDENTIAL_INDEX: byte := 0x01
  const P2_CREDENTIAL_CREDENTIAL: byte := 0x02
  const P2_CREDENTIAL_ID_COUNT: byte := 0x03
  const P2_CREDENTIAL_ID: byte := 0x04
  const P2_THRESHOLD: byte := 0x05

  /** A credential with the part that the next packet adds; without a stage it is complete. */
  datatype Received = More(credential: Credential, stage: Stage) | Complete(credential: Credential)

  function AcceptPart(c: Credential, stage: Stage, p1: byte, data: Cdata): (r: Outcome<Received>)
  {
    match stage
    case KeyCount => if p1 == P1_VERIFICATION_KEY_LENGTH then Ok(More(c, Keys(data[0]))) else Throw(InvalidState)
    case Keys(n) =>
      if p1 == P1_VERIFICATION_KEY && |c.keys| < n then
        var c' := c.(keys := c.keys + [data[..34]]);
        Ok(More(c', if |c'.keys| == n then Holder else Keys(n)))
      else Throw(InvalidState)
    case Holder =>
      if p1 == P1_SIGNATURE_THRESHOLD then
        if ThresholdFits(data[53], U2BE(data, 54)) then Ok(More(c.(holder := data[..54]), Ars(U2BE(data, 54))))
        else Throw(BufferOverflow)
      else Throw(InvalidState)
    case Ars(n) =>
      if p1 == P1_AR_IDENTITY && |c.ars| < n then
        var c' := c.(ars := c.ars + [data[..100]]);
        Ok(More(c', if |c'.ars| == n then Dates else Ars(n)))
      else Throw(InvalidState)
    case Dates =>
      if p1 == P1_CREDENTIAL_DATES then
        Ok(More(c.(dates := data[..6]), if U2BE(data, 6) == 0 then ProofLength else Tag(U2BE(data, 6))))
      else Throw(InvalidState)
    case Tag(n) =>
      if p1 == P1_ATTRIBUTE_TAG then Ok(More(c, AttributeValue(n, data[0], data[1]))) else Throw(InvalidState)
    case AttributeValue(n, tag, length) =>
      if p1 == P1_ATTRIBUTE_VALUE then
        var c' := c.(attributes := c.attributes + [Attribute(tag, data[..length])]);
        Ok(More(c', if |c'.attributes| == n then ProofLength else Tag(n)))
      else Throw(InvalidState)
    case ProofLength => if p1 == P1_LENGTH_OF_PROOFS then Ok(More(c, Proofs(U4BE(data, 0)))) else Throw(InvalidState)
    case Proofs(n) =>
      if p1 == P1_PROOFS then
        if n - |c.proofs| > MAX_CDATA_LENGTH then Ok(More(c.(proofs := c.proofs + data[..MAX_CDATA_LENGTH]), stage))
        else if |c.proofs| <= n then Ok(Complete(c.(proofs := c.proofs + data[..n - |c.proofs|])))
        else Throw(InvalidState)
      else Throw(InvalidState)
  }

  function AfterCredentials(added: nat, count: nat): (r: TxStage)
    requires count <= added < 0x100
  {
    if count == added then IdCount else Index(added)
  }

  /** The next packet of a transaction.  Once the sign screen is up only the user can act. */
  function Accept(p: Progress, packet: Packet): (r: Outcome<Progress>)
    requires !p.stage.Done?
  {
    var data, tx := packet.data, p.tx;
    match p.stage
    case Start =>
      if packet.p2 == P2_CREDENTIAL_INITIAL then
        var header :- HeaderAt(data, 60, UPDATE_CREDENTIALS);
        var n := data[PathLength(data).value + 61];
        Ok(p.(tx := tx.(header := header), stage := AfterCredentials(n, 0)))
      else Throw(InvalidState)
    case Index(n) =>
      if packet.p2 == P2_CREDENTIAL_CREDENTIAL_INDEX then
        Ok(p.(stage := Within(n, NO_CREDENTIAL.(index := data[0]), KeyCount)))
      else Throw(InvalidState)
    case Within(n, c, stage) =>
      if packet.p2 == P2_CREDENTIAL_CREDENTIAL then
        var received :- AcceptPart(c, stage, packet.p1, data);
        match received
        case More(c', stage') =>
          Ok(p.(stage := Within(n, c', stage'),
                shown := if stage.Keys? && stage'.Keys? then p.shown + [data[..34]] else p.shown))
        case Complete(c') =>
          var cs := tx.credentials + [c'];
          if |cs| <= n then Ok(p.(tx := tx.(credentials := cs), stage := AfterCredentials(n, |cs|)))
          else Throw(InvalidState)
      else Throw(InvalidState)
    case IdCount =>
      if packet.p2 == P2_CREDENTIAL_ID_COUNT then
        Ok(p.(stage := if data[0] == 0 then Threshold else Ids(data[0])))
      else Throw(InvalidState)
    case Ids(n) =>
      if packet.p2 == P2_CREDENTIAL_ID then
        var ids := tx.ids + [data[..48]];
        Ok(p.(tx := tx.(ids := ids), stage := if |ids| == n then Threshold else Ids(n)))
      else Throw(InvalidState)
    case Threshold =>
      if packet.p2 == P2_THRESHOLD then Ok(p.(tx := tx.(threshold := data[0]), stage := Done)) else Throw(InvalidState)
  }

  /** The bytes of a packet that are hashed, by stage. */
  function HashedPart(c: Credential, stage: Stage, data: Cdata): (r: bytes)
    requires StageOk(c, stage)
  {
    match stage
    case KeyCount => data[..1]
    case Keys(_) => data[..34]
    case Holder => data[..56]
    case Ars(_) => data[..100]
    case Dates => data[..8]
    case Tag(_) => data[..2]
    case AttributeValue(_, _, length) => data[..length]
    case ProofLength => data[..4]
    case Proofs(n) => if n - |c.proofs| > MAX_CDATA_LENGTH then data[..MAX_CDATA_LENGTH] else data[..n - |c.proofs|]
  }

  ghost predicate ReceivedOk(r: Received) {
    match r
    case More(c, stage) => StageOk(c, stage)
    case Complete(c) => SignableCredential(c)
  }

  function ReceivedBytes(r: Received): (b: bytes)
    requires ReceivedOk(r)
  {
    match r
    case More(c, stage) => PartBytes(c, stage)
    case Complete(c) => CredentialBytes(c)
  }

  /** Every accepted packet of a credential extends its serialization by exactly the bytes hashed. */
  lemma AcceptPartExtends(c: Credential, stage: Stage, p1: byte, data: Cdata)
    requires StageOk(c, stage) && AcceptPart(c, stage, p1, data).Ok?
    ensures ReceivedOk(AcceptPart(c, stage, p1, data).value)
    ensures ReceivedBytes(AcceptPart(c, stage, p1, data).value) == PartBytes(c, stage) + HashedPart(c, stage, data)
  {
    hide StageOk, PartBytes, SignableCredential, CredentialBytes;
    match stage
    case KeyCount => AcceptKeyCount(c, data);
    case Keys(n) => AcceptKey(c, n, data);
    case Holder => AcceptHolder(c, data);
    case Ars(n) => AcceptAr(c, n, data);
    case Dates => AcceptDates(c, data);
    case Tag(n) => AcceptTag(c, n, data);
    case AttributeValue(n, tag, length) => AcceptAttribute(c, n, tag, length, data);
    case ProofLength => AcceptProofLength(c, data);
    case Proofs(n) => AcceptProofs(c, n, data);
  }

  lemma AcceptKeyCount(c: Credential, data: Cdata)
    requires StageOk(c, KeyCount)
    ensures StageOk(c, Keys(data[0])) && PartBytes(c, Keys(data[0])) == PartBytes(c, KeyCount) + data[..1]
  {
    NoItems();
    assert [c.index, data[0]] == [c.index] + data[..1];
  }

  lemma AcceptTag(c: Credential, n: u16, data: Cdata)
    requires StageOk(c, Tag(n))
    ensures var stage := AttributeValue(n, data[0], data[1]);
            StageOk(c, stage) && PartBytes(c, stage) == PartBytes(c, Tag(n)) + data[..2]
  {
    assert data[..2] == [data[0], data[1]];
  }

  lemma AcceptKey(c: Credential, n: byte, data: Cdata)
    requires StageOk(c, Keys(n)) && |c.keys| < n
    ensures var c' := c.(keys := c.keys + [data[..34]]);
            var stage := if |c'.keys| == n then Holder else Keys(n);
            StageOk(c', stage) && PartBytes(c', stage) == PartBytes(c, Keys(n)) + data[..34]
  {
    FlatAppend(c.keys, data[..34]);
  }

  lemma AcceptHolder(c: Credential, data: Cdata)
    requires StageOk(c, Holder) && ThresholdFits(data[53], U2BE(data, 54))
    ensures var c', stage := c.(holder := data[..54]), Ars(U2BE(data, 54));
            StageOk(c', stage) && PartBytes(c', stage) == PartBytes(c, Holder) + data[..56]
  {
    hide Flat;
    Put2Get2(data, 54);
    assert data[..56] == data[..54] + data[54..56];
    NoItems();
  }

  lemma NoItems()
    ensures Flat([]) == [] && AttributesBytes([]) == []
  {
  }

  lemma AcceptAr(c: Credential, n: u16, data: Cdata)
    requires StageOk(c, Ars(n)) && |c.ars| < n
    ensures var c' := c.(ars := c.ars + [data[..100]]);
            var stage := if |c'.ars| == n then Dates else Ars(n);
            StageOk(c', stage) && PartBytes(c', stage) == PartBytes(c, Ars(n)) + data[..100]
  {
    FlatAppend(c.ars, data[..100]);
    hide Flat;
    var before := KeysBytes(c) + c.holder + Put2(n);
    assert before + (Flat(c.ars) + data[..100]) == before + Flat(c.ars) + data[..100];
  }

  lemma AcceptDates(c: Credential, data: Cdata)
    requires StageOk(c, Dates)
    ensures var n, c' := U2BE(data, 6), c.(dates := data[..6]);
            var stage := if n == 0 then ProofLength else Tag(n);
            StageOk(c', stage) && PartBytes(c', stage) == PartBytes(c, Dates) + data[..8]
  {
    hide Flat;
    Put2Get2(data, 6);
    NoItems();
    assert data[..8] == data[..6] + data[6..8];
  }

  lemma AcceptAttribute(c: Credential, n: u16, tag: byte, length: byte, data: Cdata)
    requires StageOk(c, AttributeValue(n, tag, length))
    ensures var c' := c.(attributes := c.attributes + [Attribute(tag, data[..length])]);
            var stage := if |c'.attributes| == n then ProofLength else Tag(n);
            && StageOk(c', stage)
            && PartBytes(c', stage) == PartBytes(c, AttributeValue(n, tag, length)) + data[..length]
  {
    var a := Attribute(tag, data[..length]);
    assert (c.attributes + [a])[..|c.attributes|] == c.attributes;
    var before := ArsBytes(c) + c.dates + Put2(n);
    assert before + (AttributesBytes(c.attributes) + ([tag, length] + data[..length]))
        == before + AttributesBytes(c.attributes) + [tag, length] + data[..length];
  }

  lemma AcceptProofLength(c: Credential, data: Cdata)
    requires StageOk(c, ProofLength)
    ensures var stage := Proofs(U4BE(data, 0));
            StageOk(c, stage) && PartBytes(c, stage) == PartBytes(c, ProofLength) + data[..4]
  {
    hide Put4;
    Put4Get4(data, 0);
    assert data[..4] == data[0..4];
  }

  lemma AcceptProofs(c: Credential, n: u32, data: Cdata)
    requires StageOk(c, Proofs(n))
    ensures n - |c.proofs| > MAX_CDATA_LENGTH ==>
              var c' := c.(proofs := c.proofs + data[..MAX_CDATA_LENGTH]);
              StageOk(c', Proofs(n)) && PartBytes(c', Proofs(n)) == PartBytes(c, Proofs(n)) + data[..MAX_CDATA_LENGTH]
    ensures n - |c.proofs| <= MAX_CDATA_LENGTH ==>
              var c' := c.(proofs := c.proofs + data[..n - |c.proofs|]);
              SignableCredential(c') && CredentialBytes(c') == PartBytes(c, Proofs(n)) + data[..n - |c.proofs|]
  {
    hide Put4;
    var before := PolicyBytes(c) + Put4(n);
    var more := if n - |c.proofs| > MAX_CDATA_LENGTH then data[..MAX_CDATA_LENGTH] else data[..n - |c.proofs|];
    assert before + (c.proofs + more) == before + c.proofs + more;
    assert PolicyBytes(c.(proofs := c.proofs + more)) == PolicyBytes(c);
  }

  // ------------------------------------------------------------------ whole packets

  function Hashed(p: Progress, packet: Packet): (r: bytes)
    requires ProgressOk(p) && !p.stage.Done? && Accept(p, packet).Ok?
  {
    var data := packet.data;
    match p.stage
    case Start => var at := PathLength(data).value; data[at..at + 62]
    case Index(_) => data[..1]
    case Within(_, c, stage) => HashedPart(c, stage, data)
    case IdCount => data[..1]
    case Ids(_) => data[..48]
    case Threshold => data[..1]
  }

  /** Every accepted packet keeps what has been received well formed, and the transcript one
      serialization that grows by exactly the bytes hashed. */
  lemma AcceptExtends(p: Progress, packet: Packet)
    requires ProgressOk(p) && !p.stage.Done? && Accept(p, packet).Ok?
    ensures ProgressOk(Accept(p, packet).value)
    ensures Transcript(Accept(p, packet).value) == Transcript(p) + Hashed(p, packet)
  {
    var tx, data := p.tx, packet.data;
    match p.stage
    case Start => AcceptStart(p, packet);
    case Index(n) =>
      NoItems();
      var c := NO_CREDENTIAL.(index := data[0]);
      assert PartBytes(c, KeyCount) == data[..1];
    case Within(n, c, stage) => AcceptWithin(p, packet);
    case IdCount =>
      NoItems();
      assert data[..1] == [data[0]];
      assert Flat(tx.ids) == [];
    case Ids(n) => AcceptId(p, packet);
    case Threshold =>
      assert data[..1] == [data[0]];
      var tx' := tx.(threshold := data[0]);
      assert RemovedBytes(tx') == RemovedBytes(tx);
  }

  lemma AcceptStart(p: Progress, packet: Packet)
    requires ProgressOk(p) && p.stage.Start? && Accept(p, packet).Ok?
    ensures ProgressOk(Accept(p, packet).value)
    ensures Transcript(Accept(p, packet).value) == Transcript(p) + Hashed(p, packet)
  {
    var at := PathLength(packet.data).value;
    var header := packet.data[at..at + 61];
    assert CredentialsBytes([]) == [];
    assert packet.data[at..at + 62] == header + [packet.data[at + 61]];
  }

  lemma AcceptWithin(p: Progress, packet: Packet)
    requires ProgressOk(p) && p.stage.Within? && Accept(p, packet).Ok?
    ensures ProgressOk(Accept(p, packet).value)
    ensures Transcript(Accept(p, packet).value) == Transcript(p) + Hashed(p, packet)
  {
    hide StageOk, PartBytes, SignableCredential, CredentialBytes, AcceptPart, HashedPart;
    var Within(n, c, stage) := p.stage;
    AcceptPartExtends(c, stage, packet.p1, packet.data);
    var cs := p.tx.credentials;
    var before := p.tx.header + [n] + CredentialsBytes(cs);
    match AcceptPart(c, stage, packet.p1, packet.data).value
    case More(c', stage') =>
      assert before + (PartBytes(c, stage) + HashedPart(c, stage, packet.data))
          == before + PartBytes(c, stage) + HashedPart(c, stage, packet.data);
    case Complete(c') =>
      SignableFits(c');
      assert (cs + [c'])[..|cs|] == cs;
      assert before + (PartBytes(c, stage) + HashedPart(c, stage, packet.data))
          == before + PartBytes(c, stage) + HashedPart(c, stage, packet.data);
      assert p.tx.header + [n] + (CredentialsBytes(cs) + CredentialBytes(c')) == before + CredentialBytes(c');
  }

  lemma SignableFits(c: Credential)
    requires SignableCredential(c)
    ensures ListsFit(c)
  {
  }

  lemma AcceptId(p: Progress, packet: Packet)
    requires ProgressOk(p) && p.stage.Ids? && Accept(p, packet).Ok?
    ensures ProgressOk(Accept(p, packet).value)
    ensures Transcript(Accept(p, packet).value) == Transcript(p) + Hashed(p, packet)
  {
    var tx, id, n := p.tx, packet.data[..48], p.stage.removed;
    FlatAppend(tx.ids, id);
    hide Flat;
    var before := AddedBytes(tx) + [n];
    assert before + (Flat(tx.ids) + id) == before + Flat(tx.ids) + id;
    assert AddedBytes(tx.(ids := tx.ids + [id])) == AddedBytes(tx);
  }

  // ------------------------------------------------------------------ runs

  function Begin(intro: bool): (r: Progress) {
    Progress(NO_TX, Start, intro, [])
  }

  /** Packets end when the sign screen is up. */
  function Take(p: Progress, packet: Packet): (r: Outcome<Progress>) {
    if p.stage.Done? then Throw(InvalidState) else Accept(p, packet)
  }

  /** Packet data that is hashed, and the transcript, for every state and packet. */
  function HashedBy(p: Progress, packet: Packet): (r: bytes) {
    if ProgressOk(p) && Take(p, packet).Ok? then Hashed(p, packet) else []
  }

  function TranscriptOf(p: Progress): (r: bytes) {
    if ProgressOk(p) then Transcript(p) else []
  }

  function RunHashed(p: Progress, packets: seq<Packet>): (r: bytes)
    requires Run(Take, p, packets).Ok?
  {
    Gathered(Take, HashedBy, p, packets)
  }

  /** Soundness: whatever packets led to the sign screen, the bytes hashed are the serialization of
      one well-formed transaction, with every list as long as announced. */
  lemma SignedBytesAreOneTransaction(intro: bool, packets: seq<Packet>)
    requires Run(Take, Begin(intro), packets).Ok? && Run(Take, Begin(intro), packets).value.stage.Done?
    ensures var tx := Run(Take, Begin(intro), packets).value.tx;
            Signable(tx) && RunHashed(Begin(intro), packets) == TxBytes(tx)
  {
    TakeSound();
    BeginOk(intro);
    hide Take, Run, Gathered, HashedBy, TranscriptOf, ProgressOk, TxBytes, Signable;
    RunSound(Take, HashedBy, ProgressOk, TranscriptOf, Begin(intro), packets);
    DoneOk(Run(Take, Begin(intro), packets).value);
    assert [] + RunHashed(Begin(intro), packets) == RunHashed(Begin(intro), packets);
  }

  lemma TakeSound()
    ensures Sound(Take, HashedBy, ProgressOk, TranscriptOf)
  {
    hide ProgressOk, Accept, Transcript, Hashed;
    forall p: Progress, packet: Packet | ProgressOk(p) && Take(p, packet).Ok?
      ensures ProgressOk(Take(p, packet).value)
      ensures TranscriptOf(Take(p, packet).value) == TranscriptOf(p) + HashedBy(p, packet)
    {
      AcceptExtends(p, packet);
    }
  }

  lemma BeginOk(intro: bool)
    ensures ProgressOk(Begin(intro)) && TranscriptOf(Begin(intro)) == []
  {
  }

  lemma DoneOk(p: Progress)
    requires ProgressOk(p) && p.stage.Done?
    ensures Signable(p.tx) && TranscriptOf(p) == TxBytes(p.tx)
  {
    hide CredentialBytes, SignableCredential;
  }

  /** A credential that announces no key, or no anonymity revoker, cannot be continued. */
  lemma NothingAfterEmptyList(p: Progress, packet: Packet)
    requires ProgressOk(p) && p.stage.Within?
    requires p.stage.stage == Keys(0) || p.stage.stage == Ars(0)
    ensures Accept(p, packet) == Throw(InvalidState)
  {
  }
}
