/** Completeness of the update-credentials protocol: every well-formed transaction can be sent. */
module CredentialRuns {
  import opened Bytes
  import opened Lists
  import opened Device
  import opened Runs
  import opened CredentialTx

  function Part(p1: byte, b: bytes): (r: Packet)
    requires |b| <= 255
  {
    Packet(p1, P2_CREDENTIAL_CREDENTIAL, Pad(b), 0)
  }

  function Outer(p2: byte, b: bytes): (r: Packet)
    requires |b| <= 255
  {
    Packet(0, p2, Pad(b), 0)
  }

  ghost predicate Reaches(p: Progress, packets: seq<Packet>, tx: Tx, stage: TxStage) {
    var r := Run(Take, p, packets);
    r.Ok? && r.value.tx == tx && r.value.stage == stage
  }

  lemma Append(p: Progress, xs: seq<Packet>, ys: seq<Packet>, tx: Tx, stage: TxStage)
    requires Run(Take, p, xs).Ok? && Reaches(Run(Take, p, xs).value, ys, tx, stage)
    ensures Reaches(p, xs + ys, tx, stage)
  {
    RunAppend(Take, p, xs, ys);
  }

  lemma StepPart(p: Progress, added: byte, c: Credential, stage: Stage, p1: byte, b: bytes, c': Credential, stage': Stage)
    requires p.stage == Within(added, c, stage) && |b| <= 255
    requires AcceptPart(c, stage, p1, Pad(b)) == Ok(More(c', stage'))
    ensures Reaches(p, [Part(p1, b)], p.tx, Within(added, c', stage'))
  {
    One(Take, p, Part(p1, b));
  }

  // ------------------------------------------------------------------ the lists of one credential

  lemma {:induction false} SendKeys(p: Progress, added: byte, c: Credential, i: nat) returns (packets: seq<Packet>)
    requires |c.keys| < 0x100 && AllOf(c.keys, 34) && i < |c.keys|
    requires p.stage == Within(added, c.(keys := c.keys[..i]), Keys(|c.keys|))
    ensures Reaches(p, packets, p.tx, Within(added, c, Holder))
    decreases |c.keys| - i
  {
    var key := c.keys[i];
    assert c.keys[..i] + [key] == c.keys[..i + 1];
    packets := [Part(P1_VERIFICATION_KEY, key)];
    if i + 1 == |c.keys| {
      assert c.keys[..i + 1] == c.keys;
      StepPart(p, added, c.(keys := c.keys[..i]), Keys(|c.keys|), P1_VERIFICATION_KEY, key, c, Holder);
    } else {
      var c' := c.(keys := c.keys[..i + 1]);
      StepPart(p, added, c.(keys := c.keys[..i]), Keys(|c.keys|), P1_VERIFICATION_KEY, key, c', Keys(|c.keys|));
      var rest := SendKeys(Run(Take, p, packets).value, added, c, i + 1);
      Append(p, packets, rest, p.tx, Within(added, c, Holder));
      packets := packets + rest;
    }
  }

  lemma {:induction false} SendArs(p: Progress, added: byte, c: Credential, i: nat) returns (packets: seq<Packet>)
    requires |c.ars| < 0x1_0000 && AllOf(c.ars, 100) && i < |c.ars|
    requires p.stage == Within(added, c.(ars := c.ars[..i]), Ars(|c.ars|))
    ensures Reaches(p, packets, p.tx, Within(added, c, Dates))
    decreases |c.ars| - i
  {
    var ar := c.ars[i];
    assert c.ars[..i] + [ar] == c.ars[..i + 1];
    packets := [Part(P1_AR_IDENTITY, ar)];
    if i + 1 == |c.ars| {
      assert c.ars[..i + 1] == c.ars;
      StepPart(p, added, c.(ars := c.ars[..i]), Ars(|c.ars|), P1_AR_IDENTITY, ar, c, Dates);
    } else {
      var c' := c.(ars := c.ars[..i + 1]);
      StepPart(p, added, c.(ars := c.ars[..i]), Ars(|c.ars|), P1_AR_IDENTITY, ar, c', Ars(|c.ars|));
      var rest := SendArs(Run(Take, p, packets).value, added, c, i + 1);
      Append(p, packets, rest, p.tx, Within(added, c, Dates));
      packets := packets + rest;
    }
  }

  lemma {:induction false} SendAttributes(p: Progress, added: byte, c: Credential, i: nat)
    returns (packets: seq<Packet>)
    requires |c.attributes| < 0x1_0000 && Attributes(c.attributes) && i < |c.attributes|
    requires p.stage == Within(added, c.(attributes := c.attributes[..i]), Tag(|c.attributes|))
    ensures Reaches(p, packets, p.tx, Within(added, c, ProofLength))
    decreases |c.attributes| - i
  {
    var a, n := c.attributes[i], |c.attributes|;
    var before, length := c.(attributes := c.attributes[..i]), |a.value|;
    assert c.attributes[..i] + [a] == c.attributes[..i + 1];
    var tag := [a.tag, length];
    assert Pad(tag)[0] == Pad(tag)[..2][0] && Pad(tag)[1] == Pad(tag)[..2][1];
    StepPart(p, added, before, Tag(n), P1_ATTRIBUTE_TAG, tag, before, AttributeValue(n, a.tag, length));
    var q := Run(Take, p, [Part(P1_ATTRIBUTE_TAG, tag)]).value;
    var value := [Part(P1_ATTRIBUTE_VALUE, a.value)];
    packets := [Part(P1_ATTRIBUTE_TAG, tag)] + value;
    assert Attribute(a.tag, a.value) == a;
    if i + 1 == n {
      assert c.attributes[..i + 1] == c.attributes;
      StepPart(q, added, before, AttributeValue(n, a.tag, length), P1_ATTRIBUTE_VALUE, a.value, c, ProofLength);
      Append(p, [Part(P1_ATTRIBUTE_TAG, tag)], value, p.tx, Within(added, c, ProofLength));
    } else {
      var c' := c.(attributes := c.attributes[..i + 1]);
      StepPart(q, added, before, AttributeValue(n, a.tag, length), P1_ATTRIBUTE_VALUE, a.value, c', Tag(n));
      Append(p, [Part(P1_ATTRIBUTE_TAG, tag)], value, p.tx, Within(added, c', Tag(n)));
      var rest := SendAttributes(Run(Take, p, packets).value, added, c, i + 1);
      Append(p, packets, rest, p.tx, Within(added, c, ProofLength));
      packets := packets + rest;
    }
  }

  /** Packets that n proof bytes take: one for every 255 bytes begun, and one for no bytes at all. */
  function ProofPackets(n: nat): (r: nat) {
    if n <= MAX_CDATA_LENGTH then 1 else 1 + ProofPackets(n - MAX_CDATA_LENGTH)
  }

  lemma {:induction false} ProofPacketsCount(n: nat)
    ensures ProofPackets(n) == if n == 0 then 1 else (n + 254) / 255
  {
    if n > MAX_CDATA_LENGTH { ProofPacketsCount(n - MAX_CDATA_LENGTH); }
  }

  function WithCredential(tx: Tx, c: Credential): (r: Tx) {
    tx.(credentials := tx.credentials + [c])
  }

  lemma {:induction false} SendProofs(p: Progress, added: byte, c: Credential, i: nat) returns (packets: seq<Packet>)
    requires |c.proofs| < 0x1_0000_0000 && i <= |c.proofs| && |p.tx.credentials| < added
    requires p.stage == Within(added, c.(proofs := c.proofs[..i]), Proofs(|c.proofs|))
    ensures Reaches(p, packets, WithCredential(p.tx, c), AfterCredentials(added, |p.tx.credentials| + 1))
    ensures |packets| == ProofPackets(|c.proofs| - i)
    decreases |c.proofs| - i
  {
    hide Run;
    var n := |c.proofs|;
    var before := c.(proofs := c.proofs[..i]);
    if n - i > MAX_CDATA_LENGTH {
      var chunk := c.proofs[i..i + MAX_CDATA_LENGTH];
      assert c.proofs[..i] + chunk == c.proofs[..i + MAX_CDATA_LENGTH];
      var c' := c.(proofs := c.proofs[..i + MAX_CDATA_LENGTH]);
      packets := [Part(P1_PROOFS, chunk)];
      StepPart(p, added, before, Proofs(n), P1_PROOFS, chunk, c', Proofs(n));
      var rest := SendProofs(Run(Take, p, packets).value, added, c, i + MAX_CDATA_LENGTH);
      Append(p, packets, rest, WithCredential(p.tx, c), AfterCredentials(added, |p.tx.credentials| + 1));
      packets := packets + rest;
    } else {
      var chunk := c.proofs[i..];
      assert c.proofs[..i] + chunk == c.proofs;
      packets := [Part(P1_PROOFS, chunk)];
      One(Take, p, packets[0]);
    }
  }

  ghost predicate ProofPart(packet: Packet) {
    packet.p1 == P1_PROOFS && packet.p2 == P2_CREDENTIAL_CREDENTIAL
  }

  /** Whatever they hold, exactly that many packets complete the proofs of a credential, and no fewer. */
  lemma {:induction false} ProofsTakeExactly(p: Progress, packets: seq<Packet>)
    requires ProgressOk(p) && p.stage.Within? && p.stage.stage.Proofs? && p.stage.credential.proofs == []
    requires forall i | 0 <= i < |packets| :: ProofPart(packets[i])
    requires |packets| <= ProofPackets(p.stage.stage.bytes)
    ensures var n, r := p.stage.stage.bytes, Run(Take, p, packets);
            && r.Ok?
            && (|packets| < ProofPackets(n) ==>
                  && r.value.stage.Within? && r.value.stage.stage == p.stage.stage && r.value.tx == p.tx
                  && r.value.stage.added == p.stage.added
                      && |r.value.stage.credential.proofs| == MAX_CDATA_LENGTH * |packets|)
            && (|packets| == ProofPackets(n)
                ==> |r.value.tx.credentials| == |p.tx.credentials| + 1 && !r.value.stage.Within?)
  {
    var n := p.stage.stage.bytes;
    ProofPacketsCount(n);
    WithinRoom(p);
    hide ProgressOk;
    if packets != [] {
      var k := |packets| - 1;
      ProofsTakeExactly(p, packets[..k]);
      assert ProofPart(packets[k]);
      MorePackets(n, k);
    }
  }

  lemma WithinRoom(p: Progress)
    requires ProgressOk(p) && p.stage.Within?
    ensures |p.tx.credentials| < p.stage.added
  {
  }

  lemma MorePackets(n: nat, k: nat)
    requires k < ProofPackets(n)
    ensures k + 1 < ProofPackets(n) <==> n - MAX_CDATA_LENGTH * k > MAX_CDATA_LENGTH
    ensures MAX_CDATA_LENGTH * k <= n
  {
    ProofPacketsCount(n);
  }

  // ------------------------------------------------------------------ one credential

  lemma SendUpToHolder(p: Progress, added: byte, c: Credential) returns (packets: seq<Packet>)
    requires SignableCredential(c) && p.stage == Index(added)
    ensures Reaches(p, packets, p.tx, Within(added, NO_CREDENTIAL.(index := c.index, keys := c.keys), Holder))
  {
    hide AcceptPart;
    var c0 := NO_CREDENTIAL.(index := c.index);
    var xs, ys := [Outer(P2_CREDENTIAL_CREDENTIAL_INDEX, [c.index])], [Part(P1_VERIFICATION_KEY_LENGTH, [|c.keys|])];
    assert Pad([c.index])[0] == Pad([c.index])[..1][0];
    One(Take, p, xs[0]);
    var q := Run(Take, p, xs).value;
    StepKeyCount(q, added, c0, |c.keys|);
    Append(p, xs, ys, p.tx, Within(added, c0, Keys(|c.keys|)));
    var with := c0.(keys := c.keys);
    assert c0 == with.(keys := with.keys[..0]);
    var rest := SendKeys(Run(Take, p, xs + ys).value, added, with, 0);
    Append(p, xs + ys, rest, p.tx, Within(added, with, Holder));
    packets := xs + ys + rest;
  }

  lemma StepKeyCount(p: Progress, added: byte, c: Credential, n: byte)
    requires p.stage == Within(added, c, KeyCount)
    ensures Reaches(p, [Part(P1_VERIFICATION_KEY_LENGTH, [n])], p.tx, Within(added, c, Keys(n)))
  {
    assert Pad([n])[0] == Pad([n])[..1][0];
    StepPart(p, added, c, KeyCount, P1_VERIFICATION_KEY_LENGTH, [n], c, Keys(n));
  }

  lemma SendUpToDates(p: Progress, added: byte, c: Credential) returns (packets: seq<Packet>)
    requires SignableCredential(c)
    requires p.stage == Within(added, NO_CREDENTIAL.(index := c.index, keys := c.keys), Holder)
    ensures Reaches(p, packets, p.tx, Within(added, c.(dates := [], attributes := [], proofs := []), Dates))
  {
    var c0 := NO_CREDENTIAL.(index := c.index, keys := c.keys);
    var c1 := c0.(holder := c.holder, ars := c.ars);
    var n := |c.ars|;
    var b := c.holder + Put2(n);
    ReadPut2(c.holder, n);
    assert Pad(b)[53] == Pad(b)[..54][53];
    assert c1.(ars := c1.ars[..0]) == c0.(holder := c.holder);
    var xs := [Part(P1_SIGNATURE_THRESHOLD, b)];
    StepPart(p, added, c0, Holder, P1_SIGNATURE_THRESHOLD, b, c0.(holder := c.holder), Ars(n));
    var rest := SendArs(Run(Take, p, xs).value, added, c1, 0);
    Append(p, xs, rest, p.tx, Within(added, c1, Dates));
    packets := xs + rest;
  }

  lemma SendUpToProofLength(p: Progress, added: byte, c: Credential) returns (packets: seq<Packet>)
    requires SignableCredential(c)
    requires p.stage == Within(added, c.(dates := [], attributes := [], proofs := []), Dates)
    ensures Reaches(p, packets, p.tx, Within(added, c.(proofs := []), ProofLength))
  {
    var c0 := c.(dates := [], attributes := [], proofs := []);
    var c1 := c0.(dates := c.dates);
    var with := c.(proofs := []);
    var n := |c.attributes|;
    var b := c.dates + Put2(n);
    ReadPut2(c.dates, n);
    packets := [Part(P1_CREDENTIAL_DATES, b)];
    StepPart(p, added, c0, Dates, P1_CREDENTIAL_DATES, b, c1, if n == 0 then ProofLength else Tag(n));
    if n == 0 {
      assert c1 == with;
    } else {
      assert c1 == with.(attributes := with.attributes[..0]);
      var rest := SendAttributes(Run(Take, p, packets).value, added, with, 0);
      Append(p, packets, rest, p.tx, Within(added, with, ProofLength));
      packets := packets + rest;
    }
  }

  lemma SendProofPart(p: Progress, added: byte, c: Credential) returns (packets: seq<Packet>)
    requires SignableCredential(c) && |p.tx.credentials| < added
    requires p.stage == Within(added, c.(proofs := []), ProofLength)
    ensures Reaches(p, packets, WithCredential(p.tx, c), AfterCredentials(added, |p.tx.credentials| + 1))
  {
    var c0, n := c.(proofs := []), |c.proofs|;
    var xs := [Part(P1_LENGTH_OF_PROOFS, Put4(n))];
    ReadPut4(n);
    StepPart(p, added, c0, ProofLength, P1_LENGTH_OF_PROOFS, Put4(n), c0, Proofs(n));
    assert c0 == c.(proofs := c.proofs[..0]);
    var rest := SendProofs(Run(Take, p, xs).value, added, c, 0);
    Append(p, xs, rest, WithCredential(p.tx, c), AfterCredentials(added, |p.tx.credentials| + 1));
    packets := xs + rest;
  }

  lemma SendCredential(p: Progress, added: byte, c: Credential) returns (packets: seq<Packet>)
    requires SignableCredential(c) && p.stage == Index(added) && |p.tx.credentials| < added
    ensures Reaches(p, packets, WithCredential(p.tx, c), AfterCredentials(added, |p.tx.credentials| + 1))
  {
    hide SignableCredential, Run, AfterCredentials;
    packets := SendUpToHolder(p, added, c);
    var xs := SendUpToDates(Run(Take, p, packets).value, added, c);
    Append(p, packets, xs, p.tx, Within(added, c.(dates := [], attributes := [], proofs := []), Dates));
    packets := packets + xs;
    xs := SendUpToProofLength(Run(Take, p, packets).value, added, c);
    Append(p, packets, xs, p.tx, Within(added, c.(proofs := []), ProofLength));
    packets := packets + xs;
    xs := SendProofPart(Run(Take, p, packets).value, added, c);
    Append(p, packets, xs, WithCredential(p.tx, c), AfterCredentials(added, |p.tx.credentials| + 1));
    packets := packets + xs;
  }

  // ------------------------------------------------------------------ the whole transaction

  lemma {:induction false} SendCredentials(p: Progress, cs: seq<Credential>, i: nat) returns (packets: seq<Packet>)
    requires |cs| < 0x100 && Credentials(cs) && i <= |cs|
    requires p.tx.credentials == cs[..i] && p.stage == AfterCredentials(|cs|, i)
    ensures Reaches(p, packets, p.tx.(credentials := cs), IdCount)
    decreases |cs| - i
  {
    if i == |cs| {
      packets := [];
      assert cs[..i] == cs;
      assert Run(Take, p, []) == Ok(p);
    } else {
      hide SignableCredential, Run;
      packets := SendCredential(p, |cs|, cs[i]);
      assert cs[..i] + [cs[i]] == cs[..i + 1];
      var rest := SendCredentials(Run(Take, p, packets).value, cs, i + 1);
      Append(p, packets, rest, p.tx.(credentials := cs), IdCount);
      packets := packets + rest;
    }
  }

  lemma {:induction false} SendIds(p: Progress, ids: seq<bytes>, i: nat) returns (packets: seq<Packet>)
    requires |ids| < 0x100 && AllOf(ids, 48) && i < |ids|
    requires p.tx.ids == ids[..i] && p.stage == Ids(|ids|)
    ensures Reaches(p, packets, p.tx.(ids := ids), Threshold)
    decreases |ids| - i
  {
    packets := [Outer(P2_CREDENTIAL_ID, ids[i])];
    assert ids[..i] + [ids[i]] == ids[..i + 1];
    One(Take, p, packets[0]);
    if i + 1 == |ids| {
      assert ids[..i + 1] == ids;
    } else {
      var rest := SendIds(Run(Take, p, packets).value, ids, i + 1);
      Append(p, packets, rest, p.tx.(ids := ids), Threshold);
      packets := packets + rest;
    }
  }

  lemma SendStart(tx: Tx, intro: bool) returns (packets: seq<Packet>)
    requires Signable(tx)
    ensures Reaches(Begin(intro), packets, NO_TX.(header := tx.header), AfterCredentials(|tx.credentials|, 0))
  {
    var n := |tx.credentials|;
    var b := [0] + tx.header + [n];
    packets := [Outer(P2_CREDENTIAL_INITIAL, b)];
    var data := Pad(b);
    assert data[..63] == b;
    assert data[0] == data[..63][0] == 0 && data[61] == data[..63][61] == tx.header[60] && data[62] == data[..63][62];
    assert data[1..62] == data[..63][1..62] == tx.header;
    One(Take, Begin(intro), packets[0]);
  }

  lemma SendIdPart(p: Progress, tx: Tx) returns (packets: seq<Packet>)
    requires Signable(tx) && p.tx == tx.(ids := [], threshold := 0) && p.stage == IdCount
    ensures Reaches(p, packets, tx.(threshold := 0), Threshold)
  {
    var n := |tx.ids|;
    packets := [Outer(P2_CREDENTIAL_ID_COUNT, [n])];
    assert Pad([n])[0] == Pad([n])[..1][0];
    One(Take, p, packets[0]);
    if n > 0 {
      assert tx.ids[..0] == [];
      var rest := SendIds(Run(Take, p, packets).value, tx.ids, 0);
      Append(p, packets, rest, tx.(threshold := 0), Threshold);
      packets := packets + rest;
    }
  }

  /** Completeness: every well-formed transaction has packets that bring it to the sign screen. */
  lemma EveryTransactionCanBeSent(tx: Tx, intro: bool)
    requires Signable(tx)
    ensures exists packets: seq<Packet> :: Reaches(Begin(intro), packets, tx, Done)
  {
    var packets := SendAll(tx, intro);
  }

  lemma SendAll(tx: Tx, intro: bool) returns (packets: seq<Packet>)
    requires Signable(tx)
    ensures Reaches(Begin(intro), packets, tx, Done)
  {
    hide Run, SignableCredential;
    var p := Begin(intro);
    packets := SendStart(tx, intro);
    assert tx.credentials[..0] == [];
    var xs := SendCredentials(Run(Take, p, packets).value, tx.credentials, 0);
    Append(p, packets, xs, NO_TX.(header := tx.header, credentials := tx.credentials), IdCount);
    packets := packets + xs;
    xs := SendIdPart(Run(Take, p, packets).value, tx);
    Append(p, packets, xs, tx.(threshold := 0), Threshold);
    packets := packets + xs;
    xs := SendThreshold(Run(Take, p, packets).value, tx.threshold);
    Append(p, packets, xs, tx, Done);
    packets := packets + xs;
  }

  lemma SendThreshold(p: Progress, threshold: byte) returns (packets: seq<Packet>)
    requires p.stage == Threshold
    ensures Reaches(p, packets, p.tx.(threshold := threshold), Done)
  {
    packets := [Outer(P2_THRESHOLD, [threshold])];
    assert Pad([threshold])[0] == Pad([threshold])[..1][0];
    One(Take, p, packets[0]);
  }
}
