/** Update-credentials: the serialization can be read in one way only, so what is signed determines the
    transaction, and exactly the serializations of signable transactions can be signed. */
module CredentialUnique {
  import opened Bytes
  import opened Lists
  import opened Device
  import opened Runs
  import opened CredentialTx
  import CredentialRuns

  // ------------------------------------------------------------------ attributes

  lemma {:induction false} AttributesCons(x: seq<Attribute>)
    requires Attributes(x) && x != []
    ensures AttributesBytes(x) == AttributeBytes(x[0]) + AttributesBytes(x[1..])
  {
    hide AttributeBytes;
    var n := |x| - 1;
    if n == 0 {
      assert AttributesBytes(x[..0]) == [] && AttributesBytes(x[1..]) == [];
    } else {
      AttributesCons(x[..n]);
      assert x[..n][1..] == x[1..][..n - 1];
      Regroup(AttributeBytes(x[0]), AttributesBytes(x[1..][..n - 1]), AttributeBytes(x[n]));
    }
  }

  lemma SplitAttribute(a: Attribute, b: Attribute, r: bytes, s: bytes)
    requires |a.value| < 0x100 && |b.value| < 0x100 && AttributeBytes(a) + r == AttributeBytes(b) + s
    ensures a == b && r == s
  {
    Regroup([a.tag, |a.value|], a.value, r);
    Regroup([b.tag, |b.value|], b.value, s);
    Split([a.tag, |a.value|], [b.tag, |b.value|], a.value + r, b.value + s);
    assert [a.tag, |a.value|][0] == [b.tag, |b.value|][0] && [a.tag, |a.value|][1] == [b.tag, |b.value|][1];
    Split(a.value, b.value, r, s);
  }

  lemma {:induction false} SplitAttributes(x: seq<Attribute>, y: seq<Attribute>, r: bytes, s: bytes)
    requires |x| == |y| && Attributes(x) && Attributes(y)
    requires AttributesBytes(x) + r == AttributesBytes(y) + s
    ensures x == y && r == s
  {
    hide AttributeBytes;
    if x == [] {
      assert AttributesBytes(x) + r == r && AttributesBytes(y) + s == s;
    } else {
      AttributesCons(x);
      AttributesCons(y);
      hide AttributesBytes;
      Regroup(AttributeBytes(x[0]), AttributesBytes(x[1..]), r);
      Regroup(AttributeBytes(y[0]), AttributesBytes(y[1..]), s);
      SplitAttribute(x[0], y[0], AttributesBytes(x[1..]) + r, AttributesBytes(y[1..]) + s);
      SplitAttributes(x[1..], y[1..], r, s);
      assert x == [x[0]] + x[1..] && y == [y[0]] + y[1..];
    }
  }

  lemma SplitCountedAttributes(x: seq<Attribute>, y: seq<Attribute>, r: bytes, s: bytes)
    requires |x| < 0x1_0000 && |y| < 0x1_0000 && Attributes(x) && Attributes(y)
    requires Put2(|x|) + AttributesBytes(x) + r == Put2(|y|) + AttributesBytes(y) + s
    ensures x == y && r == s
  {
    hide AttributesBytes, Put2;
    Regroup(Put2(|x|), AttributesBytes(x), r);
    Regroup(Put2(|y|), AttributesBytes(y), s);
    Split(Put2(|x|), Put2(|y|), AttributesBytes(x) + r, AttributesBytes(y) + s);
    Put2Injective(|x|, |y|);
    SplitAttributes(x, y, r, s);
  }

  // ------------------------------------------------------------------ a credential

  lemma SplitKeys(c: Credential, d: Credential, r: bytes, s: bytes)
    requires SignableCredential(c) && SignableCredential(d) && KeysBytes(c) + r == KeysBytes(d) + s
    ensures c.index == d.index && c.keys == d.keys && r == s
  {
    hide Flat;
    Regroup([c.index, |c.keys|], Flat(c.keys), r);
    Regroup([d.index, |d.keys|], Flat(d.keys), s);
    Split([c.index, |c.keys|], [d.index, |d.keys|], Flat(c.keys) + r, Flat(d.keys) + s);
    assert [c.index, |c.keys|][0] == [d.index, |d.keys|][0] && [c.index, |c.keys|][1] == [d.index, |d.keys|][1];
    SplitFlat(c.keys, d.keys, 34, r, s);
  }

  lemma SplitArs(c: Credential, d: Credential, r: bytes, s: bytes)
    requires SignableCredential(c) && SignableCredential(d) && ArsBytes(c) + r == ArsBytes(d) + s
    ensures c.index == d.index && c.keys == d.keys && c.holder == d.holder && c.ars == d.ars && r == s
  {
    hide Flat, Put2, KeysBytes;
    var u, v := Put2(|c.ars|) + Flat(c.ars) + r, Put2(|d.ars|) + Flat(d.ars) + s;
    assert ArsBytes(c) + r == KeysBytes(c) + (c.holder + u);
    assert ArsBytes(d) + s == KeysBytes(d) + (d.holder + v);
    SplitKeys(c, d, c.holder + u, d.holder + v);
    Split(c.holder, d.holder, u, v);
    SplitCounted(c.ars, d.ars, 100, r, s);
  }

  lemma SplitPolicy(c: Credential, d: Credential, r: bytes, s: bytes)
    requires SignableCredential(c) && SignableCredential(d) && PolicyBytes(c) + r == PolicyBytes(d) + s
    ensures c.(proofs := []) == d.(proofs := []) && r == s
  {
    hide AttributesBytes, Put2, ArsBytes;
    var u, v := Put2(|c.attributes|) + AttributesBytes(c.attributes) + r, Put2(|d.attributes|)
        + AttributesBytes(d.attributes) + s;
    assert PolicyBytes(c) + r == ArsBytes(c) + (c.dates + u);
    assert PolicyBytes(d) + s == ArsBytes(d) + (d.dates + v);
    SplitArs(c, d, c.dates + u, d.dates + v);
    Split(c.dates, d.dates, u, v);
    SplitCountedAttributes(c.attributes, d.attributes, r, s);
  }

  lemma SplitCredential(c: Credential, d: Credential, r: bytes, s: bytes)
    requires SignableCredential(c) && SignableCredential(d) && CredentialBytes(c) + r == CredentialBytes(d) + s
    ensures c == d && r == s
  {
    hide Put4, PolicyBytes;
    assert CredentialBytes(c) + r == PolicyBytes(c) + (Put4(|c.proofs|) + (c.proofs + r));
    assert CredentialBytes(d) + s == PolicyBytes(d) + (Put4(|d.proofs|) + (d.proofs + s));
    SplitPolicy(c, d, Put4(|c.proofs|) + (c.proofs + r), Put4(|d.proofs|) + (d.proofs + s));
    Split(Put4(|c.proofs|), Put4(|d.proofs|), c.proofs + r, d.proofs + s);
    Put4Injective(|c.proofs|, |d.proofs|);
    Split(c.proofs, d.proofs, r, s);
  }

  // ------------------------------------------------------------------ the transaction

  lemma AllFit(x: seq<Credential>)
    requires Credentials(x)
    ensures forall i | 0 <= i < |x| :: ListsFit(x[i])
  {
    hide SignableCredential, ListsFit;
    forall i | 0 <= i < |x|
      ensures ListsFit(x[i])
    {
      SignableFits(x[i]);
    }
  }

  lemma {:induction false} CredentialsCons(x: seq<Credential>)
    requires Credentials(x) && x != []
    ensures ListsFit(x[0]) && CredentialsBytes(x) == CredentialBytes(x[0]) + CredentialsBytes(x[1..])
  {
    hide CredentialBytes, SignableCredential, ListsFit;
    AllFit(x);
    var n := |x| - 1;
    if n == 0 {
      assert CredentialsBytes(x[..0]) == [] && CredentialsBytes(x[1..]) == [];
    } else {
      CredentialsCons(x[..n]);
      assert x[..n][1..] == x[1..][..n - 1];
      Regroup(CredentialBytes(x[0]), CredentialsBytes(x[1..][..n - 1]), CredentialBytes(x[n]));
    }
  }

  lemma {:induction false} SplitCredentials(x: seq<Credential>, y: seq<Credential>, r: bytes, s: bytes)
    requires |x| == |y| && Credentials(x) && Credentials(y)
    requires CredentialsBytes(x) + r == CredentialsBytes(y) + s
    ensures x == y && r == s
  {
    hide CredentialBytes, SignableCredential, ListsFit;
    if x == [] {
      assert CredentialsBytes(x) + r == r && CredentialsBytes(y) + s == s;
    } else {
      AllFit(x);
      AllFit(y);
      CredentialsCons(x);
      CredentialsCons(y);
      hide CredentialsBytes;
      Regroup(CredentialBytes(x[0]), CredentialsBytes(x[1..]), r);
      Regroup(CredentialBytes(y[0]), CredentialsBytes(y[1..]), s);
      SplitCredential(x[0], y[0], CredentialsBytes(x[1..]) + r, CredentialsBytes(y[1..]) + s);
      SplitCredentials(x[1..], y[1..], r, s);
      assert x == [x[0]] + x[1..] && y == [y[0]] + y[1..];
    }
  }

  /** Two transactions with the same serialization are the same. */
  lemma TxBytesInjective(tx: Tx, ty: Tx)
    requires Signable(tx) && Signable(ty) && TxBytes(tx) == TxBytes(ty)
    ensures tx == ty
  {
    hide CredentialsBytes, Credentials, Flat;
    var xs, ys := CredentialsBytes(tx.credentials), CredentialsBytes(ty.credentials);
    var u, v := [|tx.ids|] + (Flat(tx.ids) + [tx.threshold]), [|ty.ids|] + (Flat(ty.ids) + [ty.threshold]);
    assert TxBytes(tx) == tx.header + ([|tx.credentials|] + (xs + u));
    assert TxBytes(ty) == ty.header + ([|ty.credentials|] + (ys + v));
    Split(tx.header, ty.header, [|tx.credentials|] + (xs + u), [|ty.credentials|] + (ys + v));
    Split([|tx.credentials|], [|ty.credentials|], xs + u, ys + v);
    SameNumber(|tx.credentials|, |ty.credentials|);
    SplitCredentials(tx.credentials, ty.credentials, u, v);
    Split([|tx.ids|], [|ty.ids|], Flat(tx.ids) + [tx.threshold], Flat(ty.ids) + [ty.threshold]);
    SameNumber(|tx.ids|, |ty.ids|);
    SplitFlat(tx.ids, ty.ids, 48, [tx.threshold], [ty.threshold]);
    SameNumber(tx.threshold, ty.threshold);
  }

  // ------------------------------------------------------------------ what can be signed

  /** The packets lead to the sign screen with b hashed. */
  ghost predicate Signs(intro: bool, packets: seq<Packet>, b: bytes) {
    && Run(Take, Begin(intro), packets).Ok? && Run(Take, Begin(intro), packets).value.stage.Done?
    && RunHashed(Begin(intro), packets) == b
  }

  /** A byte string can be brought to the sign screen if and only if it is the serialization of a
      signable transaction. */
  lemma SignedStrings(b: bytes, intro: bool)
    ensures (exists packets: seq<Packet> :: Signs(intro, packets, b))
        <==> (exists tx: Tx :: Signable(tx) && TxBytes(tx) == b)
  {
    hide Signable, TxBytes, Run, RunHashed;
    if packets: seq<Packet> :| Signs(intro, packets, b) {
      SignedBytesAreOneTransaction(intro, packets);
      assert TxBytes(Run(Take, Begin(intro), packets).value.tx) == b;
    }
    if tx: Tx :| Signable(tx) && TxBytes(tx) == b {
      var packets := CredentialRuns.SendAll(tx, intro);
      SignedBytesAreOneTransaction(intro, packets);
      assert Signs(intro, packets, b);
    }
  }

  /** Runs that sign the same bytes sign the same transaction, however it was cut into packets. */
  lemma SignedBytesDetermine(b: bytes, xs: seq<Packet>, ys: seq<Packet>, i: bool, j: bool)
    requires Signs(i, xs, b) && Signs(j, ys, b)
    ensures Run(Take, Begin(i), xs).value.tx == Run(Take, Begin(j), ys).value.tx
  {
    hide Signable, TxBytes, Run, RunHashed;
    SignedBytesAreOneTransaction(i, xs);
    SignedBytesAreOneTransaction(j, ys);
    TxBytesInjective(Run(Take, Begin(i), xs).value.tx, Run(Take, Begin(j), ys).value.tx);
  }
}
