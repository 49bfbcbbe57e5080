/** Update-credentials transactions byte by byte: what the screens say of the signed bytes. */
module CredentialScreens {
  import opened Bytes
  import opened Lists
  import opened Positional
  import opened Device
  import opened DecimalText
  import opened PaginatedHex
  import opened Readback
  import opened Runs
  import opened CredentialTx
  import opened CredentialUnique
  import opened CredentialFormat
  import opened CredentialShown
  import opened SignCredentialDeployment

  // ------------------------------------------------------------------ the keys that are shown

  /** The keys of a credential without index and scheme, all but the last one. */
  function KeysAt(b: bytes, at: nat): (r: seq<bytes>)
    requires CredentialAt(b, at)
  {
    seq(b[at + 1] - 1, i requires 0 <= i < b[at + 1] - 1 => b[at + 4 + 34 * i..at + 36 + 34 * i])
  }

  function AllKeysAt(b: bytes, at: nat, n: nat): (r: seq<bytes>)
    requires CredentialsAt(b, at, n)
    decreases n
  {
    if n == 0 then [] else KeysAt(b, at) + AllKeysAt(b, CredentialEnd(b, at), n - 1)
  }

  // ------------------------------------------------------------------ the screens

  ghost predicate ShowsKey(intro: bool, flow: Flow, key: bytes) {
    var k := if intro then 1 else 0;
    && |flow| == k + 2 && (intro ==> flow[0] == Continue("Review", "details"))
    && Titled(flow[k], "Public key") && ShowsHex(flow[k].text, key)
    && flow[k + 1] == Continue("Continue", "with transaction")
  }

  ghost predicate ShowsRemoved(flow: Flow, id: bytes) {
    |flow| == 1 && flow[0].Continue? && flow[0].title == "Rem. credential" && ShowsHex(flow[0].text, id)
  }

  ghost predicate ShowsThreshold(flow: Flow, threshold: bytes) {
    && |flow| == 3 && Titled(flow[0], "Cred. sig. threshold") && ShowsNumber(flow[0].text, threshold)
    && flow[1] == Sign && flow[2] == Decline
  }

  ghost predicate ShowsSender(sha: Sha256, flow: Flow, sender: bytes) {
    && |flow| == 3 && flow[0] == Show("Review", "transaction") && Titled(flow[1], "Sender")
    && ShowsAddress(sha, flow[1].text, sender) && flow[2] == Continue("Continue", "with transaction")
  }

  ghost predicate ShowsKeys(intro: bool, flows: seq<Flow>, keys: seq<bytes>) {
    |flows| == |keys| && forall i | 0 <= i < |keys| :: ShowsKey(intro && i == 0, flows[i], keys[i])
  }

  /** So many removed credentials, from a position on. */
  ghost predicate ShowsIds(flows: seq<Flow>, b: bytes, at: nat) {
    at + 48 * |flows| <= |b| && forall i | 0 <= i < |flows| :: ShowsRemoved(flows[i], b[at + 48 * i..at + 48 * i + 48])
  }

  /** The sender; of every new credential all keys but the last; every removed credential; the new threshold
      and the question to sign.  The introduction comes with the first key when it is due. */
  ghost predicate Shows(sha: Sha256, intro: bool, flows: seq<Flow>, b: bytes)
    requires Format(b)
  {
    var at, keys := CredentialsEnd(b, 62, b[61]), AllKeysAt(b, 62, b[61]);
    && |flows| == 2 + |keys| + b[at]
    && ShowsSender(sha, flows[0], b[..32])
    && ShowsKeys(intro, flows[1..1 + |keys|], keys)
    && ShowsIds(flows[1 + |keys|..|flows| - 1], b, at + 1)
    && ShowsThreshold(flows[|flows| - 1], [b[|b| - 1]])
  }

  // ------------------------------------------------------------------ keys

  lemma KeyStands(before: bytes, k: bytes, keys: seq<bytes>, rest: bytes, i: nat)
    requires |k| == 2 && AllOf(keys, 34) && i < |keys|
    ensures var b, at := before + (k + Flat(keys) + rest), |before| + 34 * i;
            at + 36 <= |b| && b[at + 4..at + 36] == keys[i][2..]
  {
    FlatLength(keys, 34);
    FlatItem(keys, i);
    FlatPart(keys, 34, i);
    hide Flat, AllOf;
    Around(before + k, Flat(keys), rest, 34 * i);
    assert before + (k + Flat(keys) + rest) == before + k + Flat(keys) + rest;
  }

  lemma Around(before: bytes, list: bytes, rest: bytes, k: nat)
    requires k + 34 <= |list|
    ensures var b, at := before + list + rest, |before| + k;
            b[at + 2..at + 34] == list[k..k + 34][2..]
  {
  }

  lemma KeysRead(before: bytes, k: bytes, keys: seq<bytes>, rest: bytes)
    requires |k| == 2 && AllOf(keys, 34) && k[1] == |keys| >= 1
    requires CredentialAt(before + (k + Flat(keys) + rest), |before|)
    ensures KeysAt(before + (k + Flat(keys) + rest), |before|) == Visible(keys[..|keys| - 1])
  {
    hide Flat, CredentialAt;
    var b := before + (k + Flat(keys) + rest);
    assert b[|before| + 1] == k[1];
    var x, y := KeysAt(b, |before|), Visible(keys[..|keys| - 1]);
    forall i | 0 <= i < |keys| - 1
      ensures x[i] == y[i]
    {
      KeyStands(before, k, keys, rest, i);
    }
    assert x == y;
  }

  /** The keys of one credential. */
  lemma KeysStand(before: bytes, c: Credential, rest: bytes)
    requires SignableCredential(c)
    ensures var b := before + (CredentialBytes(c) + rest);
            CredentialAt(b, |before|) && KeysAt(b, |before|) == Visible(c.keys[..|c.keys| - 1])
  {
    hide Flat, Put2, Put4, AttributesBytes, CredentialBytes, CredentialAt, ThresholdFits, Attributes, KeysAt, Visible;
    CredentialStands(before, c, rest);
    var more := Following(c);
    Regroup([c.index, |c.keys|] + Flat(c.keys), more, rest);
    KeysRead(before, [c.index, |c.keys|], c.keys, more + rest);
  }

  /** What stands behind the keys. */
  lemma Following(c: Credential) returns (more: bytes)
    requires SignableCredential(c)
    ensures CredentialBytes(c) == [c.index, |c.keys|] + Flat(c.keys) + more
  {
    hide Flat, Put2, Put4, AttributesBytes, CredentialBytes, ThresholdFits, AllOf, Attributes;
    CredentialIs(c);
    var n, m, p, ars, attributes :=
      Put2(|c.ars|), Put2(|c.attributes|), Put4(|c.proofs|), Flat(c.ars), AttributesBytes(c.attributes);
    more := c.holder + n + ars + c.dates + m + attributes + p + c.proofs;
    Behind([c.index, |c.keys|] + Flat(c.keys), c.holder, n, ars, c.dates, m, attributes, p, c.proofs);
  }

  lemma Behind(k: bytes, a: bytes, b: bytes, c: bytes, d: bytes, e: bytes, f: bytes, g: bytes, h: bytes)
    ensures k + a + b + c + d + e + f + g + h == k + (a + b + c + d + e + f + g + h)
  {
  }

  /** The keys of a credential that are shown. */
  function Front(c: Credential): (r: seq<bytes>)
    requires SignableCredential(c)
    ensures AllOf(r, 34) && r == c.keys[..|c.keys| - 1]
  {
    c.keys[..|c.keys| - 1]
  }

  lemma ShownSnoc(x: seq<Credential>)
    requires Credentials(x) && x != []
    ensures ShownKeys(x) == ShownKeys(x[..|x| - 1]) + Front(x[|x| - 1])
  {
    hide SignableCredential, AllOf;
  }

  lemma {:induction false} ShownCons(x: seq<Credential>)
    requires Credentials(x) && x != []
    ensures ShownKeys(x) == Front(x[0]) + ShownKeys(x[1..])
  {
    var n := |x| - 1;
    ShownSnoc(x);
    if n == 0 {
      assert ShownKeys(x[..0]) == [] && ShownKeys(x[1..]) == [];
      hide SignableCredential, AllOf, Front;
    } else {
      ShownSnoc(x[1..]);
      hide SignableCredential, AllOf, ShownKeys, Front;
      ShownCons(x[..n]);
      assert x[..n][1..] == x[1..][..n - 1];
      Regroup(Front(x[0]), ShownKeys(x[1..][..n - 1]), Front(x[n]));
    }
  }

  lemma VisibleConcat(x: seq<bytes>, y: seq<bytes>)
    requires AllOf(x, 34) && AllOf(y, 34)
    ensures AllOf(x + y, 34) && Visible(x + y) == Visible(x) + Visible(y)
  {
  }

  lemma {:induction false} AllKeysStand(before: bytes, x: seq<Credential>, rest: bytes)
    requires Credentials(x)
    ensures var b := before + (CredentialsBytes(x) + rest);
            CredentialsAt(b, |before|, |x|) && AllKeysAt(b, |before|, |x|) == Visible(ShownKeys(x))
    decreases |x|
  {
    hide CredentialBytes, SignableCredential, ListsFit, CredentialAt, CredentialEnd, KeysAt;
    CredentialsStand(before, x, rest);
    if x != [] {
      CredentialsCons(x);
      ShownCons(x);
      assert SignableCredential(x[0]);
      hide CredentialsBytes, ShownKeys;
      var c, more := CredentialBytes(x[0]), CredentialsBytes(x[1..]);
      KeysStand(before, x[0], more + rest);
      CredentialStands(before, x[0], more + rest);
      AllKeysStand(before + c, x[1..], rest);
      CredentialFormat.Nest(before, c, more, rest);
      VisibleConcat(Front(x[0]), ShownKeys(x[1..]));
      hide Visible;
    }
  }

  // ------------------------------------------------------------------ the flows

  lemma KeyFlowsShow(intro: bool, keys: seq<bytes>)
    requires AllOf(keys, 34)
    ensures ShowsKeys(intro, KeyFlows(intro, keys), Visible(keys))
  {
    hide PagedHex, ReadHex;
    forall i | 0 <= i < |keys|
      ensures ShowsKey(intro && i == 0, KeyFlows(intro, keys)[i], Visible(keys)[i])
    {
      PagedHexRoundTrip(keys[i][2..]);
    }
  }

  lemma IdStands(before: bytes, ids: seq<bytes>, rest: bytes, i: nat)
    requires AllOf(ids, 48) && i < |ids|
    ensures var b, at := before + Flat(ids) + rest, |before| + 48 * i; at + 48 <= |b| && b[at..at + 48] == ids[i]
  {
    FlatLength(ids, 48);
    FlatItem(ids, i);
    FlatPart(ids, 48, i);
    hide Flat, AllOf;
    Inside(before, Flat(ids), rest, 48 * i);
  }

  lemma Inside(before: bytes, list: bytes, rest: bytes, k: nat)
    requires k + 48 <= |list|
    ensures var b, at := before + list + rest, |before| + k;
            b[at..at + 48] == list[k..k + 48]
  {
  }

  lemma IdFlowsShow(before: bytes, ids: seq<bytes>, rest: bytes)
    requires AllOf(ids, 48)
    ensures ShowsIds(IdFlows(ids), before + Flat(ids) + rest, |before|)
  {
    FlatLength(ids, 48);
    hide PagedHex, ReadHex, Flat;
    forall i | 0 <= i < |ids|
      ensures ShowsRemoved(IdFlows(ids)[i], (before + Flat(ids) + rest)[|before| + 48 * i..|before| + 48 * i + 48])
    {
      IdStands(before, ids, rest, i);
      PagedHexRoundTrip(ids[i]);
    }
  }

  lemma OthersShow(sha: Sha256, header: bytes, threshold: byte)
    requires |header| == 61
    ensures ShowsSender(sha, InitialFlow(sha, header), header[..32])
    ensures ShowsThreshold(ThresholdFlow(threshold), [threshold])
  {
    hide AddressChars, ShowsAddress, Dec, Read, Value;
    AddressShown(sha, header[..32]);
    Positional.ValueOfOne(256, threshold);
    NumberShown([threshold]);
  }

  lemma Sliced(s: Flow, keys: seq<Flow>, ids: seq<Flow>, t: Flow)
    ensures var f := [s] + keys + ids + [t];
            && |f| == 2 + |keys| + |ids| && f[0] == s && f[1..1 + |keys|] == keys && f[1 + |keys|..|f| - 1] == ids
            && f[|f| - 1] == t
  {
  }

  lemma TxPositions(tx: Tx)
    requires Signable(tx)
    ensures var b, n := TxBytes(tx), |tx.credentials|;
            && Format(b) && b[61] == n && b[..32] == tx.header[..32] && b[|b| - 1] == tx.threshold
            && b[CredentialsEnd(b, 62, n)] == |tx.ids| && AllKeysAt(b, 62, n) == Visible(ShownKeys(tx.credentials))
            && b == tx.header + [n] + CredentialsBytes(tx.credentials) + [|tx.ids|] + Flat(tx.ids) + [tx.threshold]
            && CredentialsEnd(b, 62, n) + 1 == |tx.header + [n] + CredentialsBytes(tx.credentials) + [|tx.ids|]|
  {
    TxHasFormat(tx);
    hide CredentialsBytes, Credentials, Flat, CredentialsAt, CredentialsEnd, AllKeysAt, ShownKeys, Visible, Format;
    HeadOf(tx.header, |tx.credentials|, CredentialsBytes(tx.credentials), |tx.ids|, Flat(tx.ids), tx.threshold);
    CredentialsStand(tx.header + [|tx.credentials|], tx.credentials, [|tx.ids|] + Flat(tx.ids) + [tx.threshold]);
    AllKeysStand(tx.header + [|tx.credentials|], tx.credentials, [|tx.ids|] + Flat(tx.ids) + [tx.threshold]);
  }

  lemma FlowsShow(sha: Sha256, intro: bool, tx: Tx)
    requires Signable(tx)
    ensures var flows, keys, n := TxFlows(sha, intro, tx), Visible(ShownKeys(tx.credentials)), |tx.ids|;
            && |flows| == 2 + |keys| + n && ShowsSender(sha, flows[0], tx.header[..32])
            && ShowsKeys(intro, flows[1..1 + |keys|], keys) && flows[1 + |keys|..|flows| - 1] == IdFlows(tx.ids)
            && ShowsThreshold(flows[|flows| - 1], [tx.threshold])
  {
    hide Credentials, ShownKeys, Visible, KeyFlows, IdFlows, InitialFlow, ThresholdFlow, ShowsSender, ShowsKeys,
        ShowsThreshold;
    var keys := ShownKeys(tx.credentials);
    OthersShow(sha, tx.header, tx.threshold);
    KeyFlowsShow(intro, keys);
    Counts(intro, keys, tx.ids);
    Sliced(InitialFlow(sha, tx.header), KeyFlows(intro, keys), IdFlows(tx.ids), ThresholdFlow(tx.threshold));
  }

  lemma TxShows(sha: Sha256, intro: bool, tx: Tx)
    requires Signable(tx)
    ensures Format(TxBytes(tx)) && Shows(sha, intro, TxFlows(sha, intro, tx), TxBytes(tx))
  {
    TxPositions(tx);
    IdFlowsShow(tx.header + [|tx.credentials|] + CredentialsBytes(tx.credentials) + [|tx.ids|], tx.ids, [tx.threshold]);
    hide CredentialsBytes, Credentials, Flat, CredentialsEnd, AllKeysAt, ShownKeys, Visible, Format, TxBytes, TxFlows,
        IdFlows, ShowsSender, ShowsKeys, ShowsIds, ShowsThreshold;
    FlowsShow(sha, intro, tx);
  }

  lemma Counts(intro: bool, keys: seq<bytes>, ids: seq<bytes>)
    requires AllOf(keys, 34)
    ensures |KeyFlows(intro, keys)| == |keys| == |Visible(keys)| && |IdFlows(ids)| == |ids|
  {
  }

  /** Whatever packets led to the sign screen: the screens say what the signed bytes are, but for the last key
      of each credential. */
  lemma SignedShows(sha: Sha256, intro: bool, packets: seq<Packet>, b: bytes)
    requires Signs(intro, packets, b)
    ensures var p := Run(Take, Begin(intro), packets).value;
            ProgressOk(p) && Format(b) && Shows(sha, intro, Rendered(sha, p), b)
  {
    hide Take, Run, RunHashed, Signable, TxBytes, TxFlows, Rendered, Shows, Format, ProgressOk;
    CredentialShown.SignedShows(sha, intro, packets);
    SignedBytesAreOneTransaction(intro, packets);
    TxShows(sha, intro, Run(Take, Begin(intro), packets).value.tx);
  }
}
