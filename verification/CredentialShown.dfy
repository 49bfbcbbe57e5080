/** What the screens of an update-credentials transaction say about what is signed. */
module CredentialShown {
  import opened Bytes
  import opened Lists
  import opened Device
  import opened Runs
  import opened DecimalText
  import opened PaginatedHex
  import opened CredentialTx
  import opened SignCredentialDeployment
  import CredentialUnique

  // ------------------------------------------------------------------ whole runs

  ghost predicate Invariant(p: Progress) {
    ProgressOk(p) && ShownOk(p)
  }

  /** In every run the keys shown by the time of the sign screen are all but the last one of each
      credential. */
  lemma {:induction false} RunShows(intro: bool, packets: seq<Packet>)
    requires Run(Take, Begin(intro), packets).Ok?
    ensures Invariant(Run(Take, Begin(intro), packets).value) && Run(Take, Begin(intro), packets).value.intro == intro
  {
    if packets == [] {
      BeginOk(intro);
    } else {
      var before, packet := packets[..|packets| - 1], packets[|packets| - 1];
      RunShows(intro, before);
      var p := Run(Take, Begin(intro), before).value;
      hide Run, Accept, ProgressOk, ShownOk;
      KeysShown(p, packet);
      SameIntro(p, packet);
    }
  }

  lemma SameIntro(p: Progress, packet: Packet)
    requires !p.stage.Done? && Accept(p, packet).Ok?
    ensures Accept(p, packet).value.intro == p.intro
  {
    hide AcceptPart;
  }

  /** The screens of a transaction. */
  ghost function TxFlows(sha: Sha256, intro: bool, tx: Tx): (r: seq<Flow>)
    requires Signable(tx)
  {
    [InitialFlow(sha, tx.header)] + KeyFlows(intro, ShownKeys(tx.credentials)) + IdFlows(tx.ids)
    + [ThresholdFlow(tx.threshold)]
  }

  lemma SignedShows(sha: Sha256, intro: bool, packets: seq<Packet>)
    requires Run(Take, Begin(intro), packets).Ok? && Run(Take, Begin(intro), packets).value.stage.Done?
    ensures var p := Run(Take, Begin(intro), packets).value;
            && ProgressOk(p) && Signable(p.tx) && p.shown == ShownKeys(p.tx.credentials)
            && Rendered(sha, p) == TxFlows(sha, intro, p.tx)
  {
    RunShows(intro, packets);
    var p := Run(Take, Begin(intro), packets).value;
    hide Run, SignableCredential;
    DoneOk(p);
    assert ShownKeys(p.tx.credentials) + [] == ShownKeys(p.tx.credentials);
  }

  // ------------------------------------------------------------------ which keys are not shown

  function AllKeys(cs: seq<Credential>): (r: seq<bytes>) {
    if cs == [] then [] else AllKeys(cs[..|cs| - 1]) + cs[|cs| - 1].keys
  }

  /** One key of each credential is missing. */
  lemma {:induction false} MissingKeys(cs: seq<Credential>)
    requires Credentials(cs)
    ensures |ShownKeys(cs)| + |cs| == |AllKeys(cs)|
  {
    if cs != [] { MissingKeys(cs[..|cs| - 1]); }
  }

  /** All hashed keys are shown if and only if there is no credential. */
  lemma AllKeysShown(cs: seq<Credential>)
    requires Credentials(cs)
    ensures ShownKeys(cs) == AllKeys(cs) <==> cs == []
  {
    MissingKeys(cs);
    if cs == [] { assert ShownKeys(cs) == [] == AllKeys(cs); }
  }

  // ------------------------------------------------------------------ what the screens determine

  /** A key is shown without its index and scheme. */
  function Visible(keys: seq<bytes>): (r: seq<bytes>)
    requires AllOf(keys, 34)
  {
    seq(|keys|, i requires 0 <= i < |keys| => keys[i][2..])
  }

  lemma KeyFlowsSame(intro: bool, x: seq<bytes>, y: seq<bytes>)
    requires AllOf(x, 34) && AllOf(y, 34)
    ensures KeyFlows(intro, x) == KeyFlows(intro, y) <==> Visible(x) == Visible(y)
  {
    var f, g := KeyFlows(intro, x), KeyFlows(intro, y);
    hide PagedHex;
    if f == g {
      assert |x| == |f| == |g| == |y|;
      forall i | 0 <= i < |x|
        ensures Visible(x)[i] == Visible(y)[i]
      {
        assert f[i] == g[i];
        var k := if intro && i == 0 then 1 else 0;
        assert f[i][k] == Show("Public key", PagedHex(x[i][2..])) && g[i][k] == Show("Public key", PagedHex(y[i][2..]));
        PagedHexInjective(x[i][2..], y[i][2..]);
      }
    }
    if Visible(x) == Visible(y) {
      assert |x| == |Visible(x)| == |Visible(y)| == |y|;
      forall i | 0 <= i < |x|
        ensures f[i] == g[i]
      {
        assert Visible(x)[i] == Visible(y)[i];
      }
      assert f == g;
    }
  }

  lemma IdFlowsSame(x: seq<bytes>, y: seq<bytes>)
    requires IdFlows(x) == IdFlows(y)
    ensures x == y
  {
    hide PagedHex;
    assert |x| == |IdFlows(x)| == |IdFlows(y)| == |y|;
    forall i | 0 <= i < |x|
      ensures x[i] == y[i]
    {
      assert IdFlows(x)[i] == IdFlows(y)[i];
      assert IdFlow(x[i])[0] == IdFlow(y[i])[0];
      PagedHexInjective(x[i], y[i]);
    }
  }

  /** A screen of a key is no screen of a removed credential, nor of the threshold. */
  lemma KeyFlowDiffers(intro: bool, key: bytes, id: bytes, threshold: byte)
    requires |key| == 34
    ensures KeyFlow(intro, key) != IdFlow(id) && KeyFlow(intro, key) != ThresholdFlow(threshold)
  {
    hide PagedHex, Dec;
    assert KeyFlow(intro, key)[0] != IdFlow(id)[0] && KeyFlow(intro, key)[0] != ThresholdFlow(threshold)[0];
  }

  /** The screens after the first one: with more keys they are different. */
  lemma MoreKeys(intro: bool, x: seq<bytes>, ids: seq<bytes>, t: byte, y: seq<bytes>, ids': seq<bytes>, t': byte)
    requires AllOf(x, 34) && AllOf(y, 34) && |x| < |y|
    ensures KeyFlows(intro, x) + IdFlows(ids) + [ThresholdFlow(t)]
         != KeyFlows(intro, y) + IdFlows(ids') + [ThresholdFlow(t')]
  {
    var i := |x|;
    var id := if ids == [] then [] else ids[0];
    KeyFlowDiffers(intro && i == 0, y[i], id, t);
    hide KeyFlow, IdFlow, ThresholdFlow;
    var f, g := KeyFlows(intro, x) + IdFlows(ids) + [ThresholdFlow(t)],
                KeyFlows(intro, y) + IdFlows(ids') + [ThresholdFlow(t')];
    assert g[i] == KeyFlow(intro && i == 0, y[i]);
    assert f[i] == if ids == [] then ThresholdFlow(t) else IdFlow(id);
  }

  lemma SameCount(intro: bool, x: seq<bytes>, ids: seq<bytes>, t: byte, y: seq<bytes>, ids': seq<bytes>, t': byte)
    requires AllOf(x, 34) && AllOf(y, 34)
    requires KeyFlows(intro, x) + IdFlows(ids) + [ThresholdFlow(t)]
          == KeyFlows(intro, y) + IdFlows(ids') + [ThresholdFlow(t')]
    ensures |x| == |y|
  {
    hide KeyFlows, IdFlows, ThresholdFlow;
    if |x| < |y| {
      MoreKeys(intro, x, ids, t, y, ids', t');
    } else if |y| < |x| {
      MoreKeys(intro, y, ids', t', x, ids, t);
    }
  }

  lemma FirstFlowSame(sha: Sha256, h: bytes, k: bytes)
    requires |h| == |k| == 61
    ensures InitialFlow(sha, h) == InitialFlow(sha, k) <==> h[..32] == k[..32]
  {
    hide AddressChars;
    if InitialFlow(sha, h) == InitialFlow(sha, k) {
      assert InitialFlow(sha, h)[1] == InitialFlow(sha, k)[1];
      AddressCharsInjective(sha, h[..32], k[..32]);
    }
  }

  lemma ThresholdSame(t: byte, u: byte)
    requires ThresholdFlow(t) == ThresholdFlow(u)
    ensures t == u
  {
    hide Dec;
    assert ThresholdFlow(t)[0] == ThresholdFlow(u)[0];
    DecInjective(t, u);
  }

  /** Two transactions have the same screens if and only if they have the same sender, shown keys,
      removed credentials and threshold. */
  lemma ShownDetermines(sha: Sha256, intro: bool, tx: Tx, ty: Tx)
    requires Signable(tx) && Signable(ty)
    ensures TxFlows(sha, intro, tx) == TxFlows(sha, intro, ty) <==>
      && tx.header[..32] == ty.header[..32] && Visible(ShownKeys(tx.credentials)) == Visible(ShownKeys(ty.credentials))
      && tx.ids == ty.ids && tx.threshold == ty.threshold
  {
    var x, y := ShownKeys(tx.credentials), ShownKeys(ty.credentials);
    FirstFlowSame(sha, tx.header, ty.header);
    KeyFlowsSame(intro, x, y);
    hide InitialFlow, SignableCredential, ShownKeys, KeyFlow, IdFlow, ThresholdFlow, Visible;
    var f, g := KeyFlows(intro, x) + IdFlows(tx.ids) + [ThresholdFlow(tx.threshold)],
                KeyFlows(intro, y) + IdFlows(ty.ids) + [ThresholdFlow(ty.threshold)];
    assert TxFlows(sha, intro, tx) == [InitialFlow(sha, tx.header)] + f;
    assert TxFlows(sha, intro, ty) == [InitialFlow(sha, ty.header)] + g;
    if TxFlows(sha, intro, tx) == TxFlows(sha, intro, ty) {
      Split([InitialFlow(sha, tx.header)], [InitialFlow(sha, ty.header)], f, g);
      assert [InitialFlow(sha, tx.header)][0] == [InitialFlow(sha, ty.header)][0];
      SameCount(intro, x, tx.ids, tx.threshold, y, ty.ids, ty.threshold);
      Regroup(KeyFlows(intro, x), IdFlows(tx.ids), [ThresholdFlow(tx.threshold)]);
      Regroup(KeyFlows(intro, y), IdFlows(ty.ids), [ThresholdFlow(ty.threshold)]);
      assert |KeyFlows(intro, x)| == |x| == |y| == |KeyFlows(intro, y)|;
      Split(KeyFlows(intro, x), KeyFlows(intro, y),
            IdFlows(tx.ids) + [ThresholdFlow(tx.threshold)], IdFlows(ty.ids) + [ThresholdFlow(ty.threshold)]);
      assert |IdFlows(tx.ids)| == |IdFlows(ty.ids)|;
      Split(IdFlows(tx.ids), IdFlows(ty.ids), [ThresholdFlow(tx.threshold)], [ThresholdFlow(ty.threshold)]);
      assert [ThresholdFlow(tx.threshold)][0] == [ThresholdFlow(ty.threshold)][0];
      IdFlowsSame(tx.ids, ty.ids);
      ThresholdSame(tx.threshold, ty.threshold);
    }
  }

  // ------------------------------------------------------------------ a key that is signed unseen

  /** Another last key in the i-th credential. */
  function WithLastKey(tx: Tx, i: nat, key: bytes): (r: Tx)
    requires i < |tx.credentials| && tx.credentials[i].keys != []
  {
    var c := tx.credentials[i];
    tx.(credentials := tx.credentials[i := c.(keys := c.keys[..|c.keys| - 1] + [key])])
  }

  lemma {:induction false} SameShownKeys(cs: seq<Credential>, i: nat, c: Credential)
    requires Credentials(cs) && i < |cs| && SignableCredential(c)
    requires c.keys[..|c.keys| - 1] == cs[i].keys[..|cs[i].keys| - 1]
    ensures Credentials(cs[i := c]) && ShownKeys(cs[i := c]) == ShownKeys(cs)
  {
    hide SignableCredential;
    var n := |cs| - 1;
    if i < n {
      SameShownKeys(cs[..n], i, c);
      assert cs[i := c][..n] == cs[..n][i := c];
    } else {
      assert cs[i := c][..n] == cs[..n];
    }
  }

  /** Replacing the last key of any credential changes no screen, but it changes the signed bytes. */
  lemma LastKeyUnseen(sha: Sha256, intro: bool, tx: Tx, i: nat, key: bytes)
    requires Signable(tx) && i < |tx.credentials| && |key| == 34
    requires tx.credentials[i].keys[|tx.credentials[i].keys| - 1] != key
    ensures var ty := WithLastKey(tx, i, key);
            Signable(ty) && TxFlows(sha, intro, ty) == TxFlows(sha, intro, tx) && TxBytes(ty) != TxBytes(tx)
  {
    var cs, c := tx.credentials, tx.credentials[i];
    var ty := WithLastKey(tx, i, key);
    var c' := ty.credentials[i];
    assert SignableCredential(c');
    assert c'.keys[..|c'.keys| - 1] == c.keys[..|c.keys| - 1];
    assert c'.keys[|c'.keys| - 1] == key;
    SameShownKeys(cs, i, c');
    assert ty.credentials == cs[i := c'];
    hide ShownKeys, TxBytes, KeyFlows, IdFlows, InitialFlow, ThresholdFlow, SignableCredential;
    if TxBytes(ty) == TxBytes(tx) {
      CredentialUnique.TxBytesInjective(ty, tx);
    }
  }
}
