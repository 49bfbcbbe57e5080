/** Update-credentials transactions byte by byte: which byte strings are signed. */
module CredentialFormat {
  import opened Bytes
  import opened Lists
  import opened Positional
  import opened Device
  import opened DecimalText
  import opened Runs
  import opened CredentialTx
  import opened CredentialUnique
  import BigEndian

  // ------------------------------------------------------------------ the format

  /** Where n attributes end that begin at a position: a tag, a length and a value each.  Behind the end of
      the string there is nothing. */
  function AttributesEnd(b: bytes, at: nat, n: nat): (r: nat)
    decreases n
  {
    if n == 0 then at
    else if at + 2 > |b| then |b| + 1
    else AttributesEnd(b, at + 2 + b[at + 1], n - 1)
  }

  /** Index and keys of 34 bytes after their number; 54 bytes of threshold, registration id, provider and
      revocation threshold; revokers of 100 bytes after their 16-bit number; dates; attributes after their
      16-bit number; proofs behind their 32-bit length. */
  function CredentialEnd(b: bytes, at: nat): (r: nat) {
    var none := |b| + 1;
    if at + 2 > |b| then none
    else
      var holder := at + 2 + 34 * (b[at + 1] as int);
      if holder + 56 > |b| then none
      else
        var dates := holder + 56 + 100 * Value(256, b[holder + 54..holder + 56]);
        if dates + 8 > |b| then none
        else
          var proofs := AttributesEnd(b, dates + 8, Value(256, b[dates + 6..dates + 8]));
          if proofs + 4 > |b| then none else proofs + 4 + Value(256, b[proofs..proofs + 4])
  }

  /** At most four digits in all. */
  predicate FourDigits(threshold: nat, revokers: nat) {
    if threshold < 10 then revokers < 1000 else if threshold < 100 then revokers < 100 else revokers < 10
  }

  /** A credential that is complete has a key and a revoker, and a revocation threshold that can be shown. */
  predicate CredentialAt(b: bytes, at: nat) {
    && CredentialEnd(b, at) <= |b| && at + 2 <= |b|
    && var holder := at + 2 + 34 * (b[at + 1] as int);
       && holder + 56 <= |b| && b[at + 1] >= 1
       && var revokers := Value(256, b[holder + 54..holder + 56]);
          revokers >= 1 && FourDigits(b[holder + 53], revokers)
  }

  function CredentialsEnd(b: bytes, at: nat, n: nat): (r: nat)
    decreases n
  {
    if n == 0 then at else CredentialsEnd(b, CredentialEnd(b, at), n - 1)
  }

  predicate CredentialsAt(b: bytes, at: nat, n: nat)
    decreases n
  {
    n == 0 || (CredentialAt(b, at) && CredentialsAt(b, CredentialEnd(b, at), n - 1))
  }

  /** Header and kind, credentials after their number, removed credentials of 48 bytes after their number, and
      the new threshold. */
  predicate Format(b: bytes) {
    && |b| >= 62 && b[60] == 20 && CredentialsAt(b, 62, b[61])
    && var ids := CredentialsEnd(b, 62, b[61]);
       ids + 1 <= |b| && ids + 1 + 48 * (b[ids] as int) + 1 == |b|
  }

  // ------------------------------------------------------------------ numbers

  lemma DigitsOf(n: u16)
    ensures |Dec(n)| == if n < 10 then 1 else if n < 100 then 2 else if n < 1000 then 3 else if n < 10000 then 4 else 5
  {
    if n >= 10 { assert |Dec(n)| == |Dec(n / 10)| + 1; }
    if n >= 100 { assert |Dec(n / 10)| == |Dec(n / 100)| + 1; }
    if n >= 1000 { assert |Dec(n / 100)| == |Dec(n / 1000)| + 1; }
    if n >= 10000 { assert |Dec(n / 1000)| == |Dec(n / 10000)| + 1; }
  }

  lemma FitsDigits(threshold: byte, revokers: u16)
    ensures ThresholdFits(threshold, revokers) <==> FourDigits(threshold, revokers)
  {
    DigitsOf(threshold);
    DigitsOf(revokers);
    hide Dec;
  }

  // ------------------------------------------------------------------ a transaction has the format

  lemma {:induction false} AttributesStand(before: bytes, x: seq<Attribute>, rest: bytes)
    requires Attributes(x)
    ensures AttributesEnd(before + (AttributesBytes(x) + rest), |before|, |x|) == |before + AttributesBytes(x)|
    decreases |x|
  {
    if x != [] {
      AttributesCons(x);
      hide AttributesBytes;
      var a, more := AttributeBytes(x[0]), AttributesBytes(x[1..]);
      var b := before + (a + more + rest);
      AttributesStand(before + a, x[1..], rest);
      assert b == before + a + (more + rest);
      assert b[|before| + 1] == a[1];
      Regroup(before, a, more);
    }
  }

  /** The parts of a credential. */
  lemma PartsStand(before: bytes, k: bytes, keys: bytes, holder: bytes, c: bytes, ars: bytes, dates: bytes, a: bytes,
                   attributes: bytes, p: bytes, proofs: bytes, rest: bytes)
    requires |k| == 2 && |holder| == 54 && |c| == 2 && |dates| == 6 && |a| == 2 && |p| == 4
    ensures var b := before + (k + keys + holder + c + ars + dates + a + attributes + p + proofs + rest);
            var at := |before|;
            var h := at + 2 + |keys|;
            var d := h + 56 + |ars|;
            var e := d + 8 + |attributes|;
            && |b| == e + 4 + |proofs| + |rest|
            && b[at] == k[0] && b[at + 1] == k[1] && b[h + 53] == holder[53] && b[h + 54..h + 56] == c
            && b[d + 6..d + 8] == a && b[e..e + 4] == p
            && b == (before + k + keys + holder + c + ars + dates + a) + (attributes + (p + proofs + rest))
            && |before + k + keys + holder + c + ars + dates + a| == d + 8
  {
  }

  lemma CredentialIs(c: Credential)
    requires ListsFit(c)
    ensures CredentialBytes(c)
         == [c.index, |c.keys|] + Flat(c.keys) + c.holder + Put2(|c.ars|) + Flat(c.ars) + c.dates
            + Put2(|c.attributes|) + AttributesBytes(c.attributes) + Put4(|c.proofs|) + c.proofs
  {
    hide Flat, Put2, Put4, AttributesBytes;
  }

  lemma EndIs(b: bytes, at: nat, k: nat, h: nat, r: nat, d: nat, a: nat, e: nat, p: nat)
    requires h == at + 2 + 34 * k && d == h + 56 + 100 * r && e + 4 + p <= |b| && d + 8 <= |b|
    requires b[at + 1] == k && Value(256, b[h + 54..h + 56]) == r && Value(256, b[d + 6..d + 8]) == a
    requires AttributesEnd(b, d + 8, a) == e && Value(256, b[e..e + 4]) == p
    ensures CredentialEnd(b, at) == e + 4 + p
    ensures CredentialAt(b, at) <==> k >= 1 && r >= 1 && FourDigits(b[h + 53], r)
  {
    hide Value, AttributesEnd, FourDigits;
  }

  /** Where the counts of a credential stand. */
  ghost predicate Stand(b: bytes, at: nat, c: Credential, h: nat, d: nat, e: nat) {
    && h == at + 2 + 34 * |c.keys| && d == h + 56 + 100 * |c.ars| && d + 8 <= e && e + 4 + |c.proofs| <= |b|
    && |c.holder| == 54 && b[at] == c.index && b[at + 1] == |c.keys| && b[h + 53] == c.holder[53]
    && Value(256, b[h + 54..h + 56]) == |c.ars| && Value(256, b[d + 6..d + 8]) == |c.attributes|
    && AttributesEnd(b, d + 8, |c.attributes|) == e && Value(256, b[e..e + 4]) == |c.proofs|
  }

  lemma PartsOf(before: bytes, c: Credential, rest: bytes)
    requires SignableCredential(c)
    ensures var b, n, m, p := before + (CredentialBytes(c) + rest), Put2(|c.ars|), Put2(|c.attributes|),
        Put4(|c.proofs|);
            var keys, ars, attributes := Flat(c.keys), Flat(c.ars), AttributesBytes(c.attributes);
            var h := |before| + 2 + |keys|;
            var d := h + 56 + |ars|;
            var e := d + 8 + |attributes|;
            var start := before + [c.index, |c.keys|] + keys + c.holder + n + ars + c.dates + m;
            && |b| == e + 4 + |c.proofs| + |rest| && e + 4 + |c.proofs| == |before + CredentialBytes(c)|
            && b[|before|] == c.index && b[|before| + 1] == |c.keys| && b[h + 53] == c.holder[53]
            && b[h + 54..h + 56] == n && b[d + 6..d + 8] == m && b[e..e + 4] == p
            && b == start + (attributes + (p + c.proofs + rest)) && |start| == d + 8
  {
    hide Flat, Put2, Put4, AttributesBytes, CredentialBytes, ThresholdFits, AllOf, Attributes;
    CredentialIs(c);
    PartsStand(before, [c.index, |c.keys|], Flat(c.keys), c.holder, Put2(|c.ars|), Flat(c.ars), c.dates,
               Put2(|c.attributes|), AttributesBytes(c.attributes), Put4(|c.proofs|), c.proofs, rest);
  }

  lemma CountsStand(before: bytes, c: Credential, rest: bytes) returns (h: nat, d: nat, e: nat)
    requires SignableCredential(c)
    ensures var b := before + (CredentialBytes(c) + rest);
            Stand(b, |before|, c, h, d, e) && e + 4 + |c.proofs| == |before + CredentialBytes(c)|
  {
    hide Flat, Put2, Put4, AttributesBytes, CredentialBytes, ThresholdFits, Value, AttributesEnd, AllOf, Attributes;
    var keys, ars, attributes := Flat(c.keys), Flat(c.ars), AttributesBytes(c.attributes);
    h := |before| + 2 + |keys|;
    d := h + 56 + |ars|;
    e := d + 8 + |attributes|;
    FlatLength(c.keys, 34);
    FlatLength(c.ars, 100);
    BigEndian.Wrote2(|c.ars|);
    BigEndian.Wrote2(|c.attributes|);
    BigEndian.Wrote4(|c.proofs|);
    PartsOf(before, c, rest);
    AttributesStand(
        before + [c.index, |c.keys|] + keys + c.holder + Put2(|c.ars|) + ars + c.dates + Put2(|c.attributes|),
        c.attributes, Put4(|c.proofs|) + c.proofs + rest);
  }

  lemma CredentialStands(before: bytes, c: Credential, rest: bytes)
    requires SignableCredential(c)
    ensures var b := before + (CredentialBytes(c) + rest);
            CredentialAt(b, |before|) && CredentialEnd(b, |before|) == |before + CredentialBytes(c)|
  {
    hide CredentialBytes, ThresholdFits, FourDigits, Value, AttributesEnd, AllOf, CredentialEnd, CredentialAt,
        Attributes;
    var h, d, e := CountsStand(before, c, rest);
    FitsDigits(c.holder[53], |c.ars|);
    EndIs(before + (CredentialBytes(c) + rest), |before|, |c.keys|, h, |c.ars|, d, |c.attributes|, e, |c.proofs|);
  }

  lemma {:induction false} CredentialsStand(before: bytes, x: seq<Credential>, rest: bytes)
    requires Credentials(x)
    ensures var b := before + (CredentialsBytes(x) + rest);
            CredentialsAt(b, |before|, |x|) && CredentialsEnd(b, |before|, |x|) == |before + CredentialsBytes(x)|
    decreases |x|
  {
    hide CredentialBytes, SignableCredential, ListsFit, CredentialAt, CredentialEnd;
    if x != [] {
      CredentialsCons(x);
      assert SignableCredential(x[0]);
      hide CredentialsBytes;
      var c, more := CredentialBytes(x[0]), CredentialsBytes(x[1..]);
      var b := before + (c + more + rest);
      CredentialStands(before, x[0], more + rest);
      CredentialsStand(before + c, x[1..], rest);
      Nest(before, c, more, rest);
    }
  }

  lemma Nest(a: bytes, b: bytes, c: bytes, d: bytes)
    ensures a + (b + c + d) == a + (b + (c + d)) == a + b + (c + d) && a + b + c == a + (b + c)
  {
  }

  lemma HeadOf(header: bytes, n: byte, credentials: bytes, m: byte, ids: bytes, threshold: byte)
    requires |header| == 61
    ensures var b, at := header + [n] + credentials + [m] + ids + [threshold], 62 + |credentials|;
            && b == (header + [n]) + (credentials + ([m] + ids + [threshold])) && |header + [n]| == 62
            && |header + [n] + credentials| == at
            && |b| == at + 1 + |ids| + 1 && b[60] == header[60] && b[61] == n && b[at] == m && b[|b| - 1] == threshold
            && b[..32] == header[..32] && b[at + 1..|b| - 1] == ids
  {
  }

  lemma TxHasFormat(tx: Tx)
    requires Signable(tx)
    ensures Format(TxBytes(tx))
  {
    hide CredentialsBytes, Credentials, Flat, CredentialsAt, CredentialsEnd;
    HeadOf(tx.header, |tx.credentials|, CredentialsBytes(tx.credentials), |tx.ids|, Flat(tx.ids), tx.threshold);
    FlatLength(tx.ids, 48);
    CredentialsStand(tx.header + [|tx.credentials|], tx.credentials, [|tx.ids|] + Flat(tx.ids) + [tx.threshold]);
  }

  // ------------------------------------------------------------------ the format is that of a transaction

  lemma {:induction false} AttributesForward(b: bytes, at: nat, n: nat)
    requires at <= |b|
    ensures at <= AttributesEnd(b, at, n)
    decreases n
  {
    if n > 0 && at + 2 <= |b| {
      if at + 2 + b[at + 1] <= |b| { AttributesForward(b, at + 2 + b[at + 1], n - 1); }
      else { AttributesBeyond(b, at + 2 + b[at + 1], n - 1); }
    }
  }

  lemma AttributesBeyond(b: bytes, at: nat, n: nat)
    requires at > |b|
    ensures AttributesEnd(b, at, n) > |b|
  {
  }

  lemma {:induction false} ReadAttributes(b: bytes, at: nat, n: nat) returns (x: seq<Attribute>)
    requires at <= |b| && AttributesEnd(b, at, n) <= |b|
    ensures at <= AttributesEnd(b, at, n)
    ensures Attributes(x) && |x| == n && AttributesBytes(x) == b[at..AttributesEnd(b, at, n)]
    decreases n
  {
    AttributesForward(b, at, n);
    if n == 0 {
      x := [];
    } else {
      var next := at + 2 + b[at + 1];
      var a := Attribute(b[at], b[at + 2..next]);
      var rest := ReadAttributes(b, next, n - 1);
      x := [a] + rest;
      assert x[1..] == rest;
      AttributesCons(x);
      assert [b[at], b[at + 1]] + b[at + 2..next] == b[at..next];
      assert b[at..next] + b[next..AttributesEnd(b, at, n)] == b[at..AttributesEnd(b, at, n)];
    }
  }

  /** The positions within a credential. */
  lemma Positions(b: bytes, at: nat) returns (h: nat, d: nat, e: nat)
    requires CredentialAt(b, at)
    ensures at + 2 <= h && h == at + 2 + 34 * (b[at + 1] as int) && b[at + 1] >= 1 && h + 56 <= d && d + 8 <= e
    ensures e + 4 <= CredentialEnd(b, at) <= |b|
    ensures d == h + 56 + 100 * Value(256, b[h + 54..h + 56]) && Value(256, b[h + 54..h + 56]) >= 1
    ensures FourDigits(b[h + 53], Value(256, b[h + 54..h + 56]))
    ensures e == AttributesEnd(b, d + 8, Value(256, b[d + 6..d + 8]))
    ensures CredentialEnd(b, at) == e + 4 + Value(256, b[e..e + 4])
  {
    h := at + 2 + 34 * (b[at + 1] as int);
    d := h + 56 + 100 * Value(256, b[h + 54..h + 56]);
    hide Value, FourDigits, AttributesEnd;
    e := AttributesEnd(b, d + 8, Value(256, b[d + 6..d + 8]));
    AttributesForward(b, d + 8, Value(256, b[d + 6..d + 8]));
  }

  lemma CredentialParts(b: bytes, at: nat, h: nat, d: nat, e: nat, end: nat)
    requires at + 2 <= h && h + 56 <= d && d + 8 <= e && e + 4 <= end <= |b|
    ensures [b[at], b[at + 1]] + b[at + 2..h] + b[h..h + 54] + b[h + 54..h + 56] + b[h + 56..d] + b[d..d + 6]
        + b[d + 6..d + 8]
            + b[d + 8..e] + b[e..e + 4] + b[e + 4..end]
         == b[at..end]
  {
  }

  lemma ReadCredential(b: bytes, at: nat) returns (c: Credential)
    requires CredentialAt(b, at)
    ensures SignableCredential(c) && at <= CredentialEnd(b, at) && CredentialBytes(c) == b[at..CredentialEnd(b, at)]
  {
    hide CredentialAt, CredentialEnd, AttributesEnd, FourDigits, Value, U2BE, U4BE, Put2, Put4, Flat, AttributesBytes,
        CredentialBytes, ThresholdFits, AllOf, Attributes;
    var h, d, e := Positions(b, at);
    var end := CredentialEnd(b, at);
    BigEndian.Read2(b, h + 54);
    BigEndian.Read2(b, d + 6);
    BigEndian.Read4(b, e);
    var ars: nat, count: nat := U2BE(b, h + 54), U2BE(b, d + 6);
    Put2Get2(b, h + 54);
    Put2Get2(b, d + 6);
    Put4Get4(b, e);
    var keys := CutEvenly(b[at + 2..h], 34, b[at + 1]);
    var revokers := CutEvenly(b[h + 56..d], 100, ars);
    var attributes := ReadAttributes(b, d + 8, count);
    c := Credential(b[at], keys, b[h..h + 54], revokers, b[d..d + 6], attributes, b[e + 4..end]);
    FitsDigits(b[h + 53], ars);
    assert c.holder[53] == b[h + 53];
    CredentialIs(c);
    CredentialParts(b, at, h, d, e, end);
  }

  lemma {:induction false} ReadCredentials(b: bytes, at: nat, n: nat) returns (x: seq<Credential>)
    requires at <= |b| && CredentialsAt(b, at, n)
    ensures at <= CredentialsEnd(b, at, n) <= |b|
    ensures Credentials(x) && |x| == n && CredentialsBytes(x) == b[at..CredentialsEnd(b, at, n)]
    decreases n
  {
    hide CredentialEnd, SignableCredential, ListsFit, CredentialBytes;
    if n == 0 {
      x := [];
    } else {
      var c := ReadCredential(b, at);
      var next := CredentialEnd(b, at);
      hide CredentialAt;
      var rest := ReadCredentials(b, next, n - 1);
      x := [c] + rest;
      assert x[1..] == rest;
      CredentialsCons(x);
      assert b[at..next] + b[next..CredentialsEnd(b, at, n)] == b[at..CredentialsEnd(b, at, n)];
    }
  }

  lemma FormatOfTx(b: bytes) returns (tx: Tx)
    requires Format(b)
    ensures Signable(tx) && TxBytes(tx) == b
  {
    hide CredentialsAt, CredentialsEnd, CredentialsBytes, Credentials, Flat;
    var at := CredentialsEnd(b, 62, b[61]);
    var credentials := ReadCredentials(b, 62, b[61]);
    var ids := CutEvenly(b[at + 1..|b| - 1], 48, b[at]);
    tx := Tx(b[..61], credentials, ids, b[|b| - 1]);
    assert b[..61] + [b[61]] + b[62..at] + [b[at]] + b[at + 1..|b| - 1] + [b[|b| - 1]] == b;
  }

  /** A byte string can be brought to the sign screen of update-credentials if and only if it has the format. */
  lemma SignedFormat(b: bytes, intro: bool)
    ensures (exists packets: seq<Packet> :: Signs(intro, packets, b)) <==> Format(b)
  {
    hide Signs, Signable, TxBytes, Format;
    SignedStrings(b, intro);
    if tx: Tx :| Signable(tx) && TxBytes(tx) == b {
      TxHasFormat(tx);
    }
    if Format(b) {
      var tx := FormatOfTx(b);
      assert Signable(tx) && TxBytes(tx) == b;
    }
  }
}
