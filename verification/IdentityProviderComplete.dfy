/** Every well-formed add-identity-provider update can be signed, and can be read in one way. */
module IdentityProviderComplete {
  import opened Bytes
  import opened Lists
  import opened Device
  import opened Runs
  import opened IdentityProviderTx
  import opened IdentityProviderRuns

  function Send(p1: byte, b: bytes): (r: Event)
    requires |b| <= 255
  {
    Host(Packet(p1, 0, Pad(b), |b|))
  }

  // ------------------------------------------------------------------ descriptions

  /** p is at the start of a description: all pieces from the k-th on, each confirmed. */
  lemma {:induction false} SendPieces(p: Progress, t: bytes, pieces: seq<bytes>, k: nat) returns (events: seq<Event>)
    requires |p.parts| < 3 && |t| < U32 && Flat(pieces) == t && Chunks(pieces)
    requires k < |pieces| && pieces[|pieces| - 1] != []
    ensures Run(Take, p.(length := |t|, pieces := pieces[..k], stage := Text), events)
         == Ok(Completed(p.(length := |t|, pieces := pieces)))
    decreases |pieces| - k
  {
    var end := Completed(p.(length := |t|, pieces := pieces));
    var before := p.(length := |t|, pieces := pieces[..k], stage := Text);
    var shown := before.(pieces := pieces[..k + 1], stage := TextShown);
    var e := Send(P1_DESCRIPTION, pieces[k]);
    Prefixes(pieces, k);
    hide Flat;
    assert Take(before, e) == Ok(shown);
    One(Take, before, e);
    One(Take, shown, Confirm);
    if k + 1 == |pieces| {
      assert pieces[..k + 1] == pieces;
      Both(Take, before, [e], shown, [Confirm], end);
      events := [e] + [Confirm];
    } else {
      var after := before.(pieces := pieces[..k + 1]);
      var rest := SendPieces(p, t, pieces, k + 1);
      Both(Take, before, [e], shown, [Confirm], after);
      Both(Take, before, [e] + [Confirm], after, rest, end);
      events := [e] + [Confirm] + rest;
    }
  }

  function Finished(p: Progress, t: bytes): (r: Progress) {
    Completed(p.(pieces := Cut(t)))
  }

  lemma SendText(p: Progress, t: bytes) returns (events: seq<Event>)
    requires p.stage.Length? && p.pieces == [] && p.length == 0 && |p.parts| < 3 && |t| < U32
    ensures Run(Take, p, events) == Ok(Finished(p, t))
  {
    var b := Put4(|t|);
    var e := Send(P1_DESCRIPTION_LENGTH, b);
    ReadPut4(|t|);
    One(Take, p, e);
    CutFlat(t);
    if t == [] {
      events := [e];
    } else {
      var text := p.(length := |t|, stage := Text);
      var pieces := Cut(t);
      assert pieces[..0] == [];
      var rest := SendPieces(p, t, pieces, 0);
      Both(Take, p, [e], text, rest, Finished(p, t));
      events := [e] + rest;
    }
  }

  // ------------------------------------------------------------------ the verify key

  /** Where the last piece of n bytes starts: not where the device would take what comes before for a
      key of total bytes (modulo 2^32). */
  function LastPiece(n: nat, total: nat): (r: nat)
    requires n > 0
    ensures n - 255 <= r < n
  {
    if n <= 255 then 0 else if (n - 255 - total) % U32 == 0 then n - 254 else n - 255
  }

  lemma LastPieceAvoids(n: nat, total: nat)
    requires n > 0
    ensures LastPiece(n, total) > 0 ==> (LastPiece(n, total) - total) % U32 != 0
  {
  }

  function KeyPieces(b: bytes, total: nat): (r: seq<bytes>) {
    if b == [] then []
    else
      var at := LastPiece(|b|, total);
      KeyPieces(b[..at], total) + [b[at..]]
  }

  ghost predicate Avoids(ks: seq<bytes>, total: nat) {
    forall k | 0 < k < |ks| :: (|Flat(ks[..k])| - total) % U32 != 0
  }

  lemma {:induction false} KeyPiecesAvoid(b: bytes, total: nat)
    ensures var ks := KeyPieces(b, total);
            Chunks(ks) && Flat(ks) == b && (ks == [] <==> b == []) && Avoids(ks, total)
  {
    if b != [] {
      var at := LastPiece(|b|, total);
      var before := KeyPieces(b[..at], total);
      KeyPiecesAvoid(b[..at], total);
      FlatAppend(before, b[at..]);
      assert b[..at] + b[at..] == b;
      LastPieceAvoids(|b|, total);
      hide LastPiece, KeyPieces, Flat;
      AvoidsAppend(before, b[at..], total);
    }
  }

  lemma AvoidsAppend(ks: seq<bytes>, last: bytes, total: nat)
    requires Avoids(ks, total) && (ks != [] ==> (|Flat(ks)| - total) % U32 != 0)
    ensures Avoids(ks + [last], total)
  {
    hide Flat;
    forall k | 0 < k < |ks| + 1
      ensures (|Flat((ks + [last])[..k])| - total) % U32 != 0
    {
      assert (ks + [last])[..k] == ks[..k];
      if k == |ks| {
        assert ks[..k] == ks;
      }
    }
  }

  ghost predicate Ends(p: Progress, key: bytes) {
    Left(p.(key := key)) == CDI_VERIFY_KEY_LENGTH
  }

  /** The key is complete where its length agrees with the announced one modulo 2^32. */
  lemma EndsWhere(p: Progress, key: bytes, part: bytes)
    requires p.cdi == [] && Ends(p, key)
    ensures Ends(p, part) <==> (|part| - |key|) % U32 == 0
  {
    var rest := p.declared - |Payload(p.(key := []))|;
    assert |Payload(p.(key := key))| == |Payload(p.(key := []))| + |key|;
    assert |Payload(p.(key := part))| == |Payload(p.(key := []))| + |part|;
    Residues(rest, |key|, |part|);
  }

  lemma Residues(n: int, a: nat, b: nat)
    requires (n - a) % U32 == 32
    ensures (n - b) % U32 == 32 <==> (b - a) % U32 == 0
  {
  }

  lemma {:induction false} SendKeyPieces(p: Progress, key: bytes, ks: seq<bytes>, k: nat) returns (events: seq<Event>)
    requires p.stage.Key? && p.cdi == [] && Ends(p, key)
    requires Chunks(ks) && Flat(ks) == key && k < |ks|
    requires Avoids(ks, |key|)
    ensures Run(Take, p.(key := Flat(ks[..k])), events) == Ok(p.(key := key, stage := Cdi))
    decreases |ks| - k
  {
    var e := Send(P1_VERIFY_KEY, ks[k]);
    var before, part := p.(key := Flat(ks[..k])), Flat(ks[..k + 1]);
    FlatAppend(ks[..k], ks[k]);
    assert ks[..k] + [ks[k]] == ks[..k + 1];
    hide Flat;
    EndsWhere(p, key, part);
    One(Take, before, e);
    if k + 1 == |ks| {
      assert ks[..k + 1] == ks;
      events := [e];
    } else {
      hide Left;
      assert Take(before, e) == Ok(p.(key := part));
      var rest := SendKeyPieces(p, key, ks, k + 1);
      Both(Take, before, [e], p.(key := part), rest, p.(key := key, stage := Cdi));
      events := [e] + rest;
    }
  }

  lemma SendKey(p: Progress, key: bytes) returns (events: seq<Event>)
    requires p.stage.Key? && p.key == [] && p.cdi == [] && Ends(p, key)
    ensures Run(Take, p, events) == Ok(p.(key := key, stage := Cdi))
  {
    var ks: seq<bytes> := if key == [] then [[]] else KeyPieces(key, |key|);
    KeyPiecesAvoid(key, |key|);
    assert Flat([]) == [] && ks[..0] == [];
    assert key == [] ==> Flat(ks) == [] by { FlatAppend([], []); }
    events := SendKeyPieces(p, key, ks, 0);
  }

  // ------------------------------------------------------------------ all of it

  lemma SendStart(u: Update) returns (e: Event)
    requires WellFormed(u)
    ensures Take(BEGIN, e) == Ok(BEGIN.(header := u.header, declared := u.declared, ip := u.ip, stage := Length))
  {
    hide PayloadBytes, NumberFits;
    var b := [0] + u.header + Put4(u.declared) + u.ip;
    var data := Pad(b);
    assert data[..38] == b;
    assert data[0] == data[..38][0] && data[29] == data[..38][29];
    assert data[1..30] == data[..38][1..30] == u.header;
    assert data[30..34] == data[..38][30..34] == Put4(u.declared) && data[34..38] == data[..38][34..38] == u.ip;
    Put4Get4(data, 30);
    Put4Injective(U4BE(data, 30), u.declared);
    e := Host(Packet(P1_INITIAL, 0, data, 38));
  }

  lemma SendCdi(p: Progress, cdi: bytes) returns (e: Event)
    requires ProgressOk(p) && p.stage.Cdi? && |cdi| == 32
    ensures Take(p, e) == Ok(p.(cdi := cdi, stage := Done))
  {
    e := Send(P1_CDI_VERIFY_KEY, cdi);
    LengthCheckNeverFails(p, e.packet);
  }

  /** The state when the descriptions have been received. */
  function AtKey(u: Update): (r: Progress) {
    BEGIN.(header := u.header, declared := u.declared, ip := u.ip,
           parts := [Cut(u.name), Cut(u.url), Cut(u.description)], stage := Key)
  }

  lemma SendTexts(u: Update) returns (events: seq<Event>)
    requires WellFormed(u)
    ensures Run(Take, BEGIN, events) == Ok(AtKey(u))
  {
    hide Take, PayloadBytes, NumberFits;
    var e := SendStart(u);
    One(Take, BEGIN, e);
    var p0 := BEGIN.(header := u.header, declared := u.declared, ip := u.ip, stage := Length);
    var p1 := Finished(p0, u.name);
    var p2 := Finished(p1, u.url);
    var xs := SendText(p0, u.name);
    var ys := SendText(p1, u.url);
    var zs := SendText(p2, u.description);
    hide Run;
    Both(Take, BEGIN, [e], p0, xs, p1);
    Both(Take, BEGIN, [e] + xs, p1, ys, p2);
    hide Cut;
    assert AtKey(u).parts == [] + [Cut(u.name)] + [Cut(u.url)] + [Cut(u.description)];
    Both(Take, BEGIN, [e] + xs + ys, p2, zs, AtKey(u));
    events := [e] + xs + ys + zs;
  }

  lemma PartCut(t: bytes)
    requires |t| < U32
    ensures Part(Cut(t)) == TextBytes(t) && |Flat(Cut(t))| < U32 && Flat(Cut(t)) == t
  {
    CutFlat(t);
  }

  lemma AtKeyBytes(u: Update)
    requires WellFormed(u)
    ensures PayloadBytes(u) == Payload(AtKey(u).(key := u.key)) + u.cdi
  {
    PartCut(u.name);
    PartCut(u.url);
    PartCut(u.description);
    PartsBytesThree(AtKey(u).parts);
    hide NumberFits, Cut, Flat, PartsBytes, Part, TextBytes;
    var start := u.ip + TextBytes(u.name) + TextBytes(u.url) + TextBytes(u.description);
    LayOut(u.ip, TextBytes(u.name), TextBytes(u.url), TextBytes(u.description), u.key, []);
    assert start + u.key + [] == start + u.key;
  }

  lemma AtKeyHead(u: Update)
    requires WellFormed(u)
    ensures HeadOk(AtKey(u)) && Received(AtKey(u).(key := u.key, cdi := u.cdi)) == u
  {
    hide NumberFits, Cut, Flat, PayloadBytes, Part, TextBytes;
    PartCut(u.name);
    PartCut(u.url);
    PartCut(u.description);
    CutFlat(u.name);
    CutFlat(u.url);
    CutFlat(u.description);
  }

  lemma AtKeyEnds(u: Update)
    requires WellFormed(u)
    ensures ProgressOk(AtKey(u)) && Ends(AtKey(u), u.key) && ProgressOk(AtKey(u).(key := u.key, stage := Cdi))
    ensures Received(AtKey(u).(key := u.key, cdi := u.cdi)) == u
  {
    AtKeyBytes(u);
    AtKeyHead(u);
    var p := AtKey(u).(key := u.key);
    hide Parts, NumberFits, Cut, Received, PayloadBytes, PartsBytes;
    Residue32(u.declared - |Payload(p)|);
  }

  lemma Residue32(n: int)
    requires (n - 32) % U32 == 0
    ensures n % U32 == 32
  {
  }

  /** Completeness. */
  lemma SendAll(u: Update) returns (events: seq<Event>)
    requires WellFormed(u)
    ensures Run(Take, BEGIN, events).Ok?
    ensures var q := Run(Take, BEGIN, events).value; q.stage.Done? && |q.parts| == 3 && Received(q) == u
  {
    hide Take, Run, WellFormed, Ends, ProgressOk, Received;
    AtKeyEnds(u);
    var xs := SendTexts(u);
    var ys := SendKey(AtKey(u), u.key);
    var p := AtKey(u).(key := u.key, stage := Cdi);
    var e := SendCdi(p, CdiOf(u));
    One(Take, p, e);
    Both(Take, BEGIN, xs, AtKey(u), ys, p);
    var q := p.(cdi := u.cdi, stage := Done);
    Both(Take, BEGIN, xs + ys, p, [e], q);
    events := xs + ys + [e];
    SameUpdate(u, q);
  }

  function CdiOf(u: Update): (r: bytes)
    requires WellFormed(u)
    ensures |r| == 32 && r == u.cdi
  {
    u.cdi
  }

  lemma SameUpdate(u: Update, q: Progress)
    requires WellFormed(u) && q == AtKey(u).(key := u.key, cdi := u.cdi, stage := Done)
    ensures Received(q) == u
  {
    AtKeyEnds(u);
  }

  // ------------------------------------------------------------------ reading the serialization

  lemma SplitText(t: bytes, v: bytes, r: bytes, s: bytes)
    requires |t| < U32 && |v| < U32 && TextBytes(t) + r == TextBytes(v) + s
    ensures t == v && r == s
  {
    hide Put4;
    Regroup(Put4(|t|), t, r);
    Regroup(Put4(|v|), v, s);
    Split(Put4(|t|), Put4(|v|), t + r, v + s);
    Put4Injective(|t|, |v|);
    Split(t, v, r, s);
  }

  lemma UpdateBytesInjective(u: Update, v: Update)
    requires WellFormed(u) && WellFormed(v) && UpdateBytes(u) == UpdateBytes(v)
    ensures u == v
  {
    hide Put4, NumberFits, TextBytes;
    var u1, v1 := u.key + u.cdi, v.key + v.cdi;
    var u2, v2 := TextBytes(u.description) + u1, TextBytes(v.description) + v1;
    var u3, v3 := TextBytes(u.url) + u2, TextBytes(v.url) + v2;
    var u4, v4 := TextBytes(u.name) + u3, TextBytes(v.name) + v3;
    Nested(u);
    Nested(v);
    hide UpdateBytes, PayloadBytes;
    Split(u.header, v.header, Put4(u.declared) + (u.ip + u4), Put4(v.declared) + (v.ip + v4));
    Split(Put4(u.declared), Put4(v.declared), u.ip + u4, v.ip + v4);
    Put4Injective(u.declared, v.declared);
    Split(u.ip, v.ip, u4, v4);
    SplitText(u.name, v.name, u3, v3);
    SplitText(u.url, v.url, u2, v2);
    SplitText(u.description, v.description, u1, v1);
    assert |u.key| + 32 == |v.key| + 32;
    Split(u.key, v.key, u.cdi, v.cdi);
  }

  lemma Nested(u: Update)
    ensures UpdateBytes(u) == u.header + (Put4(u.declared) + (u.ip + (TextBytes(u.name) + (TextBytes(u.url)
                              + (TextBytes(u.description) + (u.key + u.cdi))))))
  {
    hide Put4, TextBytes;
  }

  /** A byte string can be brought to the sign screen if and only if it serializes a well-formed update;
      the update is then determined. */
  lemma SignedStrings(b: bytes)
    ensures (exists events: seq<Event> :: Signs(events, b))
        <==> (exists u: Update :: WellFormed(u) && UpdateBytes(u) == b)
  {
    hide Take, Run, Gathered, WellFormed, UpdateBytes, Received, ProgressOk;
    if events: seq<Event> :| Signs(events, b) {
      SignedIsUpdate(events, b);
      assert UpdateBytes(Received(Run(Take, BEGIN, events).value)) == b;
    }
    if u: Update :| WellFormed(u) && UpdateBytes(u) == b {
      var events := SendAll(u);
      var gathered := Gathered(Take, Hashed, BEGIN, events);
      assert Signs(events, gathered);
      SignedIsUpdate(events, gathered);
    }
  }
}
