/** Add-identity-provider updates byte by byte: what is signed, and what the screens say of it. */
module IdentityProviderFormat {
  import opened Bytes
  import opened Lists
  import opened Positional
  import opened Device
  import opened DecimalText
  import opened PaginatedHex
  import opened Readback
  import opened Runs
  import opened IdentityProviderTx
  import opened IdentityProviderRuns
  import IdentityProviderComplete
  import IdentityProviderShown
  import Screens
  import BigEndian

  /** Where a text ends that stands behind its 32-bit length. */
  function TextEnd(b: bytes, at: nat): (r: nat)
  {
    if at + 4 <= |b| then at + 4 + Value(256, b[at..at + 4]) else |b| + 1
  }

  /** Where the three texts end. */
  function Ends(b: bytes): (r: (nat, nat, nat)) {
    var x := TextEnd(b, 37);
    var y := TextEnd(b, x);
    (x, y, TextEnd(b, y))
  }

  /** Header and update type, payload length, the provider's number, name, URL and description, a key of any
      length, and a key of 32 bytes.  The payload length counts modulo 2^32. */
  ghost predicate Format(b: bytes) {
    && |b| >= 37 && b[28] == 13 && Value(256, b[33..37]) <= 9999
    && (Value(256, b[29..33]) - (|b| - 33)) % 0x1_0000_0000 == 0
    && Ends(b).2 + 32 <= |b|
  }

  // ------------------------------------------------------------------ numbers of four digits

  lemma {:induction false} DecBelow(n: nat, k: nat)
    requires |Dec(n)| <= k
    ensures n < Pow(10, k)
  {
    if n < 10 {
      PowMonotone(10, 1, k);
      assert Pow(10, 1) == Pow(10, 0) * 10;
    } else {
      DecBelow(n / 10, k - 1);
      assert Pow(10, k) == Pow(10, k - 1) * 10;
    }
  }

  lemma FourDigits(ip: bytes)
    requires |ip| == 4
    ensures NumberFits(ip) <==> Value(256, ip) <= 9999
  {
    BigEndian.Read4(ip, 0);
    assert ip[0..4] == ip;
    hide U4BE, Value, Dec;
    TenThousand();
    if NumberFits(ip) { DecBelow(U4BE(ip, 0), 4); } else if U4BE(ip, 0) <= 9999 { DecShort(U4BE(ip, 0), 4); }
  }

  lemma TenThousand()
    ensures Pow(10, 4) == 10000
  {
    assert Pow(10, 2) == Pow(10, 1) * 10 && Pow(10, 1) == Pow(10, 0) * 10;
    PowAdd(10, 2, 2);
  }

  // ------------------------------------------------------------------ an update has the format

  lemma TextStands(before: bytes, text: bytes, rest: bytes)
    requires |text| < U32
    ensures var b := before + (TextBytes(text) + rest);
            && TextEnd(b, |before|) == |before + TextBytes(text)| == |before| + 4 + |text|
            && b[|before| + 4..|before| + 4 + |text|] == text
  {
    hide Put4, Value;
    BigEndian.Wrote4(|text|);
    var b := before + (TextBytes(text) + rest);
    assert b[|before|..|before| + 4] == Put4(|text|);
  }

  lemma TextsStand(head: bytes, u: Update)
    requires WellFormed(u) && |head| == 37
    ensures var x, y, z := 41 + |u.name|, 45 + |u.name| + |u.url|, 49 + |u.name| + |u.url| + |u.description|;
            var b := head + TextBytes(u.name) + TextBytes(u.url) + TextBytes(u.description) + u.key + u.cdi;
            && |b| == z + |u.key| + 32 && Ends(b) == (x, y, z)
            && b[41..x] == u.name && b[x + 4..y] == u.url && b[y + 4..z] == u.description && b[z..|b| - 32] == u.key
            && b[|b| - 32..] == u.cdi && b[..37] == head
  {
    hide TextBytes, TextEnd, NumberFits;
    var n, l, d, end := TextBytes(u.name), TextBytes(u.url), TextBytes(u.description), u.key + u.cdi;
    TextStands(head, u.name, l + (d + end));
    TextStands(head + n, u.url, d + end);
    TextStands(head + n + l, u.description, end);
    Nested(head, n, l, d, u.key, u.cdi);
  }

  lemma Nested(h: bytes, n: bytes, l: bytes, d: bytes, k: bytes, c: bytes)
    ensures h + n + l + d + k + c == h + (n + (l + (d + (k + c))))
    ensures h + n + l + d + k + c == h + n + (l + (d + (k + c)))
    ensures h + n + l + d + k + c == h + n + l + (d + (k + c))
  {
  }

  lemma HeadOf(u: Update)
    requires WellFormed(u)
    ensures var b := UpdateBytes(u);
            && b == (u.header + Put4(u.declared) + u.ip) + TextBytes(u.name) + TextBytes(u.url)
                    + TextBytes(u.description) + u.key + u.cdi
            && |b| == 33 + |PayloadBytes(u)| && b[28] == u.header[28] && b[29..33] == Put4(u.declared)
                && b[33..37] == u.ip
  {
    hide Put4, TextBytes, NumberFits;
  }

  lemma UpdateHasFormat(u: Update)
    requires WellFormed(u)
    ensures Format(UpdateBytes(u))
  {
    hide Put4, TextBytes, NumberFits, Ends, Value, UpdateBytes, PayloadBytes;
    HeadOf(u);
    BigEndian.Wrote4(u.declared);
    FourDigits(u.ip);
    TextsStand(u.header + Put4(u.declared) + u.ip, u);
  }

  // ------------------------------------------------------------------ the format is that of an update

  lemma TextAt(b: bytes, at: nat)
    requires TextEnd(b, at) <= |b|
    ensures at + 4 <= TextEnd(b, at) && TextEnd(b, at) - at - 4 < U32
    ensures TextBytes(b[at + 4..TextEnd(b, at)]) == b[at..TextEnd(b, at)]
  {
    BigEndian.Read4(b, at);
    Put4Get4(b, at);
    hide Put4, U4BE, Value;
    assert b[at..at + 4] + b[at + 4..TextEnd(b, at)] == b[at..TextEnd(b, at)];
  }

  lemma EndsInside(b: bytes)
    requires Ends(b).2 <= |b|
    ensures var (x, y, z) := Ends(b);
            && x == TextEnd(b, 37) <= y == TextEnd(b, x) <= z == TextEnd(b, y)
            && 41 <= x && x + 4 <= y && y + 4 <= z
  {
    hide Value;
  }

  function UpdateOf(b: bytes, x: nat, y: nat, z: nat): (r: Update)
    requires 41 <= x && x + 4 <= y && y + 4 <= z && z + 32 <= |b|
  {
    Update(b[..29], U4BE(b, 29), b[33..37], b[41..x], b[x + 4..y], b[y + 4..z], b[z..|b| - 32], b[|b| - 32..])
  }

  lemma Reads(b: bytes, x: nat, y: nat, z: nat)
    requires 41 <= x && x + 4 <= y && y + 4 <= z && z + 32 <= |b|
    requires TextBytes(b[41..x]) == b[37..x] && TextBytes(b[x + 4..y]) == b[x..y] && TextBytes(b[y + 4..z]) == b[y..z]
    ensures var u := UpdateOf(b, x, y, z); UpdateBytes(u) == b && |PayloadBytes(u)| == |b| - 33
  {
    Put4Get4(b, 29);
    hide Put4, U4BE, TextBytes;
    Rejoined(b, x, y, z);
  }

  lemma FormatOfUpdate(b: bytes) returns (u: Update)
    requires Format(b)
    ensures WellFormed(u) && UpdateBytes(u) == b
  {
    hide TextEnd, TextBytes, Value, Ends, UpdateBytes, PayloadBytes, U4BE, NumberFits;
    EndsInside(b);
    var ends := Ends(b);
    var x, y, z := ends.0, ends.1, ends.2;
    TextAt(b, 37);
    TextAt(b, x);
    TextAt(b, y);
    u := UpdateOf(b, x, y, z);
    Reads(b, x, y, z);
    FourDigits(b[33..37]);
    BigEndian.Read4(b, 29);
  }

  lemma Rejoined(b: bytes, x: nat, y: nat, z: nat)
    requires 37 <= x <= y <= z && z + 32 <= |b|
    ensures var payload := b[33..37] + b[37..x] + b[x..y] + b[y..z] + b[z..|b| - 32] + b[|b| - 32..];
            |payload| == |b| - 33 && b[..29] + b[29..33] + payload == b
  {
  }

  /** A byte string can be signed as an add-identity-provider update if and only if it has the format. */
  lemma SignedFormat(b: bytes)
    ensures (exists events: seq<Event> :: Signs(events, b)) <==> Format(b)
  {
    hide Signs, WellFormed, UpdateBytes, Format;
    IdentityProviderComplete.SignedStrings(b);
    if u: Update :| WellFormed(u) && UpdateBytes(u) == b {
      UpdateHasFormat(u);
    }
    if Format(b) {
      var u := FormatOfUpdate(b);
      assert WellFormed(u) && UpdateBytes(u) == b;
    }
  }

  // ------------------------------------------------------------------ what the screens say

  /** One screen for each piece of a text, under its title. */
  ghost predicate ShowsPieces(title: string, flows: seq<Flow>, pieces: seq<bytes>) {
    |flows| == |pieces| && forall k | 0 <= k < |flows| :: ShowsPiece(title, flows[k], pieces[k])
  }

  /** A piece of fewer than 255 bytes is shown up to its first zero byte; behind a longer one memory may show. */
  ghost predicate ShowsPiece(title: string, flow: Flow, piece: bytes) {
    && |flow| == 1 && flow[0].Continue? && flow[0].title == title && |piece| <= 255
    && (|piece| < 255 ==> flow[0].text == Screens.CText(Chars(piece)))
    && (|piece| == 255 && 0 !in piece ==> Chars(piece) <= flow[0].text)
  }

  ghost predicate ShowsText(title: string, flows: seq<Flow>, text: bytes) {
    exists pieces: seq<bytes> :: Flat(pieces) == text && ShowsPieces(title, flows, pieces)
  }

  ghost predicate ShowsTexts(flows: seq<Flow>, name: bytes, url: bytes, description: bytes) {
    exists a: seq<Flow>, b: seq<Flow>, c: seq<Flow> ::
      && flows == a + b + c
      && ShowsText("Name", a, name) && ShowsText("URL", b, url) && ShowsText("Description", c, description)
  }

  ghost predicate ShowsNumberOf(flow: Flow, ip: bytes) {
    && |flow| == 3 && flow[0] == Show("Review", "transaction")
    && flow[1] == Show("Update type", "Add identity provider")
    && flow[2].Continue? && flow[2].title == "Identity provider" && ShowsNumber(flow[2].text, ip)
  }

  ghost predicate ShowsKeyHash(flow: Flow, hash: bytes) {
    |flow| == 1 && flow[0].Continue? && flow[0].title == "Verify Key Hash" && ShowsHex(flow[0].text, hash)
  }

  ghost predicate ShowsLast(flow: Flow, cdi: bytes) {
    |flow| == 3 && Titled(flow[0], "CDI Verify key") && ShowsHex(flow[0].text, cdi) && flow[1..] == [Sign, Decline]
  }

  /** The number, the pieces of the three texts, the hash of the key, and the other key with the question. */
  ghost predicate Shows(sha: Sha256, flows: seq<Flow>, b: bytes)
    requires Format(b)
  {
    EndsInside(b);
    var (x, y, z) := Ends(b);
    && |flows| >= 3 && ShowsNumberOf(flows[0], b[33..37])
    && ShowsTexts(flows[1..|flows| - 2], b[41..x], b[x + 4..y], b[y + 4..z])
    && ShowsKeyHash(flows[|flows| - 2], sha(b[z..|b| - 32])) && ShowsLast(flows[|flows| - 1], b[|b| - 32..])
  }

  lemma PieceRead(behind: Behind, i: nat, piece: bytes)
    requires i < 3 && |piece| <= 255
    ensures ShowsPiece(["Name", "URL", "Description"][i], [PieceStep(behind, i, piece)], piece)
  {
    if |piece| == 255 && 0 !in piece {
      Screens.NoZeroInChars(piece);
      Screens.ShownOtherwise(Chars(piece), behind(i));
    }
    hide Screens.CText, Chars;
  }

  lemma PiecesRead(behind: Behind, i: nat, pieces: seq<bytes>)
    requires i < 3 && Chunks(pieces)
    ensures ShowsPieces(["Name", "URL", "Description"][i], PieceFlows(behind, i, pieces), pieces)
  {
    hide ShowsPiece, PieceStep;
    forall k | 0 <= k < |pieces|
      ensures ShowsPiece(["Name", "URL", "Description"][i], PieceFlows(behind, i, pieces)[k], pieces[k])
    {
      PieceRead(behind, i, pieces[k]);
    }
  }

  lemma NumberRead(ip: bytes)
    requires |ip| == 4
    ensures ShowsNumberOf(StartFlow(ip), ip)
  {
    BigEndian.Read4(ip, 0);
    assert ip[0..4] == ip;
    hide U4BE, Value, Dec, Read;
    NumberShown(ip);
  }

  lemma KeysRead(sha: Sha256, key: bytes, cdi: bytes)
    requires |cdi| == 32
    ensures ShowsKeyHash(KeyFlow(sha, key), sha(key)) && ShowsLast(FinishFlow(cdi), cdi)
  {
    hide PagedHex, ReadHex;
    PagedHexRoundTrip(sha(key));
    PagedHexRoundTrip(cdi);
  }

  lemma TextsRead(behind: Behind, x: seq<bytes>, y: seq<bytes>, z: seq<bytes>)
    requires Chunks(x) && Chunks(y) && Chunks(z)
    ensures ShowsTexts(PieceFlows(behind, 0, x) + PieceFlows(behind, 1, y) + PieceFlows(behind, 2, z),
                       Flat(x), Flat(y), Flat(z))
  {
    hide PieceFlows, ShowsPieces, Flat;
    PiecesRead(behind, 0, x);
    PiecesRead(behind, 1, y);
    PiecesRead(behind, 2, z);
    assert ShowsText("Name", PieceFlows(behind, 0, x), Flat(x));
    assert ShowsText("URL", PieceFlows(behind, 1, y), Flat(y));
    assert ShowsText("Description", PieceFlows(behind, 2, z), Flat(z));
  }

  lemma Sliced(s: Flow, a: seq<Flow>, b: seq<Flow>, c: seq<Flow>, k: Flow, e: Flow)
    ensures var f := [s] + (a + (b + (c + ([k] + [e]))));
            && |f| >= 3 && f[0] == s && f[1..|f| - 2] == a + b + c && f[|f| - 2] == k && f[|f| - 1] == e
  {
  }

  /** Whatever packets and presses led to the sign screen: the screens say what the signed bytes are. */
  lemma SignedShows(sha: Sha256, behind: Behind, events: seq<Event>, b: bytes)
    requires Signs(events, b)
    ensures var p := Run(Take, BEGIN, events).value;
            ProgressOk(p) && Format(b) && Shows(sha, Rendered(sha, behind, p), b)
  {
    hide Take, Run, Gathered, Hashed, WellFormed, UpdateBytes, Received, Rendered, Shows, Format, ProgressOk;
    SignedIsUpdate(events, b);
    var p := Run(Take, BEGIN, events).value;
    UpdateHasFormat(Received(p));
    DoneShows(sha, behind, p, b);
  }

  lemma FlowsShow(sha: Sha256, behind: Behind, p: Progress)
    requires ProgressOk(p) && p.stage.Done?
    ensures |p.parts| == 3
    ensures var flows := Rendered(sha, behind, p);
            && |flows| >= 3 && ShowsNumberOf(flows[0], p.ip)
            && ShowsTexts(flows[1..|flows| - 2], Flat(p.parts[0]), Flat(p.parts[1]), Flat(p.parts[2]))
            && ShowsKeyHash(flows[|flows| - 2], sha(p.key)) && ShowsLast(flows[|flows| - 1], p.cdi)
  {
    hide ProgressOk, Rendered, PieceFlows, StartFlow, KeyFlow, FinishFlow, Flat, ShowsNumberOf, ShowsTexts,
        ShowsKeyHash,
        ShowsLast, Chunks;
    IdentityProviderShown.LaidOut(sha, behind, p);
    DoneParts(p);
    Sliced(StartFlow(p.ip), PieceFlows(behind, 0, p.parts[0]), PieceFlows(behind, 1, p.parts[1]),
           PieceFlows(behind, 2, p.parts[2]), KeyFlow(sha, p.key), FinishFlow(p.cdi));
    NumberRead(p.ip);
    KeysRead(sha, p.key, p.cdi);
    TextsRead(behind, p.parts[0], p.parts[1], p.parts[2]);
  }

  lemma PartsAt(u: Update)
    requires WellFormed(u) && Format(UpdateBytes(u))
    ensures var b := UpdateBytes(u);
            var (x, y, z) := Ends(b);
            && 41 <= x && x + 4 <= y && y + 4 <= z && z + 32 <= |b| && b[33..37] == u.ip
            && b[41..x] == u.name && b[x + 4..y] == u.url && b[y + 4..z] == u.description
            && b[z..|b| - 32] == u.key && b[|b| - 32..] == u.cdi
  {
    hide Ends, TextBytes, Put4, NumberFits, UpdateBytes, PayloadBytes, Value, Format;
    HeadOf(u);
    TextsStand(u.header + Put4(u.declared) + u.ip, u);
  }

  lemma DoneShows(sha: Sha256, behind: Behind, p: Progress, b: bytes)
    requires ProgressOk(p) && p.stage.Done? && |p.parts| == 3 && Format(b)
    requires WellFormed(Received(p)) && b == UpdateBytes(Received(p))
    ensures Shows(sha, Rendered(sha, behind, p), b)
  {
    hide ProgressOk, Rendered, WellFormed, Ends, Flat, ShowsNumberOf, ShowsTexts, ShowsKeyHash, ShowsLast, UpdateBytes,
        Format;
    PartsAt(Received(p));
    FlowsShow(sha, behind, p);
  }

  lemma DoneParts(p: Progress)
    requires ProgressOk(p) && p.stage.Done? && |p.parts| == 3
    ensures Chunks(p.parts[0]) && Chunks(p.parts[1]) && Chunks(p.parts[2])
  {
  }
}
