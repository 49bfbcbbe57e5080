/** Create-PLT updates byte by byte: what is signed, and what the screens say of it. */
module PltFormat {
  import opened Bytes
  import opened Lists
  import opened Positional
  import opened Device
  import opened DecimalText
  import opened PaginatedHex
  import opened Readback
  import opened Runs
  import opened Screens
  import opened SignCreatePlt
  import BigEndian

  /** Header and update type, a token id of 1 to 128 bytes behind its length, a module of 32 bytes, decimals,
      and at least one byte of parameters behind their 32-bit length. */
  ghost predicate Format(b: bytes) {
    && |b| >= 68 && b[28] == 24 && 1 <= b[29] <= 128
    && var at := 30 + b[29];
       at + 38 <= |b| && Value(256, b[at + 33..at + 37]) == |b| - (at + 37)
  }

  /** The texts of the one flow; of the parameters the first 512 bytes. */
  ghost predicate Shows(flows: seq<Flow>, b: bytes)
    requires Format(b)
  {
    var at := 30 + b[29];
    var params := b[at + 37..];
    && |flows| == 1 && |flows[0]| == 8
    && flows[0][0] == Show("Review", "transaction") && flows[0][1] == Show("Update type", "Create PLT")
    && flows[0][2] == Show("Token ID", CText(Chars(b[30..at])))
    && Titled(flows[0][3], "Token Module") && ShowsHex(flows[0][3].text, b[at..at + 32])
    && Titled(flows[0][4], "Decimals") && ShowsNumber(flows[0][4].text, [b[at + 32]])
    && Titled(flows[0][5], "Init Params")
    && ShowsHex(flows[0][5].text, if |params| <= 512 then params else params[..512])
    && flows[0][6..] == [Sign, Decline]
  }

  lemma Layout(header: bytes, l: Payload, params: bytes)
    requires |header| == 29 && PayloadOk(l)
    ensures var b, at := header + PayloadBytes(l) + params, 30 + |l.tokenId|;
            && |b| == at + 37 + |params| && b[28] == header[28] && b[29] == |l.tokenId| && b[30..at] == l.tokenId
            && b[at..at + 32] == l.tokenModule && b[at + 32] == l.decimals && b[at + 33..at + 37] == Put4(l.length)
            && b[at + 37..] == params
  {
    hide Put4;
  }

  lemma SerializedHasFormat(header: bytes, l: Payload, params: bytes, b: bytes)
    requires Serializes(header, l, params, b)
    ensures Format(b)
  {
    hide Put4, Value, PayloadBytes;
    Layout(header, l, params);
    BigEndian.Wrote4(l.length);
  }

  lemma FormatSerialized(b: bytes)
    requires Format(b)
    ensures exists header, l, params :: Serializes(header, l, params, b)
  {
    var at := 30 + b[29];
    BigEndian.Read4(b, at + 33);
    Put4Get4(b, at + 33);
    hide Put4, Value, U4BE;
    var l := Payload(b[30..at], b[at..at + 32], b[at + 32], U4BE(b, at + 33));
    Rejoined(b, at);
    assert Serializes(b[..29], l, b[at + 37..], b);
  }

  lemma Rejoined(b: bytes, at: nat)
    requires 30 <= at && at + 37 <= |b|
    ensures b[..29] + ([b[29]] + b[30..at] + b[at..at + 32] + [b[at + 32]] + b[at + 33..at + 37]) + b[at + 37..] == b
  {
  }

  /** A byte string can be signed as a create-PLT update if and only if it has the format. */
  lemma SignedFormat(b: bytes)
    ensures (exists events: seq<Event> :: Signs(events, b)) <==> Format(b)
  {
    hide Signs, Serializes, Format;
    SignedStrings(b);
    if header: bytes, l: Payload, params: bytes :| Serializes(header, l, params, b) {
      SerializedHasFormat(header, l, params, b);
    }
    if Format(b) { FormatSerialized(b); }
  }

  lemma FlowShows(l: Payload, params: bytes)
    requires PayloadOk(l)
    ensures var f := [REVIEW, Show("Update type", "Create PLT"), Show("Token ID", CText(Chars(l.tokenId))),
                      Show("Token Module", PagedHex(l.tokenModule)), Show("Decimals", Dec(l.decimals)),
                      Show("Init Params", PagedHex(Shown(params))), Sign, Decline];
            && ShowsHex(f[3].text, l.tokenModule) && ShowsNumber(f[4].text, [l.decimals])
            && ShowsHex(f[5].text, Shown(params)) && f[6..] == [Sign, Decline]
  {
    hide PagedHex, ReadHex, Dec, Read, CText, Chars, Shown;
    PagedHexRoundTrip(l.tokenModule);
    PagedHexRoundTrip(Shown(params));
    ValueOfOne(256, l.decimals);
    NumberShown([l.decimals]);
  }

  /** Whatever packets led to the sign screen: the screen says what the signed bytes are. */
  lemma SignedShows(events: seq<Event>, b: bytes)
    requires Signs(events, b)
    ensures var p := Run(Take, BEGIN, events).value;
            ProgressOk(p) && Format(b) && Shows(Rendered(p), b)
  {
    hide Take, Run, Gathered, HashedBy, Format, Shows, Rendered;
    SignedSerializes(events, b);
    var p := Run(Take, BEGIN, events).value;
    SerializedHasFormat(p.header, p.stage.payload, p.params, b);
    DoneShows(p, b);
  }

  lemma DoneShows(p: Progress, b: bytes)
    requires ProgressOk(p) && p.stage.Done? && Serializes(p.header, p.stage.payload, p.params, b) && Format(b)
    ensures Shows(Rendered(p), b)
  {
    hide Put4, Value, PayloadBytes, PagedHex, ReadHex, Dec, Read, CText, Chars, ShowsHex, ShowsNumber;
    Layout(p.header, p.stage.payload, p.params);
    FlowShows(p.stage.payload, p.params);
  }
}
