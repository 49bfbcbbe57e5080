/** Whole runs of the add-identity-provider update: exactly which byte strings can be signed. */
module IdentityProviderRuns {
  import opened Bytes
  import opened Lists
  import opened Device
  import opened Runs
  import opened IdentityProviderTx

  // ------------------------------------------------------------------ the update

  datatype Update = Update(
    header: bytes, declared: u32, ip: bytes, name: bytes, url: bytes, description: bytes, key: bytes, cdi: bytes)

  function TextBytes(t: bytes): (r: bytes) {
    (if |t| < U32 then Put4(|t|) else []) + t
  }

  function PayloadBytes(u: Update): (r: bytes) {
    u.ip + TextBytes(u.name) + TextBytes(u.url) + TextBytes(u.description) + u.key + u.cdi
  }

  function UpdateBytes(u: Update): (r: bytes) {
    u.header + Put4(u.declared) + PayloadBytes(u)
  }

  /** The payload has the declared length, as far as 32 bits can tell. */
  predicate WellFormed(u: Update) {
    && |u.header| == 29 && u.header[28] == UPDATE_TYPE_ADD_IDENTITY_PROVIDER
    && |u.ip| == 4 && NumberFits(u.ip) && |u.cdi| == 32
    && |u.name| < U32 && |u.url| < U32 && |u.description| < U32
    && (u.declared - |PayloadBytes(u)|) % U32 == 0
  }

  /** So the declared length is exact for every payload below four gigabytes, and for no other. */
  lemma DeclaredLengthExact(u: Update)
    requires WellFormed(u)
    ensures u.declared == |PayloadBytes(u)| <==> |PayloadBytes(u)| < U32
  {
  }

  function Received(p: Progress): (r: Update)
    requires |p.parts| == 3
  {
    Update(p.header, p.declared, p.ip, Flat(p.parts[0]), Flat(p.parts[1]), Flat(p.parts[2]), p.key, p.cdi)
  }

  lemma PartsBytesThree(parts: seq<seq<bytes>>)
    requires |parts| == 3
    ensures PartsBytes(parts) == Part(parts[0]) + Part(parts[1]) + Part(parts[2])
  {
    hide Part;
    assert parts[..2][..1] == parts[..1];
    assert PartsBytes(parts) == PartsBytes(parts[..2]) + Part(parts[2]);
    assert PartsBytes(parts[..2]) == PartsBytes(parts[..1]) + Part(parts[1]);
    assert PartsBytes(parts[..1]) == Part(parts[0]);
  }

  lemma LayOut(ip: bytes, a: bytes, b: bytes, c: bytes, key: bytes, cdi: bytes)
    ensures ip + (a + b + c) + [] + key + cdi == ip + a + b + c + key + cdi
  {
    assert ip + (a + b + c) + [] == ip + a + b + c;
  }

  lemma ReceivedBytes(p: Progress)
    requires ProgressOk(p) && p.stage.Done?
    ensures WellFormed(Received(p)) && UpdateBytes(Received(p)) == Transcript(p)
  {
    PartsBytesThree(p.parts);
    hide Put4, NumberFits, Flat, PartsBytes;
    LayOut(p.ip, Part(p.parts[0]), Part(p.parts[1]), Part(p.parts[2]), p.key, p.cdi);
  }

  // ------------------------------------------------------------------ soundness

  ghost predicate Signs(events: seq<Event>, b: bytes) {
    var r := Run(Take, BEGIN, events);
    r.Ok? && r.value.stage.Done? && Gathered(Take, Hashed, BEGIN, events) == b
  }

  /** At the sign screen the hashed bytes are one well-formed update. */
  lemma SignedIsUpdate(events: seq<Event>, b: bytes)
    requires Signs(events, b)
    ensures var p := Run(Take, BEGIN, events).value;
            ProgressOk(p) && |p.parts| == 3 && WellFormed(Received(p)) && UpdateBytes(Received(p)) == b
  {
    var ok := p => ProgressOk(p);
    forall p: Progress, e: Event | ok(p) && Take(p, e).Ok?
      ensures ok(Take(p, e).value) && Transcript(Take(p, e).value) == Transcript(p) + Hashed(p, e)
    {
      TakeExtends(p, e);
    }
    hide Take, Hashed, ProgressOk, Run, Gathered, Transcript, HeadOk, UpdateBytes, WellFormed;
    assert Sound(Take, Hashed, ok, Transcript);
    Began();
    RunSound(Take, Hashed, ok, Transcript, BEGIN, events);
    ThreeParts(Run(Take, BEGIN, events).value);
    ReceivedBytes(Run(Take, BEGIN, events).value);
    assert [] + b == b;
  }

  lemma ThreeParts(p: Progress)
    requires ProgressOk(p) && p.stage.Done?
    ensures |p.parts| == 3
  {
  }
}
