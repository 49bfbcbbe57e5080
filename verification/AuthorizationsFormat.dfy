/** Level 2 key updates byte by byte: what is signed, and what the screens say of it, in terms of positions and
    big-endian numbers only. */
module AuthorizationsFormat {
  import opened Bytes
  import opened Lists
  import opened Positional
  import opened Device
  import opened Runs
  import opened AuthorizationsTx
  import opened AuthorizationsRuns
  import opened AuthorizationsComplete
  import opened DecimalText
  import opened PaginatedHex
  import opened Readback
  import BigEndian

  /** From a position to the end: n access structures, each of a 16-bit count, that many indices of two bytes,
      and a threshold of two bytes. */
  ghost predicate StructuresFrom(b: bytes, at: nat, n: nat)
    decreases n
  {
    if n == 0 then at == |b|
    else
      && at + 4 <= |b|
      && var next := at + 4 + 2 * Value(256, b[at..at + 2]);
         next <= |b| && StructuresFrom(b, next, n - 1)
  }

  /** Header and update type, prefix, at least one key of 33 bytes after their number, and the structures. */
  ghost predicate Format(updateType: byte, b: bytes) {
    && |b| >= 32 && b[28] == updateType
    && var keys := Value(256, b[30..32]);
       && keys >= 1 && 32 + 33 * keys <= |b|
       && exists n :: Prefix(updateType, b[29], n) && StructuresFrom(b, 32 + 33 * keys, n)
  }

  // ------------------------------------------------------------------ an update has the format

  /** The next structure. */
  lemma OneStructure(before: bytes, s: Structure, rest: bytes)
    requires |s.indices| < 0x1_0000 && AllOf(s.indices, 2) && |s.threshold| == 2
    ensures var b, at, c := before + (StructureBytes(s) + rest), |before|, |s.indices|;
            && at + 4 + 2 * c <= |b| && Value(256, b[at..at + 2]) == c && b[..at] == before
            && b[at + 2..at + 2 + 2 * c] == Flat(s.indices) && b[at + 2 + 2 * c..at + 4 + 2 * c] == s.threshold
            && |before + StructureBytes(s)| == at + 4 + 2 * c
  {
    var b, at := before + (StructureBytes(s) + rest), |before|;
    hide Flat, Put2, Value;
    FlatLength(s.indices, 2);
    BigEndian.Wrote2(|s.indices|);
    assert b[at..at + 2] == Put2(|s.indices|);
  }

  lemma {:induction false} StructuresStand(before: bytes, ss: seq<Structure>)
    requires Structures(ss)
    ensures StructuresFrom(before + StructuresBytes(ss), |before|, |ss|)
    decreases |ss|
  {
    hide StructureBytes, Value;
    if ss == [] {
      assert before + [] == before;
    } else {
      StructuresCons(ss);
      hide StructuresBytes;
      var s, rest := StructureBytes(ss[0]), StructuresBytes(ss[1..]);
      OneStructure(before, ss[0], rest);
      StructuresStand(before + s, ss[1..]);
      Regroup(before, s, rest);
    }
  }

  lemma HeadOf(header: bytes, prefix: byte, n: u16, keys: bytes, rest: bytes)
    requires |header| == 29
    ensures var b := header + [prefix] + Put2(n) + keys + rest;
            && |b| == 32 + |keys| + |rest| && b[28] == header[28] && b[29] == prefix && Value(256, b[30..32]) == n
            && b[32..32 + |keys|] == keys
  {
    hide Put2, Value;
    var b := header + [prefix] + Put2(n) + keys + rest;
    BigEndian.Wrote2(n);
    assert b[30..32] == Put2(n);
  }

  lemma UpdateHasFormat(updateType: byte, u: Update)
    requires WellFormed(updateType, u)
    ensures Format(updateType, UpdateBytes(u))
  {
    hide Flat, Put2, Value, StructuresBytes, StructuresFrom, Structures, VersionOf, StructureCount, Prefix;
    HeadOf(u.header, u.prefix, |u.keys|, Flat(u.keys), StructuresBytes(u.structures));
    FlatLength(u.keys, 33);
    StructuresStand(u.header + [u.prefix] + Put2(|u.keys|) + Flat(u.keys), u.structures);
    Numbers(updateType, u.prefix, |u.structures|);
  }

  // ------------------------------------------------------------------ the format is that of an update

  lemma ReadStructure(b: bytes, at: nat) returns (s: Structure)
    requires at + 4 <= |b| && at + 4 + 2 * Value(256, b[at..at + 2]) <= |b|
    ensures |s.indices| < 0x1_0000 && AllOf(s.indices, 2) && |s.threshold| == 2
    ensures StructureBytes(s) == b[at..at + 4 + 2 * Value(256, b[at..at + 2])]
  {
    BigEndian.Read2(b, at);
    hide Value, Flat;
    var c: nat := U2BE(b, at);
    var indices := CutEvenly(b[at + 2..at + 2 + 2 * c], 2, c);
    s := Structure(indices, b[at + 2 + 2 * c..at + 4 + 2 * c]);
    Put2Get2(b, at);
    hide Put2, U2BE;
    assert b[at..at + 2] + b[at + 2..at + 2 + 2 * c] + b[at + 2 + 2 * c..at + 4 + 2 * c] == b[at..at + 4 + 2 * c];
  }

  lemma {:induction false} ReadStructures(b: bytes, at: nat, n: nat) returns (ss: seq<Structure>)
    requires at <= |b| && StructuresFrom(b, at, n)
    ensures Structures(ss) && |ss| == n && StructuresBytes(ss) == b[at..]
    decreases n
  {
    hide StructureBytes, Value;
    if n == 0 {
      ss := [];
    } else {
      var s := ReadStructure(b, at);
      var next := at + 4 + 2 * Value(256, b[at..at + 2]);
      var rest := ReadStructures(b, next, n - 1);
      ss := [s] + rest;
      assert ss[1..] == rest;
      StructuresCons(ss);
      assert b[at..next] + b[next..] == b[at..];
    }
  }

  lemma FormatOfUpdate(updateType: byte, b: bytes) returns (u: Update)
    requires Format(updateType, b)
    ensures WellFormed(updateType, u) && UpdateBytes(u) == b
  {
    hide Prefix, StructuresFrom, Value, Structures, Flat, VersionOf, StructureCount, StructuresBytes;
    var k := Value(256, b[30..32]);
    var end := 32 + 33 * k;
    var n: nat :| Prefix(updateType, b[29], n) && StructuresFrom(b, end, n);
    Numbers(updateType, b[29], n);
    BigEndian.Read2(b, 30);
    Put2Get2(b, 30);
    hide Put2, U2BE;
    var keys := CutEvenly(b[32..end], 33, k);
    var ss := ReadStructures(b, end, n);
    u := Update(b[..29], b[29], keys, ss);
    Parts(b, end);
  }

  lemma Parts(b: bytes, end: nat)
    requires 32 <= end <= |b|
    ensures b[..29] + [b[29]] + b[30..32] + b[32..end] + b[end..] == b
  {
  }

  /** A byte string can be signed as a level 2 key update if and only if it has the format: with prefix 2, 3
      or 4 (1, 2 or 3 with level 1 keys) exactly 12, 14 or 15 structures stand behind the keys, and no other
      prefix is signed. */
  lemma SignedFormat(updateType: byte, b: bytes)
    ensures (exists events: seq<Event> :: Signs(updateType, events, b)) <==> Format(updateType, b)
  {
    hide Signs, WellFormed, UpdateBytes, Format;
    SignedStrings(updateType, b);
    if u: Update :| WellFormed(updateType, u) && UpdateBytes(u) == b {
      UpdateHasFormat(updateType, u);
    }
    if Format(updateType, b) {
      var u := FormatOfUpdate(updateType, b);
      assert WellFormed(updateType, u) && UpdateBytes(u) == b;
    }
  }

  // ------------------------------------------------------------------ what the screens say

  /** The authorizations in the order in which their structures are sent. */
  function Names(): (r: seq<string>)
    ensures |r| == 15
  {
    ["Emergency", "Protocol", "Consensus", "Euro per energy", "uCCD per Euro", "Foundation account",
     "Mint distribution", "Tx fee distribution", "GAS rewards", "Pool parameters", "Add anon. revoker",
     "Add ID provider", "Cooldown parameters", "Time parameters", "Create PLT"]
  }

  /** One step that waits, with a number of two bytes under its title. */
  ghost predicate ShowsItem(flow: Flow, title: string, b: bytes) {
    |flow| == 1 && flow[0].Continue? && flow[0].title == title && ShowsNumber(flow[0].text, b)
  }

  /** The same with a key. */
  ghost predicate ShowsKey(flow: Flow, key: bytes) {
    |flow| == 1 && flow[0].Continue? && flow[0].title == "Public key" && ShowsHex(flow[0].text, key)
  }

  function CountAt(b: bytes, at: nat): (r: nat) {
    if at + 2 <= |b| then Value(256, b[at..at + 2]) else 0
  }

  /** Where the j-th structure stands, and how many screens come before it. */
  function StructureAt(b: bytes, start: nat, j: nat): (r: (nat, nat)) {
    if j == 0 then (start, 0)
    else
      var (at, screens) := StructureAt(b, start, j - 1);
      (at + 4 + 2 * CountAt(b, at), screens + CountAt(b, at) + 1)
  }

  /** Its indices under its name, in order, and then its threshold. */
  ghost predicate ShowsStructure(flows: seq<Flow>, screen: nat, name: string, b: bytes, at: nat) {
    var c := CountAt(b, at);
    && at + 4 + 2 * c <= |b| && screen + c < |flows|
    && (forall i | 0 <= i < c :: ShowsItem(flows[screen + i], name, b[at + 2 + 2 * i..at + 4 + 2 * i]))
    && ShowsItem(flows[screen + c], "Threshold", b[at + 2 + 2 * c..at + 4 + 2 * c])
  }

  /** The first n structures, from a screen and a position on. */
  ghost predicate ShowsStructures(flows: seq<Flow>, screen: nat, b: bytes, start: nat, n: nat) {
    && n <= 15
    && forall j | 0 <= j < n ::
         ShowsStructure(flows, screen + StructureAt(b, start, j).1, Names()[j], b, StructureAt(b, start, j).0)
  }

  /** The keys without their schemes. */
  ghost predicate ShowsKeys(flows: seq<Flow>, screen: nat, b: bytes, start: nat, n: nat) {
    && start + 33 * n <= |b| && screen + n <= |flows|
    && forall i | 0 <= i < n :: ShowsKey(flows[screen + i], b[start + 33 * i + 1..start + 33 * i + 33])
  }

  function KindText(updateType: byte): (r: string) {
    if updateType == 10 then "Level 2 w. root keys" else "Level 2 w. level 1 keys"
  }

  /** The kind of update, every key, every structure, and the question to sign; nothing else. */
  ghost predicate ShowsUpdate(updateType: byte, flows: seq<Flow>, b: bytes) {
    && |b| >= 32
    && var keys := Value(256, b[30..32]);
       var start := 32 + 33 * keys;
       && ShowsKeys(flows, 1, b, 32, keys)
       && exists n: nat :: Prefix(updateType, b[29], n)
            && ShowsStructures(flows, 1 + keys, b, start, n)
            && |flows| == 1 + keys + StructureAt(b, start, n).1 + 1
            && flows[0] == [Show("Review", "transaction"),
                            Continue("Update", KindText(updateType))]
            && flows[|flows| - 1] == [Sign, Decline]
  }

  lemma NamesAre(kind: byte)
    requires kind < 15
    ensures AuthorizationName(kind) == Ok(Names()[kind])
  {
  }

  lemma ItemShown(title: string, b: bytes)
    requires |b| == 2
    ensures ShowsItem(IndexFlow(title, b), title, b)
  {
    BigEndian.Read2(b, 0);
    assert b[0..2] == b;
    hide Value, Dec, Read;
    NumberShown(b);
  }

  lemma KeyRead(key: bytes)
    requires |key| == 33
    ensures ShowsKey(KeyFlow(key), key[1..])
  {
    hide PagedHex, ReadHex;
    PagedHexRoundTrip(key[1..]);
  }

  lemma KeyStands(before: bytes, keys: seq<bytes>, rest: bytes, i: nat)
    requires AllOf(keys, 33) && i < |keys|
    ensures var b, at := before + Flat(keys) + rest, |before| + 33 * i;
            && |b| >= |before| + 33 * |keys| && at + 33 <= |b| && b[at + 1..at + 33] == keys[i][1..]
  {
    hide Flat;
    FlatLength(keys, 33);
    FlatItem(keys, i);
    FlatPart(keys, 33, i);
    Around(before, Flat(keys), rest, 33 * i);
  }

  lemma Around(before: bytes, list: bytes, rest: bytes, k: nat)
    requires k + 33 <= |list|
    ensures var b, at := before + list + rest, |before| + k;
            b[at + 1..at + 33] == list[k..k + 33][1..]
  {
  }

  lemma KeysRead(before: bytes, keys: seq<bytes>, rest: bytes, first: Flow, more: seq<Flow>)
    requires AllOf(keys, 33)
    ensures ShowsKeys([first] + KeyFlows(keys) + more, 1, before + Flat(keys) + rest, |before|, |keys|)
  {
    hide Flat, KeyFlow, ShowsKey;
    var b, flows := before + Flat(keys) + rest, [first] + KeyFlows(keys) + more;
    FlatLength(keys, 33);
    forall i | 0 <= i < |keys|
      ensures ShowsKey(flows[1 + i], b[|before| + 33 * i + 1..|before| + 33 * i + 33])
    {
      KeyStands(before, keys, rest, i);
      KeyRead(keys[i]);
      assert flows[1 + i] == KeyFlow(keys[i]);
    }
  }

  // ------------------------------------------------------------------ structures on the screen

  lemma {:induction false} BytesAppend(x: seq<Structure>, y: seq<Structure>)
    ensures StructuresBytes(x + y) == StructuresBytes(x) + StructuresBytes(y)
  {
    hide StructureBytes;
    if y == [] {
      assert x + y == x;
    } else {
      var n := |y| - 1;
      BytesAppend(x, y[..n]);
      assert (x + y)[..|x| + n] == x + y[..n];
      Regroup(StructuresBytes(x), StructuresBytes(y[..n]), StructureBytes(y[n]));
    }
  }

  lemma CutOut(before: bytes, ss: seq<Structure>, j: nat)
    requires j < |ss|
    ensures var x, s, rest := StructuresBytes(ss[..j]), StructureBytes(ss[j]), StructuresBytes(ss[j + 1..]);
            && before + StructuresBytes(ss) == (before + x) + (s + rest)
            && before + StructuresBytes(ss[..j + 1]) == before + x + s
  {
    hide StructureBytes, StructuresBytes;
    LastBytes(ss, j);
    BytesAppend(ss[..j + 1], ss[j + 1..]);
    TakeDrop(ss, j + 1);
    var x, s, rest := StructuresBytes(ss[..j]), StructureBytes(ss[j]), StructuresBytes(ss[j + 1..]);
    Regroup(before, x, s);
    Regroup(before, x + s, rest);
    Regroup(before + x, s, rest);
  }

  lemma LastBytes(ss: seq<Structure>, j: nat)
    requires j < |ss|
    ensures StructuresBytes(ss[..j + 1]) == StructuresBytes(ss[..j]) + StructureBytes(ss[j])
  {
    assert ss[..j + 1][..j] == ss[..j];
    hide StructureBytes;
  }

  /** The j-th structure in the bytes. */
  lemma BytesOf(before: bytes, ss: seq<Structure>, j: nat)
    requires Structures(ss) && j < |ss|
    ensures var b := before + StructuresBytes(ss);
            var at, c := |before + StructuresBytes(ss[..j])|, |ss[j].indices|;
            && CountAt(b, at) == c && at + 4 + 2 * c == |before + StructuresBytes(ss[..j + 1])| <= |b|
            && b[at + 2..at + 2 + 2 * c] == Flat(ss[j].indices) && b[at + 2 + 2 * c..at + 4 + 2 * c] == ss[j].threshold
  {
    hide StructureBytes, StructuresBytes, Flat, Value;
    CutOut(before, ss, j);
    OneStructure(before + StructuresBytes(ss[..j]), ss[j], StructuresBytes(ss[j + 1..]));
  }

  /** ... and on the screens. */
  lemma {:induction false} FlowsOf(ss: seq<Structure>, j: nat)
    requires Structures(ss) && j < |ss| <= 15
    ensures var f, c := |StructuresFlows(ss[..j])|, |ss[j].indices|;
            && AllOf(ss[j].indices, 2) && |ss[j].threshold| == 2
            && f + c + 1 == |StructuresFlows(ss[..j + 1])| <= |StructuresFlows(ss)|
            && StructuresFlows(ss)[f..f + c] == IndexFlows(j, ss[j].indices)
            && StructuresFlows(ss)[f + c] == IndexFlow("Threshold", ss[j].threshold)
  {
    hide IndexFlow;
    var n := |ss| - 1;
    if j == n {
      assert ss[..j + 1] == ss;
    } else {
      FlowsOf(ss[..n], j);
      assert ss[..n][..j] == ss[..j] && ss[..n][..j + 1] == ss[..j + 1];
    }
  }

  /** The bytes and screens of the first j structures. */
  ghost predicate Reached(before: bytes, ss: seq<Structure>, j: nat)
    requires Structures(ss) && j <= |ss| <= 15
  {
    SomeOf(ss, j);
    StructureAt(before + StructuresBytes(ss), |before|, j)
    == (|before + StructuresBytes(ss[..j])|, |StructuresFlows(ss[..j])|)
  }

  lemma CursorNext(before: bytes, ss: seq<Structure>, j: nat)
    requires Structures(ss) && j < |ss| <= 15 && Reached(before, ss, j)
    ensures Reached(before, ss, j + 1)
  {
    hide StructuresBytes, StructuresFlows, CountAt, StructureAt, Structures, Flat, IndexFlows, IndexFlow, AllOf;
    BytesOf(before, ss, j);
    FlowsOf(ss, j);
    SomeOf(ss, j);
    SomeOf(ss, j + 1);
    NextAt(before + StructuresBytes(ss), |before|, j + 1, |ss[j].indices|);
  }

  lemma NextAt(b: bytes, start: nat, j: nat, c: nat)
    requires j > 0 && CountAt(b, StructureAt(b, start, j - 1).0) == c
    ensures var place := StructureAt(b, start, j - 1);
            StructureAt(b, start, j) == (place.0 + 4 + 2 * c, place.1 + c + 1)
  {
  }

  lemma {:induction false} CursorAt(before: bytes, ss: seq<Structure>, j: nat)
    requires Structures(ss) && j <= |ss| <= 15
    ensures Reached(before, ss, j)
  {
    if j > 0 {
      hide Reached, Structures;
      CursorAt(before, ss, j - 1);
      CursorNext(before, ss, j - 1);
    } else {
      assert ss[..0] == [];
    }
  }

  lemma SomeOf(ss: seq<Structure>, j: nat)
    requires Structures(ss) && j <= |ss|
    ensures Structures(ss[..j])
  {
  }

  /** The j-th structure is shown. */
  lemma StructureShown(before: bytes, ss: seq<Structure>, j: nat, first: seq<Flow>, more: seq<Flow>, at: nat, k: nat)
    requires Structures(ss) && j < |ss| <= 15 && Structures(ss[..j])
    requires at == |before + StructuresBytes(ss[..j])| && k == |StructuresFlows(ss[..j])|
    ensures var b, flows := before + StructuresBytes(ss), first + StructuresFlows(ss) + more;
            ShowsStructure(flows, |first| + k, Names()[j], b, at)
  {
    hide StructuresBytes, StructuresFlows, CountAt, IndexFlow, IndexFlows, AuthorizationName, Flat, ShowsStructure,
        Names;
    BytesOf(before, ss, j);
    FlowsOf(ss, j);
    OnScreen(first, StructuresFlows(ss), more, k, |ss[j].indices|);
    OneShown(first + StructuresFlows(ss) + more, |first| + k, j, ss[j], before + StructuresBytes(ss), at);
  }

  lemma StructureRead(before: bytes, ss: seq<Structure>, j: nat, first: seq<Flow>, more: seq<Flow>)
    requires Structures(ss) && j < |ss| <= 15
    ensures var b, flows := before + StructuresBytes(ss), first + StructuresFlows(ss) + more;
            var place := StructureAt(b, |before|, j);
            ShowsStructure(flows, |first| + place.1, Names()[j], b, place.0)
  {
    hide StructuresBytes, StructuresFlows, StructureAt, ShowsStructure, Structures, Names;
    CursorAt(before, ss, j);
    SomeOf(ss, j);
    var place := StructureAt(before + StructuresBytes(ss), |before|, j);
    StructureShown(before, ss, j, first, more, place.0, place.1);
  }

  lemma OnScreen(first: seq<Flow>, flows: seq<Flow>, more: seq<Flow>, k: nat, c: nat)
    requires k + c < |flows|
    ensures var all, f := first + flows + more, |first| + k;
            f + c < |all| && all[f..f + c] == flows[k..k + c] && all[f + c] == flows[k + c]
  {
  }

  lemma OneShown(flows: seq<Flow>, f: nat, kind: byte, s: Structure, b: bytes, at: nat)
    requires kind < 15 && AllOf(s.indices, 2) && |s.threshold| == 2
    requires var c := |s.indices|;
             && CountAt(b, at) == c && at + 4 + 2 * c <= |b| && f + c < |flows|
             && b[at + 2..at + 2 + 2 * c] == Flat(s.indices) && b[at + 2 + 2 * c..at + 4 + 2 * c] == s.threshold
             && flows[f..f + c] == IndexFlows(kind, s.indices) && flows[f + c] == IndexFlow("Threshold", s.threshold)
    ensures ShowsStructure(flows, f, Names()[kind], b, at)
  {
    NamesAre(kind);
    hide CountAt, IndexFlow, ShowsItem, AuthorizationName, Flat, Names;
    ItemShown("Threshold", s.threshold);
    forall i | 0 <= i < |s.indices|
      ensures ShowsItem(flows[f + i], Names()[kind], b[at + 2 + 2 * i..at + 4 + 2 * i])
    {
      ItemStands(s.indices, i);
      IndexStands(b, at + 2, Flat(s.indices), 2 * i);
      ItemShown(Names()[kind], s.indices[i]);
      assert flows[f + i] == flows[f..f + |s.indices|][i];
    }
  }

  lemma IndexStands(b: bytes, at: nat, list: bytes, k: nat)
    requires k + 2 <= |list| && at + |list| <= |b| && b[at..at + |list|] == list
    ensures b[at + k..at + k + 2] == list[k..k + 2]
  {
    Slice(b, at, at + |list|, k, k + 2);
  }

  lemma ItemStands(indices: seq<bytes>, i: nat)
    requires AllOf(indices, 2) && i < |indices|
    ensures |Flat(indices)| == 2 * |indices| && Flat(indices)[2 * i..2 * i + 2] == indices[i]
  {
    FlatLength(indices, 2);
    FlatPart(indices, 2, i);
    hide Flat, AllOf;
    FlatItem(indices, i);
  }

  lemma StructuresRead(before: bytes, ss: seq<Structure>, first: seq<Flow>, more: seq<Flow>)
    requires Structures(ss) && |ss| <= 15
    ensures var b, flows := before + StructuresBytes(ss), first + StructuresFlows(ss) + more;
            && ShowsStructures(flows, |first|, b, |before|, |ss|)
            && |flows| == |first| + StructureAt(b, |before|, |ss|).1 + |more|
  {
    hide StructuresBytes, StructuresFlows, StructureAt, ShowsStructure, Names;
    var b, flows := before + StructuresBytes(ss), first + StructuresFlows(ss) + more;
    forall j | 0 <= j < |ss|
      ensures ShowsStructure(flows, |first| + StructureAt(b, |before|, j).1, Names()[j], b,
                             StructureAt(b, |before|, j).0)
    {
      StructureRead(before, ss, j, first, more);
    }
    CursorAt(before, ss, |ss|);
    assert ss[..|ss|] == ss;
  }

  lemma KeysPart(updateType: byte, u: Update)
    requires WellFormed(updateType, u)
    ensures ShowsKeys(UpdateFlows(updateType, u), 1, UpdateBytes(u), 32, |u.keys|)
  {
    hide StructuresBytes, StructuresFlows, ShowsKeys, Structures, Flat, Put2, KeyFlow, VersionOf, StructureCount,
        TypeText;
    var head := u.header + [u.prefix] + Put2(|u.keys|);
    var review, end := [REVIEW, Continue("Update", TypeText(updateType))], [[Sign, Decline]];
    KeysRead(head, u.keys, StructuresBytes(u.structures), review, StructuresFlows(u.structures) + end);
    Regroup([review] + KeyFlows(u.keys), StructuresFlows(u.structures), end);
  }

  lemma StructuresPart(updateType: byte, u: Update)
    requires WellFormed(updateType, u)
    ensures var flows, b, n := UpdateFlows(updateType, u), UpdateBytes(u), |u.structures|;
            var start := 32 + 33 * |u.keys|;
            && ShowsStructures(flows, 1 + |u.keys|, b, start, n)
            && |flows| == 1 + |u.keys| + StructureAt(b, start, n).1 + 1
  {
    hide StructuresBytes, StructuresFlows, StructureAt, ShowsStructures, Structures, Flat, Put2, KeyFlow, VersionOf,
        StructureCount, TypeText;
    FlatLength(u.keys, 33);
    var head := u.header + [u.prefix] + Put2(|u.keys|) + Flat(u.keys);
    var review := [REVIEW, Continue("Update", TypeText(updateType))];
    StructuresRead(head, u.structures, [review] + KeyFlows(u.keys), [[Sign, Decline]]);
  }

  lemma Ends(updateType: byte, u: Update)
    requires WellFormed(updateType, u)
    ensures var flows, b := UpdateFlows(updateType, u), UpdateBytes(u);
            && Prefix(updateType, b[29], |u.structures|) && |b| >= 32 && Value(256, b[30..32]) == |u.keys|
            && flows[0] == [Show("Review", "transaction"),
                            Continue("Update", KindText(updateType))]
            && flows[|flows| - 1] == [Sign, Decline]
  {
    Numbers(updateType, u.prefix, |u.structures|);
    TypeNamed(updateType, u.prefix, |u.structures|);
    hide StructuresBytes, StructuresFlows, Structures, Flat, Put2, Value, KeyFlows, VersionOf, StructureCount, Prefix,
        TypeText;
    HeadOf(u.header, u.prefix, |u.keys|, Flat(u.keys), StructuresBytes(u.structures));
  }

  lemma UpdateShown(updateType: byte, u: Update)
    requires WellFormed(updateType, u)
    ensures ShowsUpdate(updateType, UpdateFlows(updateType, u), UpdateBytes(u))
  {
    hide UpdateFlows, UpdateBytes, WellFormed, StructureAt, ShowsStructures, ShowsKeys, Value, Prefix;
    KeysPart(updateType, u);
    StructuresPart(updateType, u);
    Ends(updateType, u);
  }

  lemma TypeNamed(updateType: byte, prefix: byte, n: nat)
    requires Prefix(updateType, prefix, n)
    ensures TypeText(updateType) == if updateType == 10 then "Level 2 w. root keys" else "Level 2 w. level 1 keys"
  {
  }

  /** Whatever packets and presses led to the sign screen: the screens say what the signed bytes are, and the
      version was announced by P2. */
  lemma SignedShows(updateType: byte, events: seq<Event>, b: bytes)
    requires Signs(updateType, events, b)
    ensures var p := Run(Taker(updateType), BEGIN, events).value;
            ProgressOk(updateType, p) && ShowsUpdate(updateType, Rendered(updateType, p), b)
  {
    hide ProgressOk, WellFormed, Run, Gathered, UpdateBytes, UpdateFlows, Rendered, ShowsUpdate;
    SignedIsShown(updateType, events);
    UpdateShown(updateType, Received(Run(Taker(updateType), BEGIN, events).value));
  }

  /** P2 says how many structures there will be: 0, 1 and 2 stand for 12, 14 and 15. */
  lemma VersionAnnounced(updateType: byte, packet: Packet)
    requires Take(updateType, BEGIN, Host(packet)).Ok?
    ensures var q := Take(updateType, BEGIN, Host(packet)).value;
            Prefix(updateType, q.prefix, match packet.p2 case 0 => 12 case 1 => 14 case _ => 15) && packet.p2 <= 2
  {
  }
}
