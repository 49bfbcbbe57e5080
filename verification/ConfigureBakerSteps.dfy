/** The steps of configure-baker: one for each announced field, several for a long URL, in the order of the
    bits, and each says what its field is. */
module ConfigureBakerSteps {
  import opened Bytes
  import opened Lists
  import opened Positional
  import opened Device
  import opened Runs
  import opened NumberHelpers
  import opened Screens
  import opened Readback
  import opened ConfigureBakerTx
  import opened ConfigureBakerRuns
  import opened ConfigureBakerFormat
  import opened ConfigureBakerShown
  import BigEndian

  // ------------------------------------------------------------------ what steps say

  function TitleOf(step: Step): (r: string) {
    match step
    case Show(title, _) => title
    case Continue(title, _) => title
    case _ => ""
  }

  /** The field that a step belongs to, by its title. */
  function FieldOf(step: Step): (r: Option<nat>) {
    var title := TitleOf(step);
    if title == "Stop" || title == "Amount to stake" then Some(0)
    else if title == "Restake earnings" then Some(1)
    else if title == "Pool status" then Some(2)
    else if title == "Update baker" then Some(3)
    else if title == "URL" || title == "Empty URL" then Some(4)
    else if title == "Transaction fee" then Some(5)
    else if title == "Baking reward" then Some(6)
    else if title == "Finalization reward" then Some(7)
    else None
  }

  ghost predicate ShowsField(i: nat, step: Step, field: bytes)
    requires FieldOk(i, field)
  {
    match i
    case 0 =>
      if Value(256, field) == 0 then step == Show("Stop", "baking")
      else Titled(step, "Amount to stake") && ShowsAmount(step.text, field)
    case 1 => step == Show("Restake earnings", if field[0] == 0 then "No" else "Yes")
    case 2 =>
      step == Show("Pool status", if field[0] == 0 then "Open for all" else if field[0] == 1 then "Closed for new"
                                  else "Closed for all")
    case 3 => step == Show("Update baker", "keys")
    case 4 => if |field| == 2 then step == Show("Empty URL", "") else TitleOf(step) == "URL"
    case 5 => Titled(step, "Transaction fee") && ShowsPercentage(step.text, field)
    case 6 => Titled(step, "Baking reward") && ShowsPercentage(step.text, field)
    case _ => Titled(step, "Finalization reward") && ShowsPercentage(step.text, field)
  }

  /** The steps of an announced field; only a URL can have more than one. */
  ghost predicate ShownBy(announced: bool, i: nat, steps: Flow, field: bytes) {
    if announced then
      && FieldOk(i, field) && steps != [] && (i != 4 ==> |steps| == 1)
      && forall k | 0 <= k < |steps| :: ShowsField(i, steps[k], field)
    else steps == []
  }

  /** All steps of some flows. */
  function Joined(flows: seq<Flow>): (r: Flow) {
    if flows == [] then [] else Joined(flows[..|flows| - 1]) + flows[|flows| - 1]
  }

  /** Those that belong to a field. */
  function OfFields(steps: Flow): (r: Flow) {
    if steps == [] then []
    else
      var n := |steps| - 1;
      OfFields(steps[..n]) + (if FieldOf(steps[n]).Some? then [steps[n]] else [])
  }

  /** One group of steps for each field, from the lowest bit on. */
  ghost predicate ShowsFields(bitmap: nat, fields: seq<bytes>, steps: Flow)
    requires |fields| == 8
  {
    exists groups: seq<Flow> ::
      && |groups| == 8 && OfFields(steps) == Joined(groups)
      && forall i | 0 <= i < 8 :: ShownBy(Bit(bitmap, i), i, groups[i], fields[i])
  }

  // ------------------------------------------------------------------ joining

  lemma {:induction false} JoinedConcat(a: seq<Flow>, b: seq<Flow>)
    ensures Joined(a + b) == Joined(a) + Joined(b)
  {
    if b == [] {
      assert a + b == a;
    } else {
      var n := |b| - 1;
      JoinedConcat(a, b[..n]);
      assert (a + b)[..|a| + n] == a + b[..n];
      Regroup(Joined(a), Joined(b[..n]), b[n]);
    }
  }

  lemma JoinedOne(flow: Flow)
    ensures Joined([flow]) == flow
  {
    assert [flow][..0] == [];
  }

  lemma {:induction false} OfFieldsConcat(a: Flow, b: Flow)
    ensures OfFields(a + b) == OfFields(a) + OfFields(b)
  {
    hide FieldOf;
    if b == [] {
      assert a + b == a;
    } else {
      var n := |b| - 1;
      OfFieldsConcat(a, b[..n]);
      assert (a + b)[..|a| + n] == a + b[..n];
    }
  }

  lemma OfFieldsOne(step: Step)
    ensures OfFields([step]) == if FieldOf(step).Some? then [step] else []
  {
    hide FieldOf;
    assert [step][..0] == [];
  }

  lemma JoinedEight(a: Flow, b: Flow, c: Flow, d: Flow, e: Flow, f: Flow, g: Flow, h: Flow)
    ensures Joined([a, b, c, d, e, f, g, h]) == a + b + c + d + e + f + g + h
  {
    JoinedFour(a, b, c, d);
    JoinedFour(e, f, g, h);
    JoinedConcat([a, b, c, d], [e, f, g, h]);
    assert [a, b, c, d, e, f, g, h] == [a, b, c, d] + [e, f, g, h];
    hide Joined;
    assert a + b + c + d + (e + f + g + h) == a + b + c + d + e + f + g + h;
  }

  lemma JoinedFour(a: Flow, b: Flow, c: Flow, d: Flow)
    ensures Joined([a, b, c, d]) == a + b + c + d
  {
    JoinedOne(a);
    JoinedConcat([a], [b]);
    JoinedOne(b);
    JoinedConcat([a] + [b], [c]);
    JoinedOne(c);
    JoinedConcat([a] + [b] + [c], [d]);
    JoinedOne(d);
    assert [a, b, c, d] == [a] + [b] + [c] + [d];
  }

  // ------------------------------------------------------------------ the flows

  lemma Kept(part: Flow)
    requires part != [] ==> |part| == 1 && FieldOf(part[0]).Some?
    ensures OfFields(part) == part
  {
    hide FieldOf;
    if part != [] {
      OfFieldsOne(part[0]);
      assert part == [part[0]];
    }
  }

  lemma Dropped()
    ensures OfFields([PROCEED]) == [] && OfFields(CONFIRM) == [] && OfFields([Show("Commission", "rates")]) == []
  {
    OfFieldsOne(PROCEED);
    OfFieldsConcat([Sign], [Decline]);
    OfFieldsOne(Sign);
    OfFieldsOne(Decline);
    OfFieldsOne(Show("Commission", "rates"));
    assert CONFIRM == [Sign] + [Decline];
  }

  lemma Introducing(sender: string)
    ensures OfFields([REVIEW, Show("Sender", sender)]) == []
  {
    OfFieldsConcat([REVIEW], [Show("Sender", sender)]);
    OfFieldsOne(REVIEW);
    OfFieldsOne(Show("Sender", sender));
    assert [REVIEW, Show("Sender", sender)] == [REVIEW] + [Show("Sender", sender)];
  }

  lemma FirstKept(f: Fields, b: bytes)
    requires FirstOk(f, b)
    ensures OfFields(CapitalPart(f, b)) == CapitalPart(f, b) && OfFields(RestakePart(f, b)) == RestakePart(f, b)
    ensures OfFields(OpenPart(f, b)) == OpenPart(f, b) && OfFields(FirstTail(f)) == []
    ensures OfFields(If(f.keys, Show("Update baker", "keys"))) == If(f.keys, Show("Update baker", "keys"))
  {
    hide AmountText, RestakeText, OpenText, U8BE, OfFields;
    Dropped();
    Kept(CapitalPart(f, b));
    Kept(RestakePart(f, b));
    Kept(OpenPart(f, b));
    Kept(If(f.keys, Show("Update baker", "keys")));
  }

  lemma FirstFlow(f: Fields, b: bytes)
    requires FirstOk(f, b)
    ensures OfFields(FirstBody(f, b))
         == CapitalPart(f, b) + (RestakePart(f, b) + (OpenPart(f, b) + If(f.keys, Show("Update baker", "keys"))))
  {
    hide OfFields, CapitalPart, RestakePart, OpenPart, If, FirstTail, FirstBody, FirstOk;
    FirstParts(f, b);
    FirstKept(f, b);
    var keys, tail := If(f.keys, Show("Update baker", "keys")), FirstTail(f);
    OfFieldsConcat(CapitalPart(f, b), RestakePart(f, b) + (OpenPart(f, b) + (keys + tail)));
    OfFieldsConcat(RestakePart(f, b), OpenPart(f, b) + (keys + tail));
    OfFieldsConcat(OpenPart(f, b), keys + tail);
    OfFieldsConcat(keys, tail);
    assert keys + [] == keys;
  }

  lemma RatesKept(f: Fields, b: bytes)
    requires RatesOk(f, b)
    ensures var x, y, z := RatePart(f.fee, "Transaction fee", b, 0), RatePart(f.reward, "Baking reward", b, FeeEnd(f)),
                           RatePart(f.finalization, "Finalization reward", b, RewardEnd(f));
            OfFields(x) == x && OfFields(y) == y && OfFields(z) == z
  {
    hide PercentText, U4BE, OfFields;
    Kept(RatePart(f.fee, "Transaction fee", b, 0));
    Kept(RatePart(f.reward, "Baking reward", b, FeeEnd(f)));
    Kept(RatePart(f.finalization, "Finalization reward", b, RewardEnd(f)));
  }

  lemma RatesFlow(f: Fields, b: bytes)
    requires RatesOk(f, b)
    ensures OfFields(RatesBody(f, b))
         == RatePart(f.fee, "Transaction fee", b, 0) + (RatePart(f.reward, "Baking reward", b, FeeEnd(f))
            + RatePart(f.finalization, "Finalization reward", b, RewardEnd(f)))
  {
    hide OfFields, RatePart, RatesBody, U4BE;
    RatesParts(f, b);
    RatesKept(f, b);
    Dropped();
    var x, y, z := RatePart(f.fee, "Transaction fee", b, 0), RatePart(f.reward, "Baking reward", b, FeeEnd(f)),
                   RatePart(f.finalization, "Finalization reward", b, RewardEnd(f));
    OfFieldsConcat([Show("Commission", "rates")], x + (y + (z + CONFIRM)));
    OfFieldsConcat(x, y + (z + CONFIRM));
    OfFieldsConcat(y, z + CONFIRM);
    OfFieldsConcat(z, CONFIRM);
    assert z + [] == z && [] + (x + (y + z)) == x + (y + z);
  }

  // ------------------------------------------------------------------ the URL

  ghost predicate UrlShown(empty: bool, step: Step) {
    if empty then step == Show("Empty URL", "") else TitleOf(step) == "URL"
  }

  /** Each flow has one step for the URL, in front. */
  ghost predicate UrlFlows(empty: bool, flows: seq<Flow>) {
    forall i | 0 <= i < |flows| :: UrlFlow(empty, flows[i])
  }

  ghost predicate UrlFlow(empty: bool, flow: Flow) {
    flow != [] && UrlShown(empty, flow[0]) && OfFields(flow[1..]) == []
  }

  lemma UrlFlowSteps(empty: bool, flow: Flow)
    requires UrlFlow(empty, flow)
    ensures OfFields(flow) == [flow[0]]
  {
    OfFieldsConcat([flow[0]], flow[1..]);
    OfFieldsOne(flow[0]);
    assert flow == [flow[0]] + flow[1..];
  }

  lemma {:induction false} UrlSteps(empty: bool, flows: seq<Flow>)
    requires UrlFlows(empty, flows)
    ensures var steps := OfFields(Joined(flows));
            |steps| == |flows| && forall k | 0 <= k < |steps| :: UrlShown(empty, steps[k])
  {
    hide OfFields, UrlShown;
    if flows != [] {
      var n := |flows| - 1;
      UrlSteps(empty, flows[..n]);
      assert UrlFlow(empty, flows[n]);
      OfFieldsConcat(Joined(flows[..n]), flows[n]);
      UrlFlowSteps(empty, flows[n]);
      hide UrlFlow, UrlFlows;
    } else {
      NoSteps();
    }
  }

  lemma NoSteps()
    ensures OfFields([]) == [] && Joined([]) == []
  {
  }

  lemma PageFlow(f: Fields, buffer: UrlBuffer, piece: bytes)
    ensures UrlFlow(false, NextPage(buffer)) && UrlFlow(false, LastPage(f, UrlStep(piece)))
    ensures UrlFlow(true, LastPage(f, Show("Empty URL", "")))
  {
    hide CText, OfFields;
    Dropped();
    NoSteps();
    var tail := if f.Rates() then [PROCEED] else CONFIRM;
    assert LastPage(f, UrlStep(piece))[1..] == tail && LastPage(f, Show("Empty URL", ""))[1..] == tail;
    assert NextPage(buffer)[1..] == [];
  }

  lemma PagesRead(f: Fields, url: UrlBuffer, pieces: seq<bytes>)
    requires Chunks(pieces)
    ensures UrlFlows(false, Pages(f, url, pieces, true))
  {
    hide BufferAfter, LastPage, NextPage, UrlStep, UrlFlow;
    forall i | 0 <= i < |pieces|
      ensures UrlFlow(false, Pages(f, url, pieces, true)[i])
    {
      PageFlow(f, BufferAfter(url, pieces[..i + 1]), pieces[i]);
    }
  }

  lemma UrlPages(url: UrlBuffer, p: Progress)
    requires ProgressOk(p) && p.stage.End?
    ensures UrlFlows(p.length == 0, UrlBodies(url, p)) && (UrlBodies(url, p) != [] <==> p.fields.url)
  {
    hide FieldsOf, FirstOk, RatesOk, LastPage, UrlFlow, AllAt, Flat, Pages;
    UrlAt(url, p);
    PageFlow(p.fields, url, []);
    PagesRead(p.fields, url, p.pieces);
  }

  // ------------------------------------------------------------------ each field is shown

  lemma CapitalShown(f: Fields, b: bytes)
    requires FirstOk(f, b)
    ensures ShownBy(f.capital, 0, CapitalPart(f, b), b[..CapitalEnd(f)])
  {
    hide AmountText, U8BE, Value, ShowsAmount;
    if f.capital {
      var field := b[..8];
      assert field[0..8] == field == b[0..8];
      BigEndian.Read8(b, 0);
      BigEndian.Read8(field, 0);
      AmountShown(field);
    }
  }

  lemma StatesShown(f: Fields, b: bytes)
    requires FirstOk(f, b)
    ensures ShownBy(f.restake, 1, RestakePart(f, b), b[CapitalEnd(f)..RestakeEnd(f)])
    ensures ShownBy(f.open, 2, OpenPart(f, b), b[RestakeEnd(f)..OpenEnd(f)])
  {
  }

  lemma KeysShown(announced: bool, keys: bytes)
    requires |keys| == (if announced then 192 + 160 else 0)
    ensures ShownBy(announced, 3, If(announced, Show("Update baker", "keys")), keys)
  {
  }

  lemma RateShown(announced: bool, i: nat, b: bytes, at: nat, next: nat)
    requires i == 5 || i == 6 || i == 7
    requires at <= next <= |b| && next == at + (if announced then 4 else 0) && (announced ==> U4BE(b, at) <= MAX_RATE)
    ensures var title := if i == 5 then "Transaction fee" else if i == 6 then "Baking reward"
                         else "Finalization reward";
            ShownBy(announced, i, RatePart(announced, title, b, at), b[at..next])
  {
    hide PercentText, U4BE, Value, ShowsPercentage;
    if announced {
      var field := b[at..next];
      BigEndian.Read4(b, at);
      BigEndian.Read4(field, 0);
      assert field[0..4] == field;
      PercentageShown(field);
    }
  }

  lemma RatesShown(f: Fields, b: bytes)
    requires RatesOk(f, b)
    ensures ShownBy(f.fee, 5, RatePart(f.fee, "Transaction fee", b, 0), b[..FeeEnd(f)])
    ensures ShownBy(f.reward, 6, RatePart(f.reward, "Baking reward", b, FeeEnd(f)), b[FeeEnd(f)..RewardEnd(f)])
    ensures ShownBy(f.finalization, 7, RatePart(f.finalization, "Finalization reward", b, RewardEnd(f)),
        b[RewardEnd(f)..])
  {
    hide U4BE, RatePart, ShownBy;
    RateShown(f.fee, 5, b, 0, FeeEnd(f));
    RateShown(f.reward, 6, b, FeeEnd(f), RewardEnd(f));
    RateShown(f.finalization, 7, b, RewardEnd(f), |b|);
    assert b[0..FeeEnd(f)] == b[..FeeEnd(f)] && b[RewardEnd(f)..|b|] == b[RewardEnd(f)..];
  }

  lemma UrlShownBy(url: UrlBuffer, p: Progress)
    requires ProgressOk(p) && p.stage.End?
    ensures |Flat(p.pieces)| <= MAX_URL
    ensures ShownBy(p.fields.url, 4, OfFields(Joined(UrlBodies(url, p))), UrlPart(p.fields.url, Flat(p.pieces)))
  {
    UrlPages(url, p);
    UrlSteps(p.length == 0, UrlBodies(url, p));
    UrlField(Flat(p.pieces));
    hide UrlFlows, UrlBodies, FieldsOf, FirstOk, RatesOk, Put2;
    NoSteps();
    if p.fields.url { assert |UrlPart(true, Flat(p.pieces))| == 2 + p.length; }
  }

  // ------------------------------------------------------------------ all of them

  /** The steps that belong to a field, flow by flow. */
  lemma BodySteps(url: UrlBuffer, p: Progress)
    requires ProgressOk(p) && p.stage.End?
    ensures FirstOk(p.fields, p.first) && RatesOk(p.fields, p.rates)
    ensures OfFields(Joined(FirstBodies(p)))
         == CapitalPart(p.fields, p.first) + (RestakePart(p.fields, p.first)
            + (OpenPart(p.fields, p.first) + If(p.fields.keys, Show("Update baker", "keys"))))
    ensures var f, b := p.fields, p.rates;
            OfFields(Joined(RatesBodies(p)))
            == RatePart(f.fee, "Transaction fee", b, 0)
               + (RatePart(f.reward, "Baking reward", b, FeeEnd(f))
                  + RatePart(f.finalization, "Finalization reward", b, RewardEnd(f)))
  {
    hide FieldsOf, AmountText, RestakeText, OpenText, U8BE, U4BE, PercentText, FirstBody, RatesBody, Flat, OfFields;
    NoSteps();
    if p.fields.First() {
      FirstFlow(p.fields, p.first);
      JoinedOne(FirstBody(p.fields, p.first));
    }
    if p.fields.Rates() {
      RatesFlow(p.fields, p.rates);
      JoinedOne(RatesBody(p.fields, p.rates));
    }
  }

  lemma IntroducedSteps(sha: Sha256, header: bytes, bodies: seq<Flow>)
    requires |header| == 61
    ensures OfFields(Joined(Introduced(sha, header, bodies))) == OfFields(Joined(bodies))
  {
    if bodies != [] {
      hide OfFields, AddressChars;
      var sender := AddressChars(sha, header[..32]);
      var intro, body, rest := [REVIEW, Show("Sender", sender)], bodies[0], bodies[1..];
      assert bodies == [body] + rest;
      JoinedConcat([body], rest);
      JoinedConcat([intro + body], rest);
      JoinedOne(body);
      JoinedOne(intro + body);
      Introducing(sender);
      OfFieldsConcat(intro, body);
      OfFieldsConcat(intro + body, Joined(rest));
      OfFieldsConcat(body, Joined(rest));
      assert [] + OfFields(body) == OfFields(body);
    }
  }

  function Groups(url: UrlBuffer, p: Progress): (r: seq<Flow>)
    requires ProgressOk(p) && FirstOk(p.fields, p.first) && RatesOk(p.fields, p.rates)
    ensures |r| == 8
  {
    var f := p.fields;
    [CapitalPart(f, p.first), RestakePart(f, p.first), OpenPart(f, p.first), If(f.keys, Show("Update baker", "keys")),
     OfFields(Joined(UrlBodies(url, p))),
     RatePart(f.fee, "Transaction fee", p.rates, 0), RatePart(f.reward, "Baking reward", p.rates, FeeEnd(f)),
     RatePart(f.finalization, "Finalization reward", p.rates, RewardEnd(f))]
  }

  lemma GroupsJoined(v: Before, p: Progress)
    requires ProgressOk(p) && p.stage.End?
    ensures FirstOk(p.fields, p.first) && RatesOk(p.fields, p.rates)
    ensures OfFields(Joined(Rendered(v, p))) == Joined(Groups(v.url, p))
  {
    hide FirstBodies, RatesBodies, UrlBodies, CapitalPart, RestakePart, OpenPart, If, RatePart, OfFields, FirstOk,
        RatesOk,
        FirstEnd, RatesEnd, Introduced, Flat;
    BodySteps(v.url, p);
    BodiesOf(v.url, p);
    EndOk(p);
    hide ProgressOk, Bodies;
    IntroducedSteps(v.sha, p.header, Bodies(v.url, p));
    JoinedConcat(FirstBodies(p) + UrlBodies(v.url, p), RatesBodies(p));
    JoinedConcat(FirstBodies(p), UrlBodies(v.url, p));
    OfFieldsConcat(Joined(FirstBodies(p)) + Joined(UrlBodies(v.url, p)), Joined(RatesBodies(p)));
    OfFieldsConcat(Joined(FirstBodies(p)), Joined(UrlBodies(v.url, p)));
    var g := Groups(v.url, p);
    JoinedEight(g[0], g[1], g[2], g[3], g[4], g[5], g[6], g[7]);
    assert g == [g[0], g[1], g[2], g[3], g[4], g[5], g[6], g[7]];
    Nest(g[0], g[1], g[2], g[3], g[4], g[5], g[6], g[7]);
  }

  lemma Nest(a: Flow, b: Flow, c: Flow, d: Flow, e: Flow, f: Flow, g: Flow, h: Flow)
    ensures a + (b + (c + d)) + e + (f + (g + h)) == a + b + c + d + e + f + g + h
  {
  }

  lemma FirstGroups(url: UrlBuffer, p: Progress)
    requires ProgressOk(p) && p.stage.End? && WellFormed(Received(p)) && p.fields == FieldsOf(p.bitmap)
    ensures var f, groups, fields := p.fields, Groups(url, p), FieldsIn(Received(p));
            && ShownBy(f.capital, 0, groups[0], fields[0]) && ShownBy(f.restake, 1, groups[1], fields[1])
            && ShownBy(f.open, 2, groups[2], fields[2]) && ShownBy(f.keys, 3, groups[3], fields[3])
  {
    hide CapitalPart, RestakePart, OpenPart, If, RatePart, OfFields, UrlBodies, FieldsOf, ShownBy, Flat, UrlPart,
        ProgressOk,
        RatesOk;
    CapitalShown(p.fields, p.first);
    StatesShown(p.fields, p.first);
    KeysShown(p.fields.keys, p.first[OpenEnd(p.fields)..] + p.aggregation);
  }

  lemma OtherGroups(url: UrlBuffer, p: Progress)
    requires ProgressOk(p) && p.stage.End? && WellFormed(Received(p)) && p.fields == FieldsOf(p.bitmap)
    ensures var f, groups, fields := p.fields, Groups(url, p), FieldsIn(Received(p));
            && ShownBy(f.url, 4, groups[4], fields[4]) && ShownBy(f.fee, 5, groups[5], fields[5])
            && ShownBy(f.reward, 6, groups[6], fields[6]) && ShownBy(f.finalization, 7, groups[7], fields[7])
  {
    hide CapitalPart, RestakePart, OpenPart, If, RatePart, OfFields, UrlBodies, FieldsOf, ShownBy, Flat, UrlPart,
        ProgressOk,
        FirstOk;
    UrlShownBy(url, p);
    RatesShown(p.fields, p.rates);
  }

  lemma GroupsShow(url: UrlBuffer, p: Progress)
    requires ProgressOk(p) && p.stage.End? && WellFormed(Received(p)) && p.fields == FieldsOf(p.bitmap)
    ensures var groups, fields := Groups(url, p), FieldsIn(Received(p));
            forall i | 0 <= i < 8 :: ShownBy(Bit(p.bitmap, i), i, groups[i], fields[i])
  {
    hide FieldsIn, FieldsOf, Bit, ShownBy, ProgressOk, RatesOk, FirstOk;
    FirstGroups(url, p);
    OtherGroups(url, p);
    Bits(p.bitmap);
    hide Groups;
    var groups, fields := Groups(url, p), FieldsIn(Received(p));
    forall i | 0 <= i < 8
      ensures ShownBy(Bit(p.bitmap, i), i, groups[i], fields[i])
    {
      assert i == 0 || i == 1 || i == 2 || i == 3 || i == 4 || i == 5 || i == 6 || i == 7;
    }
  }

  /** The signed bytes, and the screens: the sender of the header, and then for each bit that is set one
      group of steps that shows the field of that bit, in the same order; no step belongs to another field. */
  ghost predicate Shows(sha: Sha256, flows: seq<Flow>, b: bytes) {
    && |b| >= 63
    && var bitmap := Value(256, b[61..63]);
       && (exists fields :: Announced(bitmap, fields) && b[63..] == Flat(fields)
             && ShowsFields(bitmap, fields, Joined(flows)))
       && flows != [] && |flows[0]| >= 2 && flows[0][0] == Show("Review", "transaction")
       && Titled(flows[0][1], "Sender") && ShowsAddress(sha, flows[0][1].text, b[..32])
  }

  lemma SenderShown(v: Before, p: Progress)
    requires ProgressOk(p) && p.stage.End?
    ensures var flows := Rendered(v, p);
            && flows != [] && |flows[0]| >= 2 && flows[0][0] == Show("Review", "transaction")
            && Titled(flows[0][1], "Sender") && |p.header| == 61
            && ShowsAddress(v.sha, flows[0][1].text, p.header[..32])
  {
    FirstAt(p);
    UrlAt(v.url, p);
    RatesAt(p);
    hide FirstBodies, RatesBodies, UrlBodies, AllAt, AddressChars, ShowsAddress, FieldsOf, FirstOk, RatesOk;
    AddressShown(v.sha, p.header[..32]);
    assert Bodies(v.url, p) != [];
  }

  lemma SignedShows(v: Before, packets: seq<Packet>, b: bytes)
    requires Signs(packets, b)
    ensures var p := Run(Accept, BEGIN, packets).value; ProgressOk(p) && Shows(v.sha, Rendered(v, p), b)
  {
    SignedIsTx(packets, b);
    EndShows(v, Run(Accept, BEGIN, packets).value, b);
  }

  lemma EndShows(v: Before, p: Progress, b: bytes)
    requires ProgressOk(p) && p.stage.End? && WellFormed(Received(p)) && TxBytes(Received(p)) == b
    ensures Shows(v.sha, Rendered(v, p), b)
  {
    hide ShowsFields, ShowsAddress, Rendered, ProgressOk, WellFormed, Announced, Value, Joined, Flat, TxBytes, FieldsOf;
    SenderShown(v, p);
    FieldsShown(v, p);
    FieldsSigned(Received(p));
    var fields := FieldsIn(Received(p));
    assert Announced(Value(256, b[61..63]), fields) && b[63..] == Flat(fields);
  }

  lemma FieldsShown(v: Before, p: Progress)
    requires ProgressOk(p) && p.stage.End? && WellFormed(Received(p))
    ensures ShowsFields(p.bitmap, FieldsIn(Received(p)), Joined(Rendered(v, p)))
  {
    FieldsAre(p);
    GroupsJoined(v, p);
    GroupsShow(v.url, p);
    hide Groups, FieldsIn, FieldsOf, Bit, ShownBy, ProgressOk, OfFields, Joined, Rendered, WellFormed, Received;
  }

  lemma FieldsAre(p: Progress)
    requires ProgressOk(p) && p.stage.End?
    ensures p.fields == FieldsOf(p.bitmap)
  {
    hide FieldsOf, FirstOk, RatesOk, Flat;
  }

  lemma FieldsSigned(tx: Tx)
    requires WellFormed(tx)
    ensures var b := TxBytes(tx);
            && |b| >= 63 && b[..32] == tx.header[..32] && Value(256, b[61..63]) == tx.bitmap
            && Announced(tx.bitmap, FieldsIn(tx)) && b[63..] == Flat(FieldsIn(tx))
  {
    FieldsAnnounced(tx);
    FieldsFlat(tx);
    hide FieldsOf, FirstOk, RatesOk, BitmapOk, Announced, Put2, Value, FieldsIn, Flat, UrlPart;
    BigEndian.Wrote2(tx.bitmap);
    HeadOf(tx.header, tx.bitmap, tx.first, tx.aggregation, UrlPart(FieldsOf(tx.bitmap).url, tx.url), tx.rates);
    assert TxBytes(tx)[..32] == TxBytes(tx)[..61][..32];
  }
}
