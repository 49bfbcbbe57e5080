/** The screens of a configure-baker transaction determine it as far as it is shown. */
module ConfigureBakerShown {
  import opened Bytes
  import opened Lists
  import opened Device
  import opened NumberHelpers
  import Screens
  import opened ConfigureBakerTx

  // ------------------------------------------------------------------ optional steps

  /** The place of a step in its flow, by its title; zero for the steps that end it. */
  function Place(s: Step): (r: nat) {
    if !s.Show? then 0
    else if s.title == "Stop" || s.title == "Amount to stake" then 1
    else if s.title == "Restake earnings" then 2
    else if s.title == "Pool status" then 3
    else if s.title == "Update baker" then 4
    else if s.title == "Commission" then 5
    else if s.title == "Transaction fee" then 6
    else if s.title == "Baking reward" then 7
    else if s.title == "Finalization reward" then 8
    else 0
  }

  ghost predicate Optional(o: Flow, place: nat) {
    o == [] || (|o| == 1 && Place(o[0]) == place)
  }

  /** What follows the step at a place: nothing that belongs there. */
  ghost predicate Beyond(r: Flow, place: nat) {
    r != [] && (Place(r[0]) == 0 || Place(r[0]) > place)
  }

  lemma SplitOptional(a: Flow, r: Flow, b: Flow, s: Flow, place: nat)
    requires place > 0 && Optional(a, place) && Optional(b, place) && Beyond(r, place) && Beyond(s, place)
    requires a + r == b + s
    ensures a == b && r == s
  {
    hide Place;
    assert a == [] ==> a + r == r;
    assert b == [] ==> b + s == s;
    assert a != [] ==> (a + r)[0] == a[0];
    assert b != [] ==> (b + s)[0] == b[0];
    if |a| == |b| { Split(a, b, r, s); }
  }

  lemma BeyondOptional(a: Flow, r: Flow, place: nat, before: nat)
    requires before < place && Optional(a, place) && Beyond(r, place)
    ensures Beyond(a + r, before)
  {
    hide Place;
    if a == [] { assert a + r == r; }
  }

  // ------------------------------------------------------------------ the first flow

  function CapitalPart(f: Fields, b: bytes): (r: Flow)
    requires FirstOk(f, b)
  {
    if f.capital then [CapitalStep(b)] else []
  }

  function RestakePart(f: Fields, b: bytes): (r: Flow)
    requires FirstOk(f, b)
  {
    if f.restake then [Show("Restake earnings", RestakeText(b[CapitalEnd(f)]))] else []
  }

  function OpenPart(f: Fields, b: bytes): (r: Flow)
    requires FirstOk(f, b)
  {
    if f.open then [Show("Pool status", OpenText(b[RestakeEnd(f)]))] else []
  }

  function FirstTail(f: Fields): (r: Flow) {
    if f.url || f.Rates() then [PROCEED] else CONFIRM
  }

  lemma FirstParts(f: Fields, b: bytes)
    requires FirstOk(f, b)
    ensures FirstBody(f, b) == CapitalPart(f, b) + (RestakePart(f, b) + (OpenPart(f, b)
                               + (If(f.keys, Show("Update baker", "keys")) + FirstTail(f))))
    ensures Optional(CapitalPart(f, b), 1) && Optional(RestakePart(f, b), 2) && Optional(OpenPart(f, b), 3)
    ensures Optional(If(f.keys, Show("Update baker", "keys")), 4) && Beyond(FirstTail(f), 4)
  {
    hide AmountText, RestakeText, OpenText, U8BE;
  }

  /** The values that the first flow shows. */
  ghost predicate SameFirst(f: Fields, b: bytes, g: Fields, c: bytes)
    requires FirstOk(f, b) && FirstOk(g, c)
  {
    && f.capital == g.capital && f.restake == g.restake && f.open == g.open && f.keys == g.keys
    && (f.url || f.Rates() <==> g.url || g.Rates())
    && (f.capital ==> U8BE(b, 0) == U8BE(c, 0))
    && (f.restake ==> b[CapitalEnd(f)] == c[CapitalEnd(g)])
    && (f.open ==> b[RestakeEnd(f)] == c[RestakeEnd(g)])
  }

  lemma CapitalSame(b: bytes, c: bytes)
    requires |b| >= 8 && |c| >= 8
    ensures CapitalStep(b) == CapitalStep(c) <==> U8BE(b, 0) == U8BE(c, 0)
  {
    hide AmountText, U8BE;
    AmountRoundTrip(U8BE(b, 0));
    AmountRoundTrip(U8BE(c, 0));
  }

  lemma PartsSame(f: Fields, b: bytes, g: Fields, c: bytes)
    requires FirstOk(f, b) && FirstOk(g, c)
    ensures CapitalPart(f, b) == CapitalPart(g, c)
            <==> f.capital == g.capital && (f.capital ==> U8BE(b, 0) == U8BE(c, 0))
    ensures RestakePart(f, b) == RestakePart(g, c)
            <==> f.restake == g.restake && (f.restake ==> b[CapitalEnd(f)] == c[CapitalEnd(g)])
    ensures OpenPart(f, b) == OpenPart(g, c)
            <==> f.open == g.open && (f.open ==> b[RestakeEnd(f)] == c[RestakeEnd(g)])
    ensures FirstTail(f) == FirstTail(g) <==> (f.url || f.Rates() <==> g.url || g.Rates())
  {
    if f.capital && g.capital { CapitalSame(b, c); }
    hide AmountText, U8BE, CapitalStep;
    SameSingle(RestakePart(f, b), RestakePart(g, c));
    SameSingle(OpenPart(f, b), OpenPart(g, c));
    SameSingle(CapitalPart(f, b), CapitalPart(g, c));
    if f.restake && g.restake { RestakeSame(b[CapitalEnd(f)], c[CapitalEnd(g)]); }
    if f.open && g.open { OpenSame(b[RestakeEnd(f)], c[RestakeEnd(g)]); }
    hide RestakeText, OpenText;
  }

  lemma SameSingle(x: Flow, y: Flow)
    ensures |x| == |y| == 1 ==> (x == y <==> x[0] == y[0])
  {
  }

  lemma RestakeSame(x: byte, y: byte)
    requires x <= 1 && y <= 1
    ensures RestakeText(x) == RestakeText(y) <==> x == y
  {
    assert |RestakeText(x)| == 2 + x && |RestakeText(y)| == 2 + y;
  }

  lemma OpenSame(x: byte, y: byte)
    requires x <= 2 && y <= 2
    ensures OpenText(x) == OpenText(y) <==> x == y
  {
    assert OpenText(0)[0] == 'O' && OpenText(1)[11] == 'n' && OpenText(2)[11] == 'a' && OpenText(1)[0] == OpenText(2)[0] == 'C';
  }

  lemma FirstSame(f: Fields, b: bytes, g: Fields, c: bytes)
    requires FirstOk(f, b) && FirstOk(g, c)
    ensures FirstBody(f, b) == FirstBody(g, c) <==> SameFirst(f, b, g, c)
  {
    FirstParts(f, b);
    FirstParts(g, c);
    PartsSame(f, b, g, c);
    KeysSame(f.keys, g.keys);
    var k, l := If(f.keys, Show("Update baker", "keys")), If(g.keys, Show("Update baker", "keys"));
    hide FirstBody, CapitalPart, RestakePart, OpenPart, FirstTail, FirstOk, If, Optional, Beyond, U8BE;
    if FirstBody(f, b) == FirstBody(g, c) {
      SplitFour(CapitalPart(f, b), RestakePart(f, b), OpenPart(f, b), k, FirstTail(f),
                CapitalPart(g, c), RestakePart(g, c), OpenPart(g, c), l, FirstTail(g));
    }
  }

  lemma SplitFour(a: Flow, b: Flow, c: Flow, d: Flow, r: Flow, a': Flow, b': Flow, c': Flow, d': Flow, r': Flow)
    requires Optional(a, 1) && Optional(b, 2) && Optional(c, 3) && Optional(d, 4) && Beyond(r, 4)
    requires Optional(a', 1) && Optional(b', 2) && Optional(c', 3) && Optional(d', 4) && Beyond(r', 4)
    requires a + (b + (c + (d + r))) == a' + (b' + (c' + (d' + r')))
    ensures a == a' && b == b' && c == c' && d == d' && r == r'
  {
    hide Optional, Beyond;
    BeyondOptional(d, r, 4, 3);
    BeyondOptional(d', r', 4, 3);
    BeyondOptional(c, d + r, 3, 2);
    BeyondOptional(c', d' + r', 3, 2);
    BeyondOptional(b, c + (d + r), 2, 1);
    BeyondOptional(b', c' + (d' + r'), 2, 1);
    SplitOptional(a, b + (c + (d + r)), a', b' + (c' + (d' + r')), 1);
    SplitOptional(b, c + (d + r), b', c' + (d' + r'), 2);
    SplitOptional(c, d + r, c', d' + r', 3);
    SplitOptional(d, r, d', r', 4);
  }

  lemma KeysSame(x: bool, y: bool)
    ensures If(x, Show("Update baker", "keys")) == If(y, Show("Update baker", "keys")) <==> x == y
  {
  }

  // ------------------------------------------------------------------ the rates

  function RatePart(announced: bool, title: string, b: bytes, at: nat): (r: Flow)
    requires announced ==> at + 4 <= |b|
  {
    if announced then [Show(title, PercentText(U4BE(b, at)))] else []
  }

  lemma RateSame(x: bool, y: bool, title: string, b: bytes, i: nat, c: bytes, j: nat)
    requires (x ==> i + 4 <= |b|) && (y ==> j + 4 <= |c|)
    ensures RatePart(x, title, b, i) == RatePart(y, title, c, j)
            <==> x == y && (x ==> U4BE(b, i) == U4BE(c, j))
  {
    hide PercentText, U4BE;
    SameSingle(RatePart(x, title, b, i), RatePart(y, title, c, j));
    if x && y {
      PercentRoundTrip(U4BE(b, i));
      PercentRoundTrip(U4BE(c, j));
    }
  }

  ghost predicate SameRates(f: Fields, b: bytes, g: Fields, c: bytes)
    requires RatesOk(f, b) && RatesOk(g, c)
  {
    && f.fee == g.fee && f.reward == g.reward && f.finalization == g.finalization
    && (f.fee ==> U4BE(b, 0) == U4BE(c, 0))
    && (f.reward ==> U4BE(b, FeeEnd(f)) == U4BE(c, FeeEnd(g)))
    && (f.finalization ==> U4BE(b, RewardEnd(f)) == U4BE(c, RewardEnd(g)))
  }

  lemma RatesParts(f: Fields, b: bytes)
    requires RatesOk(f, b)
    ensures RatesBody(f, b) == [Show("Commission", "rates")] + (RatePart(f.fee, "Transaction fee", b, 0)
        + (RatePart(f.reward, "Baking reward", b, FeeEnd(f))
           + (RatePart(f.finalization, "Finalization reward", b, RewardEnd(f)) + CONFIRM)))
    ensures Optional(RatePart(f.fee, "Transaction fee", b, 0), 6)
    ensures Optional(RatePart(f.reward, "Baking reward", b, FeeEnd(f)), 7)
    ensures Optional(RatePart(f.finalization, "Finalization reward", b, RewardEnd(f)), 8)
    ensures Beyond(CONFIRM, 8)
  {
    hide PercentText, U4BE;
  }

  lemma RatesSame(f: Fields, b: bytes, g: Fields, c: bytes)
    requires RatesOk(f, b) && RatesOk(g, c)
    ensures RatesBody(f, b) == RatesBody(g, c) <==> SameRates(f, b, g, c)
  {
    RatesParts(f, b);
    RatesParts(g, c);
    RateSame(f.fee, g.fee, "Transaction fee", b, 0, c, 0);
    RateSame(f.reward, g.reward, "Baking reward", b, FeeEnd(f), c, FeeEnd(g));
    RateSame(f.finalization, g.finalization, "Finalization reward", b, RewardEnd(f), c, RewardEnd(g));
    var x, y, z := RatePart(f.fee, "Transaction fee", b, 0), RatePart(f.reward, "Baking reward", b, FeeEnd(f)),
                   RatePart(f.finalization, "Finalization reward", b, RewardEnd(f));
    var u, v, w := RatePart(g.fee, "Transaction fee", c, 0), RatePart(g.reward, "Baking reward", c, FeeEnd(g)),
                   RatePart(g.finalization, "Finalization reward", c, RewardEnd(g));
    hide RatesBody, RatePart, Optional, Beyond, U4BE;
    if RatesBody(f, b) == RatesBody(g, c) {
      Split([Show("Commission", "rates")], [Show("Commission", "rates")], x + (y + (z + CONFIRM)), u + (v + (w + CONFIRM)));
      BeyondOptional(z, CONFIRM, 8, 7);
      BeyondOptional(w, CONFIRM, 8, 7);
      BeyondOptional(y, z + CONFIRM, 7, 6);
      BeyondOptional(v, w + CONFIRM, 7, 6);
      SplitOptional(x, y + (z + CONFIRM), u, v + (w + CONFIRM), 6);
      SplitOptional(y, z + CONFIRM, v, w + CONFIRM, 7);
      SplitOptional(z, CONFIRM, w, CONFIRM, 8);
    }
  }

  // ------------------------------------------------------------------ all flows

  /** 1 for the flow of the first batch, 5 for that of the rates, 0 for the pages of the URL. */
  function FlowPlace(flow: Flow): (r: nat) {
    if flow == [] then 0 else if 1 <= Place(flow[0]) <= 4 then 1 else Place(flow[0])
  }

  ghost predicate AllAt(flows: seq<Flow>, place: nat) {
    forall i | 0 <= i < |flows| :: FlowPlace(flows[i]) == place
  }

  ghost predicate NextElsewhere(flows: seq<Flow>, place: nat) {
    flows != [] ==> FlowPlace(flows[0]) != place
  }

  lemma MoreAt(a: seq<Flow>, r: seq<Flow>, b: seq<Flow>, s: seq<Flow>, place: nat)
    requires AllAt(b, place) && NextElsewhere(r, place) && |a| < |b|
    ensures a + r != b + s
  {
    hide FlowPlace;
    assert (b + s)[|a|] == b[|a|];
    assert r != [] ==> (a + r)[|a|] == r[0];
  }

  lemma SplitAt(a: seq<Flow>, r: seq<Flow>, b: seq<Flow>, s: seq<Flow>, place: nat)
    requires AllAt(a, place) && AllAt(b, place) && NextElsewhere(r, place) && NextElsewhere(s, place)
    requires a + r == b + s
    ensures a == b && r == s
  {
    hide AllAt, NextElsewhere;
    if |a| < |b| {
      MoreAt(a, r, b, s, place);
    } else if |b| < |a| {
      MoreAt(b, s, a, r, place);
    } else {
      Split(a, b, r, s);
    }
  }

  lemma FirstAt(p: Progress)
    requires ProgressOk(p) && p.stage.End?
    ensures AllAt(FirstBodies(p), 1) && (FirstBodies(p) != [] <==> p.fields.First())
  {
    hide AmountText, RestakeText, OpenText, U8BE, FieldsOf, Flat, RatesOk;
    if p.fields.First() {
      FirstParts(p.fields, p.first);
      FirstStep(p.fields, p.first);
    }
  }

  lemma FirstStep(f: Fields, b: bytes)
    requires FirstOk(f, b) && f.First()
    ensures FlowPlace(FirstBody(f, b)) == 1
  {
    hide AmountText, RestakeText, OpenText, U8BE;
  }

  lemma UrlSteps(f: Fields, piece: bytes, buffer: UrlBuffer)
    ensures FlowPlace(LastPage(f, UrlStep(piece))) == 0 && FlowPlace(NextPage(buffer)) == 0
    ensures FlowPlace(LastPage(f, Show("Empty URL", ""))) == 0
  {
    hide Screens.CText, Chars;
  }

  lemma UrlAt(url: UrlBuffer, p: Progress)
    requires ProgressOk(p) && p.stage.End?
    ensures AllAt(UrlBodies(url, p), 0) && (UrlBodies(url, p) != [] <==> p.fields.url)
  {
    hide FieldsOf, FirstOk, RatesOk, BufferAfter, LastPage, NextPage, UrlStep, FlowPlace;
    NoPieces();
    PagesCount(p.fields, url, p.pieces, true);
    UrlSteps(p.fields, [], url);
    forall i | 0 <= i < |p.pieces|
      ensures FlowPlace(Pages(p.fields, url, p.pieces, true)[i]) == 0
    {
      UrlSteps(p.fields, p.pieces[i], BufferAfter(url, p.pieces[..i + 1]));
    }
    hide Flat;
  }

  lemma RatesAt(p: Progress)
    requires ProgressOk(p) && p.stage.End?
    ensures AllAt(RatesBodies(p), 5) && (RatesBodies(p) != [] <==> p.fields.Rates())
  {
    hide FieldsOf, FirstOk, RatesOk, PercentText, U4BE, Flat;
  }

  /** Two complete transactions announce and show the same after the sender. */
  ghost predicate AlikeBodies(url: UrlBuffer, other: UrlBuffer, p: Progress, q: Progress)
    requires ProgressOk(p) && ProgressOk(q) && p.stage.End? && q.stage.End?
  {
    EndOk(p);
    EndOk(q);
    && p.fields == q.fields
    && (p.fields.First() ==> SameFirst(p.fields, p.first, q.fields, q.first))
    && UrlBodies(url, p) == UrlBodies(other, q)
    && (p.fields.Rates() ==> SameRates(p.fields, p.rates, q.fields, q.rates))
  }

  ghost predicate Alike(v: Before, w: Before, p: Progress, q: Progress)
    requires ProgressOk(p) && ProgressOk(q) && p.stage.End? && q.stage.End?
  {
    EndOk(p);
    EndOk(q);
    p.header[..32] == q.header[..32] && AlikeBodies(v.url, w.url, p, q)
  }

  lemma Apart(a: seq<Flow>, u: seq<Flow>, r: seq<Flow>, b: seq<Flow>, x: seq<Flow>, s: seq<Flow>)
    requires AllAt(a, 1) && AllAt(u, 0) && AllAt(r, 5) && AllAt(b, 1) && AllAt(x, 0) && AllAt(s, 5)
    ensures a + u + r == b + x + s <==> a == b && u == x && r == s
  {
    hide AllAt, NextElsewhere;
    if a + u + r == b + x + s {
      Regroup(a, u, r);
      Regroup(b, x, s);
      NotAt(u, r);
      NotAt(x, s);
      SplitAt(a, u + r, b, x + s, 1);
      SplitAt(u, r, x, s, 0);
    }
  }

  lemma BodiesOf(url: UrlBuffer, p: Progress)
    requires ProgressOk(p) && p.stage.End?
    ensures Bodies(url, p) == FirstBodies(p) + UrlBodies(url, p) + RatesBodies(p)
  {
    hide ProgressOk, FirstBodies, UrlBodies, RatesBodies;
  }

  lemma BodiesApart(url: UrlBuffer, other: UrlBuffer, p: Progress, q: Progress)
    requires ProgressOk(p) && ProgressOk(q) && p.stage.End? && q.stage.End?
    ensures Bodies(url, p) == Bodies(other, q) <==>
      FirstBodies(p) == FirstBodies(q) && UrlBodies(url, p) == UrlBodies(other, q) && RatesBodies(p) == RatesBodies(q)
  {
    hide ProgressOk, FirstBodies, UrlBodies, RatesBodies, Bodies, AllAt, Chunks, FirstOk, RatesOk;
    EndOk(p);
    EndOk(q);
    FirstAt(p);
    FirstAt(q);
    UrlAt(url, p);
    UrlAt(other, q);
    RatesAt(p);
    RatesAt(q);
    BodiesOf(url, p);
    BodiesOf(other, q);
    Apart(FirstBodies(p), UrlBodies(url, p), RatesBodies(p), FirstBodies(q), UrlBodies(other, q), RatesBodies(q));
  }

  lemma SameKinds(url: UrlBuffer, other: UrlBuffer, p: Progress, q: Progress)
    requires ProgressOk(p) && ProgressOk(q) && p.stage.End? && q.stage.End?
    ensures FirstBodies(p) == FirstBodies(q) ==> p.fields.First() == q.fields.First()
    ensures UrlBodies(url, p) == UrlBodies(other, q) ==> p.fields.url == q.fields.url
    ensures RatesBodies(p) == RatesBodies(q) ==> p.fields.Rates() == q.fields.Rates()
  {
    hide ProgressOk, FirstBodies, UrlBodies, RatesBodies, AllAt, Chunks, FirstOk, RatesOk;
    EndOk(p);
    EndOk(q);
    FirstAt(p);
    FirstAt(q);
    UrlAt(url, p);
    UrlAt(other, q);
    RatesAt(p);
    RatesAt(q);
  }

  lemma FirstBodiesSame(p: Progress, q: Progress)
    requires ProgressOk(p) && ProgressOk(q) && p.stage.End? && q.stage.End?
    requires p.fields.First() && q.fields.First()
    ensures FirstOk(p.fields, p.first) && FirstOk(q.fields, q.first)
    ensures FirstBodies(p) == FirstBodies(q) <==> SameFirst(p.fields, p.first, q.fields, q.first)
  {
    hide ProgressOk, FirstBodies, FirstBody, FirstOk, RatesOk, SameFirst;
    EndOk(p);
    EndOk(q);
    SingleFlows(p, q);
    FirstSame(p.fields, p.first, q.fields, q.first);
  }

  lemma RatesBodiesSame(p: Progress, q: Progress)
    requires ProgressOk(p) && ProgressOk(q) && p.stage.End? && q.stage.End?
    requires p.fields.Rates() && q.fields.Rates()
    ensures RatesOk(p.fields, p.rates) && RatesOk(q.fields, q.rates)
    ensures RatesBodies(p) == RatesBodies(q) <==> SameRates(p.fields, p.rates, q.fields, q.rates)
  {
    hide ProgressOk, RatesBodies, RatesBody, FirstOk, RatesOk, SameRates;
    EndOk(p);
    EndOk(q);
    SingleFlows(p, q);
    RatesSame(p.fields, p.rates, q.fields, q.rates);
  }

  lemma SameAnnounced(f: Fields, b: bytes, x: bytes, g: Fields, c: bytes, y: bytes)
    requires f.First() == g.First() && f.url == g.url && f.Rates() == g.Rates()
    requires f.First() ==> FirstOk(f, b) && FirstOk(g, c) && SameFirst(f, b, g, c)
    requires f.Rates() ==> RatesOk(f, x) && RatesOk(g, y) && SameRates(f, x, g, y)
    ensures f == g
  {
    hide FirstOk, RatesOk, U4BE, U8BE;
    NoneAnnounced(f);
    NoneAnnounced(g);
  }

  lemma BodiesSame(url: UrlBuffer, other: UrlBuffer, p: Progress, q: Progress)
    requires ProgressOk(p) && ProgressOk(q) && p.stage.End? && q.stage.End?
    ensures Bodies(url, p) == Bodies(other, q) <==> AlikeBodies(url, other, p, q)
  {
    hide ProgressOk, FirstBodies, UrlBodies, RatesBodies, Bodies, SameFirst, SameRates, FirstOk, RatesOk, Chunks;
    EndOk(p);
    EndOk(q);
    BodiesApart(url, other, p, q);
    SameKinds(url, other, p, q);
    SingleFlows(p, q);
    if p.fields.First() && q.fields.First() { FirstBodiesSame(p, q); }
    if p.fields.Rates() && q.fields.Rates() { RatesBodiesSame(p, q); }
    if Bodies(url, p) == Bodies(other, q) {
      SameAnnounced(p.fields, p.first, p.rates, q.fields, q.first, q.rates);
    }
  }

  lemma NoneAnnounced(f: Fields)
    ensures !f.First() ==> !f.capital && !f.restake && !f.open && !f.keys
    ensures !f.Rates() ==> !f.fee && !f.reward && !f.finalization
  {
  }

  lemma NotAt(u: seq<Flow>, r: seq<Flow>)
    requires AllAt(u, 0) && AllAt(r, 5)
    ensures NextElsewhere(u + r, 1) && NextElsewhere(r, 0)
  {
    hide FlowPlace;
    if u == [] { assert u + r == r; }
  }

  lemma EndOk(p: Progress)
    requires ProgressOk(p) && p.stage.End?
    ensures |p.header| == 61 && Chunks(p.pieces)
    ensures RatesOk(p.fields, p.rates) && (p.fields.First() ==> FirstOk(p.fields, p.first))
  {
  }

  lemma SingleFlows(p: Progress, q: Progress)
    requires ProgressOk(p) && ProgressOk(q) && p.stage.End? && q.stage.End?
    ensures p.fields.First() && q.fields.First() ==>
      && FirstOk(p.fields, p.first) && FirstOk(q.fields, q.first)
      && (FirstBodies(p) == FirstBodies(q) <==> FirstBody(p.fields, p.first) == FirstBody(q.fields, q.first))
    ensures p.fields.Rates() && q.fields.Rates() ==>
      && RatesOk(p.fields, p.rates) && RatesOk(q.fields, q.rates)
      && (RatesBodies(p) == RatesBodies(q) <==> RatesBody(p.fields, p.rates) == RatesBody(q.fields, q.rates))
    ensures !p.fields.First() && !q.fields.First() ==> FirstBodies(p) == FirstBodies(q)
    ensures !p.fields.Rates() && !q.fields.Rates() ==> RatesBodies(p) == RatesBodies(q)
  {
    hide FirstBody, RatesBody, FieldsOf, Flat;
    if p.fields.First() && q.fields.First() { assert FirstBodies(p)[0] == FirstBody(p.fields, p.first); }
    if p.fields.Rates() && q.fields.Rates() { assert RatesBodies(p)[0] == RatesBody(p.fields, p.rates); }
    if FirstBodies(p) == FirstBodies(q) && FirstBodies(p) != [] { assert FirstBodies(p)[0] == FirstBodies(q)[0]; }
    if RatesBodies(p) == RatesBodies(q) && RatesBodies(p) != [] { assert RatesBodies(p)[0] == RatesBodies(q)[0]; }
  }

  lemma IntroducedSame(sha: Sha256, h: bytes, x: seq<Flow>, k: bytes, y: seq<Flow>)
    requires |h| == |k| == 61 && x != [] && y != []
    ensures Introduced(sha, h, x) == Introduced(sha, k, y) <==> h[..32] == k[..32] && x == y
  {
    hide AddressChars;
    var f, g := Introduced(sha, h, x), Introduced(sha, k, y);
    if f == g {
      Split([Introduction(sha, h) + x[0]], [Introduction(sha, k) + y[0]], x[1..], y[1..]);
      assert [Introduction(sha, h) + x[0]][0] == [Introduction(sha, k) + y[0]][0];
      Split(Introduction(sha, h), Introduction(sha, k), x[0], y[0]);
      assert Introduction(sha, h)[1] == Introduction(sha, k)[1];
      AddressCharsInjective(sha, h[..32], k[..32]);
      assert x == [x[0]] + x[1..] && y == [y[0]] + y[1..];
    }
  }

  /** Two transactions have the same screens if and only if they have the same sender, announce the same
      known fields, and agree in the amount, the two settings, the rates and the pages of the URL, for
      which see ConfigureBakerTx.PageShown.  The keys are signed unseen. */
  lemma ShownDetermines(v: Before, w: Before, p: Progress, q: Progress)
    requires v.sha == w.sha && ProgressOk(p) && ProgressOk(q) && p.stage.End? && q.stage.End?
    ensures Rendered(v, p) == Rendered(w, q) <==> Alike(v, w, p, q)
  {
    BodiesSame(v.url, w.url, p, q);
    BodiesAsk(v.url, p);
    BodiesAsk(w.url, q);
    EndOk(p);
    EndOk(q);
    hide ProgressOk, Bodies, SameFirst, SameRates, UrlBodies, Introduced;
    IntroducedSame(v.sha, p.header, Bodies(v.url, p), q.header, Bodies(w.url, q));
  }
}
