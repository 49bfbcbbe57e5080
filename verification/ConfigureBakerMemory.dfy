/** The memory of a configure-baker context, and what a packet does to it in any state that it may be in.
    A session that its first packet starts anew follows ConfigureBakerTx; any other goes on with what an
    earlier session has left. */
module ConfigureBakerMemory {
  import opened Bytes
  import opened Lists
  import opened Device
  import opened NumberHelpers
  import opened Screens
  import opened ConfigureBakerTx

  /** OTHER stands for every value that no branch asks for, the initial one of the enumeration included. */
  datatype State =
    | CONFIGURE_BAKER_FIRST | CONFIGURE_BAKER_AGGREGATION_KEY | CONFIGURE_BAKER_URL_LENGTH | CONFIGURE_BAKER_URL
    | CONFIGURE_BAKER_COMMISSION_RATES | CONFIGURE_BAKER_END | OTHER

  /** The member of the first batch: the texts that have been written since another member was. */
  datatype Texts = Texts(
    stopBaking: bool, displayCapital: Option<string>, displayRestake: Option<string>,
    displayOpenForDelegation: Option<string>)

  /** The union, by the member that was written last.  Elsewhere: another instruction has written the
      memory, and this is what the members read as. */
  datatype Union =
    | Elsewhere(texts: Texts, urlLength: u16)
    | CapitalRestakeDelegation(texts: Texts)
    | UrlView(urlLength: u16)
    | CommissionRates(fee: Option<string>, reward: Option<string>, finalization: Option<string>)

  /** The fields of the context, the text of its URL, and the running hash. */
  datatype BakerMemory = BakerMemory(
    state: State, has: Fields, firstDisplay: bool, view: Union, url: UrlBuffer, hash: bytes)

  /** The announced texts of the first batch can be read. */
  predicate Readable(f: Fields, v: Union) {
    && (v.Elsewhere? || v.CapitalRestakeDelegation?)
    && (f.capital && !v.texts.stopBaking ==> v.texts.displayCapital.Some?)
    && (f.restake ==> v.texts.displayRestake.Some?) && (f.open ==> v.texts.displayOpenForDelegation.Some?)
  }

  /** What a state is about to read has been written last, or elsewhere. */
  predicate Linked(m: BakerMemory) {
    && (m.state == CONFIGURE_BAKER_AGGREGATION_KEY && m.has.keys ==> Readable(m.has, m.view))
    && (m.state == CONFIGURE_BAKER_URL ==> m.view.Elsewhere? || m.view.UrlView?)
  }

  /** What a session may find. */
  type Leftover = m: BakerMemory | Linked(m)
    witness BakerMemory(OTHER, NO_FIELDS, false, UrlView(0), seq(256, i => NUL), [])

  // ------------------------------------------------------------------ one packet

  /** The memory after an accepted packet, the flow that it shows, whether the review and sender steps are
      put before it, and the reply. */
  datatype Next = Next(memory: BakerMemory, flow: Option<Flow>, introduced: bool, reply: Reply)

  /** What is passed to ux_flow_init. */
  function Flows(n: Next, sender: string): (r: seq<Flow>) {
    if n.flow.None? then []
    else [if n.introduced then [REVIEW, Show("Sender", sender)] + n.flow.value else n.flow.value]
  }

  /** The texts that the first batch writes. */
  function FirstView(f: Fields, b: bytes): (r: Union)
    requires FirstOk(f, b)
  {
    CapitalRestakeDelegation(Texts(
      f.capital && U8BE(b, 0) == 0,
      if f.capital && U8BE(b, 0) != 0 then Some(AmountText(U8BE(b, 0))) else None,
      if f.restake then Some(RestakeText(b[CapitalEnd(f)])) else None,
      if f.open then Some(OpenText(b[RestakeEnd(f)])) else None))
  }

  function RatesView(f: Fields, b: bytes): (r: Union)
    requires RatesOk(f, b)
  {
    CommissionRates(
      if f.fee then Some(PercentText(U4BE(b, 0))) else None,
      if f.reward then Some(PercentText(U4BE(b, FeeEnd(f)))) else None,
      if f.finalization then Some(PercentText(U4BE(b, RewardEnd(f)))) else None)
  }

  /** startConfigureBakerDisplay: the texts that the memory holds. */
  function FirstFlow(f: Fields, v: Union): (r: Flow)
    requires Readable(f, v)
  {
    (if f.capital then
       [if v.texts.stopBaking then Show("Stop", "baking") else Show("Amount to stake", v.texts.displayCapital.value)]
     else [])
    + (if f.restake then [Show("Restake earnings", v.texts.displayRestake.value)] else [])
    + (if f.open then [Show("Pool status", v.texts.displayOpenForDelegation.value)] else [])
    + If(f.keys, Show("Update baker", "keys"))
    + (if f.url || f.Rates() then [PROCEED] else CONFIRM)
  }

  /** The texts of the first batch are read as they were written. */
  lemma FirstFlowIs(f: Fields, b: bytes)
    requires FirstOk(f, b)
    ensures Readable(f, FirstView(f, b)) && FirstFlow(f, FirstView(f, b)) == FirstBody(f, b)
  {
    hide AmountText, OpenText, RestakeText, U8BE;
  }

  /** startConfigureBakerCommissionDisplay */
  function RatesFlow(f: Fields, b: bytes): (r: Flow)
    requires RatesOk(f, b)
  {
    if f.Rates() then RatesBody(f, b) else CONFIRM
  }

  function StateOf(s: Stage): (r: State) {
    match s
    case Start => OTHER
    case First => CONFIGURE_BAKER_FIRST
    case Aggregation => CONFIGURE_BAKER_AGGREGATION_KEY
    case UrlLength => CONFIGURE_BAKER_URL_LENGTH
    case Url => CONFIGURE_BAKER_URL
    case Rates => CONFIGURE_BAKER_COMMISSION_RATES
    case End => CONFIGURE_BAKER_END
  }

  /** After the last flow of a part: to go on, or to sign. */
  function AwaitsMore(more: bool): (r: Reply) {
    Await(if more then Proceed else Ask)
  }

  predicate LetThrough(bitmap: u16) {
    bitmap != 0 && bitmap <= 1023
  }

  /** The state that awaits the first announced field; without one, the state stays as it was. */
  function FirstState(f: Fields, s: State): (r: State) {
    if f.First() then CONFIGURE_BAKER_FIRST
    else if f.url then CONFIGURE_BAKER_URL_LENGTH
    else if f.Rates() then CONFIGURE_BAKER_COMMISSION_RATES
    else s
  }

  /** The initial packet: a new hash, and what its bitmap announces. */
  function Begun(m: BakerMemory, data: Cdata): (r: Outcome<Next>) {
    var header :- HeaderAt(data, 60, CONFIGURE_BAKER);
    var at := PathLength(data).value;
    var bitmap := U2BE(data, at + 61);
    var f := FieldsOf(bitmap);
    if !LetThrough(bitmap) then Throw(InvalidTransaction)
    else
      var n := m.(state := FirstState(f, m.state), has := f, firstDisplay := true, hash := data[at..at + 63]);
      Ok(Next(n, None, false, Success))
  }

  function TakeFirst(m: BakerMemory, b: bytes): (r: Outcome<Next>) {
    var f := m.has;
    if !FirstOk(f, b) then Throw(InvalidTransaction)
    else
      var n := m.(view := FirstView(f, b), hash := m.hash + b);
      Ok(if f.keys then Next(n.(state := CONFIGURE_BAKER_AGGREGATION_KEY), None, false, Success)
         else Next(n.(state := StateOf(AfterFirst(f)), firstDisplay := false), Some(FirstBody(f, b)), true,
                   AwaitsMore(f.url || f.Rates())))
  }

  function TakeAggregation(m: BakerMemory, data: Cdata, length: byte): (r: Outcome<Next>)
    requires m.has.keys ==> Readable(m.has, m.view)
  {
    var f := m.has;
    if !f.keys || length != 160 then Throw(InvalidTransaction)
    else
      var n := m.(state := StateOf(AfterFirst(f)), firstDisplay := false, hash := m.hash + data[..160]);
      Ok(Next(n, Some(FirstFlow(f, m.view)), true, AwaitsMore(f.url || f.Rates())))
  }

  /** The last flow of the URL. */
  function UrlEnds(m: BakerMemory, wasFirst: bool, step: Step): (r: Next) {
    var f := m.has;
    Next(m.(state := StateOf(AfterUrl(f)), firstDisplay := false), Some(LastPage(f, step)), wasFirst,
         AwaitsMore(f.Rates()))
  }

  function TakeLength(m: BakerMemory, data: Cdata): (r: Outcome<Next>) {
    var length := U2BE(data, 0);
    if !m.has.url || length > MAX_URL then Throw(InvalidTransaction)
    else
      var n := m.(view := UrlView(length), hash := m.hash + data[..2]);
      Ok(if length == 0 then UrlEnds(n, m.firstDisplay, Show("Empty URL", ""))
         else Next(n.(state := CONFIGURE_BAKER_URL), None, false, Success))
  }

  function TakePiece(m: BakerMemory, piece: bytes): (r: Outcome<Next>)
    requires |piece| <= 255 && (m.view.Elsewhere? || m.view.UrlView?)
  {
    var left := m.view.urlLength;
    var n := m.(hash := m.hash + piece);
    if left > |piece| then
      var page: UrlBuffer := Written(m.url, 0, Chars(piece));
      Ok(Next(n.(view := m.view.(urlLength := left - |piece|), url := page, firstDisplay := false), Some(NextPage(page)),
              m.firstDisplay, Await(Proceed)))
    else if left == |piece| then
      var page: UrlBuffer := Written(m.url, 0, Chars(piece) + [NUL]);
      Ok(UrlEnds(n.(url := page), m.firstDisplay, if left == 0 then Show("Empty URL", "") else UrlStep(piece)))
    else Throw(InvalidTransaction)
  }

  function TakeRates(m: BakerMemory, b: bytes): (r: Outcome<Next>) {
    var f := m.has;
    if !RatesOk(f, b) then Throw(InvalidTransaction)
    else Ok(Next(m.(view := RatesView(f, b), firstDisplay := false, hash := m.hash + b), Some(RatesFlow(f, b)),
                 m.firstDisplay, Await(Ask)))
  }

  /** A packet in any memory, as the first command of a session or a later one. */
  function Effect(m: BakerMemory, packet: Packet, isInitialCall: bool): (r: Outcome<Next>)
    requires Linked(m)
  {
    var Packet(p1, _, data, length) := packet;
    if p1 == P1_INITIAL && isInitialCall then Begun(m, data)
    else if p1 == P1_FIRST_BATCH && m.state == CONFIGURE_BAKER_FIRST then TakeFirst(m, data[..length])
    else if p1 == P1_AGGREGATION_KEY && m.state == CONFIGURE_BAKER_AGGREGATION_KEY then TakeAggregation(m, data, length)
    else if p1 == P1_URL_LENGTH && m.state == CONFIGURE_BAKER_URL_LENGTH then TakeLength(m, data)
    else if p1 == P1_URL && m.state == CONFIGURE_BAKER_URL then TakePiece(m, data[..length])
    else if p1 == P1_COMMISSION_RATES && m.state == CONFIGURE_BAKER_COMMISSION_RATES then TakeRates(m, data[..length])
    else Throw(InvalidState)
  }

  /** Nothing is read that another member of the union has overwritten. */
  lemma EffectLinked(m: BakerMemory, packet: Packet, isInitialCall: bool)
    requires Linked(m) && Effect(m, packet, isInitialCall).Ok?
    ensures Linked(Effect(m, packet, isInitialCall).value.memory)
  {
    hide FieldsOf, AmountText, OpenText, RestakeText, PercentText, U8BE, U4BE, U2BE, FirstBody, FirstFlow, RatesFlow,
        HeaderAt, LastPage, NextPage, UrlStep;
  }

  /** The bytes that an accepted packet adds to the hash. */
  function PacketBytes(packet: Packet): (r: bytes) {
    var Packet(p1, _, data, length) := packet;
    if p1 == P1_INITIAL then
      if PathLength(data).Ok? then var at := PathLength(data).value; data[at..at + 63] else []
    else if p1 == P1_URL_LENGTH then data[..2]
    else data[..length]
  }

  /** The initial packet of a session drops what the hash has absorbed; any other packet adds to it. */
  lemma EffectHashes(m: BakerMemory, packet: Packet, isInitialCall: bool)
    requires Linked(m) && Effect(m, packet, isInitialCall).Ok?
    ensures Effect(m, packet, isInitialCall).value.memory.hash
         == (if packet.p1 == P1_INITIAL then [] else m.hash) + PacketBytes(packet)
    ensures packet.p1 == P1_INITIAL ==> isInitialCall
  {
    hide FieldsOf, U2BE, FirstView, FirstBody, FirstFlow, RatesFlow, RatesView, LastPage, NextPage, UrlStep, FirstOk,
        RatesOk, Written;
    if packet.p1 == P1_INITIAL { assert [] + PacketBytes(packet) == PacketBytes(packet); }
  }
}
