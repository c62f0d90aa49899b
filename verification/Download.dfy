/**
 The block-wise download against a network that loses, duplicates, delays and reorders datagrams, and
 a server that answers as section 2.4 of RFC 7959 asks.
 */
module Download {
  import opened Bytes
  import opened Messages
  import opened OptionList
  import opened Encoding
  import opened RoundTrip
  import opened Blockwise
  import opened Requests
  import opened EndToEnd
  import opened ClientSteps
  import opened Sessions
  import opened Retransmissions
  import P = Parsing

  /** The resource, and the smallest block size the server ever chooses. */
  datatype Server = Server(resource: seq<byte>, least: u16)

  function Offset(b: BlockState): nat {
    b.number * b.size
  }

  /** At most 4096 blocks of the least size: the numbers that the client's encoder writes as they are. */
  ghost predicate InDomain(sv: Server) {
    sv.least in SIZES && |sv.resource| <= 4096 * sv.least
  }

  // ---------- the server ----------

  /**
   b and payload are the slice of the resource at the byte offset that was asked for.  The client asks
   for its first block with size 2048, exponent 7, which section 2.2 of RFC 7959 reserves; a server that
   answers at all takes it for an upper bound.
   */
  ghost predicate Served(sv: Server, asked: BlockState, b: BlockState, payload: seq<byte>) {
    var from := Offset(asked);
    && b.size in SIZES && sv.least <= b.size <= asked.size
    && Offset(b) == from <= |sv.resource|
    && var to := Min(from + b.size, |sv.resource|);
       from <= to && payload == sv.resource[from..to] && (b.more <==> to < |sv.resource|)
  }

  /** m answers q: an acknowledgement with q's id that carries an error code or the block asked for. */
  ghost predicate Answer(sv: Server, q: Request, m: Message) {
    && m.WellFormed() && m.TokenLength() <= TOKEN_MAX_LENGTH && m.Version() == COAP_VERSION
    && OptionsFit(m.options, 0) && |Encode(Intended, m)| <= BUFFER_MAX_SIZE
    && m.Type() == ACKNOWLEDGEMENT && m.messageId == q.id
    && (m.code == CONTENT ==>
          var blocks := Select(m.options, BLOCK_2);
          && |blocks| == 1 && DecodeBlock(blocks[0].value).Some?
          && Served(sv, q.block, DecodeBlock(blocks[0].value).value, m.payload))
  }

  // ---------- the network ----------

  ghost predicate GenuineFor(sv: Server, request: seq<byte>, m: Message, d: seq<byte>) {
    var q := ReadRequest(request);
    q.Some? && Answer(sv, q.value, m) && d == Encode(Intended, m)
  }

  /** d is an answer to something that was sent at some time before. */
  ghost predicate Genuine(sv: Server, sent: seq<seq<byte>>, d: seq<byte>) {
    exists k, m: Message :: 0 <= k < |sent| && GenuineFor(sv, sent[k], m, d)
  }

  /**
   d is anything else but an acknowledgement of an id that was sent: even bytes that do not parse, and
   the empty datagram, on which the assertion at the start of parse stops the process.
   */
  ghost predicate Stray(sent: seq<seq<byte>>, d: seq<byte>) {
    var (outcome, m) := P.Parse(Intended, EMPTY_MESSAGE, Truncate(d));
       outcome.Accepted? && m.Type() == ACKNOWLEDGEMENT ==>
         forall k :: 0 <= k < |sent| ==> match ReadRequest(sent[k])
                                         case None => true
                                         case Some(q) => q.id != m.messageId
  }

  ghost predicate Deliverable(sv: Server, sent: seq<seq<byte>>, d: seq<byte>) {
    Genuine(sv, sent, d) || Stray(sent, d)
  }

  /** How many blocks of the least size may follow the one that starts rest bytes before the end. */
  function BlocksBehind(rest: int, least: nat): (n: nat)
    requires least > 0
    ensures rest <= least ==> n == 0
  {
    if rest <= 0 then 0 else (rest - 1) / least
  }

  /** A message id that can be drawn for the first block: the ids of the blocks behind it do not wrap. */
  predicate GoodId(sv: Server, id: u16)
    requires sv.least > 0
  {
    id + BlocksBehind(|sv.resource|, sv.least) <= 0xFFFF
  }

  predicate Draws(w: World, a: Action) {
    a.StepCall? && w.client.next.SendRequest? && w.client.mid == 0
  }

  /** No start() after the last block, and deliveries as above. */
  ghost predicate Behaved(sv: Server, w: World, a: Action) {
    match a
    case StartCall => !w.done
    case StopCall => true
    case NotifyCall(_) => true
    case StepCall(input) =>
      w.client.next.ReceiveDataBlock? && w.client.received && input.arrival.Some? ==>
        Deliverable(sv, w.sent, input.arrival.value)
  }

  ghost predicate Admissible(sv: Server, w: World, a: Action)
    requires sv.least in SIZES
  {
    Behaved(sv, w, a) && (Draws(w, a) ==> GoodId(sv, a.input.freshId))
  }

  ghost predicate AdmissibleRun(cfg: Config, sv: Server, w: World, actions: seq<Action>)
    requires w.client.pdu.WellFormed() && sv.least in SIZES
  {
    actions == [] ||
    (AdmissibleRun(cfg, sv, w, actions[..|actions| - 1]) &&
     Admissible(sv, Run(cfg, w, actions[..|actions| - 1]), actions[|actions| - 1]))
  }

  // ---------- the invariant ----------

  /** A datagram that was sent: its id is not above the current one, and that one asks for the current block. */
  ghost predicate Known(s: ClientState, done: bool, r: seq<byte>) {
    match ReadRequest(r)
    case None => false
    case Some(q) => q.id <= s.mid && (q.id == s.mid && !done ==> q.block == Requested(s.block))
  }

  ghost predicate Progress(sv: Server, base: seq<byte>, s: ClientState)
    requires sv.least in SIZES
  {
    var at := Offset(s.block);
    && !s.next.Complete?
    && at <= |sv.resource| && s.file == base + sv.resource[..at]
    && (s.block.number != 0 ==> s.block.size >= sv.least && at < |sv.resource| && s.mid != 0)
    && (s.mid != 0 ==> s.mid + BlocksBehind(|sv.resource| - at, sv.least) <= 0xFFFF)
    && (s.next.ReceiveDataBlock? ==> s.block == Requested(s.block))
  }

  ghost predicate AllKnown(w: World) {
    forall k :: 0 <= k < |w.sent| ==> Known(w.client, w.done, w.sent[k])
  }

  /** While the client waits, its last datagram carries the current id. */
  ghost predicate Awaiting(w: World) {
    w.client.next.ReceiveDataBlock? ==>
      && w.sent != []
      && match ReadRequest(w.sent[|w.sent| - 1])
         case None => false
         case Some(q) => q.id == w.client.mid
  }

  ghost predicate Inv(cfg: Config, sv: Server, base: seq<byte>, w: World) {
    && cfg.build.Intended? && ConfigFits(cfg) && InDomain(sv)
    && Sound(w.client)
    && (w.client.state.Complete? ==> w.done)
    && AllKnown(w) && Awaiting(w)
    && if w.done then w.client.file == base + sv.resource && w.client.next in {Idle, Phase.Error, Complete}
       else Progress(sv, base, w.client)
  }

  // ---------- arithmetic of blocks ----------

  lemma ProductGrows(x: nat, y: nat, z: nat)
    ensures x <= y ==> x * z <= y * z
  {
  }

  lemma NumberBelow(sv: Server, b: BlockState)
    requires InDomain(sv) && b.size >= sv.least && Offset(b) < |sv.resource|
    ensures b.number < 4096
  {
    ProductGrows(4096, b.number, b.size);
  }

  lemma QuotientFalls(n: nat, step: nat, d: nat)
    requires 0 < d <= step <= n
    ensures (n - step) / d + 1 <= n / d
  {
    var q, p := n / d, (n - step) / d;
    assert n == d * q + n % d && n - step == d * p + (n - step) % d;
    assert d * (p + 1) == d * p + d;
    ProductGrows(q + 1, p + 1, d);
    assert (q + 1) * d == d * q + d && (p + 1) * d == d * (p + 1);
  }

  lemma OffsetNext(b: BlockState)
    requires b.number < BLOCK_NUMBERS
    ensures Offset(BlockState(b.number + 1, b.size, false)) == Offset(b) + b.size
  {
    assert (b.number + 1) * b.size == b.number * b.size + b.size;
  }

  /** After a served block the next offset is the end of its payload, or the resource is whole. */
  lemma ServedAdvances(sv: Server, asked: BlockState, b: BlockState, payload: seq<byte>)
    requires Served(sv, asked, b, payload) && b.number < BLOCK_NUMBERS
    ensures
      var from := Offset(asked);
      if b.more then
        && Offset(BlockState(b.number + 1, b.size, false)) == from + b.size < |sv.resource|
        && sv.resource[..from] + payload == sv.resource[..from + b.size]
      else sv.resource[..from] + payload == sv.resource
  {
    OffsetNext(b);
    hide Offset;
  }

  // ---------- one step keeps the invariant ----------

  /** Sorting and searching find the only option with a number. */
  lemma FindOnly(options: seq<CoapOption>, n: u16, o: CoapOption)
    requires Select(options, n) == [o]
    ensures
      var s := Sort(options);
      var r := Find(Intended, s, n);
      r.Found? && s[r.index] == o
  {
    hide Sorted, Find;
    var s := Sort(options);
    SortProperties(options);
    SortStable(options, n);
    OccursByCount(s, n);
    FindRefinesScan(s, n);
    var r := Find(Intended, s, n);
    SelectHas(s, n, r.index);
    assert s[r.index] in [o];
  }

  lemma {:induction false} SelectHas(options: seq<CoapOption>, n: u16, k: nat)
    requires k < |options| && options[k].number == n
    ensures options[k] in Select(options, n)
  {
    var front := options[..|options| - 1];
    if k < |front| {
      SelectHas(front, n, k);
      assert front[k] == options[k];
    }
  }

  /** What the client does with an answer whose id is the current one. */
  lemma AnswerHandled(cfg: Config, sv: Server, s: ClientState, q: Request, m: Message)
    requires cfg.build.Intended? && Answer(sv, q, m) && s.mid == q.id && s.pdu == m.Visible()
    ensures
      var t := HandleResponse(cfg, s);
      if m.code == CONTENT then
        && var b := DecodeBlock(Select(m.options, BLOCK_2)[0].value).value;
           && t == Accept(s.(pdu := s.pdu.(options := Sort(m.options))), b)
           && b.number < BLOCK_NUMBERS
      else t.next.Error? && t == s.(next := Phase.Error, error := t.error)
  {
    if m.code == CONTENT {
      var blocks := Select(m.options, BLOCK_2);
      assert blocks == [blocks[0]];
      FindOnly(m.options, BLOCK_2, blocks[0]);
    }
    hide Sort, Find, DecodeBlock, Select, Accept, Encode;
  }

  /** What a sending step does to the fields that matter here. */
  lemma SendFields(cfg: Config, w: World, input: Input)
    requires Sound(w.client) && w.client.next.SendRequest? && w.client.block.number < BLOCK_NUMBERS
    ensures
      var v := Act(cfg, w, StepCall(input));
      && v.done == w.done && v.client.file == w.client.file && v.client.block == Requested(w.client.block)
      && v.client.state == SendRequest
      && (v.client.next.ReceiveDataBlock? || (v.client.next.Error? && v.sent == w.sent))
      && v.client.mid == if w.client.mid == 0 then input.freshId else w.client.mid
  {
    hide Encode, RequestOptions, PathOptions, RequestHeader;
  }

  lemma SendAdvances(cfg: Config, sv: Server, base: seq<byte>, w: World, input: Input)
    requires Inv(cfg, sv, base, w) && w.client.next.SendRequest? && Admissible(sv, w, StepCall(input))
    ensures
      var v := Act(cfg, w, StepCall(input));
      && !v.done && Progress(sv, base, v.client) && v.client.block == Requested(w.client.block)
      && (v.client.next.ReceiveDataBlock? || (v.client.next.Error? && v.sent == w.sent))
      && !v.client.state.Complete?
      && v.client.mid == if w.client.mid == 0 then input.freshId else w.client.mid
  {
    hide Known, Awaiting, ConfigFits, AllKnown, Behaved;
    var b := w.client.block;
    if b.number != 0 {
      NumberBelow(sv, b);
    }
    SendFields(cfg, w, input);
    assert Offset(Requested(b)) == Offset(b);
    hide Offset, Act, Sound, BlocksBehind;
  }

  lemma NewRequestRead(cfg: Config, sv: Server, base: seq<byte>, w: World, d: seq<byte>, id: u16)
    requires Inv(cfg, sv, base, w) && !w.done && IsRequest(cfg, d, id, Requested(w.client.block))
    ensures ReadRequest(d) == Some(Request(id, cfg.port, cfg.path, Requested(w.client.block)))
  {
    hide IsRequest, ReadRequest, Known, Awaiting, Offset;
    var b := Requested(w.client.block);
    if b.number != 0 {
      NumberBelow(sv, b);
    }
    RetransmissionsReadAlike(cfg, d, id, b);
    assert b.(number := b.number) == b;
  }

  /** What was known stays known when the current id and block stay, or the first id replaces zero. */
  lemma KnownStays(s: ClientState, t: ClientState, r: seq<byte>)
    requires Known(s, false, r)
    requires Requested(t.block) == Requested(s.block) && (s.mid == 0 || t.mid == s.mid)
    ensures Known(t, false, r)
  {
    hide ReadRequest, Requested;
  }

  lemma RequestedTwice(b: BlockState)
    ensures Requested(Requested(b)) == Requested(b)
  {
  }

  lemma SendKeepsKnown(cfg: Config, sv: Server, base: seq<byte>, w: World, input: Input)
    requires Inv(cfg, sv, base, w) && w.client.next.SendRequest? && Admissible(sv, w, StepCall(input))
    ensures var v := Act(cfg, w, StepCall(input)); AllKnown(v) && Awaiting(v)
  {
    assert AllKnown(w) && Sound(w.client) && w.client.pdu.WellFormed();
    hide Act, IsRequest, ReadRequest, Progress, Sound, Requested, Admissible, Known, Inv;
    SendAdvances(cfg, sv, base, w, input);
    SentShape(cfg, w, StepCall(input));
    var v := Act(cfg, w, StepCall(input));
    RequestedTwice(w.client.block);
    if v.sent != w.sent {
      NewRequestRead(cfg, sv, base, w, v.sent[|w.sent|], v.client.mid);
      NewIsKnown(cfg, v, v.sent[|w.sent|]);
    }
    AllStayKnown(w, v);
    hide AllKnown;
  }

  lemma NewIsKnown(cfg: Config, v: World, d: seq<byte>)
    requires ReadRequest(d) == Some(Request(v.client.mid, cfg.port, cfg.path, Requested(v.client.block)))
    ensures Known(v.client, v.done, d)
  {
    hide ReadRequest, Requested;
  }

  lemma AllStayKnown(w: World, v: World)
    requires AllKnown(w) && !w.done && !v.done
    requires Requested(v.client.block) == Requested(w.client.block)
    requires w.client.mid == 0 || v.client.mid == w.client.mid
    requires v.sent == w.sent
             || (|v.sent| == |w.sent| + 1 && v.sent[..|w.sent|] == w.sent
                 && Known(v.client, v.done, v.sent[|w.sent|]))
    ensures AllKnown(v)
  {
    hide Known, Requested;
    forall k | 0 <= k < |v.sent|
      ensures Known(v.client, v.done, v.sent[k])
    {
      if k < |w.sent| {
        assert v.sent[k] == v.sent[..|w.sent|][k] == w.sent[k];
        KnownStays(w.client, v.client, w.sent[k]);
      }
    }
  }

  lemma SendKeepsInv(cfg: Config, sv: Server, base: seq<byte>, w: World, input: Input)
    requires Inv(cfg, sv, base, w) && w.client.next.SendRequest? && Admissible(sv, w, StepCall(input))
    ensures Inv(cfg, sv, base, Act(cfg, w, StepCall(input)))
  {
    ActKeepsSound(cfg, w, StepCall(input));
    SendAdvances(cfg, sv, base, w, input);
    SendKeepsKnown(cfg, sv, base, w, input);
    hide Act, AllKnown, Awaiting, Progress, Sound;
  }

  // ---------- receptions ----------

  /** The state of the world after a reception that stored nothing. */
  predicate Unmoved(s: ClientState, t: ClientState) {
    && t.file == s.file && t.block == s.block && t.mid == s.mid
    && t.state == ReceiveDataBlock && t.next in {SendRequest, Phase.Error, Halted}
    && (t.next.SendRequest? ==> t.attempts == s.attempts + 1)
  }

  /** How a reception ends: nothing stored, the last block stored, or at least sv.least bytes further. */
  predicate ReceptionEnds(sv: Server, s: ClientState, t: ClientState) {
    || Unmoved(s, t)
    || t.next.Complete?
    || (t.next.SendRequest? && t.attempts == 0 && Offset(t.block) >= Offset(s.block) + sv.least)
  }

  lemma UnmovedKeepsInv(cfg: Config, sv: Server, base: seq<byte>, w: World, v: World)
    requires Inv(cfg, sv, base, w) && w.client.next.ReceiveDataBlock? && Sound(v.client)
    requires Unmoved(w.client, v.client) && v.sent == w.sent && v.done == w.done
    ensures Inv(cfg, sv, base, v)
  {
    hide Offset, ReadRequest, Requested, Sound, ConfigFits;
    forall k | 0 <= k < |v.sent|
      ensures Known(v.client, v.done, v.sent[k])
    {
      assert Known(w.client, w.done, w.sent[k]);
    }
  }

  lemma FewBlocks(sv: Server)
    requires InDomain(sv)
    ensures BlocksBehind(|sv.resource|, sv.least) <= 4095
  {
    if sv.resource != [] {
      var n := |sv.resource| - 1;
      assert n / sv.least * sv.least <= n;
      ProductGrows(4096, n / sv.least, sv.least);
    }
  }

  lemma BlocksFall(rest: int, size: nat, least: nat)
    requires 0 < least <= size < rest
    ensures BlocksBehind(rest - size, least) + 1 <= BlocksBehind(rest, least)
  {
    QuotientFalls(rest - 1, size, least);
  }

  /** The next id exists and is above every id that was sent. */
  lemma IdRemains(sv: Server, base: seq<byte>, s: ClientState, size: u16)
    requires InDomain(sv) && Progress(sv, base, s) && sv.least <= size
    requires Offset(s.block) + size < |sv.resource|
    ensures s.mid + 1 <= 0xFFFF
    ensures s.mid + 1 + BlocksBehind(|sv.resource| - (Offset(s.block) + size), sv.least) <= 0xFFFF
  {
    var rest := |sv.resource| - Offset(s.block);
    BlocksFall(rest, size, sv.least);
    FewBlocks(sv);
    if s.block.number == 0 {
      assert rest == |sv.resource|;
    }
    hide Offset, BlocksBehind;
  }

  lemma AcceptKeepsKnown(w: World, s: ClientState, b: BlockState, v: World)
    requires AllKnown(w) && !w.done && s.mid == w.client.mid == s.pdu.messageId
    requires b.more ==> s.mid < 0xFFFF
    requires b.number < BLOCK_NUMBERS && v == World(Accept(s, b), w.sent, !b.more)
    ensures AllKnown(v)
  {
    AcceptFields(s, b);
    hide ReadRequest, Requested, Accept;
    forall k | 0 <= k < |v.sent|
      ensures Known(v.client, v.done, v.sent[k])
    {
      assert Known(w.client, w.done, w.sent[k]);
    }
  }

  lemma FileExtends(file: seq<byte>, base: seq<byte>, resource: seq<byte>, at: nat, chunk: seq<byte>, to: nat)
    requires at <= |resource| && to <= |resource| && file == base + resource[..at]
    requires resource[..at] + chunk == resource[..to]
    ensures file + chunk == base + resource[..to]
  {
    assert (base + resource[..at]) + chunk == base + (resource[..at] + chunk);
  }

  lemma AcceptFields(s: ClientState, b: BlockState)
    requires b.number < BLOCK_NUMBERS
    ensures Accept(s, b) == s.(
              file := s.file + s.pdu.payload, attempts := 0,
              block := if b.more then BlockState(b.number + 1, b.size, false) else b,
              mid := if !b.more then s.mid else if s.pdu.messageId < 0xFFFF then s.pdu.messageId + 1 else 0,
              next := if b.more then SendRequest else Complete)
  {
  }

  /** Where the accepted block leads: further on, or to the whole resource. */
  lemma AcceptAdvances(sv: Server, base: seq<byte>, b: BlockState, s: ClientState)
    requires InDomain(sv) && Progress(sv, base, s) && s.mid == s.pdu.messageId
    requires Served(sv, s.block, b, s.pdu.payload) && b.number < BLOCK_NUMBERS
    ensures b.more ==> s.mid < 0xFFFF && Progress(sv, base, Accept(s, b))
    ensures b.more ==> Offset(Accept(s, b).block) >= Offset(s.block) + sv.least
    ensures !b.more ==> Accept(s, b).file == base + sv.resource
  {
    ServedAdvances(sv, s.block, b, s.pdu.payload);
    AcceptFields(s, b);
    hide Accept;
    var at, size := Offset(s.block), b.size;
    assert sv.least <= size && (b.more ==> at + size < |sv.resource|);
    hide Offset, BlocksBehind, Served, Requested;
    if b.more {
      IdRemains(sv, base, s, size);
      hide InDomain;
      FileExtends(s.file, base, sv.resource, at, s.pdu.payload, at + size);
    } else {
      hide InDomain;
      assert sv.resource[..|sv.resource|] == sv.resource;
      FileExtends(s.file, base, sv.resource, at, s.pdu.payload, |sv.resource|);
    }
  }

  lemma AcceptKeepsInv(cfg: Config, sv: Server, base: seq<byte>, w: World, b: BlockState, s: ClientState, v: World)
    requires Inv(cfg, sv, base, w) && w.client.next.ReceiveDataBlock? && Sound(v.client)
    requires s.file == w.client.file && s.mid == w.client.mid == s.pdu.messageId && s.state == ReceiveDataBlock
    requires s.block == w.client.block && s.next == w.client.next
    requires Served(sv, w.client.block, b, s.pdu.payload) && b.number < BLOCK_NUMBERS
    requires v == World(Accept(s, b), w.sent, !b.more)
    ensures Inv(cfg, sv, base, v) && ReceptionEnds(sv, w.client, v.client)
  {
    hide Known, Sound, ConfigFits, Offset, Served;
    assert !w.done && Progress(sv, base, s);
    hide Progress;
    AcceptAdvances(sv, base, b, s);
    AcceptKeepsKnown(w, s, b, v);
    hide AllKnown;
  }

  /** The handler's state between a successful parse and HandleResponse. */
  function Parsed(s: ClientState, m: Message): ClientState {
    s.(state := ReceiveDataBlock, received := false, pdu := m)
  }

  lemma StrayUnmoved(cfg: Config, w: World, input: Input)
    requires cfg.build.Intended? && Sound(w.client) && Awaiting(w)
    requires w.client.next.ReceiveDataBlock? && w.client.received && input.arrival.Some?
    requires Stray(w.sent, input.arrival.value)
    ensures Unmoved(w.client, ReceiveStep(cfg, w.client, input))
  {
    hide ReadRequest, P.Parse, Sort, Find, DecodeBlock;
    var s, d := w.client, Truncate(input.arrival.value);
    ParseForgets(Intended, s.pdu, EMPTY_MESSAGE, d);
    assert w.sent[|w.sent| - 1] in w.sent;
  }

  /** An answer arrives as the server wrote it. */
  lemma AnswerArrives(cfg: Config, sv: Server, s: ClientState, input: Input, q: Request, m: Message)
    requires cfg.build.Intended? && Sound(s) && s.next.ReceiveDataBlock? && s.received
    requires Answer(sv, q, m) && input.arrival == Some(Encode(Intended, m))
    ensures ReceiveStep(cfg, s, input) == HandleResponse(cfg, Parsed(s, m.Visible()))
  {
    hide P.Parse, Encode, HandleResponse, OptionsFit, Select, DecodeBlock, Served;
    RoundTripExact(s.pdu, m);
  }

  lemma AnswerKeepsInv(cfg: Config, sv: Server, base: seq<byte>, w: World, input: Input, k: nat, m: Message)
    requires Inv(cfg, sv, base, w) && w.client.next.ReceiveDataBlock? && w.client.received
    requires k < |w.sent| && input.arrival.Some? && GenuineFor(sv, w.sent[k], m, input.arrival.value)
    ensures Inv(cfg, sv, base, Act(cfg, w, StepCall(input)))
    ensures ReceptionEnds(sv, w.client, Act(cfg, w, StepCall(input)).client)
  {
    var s, q := w.client, ReadRequest(w.sent[k]).value;
    var v := Act(cfg, w, StepCall(input));
    ActKeepsSound(cfg, w, StepCall(input));
    AnswerArrives(cfg, sv, s, input, q, m);
    assert Known(s, w.done, w.sent[k]);
    hide Inv, Sound, ReadRequest, Served, Encode, OptionsFit, Act, ReceiveStep;
    assert v == World(HandleResponse(cfg, Parsed(s, m.Visible())), w.sent, HandleResponse(cfg, Parsed(s, m.Visible())).next.Complete?) by {
      WaitingStep(cfg, sv, base, w, input);
    }
    if q.id != s.mid {
      hide Sort, Find, DecodeBlock, Select;
      UnmovedKeepsInv(cfg, sv, base, w, v);
    } else {
      AnswerHandled(cfg, sv, Parsed(s, m.Visible()), q, m);
      hide HandleResponse, Accept;
      if m.code == CONTENT {
        var blocks := Select(m.options, BLOCK_2);
        var b := DecodeBlock(blocks[0].value).value;
        var s1 := Parsed(s, m.Visible().(options := Sort(m.options)));
        AcceptDone(s1, b);
        WaitingBlock(cfg, sv, base, w);
        AcceptKeepsInv(cfg, sv, base, w, b, s1, v);
      } else {
        UnmovedKeepsInv(cfg, sv, base, w, v);
      }
    }
  }

  lemma AcceptDone(s: ClientState, b: BlockState)
    ensures Accept(s, b).next.Complete? <==> !b.more
  {
  }

  lemma WaitingBlock(cfg: Config, sv: Server, base: seq<byte>, w: World)
    requires Inv(cfg, sv, base, w) && w.client.next.ReceiveDataBlock?
    ensures w.client.block == Requested(w.client.block) && !w.done
  {
  }

  lemma WaitingStep(cfg: Config, sv: Server, base: seq<byte>, w: World, input: Input)
    requires Inv(cfg, sv, base, w) && w.client.next.ReceiveDataBlock?
    ensures
      var t := ReceiveStep(cfg, w.client, input);
      Act(cfg, w, StepCall(input)) == World(t, w.sent, t.next.Complete?)
  {
    ReceivingAct(cfg, w, input);
    hide ReceiveStep, Act;
  }

  lemma ReceiveKeepsInv(cfg: Config, sv: Server, base: seq<byte>, w: World, input: Input)
    requires Inv(cfg, sv, base, w) && w.client.next.ReceiveDataBlock? && Admissible(sv, w, StepCall(input))
    ensures Inv(cfg, sv, base, Act(cfg, w, StepCall(input)))
    ensures ReceptionEnds(sv, w.client, Act(cfg, w, StepCall(input)).client)
  {
    hide GenuineFor, Stray, P.Parse, HandleResponse;
    var s, v := w.client, Act(cfg, w, StepCall(input));
    if s.received && input.arrival.Some? && Genuine(sv, w.sent, input.arrival.value) {
      var k, m: Message :| 0 <= k < |w.sent| && GenuineFor(sv, w.sent[k], m, input.arrival.value);
      AnswerKeepsInv(cfg, sv, base, w, input, k, m);
    } else {
      ActKeepsSound(cfg, w, StepCall(input));
      WaitingStep(cfg, sv, base, w, input);
      WaitingBlock(cfg, sv, base, w);
      if s.received && input.arrival.Some? {
        StrayUnmoved(cfg, w, input);
      }
      UnmovedKeepsInv(cfg, sv, base, w, v);
    }
  }

  // ---------- every run ----------

  lemma OtherKeepsKnown(cfg: Config, sv: Server, base: seq<byte>, w: World, a: Action)
    requires Inv(cfg, sv, base, w) && Admissible(sv, w, a)
    requires a.StepCall? ==> w.client.next in {Idle, Phase.Error, Complete, Halted}
    ensures var v := Act(cfg, w, a); AllKnown(v) && v.sent == w.sent && v.client.pdu == w.client.pdu
  {
    var v := Act(cfg, w, a);
    hide SendStep, ReceiveStep, ReadRequest, Requested, Offset, Sound, ConfigFits, InDomain, Progress, Behaved;
    assert w.sent + [] == w.sent;
    forall k | 0 <= k < |v.sent|
      ensures Known(v.client, v.done, v.sent[k])
    {
      assert Known(w.client, w.done, w.sent[k]);
    }
  }

  /** The phases in which a step looks at no input. */
  lemma OtherFields(cfg: Config, w: World, a: Action)
    requires w.client.pdu.WellFormed()
    requires a.StepCall? ==> w.client.next in {Idle, Phase.Error, Complete, Halted}
    ensures
      var s, v := w.client, Act(cfg, w, a);
      var t := v.client;
      && t.file == s.file && t.block == s.block && t.mid == s.mid && v.done == w.done
      && (t.state == s.state || (s.next == t.state && t.state in {Idle, Phase.Error, Complete}))
      && (t.next == s.next || t.next in {Idle, Phase.Error} || (a.StartCall? && t.next == SendRequest))
  {
  }

  lemma ProgressKept(sv: Server, base: seq<byte>, s: ClientState, t: ClientState)
    requires sv.least in SIZES && Progress(sv, base, s)
    requires t.file == s.file && t.block == s.block && t.mid == s.mid
    requires t.next == s.next || t.next in {Idle, Phase.Error, SendRequest}
    ensures Progress(sv, base, t)
  {
    hide Offset, BlocksBehind;
  }

  lemma OtherKeepsInv(cfg: Config, sv: Server, base: seq<byte>, w: World, a: Action)
    requires Inv(cfg, sv, base, w) && Admissible(sv, w, a)
    requires a.StepCall? ==> w.client.next in {Idle, Phase.Error, Complete, Halted}
    ensures Inv(cfg, sv, base, Act(cfg, w, a))
  {
    assert w.client.pdu.WellFormed() && (a.StartCall? ==> !w.done);
    assert sv.least in SIZES && Sound(w.client);
    hide Act, ReadRequest, Requested, Offset, Sound, ConfigFits, InDomain, AllKnown, Known, Progress, Admissible;
    ActKeepsSound(cfg, w, a);
    OtherKeepsKnown(cfg, sv, base, w, a);
    OtherFields(cfg, w, a);
    if !w.done {
      ProgressKept(sv, base, w.client, Act(cfg, w, a).client);
    }
  }

  lemma ActKeepsInv(cfg: Config, sv: Server, base: seq<byte>, w: World, a: Action)
    requires Inv(cfg, sv, base, w) && Admissible(sv, w, a)
    ensures Inv(cfg, sv, base, Act(cfg, w, a))
  {
    if a.StepCall? && w.client.next.SendRequest? {
      hide Act, Inv, Admissible;
      SendKeepsInv(cfg, sv, base, w, a.input);
    } else if a.StepCall? && w.client.next.ReceiveDataBlock? {
      hide Act, Inv, Admissible;
      ReceiveKeepsInv(cfg, sv, base, w, a.input);
    } else {
      OtherKeepsInv(cfg, sv, base, w, a);
    }
  }

  lemma {:induction false} RunKeepsInv(cfg: Config, sv: Server, base: seq<byte>, w: World, actions: seq<Action>)
    requires Inv(cfg, sv, base, w) && AdmissibleRun(cfg, sv, w, actions)
    ensures Inv(cfg, sv, base, Run(cfg, w, actions))
  {
    assert w.client.pdu.WellFormed();
    hide Inv, Act, Admissible;
    if actions != [] {
      var front := actions[..|actions| - 1];
      RunKeepsInv(cfg, sv, base, w, front);
      ActKeepsInv(cfg, sv, base, Run(cfg, w, front), actions[|actions| - 1]);
    }
  }

  function Fresh(existing: seq<byte>, pdu: Message): World {
    World(Initial(existing, pdu), [], false)
  }

  lemma InitialInv(cfg: Config, sv: Server, existing: seq<byte>, pdu: Message)
    requires cfg.build.Intended? && ConfigFits(cfg) && InDomain(sv) && pdu.WellFormed()
    ensures Inv(cfg, sv, existing, Fresh(existing, pdu))
  {
    hide ConfigFits;
    assert existing + sv.resource[..0] == existing;
  }

  /**
   Safety of the download.  In every reachable state before the last block the file is what it held at
   the start followed by exactly the first number * size bytes of the resource; once the last block is
   stored, and so whenever the client reports completion, it is followed by the whole resource.
   start() and stop() may come at any time before that.
   Only an empty datagram can stop the process, and the file is as described then too.
   */
  lemma DownloadSafe(cfg: Config, sv: Server, existing: seq<byte>, pdu: Message, actions: seq<Action>)
    requires cfg.build.Intended? && ConfigFits(cfg) && InDomain(sv) && pdu.WellFormed()
    requires AdmissibleRun(cfg, sv, Fresh(existing, pdu), actions)
    ensures
      var w := Run(cfg, Fresh(existing, pdu), actions);
      var at := Offset(w.client.block);
      && (!w.done ==> at <= |sv.resource| && w.client.file == existing + sv.resource[..at])
      && (w.done ==> w.client.file == existing + sv.resource)
      && (w.client.state.Complete? ==> w.client.file == existing + sv.resource)
      && (w.client.next.Halted? ==> exists k :: 0 <= k < |actions| && EmptyArrival(actions[k]))
  {
    hide Run, ConfigFits, Offset, EmptyArrival;
    if forall k :: 0 <= k < |actions| ==> !EmptyArrival(actions[k]) {
      NeverHalts(cfg, Fresh(existing, pdu), actions);
    }
    InitialInv(cfg, sv, existing, pdu);
    RunKeepsInv(cfg, sv, existing, Fresh(existing, pdu), actions);
  }
}
