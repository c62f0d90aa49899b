/**
 Runs on a network that loses nothing, with a server that always uses one block size: which downloads
 end, and what happens outside the domain of Download.
 */
module IdealRuns {
  import opened Bytes
  import opened Messages
  import opened OptionList
  import opened Encoding
  import opened RoundTrip
  import opened Blockwise
  import opened Requests
  import opened EndToEnd
  import opened ClientSteps
  import opened Sessions
  import opened Retransmissions
  import opened Download

  /** The three-byte form of section 2.2 of RFC 7959. */
  function StandardBlock(b: BlockState): seq<byte>
    requires b.number < BLOCK_NUMBERS
  {
    [b.number / 4096, b.number / 16 % 256, b.number % 16 * 16 + LowBits(b)]
  }

  lemma StandardBlockRead(b: BlockState)
    requires b.size in SIZES && b.number < BLOCK_NUMBERS
    ensures DecodeBlock(StandardBlock(b)) == Some(b)
  {
    hide LowBits, DecodeBlock;
    var n := b.number;
    var m := n / 16;
    assert n == 16 * m + n % 16 && m == 256 * (m / 256) + m % 256 && n / 4096 == m / 256;
    ValueReadsBack(b, [n / 4096, m % 256], n % 16);
    assert StandardBlock(b) == [n / 4096, m % 256] + [n % 16 * 16 + LowBits(b)];
    assert b.(number := n) == b;
  }

  function StartOf(n: nat, size: u16): nat {
    n * size
  }

  lemma StartOfNext(n: nat, size: u16)
    ensures StartOf(n + 1, size) == StartOf(n, size) + size
    ensures StartOf(0, size) == 0
  {
  }

  lemma StartOfGrows(x: nat, y: nat, size: u16)
    requires x <= y
    ensures StartOf(x, size) <= StartOf(y, size)
  {
    ProductGrows(x, y, size);
  }

  function Slice(resource: seq<byte>, size: u16, n: nat): seq<byte>
    requires StartOf(n, size) <= |resource|
  {
    resource[StartOf(n, size)..Min(StartOf(n, size) + size, |resource|)]
  }

  predicate More(resource: seq<byte>, size: u16, n: nat) {
    StartOf(n, size) + size < |resource|
  }

  /** The server's answer: its block size, the number it read, the slice there. */
  function AnswerTo(resource: seq<byte>, size: u16, q: Request): Message
    requires q.block.number < BLOCK_NUMBERS && StartOf(q.block.number, size) <= |resource|
  {
    var b := BlockState(q.block.number, size, More(resource, size, q.block.number));
    Message(96, CONTENT, q.id, Zeros(TOKEN_MAX_LENGTH), [CoapOption(BLOCK_2, StandardBlock(b))],
            Slice(resource, size, q.block.number))
  }

  lemma AnswerShape(m: Message, value: seq<byte>)
    requires m.header == 96 && m.WellFormed() && m.options == [CoapOption(BLOCK_2, value)] && |value| == 3
    requires |m.payload| <= 2048
    ensures m.TokenLength() == 0 && m.Version() == COAP_VERSION && m.Type() == ACKNOWLEDGEMENT
    ensures OptionsFit(m.options, 0) && |Encode(Intended, m)| <= BUFFER_MAX_SIZE
  {
    var o := m.options[0];
    assert m.options[1..] == [];
    OptionsBounded(m.options, 0);
    assert OptionsBound(m.options) == 8;
    assert NumberFits(0, BLOCK_2);
    hide EncodeOptions, OptionsBound, NumberFits;
  }

  lemma SliceServed(resource: seq<byte>, size: u16, asked: BlockState)
    requires size in SIZES && asked.size >= size && (asked.number == 0 || asked.size == size)
    requires StartOf(asked.number, size) <= |resource|
    ensures
      var n := asked.number;
      && Served(Server(resource, size), asked, BlockState(n, size, More(resource, size, n)), Slice(resource, size, n))
      && |Slice(resource, size, n)| <= size <= 2048
  {
    var b := BlockState(asked.number, size, More(resource, size, asked.number));
    assert Offset(asked) == StartOf(asked.number, size) == Offset(b);
    hide Offset;
  }

  /** It is an answer in the sense of Download, so that module's assumptions can be met. */
  lemma AnswerToIsAnswer(resource: seq<byte>, size: u16, q: Request)
    requires size in SIZES && q.block.size >= size && (q.block.number == 0 || q.block.size == size)
    requires q.block.number < BLOCK_NUMBERS && StartOf(q.block.number, size) <= |resource|
    ensures
      var m, n := AnswerTo(resource, size, q), q.block.number;
      && Answer(Server(resource, size), q, m) && m.code == CONTENT
      && m.payload == Slice(resource, size, n) && |Select(m.options, BLOCK_2)| == 1
      && DecodeBlock(Select(m.options, BLOCK_2)[0].value) == Some(BlockState(n, size, More(resource, size, n)))
  {
    var m, n := AnswerTo(resource, size, q), q.block.number;
    var b := BlockState(n, size, More(resource, size, n));
    SliceServed(resource, size, q.block);
    StandardBlockRead(b);
    SelectSingle(m.options[0], BLOCK_2);
    AnswerShape(m, StandardBlock(b));
    hide Encode, OptionsFit, Select, DecodeBlock, StandardBlock, Served, Slice, More;
  }

  // ---------- one round: request, notification, answer ----------

  function Reply(resource: seq<byte>, size: u16, sent: seq<seq<byte>>): Option<seq<byte>> {
    if sent == [] then None
    else
      match ReadRequest(sent[|sent| - 1])
      case None => None
      case Some(q) =>
        if q.block.number < BLOCK_NUMBERS && StartOf(q.block.number, size) <= |resource|
        then Some(Encode(Intended, AnswerTo(resource, size, q)))
        else None
  }

  function Ask(cfg: Config, drawn: u16, w: World): (v: World)
    requires w.client.pdu.WellFormed()
    ensures v.client.pdu.WellFormed()
  {
    Act(cfg, Act(cfg, w, StepCall(Input(drawn, true, None))), NotifyCall(true))
  }

  function Round(cfg: Config, resource: seq<byte>, size: u16, drawn: u16, w: World): (v: World)
    requires w.client.pdu.WellFormed()
    ensures v.client.pdu.WellFormed()
  {
    var u := Ask(cfg, drawn, w);
    Act(cfg, u, StepCall(Input(drawn, true, Reply(resource, size, u.sent))))
  }

  /** About to send a request that the server can answer. */
  predicate Asking(cfg: Config, size: u16, w: World) {
    && cfg.build.Intended? && ConfigFits(cfg) && size in SIZES
    && Sound(w.client) && w.client.pdu.TokenLength() <= TOKEN_MAX_LENGTH
    && w.client.next.SendRequest?
    && w.client.block.number <= 4096 && (w.client.block.number != 0 ==> w.client.block.size == size)
  }

  lemma AskSends(cfg: Config, size: u16, drawn: u16, w: World)
    requires Asking(cfg, size, w)
    ensures
      var s, u := w.client, Ask(cfg, drawn, w);
      var id := if s.mid == 0 then drawn else s.mid;
      var b := Requested(s.block);
      && u.client.next.ReceiveDataBlock? && u.client.received && Sound(u.client)
      && u.client.mid == id && u.client.file == s.file && u.done == w.done
      && |u.sent| == |w.sent| + 1
      && ReadRequest(u.sent[|w.sent|]) == Some(Request(id, cfg.port, cfg.path, b.(number := NumberOnWire(b.number))))
  {
    var v := Act(cfg, w, StepCall(Input(drawn, true, None)));
    AskOutcome(cfg, size, drawn, w);
    SentShape(cfg, w, StepCall(Input(drawn, true, None)));
    ActKeepsSound(cfg, w, StepCall(Input(drawn, true, None)));
    ActKeepsSound(cfg, v, NotifyCall(true));
    hide IsRequest, ReadRequest, NumberOnWire, Sound, ConfigFits, SendStep;
    var b := Requested(w.client.block);
    assert b.size in SIZES && b.number < BLOCK_NUMBERS by {
      assert Sound(w.client);
      AskingBlock(cfg, size, w);
    }
    SegmentsOf(cfg);
    RetransmissionsReadAlike(cfg, v.sent[|w.sent|], v.client.mid, b);
  }

  lemma SegmentsOf(cfg: Config)
    requires ConfigFits(cfg)
    ensures SegmentsFit(cfg.path)
  {
  }

  lemma AskingBlock(cfg: Config, size: u16, w: World)
    requires Asking(cfg, size, w)
    ensures var b := Requested(w.client.block);
            b.size in SIZES && b.size >= size && b.number < BLOCK_NUMBERS && (b.number == 0 || b.size == size)
  {
  }

  lemma AskOutcome(cfg: Config, size: u16, drawn: u16, w: World)
    requires Asking(cfg, size, w)
    ensures
      var v := Act(cfg, w, StepCall(Input(drawn, true, None)));
      && v.client.next.ReceiveDataBlock? && v.sent != w.sent && v.done == w.done
      && v.client.file == w.client.file && v.client.mid == (if w.client.mid == 0 then drawn else w.client.mid)
  {
    hide Encode, EncodeBlock, RequestOptions, PathOptions, RequestHeader, ConfigFits;
    RequestHeaderParts(w.client.pdu.header);
  }

  /** The client waits for an answer to q, and the server has that block. */
  predicate Expecting(resource: seq<byte>, size: u16, s: ClientState, q: Request) {
    && Sound(s) && s.next.ReceiveDataBlock? && s.received && s.mid == q.id
    && size in SIZES && q.block.size >= size && (q.block.number == 0 || q.block.size == size)
    && q.block.number < BLOCK_NUMBERS && StartOf(q.block.number, size) <= |resource|
  }

  predicate Waiting(resource: seq<byte>, size: u16, u: World, q: Request) {
    Expecting(resource, size, u.client, q) && u.sent != [] && ReadRequest(u.sent[|u.sent| - 1]) == Some(q)
  }

  function SuccessorId(id: u16): u16 {
    if id == 0xFFFF then 0 else id + 1
  }

  /** What storing block n, answered under this id, leaves of the client state s. */
  predicate Stored(resource: seq<byte>, size: u16, n: nat, id: u16, s: ClientState, t: ClientState)
    requires StartOf(n, size) <= |resource| && n < BLOCK_NUMBERS
  {
    && t.file == s.file + Slice(resource, size, n)
    && t.pdu.TokenLength() <= TOKEN_MAX_LENGTH
    && if More(resource, size, n) then
         t.next == SendRequest && t.block == BlockState(n + 1, size, false) && t.mid == SuccessorId(id)
       else t.next == Complete && t.block == BlockState(n, size, false) && t.mid == id
  }

  lemma AcceptStores(resource: seq<byte>, size: u16, n: nat, s: ClientState, m: Message, s1: ClientState)
    requires n < BLOCK_NUMBERS && StartOf(n, size) <= |resource| && s1.file == s.file && s1.pdu == m
    requires m.TokenLength() == 0 && m.payload == Slice(resource, size, n) && s1.mid == m.messageId
    ensures Stored(resource, size, n, m.messageId, s, Accept(s1, BlockState(n, size, More(resource, size, n))))
  {
    hide Slice, More, StartOf;
  }

  lemma ReplyHandled(cfg: Config, resource: seq<byte>, size: u16, s: ClientState, q: Request, input: Input)
    requires cfg.build.Intended? && Expecting(resource, size, s, q)
    requires input.arrival == Some(Encode(Intended, AnswerTo(resource, size, q)))
    ensures Stored(resource, size, q.block.number, q.id, s, ReceiveStep(cfg, s, input))
  {
    var m, sv, n := AnswerTo(resource, size, q), Server(resource, size), q.block.number;
    AnswerToIsAnswer(resource, size, q);
    assert m.TokenLength() == 0 && m.messageId == q.id;
    hide AnswerTo, Encode, Slice, More, Answer, Stored, Sound, HandleResponse, ReceiveStep, Select, DecodeBlock, Sort, Accept;
    AnswerArrives(cfg, sv, s, input, q, m);
    AnswerHandled(cfg, sv, Download.Parsed(s, m.Visible()), q, m);
    var p := m.Visible().(options := Sort(m.options));
    AcceptStores(resource, size, n, s, p, Download.Parsed(s, p));
  }

  lemma WaitingParts(resource: seq<byte>, size: u16, u: World, q: Request)
    requires Waiting(resource, size, u, q)
    ensures Sound(u.client) && u.client.next.ReceiveDataBlock? && u.client.received && u.client.mid == q.id
    ensures Expecting(resource, size, u.client, q)
    ensures Reply(resource, size, u.sent) == Some(Encode(Intended, AnswerTo(resource, size, q)))
  {
    hide AnswerTo, Encode, ReadRequest;
  }

  lemma AskWaits(cfg: Config, resource: seq<byte>, size: u16, drawn: u16, w: World) returns (q: Request)
    requires Asking(cfg, size, w) && StartOf(NumberOnWire(w.client.block.number), size) <= |resource|
    ensures
      var u := Ask(cfg, drawn, w);
      && Waiting(resource, size, u, q) && u.client.file == w.client.file && u.done == w.done
      && q.block.number == NumberOnWire(w.client.block.number)
      && |u.sent| == |w.sent| + 1 && q.id == (if w.client.mid == 0 then drawn else w.client.mid)
  {
    AskSends(cfg, size, drawn, w);
    AskingBlock(cfg, size, w);
    var u := Ask(cfg, drawn, w);
    q := ReadRequest(u.sent[|w.sent|]).value;
    hide Ask, ReadRequest, ConfigFits, Sound;
  }

  /** A round stores the block that the server read, and goes on exactly if that was not the last one. */
  lemma RoundStores(cfg: Config, resource: seq<byte>, size: u16, drawn: u16, w: World)
    requires Asking(cfg, size, w) && StartOf(NumberOnWire(w.client.block.number), size) <= |resource|
    ensures
      var n, v := NumberOnWire(w.client.block.number), Round(cfg, resource, size, drawn, w);
      var id := if w.client.mid == 0 then drawn else w.client.mid;
      && n < BLOCK_NUMBERS && Stored(resource, size, n, id, w.client, v.client) && Sound(v.client)
      && v.sent == Ask(cfg, drawn, w).sent
      && v.done == (w.done || !More(resource, size, n))
  {
    var q := AskWaits(cfg, resource, size, drawn, w);
    var u := Ask(cfg, drawn, w);
    WaitingParts(resource, size, u, q);
    var input := Input(drawn, true, Some(Encode(Intended, AnswerTo(resource, size, q))));
    ReplyHandled(cfg, resource, size, u.client, q, input);
    ActKeepsSound(cfg, u, StepCall(input));
    assert q.block.number < BLOCK_NUMBERS;
    assert Round(cfg, resource, size, drawn, w) == Act(cfg, u, StepCall(input));
    ReceivingAct(cfg, u, input);
    hide Ask, Act, Round, Waiting, Expecting, Sound, ReceiveStep, AnswerTo, Encode, Reply, ConfigFits, Slice, More, Asking, NumberOnWire;
  }

  /** A round that does not store the last block leads to the next request. */
  lemma RoundGoesOn(cfg: Config, resource: seq<byte>, size: u16, drawn: u16, w: World, n: nat)
    requires Asking(cfg, size, w) && NumberOnWire(w.client.block.number) == n <= 4095
    requires StartOf(n, size) <= |resource| && More(resource, size, n)
    ensures
      var v := Round(cfg, resource, size, drawn, w);
      var id := if w.client.mid == 0 then drawn else w.client.mid;
      && Asking(cfg, size, v) && v.client.block == BlockState(n + 1, size, false) && v.done == w.done
      && v.client.file == w.client.file + Slice(resource, size, n)
      && v.client.mid == SuccessorId(id) && v.sent == Ask(cfg, drawn, w).sent
  {
    RoundStores(cfg, resource, size, drawn, w);
    hide NumberOnWire, StartOf, More, Slice, Round, Ask, ConfigFits, Sound;
  }

  lemma StartOfMore(resource: seq<byte>, size: u16, n: nat)
    ensures StartOf(n + 1, size) < |resource| <==> More(resource, size, n)
  {
    StartOfNext(n, size);
  }

  lemma WireBelow(n: u32)
    requires n <= 4096
    ensures NumberOnWire(n) == if n == 4096 then 16 else n
  {
  }

  // ---------- the domain of 4096 blocks is exact ----------

  function Rounds(cfg: Config, resource: seq<byte>, size: u16, drawn: u16, w: World, k: nat): (v: World)
    requires w.client.pdu.WellFormed()
    ensures v.client.pdu.WellFormed()
  {
    if k == 0 then w else Round(cfg, resource, size, drawn, Rounds(cfg, resource, size, drawn, w, k - 1))
  }

  /** A client that has just been started on a file that holds base. */
  predicate Started(cfg: Config, size: u16, base: seq<byte>, w: World) {
    Asking(cfg, size, w) && w.client.block.number == 0 && w.client.file == base && !w.done
  }

  lemma StartedBy(cfg: Config, size: u16, base: seq<byte>, pdu: Message)
    requires cfg.build.Intended? && ConfigFits(cfg) && size in SIZES
    requires pdu.WellFormed() && pdu.TokenLength() <= TOKEN_MAX_LENGTH
    ensures Started(cfg, size, base, Act(cfg, Fresh(base, pdu), StartCall))
  {
    hide ConfigFits;
  }

  lemma SliceExtends(resource: seq<byte>, size: u16, base: seq<byte>, k: nat)
    requires StartOf(k, size) <= |resource|
    ensures
      var from, to := StartOf(k, size), Min(StartOf(k, size) + size, |resource|);
      (base + resource[..from]) + Slice(resource, size, k) == base + resource[..to]
  {
    hide StartOf;
    var from, to := StartOf(k, size), Min(StartOf(k, size) + size, |resource|);
    assert resource[..from] + resource[from..to] == resource[..to];
  }

  lemma {:induction false} RoundsAdvance(cfg: Config, resource: seq<byte>, size: u16, drawn: u16, base: seq<byte>, w: World, k: nat)
    requires Started(cfg, size, base, w) && k <= 4096 && (k == 0 || StartOf(k, size) < |resource|)
    ensures
      var v := Rounds(cfg, resource, size, drawn, w, k);
      && Asking(cfg, size, v) && !v.done && v.client.block.number == k
      && StartOf(k, size) <= |resource| && v.client.file == base + resource[..StartOf(k, size)]
    decreases k
  {
    StartedParts(cfg, size, base, w);
    hide Round, Slice, StartOf, NumberOnWire, More, Asking;
    StartOfNext(if k == 0 then 0 else k - 1, size);
    if k == 0 {
      assert base + resource[..0] == base;
    } else {
      StartOfMore(resource, size, k - 1);
      WireBelow(k - 1);
      RoundsAdvance(cfg, resource, size, drawn, base, w, k - 1);
      RoundGoesOn(cfg, resource, size, drawn, Rounds(cfg, resource, size, drawn, w, k - 1), k - 1);
      SliceExtends(resource, size, base, k - 1);
    }
  }

  /** In the domain the loss-free run ends after as many rounds as there are blocks, with the whole file. */
  lemma IdealCompletes(cfg: Config, resource: seq<byte>, size: u16, drawn: u16, base: seq<byte>, w: World, k: nat)
    requires Started(cfg, size, base, w) && |resource| <= 4096 * size
    requires k == if resource == [] then 0 else (|resource| - 1) / size
    ensures
      var v := Rounds(cfg, resource, size, drawn, w, k + 1);
      v.done && v.client.next.Complete? && v.client.file == base + resource
  {
    LastIndex(|resource|, size, k);
    hide StartOf, Sound;
    RoundsAdvance(cfg, resource, size, drawn, base, w, k);
    var u := Rounds(cfg, resource, size, drawn, w, k);
    RoundStores(cfg, resource, size, drawn, u);
    SliceExtends(resource, size, base, k);
    assert resource[..|resource|] == resource;
    hide Round, Slice, Asking;
  }

  lemma FullSize(size: u16)
    ensures StartOf(4096, size) == 4096 * size && StartOf(16, size) == 16 * size
  {
  }

  lemma LastIndex(n: nat, size: u16, k: nat)
    requires size > 0 && n <= 4096 * size && k == if n == 0 then 0 else (n - 1) / size
    ensures k <= 4095 && (k == 0 || StartOf(k, size) < n) && n <= StartOf(k, size) + size
  {
    if n > 0 {
      assert n - 1 == size * k + (n - 1) % size;
      assert size * k == k * size;
      ProductGrows(4096, k, size);
    }
  }

  /** The block asked for after k rounds that never store a last one: 0 to 4096, then 17 to 4096 for ever. */
  function BlockAfter(k: nat): (n: nat)
    ensures n <= 4096
  {
    if k < 17 then k else 17 + (k - 17) % 4080
  }

  lemma BlockAfterNext(k: nat)
    ensures BlockAfter(k + 1) == if BlockAfter(k) == 4096 then 17 else BlockAfter(k) + 1
    ensures k <= 4096 ==> BlockAfter(k) == k
    ensures k >= 17 ==> BlockAfter(k + 4080) == BlockAfter(k) >= 17
  {
    if k >= 17 {
      var m := k - 17;
      var q := m / 4080;
      assert m == 4080 * q + m % 4080;
      assert (m + 1) % 4080 == if m % 4080 == 4079 then 0 else m % 4080 + 1 by {
        assert m % 4080 == 4079 ==> m + 1 == 4080 * (q + 1);
      }
    }
  }

  /** A round on a resource of more than 4096 blocks. */
  lemma NotTheLast(cfg: Config, resource: seq<byte>, size: u16, drawn: u16, u: World)
    requires Asking(cfg, size, u) && |resource| > 4096 * size
    ensures
      var n := NumberOnWire(u.client.block.number);
      var v := Round(cfg, resource, size, drawn, u);
      && n <= 4095 && StartOf(n, size) <= |resource|
      && Asking(cfg, size, v) && v.client.block.number == n + 1 && v.done == u.done
      && v.client.file == u.client.file + Slice(resource, size, n)
  {
    AskingNumber(cfg, size, u);
    WireBelow(u.client.block.number);
    var n := NumberOnWire(u.client.block.number);
    MoreBelow(resource, size, n);
    RoundGoesOn(cfg, resource, size, drawn, u, n);
    hide Round, Slice, More, Asking, StartOf, NumberOnWire;
  }

  predicate Cycling(cfg: Config, size: u16, k: nat, v: World) {
    Asking(cfg, size, v) && !v.done && v.client.block.number == BlockAfter(k)
  }

  lemma CycleTurn(cfg: Config, resource: seq<byte>, size: u16, drawn: u16, u: World, k: nat)
    requires Cycling(cfg, size, k, u) && |resource| > 4096 * size
    ensures Cycling(cfg, size, k + 1, Round(cfg, resource, size, drawn, u))
  {
    hide Round, Slice, More, Asking, StartOf, NumberOnWire, BlockAfter;
    NotTheLast(cfg, resource, size, drawn, u);
    BlockAfterNext(k);
    WireBelow(BlockAfter(k));
  }

  lemma CycleStarts(cfg: Config, size: u16, base: seq<byte>, w: World)
    requires Started(cfg, size, base, w)
    ensures w.client.pdu.WellFormed() && Cycling(cfg, size, 0, w)
  {
    hide ConfigFits;
  }

  lemma {:induction false} RoundsCycle(cfg: Config, resource: seq<byte>, size: u16, drawn: u16, base: seq<byte>, w: World, k: nat)
    requires Started(cfg, size, base, w) && |resource| > 4096 * size
    ensures Cycling(cfg, size, k, Rounds(cfg, resource, size, drawn, w, k))
    decreases k
  {
    hide Round, Cycling, Started;
    CycleStarts(cfg, size, base, w);
    if k > 0 {
      RoundsCycle(cfg, resource, size, drawn, base, w, k - 1);
      CycleTurn(cfg, resource, size, drawn, Rounds(cfg, resource, size, drawn, w, k - 1), k - 1);
    }
  }

  /**
   Beyond the domain it never ends: block 4096 is asked for as block 16, so from then on the client
   stores blocks 16 to 4095 again and again.
   */
  lemma IdealNeverCompletes(cfg: Config, resource: seq<byte>, size: u16, drawn: u16, base: seq<byte>, w: World, k: nat)
    requires Started(cfg, size, base, w) && |resource| > 4096 * size
    ensures
      var v := Rounds(cfg, resource, size, drawn, w, k);
      var n := NumberOnWire(BlockAfter(k));
      && Asking(cfg, size, v) && !v.done && v.client.block.number == BlockAfter(k)
      && n <= 4095 && StartOf(n, size) <= |resource|
      && Rounds(cfg, resource, size, drawn, w, k + 1).client.file == v.client.file + Slice(resource, size, n)
  {
    RoundsCycle(cfg, resource, size, drawn, base, w, k);
    hide Round, Slice, Asking, StartOf, NumberOnWire, BlockAfter, Started;
    NotTheLast(cfg, resource, size, drawn, Rounds(cfg, resource, size, drawn, w, k));
  }

  lemma AskingNumber(cfg: Config, size: u16, w: World)
    requires Asking(cfg, size, w)
    ensures w.client.block.number <= 4096
  {
  }

  lemma MoreBelow(resource: seq<byte>, size: u16, n: nat)
    requires n <= 4095 && |resource| > 4096 * size
    ensures StartOf(n, size) <= |resource| && More(resource, size, n)
  {
    hide StartOf;
    StartOfNext(n, size);
    StartOfGrows(n + 1, 4096, size);
    FullSize(size);
  }

  /** So a loss-free download with a fixed block size ends if and only if 4096 blocks are enough. */
  lemma IdealDownloadExact(cfg: Config, resource: seq<byte>, size: u16, drawn: u16, base: seq<byte>, w: World)
    requires Started(cfg, size, base, w)
    ensures (exists k: nat :: Rounds(cfg, resource, size, drawn, w, k).done) <==> |resource| <= 4096 * size
  {
    if |resource| <= 4096 * size {
      var k := if resource == [] then 0 else (|resource| - 1) / size;
      IdealCompletes(cfg, resource, size, drawn, base, w, k);
      assert Rounds(cfg, resource, size, drawn, w, k + 1).done;
    } else {
      forall k: nat
        ensures !Rounds(cfg, resource, size, drawn, w, k).done
      {
        IdealNeverCompletes(cfg, resource, size, drawn, base, w, k);
      }
    }
  }

  /** And the first block beyond the domain is wrong: block 16 is stored again in its place. */
  lemma WrongBlockStored(cfg: Config, resource: seq<byte>, size: u16, drawn: u16, base: seq<byte>, w: World)
    requires Started(cfg, size, base, w) && |resource| > 4096 * size
    ensures
      Rounds(cfg, resource, size, drawn, w, 4097).client.file
      == base + resource[..4096 * size] + resource[16 * size..17 * size]
  {
    FullSize(size);
    RoundsAdvance(cfg, resource, size, drawn, base, w, 4096);
    hide Round, StartOf, Asking;
    var u := Rounds(cfg, resource, size, drawn, w, 4096);
    assert NumberOnWire(4096) == 16;
    assert u.client.block.number == 4096 && Asking(cfg, size, u);
    RoundStores(cfg, resource, size, drawn, u);
    assert Rounds(cfg, resource, size, drawn, w, 4097) == Round(cfg, resource, size, drawn, u);
  }

  // ---------- what the other assumptions of Download are for ----------

  /** start() after the last block asks for that block once more and appends it again. */
  lemma RestartRepeatsLastBlock(cfg: Config, resource: seq<byte>, size: u16, drawn: u16, w: World, input: Input)
    requires cfg.build.Intended? && ConfigFits(cfg) && size in SIZES
    requires Sound(w.client) && w.client.pdu.TokenLength() <= TOKEN_MAX_LENGTH && w.client.next.Complete?
    requires w.client.block.size == size && w.client.block.number < 4096
    requires StartOf(w.client.block.number, size) <= |resource|
    ensures
      var v := Act(cfg, Act(cfg, w, StepCall(input)), StartCall);
      Round(cfg, resource, size, drawn, v).client.file == w.client.file + Slice(resource, size, w.client.block.number)
  {
    var v := Act(cfg, Act(cfg, w, StepCall(input)), StartCall);
    assert Asking(cfg, size, v) by {
      hide ConfigFits, Round;
    }
    hide Act, Round, Slice, Asking, ConfigFits;
    RoundStores(cfg, resource, size, drawn, v);
  }

  lemma StartedParts(cfg: Config, size: u16, base: seq<byte>, w: World)
    requires Started(cfg, size, base, w)
    ensures Asking(cfg, size, w) && w.client.block.number == 0 && w.client.file == base && !w.done
    ensures w.client.pdu.WellFormed()
  {
  }

  lemma AskKeepsSent(cfg: Config, size: u16, drawn: u16, w: World)
    requires Asking(cfg, size, w)
    ensures
      var u := Ask(cfg, drawn, w);
      |u.sent| == |w.sent| + 1 && u.sent[..|w.sent|] == w.sent
  {
    AskOutcome(cfg, size, drawn, w);
    SentShape(cfg, w, StepCall(Input(drawn, true, None)));
    hide IsRequest, SendStep, ConfigFits;
  }

  /** The rounds are what Download expects of server and network. */
  lemma RoundIsBehaved(cfg: Config, resource: seq<byte>, size: u16, drawn: u16, w: World)
    requires Asking(cfg, size, w) && StartOf(NumberOnWire(w.client.block.number), size) <= |resource|
    ensures
      var sv, u := Server(resource, size), Ask(cfg, drawn, w);
      && Behaved(sv, w, StepCall(Input(drawn, true, None)))
      && Reply(resource, size, u.sent).Some?
      && Behaved(sv, u, StepCall(Input(drawn, true, Reply(resource, size, u.sent))))
  {
    var q := AskWaits(cfg, resource, size, drawn, w);
    var u := Ask(cfg, drawn, w);
    WaitingParts(resource, size, u, q);
    AnswerToIsAnswer(resource, size, q);
    hide Ask, Answer, AnswerTo, ReadRequest, Encode, Slice, More, Select, DecodeBlock, Sound, ConfigFits;
    assert GenuineFor(Server(resource, size), u.sent[|u.sent| - 1], AnswerTo(resource, size, q),
                      Reply(resource, size, u.sent).value);
  }

  /** With a first id that leaves room for the others they are runs that Download admits. */
  lemma RoundIsAdmissible(cfg: Config, resource: seq<byte>, size: u16, drawn: u16, w: World)
    requires Asking(cfg, size, w) && StartOf(NumberOnWire(w.client.block.number), size) <= |resource|
    requires GoodId(Server(resource, size), drawn)
    ensures
      var sv, u := Server(resource, size), Ask(cfg, drawn, w);
      && Admissible(sv, w, StepCall(Input(drawn, true, None)))
      && Admissible(sv, u, StepCall(Input(drawn, true, Reply(resource, size, u.sent))))
  {
    RoundIsBehaved(cfg, resource, size, drawn, w);
    hide Ask, Reply, Behaved, ConfigFits, Sound;
  }
}
