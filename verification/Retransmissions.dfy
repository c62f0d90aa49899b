/** What stays the same between two accepted blocks (src/uriClientEndpoint.cc:70-133). */
module Retransmissions {
  import opened Bytes
  import opened Messages
  import opened OptionList
  import opened Encoding
  import opened Blockwise
  import opened Requests
  import opened EndToEnd
  import opened ClientSteps
  import opened Sessions
  import P = Parsing

  /** A step that stored a chunk: every other way out of a reception fails or counts an attempt. */
  predicate Accepts(a: Action, s: ClientState, t: ClientState) {
    a.StepCall? && s.next.ReceiveDataBlock? && (t.next.Complete? || (t.next.SendRequest? && t.attempts == 0))
  }

  /** d is a request for block b with this id; token and token length come from whatever pdu held. */
  ghost predicate IsRequest(cfg: Config, d: seq<byte>, id: u16, b: BlockState) {
    exists pdu: Message :: RequestFrom(cfg, pdu, d, id, b)
  }

  ghost predicate RequestFrom(cfg: Config, pdu: Message, d: seq<byte>, id: u16, b: BlockState) {
    && pdu.WellFormed() && pdu.TokenLength() <= TOKEN_MAX_LENGTH && EncodeBlock(b).Some?
    && var m := RequestMessage(pdu, id, RequestOptions(cfg.build, cfg.port, cfg.path, EncodeBlock(b).value));
       m.TokenLength() <= TOKEN_MAX_LENGTH && d == Encode(cfg.build, m)
  }

  /**
   Block number and file change only together, in a step that accepts; start(), stop(), retries and
   every failure keep them, and keep a message id once there is one.
   */
  lemma OnlyAcceptanceMoves(cfg: Config, w: World, a: Action)
    requires Sound(w.client)
    ensures
      var v := Act(cfg, w, a).client;
      !Accepts(a, w.client, v) ==>
        && v.file == w.client.file && v.block.number == w.client.block.number
        && Requested(v.block) == Requested(w.client.block)
        && (w.client.mid != 0 ==> v.mid == w.client.mid)
  {
    hide Encode, EncodeBlock, RequestOptions, PathOptions, RequestHeader, HandleResponse;
    var s := w.client;
    if a.StepCall? && s.next.ReceiveDataBlock? && s.received && a.input.arrival.Some? {
      var m := P.Parse(cfg.build, s.pdu, Truncate(a.input.arrival.value)).1;
      hide P.Parse;
      ResponseMoves(cfg, s.(state := ReceiveDataBlock, received := false, pdu := m), a.input);
    }
  }

  lemma ResponseMoves(cfg: Config, s: ClientState, input: Input)
    requires s.next.ReceiveDataBlock?
    ensures
      var t := HandleResponse(cfg, s);
      !Accepts(StepCall(input), s, t) ==> t.file == s.file && t.block == s.block && t.mid == s.mid
  {
    hide Sort, Find, DecodeBlock;
  }

  /** A step adds at most one datagram, and that is a request for the current block. */
  lemma SentShape(cfg: Config, w: World, a: Action)
    requires Sound(w.client)
    ensures
      var v := Act(cfg, w, a);
      || v.sent == w.sent
      || (&& a.StepCall? && w.client.next.SendRequest? && v.client.next.ReceiveDataBlock?
          && v.client.mid == (if w.client.mid == 0 then a.input.freshId else w.client.mid)
          && |v.sent| == |w.sent| + 1 && v.sent[..|w.sent|] == w.sent
          && IsRequest(cfg, v.sent[|w.sent|], v.client.mid, Requested(w.client.block)))
  {
    hide Encode, RequestOptions, PathOptions, RequestHeader, EncodeBlock;
    var s, v := w.client, Act(cfg, w, a);
    if v.sent != w.sent {
      RequestHeaderParts(s.pdu.header);
      assert v.sent == w.sent + [v.sent[|w.sent|]];
      assert RequestFrom(cfg, s.pdu, v.sent[|w.sent|], v.client.mid, Requested(s.block));
    }
  }

  /** How many requests may still go out before a block is accepted or start() is called. */
  function Budget(s: ClientState): int {
    if s.next.SendRequest? then RECEIVE_MAX_ATTEMPTS + 1 - s.attempts
    else if s.next.ReceiveDataBlock? then RECEIVE_MAX_ATTEMPTS - s.attempts
    else 0
  }

  lemma BudgetFalls(cfg: Config, w: World, a: Action)
    requires Sound(w.client) && !a.StartCall?
    ensures
      var v := Act(cfg, w, a);
      !Accepts(a, w.client, v.client) ==> |v.sent| + Budget(v.client) <= |w.sent| + Budget(w.client)
  {
    hide Encode, EncodeBlock, RequestOptions, PathOptions, RequestHeader, HandleResponse;
    var s := w.client;
    if a.StepCall? && s.next.ReceiveDataBlock? && s.received && a.input.arrival.Some? {
      var m := P.Parse(cfg.build, s.pdu, Truncate(a.input.arrival.value)).1;
      hide P.Parse;
      ResponseBudget(cfg, s.(state := ReceiveDataBlock, received := false, pdu := m), a.input);
    }
  }

  lemma ResponseBudget(cfg: Config, s: ClientState, input: Input)
    requires s.next.ReceiveDataBlock? && s.attempts <= RECEIVE_MAX_ATTEMPTS
    ensures
      var t := HandleResponse(cfg, s);
      !Accepts(StepCall(input), s, t) ==> Budget(t) <= Budget(s)
  {
    hide Sort, Find, DecodeBlock;
  }

  /** A stretch of a run without start() and without an accepted block. */
  predicate Quiet(cfg: Config, w: World, actions: seq<Action>)
    requires w.client.pdu.WellFormed()
  {
    actions == [] ||
    var front, a := actions[..|actions| - 1], actions[|actions| - 1];
    var v := Run(cfg, w, front);
    Quiet(cfg, w, front) && !a.StartCall? && !Accepts(a, v.client, Act(cfg, v, a).client)
  }

  /** d is a request for block b under some id. */
  ghost predicate IsRequestUnderAnyId(cfg: Config, d: seq<byte>, b: BlockState) {
    exists id: u16 :: IsRequest(cfg, d, id, b)
  }

  /**
   Between two accepted blocks at most five requests go out, whatever is received and whatever ids are
   drawn.  They all ask for the same block of the same path, and the file stays as it is.
   */
  lemma {:induction false} RetransmissionsBounded(cfg: Config, w: World, actions: seq<Action>)
    requires Sound(w.client) && Quiet(cfg, w, actions)
    ensures
      var v := Run(cfg, w, actions);
      && |w.sent| <= |v.sent| && v.sent[..|w.sent|] == w.sent
      && |v.sent| - |w.sent| + Budget(v.client) <= Budget(w.client) <= RECEIVE_MAX_ATTEMPTS + 1
      && Requested(v.client.block) == Requested(w.client.block) && v.client.file == w.client.file
      && (w.client.mid != 0 ==> v.client.mid == w.client.mid)
      && forall k :: |w.sent| <= k < |v.sent| ==> IsRequestUnderAnyId(cfg, v.sent[k], Requested(w.client.block))
  {
    hide Act, IsRequest, Accepts, Requested;
    if actions != [] {
      var front, a := actions[..|actions| - 1], actions[|actions| - 1];
      RetransmissionsBounded(cfg, w, front);
      RunKeepsSound(cfg, w, front);
      var u := Run(cfg, w, front);
      OnlyAcceptanceMoves(cfg, u, a);
      SentShape(cfg, u, a);
      BudgetFalls(cfg, u, a);
      var v := Act(cfg, u, a);
      assert v == Run(cfg, w, actions);
      forall k | |w.sent| <= k < |v.sent|
        ensures IsRequestUnderAnyId(cfg, v.sent[k], Requested(w.client.block))
      {
        if k < |u.sent| {
          assert v.sent[k] == v.sent[..|u.sent|][k] == u.sent[k];
        }
      }
    }
  }

  // ---------- the message ids of one block ----------

  /** An id comes from the generator, and only for a client that has none. */
  lemma IdIsDrawn(cfg: Config, w: World, a: Action)
    requires Sound(w.client)
    ensures
      var v := Act(cfg, w, a).client;
      !Accepts(a, w.client, v) && v.mid != w.client.mid ==>
        a.StepCall? && w.client.mid == 0 && v.mid == a.input.freshId
  {
    hide Encode, EncodeBlock, RequestOptions, PathOptions, RequestHeader, HandleResponse;
    var s := w.client;
    if a.StepCall? && s.next.ReceiveDataBlock? && s.received && a.input.arrival.Some? {
      var m := P.Parse(cfg.build, s.pdu, Truncate(a.input.arrival.value)).1;
      hide P.Parse;
      ResponseMoves(cfg, s.(state := ReceiveDataBlock, received := false, pdu := m), a.input);
    }
  }

  /** All datagrams sent between w and v are requests for w's block under this id. */
  ghost predicate SentUnder(cfg: Config, w: World, v: World, id: u16) {
    |w.sent| <= |v.sent| &&
    forall k :: |w.sent| <= k < |v.sent| ==> IsRequest(cfg, v.sent[k], id, Requested(w.client.block))
  }

  ghost predicate UnderOneId(cfg: Config, w: World, v: World) {
    exists id: u16 :: SentUnder(cfg, w, v, id)
  }

  ghost predicate UnderOneNonZeroId(cfg: Config, w: World, v: World) {
    exists id: u16 :: id != 0 && SentUnder(cfg, w, v, id)
  }

  /** The client keeps its id: it has one, or draws none that is zero, or nothing but zeros. */
  predicate KeepsId(mid: u16, ids: set<u16>) {
    mid != 0 || 0 !in ids || ids <= {0}
  }

  lemma {:induction false} RetransmissionsAgree(cfg: Config, w: World, actions: seq<Action>, ids: set<u16>)
    requires Sound(w.client) && Quiet(cfg, w, actions) && IdsFrom(actions, ids)
    requires KeepsId(w.client.mid, ids)
    ensures
      var v := Run(cfg, w, actions);
      && SentUnder(cfg, w, v, v.client.mid)
      && (w.client.mid != 0 ==> v.client.mid == w.client.mid)
      && (v.client.mid == 0 || v.client.mid == w.client.mid || v.client.mid in ids)
      && (w.client.mid != 0 || 0 !in ids ==> |w.sent| < |v.sent| ==> v.client.mid != 0)
  {
    hide Act, IsRequest, Accepts, Requested;
    if actions != [] {
      var front, a := actions[..|actions| - 1], actions[|actions| - 1];
      RetransmissionsAgree(cfg, w, front, ids);
      RetransmissionsBounded(cfg, w, front);
      RunKeepsSound(cfg, w, front);
      AgreeOnce(cfg, w, Run(cfg, w, front), a, ids);
    }
  }

  /** One more action. */
  lemma AgreeOnce(cfg: Config, w: World, u: World, a: Action, ids: set<u16>)
    requires Sound(u.client) && SentUnder(cfg, w, u, u.client.mid) && KeepsId(w.client.mid, ids)
    requires Requested(u.client.block) == Requested(w.client.block)
    requires w.client.mid != 0 ==> u.client.mid == w.client.mid
    requires u.client.mid == 0 || u.client.mid == w.client.mid || u.client.mid in ids
    requires w.client.mid != 0 || 0 !in ids ==> |w.sent| < |u.sent| ==> u.client.mid != 0
    requires a.StepCall? ==> a.input.freshId in ids
    requires !Accepts(a, u.client, Act(cfg, u, a).client)
    ensures
      var v := Act(cfg, u, a);
      && SentUnder(cfg, w, v, v.client.mid)
      && (w.client.mid != 0 ==> v.client.mid == w.client.mid)
      && (v.client.mid == 0 || v.client.mid == w.client.mid || v.client.mid in ids)
      && (w.client.mid != 0 || 0 !in ids ==> |w.sent| < |v.sent| ==> v.client.mid != 0)
  {
    hide Act, IsRequest, Accepts, Requested;
    SentShape(cfg, u, a);
    IdIsDrawn(cfg, u, a);
    var v := Act(cfg, u, a);
    forall k | |w.sent| <= k < |v.sent|
      ensures IsRequest(cfg, v.sent[k], v.client.mid, Requested(w.client.block))
    {
      if k < |u.sent| {
        assert v.sent[k] == v.sent[..|u.sent|][k] == u.sent[k];
        assert IsRequest(cfg, u.sent[k], u.client.mid, Requested(w.client.block));
      }
    }
  }

  /** The id of a request stands in its bytes. */
  lemma IdOnWire(cfg: Config, d: seq<byte>, id1: u16, id2: u16, b1: BlockState, b2: BlockState)
    requires IsRequest(cfg, d, id1, b1) && IsRequest(cfg, d, id2, b2)
    ensures id1 == id2
  {
    RequestBytes(cfg, d, id1, b1);
    RequestBytes(cfg, d, id2, b2);
  }

  lemma RequestBytes(cfg: Config, d: seq<byte>, id: u16, b: BlockState)
    requires IsRequest(cfg, d, id, b)
    ensures |d| >= PACKET_HEADER_SIZE && id == 256 * (d[2] as int) + d[3]
  {
    hide EncodeOptions, RequestOptions, EncodeBlock, RequestHeader;
    var pdu: Message :| RequestFrom(cfg, pdu, d, id, b);
  }

  /** A client without an id that can send. */
  predicate CanSend(w: World) {
    && Sound(w.client) && w.client.mid == 0 && w.client.next.SendRequest?
    && w.client.pdu.TokenLength() <= TOKEN_MAX_LENGTH && w.client.block.number < BLOCK_NUMBERS
  }

  lemma OneRequest(cfg: Config, w: World, id: u16) returns (v: World)
    requires CanSend(w)
    ensures v == Act(cfg, w, StepCall(Input(id, true, None)))
    ensures Sound(v.client) && v.client.next.ReceiveDataBlock? && v.client.mid == id
    ensures v.client.attempts == w.client.attempts && v.client.pdu.TokenLength() <= TOKEN_MAX_LENGTH
    ensures v.client.block == Requested(w.client.block)
    ensures |v.sent| == |w.sent| + 1 && v.sent[..|w.sent|] == w.sent
    ensures IsRequest(cfg, v.sent[|w.sent|], id, Requested(w.client.block))
  {
    v := Act(cfg, w, StepCall(Input(id, true, None)));
    OneSends(cfg, w, id);
    hide Act, IsRequest, Requested;
    SentShape(cfg, w, StepCall(Input(id, true, None)));
    ActKeepsSound(cfg, w, StepCall(Input(id, true, None)));
  }

  lemma OneSends(cfg: Config, w: World, id: u16)
    requires CanSend(w)
    ensures
      var v := Act(cfg, w, StepCall(Input(id, true, None)));
      && v.sent != w.sent && v.client.attempts == w.client.attempts
      && v.client.block == Requested(w.client.block)
  {
    hide Encode, RequestOptions, PathOptions, RequestHeader;
    RequestHeaderParts(w.client.pdu.header);
  }

  /** The timeout of a client that waits without an id and has attempts left. */
  lemma Timeout(cfg: Config, w: World, id: u16)
    requires Sound(w.client) && w.client.next.ReceiveDataBlock? && w.client.mid == 0
    requires w.client.attempts < RECEIVE_MAX_ATTEMPTS && w.client.block.number < BLOCK_NUMBERS
    ensures
      var u := Act(cfg, w, NotifyCall(false));
      var v := Act(cfg, u, StepCall(Input(id, true, None)));
      && CanSend(v) && v.sent == w.sent && v.client.block == w.client.block
      && !Accepts(StepCall(Input(id, true, None)), u.client, v.client)
  {
    assert w.sent + [] == w.sent;
  }

  /** A zero is drawn, the request times out, and the next draw gives it another id. */
  function ZeroThen(id: u16): seq<Action> {
    [StepCall(Input(0, true, None))] + [NotifyCall(false)]
    + [StepCall(Input(0, true, None))] + [StepCall(Input(id, true, None))]
  }

  lemma QuietSnoc(cfg: Config, w: World, front: seq<Action>, a: Action)
    requires w.client.pdu.WellFormed()
    ensures Run(cfg, w, front + [a]) == Act(cfg, Run(cfg, w, front), a)
    ensures Quiet(cfg, w, front + [a]) <==>
            Quiet(cfg, w, front) && !a.StartCall?
            && !Accepts(a, Run(cfg, w, front).client, Act(cfg, Run(cfg, w, front), a).client)
  {
    hide Act, Accepts;
    assert (front + [a])[..|front|] == front;
  }

  /** generate_message_id may return zero, which stands for no id: then two requests for one block differ. */
  lemma ZeroIdChanges(cfg: Config, w: World, id: u16)
    requires CanSend(w) && w.client.attempts < RECEIVE_MAX_ATTEMPTS
    ensures Quiet(cfg, w, ZeroThen(id)) && IdsFrom(ZeroThen(id), {0, id})
    ensures
      var v, n := Run(cfg, w, ZeroThen(id)), |w.sent|;
      && |v.sent| == n + 2
      && IsRequest(cfg, v.sent[n], 0, Requested(w.client.block))
      && IsRequest(cfg, v.sent[n + 1], id, Requested(w.client.block))
  {
    var a1, a2, a3, a4 :=
      StepCall(Input(0, true, None)), NotifyCall(false), StepCall(Input(0, true, None)), StepCall(Input(id, true, None));
    QuietSnoc(cfg, w, [], a1);
    QuietSnoc(cfg, w, [a1], a2);
    QuietSnoc(cfg, w, [a1] + [a2], a3);
    QuietSnoc(cfg, w, [a1] + [a2] + [a3], a4);
    assert [] + [a1] == [a1];
    var v1 := OneRequest(cfg, w, 0);
    assert v1.client.block.number < BLOCK_NUMBERS && Requested(v1.client.block) == Requested(w.client.block);
    hide Act, Run, Quiet, IsRequest, Requested, Sound, CanSend;
    Timeout(cfg, v1, 0);
    var v3 := Act(cfg, Act(cfg, v1, a2), a3);
    var v4 := OneRequest(cfg, v3, id);
    assert v4.sent[|w.sent|] == v4.sent[..|v3.sent|][|w.sent|] == v1.sent[|w.sent|];
  }

  /**
   Whatever set of ids the generator may offer to a client without an id: all requests of every quiet
   stretch carry one non-zero id if and only if zero is not among them.
   */
  lemma NonZeroIdExact(cfg: Config, w: World, ids: set<u16>)
    requires CanSend(w)
    ensures (forall actions :: Quiet(cfg, w, actions) && IdsFrom(actions, ids) ==>
               UnderOneNonZeroId(cfg, w, Run(cfg, w, actions)))
            <==> 0 !in ids
  {
    hide Run, Quiet, SentUnder, UnderOneNonZeroId;
    if 0 in ids {
      var actions := [StepCall(Input(0, true, None))];
      ZeroSent(cfg, w);
      assert IdsFrom(actions, ids);
    } else {
      forall actions | Quiet(cfg, w, actions) && IdsFrom(actions, ids)
        ensures UnderOneNonZeroId(cfg, w, Run(cfg, w, actions))
      {
        RetransmissionsAgree(cfg, w, actions, ids);
        OneNonZero(cfg, w, Run(cfg, w, actions));
      }
    }
  }

  lemma OneNonZero(cfg: Config, w: World, v: World)
    requires SentUnder(cfg, w, v, v.client.mid) && (|w.sent| < |v.sent| ==> v.client.mid != 0)
    ensures UnderOneNonZeroId(cfg, w, v)
  {
    var id: u16 := if v.client.mid != 0 then v.client.mid else 1;
    assert SentUnder(cfg, w, v, id);
  }

  lemma ZeroSent(cfg: Config, w: World)
    requires CanSend(w)
    ensures Quiet(cfg, w, [StepCall(Input(0, true, None))])
    ensures !UnderOneNonZeroId(cfg, w, Run(cfg, w, [StepCall(Input(0, true, None))]))
  {
    var a := StepCall(Input(0, true, None));
    QuietSnoc(cfg, w, [], a);
    assert [] + [a] == [a];
    var v := OneRequest(cfg, w, 0);
    hide Act, Run, IsRequest, Sound;
    forall id: u16 | SentUnder(cfg, w, v, id)
      ensures id == 0
    {
      assert IsRequest(cfg, v.sent[|w.sent|], id, Requested(w.client.block));
      IdOnWire(cfg, v.sent[|w.sent|], id, 0, Requested(w.client.block), Requested(w.client.block));
    }
  }

  /** They carry one id at all if and only if zero is not among them, or nothing else is. */
  lemma OneIdExact(cfg: Config, w: World, ids: set<u16>)
    requires CanSend(w) && w.client.attempts < RECEIVE_MAX_ATTEMPTS
    ensures (forall actions :: Quiet(cfg, w, actions) && IdsFrom(actions, ids) ==>
               UnderOneId(cfg, w, Run(cfg, w, actions)))
            <==> 0 !in ids || ids == {0}
  {
    hide Run, Quiet, SentUnder;
    assert (forall id: u16 :: id in ids ==> id == 0) && 0 in ids ==> ids == {0};
    if id: u16 :| 0 in ids && id in ids && id != 0 {
      ZeroIdChanges(cfg, w, id);
      TwoIds(cfg, w, Run(cfg, w, ZeroThen(id)), id);
      assert IdsFrom(ZeroThen(id), ids);
    } else {
      forall actions | Quiet(cfg, w, actions) && IdsFrom(actions, ids)
        ensures UnderOneId(cfg, w, Run(cfg, w, actions))
      {
        RetransmissionsAgree(cfg, w, actions, ids);
      }
    }
  }

  lemma TwoIds(cfg: Config, w: World, v: World, id: u16)
    requires |v.sent| == |w.sent| + 2 && id != 0
    requires IsRequest(cfg, v.sent[|w.sent|], 0, Requested(w.client.block))
    requires IsRequest(cfg, v.sent[|w.sent| + 1], id, Requested(w.client.block))
    ensures !UnderOneId(cfg, w, v)
  {
    hide IsRequest;
    forall other: u16 | SentUnder(cfg, w, v, other)
      ensures false
    {
      var b := Requested(w.client.block);
      IdOnWire(cfg, v.sent[|w.sent|], other, 0, b, b);
      IdOnWire(cfg, v.sent[|w.sent| + 1], other, id, b, b);
    }
  }

  /** So a peer reads the same request each time. */
  lemma RetransmissionsReadAlike(cfg: Config, d: seq<byte>, id: u16, b: BlockState)
    requires cfg.build.Intended? && SegmentsFit(cfg.path)
    requires b.size in SIZES && b.number < BLOCK_NUMBERS && IsRequest(cfg, d, id, b)
    ensures ReadRequest(d) == Some(Request(id, cfg.port, cfg.path, b.(number := NumberOnWire(b.number))))
  {
    hide Encode, EncodeBlock, RequestOptions, ReadRequest, NumberOnWire;
    var pdu: Message :| RequestFrom(cfg, pdu, d, id, b);
    RequestMeaning(pdu, cfg.port, cfg.path, id, b);
  }

  /**
   Yet the datagrams need not be the same: make_request keeps the token of the last packet that was
   parsed, so two of them are equal exactly when those tokens are.
   */
  lemma TokenLeaks(b: Build, p1: Message, p2: Message, id: u16, options: seq<CoapOption>)
    requires p1.WellFormed() && p1.TokenLength() <= TOKEN_MAX_LENGTH
    requires p2.WellFormed() && p2.TokenLength() <= TOKEN_MAX_LENGTH
    ensures
      var m1, m2 := RequestMessage(p1, id, options), RequestMessage(p2, id, options);
      && m1.TokenLength() <= TOKEN_MAX_LENGTH && m2.TokenLength() <= TOKEN_MAX_LENGTH
      && (Encode(b, m1) == Encode(b, m2) <==>
          p1.TokenLength() == p2.TokenLength() && p1.token[..p1.TokenLength()] == p2.token[..p2.TokenLength()])
  {
    hide EncodeOptions;
    RequestHeaderParts(p1.header);
    RequestHeaderParts(p2.header);
    SameHeader(RequestHeader(p1.header), RequestHeader(p2.header));
    hide RequestHeader;
    var m1, m2 := RequestMessage(p1, id, options), RequestMessage(p2, id, options);
    var s1, s2 := Encode(b, m1), Encode(b, m2);
    assert s1[0] == m1.header && s2[0] == m2.header;
    var t1, t2 := p1.TokenLength(), p2.TokenLength();
    assert s1[PACKET_HEADER_SIZE..PACKET_HEADER_SIZE + t1] == p1.token[..t1];
    assert s2[PACKET_HEADER_SIZE..PACKET_HEADER_SIZE + t2] == p2.token[..t2];
  }

  lemma SameHeader(h1: byte, h2: byte)
    requires h1 / 64 == h2 / 64 && h1 / 16 % 4 == h2 / 16 % 4
    ensures h1 == h2 <==> h1 % 16 == h2 % 16
  {
    assert h1 / 16 == h1 / 64 * 4 + h1 / 16 % 4 && h2 / 16 == h2 / 64 * 4 + h2 / 16 % 4;
    assert h1 == h1 / 16 * 16 + h1 % 16 && h2 == h2 / 16 * 16 + h2 % 16;
  }

  // ---------- a packet that stops the client for good ----------

  /** When start() and one step send anything: the state left behind by earlier packets decides. */
  lemma StartSendsExact(cfg: Config, w: World, input: Input)
    requires Sound(w.client)
    ensures
      var v := Act(cfg, Act(cfg, w, StartCall), StepCall(input));
      (v.sent != w.sent <==>
        && !w.client.next.Halted? && w.client.pdu.TokenLength() <= TOKEN_MAX_LENGTH
        && w.client.block.number < BLOCK_NUMBERS && input.sendOk)
  {
    hide Encode, RequestOptions, PathOptions, RequestHeader;
    RequestHeaderParts(w.client.pdu.header);
  }

  /** The packet holds a token length above eight, which nothing but a later parse would change. */
  predicate Stuck(s: ClientState) {
    s.pdu.WellFormed() && s.pdu.TokenLength() > TOKEN_MAX_LENGTH && !s.next.ReceiveDataBlock?
  }

  lemma StuckStays(cfg: Config, w: World, a: Action)
    requires Stuck(w.client)
    ensures Stuck(Act(cfg, w, a).client) && Act(cfg, w, a).sent == w.sent
  {
    hide EncodeBlock, RequestOptions, PathOptions, RequestHeader, Encode, ReceiveStep;
    RequestHeaderParts(w.client.pdu.header);
  }

  lemma {:induction false} StuckForever(cfg: Config, w: World, actions: seq<Action>)
    requires Stuck(w.client)
    ensures Stuck(Run(cfg, w, actions).client) && Run(cfg, w, actions).sent == w.sent
  {
    hide Act;
    if actions != [] {
      StuckForever(cfg, w, actions[..|actions| - 1]);
      StuckStays(cfg, Run(cfg, w, actions[..|actions| - 1]), actions[|actions| - 1]);
    }
  }

  /**
   A packet of at least four bytes whose token length is 9 to 15 does it, and no other datagram: parse
   stores the header byte even if it then rejects the version.  No start() makes the client send again.
   */
  lemma BadTokenLengthSticks(cfg: Config, w: World, input: Input, actions: seq<Action>)
    requires Sound(w.client) && w.client.next.ReceiveDataBlock?
    ensures
      var v := Act(cfg, w, StepCall(input));
      && (Stuck(v.client) <==>
            w.client.received && input.arrival.Some? &&
            var d := Truncate(input.arrival.value); |d| >= 4 && d[0] % 16 > 8)
      && (Stuck(v.client) ==> Run(cfg, v, actions).sent == w.sent)
  {
    var v := Act(cfg, w, StepCall(input));
    ReceivingAct(cfg, w, input);
    ActKeepsSound(cfg, w, StepCall(input));
    if w.client.received && input.arrival.Some? {
      TokenLengthAfter(cfg, w.client, input);
    }
    hide Act, P.Parse, HandleResponse;
    if Stuck(v.client) {
      StuckForever(cfg, v, actions);
    }
  }

  lemma TokenLengthAfter(cfg: Config, s: ClientState, input: Input)
    requires Sound(s) && s.next.ReceiveDataBlock? && s.received && input.arrival.Some?
    ensures
      var d, t := Truncate(input.arrival.value), ReceiveStep(cfg, s, input);
      t.pdu.TokenLength() == if |d| >= 4 then d[0] % 16 else s.pdu.TokenLength()
  {
    var d := Truncate(input.arrival.value);
    P.ParseExact(cfg.build, s.pdu, d);
    var p := P.Parse(cfg.build, s.pdu, d).1;
    assert p.header == if |d| >= 4 then d[0] else s.pdu.header;
    hide P.Parse;
    ResponseKeepsHeader(cfg, s.(state := ReceiveDataBlock, received := false, pdu := p));
    hide HandleResponse;
  }

  lemma ResponseKeepsHeader(cfg: Config, s: ClientState)
    ensures HandleResponse(cfg, s).pdu.header == s.pdu.header
  {
    hide Sort, Find, DecodeBlock;
  }
}
