/** Runs of the client against an outside that is not restricted in any way. */
module Sessions {
  import opened Bytes
  import opened Messages
  import opened OptionList
  import opened Encoding
  import opened Blockwise
  import opened Requests
  import opened EndToEnd
  import opened ClientSteps
  import P = Parsing

  /** start(), stop(), set_received() and transaction_step(), in any order. */
  datatype Action = StartCall | StopCall | NotifyCall(flag: bool) | StepCall(input: Input)

  /** The client, every datagram it has sent, and whether it has stored a last block. */
  datatype World = World(client: ClientState, sent: seq<seq<byte>>, done: bool)

  /** One action; a process that an assertion has stopped does nothing any more. */
  function Act(cfg: Config, w: World, a: Action): (r: World)
    requires w.client.pdu.WellFormed()
    ensures r.client.pdu.WellFormed()
  {
    if w.client.next.Halted? then w
    else
    match a
    case StartCall => w.(client := Start(w.client))
    case StopCall => w.(client := Stop(w.client))
    case NotifyCall(flag) => w.(client := w.client.(received := flag))
    case StepCall(input) =>
      StepKeepsWellFormed(cfg, w.client, input);
      var r := Step(cfg, w.client, input);
      World(r.client, w.sent + r.sent, w.done || r.client.next.Complete?)
  }

  function Run(cfg: Config, w: World, actions: seq<Action>): (r: World)
    requires w.client.pdu.WellFormed()
    ensures r.client.pdu.WellFormed()
  {
    if actions == [] then w
    else Act(cfg, Run(cfg, w, actions[..|actions| - 1]), actions[|actions| - 1])
  }

  /** Every value that the generator offers during the run is one of ids. */
  predicate IdsFrom(actions: seq<Action>, ids: set<u16>) {
    forall k :: 0 <= k < |actions| && actions[k].StepCall? ==> actions[k].input.freshId in ids
  }

  lemma RunSnoc(cfg: Config, w: World, front: seq<Action>, a: Action)
    requires w.client.pdu.WellFormed()
    ensures Run(cfg, w, front + [a]) == Act(cfg, Run(cfg, w, front), a)
  {
    assert (front + [a])[..|front|] == front;
  }

  lemma ReceivingAct(cfg: Config, w: World, input: Input)
    requires w.client.pdu.WellFormed() && w.client.next.ReceiveDataBlock?
    ensures
      var t := ReceiveStep(cfg, w.client, input);
      Act(cfg, w, StepCall(input)) == World(t, w.sent, w.done || t.next.Complete?)
  {
    hide ReceiveStep;
    assert w.sent + [] == w.sent;
  }

  /** What holds of the client whatever arrives and whatever is called. */
  predicate Sound(s: ClientState) {
    && s.pdu.WellFormed()
    && !s.block.more
    && (s.block.number != 0 ==> s.block.size in SIZES)
    && s.block.number <= BLOCK_NUMBERS
    && s.attempts <= RECEIVE_MAX_ATTEMPTS
    && (s.next.ReceiveDataBlock? ==> s.pdu.payload == [] && s.pdu.TokenLength() <= TOKEN_MAX_LENGTH)
  }

  lemma SendKeepsSound(cfg: Config, s: ClientState, input: Input)
    requires Sound(s)
    ensures Sound(SendStep(cfg, s, input).client)
  {
    hide Encode, EncodeBlock, RequestOptions, PathOptions, RequestHeader;
    RequestHeaderParts(s.pdu.header);
  }

  lemma ResponseKeepsSound(cfg: Config, s: ClientState)
    requires Sound(s.(next := Idle))
    ensures Sound(HandleResponse(cfg, s))
  {
    hide Sort, Find, DecodeBlock;
  }

  lemma ReceiveKeepsSound(cfg: Config, s: ClientState, input: Input)
    requires Sound(s)
    ensures Sound(ReceiveStep(cfg, s, input))
  {
    hide P.Parse, HandleResponse;
    if s.received && input.arrival.Some? {
      var d := Truncate(input.arrival.value);
      ParseKeepsWellFormed(cfg.build, s.pdu, d);
      ResponseKeepsSound(cfg, s.(state := ReceiveDataBlock, received := false, pdu := P.Parse(cfg.build, s.pdu, d).1));
    }
  }

  lemma ActKeepsSound(cfg: Config, w: World, a: Action)
    requires Sound(w.client)
    ensures Sound(Act(cfg, w, a).client)
  {
    hide SendStep, ReceiveStep;
    if a.StepCall? {
      SendKeepsSound(cfg, w.client, a.input);
      ReceiveKeepsSound(cfg, w.client, a.input);
    }
  }

  lemma {:induction false} RunKeepsSound(cfg: Config, w: World, actions: seq<Action>)
    requires Sound(w.client)
    ensures Sound(Run(cfg, w, actions).client)
  {
    if actions != [] {
      hide Act;
      RunKeepsSound(cfg, w, actions[..|actions| - 1]);
      ActKeepsSound(cfg, Run(cfg, w, actions[..|actions| - 1]), actions[|actions| - 1]);
    }
  }

  /**
   Whenever a request is built, M is unset, the size is one of the eight, and building the Block2
   option fails for no other reason than a block number of 1048576.
   */
  lemma EveryRequestIsSound(cfg: Config, pdu: Message, existing: seq<byte>, actions: seq<Action>)
    requires pdu.WellFormed()
    ensures
      var b := Requested(Run(cfg, World(Initial(existing, pdu), [], false), actions).client.block);
      && !b.more && b.size in SIZES && b.number <= BLOCK_NUMBERS
      && SIZES[SizeToOption(b.size)] == b.size
      && (EncodeBlock(b).None? <==> b.number == BLOCK_NUMBERS)
  {
    hide Run;
    RunKeepsSound(cfg, World(Initial(existing, pdu), [], false), actions);
  }

  /**
   parse_payload appends, but every packet is parsed into an empty payload: the bytes that a step adds
   to the file are the payload of the datagram of that step alone.
   */
  lemma ChunkIsOnePacket(cfg: Config, pdu: Message, existing: seq<byte>, actions: seq<Action>, input: Input)
    requires pdu.WellFormed()
    ensures
      var s := Run(cfg, World(Initial(existing, pdu), [], false), actions).client;
      var t := Step(cfg, s, input).client;
      t.file != s.file ==>
        && s.next.ReceiveDataBlock? && s.received && input.arrival.Some?
        && var p := P.Parse(cfg.build, EMPTY_MESSAGE, Truncate(input.arrival.value));
           p.0.Accepted? && t.file == s.file + p.1.payload
  {
    RunKeepsSound(cfg, World(Initial(existing, pdu), [], false), actions);
    hide Run, P.Parse, SendStep, HandleResponse;
    var s := Run(cfg, World(Initial(existing, pdu), [], false), actions).client;
    SendKeepsFile(cfg, s, input);
    if s.next.ReceiveDataBlock? && s.received && input.arrival.Some? {
      var d := Truncate(input.arrival.value);
      ParseForgets(cfg.build, s.pdu, EMPTY_MESSAGE, d);
      ResponseFile(cfg, s.(state := ReceiveDataBlock, received := false, pdu := P.Parse(cfg.build, s.pdu, d).1));
    }
  }

  lemma SendKeepsFile(cfg: Config, s: ClientState, input: Input)
    requires s.pdu.WellFormed()
    ensures SendStep(cfg, s, input).client.file == s.file
  {
  }

  lemma ResponseFile(cfg: Config, s: ClientState)
    ensures HandleResponse(cfg, s).file == s.file || HandleResponse(cfg, s).file == s.file + s.pdu.payload
  {
    hide Sort, Find, DecodeBlock;
  }

  lemma PrefixForgets(m1: Message, m2: Message, s: seq<byte>)
    requires m1.payload == m2.payload
    ensures
      var (o1, h1) := P.ParseHeader(m1, s);
      var (o2, h2) := P.ParseHeader(m2, s);
      && o1 == o2
      && (o1.Accepted? ==>
            var (t1, p1) := P.ParseToken(h1, s);
            var (t2, p2) := P.ParseToken(h2, s);
            t1 == t2 && (t1.Accepted? ==> p2 == p1.(options := p2.options)))
  {
  }

  lemma BodyForgets(b: Build, p1: Message, p2: Message, s: seq<byte>)
    requires p2 == p1.(options := p2.options) && PACKET_HEADER_SIZE + p1.TokenLength() <= |s|
    ensures P.ParseBody(b, p1, s) == P.ParseBody(b, p2, s)
  {
    hide P.ParseOptions;
  }

  /** What parse makes of a buffer depends on the packet it starts from only through the old payload. */
  lemma ParseForgets(b: Build, m1: Message, m2: Message, s: seq<byte>)
    requires m1.payload == m2.payload
    ensures P.Parse(b, m1, s).0 == P.Parse(b, m2, s).0
    ensures P.Parse(b, m1, s).0.Accepted? ==> P.Parse(b, m1, s) == P.Parse(b, m2, s)
  {
    hide P.ParseHeader, P.ParseToken, P.ParseBody;
    PrefixForgets(m1, m2, s);
    var h1, h2 := P.ParseHeader(m1, s), P.ParseHeader(m2, s);
    if s != [] && h1.0.Accepted? {
      var t1, t2 := P.ParseToken(h1.1, s), P.ParseToken(h2.1, s);
      if t1.0.Accepted? {
        P.TokenFits(m1, s);
        BodyForgets(b, t1.1, t2.1, s);
      }
    }
  }

  // ---------- what stops the process ----------

  predicate EmptyArrival(a: Action) {
    a.StepCall? && a.input.arrival == Some([])
  }

  lemma RepairedAbortsExact(m: Message, d: seq<byte>)
    ensures P.Parse(Intended, m, d).0.Aborted? <==> d == []
  {
    hide P.ParseOptions;
  }

  /** In the repaired build only the assertion length != 0 of parse can fail. */
  lemma HaltsExact(cfg: Config, w: World, a: Action)
    requires cfg.build.Intended? && Sound(w.client) && !w.client.next.Halted?
    ensures Act(cfg, w, a).client.next.Halted? <==>
            EmptyArrival(a) && w.client.next.ReceiveDataBlock? && w.client.received
  {
    hide Encode, EncodeBlock, RequestOptions, PathOptions, RequestHeader, P.Parse, Sort, Find, DecodeBlock;
    if a.StepCall? && a.input.arrival.Some? {
      RepairedAbortsExact(w.client.pdu, Truncate(a.input.arrival.value));
    }
  }

  lemma {:induction false} NeverHalts(cfg: Config, w: World, actions: seq<Action>)
    requires cfg.build.Intended? && Sound(w.client) && !w.client.next.Halted?
    requires forall k :: 0 <= k < |actions| ==> !EmptyArrival(actions[k])
    ensures !Run(cfg, w, actions).client.next.Halted?
  {
    hide Act, EmptyArrival;
    if actions != [] {
      NeverHalts(cfg, w, actions[..|actions| - 1]);
      RunKeepsSound(cfg, w, actions[..|actions| - 1]);
      HaltsExact(cfg, Run(cfg, w, actions[..|actions| - 1]), actions[|actions| - 1]);
    }
  }
}
