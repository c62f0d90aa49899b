/** What it takes for a client to store anything (src/uriClientEndpoint.cc:135-194). */
module Storing {
  import opened Bytes
  import opened Messages
  import opened OptionList
  import opened Encoding
  import opened Blockwise
  import opened Requests
  import opened EndToEnd
  import opened ClientSteps
  import opened Sessions
  import opened Retransmissions
  import P = Parsing

  // ---------- which datagrams a client stores ----------

  /** What a client makes of a datagram that it parses. */
  function ParsedAs(b: Build, d: seq<byte>): (Outcome, Message) {
    P.Parse(b, EMPTY_MESSAGE, Truncate(d))
  }

  /** The block that get_header finds in a message. */
  function BlockOf(b: Build, m: Message): Option<BlockState> {
    match Find(b, Sort(m.options), BLOCK_2)
    case Found(k) => DecodeBlock(Sort(m.options)[k].value)
    case _ => None
  }

  /** An acknowledgement of some request with content and a block option that get_header can read. */
  predicate Storable(b: Build, d: seq<byte>) {
    var (outcome, m) := ParsedAs(b, d);
    outcome.Accepted? && m.Type() == ACKNOWLEDGEMENT && m.code == CONTENT && BlockOf(b, m).Some?
  }

  lemma ResponseExact(cfg: Config, s: ClientState, input: Input)
    requires s.next.ReceiveDataBlock?
    ensures
      var t, m := HandleResponse(cfg, s), s.pdu;
      && (Accepts(StepCall(input), s, t) <==>
            m.Type() == ACKNOWLEDGEMENT && s.mid == m.messageId && m.code == CONTENT && BlockOf(cfg.build, m).Some?)
      && (Accepts(StepCall(input), s, t) ==>
            t == Accept(s.(pdu := m.(options := Sort(m.options))), BlockOf(cfg.build, m).value))
  {
    hide Sort, Find, DecodeBlock;
  }

  /** A step stores a chunk if and only if it receives a storable datagram that bears the current id. */
  lemma StepStoresExact(cfg: Config, s: ClientState, input: Input)
    requires Sound(s) && s.next.ReceiveDataBlock?
    ensures
      var t := ReceiveStep(cfg, s, input);
      && (Accepts(StepCall(input), s, t) <==>
            && s.received && input.arrival.Some? && Storable(cfg.build, input.arrival.value)
            && ParsedAs(cfg.build, input.arrival.value).1.messageId == s.mid)
      && (Accepts(StepCall(input), s, t) ==>
            var m := ParsedAs(cfg.build, input.arrival.value).1;
            var b := BlockOf(cfg.build, m).value;
            && t.file == s.file + m.payload && (t.next.Complete? <==> !b.more)
            && (b.more ==> t.block.number == b.number + 1 <= BLOCK_NUMBERS))
  {
    hide P.Parse, HandleResponse, BlockOf;
    if s.received && input.arrival.Some? {
      var d := Truncate(input.arrival.value);
      ParseForgets(cfg.build, s.pdu, EMPTY_MESSAGE, d);
      var p := P.Parse(cfg.build, s.pdu, d);
      var s2 := s.(state := ReceiveDataBlock, received := false, pdu := p.1);
      ResponseExact(cfg, s2, input);
      BlockBelow(cfg.build, p.1);
    }
  }

  lemma BlockBelow(b: Build, m: Message)
    ensures BlockOf(b, m).Some? ==> BlockOf(b, m).value.number < BLOCK_NUMBERS
  {
    hide Sort, Find;
  }

  // ---------- over whole runs ----------

  /** Something has been stored: the last block, or one that moved the number on. */
  predicate HasStored(w: World) {
    w.done || w.client.block.number != 0
  }

  predicate NothingStorable(b: Build, actions: seq<Action>) {
    forall k :: 0 <= k < |actions| && actions[k].StepCall? && actions[k].input.arrival.Some? ==>
      !Storable(b, actions[k].input.arrival.value)
  }

  predicate Untouched(w: World, existing: seq<byte>) {
    !HasStored(w) && !w.client.next.Complete? && w.client.file == existing
  }

  lemma ActStoresNothing(cfg: Config, w: World, existing: seq<byte>, a: Action)
    requires Sound(w.client) && Untouched(w, existing)
    requires a.StepCall? && a.input.arrival.Some? ==> !Storable(cfg.build, a.input.arrival.value)
    ensures Untouched(Act(cfg, w, a), existing)
  {
    hide P.Parse, Storable, Encode, HandleResponse, EncodeBlock, RequestOptions, PathOptions, RequestHeader;
    OnlyAcceptanceMoves(cfg, w, a);
    if a.StepCall? && w.client.next.ReceiveDataBlock? {
      StepStoresExact(cfg, w.client, a.input);
      hide ReceiveStep;
    }
  }

  /** A client that receives no storable datagram stores nothing and never completes. */
  lemma {:induction false} NothingIsEverStored(cfg: Config, pdu: Message, existing: seq<byte>, actions: seq<Action>)
    requires pdu.WellFormed() && NothingStorable(cfg.build, actions)
    ensures Untouched(Run(cfg, World(Initial(existing, pdu), [], false), actions), existing)
  {
    hide Act, Storable;
    var w := World(Initial(existing, pdu), [], false);
    if actions != [] {
      var front, a := actions[..|actions| - 1], actions[|actions| - 1];
      NothingIsEverStored(cfg, pdu, existing, front);
      RunKeepsSound(cfg, w, front);
      ActStoresNothing(cfg, Run(cfg, w, front), existing, a);
    }
  }

  /** start(), a request, the notification and one arrival. */
  function ShortRun(id: u16, d: seq<byte>): seq<Action> {
    [StartCall] + [StepCall(Input(id, true, None))] + [NotifyCall(true)] + [StepCall(Input(id, true, Some(d)))]
  }

  lemma FirstRequestWaits(cfg: Config, s: ClientState, id: u16)
    requires s.next.SendRequest? && s.pdu.WellFormed() && s.pdu.TokenLength() <= TOKEN_MAX_LENGTH
    requires s.mid == 0 && s.block.number == 0
    ensures
      var t := SendStep(cfg, s, Input(id, true, None)).client;
      t.next.ReceiveDataBlock? && t.mid == id && t.file == s.file
  {
    hide Encode, RequestOptions, PathOptions, RequestHeader;
    RequestHeaderParts(s.pdu.header);
  }

  lemma ShortRunWaits(cfg: Config, pdu: Message, existing: seq<byte>, id: u16, d: seq<byte>) returns (u: World)
    requires pdu.WellFormed() && pdu.TokenLength() <= TOKEN_MAX_LENGTH
    ensures Sound(u.client) && u.client.pdu.WellFormed() && u.client.next.ReceiveDataBlock? && u.client.received
    ensures u.client.mid == id && u.client.file == existing
    ensures Run(cfg, World(Initial(existing, pdu), [], false), ShortRun(id, d))
         == Act(cfg, u, StepCall(Input(id, true, Some(d))))
    ensures !u.done
  {
    var w := World(Initial(existing, pdu), [], false);
    var a1, a2, a3 := StartCall, StepCall(Input(id, true, None)), NotifyCall(true);
    RunSnoc(cfg, w, [], a1);
    RunSnoc(cfg, w, [a1], a2);
    RunSnoc(cfg, w, [a1] + [a2], a3);
    RunSnoc(cfg, w, [a1] + [a2] + [a3], StepCall(Input(id, true, Some(d))));
    RunKeepsSound(cfg, w, [a1] + [a2] + [a3]);
    FirstRequestWaits(cfg, Start(w.client), id);
    u := Run(cfg, w, [a1] + [a2] + [a3]);
    assert [] + [a1] == [a1];
    hide SendStep;
  }

  /** Conversely, one storable datagram is enough: its payload goes into the file. */
  lemma StorableIsStored(cfg: Config, pdu: Message, existing: seq<byte>, d: seq<byte>)
    requires pdu.WellFormed() && pdu.TokenLength() <= TOKEN_MAX_LENGTH && Storable(cfg.build, d)
    ensures
      var m := ParsedAs(cfg.build, d).1;
      var v := Run(cfg, World(Initial(existing, pdu), [], false), ShortRun(m.messageId, d));
      && HasStored(v) && v.client.file == existing + m.payload
      && (v.client.next.Complete? <==> !BlockOf(cfg.build, m).value.more)
  {
    hide ParsedAs, ReceiveStep, BlockOf, Run, Act, ShortRun;
    var m := ParsedAs(cfg.build, d).1;
    var u := ShortRunWaits(cfg, pdu, existing, m.messageId, d);
    assert u.client.pdu.WellFormed();
    StepStoresExact(cfg, u.client, Input(m.messageId, true, Some(d)));
    ReceivingAct(cfg, u, Input(m.messageId, true, Some(d)));
  }

  predicate OnlyArrival(actions: seq<Action>, d: seq<byte>) {
    forall k :: 0 <= k < |actions| && actions[k].StepCall? && actions[k].input.arrival.Some? ==>
      actions[k].input.arrival.value == d
  }

  /** So the storable datagrams are exactly those with which a client can store anything at all. */
  lemma StorableExact(cfg: Config, pdu: Message, existing: seq<byte>, d: seq<byte>)
    requires pdu.WellFormed() && pdu.TokenLength() <= TOKEN_MAX_LENGTH
    ensures Storable(cfg.build, d) <==>
            exists actions :: OnlyArrival(actions, d) &&
                              HasStored(Run(cfg, World(Initial(existing, pdu), [], false), actions))
  {
    hide Storable, Run;
    if Storable(cfg.build, d) {
      StorableIsStored(cfg, pdu, existing, d);
      assert OnlyArrival(ShortRun(ParsedAs(cfg.build, d).1.messageId, d), d);
    } else {
      forall actions | OnlyArrival(actions, d)
        ensures !HasStored(Run(cfg, World(Initial(existing, pdu), [], false), actions))
      {
        NothingIsEverStored(cfg, pdu, existing, actions);
      }
    }
  }
}
