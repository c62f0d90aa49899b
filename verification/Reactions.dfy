/**
 How the client reacts to each input, case by case and in the numbers of the standards
 (src/uriClientEndpoint.cc:22-198).
 */
module Reactions {
  import opened Bytes
  import opened Messages
  import opened OptionList
  import opened Encoding
  import opened Blockwise
  import opened Requests
  import opened EndToEnd
  import opened ClientSteps
  import opened Sessions
  import P = Parsing

  // ---------- receptions ----------

  /** What a reception brings, judged by the input alone. */
  datatype Arrival =
    | Timeout | ReceiveFails | Stopping | Unparsable
    | SomethingElse | NotFound | OtherCode | NoBlock | Chunk(message: Message, block: BlockState)

  /** The first 2500 bytes of a datagram, which is what the connection's buffer holds. */
  function Head(d: seq<byte>): seq<byte> {
    if |d| <= 2500 then d else d[..2500]
  }

  /** Type and id first, then the code, then the block option. */
  function Content(b: Build, mid: u16, m: Message): Arrival {
    if m.header / 16 % 4 != 2 || m.messageId != mid then SomethingElse
    else if m.code == 132 then NotFound
    else if m.code != 69 then OtherCode
    else
      match Find(b, Sort(m.options), 23)
      case OutOfRange => Stopping
      case Missing => NoBlock
      case Found(k) =>
        match DecodeBlock(Sort(m.options)[k].value)
        case None => NoBlock
        case Some(block) => Chunk(m, block)
  }

  function ArrivalOf(b: Build, s: ClientState, input: Input): Arrival {
    if !s.received then Timeout
    else
      match input.arrival
      case None => ReceiveFails
      case Some(d) =>
        var (outcome, m) := P.Parse(b, EMPTY_MESSAGE, Head(d));
        match outcome
        case Aborted => Stopping
        case Rejected(_) => Unparsable
        case Accepted => Content(b, s.mid, m)
  }

  /** A failure that ends the transfer and is reported by the next step. */
  predicate FailsWith(s: ClientState, t: ClientState, error: ErrorCode) {
    t.next == Phase.Error && t.error == error && t.attempts == s.attempts
  }

  /** One failed attempt: the fifth ends the transfer, the ones before ask again. */
  predicate CountsAttempt(s: ClientState, t: ClientState) {
    if s.attempts < 4 then t.next == SendRequest && t.attempts == s.attempts + 1 && t.error == s.error
    else t.next == Phase.Error && t.error == CoapTimeout && t.attempts == 0
  }

  /** Where a stored chunk leads. */
  predicate Stores(s: ClientState, t: ClientState, m: Message, b: BlockState) {
    && t.file == s.file + m.payload && t.attempts == 0 && t.error == s.error
    && if b.more then
         t.next == SendRequest
         && t.block.number == b.number + 1 && t.block.size == b.size && !t.block.more
         && t.mid == (if s.mid == 65535 then 0 else s.mid + 1)
       else t.next == Complete && t.block == b && t.mid == s.mid
  }

  predicate Reacts(s: ClientState, t: ClientState, a: Arrival) {
    && t.state == ReceiveDataBlock
    && !t.received
    && (!a.Chunk? ==> t.file == s.file && t.block == s.block && t.mid == s.mid)
    && match a
       case Timeout => CountsAttempt(s, t)
       case SomethingElse => CountsAttempt(s, t)
       case ReceiveFails => FailsWith(s, t, CoapReceive)
       case Unparsable => FailsWith(s, t, ReceivedPacket)
       case NotFound => FailsWith(s, t, UriNotFound)
       case OtherCode => FailsWith(s, t, ServerCode)
       case NoBlock => FailsWith(s, t, ErrorCode.DecodeBlockOption)
       case Stopping => t.next == Halted && t.attempts == s.attempts
       case Chunk(m, b) => Stores(s, t, m, b)
  }

  /** What the shared packet holds after a reception, up to the order of its options. */
  function PacketAfter(b: Build, s: ClientState, input: Input): Message {
    if s.received && input.arrival.Some? then P.Parse(b, s.pdu, Head(input.arrival.value)).1 else s.pdu
  }

  lemma ContentExact(cfg: Config, s: ClientState, s2: ClientState)
    requires s2.file == s.file && s2.block == s.block && s2.mid == s.mid && s2.attempts == s.attempts
    requires s2.error == s.error && s2.state == ReceiveDataBlock && !s2.received && s.attempts <= 4
    ensures Reacts(s, HandleResponse(cfg, s2), Content(cfg.build, s.mid, s2.pdu))
    ensures HandleResponse(cfg, s2).pdu.(options := []) == s2.pdu.(options := [])
  {
    hide Sort, Find;
  }

  /** Every reception of a client that waits, in either build. */
  lemma ReceptionExact(cfg: Config, w: World, input: Input)
    requires Sound(w.client) && w.client.next.ReceiveDataBlock?
    ensures
      var v, a := Act(cfg, w, StepCall(input)), ArrivalOf(cfg.build, w.client, input);
      && Reacts(w.client, v.client, a)
      && v.sent == w.sent
      && v.done == (w.done || (a.Chunk? && !a.block.more))
      && v.client.pdu.(options := []) == PacketAfter(cfg.build, w.client, input).(options := [])
  {
    hide P.Parse, HandleResponse, Content;
    ReceivingAct(cfg, w, input);
    hide Act;
    var s := w.client;
    if s.received && input.arrival.Some? {
      var d := Head(input.arrival.value);
      ParseForgets(cfg.build, s.pdu, EMPTY_MESSAGE, d);
      var m := P.Parse(cfg.build, s.pdu, d).1;
      ContentExact(cfg, s, s.(state := ReceiveDataBlock, received := false, pdu := m));
    }
  }

  // ---------- transmissions ----------

  /** A request's first bytes: version 1, confirmable, the token length of the packet; GET; the id; the token. */
  predicate StartsRequest(d: seq<byte>, pdu: Message, id: u16)
    requires pdu.WellFormed()
  {
    var n := pdu.header % 16;
    && n <= 8 && |d| >= 4 + n
    && d[0] == 64 + n && d[1] == 1 && id == 256 * (d[2] as int) + d[3]
    && d[4..4 + n] == pdu.token[..n]
  }

  lemma RequestStarts(b: Build, pdu: Message, id: u16, options: seq<CoapOption>)
    requires pdu.WellFormed() && pdu.TokenLength() <= TOKEN_MAX_LENGTH
    ensures
      var m := RequestMessage(pdu, id, options);
      && m.WellFormed() && m.TokenLength() <= TOKEN_MAX_LENGTH
      && StartsRequest(Encode(b, m), pdu, id)
  {
    hide EncodeOptions, EncodePayload;
    RequestHeaderParts(pdu.header);
    var m := RequestMessage(pdu, id, options);
    FirstNibble(m.header);
    assert m.header == 16 * (m.header / 16) + m.header % 16;
    hide RequestHeader;
  }

  /** Every transmission of a client that has something to ask for. */
  lemma SendExact(cfg: Config, w: World, input: Input)
    requires Sound(w.client) && w.client.next.SendRequest?
    ensures
      var s, v := w.client, Act(cfg, w, StepCall(input));
      var t := v.client;
      && t.state == SendRequest && t.file == s.file && t.attempts == s.attempts && t.received == s.received
      && t.block.number == s.block.number && (s.block.number != 0 ==> t.block == s.block) && v.done == w.done
      && if s.block.number == 1048576 then
           FailsWith(s, t, CreateBlockOption) && t.mid == s.mid && v.sent == w.sent
         else
           && t.mid == (if s.mid == 0 then input.freshId else s.mid)
           && if s.pdu.header % 16 > 8 then FailsWith(s, t, CoapSerialize) && v.sent == w.sent
              else if !input.sendOk then FailsWith(s, t, CoapSend) && v.sent == w.sent
              else
                && t.next == ReceiveDataBlock && t.error == s.error
                && |v.sent| == |w.sent| + 1 && v.sent[..|w.sent|] == w.sent
                && StartsRequest(v.sent[|w.sent|], s.pdu, t.mid)
  {
    hide Encode, RequestOptions, PathOptions, RequestHeader, StartsRequest;
    var s := w.client;
    RequestHeaderParts(s.pdu.header);
    if s.pdu.TokenLength() <= TOKEN_MAX_LENGTH && EncodeBlock(Requested(s.block)).Some? {
      RequestStarts(cfg.build, s.pdu, if s.mid == 0 then input.freshId else s.mid,
                    RequestOptions(cfg.build, cfg.port, cfg.path, EncodeBlock(Requested(s.block)).value));
    }
    assert w.sent + [] == w.sent;
    hide EncodeBlock;
  }

  // ---------- the phases without input ----------

  /** What the other three phases do, and what each call from outside does. */
  lemma OtherExact(cfg: Config, w: World, input: Input)
    requires w.client.pdu.WellFormed() && w.client.next in {Idle, Phase.Error, Complete}
    ensures
      var s, v := w.client, Act(cfg, w, StepCall(input));
      v.sent == w.sent && v.client == s.(state := s.next, next := Idle)
  {
    assert w.sent + [] == w.sent;
  }

  // ---------- stop() and failures ----------

  /** A client that only start() can bring to send or store anything. */
  predicate Resting(s: ClientState) {
    s.next in {Idle, Phase.Error}
  }

  /** What a client that rests keeps. */
  predicate Kept(w: World, v: World) {
    && v.sent == w.sent && v.done == w.done
    && v.client.file == w.client.file && v.client.block == w.client.block
    && v.client.mid == w.client.mid && v.client.attempts == w.client.attempts && v.client.pdu == w.client.pdu
  }

  predicate NoStart(actions: seq<Action>) {
    forall k :: 0 <= k < |actions| ==> !actions[k].StartCall?
  }

  lemma ActRests(cfg: Config, w: World, a: Action)
    requires w.client.pdu.WellFormed() && Resting(w.client) && !a.StartCall?
    ensures Resting(Act(cfg, w, a).client) && Kept(w, Act(cfg, w, a))
  {
    assert w.sent + [] == w.sent;
  }

  /** As long as start() is not called a resting client sends nothing, stores nothing and never completes. */
  lemma {:induction false} RunRests(cfg: Config, w: World, actions: seq<Action>)
    requires w.client.pdu.WellFormed() && Resting(w.client) && NoStart(actions)
    ensures Resting(Run(cfg, w, actions).client) && Kept(w, Run(cfg, w, actions))
  {
    hide Act, Resting;
    if actions != [] {
      var front := actions[..|actions| - 1];
      RunRests(cfg, w, front);
      ActRests(cfg, Run(cfg, w, front), actions[|actions| - 1]);
    }
  }

  /** stop() in any phase: the next step reports the error, whatever arrives, and nothing else happens. */
  lemma StopStops(cfg: Config, w: World, input: Input)
    requires w.client.pdu.WellFormed() && !w.client.next.Halted?
    ensures
      var u := Act(cfg, w, StopCall);
      var v := Act(cfg, u, StepCall(input));
      && Resting(u.client) && Kept(w, u) && u.client.state == w.client.state && u.client.received == w.client.received
      && v.client.state == Phase.Error && v.client.next == Idle && Kept(w, v)
  {
    assert w.sent + [] == w.sent;
  }

  /** And start() after any such run resumes with the same block, id and attempts. */
  lemma StopThenStart(cfg: Config, w: World, actions: seq<Action>)
    requires w.client.pdu.WellFormed() && !w.client.next.Halted? && NoStart(actions)
    ensures
      var v := Run(cfg, Act(cfg, w, StopCall), actions);
      var u := Act(cfg, v, StartCall);
      && Kept(w, v) && !v.client.next.Complete? && Kept(w, u) && u.client.next == SendRequest
  {
    RunRests(cfg, Act(cfg, w, StopCall), actions);
    hide Run;
  }

  /**
   One datagram that cannot be parsed ends the transfer: the next step reports ERROR, and without
   start() nothing more is sent or stored.
   */
  lemma UnparsableEnds(cfg: Config, w: World, input: Input, next: Input, actions: seq<Action>)
    requires Sound(w.client) && w.client.next.ReceiveDataBlock? && NoStart(actions)
    requires ArrivalOf(cfg.build, w.client, input).Unparsable?
    ensures
      var u := Act(cfg, w, StepCall(input));
      var v := Act(cfg, u, StepCall(next));
      && u.client.error == ReceivedPacket
      && v.client.state == Phase.Error && v.client.next == Idle && v.client.error == ReceivedPacket
      && Kept(u, Run(cfg, u, actions)) && Run(cfg, u, actions).sent == w.sent
      && Run(cfg, u, actions).client.file == w.client.file
  {
    var u := Act(cfg, w, StepCall(input));
    ReceptionExact(cfg, w, input);
    ActKeepsSound(cfg, w, StepCall(input));
    hide Act, ArrivalOf, Run;
    assert Sound(u.client);
    RunRests(cfg, u, actions);
    OtherExact(cfg, u, next);
  }

  // ---------- timeouts ----------

  /** A request that is sent, and a step without anything received. */
  function Unanswered(id: u16): seq<Action> {
    [StepCall(Input(id, true, None))] + [NotifyCall(false)] + [StepCall(Input(id, true, None))]
  }

  function UnansweredTimes(id: u16, n: nat): seq<Action> {
    if n == 0 then [] else UnansweredTimes(id, n - 1) + Unanswered(id)
  }

  /** About to send a request that can be sent, after this many failed attempts. */
  predicate Trying(s: ClientState, attempts: nat) {
    && Sound(s) && s.next == SendRequest && s.attempts == attempts
    && s.pdu.TokenLength() <= TOKEN_MAX_LENGTH && s.block.number < 1048576
  }

  lemma OneUnanswered(cfg: Config, w: World, front: seq<Action>, attempts: nat, id: u16)
    requires w.client.pdu.WellFormed() && Trying(Run(cfg, w, front).client, attempts)
    ensures
      var u, v := Run(cfg, w, front), Run(cfg, w, front + Unanswered(id));
      && |v.sent| == |u.sent| + 1 && v.client.file == u.client.file && v.done == u.done
      && if attempts < 4 then Trying(v.client, attempts + 1)
         else v.client.next == Phase.Error && v.client.error == CoapTimeout && v.client.attempts == 0
              && Trying(Act(cfg, v, StartCall).client, 0)
  {
    var a1, a2, a3 := StepCall(Input(id, true, None)), NotifyCall(false), StepCall(Input(id, true, None));
    RunSnoc(cfg, w, front, a1);
    RunSnoc(cfg, w, front + [a1], a2);
    RunSnoc(cfg, w, front + [a1] + [a2], a3);
    assert front + Unanswered(id) == front + [a1] + [a2] + [a3];
    UnansweredStep(cfg, Run(cfg, w, front), attempts, id);
    hide Run, Act, Trying;
  }

  lemma UnansweredStep(cfg: Config, u: World, attempts: nat, id: u16)
    requires Trying(u.client, attempts)
    ensures
      var u1 := Act(cfg, u, StepCall(Input(id, true, None)));
      var u2 := Act(cfg, u1, NotifyCall(false));
      var v := Act(cfg, u2, StepCall(Input(id, true, None)));
      && |v.sent| == |u.sent| + 1 && v.client.file == u.client.file && v.done == u.done
      && if attempts < 4 then Trying(v.client, attempts + 1)
         else v.client.next == Phase.Error && v.client.error == CoapTimeout && v.client.attempts == 0
              && Trying(Act(cfg, v, StartCall).client, 0)
  {
    var a := StepCall(Input(id, true, None));
    var u1 := Act(cfg, u, a);
    SendExact(cfg, u, a.input);
    ActKeepsSound(cfg, u, a);
    WaitingNotified(cfg, u1);
    var u2 := Act(cfg, u1, NotifyCall(false));
    ReceptionExact(cfg, u2, a.input);
    ActKeepsSound(cfg, u2, a);
    var v := Act(cfg, u2, a);
    assert ArrivalOf(cfg.build, u2.client, a.input) == Timeout;
    if v.client.next == Phase.Error {
      StartedAgain(cfg, v);
      ActKeepsSound(cfg, v, StartCall);
    }
    hide Act, ArrivalOf, StartsRequest;
  }

  lemma WaitingNotified(cfg: Config, w: World)
    requires Sound(w.client) && w.client.next.ReceiveDataBlock?
    ensures Act(cfg, w, NotifyCall(false)) == w.(client := w.client.(received := false))
    ensures Sound(Act(cfg, w, NotifyCall(false)).client)
  {
  }

  lemma StartedAgain(cfg: Config, w: World)
    requires w.client.pdu.WellFormed() && !w.client.next.Halted?
    ensures Act(cfg, w, StartCall) == w.(client := w.client.(next := SendRequest))
  {
  }

  /**
   Without any answer exactly five requests go out for a block: after n < 5 of them the client still
   tries, the fifth failure and no earlier one ends in ERROR, and start() allows five again.
   */
  lemma {:induction false} FiveRequests(cfg: Config, w: World, id: u16, n: nat)
    requires Trying(w.client, 0) && n <= 5
    ensures
      var v := Run(cfg, w, UnansweredTimes(id, n));
      && |v.sent| == |w.sent| + n && v.client.file == w.client.file && v.done == w.done
      && if n < 5 then Trying(v.client, n)
         else v.client.next == Phase.Error && v.client.error == CoapTimeout
              && Trying(Act(cfg, v, StartCall).client, 0)
    decreases n
  {
    assert w.client.pdu.WellFormed();
    hide Act, Unanswered, Trying;
    if n > 0 {
      FiveRequests(cfg, w, id, n - 1);
      OneUnanswered(cfg, w, UnansweredTimes(id, n - 1), n - 1, id);
    }
  }

  /** A client that has just been constructed and started is one that tries for the first time. */
  lemma FreshTries(cfg: Config, existing: seq<byte>, pdu: Message)
    requires pdu.WellFormed() && pdu.TokenLength() <= TOKEN_MAX_LENGTH
    ensures Trying(Act(cfg, World(Initial(existing, pdu), [], false), StartCall).client, 0)
  {
  }
}
