/** Which downloads end in COMPLETE and not in ERROR (src/uriClientEndpoint.cc:70-198). */
module Completion {
  import opened Bytes
  import opened Messages
  import opened OptionList
  import opened Encoding
  import opened RoundTrip
  import opened Blockwise
  import opened EndToEnd
  import opened ClientSteps
  import opened Sessions
  import opened Retransmissions
  import opened Download
  import opened Termination
  import opened IdealRuns
  import P = Parsing

  /** m answers the request that the client has sent last. */
  predicate AnswersNow(s: ClientState, m: Message) {
    m.Type() == ACKNOWLEDGEMENT && m.messageId == s.mid
  }

  /**
   What a download needs from one reception: what arrives can be parsed, an answer to the current
   request carries content, and the fifth attempt for a block, if there is one, brings that answer.
   Timeouts and packets that answer something else may come before it.
   */
  predicate GoodReception(s: ClientState, arrival: Option<seq<byte>>) {
    if !s.received then s.attempts < RECEIVE_MAX_ATTEMPTS
    else
      arrival.Some? &&
      var (outcome, m) := P.Parse(Intended, EMPTY_MESSAGE, Truncate(arrival.value));
      && outcome.Accepted?
      && if AnswersNow(s, m) then m.code == CONTENT else s.attempts < RECEIVE_MAX_ATTEMPTS
  }

  /** And from any action: no start() or stop(), and every transmission works. */
  predicate Favourable(s: ClientState, a: Action) {
    match a
    case StartCall => false
    case StopCall => false
    case NotifyCall(_) => true
    case StepCall(input) =>
      && (s.next.SendRequest? ==> input.sendOk)
      && (s.next.ReceiveDataBlock? ==> GoodReception(s, input.arrival))
  }

  predicate FavourableRun(cfg: Config, w: World, actions: seq<Action>)
    requires w.client.pdu.WellFormed()
  {
    actions == [] ||
    (FavourableRun(cfg, w, actions[..|actions| - 1]) &&
     Favourable(Run(cfg, w, actions[..|actions| - 1]).client, actions[|actions| - 1]))
  }

  /** Neither failed nor stopped, and able to send. */
  predicate OnTheWay(s: ClientState) {
    && s.next !in {Phase.Error, Halted}
    && (s.next.Idle? ==> s.state in {Idle, Complete})
    && (s.next.SendRequest? ==> s.pdu.TokenLength() <= TOKEN_MAX_LENGTH)
  }

  // ---------- one step ----------

  lemma SendStaysOnTheWay(cfg: Config, sv: Server, base: seq<byte>, w: World, input: Input)
    requires Inv(cfg, sv, base, w) && OnTheWay(w.client) && w.client.next.SendRequest?
    requires Admissible(sv, w, StepCall(input)) && input.sendOk
    ensures OnTheWay(Act(cfg, w, StepCall(input)).client)
  {
    assert Sound(w.client) && Act(cfg, w, StartCall) == w;
    if w.client.block.number != 0 {
      NumberBelow(sv, w.client.block);
    }
    hide Act, Inv, Admissible, Sound, Progress;
    SendAdvances(cfg, sv, base, w, input);
    StartSendsExact(cfg, w, input);
  }

  lemma AcceptedTokenFits(b: Build, m: Message, d: seq<byte>)
    requires P.Parse(b, m, d).0.Accepted?
    ensures P.Parse(b, m, d).1.TokenLength() <= TOKEN_MAX_LENGTH
  {
    hide P.ParseOptions;
  }

  /** A step in which the answer to the current request arrives stores it. */
  lemma AnswerStaysOnTheWay(cfg: Config, sv: Server, s: ClientState, input: Input, q: Request, m: Message)
    requires cfg.build.Intended? && Sound(s) && s.next.ReceiveDataBlock? && s.received
    requires Answer(sv, q, m) && input.arrival == Some(Encode(Intended, m)) && q.id == s.mid && m.code == CONTENT
    ensures OnTheWay(ReceiveStep(cfg, s, input))
  {
    AnswerToken(sv, q, m);
    hide P.Parse, Encode, Answer, Sound, HandleResponse, ReceiveStep, Select, DecodeBlock, Sort;
    AnswerArrives(cfg, sv, s, input, q, m);
    AnswerHandled(cfg, sv, Parsed(s, m.Visible()), q, m);
  }

  lemma AnswerToken(sv: Server, q: Request, m: Message)
    requires Answer(sv, q, m)
    ensures m.WellFormed() && m.TokenLength() <= TOKEN_MAX_LENGTH && m.messageId == q.id
    ensures P.Parse(Intended, EMPTY_MESSAGE, Truncate(Encode(Intended, m))) == (Accepted, m.Visible())
  {
    hide P.Parse, Encode, OptionsFit, Select, DecodeBlock, Served;
    RoundTripExact(EMPTY_MESSAGE, m);
  }

  lemma OtherPacketRetries(cfg: Config, s: ClientState, input: Input)
    requires cfg.build.Intended? && Sound(s) && s.next.ReceiveDataBlock? && GoodReception(s, input.arrival)
    requires s.received ==>
               !AnswersNow(s, P.Parse(Intended, EMPTY_MESSAGE, Truncate(input.arrival.value)).1)
    ensures OnTheWay(ReceiveStep(cfg, s, input))
  {
    hide P.Parse, Find, Sort, DecodeBlock;
    if s.received {
      var d := Truncate(input.arrival.value);
      ParseForgets(Intended, s.pdu, EMPTY_MESSAGE, d);
      AcceptedTokenFits(Intended, EMPTY_MESSAGE, d);
    }
  }

  /** Only a genuine answer can answer the current request. */
  lemma AnswerIsGenuine(sv: Server, w: World, d: seq<byte>) returns (k: nat, m: Message)
    requires Awaiting(w) && w.client.next.ReceiveDataBlock? && Deliverable(sv, w.sent, d)
    requires
      var (outcome, m) := P.Parse(Intended, EMPTY_MESSAGE, Truncate(d));
      outcome.Accepted? && AnswersNow(w.client, m)
    ensures k < |w.sent| && GenuineFor(sv, w.sent[k], m, d)
  {
    hide P.Parse, ReadRequest, GenuineFor;
    assert w.sent[|w.sent| - 1] in w.sent;
    k, m :| 0 <= k < |w.sent| && GenuineFor(sv, w.sent[k], m, d);
  }

  lemma ReceiveStaysOnTheWay(cfg: Config, sv: Server, base: seq<byte>, w: World, input: Input)
    requires Inv(cfg, sv, base, w) && w.client.next.ReceiveDataBlock?
    requires Admissible(sv, w, StepCall(input)) && GoodReception(w.client, input.arrival)
    ensures OnTheWay(ReceiveStep(cfg, w.client, input))
  {
    var s := w.client;
    assert Sound(s) && Awaiting(w) && cfg.build.Intended?;
    hide Inv, Sound, Awaiting, P.Parse, ReceiveStep, OnTheWay, Deliverable, AnswersNow;
    if s.received && AnswersNow(s, P.Parse(Intended, EMPTY_MESSAGE, Truncate(input.arrival.value)).1) {
      var d := input.arrival.value;
      var k, m := AnswerIsGenuine(sv, w, d);
      var q := ReadRequest(w.sent[k]).value;
      AnswerToken(sv, q, m);
      VisibleAnswers(s, m);
      hide ReadRequest, Answer;
      AnswerStaysOnTheWay(cfg, sv, s, input, q, m);
    } else {
      OtherPacketRetries(cfg, s, input);
    }
  }

  lemma VisibleAnswers(s: ClientState, m: Message)
    requires m.WellFormed() && m.TokenLength() <= TOKEN_MAX_LENGTH && AnswersNow(s, m.Visible())
    ensures m.messageId == s.mid
  {
  }

  lemma ActStaysOnTheWay(cfg: Config, sv: Server, base: seq<byte>, w: World, a: Action)
    requires Inv(cfg, sv, base, w) && Admissible(sv, w, a) && OnTheWay(w.client) && Favourable(w.client, a)
    ensures OnTheWay(Act(cfg, w, a).client)
  {
    if a.StepCall? && w.client.next.SendRequest? {
      hide Act, Inv, Admissible;
      SendStaysOnTheWay(cfg, sv, base, w, a.input);
    } else if a.StepCall? && w.client.next.ReceiveDataBlock? {
      ReceiveStaysOnTheWay(cfg, sv, base, w, a.input);
      hide ReceiveStep, Inv, Admissible;
    }
  }

  // ---------- whole runs ----------

  lemma {:induction false} RunStaysOnTheWay(cfg: Config, sv: Server, base: seq<byte>, w: World, actions: seq<Action>)
    requires Inv(cfg, sv, base, w) && AdmissibleRun(cfg, sv, w, actions)
    requires OnTheWay(w.client) && FavourableRun(cfg, w, actions)
    ensures OnTheWay(Run(cfg, w, actions).client)
  {
    assert w.client.pdu.WellFormed();
    hide Inv, Act, Admissible, OnTheWay, Favourable;
    if actions != [] {
      var front := actions[..|actions| - 1];
      RunStaysOnTheWay(cfg, sv, base, w, front);
      RunKeepsInv(cfg, sv, base, w, front);
      ActStaysOnTheWay(cfg, sv, base, Run(cfg, w, front), actions[|actions| - 1]);
    }
  }

  lemma {:induction false} Prefixes(cfg: Config, sv: Server, w: World, actions: seq<Action>, k: nat)
    requires w.client.pdu.WellFormed() && sv.least in SIZES && k <= |actions|
    requires AdmissibleRun(cfg, sv, w, actions) && FavourableRun(cfg, w, actions)
    ensures AdmissibleRun(cfg, sv, w, actions[..k]) && FavourableRun(cfg, w, actions[..k])
    ensures NoControl(actions)
    decreases |actions|
  {
    hide Admissible, Run;
    if actions != [] {
      var front := actions[..|actions| - 1];
      Prefixes(cfg, sv, w, front, if k < |actions| then k else |front|);
      if k < |actions| {
        assert actions[..k] == front[..k];
      } else {
        assert actions[..k] == actions;
      }
    }
  }

  /** The run reports completion after one of its actions, and the file holds the resource then. */
  ghost predicate CompletesDuring(cfg: Config, sv: Server, base: seq<byte>, w: World, actions: seq<Action>)
    requires w.client.pdu.WellFormed()
  {
    exists k :: 0 <= k <= |actions| && Completed(sv, base, Run(cfg, w, actions[..k]).client)
  }

  predicate Completed(sv: Server, base: seq<byte>, s: ClientState) {
    s.state.Complete? && s.next.Idle? && s.file == base + sv.resource
  }

  lemma OverIsCompleted(cfg: Config, sv: Server, base: seq<byte>, v: World)
    requires Inv(cfg, sv, base, v) && OnTheWay(v.client) && Over(v.client)
    ensures Completed(sv, base, v.client)
  {
  }

  /**
   If transmissions work and the answer to every request comes within the five attempts for its block,
   whatever else arrives in between, the download ends in COMPLETE with the whole resource, and never
   in ERROR.
   */
  lemma DownloadCompletes(cfg: Config, sv: Server, base: seq<byte>, w: World, actions: seq<Action>)
    requires Inv(cfg, sv, base, w) && w.client.next.SendRequest? && OnTheWay(w.client)
    requires AdmissibleRun(cfg, sv, w, actions) && FavourableRun(cfg, w, actions)
    requires Steps(actions) >= 10 * BlocksFor(|sv.resource| - Offset(w.client.block), sv.least) + 1
    ensures CompletesDuring(cfg, sv, base, w, actions)
    ensures !Run(cfg, w, actions).client.next.Error?
  {
    assert w.client.pdu.WellFormed();
    hide Inv, AdmissibleRun, FavourableRun, Run, Over, Completed, Steps, BlocksFor, Offset;
    Prefixes(cfg, sv, w, actions, |actions|);
    DownloadTerminates(cfg, sv, base, w, actions);
    RunStaysOnTheWay(cfg, sv, base, w, actions);
    var k :| 0 <= k <= |actions| && Over(Run(cfg, w, actions[..k]).client);
    Prefixes(cfg, sv, w, actions, k);
    RunStaysOnTheWay(cfg, sv, base, w, actions[..k]);
    RunKeepsInv(cfg, sv, base, w, actions[..k]);
    OverIsCompleted(cfg, sv, base, Run(cfg, w, actions[..k]));
  }

  /** The first download of a client that has just been constructed. */
  lemma FirstDownloadCompletes(cfg: Config, sv: Server, existing: seq<byte>, pdu: Message, actions: seq<Action>)
    requires cfg.build.Intended? && ConfigFits(cfg) && InDomain(sv)
    requires pdu.WellFormed() && pdu.TokenLength() <= TOKEN_MAX_LENGTH
    requires
      var w := Act(cfg, Fresh(existing, pdu), StartCall);
      AdmissibleRun(cfg, sv, w, actions) && FavourableRun(cfg, w, actions)
    requires
      var n := |sv.resource|;
      Steps(actions) >= 10 * (if n == 0 then 1 else (n + sv.least - 1) / sv.least) + 1
    ensures CompletesDuring(cfg, sv, existing, Act(cfg, Fresh(existing, pdu), StartCall), actions)
  {
    hide Inv, AdmissibleRun, FavourableRun, ConfigFits, CompletesDuring, Run, Steps, BlocksFor;
    var w := Act(cfg, Fresh(existing, pdu), StartCall);
    InitialInv(cfg, sv, existing, pdu);
    ActKeepsInv(cfg, sv, existing, Fresh(existing, pdu), StartCall);
    BlocksForIsCeiling(|sv.resource|, sv.least);
    assert Offset(w.client.block) == 0;
    DownloadCompletes(cfg, sv, existing, w, actions);
  }

  /** The loss-free rounds are favourable, so these assumptions can be met. */
  lemma RoundIsFavourable(cfg: Config, resource: seq<byte>, size: u16, drawn: u16, w: World)
    requires Asking(cfg, size, w) && StartOf(NumberOnWire(w.client.block.number), size) <= |resource|
    ensures
      var u := Ask(cfg, drawn, w);
      && Favourable(w.client, StepCall(Input(drawn, true, None)))
      && Favourable(u.client, StepCall(Input(drawn, true, Reply(resource, size, u.sent))))
  {
    var q := AskWaits(cfg, resource, size, drawn, w);
    var u := Ask(cfg, drawn, w);
    WaitingParts(resource, size, u, q);
    AnswerToIsAnswer(resource, size, q);
    AnswerToken(Server(resource, size), q, AnswerTo(resource, size, q));
    assert AnswerTo(resource, size, q).code == CONTENT;
    hide Ask, Answer, AnswerTo, ReadRequest, Encode, P.Parse, Slice, More, Select, DecodeBlock, Sound, ConfigFits, Reply;
  }
}
