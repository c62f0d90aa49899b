/** Which message ids a client may draw: the exact bound behind Download's assumption on them. */
module MessageIds {
  import opened Bytes
  import opened Messages
  import opened OptionList
  import opened Encoding
  import opened Blockwise
  import opened EndToEnd
  import opened ClientSteps
  import opened Sessions
  import opened Download
  import opened IdealRuns

  // ---------- runs without any assumption on ids ----------

  ghost predicate BehavedRun(cfg: Config, sv: Server, w: World, actions: seq<Action>)
    requires w.client.pdu.WellFormed()
  {
    actions == [] ||
    (BehavedRun(cfg, sv, w, actions[..|actions| - 1]) &&
     Behaved(sv, Run(cfg, w, actions[..|actions| - 1]), actions[|actions| - 1]))
  }

  /** What DownloadSafe says of the file. */
  predicate RightFile(sv: Server, existing: seq<byte>, w: World) {
    if w.done then w.client.file == existing + sv.resource
    else
      var at := Offset(w.client.block);
      at <= |sv.resource| && w.client.file == existing + sv.resource[..at]
  }

  lemma {:induction false} GoodIdsAdmit(cfg: Config, sv: Server, w: World, actions: seq<Action>, ids: set<u16>)
    requires w.client.pdu.WellFormed() && sv.least in SIZES
    requires BehavedRun(cfg, sv, w, actions) && IdsFrom(actions, ids)
    requires forall id: u16 :: id in ids ==> GoodId(sv, id)
    ensures AdmissibleRun(cfg, sv, w, actions)
  {
    hide Behaved, GoodId;
    if actions != [] {
      GoodIdsAdmit(cfg, sv, w, actions[..|actions| - 1], ids);
    }
  }

  // ---------- the loss-free run as a sequence of actions ----------

  function RoundActions(cfg: Config, resource: seq<byte>, size: u16, drawn: u16, w: World): seq<Action>
    requires w.client.pdu.WellFormed()
  {
    [StepCall(Input(drawn, true, None))] + [NotifyCall(true)]
    + [StepCall(Input(drawn, true, Reply(resource, size, Ask(cfg, drawn, w).sent)))]
  }

  function FirstRounds(cfg: Config, resource: seq<byte>, size: u16, drawn: u16, w: World, k: nat): seq<Action>
    requires w.client.pdu.WellFormed()
  {
    if k == 0 then [StartCall]
    else
      FirstRounds(cfg, resource, size, drawn, w, k - 1)
      + RoundActions(cfg, resource, size, drawn,
                     Rounds(cfg, resource, size, drawn, Act(cfg, w, StartCall), k - 1))
  }

  lemma BehavedSnoc(cfg: Config, sv: Server, w: World, front: seq<Action>, a: Action)
    requires w.client.pdu.WellFormed()
    ensures BehavedRun(cfg, sv, w, front + [a]) <==>
            BehavedRun(cfg, sv, w, front) && Behaved(sv, Run(cfg, w, front), a)
    ensures Run(cfg, w, front + [a]) == Act(cfg, Run(cfg, w, front), a)
  {
    hide Behaved, Act;
    assert (front + [a])[..|front|] == front;
  }

  /** Appending three actions that stand for a request, the notification and an arrival. */
  lemma ThreeActions(cfg: Config, sv: Server, w: World, front: seq<Action>, a1: Action, a3: Action)
    requires w.client.pdu.WellFormed()
    ensures
      var v := Run(cfg, w, front);
      var u := Act(cfg, Act(cfg, v, a1), NotifyCall(true));
      && Run(cfg, w, front + ([a1] + [NotifyCall(true)] + [a3])) == Act(cfg, u, a3)
      && (BehavedRun(cfg, sv, w, front) && Behaved(sv, v, a1) && Behaved(sv, u, a3) ==>
            BehavedRun(cfg, sv, w, front + ([a1] + [NotifyCall(true)] + [a3])))
  {
    BehavedSnoc(cfg, sv, w, front, a1);
    BehavedSnoc(cfg, sv, w, front + [a1], NotifyCall(true));
    BehavedSnoc(cfg, sv, w, front + [a1] + [NotifyCall(true)], a3);
    assert front + ([a1] + [NotifyCall(true)] + [a3]) == front + [a1] + [NotifyCall(true)] + [a3];
    hide Act, Run, BehavedRun, Deliverable;
  }

  /** A fresh client that may be started. */
  predicate Startable(cfg: Config, size: u16, pdu: Message) {
    && cfg.build.Intended? && ConfigFits(cfg) && size in SIZES
    && pdu.WellFormed() && pdu.TokenLength() <= TOKEN_MAX_LENGTH
  }

  lemma StartLeads(cfg: Config, resource: seq<byte>, size: u16, base: seq<byte>, pdu: Message)
    requires Startable(cfg, size, pdu)
    ensures
      var w := Act(cfg, Fresh(base, pdu), StartCall);
      && Started(cfg, size, base, w) && w.client.mid == 0 && w.sent == []
      && Run(cfg, Fresh(base, pdu), [StartCall]) == w
      && BehavedRun(cfg, Server(resource, size), Fresh(base, pdu), [StartCall])
  {
    StartedBy(cfg, size, base, pdu);
    BehavedSnoc(cfg, Server(resource, size), Fresh(base, pdu), [], StartCall);
    assert [] + [StartCall] == [StartCall];
    hide Started, ConfigFits;
  }

  /** The actions lead from w to v, by a network and a server that behave, with one drawn id. */
  ghost predicate Leads(cfg: Config, sv: Server, w: World, actions: seq<Action>, drawn: u16, v: World)
    requires w.client.pdu.WellFormed()
  {
    Run(cfg, w, actions) == v && BehavedRun(cfg, sv, w, actions) && IdsFrom(actions, {drawn})
  }

  lemma IdsConcat(front: seq<Action>, a1: Action, a2: Action, a3: Action, ids: set<u16>)
    requires IdsFrom(front, ids) && IdsFrom([a1], ids) && IdsFrom([a2], ids) && IdsFrom([a3], ids)
    ensures IdsFrom(front + ([a1] + [a2] + [a3]), ids)
  {
    assert [a1][0] == a1 && [a2][0] == a2 && [a3][0] == a3;
  }

  /** The first action of a round, its notification and an arrival extend such a run. */
  lemma LeadsOn(cfg: Config, sv: Server, w: World, front: seq<Action>, drawn: u16, v: World, arrival: Option<seq<byte>>)
    requires w.client.pdu.WellFormed() && Leads(cfg, sv, w, front, drawn, v) && v.client.pdu.WellFormed()
    requires Behaved(sv, v, StepCall(Input(drawn, true, None)))
    requires Behaved(sv, Ask(cfg, drawn, v), StepCall(Input(drawn, true, arrival)))
    ensures
      Leads(cfg, sv, w,
            front + ([StepCall(Input(drawn, true, None))] + [NotifyCall(true)] + [StepCall(Input(drawn, true, arrival))]),
            drawn, Act(cfg, Ask(cfg, drawn, v), StepCall(Input(drawn, true, arrival))))
  {
    var a1, a3 := StepCall(Input(drawn, true, None)), StepCall(Input(drawn, true, arrival));
    hide Act, Run, BehavedRun, Behaved;
    ThreeActions(cfg, sv, w, front, a1, a3);
    hide Ask;
    IdsConcat(front, a1, NotifyCall(true), a3, {drawn});
    hide IdsFrom;
  }

  lemma RoundsTurn(cfg: Config, resource: seq<byte>, size: u16, drawn: u16, w: World, k: nat)
    requires w.client.pdu.WellFormed() && k > 0
    ensures
      var v := Rounds(cfg, resource, size, drawn, Act(cfg, w, StartCall), k - 1);
      && Rounds(cfg, resource, size, drawn, Act(cfg, w, StartCall), k)
         == Act(cfg, Ask(cfg, drawn, v), StepCall(Input(drawn, true, Reply(resource, size, Ask(cfg, drawn, v).sent))))
      && FirstRounds(cfg, resource, size, drawn, w, k)
         == FirstRounds(cfg, resource, size, drawn, w, k - 1) + RoundActions(cfg, resource, size, drawn, v)
  {
    hide Act, Ask, Reply;
  }

  lemma RoundLeads(cfg: Config, resource: seq<byte>, size: u16, drawn: u16, w: World, k: nat)
    requires w.client.pdu.WellFormed() && k > 0
    requires
      var v := Rounds(cfg, resource, size, drawn, Act(cfg, w, StartCall), k - 1);
      && Leads(cfg, Server(resource, size), w, FirstRounds(cfg, resource, size, drawn, w, k - 1), drawn, v)
      && Asking(cfg, size, v) && StartOf(NumberOnWire(v.client.block.number), size) <= |resource|
    ensures
      Leads(cfg, Server(resource, size), w, FirstRounds(cfg, resource, size, drawn, w, k), drawn,
            Rounds(cfg, resource, size, drawn, Act(cfg, w, StartCall), k))
  {
    var v := Rounds(cfg, resource, size, drawn, Act(cfg, w, StartCall), k - 1);
    RoundsTurn(cfg, resource, size, drawn, w, k);
    hide Act, Rounds, FirstRounds, Ask, Leads, Behaved, Reply, Asking, StartOf, NumberOnWire;
    RoundIsBehaved(cfg, resource, size, drawn, v);
    LeadsOn(cfg, Server(resource, size), w, FirstRounds(cfg, resource, size, drawn, w, k - 1), drawn, v,
            Reply(resource, size, Ask(cfg, drawn, v).sent));
  }

  /** k rounds of a client that has just been constructed. */
  ghost predicate RoundsLead(
    cfg: Config, resource: seq<byte>, size: u16, drawn: u16, base: seq<byte>, pdu: Message, k: nat)
    requires pdu.WellFormed()
  {
    var w := Fresh(base, pdu);
    Leads(cfg, Server(resource, size), w, FirstRounds(cfg, resource, size, drawn, w, k), drawn,
          Rounds(cfg, resource, size, drawn, Act(cfg, w, StartCall), k))
  }

  lemma NoRoundLeads(cfg: Config, resource: seq<byte>, size: u16, drawn: u16, base: seq<byte>, pdu: Message, k: nat)
    requires Startable(cfg, size, pdu) && k == 0
    ensures RoundsLead(cfg, resource, size, drawn, base, pdu, k)
  {
    StartLeads(cfg, resource, size, base, pdu);
    hide Act, Run, BehavedRun, Started, ConfigFits;
  }

  /** After k - 1 rounds the client asks for the next block, if the resource is that long. */
  lemma AsksAgain(cfg: Config, resource: seq<byte>, size: u16, drawn: u16, base: seq<byte>, pdu: Message, k: nat)
    requires Startable(cfg, size, pdu) && 0 < k <= 4096 && StartOf(k, size) < |resource|
    ensures
      var v := Rounds(cfg, resource, size, drawn, Act(cfg, Fresh(base, pdu), StartCall), k - 1);
      && Asking(cfg, size, v) && StartOf(NumberOnWire(v.client.block.number), size) <= |resource|
      && v.client.block.number == k - 1 && !v.done
      && v.client.file == base + resource[..StartOf(k - 1, size)] && StartOf(k - 1, size) < |resource|
  {
    StartLeads(cfg, resource, size, base, pdu);
    StartOfGrows(k - 1, k, size);
    hide Asking, Rounds, NumberOnWire, Act, Started, Startable, StartOf;
    RoundsAdvance(cfg, resource, size, drawn, base, Act(cfg, Fresh(base, pdu), StartCall), k - 1);
    WireBelow(k - 1);
  }

  lemma MoreRoundsLead(
    cfg: Config, resource: seq<byte>, size: u16, drawn: u16, base: seq<byte>, pdu: Message, k: nat)
    requires Startable(cfg, size, pdu) && 0 < k <= 4096 && StartOf(k, size) < |resource|
    requires RoundsLead(cfg, resource, size, drawn, base, pdu, k - 1)
    ensures RoundsLead(cfg, resource, size, drawn, base, pdu, k)
  {
    AsksAgain(cfg, resource, size, drawn, base, pdu, k);
    hide Asking, Rounds, FirstRounds, NumberOnWire, Act, Startable, StartOf, Leads;
    RoundLeads(cfg, resource, size, drawn, Fresh(base, pdu), k);
  }

  lemma {:induction false} FirstRoundsBehave(
    cfg: Config, resource: seq<byte>, size: u16, drawn: u16, base: seq<byte>, pdu: Message, k: nat)
    requires Startable(cfg, size, pdu) && k <= 4096 && (k == 0 || StartOf(k, size) < |resource|)
    ensures RoundsLead(cfg, resource, size, drawn, base, pdu, k)
    decreases k
  {
    assert pdu.WellFormed();
    hide StartOf, RoundsLead, Startable, Leads, Rounds, FirstRounds;
    if k == 0 {
      NoRoundLeads(cfg, resource, size, drawn, base, pdu, k);
    } else {
      StartOfGrows(k - 1, k, size);
      FirstRoundsBehave(cfg, resource, size, drawn, base, pdu, k - 1);
      MoreRoundsLead(cfg, resource, size, drawn, base, pdu, k);
    }
  }

  // ---------- the ids of these rounds ----------

  /** Before round k the client's id is drawn + k, or 0 where that wraps, and its first request is on record. */
  lemma {:induction false} RoundIds(
    cfg: Config, resource: seq<byte>, size: u16, drawn: u16, base: seq<byte>, pdu: Message, k: nat)
    requires Startable(cfg, size, pdu) && 0 < k <= 4095 && StartOf(k, size) < |resource|
    requires 0 < drawn && drawn + k <= 0x1_0000
    ensures
      var v := Rounds(cfg, resource, size, drawn, Act(cfg, Fresh(base, pdu), StartCall), k);
      && v.client.mid == (if drawn + k < 0x1_0000 then drawn + k else 0)
      && v.sent != []
      && ReadRequest(v.sent[0]) == Some(Request(drawn, cfg.port, cfg.path, BlockState(0, BLOCK_MAX_SIZE, false)))
    decreases k
  {
    var started := Act(cfg, Fresh(base, pdu), StartCall);
    AsksAgain(cfg, resource, size, drawn, base, pdu, k);
    StartLeads(cfg, resource, size, base, pdu);
    StartOfMore(resource, size, k - 1);
    WireBelow(k - 1);
    var v := Rounds(cfg, resource, size, drawn, started, k - 1);
    RoundGoesOn(cfg, resource, size, drawn, v, k - 1);
    hide Round, Asking, ReadRequest, NumberOnWire, Act, Started, StartOf, More, Ask;
    if k == 1 {
      AskSends(cfg, size, drawn, started);
    } else {
      StartOfGrows(k - 1, k, size);
      RoundIds(cfg, resource, size, drawn, base, pdu, k - 1);
      AskKeepsSent(cfg, size, drawn, v);
      assert Ask(cfg, drawn, v).sent[0] == Ask(cfg, drawn, v).sent[..|v.sent|][0];
    }
  }

  // ---------- a duplicate under an old id ----------

  lemma DuplicateStored(cfg: Config, resource: seq<byte>, size: u16, u: World, q: Request, input: Input)
    requires cfg.build.Intended? && StartOf(0, size) == 0 && Expecting(resource, size, u.client, q)
    requires q.block.number == 0 && |resource| > size && u.client.pdu.WellFormed()
    requires input.arrival == Some(Encode(Intended, AnswerTo(resource, size, q)))
    ensures
      var v := Act(cfg, u, StepCall(input));
      v.client.file == u.client.file + resource[..size] && Offset(v.client.block) == size && v.done == u.done
  {
    hide Slice, StartOf, More, Encode, AnswerTo, ReceiveStep, Sound, Act;
    FirstSlice(resource, size);
    ReplyHandled(cfg, resource, size, u.client, q, input);
    ReceivingAct(cfg, u, input);
  }

  lemma FirstSlice(resource: seq<byte>, size: u16)
    requires |resource| > size
    ensures StartOf(0, size) == 0 && More(resource, size, 0) && Slice(resource, size, 0) == resource[..size]
  {
  }

  /** The client waits under the old id, and the old answer is still a genuine one. */
  lemma OldAnswerGenuine(cfg: Config, resource: seq<byte>, size: u16, drawn: u16, v: World, q: Request)
    requires Asking(cfg, size, v) && v.client.mid == 0 && 0 < v.client.block.number <= 4095
    requires StartOf(v.client.block.number, size) < |resource|
    requires v.sent != [] && ReadRequest(v.sent[0]) == Some(q) && q.id == drawn
    requires q.block == BlockState(0, BLOCK_MAX_SIZE, false)
    ensures
      var u := Ask(cfg, drawn, v);
      && StartOf(0, size) == 0 && Expecting(resource, size, u.client, q)
      && u.client.file == v.client.file && u.done == v.done
      && Genuine(Server(resource, size), u.sent, Encode(Intended, AnswerTo(resource, size, q)))
  {
    WireBelow(v.client.block.number);
    StartOfNext(0, size);
    AskingBlock(cfg, size, v);
    hide Ask, Asking, NumberOnWire, StartOf, ReadRequest, AnswerTo, Encode, Answer, Sound, Slice, More, Select, DecodeBlock;
    var w := AskWaits(cfg, resource, size, drawn, v);
    var u := Ask(cfg, drawn, v);
    WaitingParts(resource, size, u, w);
    AskKeepsSent(cfg, size, drawn, v);
    assert u.sent[0] == u.sent[..|v.sent|][0] == v.sent[0];
    AnswerToIsAnswer(resource, size, q);
    assert GenuineFor(Server(resource, size), u.sent[0], AnswerTo(resource, size, q),
                      Encode(Intended, AnswerTo(resource, size, q)));
  }

  /** The index of the block at which the ids wrap, and that this block exists. */
  lemma WrapsAt(resource: seq<byte>, size: u16, drawn: u16)
    requires InDomain(Server(resource, size)) && !GoodId(Server(resource, size), drawn)
    ensures var j := 0x1_0000 - drawn; 0 < drawn && 0 < j <= 4095 && StartOf(j, size) < |resource|
    ensures |resource| > size
  {
    var sv := Server(resource, size);
    FewBlocks(sv);
    var j, n := 0x1_0000 - drawn, |resource| - 1;
    assert BlocksBehind(|resource|, size) >= j;
    assert n / size * size <= n;
    ProductGrows(j, n / size, size);
    ProductGrows(1, j, size);
  }

  /** Round j finds the client without an id, and with its first request still on record. */
  lemma WrapReached(
    cfg: Config, resource: seq<byte>, size: u16, drawn: u16, base: seq<byte>, pdu: Message, j: nat) returns (q: Request)
    requires Startable(cfg, size, pdu) && 0 < drawn && 0 < j <= 4095 && j == 0x1_0000 - drawn
    requires StartOf(j, size) < |resource|
    ensures
      var v := Rounds(cfg, resource, size, drawn, Act(cfg, Fresh(base, pdu), StartCall), j);
      && Asking(cfg, size, v) && v.client.mid == 0 && v.client.block.number == j && !v.done
      && v.client.file == base + resource[..StartOf(j, size)]
      && v.sent != [] && ReadRequest(v.sent[0]) == Some(q)
    ensures q.id == drawn && q.block == BlockState(0, BLOCK_MAX_SIZE, false)
  {
    q := Request(drawn, cfg.port, cfg.path, BlockState(0, BLOCK_MAX_SIZE, false));
    StartLeads(cfg, resource, size, base, pdu);
    hide Act, Started, Startable, StartOf, Rounds, Asking, ReadRequest;
    RoundIds(cfg, resource, size, drawn, base, pdu, j);
    RoundsAdvance(cfg, resource, size, drawn, base, Act(cfg, Fresh(base, pdu), StartCall), j);
  }

  /** There the old answer may arrive, and it is stored. */
  lemma DuplicateArrives(cfg: Config, resource: seq<byte>, size: u16, drawn: u16, v: World, q: Request)
    returns (d: seq<byte>)
    requires Asking(cfg, size, v) && v.client.mid == 0 && 0 < v.client.block.number <= 4095 && !v.done
    requires StartOf(v.client.block.number, size) < |resource| && size < |resource|
    requires v.sent != [] && ReadRequest(v.sent[0]) == Some(q) && q.id == drawn
    requires q.block == BlockState(0, BLOCK_MAX_SIZE, false)
    ensures
      var sv, u := Server(resource, size), Ask(cfg, drawn, v);
      var t := Act(cfg, u, StepCall(Input(drawn, true, Some(d))));
      && Behaved(sv, v, StepCall(Input(drawn, true, None)))
      && Behaved(sv, u, StepCall(Input(drawn, true, Some(d))))
      && t.client.file == v.client.file + resource[..size] && Offset(t.client.block) == size && !t.done
  {
    OldAnswerGenuine(cfg, resource, size, drawn, v, q);
    d := Encode(Intended, AnswerTo(resource, size, q));
    hide Ask, Asking, Expecting, StartOf, ReadRequest, AnswerTo, Encode, Genuine, Stray, Act, Offset;
    assert Ask(cfg, drawn, v).client.pdu.WellFormed();
    DuplicateStored(cfg, resource, size, Ask(cfg, drawn, v), q, Input(drawn, true, Some(d)));
  }

  /**
   When the ids wrap before the last block, the next one is drawn again and may be an old one: a
   duplicate of the first answer is then stored as block j, although server and network behave.
   */
  lemma WrappedIdRepeatsBlock(cfg: Config, resource: seq<byte>, size: u16, drawn: u16, base: seq<byte>, pdu: Message)
    returns (actions: seq<Action>)
    requires Startable(cfg, size, pdu) && InDomain(Server(resource, size))
    requires !GoodId(Server(resource, size), drawn)
    ensures BehavedRun(cfg, Server(resource, size), Fresh(base, pdu), actions) && IdsFrom(actions, {drawn})
    ensures
      var j, v := 0x1_0000 - drawn, Run(cfg, Fresh(base, pdu), actions);
      && j > 0 && StartOf(j, size) < |resource| && size < |resource|
      && !v.done && Offset(v.client.block) == size
      && v.client.file == base + resource[..StartOf(j, size)] + resource[..size]
  {
    WrapsAt(resource, size, drawn);
    var sv, w, j := Server(resource, size), Fresh(base, pdu), 0x1_0000 - drawn;
    FirstRoundsBehave(cfg, resource, size, drawn, base, pdu, j);
    var v := Rounds(cfg, resource, size, drawn, Act(cfg, w, StartCall), j);
    hide Act, Startable, StartOf, Rounds, Asking, Ask, InDomain, GoodId, ReadRequest, FirstRounds, Behaved, Offset;
    var q := WrapReached(cfg, resource, size, drawn, base, pdu, j);
    var d := DuplicateArrives(cfg, resource, size, drawn, v, q);
    actions := FirstRounds(cfg, resource, size, drawn, w, j)
      + ([StepCall(Input(drawn, true, None))] + [NotifyCall(true)] + [StepCall(Input(drawn, true, Some(d)))]);
    hide Leads;
    LeadsOn(cfg, sv, w, FirstRounds(cfg, resource, size, drawn, w, j), drawn, v, Some(d));
    LeadsParts(cfg, sv, w, actions, drawn, Act(cfg, Ask(cfg, drawn, v), StepCall(Input(drawn, true, Some(d)))));
  }

  lemma LeadsParts(cfg: Config, sv: Server, w: World, actions: seq<Action>, drawn: u16, v: World)
    requires w.client.pdu.WellFormed() && Leads(cfg, sv, w, actions, drawn, v)
    ensures Run(cfg, w, actions) == v && BehavedRun(cfg, sv, w, actions) && IdsFrom(actions, {drawn})
  {
  }

  /** Its file is not the one that DownloadSafe promises. */
  lemma WrongFile(resource: seq<byte>, size: u16, base: seq<byte>, v: World, at: nat)
    requires size <= at <= |resource| && size > 0 && !v.done && Offset(v.client.block) == size
    requires v.client.file == base + resource[..at] + resource[..size]
    ensures !RightFile(Server(resource, size), base, v)
  {
    assert |v.client.file| == |base| + at + size;
  }

  // ---------- a resource of more than 4096 blocks ----------

  lemma LongRunBehaves(cfg: Config, resource: seq<byte>, size: u16, drawn: u16, base: seq<byte>, pdu: Message)
    requires Startable(cfg, size, pdu) && |resource| > 4096 * size
    ensures RoundsLead(cfg, resource, size, drawn, base, pdu, 4097)
  {
    FullSize(size);
    FirstRoundsBehave(cfg, resource, size, drawn, base, pdu, 4096);
    StartLeads(cfg, resource, size, base, pdu);
    var w := Act(cfg, Fresh(base, pdu), StartCall);
    hide Act, Started, Startable, StartOf, Rounds, FirstRounds, Asking, Leads, Slice, NumberOnWire, BlockAfter;
    IdealNeverCompletes(cfg, resource, size, drawn, base, w, 4096);
    RoundLeads(cfg, resource, size, drawn, Fresh(base, pdu), 4097);
  }

  lemma WrongLength(sv: Server, base: seq<byte>, v: World)
    requires sv.least > 0 && |sv.resource| > 4096 * sv.least
    requires !v.done && v.client.block.number == 17 && v.client.block.size == sv.least
    requires v.client.file == base + sv.resource[..4096 * sv.least] + sv.resource[16 * sv.least..17 * sv.least]
    ensures !RightFile(sv, base, v)
  {
    assert |v.client.file| == |base| + 4096 * sv.least + sv.least;
    assert Offset(v.client.block) == 17 * sv.least;
    hide Offset;
  }

  lemma CycledBlock(cfg: Config, size: u16, v: World)
    requires Cycling(cfg, size, 4097, v)
    ensures !v.done && v.client.block.number == 17 && v.client.block.size == size
  {
    hide ConfigFits;
  }

  lemma WrongBlockFile(cfg: Config, sv: Server, drawn: u16, base: seq<byte>, pdu: Message)
    requires Startable(cfg, sv.least, pdu) && |sv.resource| > 4096 * sv.least
    ensures !RightFile(sv, base, Rounds(cfg, sv.resource, sv.least, drawn, Act(cfg, Fresh(base, pdu), StartCall), 4097))
  {
    assert sv.least in SIZES;
    hide Act, Started, Startable, Rounds, Cycling, RightFile;
    StartLeads(cfg, sv.resource, sv.least, base, pdu);
    var w, size := Act(cfg, Fresh(base, pdu), StartCall), sv.least;
    var v := Rounds(cfg, sv.resource, size, drawn, w, 4097);
    RoundsCycle(cfg, sv.resource, size, drawn, base, w, 4097);
    CycledBlock(cfg, size, v);
    WrongBlockStored(cfg, sv.resource, size, drawn, base, w);
    WrongLength(sv, base, v);
  }

  /** Behaved rounds lead to a wrong file whatever ids are drawn. */
  lemma LongResourceBreaks(cfg: Config, sv: Server, drawn: u16, base: seq<byte>, pdu: Message)
    returns (actions: seq<Action>)
    requires Startable(cfg, sv.least, pdu) && |sv.resource| > 4096 * sv.least
    ensures BehavedRun(cfg, sv, Fresh(base, pdu), actions) && IdsFrom(actions, {drawn})
    ensures !RightFile(sv, base, Run(cfg, Fresh(base, pdu), actions))
  {
    LongRunBehaves(cfg, sv.resource, sv.least, drawn, base, pdu);
    WrongBlockFile(cfg, sv, drawn, base, pdu);
    hide Act, Startable, Rounds, FirstRounds, Leads, RightFile, Run, BehavedRun;
    actions := FirstRounds(cfg, sv.resource, sv.least, drawn, Fresh(base, pdu), 4097);
    assert sv == Server(sv.resource, sv.least);
    LeadsParts(cfg, sv, Fresh(base, pdu), actions, drawn,
               Rounds(cfg, sv.resource, sv.least, drawn, Act(cfg, Fresh(base, pdu), StartCall), 4097));
  }

  // ---------- the exact bounds ----------

  /** A run with one bad id, or on a long resource, that ends with a wrong file. */
  lemma BoundsNeeded(cfg: Config, sv: Server, base: seq<byte>, pdu: Message, id: u16) returns (actions: seq<Action>)
    requires Startable(cfg, sv.least, pdu) && !(InDomain(sv) && GoodId(sv, id))
    ensures BehavedRun(cfg, sv, Fresh(base, pdu), actions) && IdsFrom(actions, {id})
    ensures !RightFile(sv, base, Run(cfg, Fresh(base, pdu), actions))
  {
    if |sv.resource| > 4096 * sv.least {
      hide Run, BehavedRun, RightFile;
      actions := LongResourceBreaks(cfg, sv, id, base, pdu);
    } else {
      hide Run, BehavedRun, RightFile;
      assert sv == Server(sv.resource, sv.least);
      actions := WrappedIdRepeatsBlock(cfg, sv.resource, sv.least, id, base, pdu);
      WrongFileAfterWrap(sv, id, base, Run(cfg, Fresh(base, pdu), actions));
    }
  }

  /**
   The assumptions on ids and on the length of the resource are exact: whatever set of ids the
   generator may offer, the file is right in every run with that server and network if and only if 4096
   blocks are enough and none of those ids wraps before the last block (or there is no id to draw).
   */
  lemma BoundsExact(cfg: Config, sv: Server, base: seq<byte>, pdu: Message, ids: set<u16>)
    requires Startable(cfg, sv.least, pdu)
    ensures (forall actions ::
               BehavedRun(cfg, sv, Fresh(base, pdu), actions) && IdsFrom(actions, ids) ==>
                 RightFile(sv, base, Run(cfg, Fresh(base, pdu), actions)))
            <==> (ids == {} || InDomain(sv)) && (forall id: u16 :: id in ids ==> GoodId(sv, id))
  {
    hide BehavedRun, Run, GoodId, RightFile, InDomain, ConfigFits;
    if id: u16 :| id in ids && !(InDomain(sv) && GoodId(sv, id)) {
      var actions := BoundsNeeded(cfg, sv, base, pdu, id);
      assert IdsFrom(actions, ids);
    } else {
      forall actions | BehavedRun(cfg, sv, Fresh(base, pdu), actions) && IdsFrom(actions, ids)
        ensures RightFile(sv, base, Run(cfg, Fresh(base, pdu), actions))
      {
        if ids == {} {
          NoSteps(cfg, sv, base, pdu, actions);
        } else {
          var id: u16 :| id in ids;
          RightWithGoodIds(cfg, sv, base, pdu, actions, ids);
        }
      }
    }
  }

  /** Without a transaction step nothing happens to the file. */
  lemma {:induction false} NoSteps(cfg: Config, sv: Server, base: seq<byte>, pdu: Message, actions: seq<Action>)
    requires pdu.WellFormed() && IdsFrom(actions, {})
    ensures
      var v := Run(cfg, Fresh(base, pdu), actions);
      !v.done && v.client.file == base && v.client.block.number == 0 && RightFile(sv, base, v)
  {
    if actions != [] {
      NoSteps(cfg, sv, base, pdu, actions[..|actions| - 1]);
      assert !actions[|actions| - 1].StepCall?;
    }
    assert base + sv.resource[..0] == base;
  }

  lemma WrongFileAfterWrap(sv: Server, id: u16, base: seq<byte>, v: World)
    requires sv.least > 0 && 0 < 0x1_0000 - id && StartOf(0x1_0000 - id, sv.least) < |sv.resource|
    requires !v.done && Offset(v.client.block) == sv.least
    requires v.client.file == base + sv.resource[..StartOf(0x1_0000 - id, sv.least)] + sv.resource[..sv.least]
    ensures !RightFile(sv, base, v)
  {
    StartOfGrows(1, 0x1_0000 - id, sv.least);
    hide Offset;
    WrongFile(sv.resource, sv.least, base, v, StartOf(0x1_0000 - id, sv.least));
  }

  lemma RightWithGoodIds(cfg: Config, sv: Server, base: seq<byte>, pdu: Message, actions: seq<Action>, ids: set<u16>)
    requires Startable(cfg, sv.least, pdu) && InDomain(sv)
    requires BehavedRun(cfg, sv, Fresh(base, pdu), actions) && IdsFrom(actions, ids)
    requires forall id: u16 :: id in ids ==> GoodId(sv, id)
    ensures RightFile(sv, base, Run(cfg, Fresh(base, pdu), actions))
  {
    hide Run, GoodId, BehavedRun, ConfigFits, InDomain, Offset;
    GoodIdsAdmit(cfg, sv, Fresh(base, pdu), actions, ids);
    DownloadSafe(cfg, sv, base, pdu, actions);
  }
}
