/** From the path string that the user gives to what a peer reads (src/uri.cc, src/blockwise.cc:319-348). */
module UriRequests {
  import opened Bytes
  import opened Messages
  import opened Encoding
  import opened Blockwise
  import opened Requests
  import opened EndToEnd
  import opened ClientSteps
  import opened Sessions
  import opened Retransmissions
  import opened Reactions
  import U = UriClass

  /** The client for a path string; its constructor needs a string URI, and add_option short segments. */
  ghost predicate ConfiguredBy(cfg: Config, text: U.Text) {
    && U.PathToUri(text).Some? && U.PathToUri(text).value.kind.StringKind?
    && cfg.path == U.PathToUri(text).value.asString && SegmentsFit(cfg.path)
  }

  ghost predicate IsRequestFor(cfg: Config, d: seq<byte>, id: u16, b: BlockState) {
    IsRequest(cfg, d, id, b) && b.size in SIZES && b.number < BLOCK_NUMBERS
  }

  ghost predicate IsSomeRequest(cfg: Config, d: seq<byte>) {
    exists id: u16, b: BlockState :: IsRequestFor(cfg, d, id, b)
  }

  ghost predicate AllRequests(cfg: Config, sent: seq<seq<byte>>) {
    forall k :: 0 <= k < |sent| ==> IsSomeRequest(cfg, sent[k])
  }

  lemma RequestedEncodes(cfg: Config, s: ClientState, d: seq<byte>, id: u16)
    requires Sound(s) && IsRequest(cfg, d, id, Requested(s.block))
    ensures IsSomeRequest(cfg, d)
  {
    var pdu: Message :| RequestFrom(cfg, pdu, d, id, Requested(s.block));
    hide RequestFrom, IsRequest, EncodeBlock;
    assert Requested(s.block).number < BLOCK_NUMBERS by {
      RequestedNumber(cfg, pdu, d, id, Requested(s.block));
    }
    assert IsRequestFor(cfg, d, id, Requested(s.block));
  }

  lemma RequestedNumber(cfg: Config, pdu: Message, d: seq<byte>, id: u16, b: BlockState)
    requires RequestFrom(cfg, pdu, d, id, b)
    ensures b.number < BLOCK_NUMBERS
  {
    hide Encode, RequestOptions, RequestHeader;
  }

  lemma ActSendsRequests(cfg: Config, w: World, a: Action)
    requires Sound(w.client) && AllRequests(cfg, w.sent)
    ensures AllRequests(cfg, Act(cfg, w, a).sent)
  {
    var v := Act(cfg, w, a);
    SentShape(cfg, w, a);
    hide Act, IsRequest, IsSomeRequest, Requested;
    if v.sent != w.sent {
      RequestedEncodes(cfg, w.client, v.sent[|w.sent|], v.client.mid);
      assert forall k :: 0 <= k < |w.sent| ==> v.sent[k] == v.sent[..|w.sent|][k] == w.sent[k];
    }
  }

  lemma {:induction false} RunSendsRequests(cfg: Config, w: World, actions: seq<Action>)
    requires Sound(w.client) && AllRequests(cfg, w.sent)
    ensures AllRequests(cfg, Run(cfg, w, actions).sent)
  {
    hide Act, AllRequests;
    if actions != [] {
      RunSendsRequests(cfg, w, actions[..|actions| - 1]);
      RunKeepsSound(cfg, w, actions[..|actions| - 1]);
      ActSendsRequests(cfg, Run(cfg, w, actions[..|actions| - 1]), actions[|actions| - 1]);
    }
  }

  /**
   Whatever happens to a client that was given a path string, a peer can read every datagram it sends,
   and the Uri-Path values there, in order, are the pieces of that string between its slashes (up to a
   zero byte, where strncpy ends it).
   */
  lemma EveryRequestNamesThePath(
    cfg: Config, text: U.Text, pdu: Message, existing: seq<byte>, actions: seq<Action>, k: nat)
    requires cfg.build.Intended? && ConfiguredBy(cfg, text) && pdu.WellFormed()
    requires k < |Run(cfg, World(Initial(existing, pdu), [], false), actions).sent|
    ensures
      var q := ReadRequest(Run(cfg, World(Initial(existing, pdu), [], false), actions).sent[k]);
      && q.Some? && q.value.port == cfg.port && q.value.path == U.Tokens(U.CString(text))
      && U.PathToUri(U.JoinSegments(q.value.path)) == U.PathToUri(text)
  {
    var w := World(Initial(existing, pdu), [], false);
    RunSendsRequests(cfg, w, actions);
    hide Run, IsRequest, ReadRequest, U.Tokens, NumberOnWire;
    var d := Run(cfg, w, actions).sent[k];
    var id: u16, b: BlockState :| IsRequestFor(cfg, d, id, b);
    RetransmissionsReadAlike(cfg, d, id, b);
    U.NormalFormIsIdempotent(text);
  }

  /** Every datagram of every run, in either build, is a confirmable GET of version 1 with a legal token. */
  lemma EveryDatagramIsGet(cfg: Config, pdu: Message, existing: seq<byte>, actions: seq<Action>, k: nat)
    requires pdu.WellFormed()
    requires k < |Run(cfg, World(Initial(existing, pdu), [], false), actions).sent|
    ensures
      var d := Run(cfg, World(Initial(existing, pdu), [], false), actions).sent[k];
      |d| >= 4 && d[0] / 16 == 4 && d[0] % 16 <= 8 && d[1] == 1
  {
    var w := World(Initial(existing, pdu), [], false);
    RunSendsRequests(cfg, w, actions);
    hide Run, IsRequest;
    var d := Run(cfg, w, actions).sent[k];
    var id: u16, b: BlockState :| IsRequestFor(cfg, d, id, b);
    RequestIsGet(cfg, d, id, b);
  }

  lemma RequestIsGet(cfg: Config, d: seq<byte>, id: u16, b: BlockState)
    requires IsRequest(cfg, d, id, b)
    ensures |d| >= 4 && d[0] / 16 == 4 && d[0] % 16 <= 8 && d[1] == 1
  {
    var held: Message :| RequestFrom(cfg, held, d, id, b);
    hide RequestOptions, EncodeBlock, Encode, RequestHeader;
    RequestStarts(cfg.build, held, id, RequestOptions(cfg.build, cfg.port, cfg.path, EncodeBlock(b).value));
  }
}
