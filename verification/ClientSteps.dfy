/** uriClientEndpoint::transaction_step as a function of the client's state and of what the outside does. */
module ClientSteps {
  import opened Bytes
  import opened Messages
  import opened OptionList
  import opened Encoding
  import opened Blockwise
  import opened Requests
  import opened EndToEnd
  import P = Parsing

  const RECEIVE_MAX_ATTEMPTS: nat := 4
  const BUFFER_MAX_SIZE: nat := 2500

  /** state_t; Halted is where a failed assertion or a read outside a vector leaves the process. */
  datatype Phase = Idle | SendRequest | ReceiveDataBlock | Error | Complete | Halted

  datatype Config = Config(build: Build, port: u16, path: Path)

  datatype ClientState = ClientState(
    state: Phase, next: Phase, attempts: nat, mid: u16, received: bool,
    file: seq<byte>, block: BlockState, pdu: Message, error: ErrorCode)

  /** What rand(), sendto and recvfrom do during one step; arrival is None when recvfrom fails. */
  datatype Input = Input(freshId: u16, sendOk: bool, arrival: Option<seq<byte>>)

  datatype StepResult = StepResult(client: ClientState, sent: seq<seq<byte>>)

  /** recvfrom into the connection's buffer drops what does not fit. */
  function Truncate(d: seq<byte>): (r: seq<byte>)
    ensures |r| <= BUFFER_MAX_SIZE
    ensures |d| <= BUFFER_MAX_SIZE ==> r == d
  {
    if |d| <= BUFFER_MAX_SIZE then d else d[..BUFFER_MAX_SIZE]
  }

  /** The constructor opens the file for appending, so it keeps what it held. */
  function Initial(existing: seq<byte>, pdu: Message): ClientState {
    ClientState(Idle, Idle, 0, 0, false, existing, BlockState(0, 0, false), pdu, Unknown)
  }

  function Start(s: ClientState): ClientState {
    s.(next := SendRequest)
  }

  function Stop(s: ClientState): ClientState {
    s.(next := Phase.Error)
  }

  function Fail(s: ClientState, error: ErrorCode): ClientState {
    s.(next := Phase.Error, error := error)
  }

  /** The lambda retry. */
  function Retry(s: ClientState): ClientState {
    if s.attempts + 1 > RECEIVE_MAX_ATTEMPTS then Fail(s.(attempts := 0), CoapTimeout)
    else s.(attempts := s.attempts + 1, next := SendRequest)
  }

  function SendStep(cfg: Config, s: ClientState, input: Input): StepResult
    requires s.pdu.WellFormed()
  {
    var s1 := s.(state := SendRequest, block := Requested(s.block));
    match EncodeBlock(s1.block)
    case None =>
      var options := [PortOption(cfg.build, cfg.port)] + PathOptions(cfg.build, cfg.path);
      StepResult(Fail(s1.(pdu := s.pdu.(options := options)), CreateBlockOption), [])
    case Some(value) =>
      var id := if s.mid == 0 then input.freshId else s.mid;
      var m := RequestMessage(s.pdu, id, RequestOptions(cfg.build, cfg.port, cfg.path, value));
      var s2 := s1.(mid := id, pdu := m);
      if m.TokenLength() > TOKEN_MAX_LENGTH then StepResult(Fail(s2, CoapSerialize), [])
      else if !input.sendOk then StepResult(Fail(s2, CoapSend), [])
      else StepResult(s2.(next := ReceiveDataBlock), [Encode(cfg.build, m)])
  }

  /** The part of receive_data_block_handler behind a successful parse; s.pdu holds the packet. */
  function HandleResponse(cfg: Config, s: ClientState): ClientState {
    if s.pdu.Type() != ACKNOWLEDGEMENT || s.mid != s.pdu.messageId then Retry(s)
    else if s.pdu.code == NOT_FOUND then Fail(s, UriNotFound)
    else if s.pdu.code != CONTENT then Fail(s, ServerCode)
    else
      var s1 := s.(pdu := s.pdu.(options := Sort(s.pdu.options)));
      match Find(cfg.build, s1.pdu.options, BLOCK_2)
      case OutOfRange => s1.(next := Halted)
      case Missing => Fail(s1, ErrorCode.DecodeBlockOption)
      case Found(k) =>
        match DecodeBlock(s1.pdu.options[k].value)
        case None => Fail(s1, ErrorCode.DecodeBlockOption)
        case Some(b) => Accept(s1, b)
  }

  /** A chunk is stored; number and size change here and nowhere else. */
  function Accept(s: ClientState, b: BlockState): ClientState {
    var s1 := s.(file := s.file + s.pdu.payload, attempts := 0);
    if b.more then
      s1.(block := BlockState((b.number + 1) % 0x1_0000_0000, b.size, false),
          mid := (s.pdu.messageId + 1) % 0x1_0000, next := SendRequest)
    else s1.(block := b, next := Complete)
  }

  lemma AcceptForgetsBlock(s: ClientState, before: BlockState, b: BlockState)
    ensures Accept(s.(block := before), b) == Accept(s, b)
  {
  }

  function ReceiveStep(cfg: Config, s: ClientState, input: Input): ClientState {
    var s1 := s.(state := ReceiveDataBlock, received := false);
    if !s.received then Retry(s1)
    else if input.arrival.None? then Fail(s1, CoapReceive)
    else
      var (outcome, m) := P.Parse(cfg.build, s.pdu, Truncate(input.arrival.value));
      var s2 := s1.(pdu := m);
      match outcome
      case Aborted => s2.(next := Halted)
      case Rejected(_) => Fail(s2, ReceivedPacket)
      case Accepted => HandleResponse(cfg, s2)
  }

  /** transaction_step. */
  function Step(cfg: Config, s: ClientState, input: Input): StepResult
    requires s.pdu.WellFormed()
  {
    match s.next
    case Idle => StepResult(s.(state := Idle), [])
    case SendRequest => SendStep(cfg, s, input)
    case ReceiveDataBlock => StepResult(ReceiveStep(cfg, s, input), [])
    case Error => StepResult(s.(state := Phase.Error, next := Idle), [])
    case Complete => StepResult(s.(state := Complete, next := Idle), [])
    case Halted => StepResult(s, [])
  }

  lemma ParseKeepsWellFormed(b: Build, m: Message, s: seq<byte>)
    requires m.WellFormed()
    ensures P.Parse(b, m, s).1.WellFormed()
  {
  }

  lemma StepKeepsWellFormed(cfg: Config, s: ClientState, input: Input)
    requires s.pdu.WellFormed()
    ensures Step(cfg, s, input).client.pdu.WellFormed()
  {
    hide P.Parse, Find, DecodeBlock, Sort, Encode, EncodeBlock;
    if s.next.ReceiveDataBlock? && s.received && input.arrival.Some? {
      ParseKeepsWellFormed(cfg.build, s.pdu, Truncate(input.arrival.value));
    }
  }

  // ---------- the request always fits the connection's buffer ----------

  function PathBytes(path: Path): nat {
    if path == [] then 0 else |path[0]| + 6 + PathBytes(path[1..])
  }

  /** The client writes its request into a buffer of BUFFER_MAX_SIZE bytes without checking its size. */
  predicate ConfigFits(cfg: Config) {
    cfg.path != [] && SegmentsFit(cfg.path) && 30 + PathBytes(cfg.path) <= BUFFER_MAX_SIZE
  }

  function OptionsBound(options: seq<CoapOption>): nat {
    if options == [] then 0 else 5 + |options[0].value| + OptionsBound(options[1..])
  }

  lemma {:induction false} OptionsBounded(options: seq<CoapOption>, previous: byte)
    ensures |EncodeOptions(options, previous)| <= OptionsBound(options)
  {
    hide EncodeHead;
    if options != [] {
      OptionBytes(options[0], previous);
      OptionsBounded(options[1..], options[0].number % 256);
    }
  }

  lemma {:induction false} PathBounded(b: Build, path: Path, tail: seq<CoapOption>)
    ensures OptionsBound(PathOptions(b, path) + tail) <= PathBytes(path) + OptionsBound(tail)
  {
    var all := PathOptions(b, path) + tail;
    if path == [] {
      assert all == tail;
    } else {
      assert all[0] == CoapOption(URI_PATH, b.Blank() + path[0]) && |b.Blank()| <= 1;
      assert all[1..] == PathOptions(b, path[1..]) + tail;
      PathBounded(b, path[1..], tail);
    }
  }

  lemma RequestBounded(b: Build, pdu: Message, port: u16, path: Path, id: u16, value: seq<byte>)
    requires pdu.WellFormed() && pdu.TokenLength() <= TOKEN_MAX_LENGTH && |value| <= 3
    ensures
      var m := RequestMessage(pdu, id, RequestOptions(b, port, path, value));
      Size(m) <= 30 + PathBytes(path)
  {
    var options, tail := RequestOptions(b, port, path, value), [BlockOption(b, value)];
    var m := RequestMessage(pdu, id, options);
    RequestHeaderParts(pdu.header);
    OptionsSizeIsLength(options, 0);
    OptionsBounded(options, 0);
    PathBounded(b, path, tail);
    hide EncodeOptions, PathOptions, OptionsSize, RequestHeader;
    assert options[1..] == PathOptions(b, path) + tail && |b.Blank()| <= 1;
    assert tail[1..] == [];
  }

  /** The request ends in a Block2 option with a value, so the strict assertions of the writing run hold. */
  lemma RequestWritable(cfg: Config, pdu: Message, id: u16, value: seq<byte>)
    requires ConfigFits(cfg) && pdu.WellFormed() && pdu.TokenLength() <= TOKEN_MAX_LENGTH && 1 <= |value| <= 3
    ensures
      var m := RequestMessage(pdu, id, RequestOptions(cfg.build, cfg.port, cfg.path, value));
      && PACKET_HEADER_SIZE + m.TokenLength() <= OptionsEnd(m) <= Size(m) <= BUFFER_MAX_SIZE
      && Writable(m, Size(m)) && OptionsWritable(m, Size(m))
  {
    var options := RequestOptions(cfg.build, cfg.port, cfg.path, value);
    RequestBounded(cfg.build, pdu, cfg.port, cfg.path, id, value);
    assert options[|options| - 1] == BlockOption(cfg.build, value);
    hide PathOptions, OptionsSize, RequestHeader, OptionsWritable, EncodeOptions;
    var m := RequestMessage(pdu, id, options);
    SizeByParts(m);
    WritableByChecks(m, Size(m));
  }
}
