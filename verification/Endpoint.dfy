/** The classes connection and uriClientEndpoint (include/connection.h, src/uriClientEndpoint.cc). */
module Endpoint {
  import opened Bytes
  import opened Messages
  import opened OptionList
  import opened Encoding
  import opened PacketClass
  import opened Blockwise
  import opened Requests
  import opened EndToEnd
  import C = ClientSteps
  import P = Parsing

  /** The socket is outside the model: sent records what went out, arrivals are parameters. */
  class Connection {
    const port: u16
    const buffer: array<byte>
    var length: nat
    var sent: seq<seq<byte>>

    ghost predicate Valid()
      reads this
    {
      buffer.Length == C.BUFFER_MAX_SIZE && length <= buffer.Length
    }

    constructor (port: u16)
      ensures Valid() && fresh(buffer) && this.port == port && sent == []
    {
      this.port := port;
      buffer := new byte[C.BUFFER_MAX_SIZE];
      length := C.BUFFER_MAX_SIZE;
      sent := [];
    }

    method Send(works: bool) returns (ok: bool)
      requires Valid()
      modifies `sent
      ensures ok == works
      ensures sent == old(sent) + if works then [buffer[..length]] else []
    {
      if works {
        sent := sent + [buffer[..length]];
      }
      ok := works;
    }

    method Receive(arrival: Option<seq<byte>>) returns (ok: bool)
      requires Valid()
      modifies `length, buffer
      ensures Valid() && (ok <==> arrival.Some?)
      ensures if ok then buffer[..length] == C.Truncate(arrival.value) else length == old(length)
    {
      forall k | 0 <= k < buffer.Length {
        buffer[k] := 0;
      }
      if arrival.None? {
        return false;
      }
      var d := C.Truncate(arrival.value);
      CopyInto(buffer, 0, d);
      length := |d|;
      return true;
    }
  }

  lemma SplicedPrefix(s: seq<byte>, part: seq<byte>)
    requires |part| <= |s|
    ensures Splice(s, 0, part)[..|part|] == part
  {
  }

  class UriClientEndpoint {
    const path: Path
    const conn: Connection
    const pdu: Packet
    const block2: Block2
    var state: C.Phase
    var next: C.Phase
    var attempts: nat
    var mid: u16
    var received: bool
    var file: seq<byte>
    var error: ErrorCode

    ghost predicate Valid()
      reads this, conn
    {
      conn.Valid() && pdu.Valid() && C.ConfigFits(Config())
    }

    function Config(): C.Config {
      C.Config(pdu.build, conn.port, path)
    }

    function State(): (s: C.ClientState)
      reads this, pdu, pdu.token, block2
      ensures pdu.Valid() ==> s.pdu.WellFormed()
    {
      C.ClientState(state, next, attempts, mid, received, file, block2.State(), pdu.Msg(), error)
    }

    constructor (path: Path, conn: Connection, pdu: Packet, existing: seq<byte>)
      requires conn.Valid() && pdu.Valid()
      requires C.ConfigFits(C.Config(pdu.build, conn.port, path))
      ensures Valid() && this.path == path && this.conn == conn && this.pdu == pdu && fresh(block2)
      ensures State() == C.Initial(existing, pdu.Msg())
    {
      this.path, this.conn, this.pdu := path, conn, pdu;
      state, next, attempts, mid, received, file, error := C.Idle, C.Idle, 0, 0, false, existing, Unknown;
      block2 := new Block2();
    }

    method Start()
      modifies `next
      ensures State() == C.Start(old(State()))
    {
      next := C.SendRequest;
    }

    method Stop()
      modifies `next
      ensures State() == C.Stop(old(State()))
    {
      next := C.Phase.Error;
    }

    method SetReceived(flag: bool)
      modifies `received
      ensures State() == old(State()).(received := flag)
    {
      received := flag;
    }

    method Fail(code: ErrorCode)
      modifies `next, `error
      ensures State() == C.Fail(old(State()), code)
    {
      next, error := C.Phase.Error, code;
    }

    /** transaction_step: the new state and the bytes that go out are those of the step function. */
    method TransactionStep(input: C.Input)
      requires Valid()
      modifies this, pdu, pdu.token, block2, conn, conn.buffer
      ensures Valid()
      ensures C.StepResult(State(), conn.sent) ==
              var r := C.Step(Config(), old(State()), input); r.(sent := old(conn.sent) + r.sent)
    {
      match next {
        case Idle =>
          state := C.Idle;
        case SendRequest =>
          SendRequestHandler(input);
        case ReceiveDataBlock =>
          ReceiveDataBlockHandler(input);
        case Error =>
          state, next := C.Phase.Error, C.Idle;
        case Complete =>
          state, next := C.Complete, C.Idle;
        case Halted =>
      }
    }

    method SendRequestHandler(input: C.Input)
      requires Valid()
      modifies this, pdu, pdu.token, block2, conn, conn.buffer
      ensures Valid()
      ensures C.StepResult(State(), conn.sent) ==
              var r := C.SendStep(Config(), old(State()), input); r.(sent := old(conn.sent) + r.sent)
    {
      hide EncodeBlock, RequestOptions, Encode, PathOptions, RequestHeader;
      state := C.SendRequest;
      var status := block2.SetHeader(conn.port, path, pdu);
      if !status {
        Fail(CreateBlockOption);
        return;
      }
      if mid == 0 {
        mid := input.freshId;
      }
      ghost var base := old(pdu.Msg());
      MakeGet();
      Transmit(base, EncodeBlock(block2.State()).value, input.sendOk);
    }

    method MakeGet()
      requires pdu.Valid()
      modifies pdu.token, pdu`headerInfo, pdu`code, pdu`messageId, pdu`payload
      ensures pdu.Msg() == RequestMessage(old(pdu.Msg()), mid, pdu.options)
    {
      pdu.MakeRequest(CONFIRMABLE, GET, mid, 0, [], []);
    }

    /** The dry run, the writing run and the transmission of the request that the packet holds. */
    method Transmit(ghost base: Message, ghost value: seq<byte>, sendOk: bool)
      requires Valid() && base.WellFormed() && 1 <= |value| <= 3
      requires pdu.Msg() == RequestMessage(base, mid, RequestOptions(pdu.build, conn.port, path, value))
      modifies `next, `error, conn`length, conn`sent, conn.buffer
      ensures Valid()
      ensures
        if pdu.Msg().TokenLength() > TOKEN_MAX_LENGTH then
          State() == C.Fail(old(State()), CoapSerialize) && conn.sent == old(conn.sent)
        else if !sendOk then State() == C.Fail(old(State()), CoapSend) && conn.sent == old(conn.sent)
        else State() == old(State()).(next := C.ReceiveDataBlock)
             && conn.sent == old(conn.sent) + [Encode(pdu.build, pdu.Msg())]
    {
      hide RequestOptions, Encode, RequestHeader, Size, Writable, OptionsWritable, OptionsEnd;
      var outcome, length := pdu.Serialize(null, 0, true);
      if !outcome.Accepted? {
        Fail(CoapSerialize);
        return;
      }
      RequestHeaderParts(base.header);
      C.RequestWritable(Config(), base, mid, value);
      // the source tests this result too; by RequestWritable the writing run always succeeds here
      outcome, length := pdu.Serialize(conn.buffer, length, false);
      conn.length := length;
      SplicedPrefix(old(conn.buffer[..]), Encode(pdu.build, pdu.Msg()));
      var sent := conn.Send(sendOk);
      if !sent {
        Fail(CoapSend);
        return;
      }
      next := C.ReceiveDataBlock;
    }

    method Retry()
      modifies `attempts, `next, `error
      ensures State() == C.Retry(old(State()))
    {
      attempts := attempts + 1;
      if attempts > C.RECEIVE_MAX_ATTEMPTS {
        attempts := 0;
        Fail(CoapTimeout);
      } else {
        next := C.SendRequest;
      }
    }

    method ReceiveDataBlockHandler(input: C.Input)
      requires Valid()
      modifies this, pdu, pdu.token, block2, conn`length, conn.buffer
      ensures Valid()
      ensures State() == C.ReceiveStep(Config(), old(State()), input)
    {
      hide P.Parse, C.HandleResponse;
      state := C.ReceiveDataBlock;
      if !received {
        Retry();
        return;
      }
      received := false;
      var ok := conn.Receive(input.arrival);
      if !ok {
        Fail(CoapReceive);
        return;
      }
      var outcome := pdu.Parse(conn.buffer, conn.length);
      match outcome {
        case Aborted => next := C.Halted;
        case Rejected(_) => Fail(ReceivedPacket);
        case Accepted => HandleResponse();
      }
    }

    method HandleResponse()
      requires pdu.Valid()
      modifies this, pdu`options, block2
      ensures State() == C.HandleResponse(Config(), old(State()))
    {
      hide Sort, Find, DecodeBlock, C.Accept;
      if pdu.headerInfo / 16 % 4 != ACKNOWLEDGEMENT || mid != pdu.messageId {
        Retry();
        return;
      }
      if pdu.code == NOT_FOUND {
        Fail(UriNotFound);
        return;
      } else if pdu.code != CONTENT {
        Fail(ServerCode);
        return;
      }
      var outcome := block2.GetHeader(pdu);
      match outcome {
        case Aborted => next := C.Halted;
        case Rejected(_) => Fail(ErrorCode.DecodeBlockOption);
        case Accepted =>
          C.AcceptForgetsBlock(State(), old(block2.State()), block2.State());
          StoreChunk();
      }
    }

    method StoreChunk()
      modifies `file, `attempts, `mid, `next, block2
      ensures State() == C.Accept(old(State()), old(block2.State()))
    {
      file := file + pdu.payload;
      attempts := 0;
      if block2.more {
        block2.more := false;
        block2.number := (block2.number + 1) % 0x1_0000_0000;
        mid := (pdu.messageId + 1) % 0x1_0000;
        next := C.SendRequest;
      } else {
        next := C.Complete;
      }
    }
  }
}
