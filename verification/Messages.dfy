/**
 The message layout of include/packet.h.  An object of class packet is mutable (see
 Packet.dfy); the values below are what its fields hold at one moment.
 */
module Messages {
  import opened Bytes

  const COAP_VERSION: byte := 1
  const PACKET_HEADER_SIZE: nat := 4
  const TOKEN_MAX_LENGTH: nat := 8
  const OPTION_MAX_LENGTH: nat := 256
  const OPTION_MAX_NUMBER: nat := 60

  const CONFIRMABLE: byte := 0
  const ACKNOWLEDGEMENT: byte := 2

  const GET: byte := 1
  const CONTENT: byte := 69
  const NOT_FOUND: byte := 132

  const URI_PORT: u16 := 7
  const URI_PATH: u16 := 11
  const BLOCK_2: u16 := 23
  const BLOCK_1: u16 := 27

  /**
   Two readings of the same sources.

   AsWritten is what the C++ text says: the constructor's member initialiser payloadMarker()
   overrides the default 0xFF with zero, option_s starts with a value of one zero byte, a packet
   without payload fails an assertion, and find_options touches elements outside the vector.
   Intended repairs these four points and nothing else.
   */
  datatype Build = AsWritten | Intended {
    function Marker(): byte {
      if AsWritten? then 0 else 0xFF
    }

    /** The value every freshly constructed option_t starts with. */
    function Blank(): seq<byte> {
      if AsWritten? then [0] else []
    }
  }

  datatype ErrorCode =
    | WrongArgument | ProtocolVersion | TokenLength | WrongOptionDelta | WrongOptionLength
    | BufferLength | CreateBlockOption | CoapSerialize | CoapSend | CoapTimeout | CoapReceive
    | ReceivedPacket | UriNotFound | ServerCode | DecodeBlockOption | Unknown

  /** How a call ends: it reports success, it reports an error code, or an assertion stops the process. */
  datatype Outcome = Accepted | Rejected(error: ErrorCode) | Aborted

  datatype CoapOption = CoapOption(number: u16, value: seq<byte>)

  /** header is the union headerInfo: version in bits 6-7, type in bits 4-5, token length in bits 0-3. */
  datatype Message = Message(
    header: byte, code: byte, messageId: u16, token: seq<byte>, options: seq<CoapOption>, payload: seq<byte>)
  {
    predicate WellFormed() {
      |token| == TOKEN_MAX_LENGTH
    }

    function Version(): byte {
      header / 64
    }

    function Type(): byte {
      header / 16 % 4
    }

    function TokenLength(): byte {
      header % 16
    }

    /** The message as its own bytes can show it: token bytes past the token length are zero. */
    function Visible(): Message
      requires WellFormed() && TokenLength() <= TOKEN_MAX_LENGTH
    {
      this.(token := token[..TokenLength()] + Zeros(TOKEN_MAX_LENGTH - TokenLength()))
    }
  }

  function WithVersion(header: byte, version: byte): (r: byte)
    ensures r / 64 == version % 4 && r % 64 == header % 64
  {
    version % 4 * 64 + header % 64
  }

  function WithType(header: byte, kind: byte): (r: byte)
    ensures r / 64 == header / 64 && r / 16 % 4 == kind % 4 && r % 16 == header % 16
  {
    (header / 64 * 4 + kind % 4) * 16 + header % 16
  }

  function WithTokenLength(header: byte, length: byte): (r: byte)
    ensures r / 16 == header / 16 && r % 16 == length % 16
  {
    header / 16 * 16 + length % 16
  }

  lemma LowNibbleKept(h1: byte, h2: byte)
    requires h1 % 64 == h2 % 64
    ensures h1 % 16 == h2 % 16
  {
    var low := h1 % 64;
    assert h1 == 16 * (4 * (h1 / 64)) + low && h2 == 16 * (4 * (h2 / 64)) + low;
  }

  const EMPTY_MESSAGE: Message := Message(0, 0, 0, Zeros(TOKEN_MAX_LENGTH), [], [])
}
