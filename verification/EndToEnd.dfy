/** What a peer that follows the standards reads out of the bytes of a request. */
module EndToEnd {
  import opened Bytes
  import opened Messages
  import opened OptionList
  import opened Encoding
  import opened Blockwise
  import opened Requests
  import P = Parsing
  import opened RoundTrip

  datatype Request = Request(id: u16, port: nat, path: Path, block: BlockState)

  function Values(options: seq<CoapOption>): (r: Path)
    ensures |r| == |options|
    ensures forall i :: 0 <= i < |options| ==> r[i] == options[i].value
  {
    seq(|options|, i requires 0 <= i < |options| => options[i].value)
  }

  /** An unsigned integer as section 3.2 of RFC 7252 writes it: high byte first, leading zeros ignored. */
  function UintValue(v: seq<byte>): nat {
    if v == [] then 0 else 256 * UintValue(v[..|v| - 1]) + v[|v| - 1]
  }

  lemma UintOfOne(a: byte)
    ensures UintValue([a]) == a
  {
    assert [a][..0] == [];
    assert UintValue([]) == 0;
  }

  lemma UintOfTwo(a: byte, c: byte)
    ensures UintValue([a, c]) == 256 * (a as int) + c
  {
    assert [a, c][..1] == [a];
    UintOfOne(a);
  }

  lemma UintOfThree(a: byte, c: byte, e: byte)
    ensures UintValue([a, c, e]) == 65536 * (a as int) + 256 * (c as int) + e
  {
    assert [a, c, e][..2] == [a, c];
    UintOfTwo(a, c);
  }

  lemma SizeOfExponent(k: nat)
    requires k < 8
    ensures SIZES[k] == 16 * Pow2(k)
  {
    assert Pow2(0) == 1 && Pow2(1) == 2 && Pow2(2) == 4 && Pow2(3) == 8;
    assert Pow2(4) == 16 && Pow2(5) == 32 && Pow2(6) == 64 && Pow2(7) == 128;
    hide Pow2;
  }

  lemma LastNibble(high: nat, last: byte)
    ensures (256 * high + last) / 16 == 16 * high + last / 16
    ensures (256 * high + last) % 8 == last % 8
    ensures (256 * high + last) / 8 % 2 == last / 8 % 2
  {
    var n := 256 * high + last;
    Quotient(n, 16, 16 * high + last / 16, last % 16);
    Quotient(n, 8, 32 * high + last / 8, last % 8);
    Quotient(32 * high + last / 8, 2, 16 * high + last / 8 / 2, last / 8 % 2);
  }

  lemma Quotient(n: nat, d: nat, q: nat, r: nat)
    requires d in {2, 8, 16} && n == d * q + r && r < d
    ensures n / d == q && n % d == r
  {
  }

  /** What stands in front of the last byte of a block option, as a number. */
  function Leading(v: seq<byte>): nat
    requires 1 <= |v| <= 3
  {
    if |v| == 1 then 0 else if |v| == 2 then v[0] as int else 256 * (v[0] as int) + v[1]
  }

  lemma UintByLast(v: seq<byte>)
    requires 1 <= |v| <= 3
    ensures UintValue(v) == 256 * Leading(v) + v[|v| - 1]
  {
    hide UintValue;
    if |v| == 1 {
      assert v == [v[0]];
      UintOfOne(v[0]);
    } else if |v| == 2 {
      assert v == [v[0], v[1]];
      UintOfTwo(v[0], v[1]);
    } else {
      assert v == [v[0], v[1], v[2]];
      UintOfThree(v[0], v[1], v[2]);
    }
  }

  lemma BlockByLast(v: seq<byte>)
    requires 1 <= |v| <= 3
    ensures
      var last, b := v[|v| - 1], DecodeBlock(v).value;
      b.number == 16 * Leading(v) + last / 16 && b.size == SIZES[last % 8] && (b.more <==> last / 8 % 2 == 1)
  {
  }

  /** The decoder reads NUM, M and SZX of section 2.2 of RFC 7959 out of one number of one to three bytes. */
  lemma BlockIsUint(v: seq<byte>)
    requires 1 <= |v| <= 3
    ensures
      var n, b := UintValue(v), DecodeBlock(v).value;
      b.number == n / 16 && b.size == 16 * Pow2(n % 8) && (b.more <==> n / 8 % 2 == 1)
  {
    hide UintValue, Pow2, DecodeBlock, Leading;
    UintByLast(v);
    BlockByLast(v);
    LastNibble(Leading(v), v[|v| - 1]);
    SizeOfExponent(v[|v| - 1] % 8);
  }

  /** Version 1, confirmable, GET, no payload, and no options but Uri-Port, the Uri-Paths and Block2. */
  predicate PlainGet(m: Message) {
    && m.header / 16 == 4 && m.code == 1 && m.payload == []
    && |Select(m.options, 7)| == 1 && |Select(m.options, 23)| == 1
    && |m.options| == |Select(m.options, 11)| + 2
  }

  /**
   A peer's reading: parse the packet, see that it is a plain GET, and scan for the port, for the
   Uri-Path values in order and for the block.  The numbers are those of the standards, and none of the
   client's lookup code is used.
   */
  function ReadRequest(d: seq<byte>): Option<Request> {
    var (outcome, m) := P.Parse(Intended, EMPTY_MESSAGE, d);
    if !outcome.Accepted? || !PlainGet(m) then None
    else
      match DecodeBlock(Select(m.options, 23)[0].value)
      case None => None
      case Some(s) =>
        Some(Request(m.messageId, UintValue(Select(m.options, 7)[0].value), Values(Select(m.options, 11)), s))
  }

  /** The header byte after set_message_version and set_message_type: only the token length survives. */
  function RequestHeader(header: byte): byte {
    WithType(WithVersion(header, COAP_VERSION), CONFIRMABLE)
  }

  /** set_header and make_request applied to a packet that holds pdu; its token is kept. */
  function RequestMessage(pdu: Message, id: u16, options: seq<CoapOption>): Message {
    Message(RequestHeader(pdu.header), GET, id, pdu.token, options, [])
  }

  lemma RequestHeaderParts(header: byte)
    ensures RequestHeader(header) / 64 == COAP_VERSION
    ensures RequestHeader(header) / 16 % 4 == CONFIRMABLE
    ensures RequestHeader(header) % 16 == header % 16
  {
    hide WithType, WithVersion;
    LowNibbleKept(header, WithVersion(header, COAP_VERSION));
  }

  // ---------- the option list survives ----------

  lemma {:induction false} PathFits(b: Build, path: Path, tail: seq<CoapOption>, p: u16)
    requires SegmentsFit(path) && p in {URI_PORT, URI_PATH}
    requires OptionsFit(tail, URI_PATH) && (path == [] ==> OptionsFit(tail, p))
    ensures OptionsFit(PathOptions(b, path) + tail, p)
  {
    if path == [] {
      assert PathOptions(b, path) + tail == tail;
    } else {
      var all := PathOptions(b, path) + tail;
      assert all[0] == CoapOption(URI_PATH, b.Blank() + path[0]) && |b.Blank()| <= 1;
      assert all[1..] == PathOptions(b, path[1..]) + tail;
      PathFits(b, path[1..], tail, URI_PATH);
    }
  }

  lemma RequestFits(b: Build, port: u16, path: Path, value: seq<byte>)
    requires SegmentsFit(path) && |value| <= 3
    ensures OptionsFit(RequestOptions(b, port, path, value), 0)
  {
    var tail := [BlockOption(b, value)];
    assert tail[1..] == [];
    assert OptionsFit(tail, URI_PATH) && OptionsFit(tail, URI_PORT);
    PathFits(b, path, tail, URI_PORT);
    var all := RequestOptions(b, port, path, value);
    assert all[1..] == PathOptions(b, path) + tail;
  }

  lemma {:induction false} SelectConcat(a: seq<CoapOption>, c: seq<CoapOption>, n: u16)
    ensures Select(a + c, n) == Select(a, n) + Select(c, n)
  {
    if c == [] {
      assert a + c == a;
    } else {
      var front, o := c[..|c| - 1], c[|c| - 1];
      assert c == front + [o] && a + c == (a + front) + [o];
      SelectConcat(a, front, n);
      SelectSnoc(a + front, o, n);
      SelectSnoc(front, o, n);
    }
  }

  lemma {:induction false} SelectPath(b: Build, path: Path, n: u16)
    ensures Select(PathOptions(b, path), n) == if n == URI_PATH then PathOptions(b, path) else []
  {
    if path != [] {
      var i := |path| - 1;
      SelectPath(b, path[..i], n);
      PathSnoc(b, path, i);
      assert path[..i + 1] == path;
      SelectSnoc(PathOptions(b, path[..i]), CoapOption(URI_PATH, b.Blank() + path[i]), n);
    }
  }

  lemma SelectSingle(o: CoapOption, n: u16)
    ensures Select([o], n) == if o.number == n then [o] else []
  {
    SelectSnoc([], o, n);
    assert [] + [o] == [o];
  }

  lemma SelectRequest(b: Build, port: u16, path: Path, value: seq<byte>, n: u16)
    ensures Select(RequestOptions(b, port, path, value), n)
         == (if n == 7 then [PortOption(b, port)] else [])
            + (if n == 11 then PathOptions(b, path) else [])
            + (if n == 23 then [BlockOption(b, value)] else [])
  {
    var port1, block1 := [PortOption(b, port)], [BlockOption(b, value)];
    assert port1[0].number == 7 && block1[0].number == 23;
    hide Select, PathOptions, PortOption, BlockOption;
    SelectConcat(port1 + PathOptions(b, path), block1, n);
    SelectConcat(port1, PathOptions(b, path), n);
    SelectSingle(port1[0], n);
    SelectSingle(block1[0], n);
    SelectPath(b, path, n);
  }

  lemma RequestSelects(b: Build, port: u16, path: Path, value: seq<byte>)
    ensures
      var options := RequestOptions(b, port, path, value);
      && Select(options, 7) == [PortOption(b, port)]
      && Select(options, 11) == PathOptions(b, path)
      && Select(options, 23) == [BlockOption(b, value)]
      && |options| == |path| + 2
  {
    assert |RequestOptions(b, port, path, value)| == |path| + 2;
    hide Select, RequestOptions, PathOptions, PortOption, BlockOption;
    SelectRequest(b, port, path, value, 7);
    SelectRequest(b, port, path, value, 11);
    SelectRequest(b, port, path, value, 23);
    assert [] + PathOptions(b, path) + [] == PathOptions(b, path);
  }

  /** The port's two bytes, with or without the zero in front, make up the port. */
  lemma PortReadsBack(b: Build, port: u16)
    ensures UintValue(PortOption(b, port).value) == port
  {
    var high, low := port / 256, port % 256;
    var v := PortOption(b, port).value;
    assert v[..|v| - 1] == b.Blank() + [high] && v[|v| - 1] == low;
    assert (b.Blank() + [high])[..|b.Blank()|] == b.Blank();
    assert b.AsWritten? ==> b.Blank()[..0] == [];
    assert UintValue([]) == 0;
    assert UintValue(b.Blank()) == 0;
    assert UintValue(b.Blank() + [high]) == high;
  }

  /** Without payload the two builds write the same bytes for the same message. */
  lemma RequestParsed(b: Build, pdu: Message, id: u16, options: seq<CoapOption>)
    requires pdu.WellFormed() && pdu.TokenLength() <= TOKEN_MAX_LENGTH && OptionsFit(options, 0)
    ensures
      var m := RequestMessage(pdu, id, options);
      && m.WellFormed() && m.TokenLength() <= TOKEN_MAX_LENGTH
      && P.Parse(Intended, EMPTY_MESSAGE, Encode(b, m)) == (Accepted, m.Visible())
  {
    hide RequestHeader, P.Parse, OptionsFit;
    RequestHeaderParts(pdu.header);
    var m := RequestMessage(pdu, id, options);
    assert Encode(b, m) == Encode(Intended, m);
    hide Encode;
    RoundTripExact(EMPTY_MESSAGE, m);
  }

  lemma ReadByParts(d: seq<byte>, m: Message, port: CoapOption, o: CoapOption)
    requires P.Parse(Intended, EMPTY_MESSAGE, d) == (Accepted, m)
    requires m.header / 16 == 4 && m.code == 1 && m.payload == []
    requires Select(m.options, 7) == [port] && Select(m.options, 23) == [o]
    requires |m.options| == |Select(m.options, 11)| + 2
    ensures ReadRequest(d) == match DecodeBlock(o.value)
                              case None => None
                              case Some(s) =>
                                Some(Request(m.messageId, UintValue(port.value), Values(Select(m.options, 11)), s))
  {
    hide P.Parse, Select, DecodeBlock, Values, UintValue;
  }

  lemma RequestRead(b: Build, pdu: Message, port: u16, path: Path, id: u16, value: seq<byte>)
    requires pdu.WellFormed() && pdu.TokenLength() <= TOKEN_MAX_LENGTH && SegmentsFit(path) && |value| <= 3
    ensures
      var m := RequestMessage(pdu, id, RequestOptions(b, port, path, value));
      && m.WellFormed() && m.TokenLength() <= TOKEN_MAX_LENGTH
      && ReadRequest(Encode(b, m)) == match DecodeBlock(BlockOption(b, value).value)
                                      case None => None
                                      case Some(s) => Some(Request(id, port, Values(PathOptions(b, path)), s))
  {
    hide Encode, RequestOptions, OptionsFit, Select, P.Parse, DecodeBlock, RequestHeader, PathOptions, BlockOption, PortOption, ReadRequest, UintValue;
    var options := RequestOptions(b, port, path, value);
    RequestFits(b, port, path, value);
    RequestSelects(b, port, path, value);
    RequestParsed(b, pdu, id, options);
    PortReadsBack(b, port);
    RequestHeaderParts(pdu.header);
    var m := RequestMessage(pdu, id, options);
    FirstNibble(m.header);
    ReadByParts(Encode(b, m), m.Visible(), PortOption(b, port), BlockOption(b, value));
  }

  lemma FirstNibble(header: byte)
    requires header / 64 == 1 && header / 16 % 4 == 0
    ensures header / 16 == 4
  {
  }

  /**
   The whole way from a client state to a peer: the message id, the port, the path segments in order
   and the block are read as they were meant, the number up to NumberOnWire.
   */
  lemma RequestMeaning(pdu: Message, port: u16, path: Path, id: u16, s: BlockState)
    requires pdu.WellFormed() && pdu.TokenLength() <= TOKEN_MAX_LENGTH
    requires SegmentsFit(path) && s.size in SIZES && s.number < BLOCK_NUMBERS
    ensures
      EncodeBlock(s).Some? &&
      var m := RequestMessage(pdu, id, RequestOptions(Intended, port, path, EncodeBlock(s).value));
      && m.WellFormed() && m.TokenLength() <= TOKEN_MAX_LENGTH
      && ReadRequest(Encode(Intended, m)) == Some(Request(id, port, path, s.(number := NumberOnWire(s.number))))
  {
    NumberReadsBack(s);
    hide EncodeBlock, DecodeBlock, Encode, RequestOptions, ReadRequest, RequestHeader, NumberOnWire;
    var value := EncodeBlock(s).value;
    RequestRead(Intended, pdu, port, path, id, value);
    PathValues(path);
    hide PathOptions, Values;
    assert BlockOption(Intended, value).value == value;
  }

  lemma PathValues(path: Path)
    ensures Values(PathOptions(Intended, path)) == path
    ensures Values(PathOptions(AsWritten, path)) == ZeroFirst(path)
  {
    forall i | 0 <= i < |path|
      ensures Values(PathOptions(Intended, path))[i] == path[i]
      ensures Values(PathOptions(AsWritten, path))[i] == ZeroFirst(path)[i]
    {
      assert PathOptions(Intended, path)[i] == CoapOption(URI_PATH, [] + path[i]);
      assert PathOptions(AsWritten, path)[i] == CoapOption(URI_PATH, [0] + path[i]);
    }
  }

  /** The end-to-end meaning is exact precisely where the block codec is. */
  lemma RequestMeaningExact(pdu: Message, port: u16, path: Path, id: u16, s: BlockState)
    requires pdu.WellFormed() && pdu.TokenLength() <= TOKEN_MAX_LENGTH
    requires SegmentsFit(path) && s.size in SIZES && s.number < BLOCK_NUMBERS
    ensures
      EncodeBlock(s).Some? &&
      var m := RequestMessage(pdu, id, RequestOptions(Intended, port, path, EncodeBlock(s).value));
      && m.WellFormed() && m.TokenLength() <= TOKEN_MAX_LENGTH
      && (ReadRequest(Encode(Intended, m)) == Some(Request(id, port, path, s))
          <==> s.number < 4096 || s.number % 0x11111 == 0)
  {
    hide EncodeBlock, Encode, RequestOptions, ReadRequest, RequestHeader;
    RequestMeaning(pdu, port, path, id, s);
    if s.number >= 4096 {
      RotationFixedPoints(s.number);
    }
    assert s.(number := s.number) == s;
  }

  function ZeroFirst(path: Path): (r: Path)
    ensures |r| == |path|
    ensures forall i :: 0 <= i < |path| ==> r[i] == [0] + path[i]
  {
    seq(|path|, i requires 0 <= i < |path| => [0] + path[i])
  }

  /**
   As written, every path segment reaches the peer with a zero byte in front, and the Block2 option,
   which has grown by two bytes, can be read only while its own encoding has one byte.
   */
  lemma RequestMeaningAsWritten(pdu: Message, port: u16, path: Path, id: u16, s: BlockState)
    requires pdu.WellFormed() && pdu.TokenLength() <= TOKEN_MAX_LENGTH
    requires SegmentsFit(path) && s.size in SIZES && s.number < BLOCK_NUMBERS
    ensures
      EncodeBlock(s).Some? &&
      var m := RequestMessage(pdu, id, RequestOptions(AsWritten, port, path, EncodeBlock(s).value));
      && m.WellFormed() && m.TokenLength() <= TOKEN_MAX_LENGTH
      && ReadRequest(Encode(AsWritten, m)) == if s.number < 16 then Some(Request(id, port, ZeroFirst(path), s)) else None
  {
    GrownBlock(s);
    hide EncodeBlock, DecodeBlock, Encode, RequestOptions, ReadRequest, RequestHeader, NumberOnWire;
    var value := EncodeBlock(s).value;
    RequestRead(AsWritten, pdu, port, path, id, value);
    PathValues(path);
  }

  lemma GrownBlock(s: BlockState)
    requires s.size in SIZES && s.number < BLOCK_NUMBERS
    ensures EncodeBlock(s).Some?
    ensures DecodeBlock(BlockOption(AsWritten, EncodeBlock(s).value).value) == if s.number < 16 then Some(s) else None
  {
    NumberReadsBack(s);
    hide EncodeBlock;
    var value := EncodeBlock(s).value;
    if s.number < 16 {
      assert [0] + ([0] + value) == [0, 0, value[0]];
      assert s.(number := s.number) == s;
    }
  }
}
