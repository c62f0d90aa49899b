/** What packet::serialize writes, as functions of the message (src/packet.cc:355-489). */
module Encoding {
  import opened Bytes
  import opened Messages

  /** get_option_nibble. */
  function Nibble(value: u32): (n: byte)
    ensures n <= 14
  {
    if value < 13 then value
    else if value <= 268 then 13
    else if value <= 65804 then 14
    else 0
  }

  function ExtensionSize(nibble: byte): (n: nat)
    ensures n <= 2
  {
    if nibble == 13 then 1 else if nibble == 14 then 2 else 0
  }

  /** option_maker: low is the value cut to eight bits by the lambda's parameter type. */
  function Extension(nibble: byte, low: byte): (r: seq<byte>)
    ensures |r| == ExtensionSize(nibble)
  {
    if nibble == 13 then [(low - 13) % 256]
    else if nibble == 14 then [(low - 269) / 256 % 256, (low - 269) % 256]
    else []
  }

  /** opt.number - optNumDelta in 32 bits; optNumDelta holds only the low byte of the previous number. */
  function Delta(number: u16, previous: byte): u32 {
    (number - previous) % 0x1_0000_0000
  }

  function Length32(value: seq<byte>): u32 {
    |value| % 0x1_0000_0000
  }

  /** Everything of one option before its value. */
  function EncodeHead(o: CoapOption, previous: byte): (r: seq<byte>)
    ensures 1 <= |r| <= 5
  {
    var delta, length := Delta(o.number, previous), Length32(o.value);
    [Nibble(delta) * 16 + Nibble(length)]
    + Extension(Nibble(delta), delta % 256)
    + Extension(Nibble(length), length % 256)
  }

  function EncodeOption(o: CoapOption, previous: byte): seq<byte> {
    EncodeHead(o, previous) + o.value
  }

  function EncodeOptions(options: seq<CoapOption>, previous: byte): seq<byte> {
    if options == [] then []
    else EncodeOption(options[0], previous) + EncodeOptions(options[1..], options[0].number % 256)
  }

  function EncodeHeader(m: Message): (r: seq<byte>)
    ensures |r| == PACKET_HEADER_SIZE
  {
    [m.header, m.code, m.messageId / 256, m.messageId % 256]
  }

  function EncodePrefix(m: Message): (r: seq<byte>)
    requires m.WellFormed() && m.TokenLength() <= TOKEN_MAX_LENGTH
    ensures |r| == PACKET_HEADER_SIZE + m.TokenLength()
  {
    EncodeHeader(m) + m.token[..m.TokenLength()]
  }

  function EncodePayload(b: Build, payload: seq<byte>): seq<byte> {
    if payload == [] then [] else [b.Marker()] + payload
  }

  /** The bytes of one packet. */
  function Encode(b: Build, m: Message): seq<byte>
    requires m.WellFormed() && m.TokenLength() <= TOKEN_MAX_LENGTH
  {
    EncodePrefix(m) + EncodeOptions(m.options, 0) + EncodePayload(b, m.payload)
  }

  // ---------- sizes, counted without looking at the bytes ----------

  function FieldSize(value: u32): nat {
    if value < 13 then 0 else if value <= 268 then 1 else if value <= 65804 then 2 else 0
  }

  function OptionsSize(options: seq<CoapOption>, previous: byte): nat {
    if options == [] then 0
    else
      1 + FieldSize(Delta(options[0].number, previous)) + FieldSize(Length32(options[0].value))
      + |options[0].value| + OptionsSize(options[1..], options[0].number % 256)
  }

  function Size(m: Message): nat {
    PACKET_HEADER_SIZE + m.TokenLength() + OptionsSize(m.options, 0)
    + if m.payload == [] then 0 else 1 + |m.payload|
  }

  lemma {:induction false} OptionsSizeIsLength(options: seq<CoapOption>, previous: byte)
    ensures |EncodeOptions(options, previous)| == OptionsSize(options, previous)
  {
    if options != [] {
      OptionsSizeIsLength(options[1..], options[0].number % 256);
    }
  }

  lemma SizeIsLength(b: Build, m: Message)
    requires m.WellFormed() && m.TokenLength() <= TOKEN_MAX_LENGTH
    ensures |Encode(b, m)| == Size(m)
  {
    OptionsSizeIsLength(m.options, 0);
  }

  lemma EncodeOptionsHead(options: seq<CoapOption>, previous: byte)
    requires options != []
    ensures EncodeOptions(options, previous)
         == EncodeOption(options[0], previous) + EncodeOptions(options[1..], options[0].number % 256)
    ensures EncodeOptions(options[1..], options[0].number % 256) == [] <==> |options| == 1
  {
  }

  lemma OptionBytes(o: CoapOption, previous: byte)
    ensures |EncodeOption(o, previous)| == |EncodeHead(o, previous)| + |o.value|
  {
  }

  /** optNumDelta after the options have been written. */
  function LastNumber(options: seq<CoapOption>, previous: byte): byte {
    if options == [] then previous else options[|options| - 1].number % 256
  }

  lemma ConcatAssociates(a: seq<byte>, b: seq<byte>, c: seq<byte>)
    ensures (a + b) + c == a + (b + c)
  {
  }

  lemma {:induction false} EncodeOptionsConcat(a: seq<CoapOption>, c: seq<CoapOption>, previous: byte)
    ensures EncodeOptions(a + c, previous) == EncodeOptions(a, previous) + EncodeOptions(c, LastNumber(a, previous))
  {
    if a == [] {
      assert a + c == c;
    } else {
      hide EncodeOption, EncodeOptions;
      var next := a[0].number % 256;
      assert (a + c)[1..] == a[1..] + c;
      EncodeOptionsConcat(a[1..], c, next);
      EncodeOptionsHead(a, previous);
      EncodeOptionsHead(a + c, previous);
      ConcatAssociates(EncodeOption(a[0], previous), EncodeOptions(a[1..], next),
                       EncodeOptions(c, LastNumber(a, previous)));
    }
  }

  // ---------- what the writing run needs from the length it is given ----------

  /**
   The assertions of the writing run that are strict (offset < *length) hold for a buffer of the
   exact dry-run size only if something follows the last byte they guard.
   */
  predicate EndsWithData(m: Message) {
    m.payload != [] || (m.options != [] && m.options[|m.options| - 1].value != [])
  }

  predicate Writable(m: Message, length: nat) {
    Size(m) < length || (Size(m) == length && EndsWithData(m))
  }

  /** Where the options end in the buffer. */
  function OptionsEnd(m: Message): nat {
    PACKET_HEADER_SIZE + m.TokenLength() + |EncodeOptions(m.options, 0)|
  }

  /** The assertions that end in the loop over the options; behind them only the payload's room is checked. */
  predicate OptionsWritable(m: Message, length: nat) {
    && PACKET_HEADER_SIZE + m.TokenLength() < length
    && (OptionsEnd(m) < length ||
        (OptionsEnd(m) == length && m.options != [] && m.options[|m.options| - 1].value != []))
  }

  /** Writable, split into the checks that the writing run makes one after the other. */
  lemma WritableByChecks(m: Message, length: nat)
    requires PACKET_HEADER_SIZE + m.TokenLength() <= length
    ensures Writable(m, length) <==>
            OptionsWritable(m, length) && (m.payload == [] || OptionsEnd(m) + 1 + |m.payload| <= length)
  {
    hide EncodeOption;
    OptionsSizeIsLength(m.options, 0);
  }

  lemma SizeByParts(m: Message)
    ensures Size(m) == OptionsEnd(m) + if m.payload == [] then 0 else 1 + |m.payload|
  {
    hide EncodeOptions, OptionsSize;
    OptionsSizeIsLength(m.options, 0);
  }
}
