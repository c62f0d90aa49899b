/** What packet::parse makes of a buffer, as functions of its bytes (src/packet.cc:139-290). */
module Parsing {
  import opened Bytes
  import opened Messages
  import opened Encoding

  /** The delta or length that option_parser reads for a nibble whose extension starts at s[i + 1]. */
  function FieldValue(s: seq<byte>, i: nat, nibble: byte): u16
    requires i + ExtensionSize(nibble) < |s|
  {
    if nibble == 13 then s[i + 1] + 13
    else if nibble == 14 then (Join(s[i + 2], s[i + 1]) + 269) % 0x1_0000
    else nibble
  }

  /** One option header: delta, value length, and the index at which the value starts. */
  datatype Head = Head(delta: u16, length: u16, start: nat) | BadHead(error: ErrorCode)

  function ReadHead(s: seq<byte>, i: nat): (h: Head)
    requires i < |s|
    ensures h.Head? ==> i < h.start && h.start + h.length <= |s|
  {
    var deltaNibble, lengthNibble: byte := s[i] / 16, s[i] % 16;
    if deltaNibble == 15 || (deltaNibble == 14 && i + 2 > |s|) then BadHead(WrongOptionDelta)
    else if i + ExtensionSize(deltaNibble) >= |s| then BadHead(WrongOptionLength)
    else
      var j := i + ExtensionSize(deltaNibble);
      if lengthNibble == 15 || j + ExtensionSize(lengthNibble) >= |s| then BadHead(WrongOptionLength)
      else
        var length := FieldValue(s, j, lengthNibble);
        var start := j + ExtensionSize(lengthNibble) + 1;
        if start + length > |s| then BadHead(WrongOptionLength)
        else Head(FieldValue(s, i, deltaNibble), length, start)
  }

  /** The options pushed so far, and either the index where the loop ended or the error that ended it. */
  datatype OptionsResult =
    | Parsed(options: seq<CoapOption>, end: nat)
    | Failed(options: seq<CoapOption>, error: ErrorCode)
  {
    function Prepend(front: seq<CoapOption>): OptionsResult {
      this.(options := front + options)
    }
  }

  predicate AtEnd(b: Build, s: seq<byte>, i: nat) {
    i >= |s| || s[i] == b.Marker()
  }

  /** The loop of parse_options from index i on; blank is what opt.value holds on entry. */
  function ParseOptions(b: Build, s: seq<byte>, i: nat, number: u16, blank: seq<byte>): (r: OptionsResult)
    requires i <= |s|
    ensures r.Parsed? ==> i <= r.end <= |s| && AtEnd(b, s, r.end)
    decreases |s| - i
  {
    if AtEnd(b, s, i) then Parsed([], i)
    else
      match ReadHead(s, i)
      case BadHead(e) => Failed([], e)
      case Head(delta, length, start) =>
        var next := (number + delta) % 0x1_0000;
        ParseOptions(b, s, start + length, next, [])
          .Prepend([CoapOption(next, blank + s[start..start + length])])
  }

  /** parse_header. */
  function ParseHeader(m: Message, s: seq<byte>): (Outcome, Message) {
    if |s| < PACKET_HEADER_SIZE then (Rejected(WrongArgument), m)
    else if s[0] / 64 != COAP_VERSION then (Rejected(ProtocolVersion), m.(header := s[0]))
    else (Accepted, m.(header := s[0], code := s[1], messageId := Join(s[2], s[3])))
  }

  /** parse_token: the token is cleared before its length is looked at. */
  function ParseToken(m: Message, s: seq<byte>): (Outcome, Message) {
    var first := PACKET_HEADER_SIZE + m.TokenLength();
    if m.TokenLength() == 0 then (Accepted, m.(token := Zeros(TOKEN_MAX_LENGTH)))
    else if m.TokenLength() > TOKEN_MAX_LENGTH || |s| < first then
      (Rejected(ErrorCode.TokenLength), m.(token := Zeros(TOKEN_MAX_LENGTH)))
    else
      (Accepted, m.(token := s[PACKET_HEADER_SIZE..first] + Zeros(TOKEN_MAX_LENGTH - m.TokenLength())))
  }

  lemma TokenFits(m: Message, s: seq<byte>)
    requires ParseHeader(m, s).0.Accepted? && ParseToken(ParseHeader(m, s).1, s).0.Accepted?
    ensures PACKET_HEADER_SIZE + ParseToken(ParseHeader(m, s).1, s).1.TokenLength() <= |s|
  {
  }

  /** parse_payload after parse_options stopped at end; the payload is appended to what is there. */
  function ParsePayload(b: Build, m: Message, s: seq<byte>, end: nat): (Outcome, Message)
    requires end <= |s|
  {
    if end == |s| then (if b.AsWritten? then Aborted else Accepted, m)
    else (Accepted, m.(payload := m.payload + s[end + 1..]))
  }

  /** parse_options and parse_payload. */
  function ParseBody(b: Build, m: Message, s: seq<byte>): (Outcome, Message)
    requires PACKET_HEADER_SIZE + m.TokenLength() <= |s|
  {
    match ParseOptions(b, s, PACKET_HEADER_SIZE + m.TokenLength(), 0, b.Blank())
    case Failed(options, e) => (Rejected(e), m.(options := options))
    case Parsed(options, end) => ParsePayload(b, m.(options := options), s, end)
  }

  /** packet::parse on the bytes s, starting from a packet that holds m. */
  function Parse(b: Build, m: Message, s: seq<byte>): (Outcome, Message) {
    if s == [] then (Aborted, m)
    else
      var (o1, m1) := ParseHeader(m, s);
      if !o1.Accepted? then (o1, m1)
      else
        var (o2, m2) := ParseToken(m1, s);
        if !o2.Accepted? then (o2, m2) else ParseBody(b, m2, s)
  }

  /** One turn of the loop of parse_options. */
  lemma ParseTurn(b: Build, s: seq<byte>, i: nat, number: u16, blank: seq<byte>)
    requires i <= |s|
    ensures
      var r := ParseOptions(b, s, i, number, blank);
      if AtEnd(b, s, i) then r == Parsed([], i)
      else
      match ReadHead(s, i)
      case BadHead(e) => r == Failed([], e)
      case Head(delta, length, start) =>
        var o := CoapOption((number + delta) % 0x1_0000, blank + s[start..start + length]);
        var rest := ParseOptions(b, s, start + length, o.number, []);
        r == rest.Prepend([o]) && r.options[0] == o && r.options[1..] == rest.options
  {
    hide ReadHead, AtEnd;
  }

  lemma PrependTwice(r: OptionsResult, inner: seq<CoapOption>, outer: seq<CoapOption>)
    ensures r.Prepend(inner).Prepend(outer) == r.Prepend(outer + inner)
  {
    assert outer + (inner + r.options) == (outer + inner) + r.options;
  }

  // ---------- conservation: what parsing a buffer accounts for ----------

  /** Where each option starts, and at the end where the loop stops. */
  function Cuts(b: Build, s: seq<byte>, i: nat): (r: seq<nat>)
    requires i <= |s|
    ensures |r| > 0 && r[0] == i
    decreases |s| - i
  {
    if AtEnd(b, s, i) then [i]
    else
      match ReadHead(s, i)
      case BadHead(_) => [i]
      case Head(_, length, start) => [i] + Cuts(b, s, start + length)
  }

  /** s[from..to] is a header of one to five bytes, then the value that follows prefix in the option. */
  ghost predicate AccountsFor(s: seq<byte>, from: nat, to: nat, value: seq<byte>, prefix: seq<byte>) {
    && from < to <= |s|
    && |prefix| <= |value| < |prefix| + (to - from)
    && value == prefix + s[to - (|value| - |prefix|)..to]
    && to - from - (|value| - |prefix|) <= 5
  }

  /** The options are, in order, what stands between neighbouring cuts; only the first has a prefix. */
  ghost predicate Accounts(s: seq<byte>, cuts: seq<nat>, options: seq<CoapOption>, prefix: seq<byte>) {
    && |cuts| == |options| + 1
    && (options != [] ==>
          && AccountsFor(s, cuts[0], cuts[1], options[0].value, prefix)
          && Accounts(s, cuts[1..], options[1..], []))
  }

  /** One more option in front of what has been accounted for. */
  lemma AccountsTurn(s: seq<byte>, i: nat, cuts: seq<nat>, o: CoapOption, options: seq<CoapOption>, prefix: seq<byte>)
    requires |cuts| > 0 && AccountsFor(s, i, cuts[0], o.value, prefix) && Accounts(s, cuts, options, [])
    ensures Accounts(s, [i] + cuts, [o] + options, prefix)
  {
    var all, list := [i] + cuts, [o] + options;
    assert all[1..] == cuts && list[1..] == options;
    hide AccountsFor;
  }

  lemma CutsTurn(b: Build, s: seq<byte>, i: nat)
    requires i <= |s|
    ensures Cuts(b, s, i) == if AtEnd(b, s, i) || ReadHead(s, i).BadHead? then [i]
                             else [i] + Cuts(b, s, ReadHead(s, i).start + ReadHead(s, i).length)
  {
    hide ReadHead, AtEnd;
  }

  lemma HeadAccountsFor(s: seq<byte>, i: nat, blank: seq<byte>)
    requires i < |s| && ReadHead(s, i).Head?
    ensures var h := ReadHead(s, i);
            AccountsFor(s, i, h.start + h.length, blank + s[h.start..h.start + h.length], blank)
  {
    HeadSize(s, i);
    hide ReadHead;
  }

  /** ParseTurn where the loop goes on. */
  lemma HeadTurn(b: Build, s: seq<byte>, i: nat, number: u16, blank: seq<byte>) returns (o: CoapOption)
    requires i < |s| && !AtEnd(b, s, i) && ReadHead(s, i).Head?
    ensures
      var h := ReadHead(s, i);
      && ParseOptions(b, s, i, number, blank)
         == ParseOptions(b, s, h.start + h.length, o.number, []).Prepend([o])
      && o.value == blank + s[h.start..h.start + h.length]
  {
    hide ReadHead, ParseOptions, AtEnd;
    ParseTurn(b, s, i, number, blank);
    o := ParseOptions(b, s, i, number, blank).options[0];
  }

  /** Also where the loop fails: then the last cut is the header that cannot be read. */
  lemma {:induction false} OptionsPartition(b: Build, s: seq<byte>, i: nat, number: u16, blank: seq<byte>)
    requires i <= |s|
    ensures
      var r := ParseOptions(b, s, i, number, blank);
      var cuts := Cuts(b, s, i);
      var last := cuts[|cuts| - 1];
      && Accounts(s, cuts, r.options, blank)
      && match r
         case Parsed(_, end) => last == end
         case Failed(_, e) => last < |s| && !AtEnd(b, s, last) && ReadHead(s, last) == BadHead(e)
    decreases |s| - i
  {
    hide ReadHead, ParseOptions, Cuts, AccountsFor;
    CutsTurn(b, s, i);
    ParseTurn(b, s, i, number, blank);
    if !AtEnd(b, s, i) && ReadHead(s, i).Head? {
      hide Accounts;
      var o := HeadTurn(b, s, i, number, blank);
      var h := ReadHead(s, i);
      var to := h.start + h.length;
      OptionsPartition(b, s, to, o.number, []);
      HeadAccountsFor(s, i, blank);
      AccountsTurn(s, i, Cuts(b, s, to), o, ParseOptions(b, s, to, o.number, []).options, blank);
    }
  }

  lemma HeadSize(s: seq<byte>, i: nat)
    requires i < |s| && ReadHead(s, i).Head?
    ensures 1 <= ReadHead(s, i).start - i <= 5
  {
  }

  lemma PrefixReadsBack(s: seq<byte>, p: Message)
    requires p.WellFormed() && p.TokenLength() <= TOKEN_MAX_LENGTH
    requires PACKET_HEADER_SIZE + p.TokenLength() <= |s|
    requires p.header == s[0] && p.code == s[1] && p.messageId == Join(s[2], s[3])
    requires p.token[..p.TokenLength()] == s[PACKET_HEADER_SIZE..PACKET_HEADER_SIZE + p.TokenLength()]
    ensures EncodePrefix(p) == s[..PACKET_HEADER_SIZE + p.TokenLength()]
  {
    JoinParts(s[2], s[3]);
    hide Join;
  }

  lemma JoinParts(high: byte, low: byte)
    ensures Join(high, low) / 256 == high && Join(high, low) % 256 == low
  {
  }

  /** What parse_header and parse_token leave when both succeed. */
  ghost predicate PrefixParsed(m: Message, p: Message, s: seq<byte>) {
    var first := PACKET_HEADER_SIZE + p.TokenLength();
    && first <= |s| && p.TokenLength() <= TOKEN_MAX_LENGTH
    && p == Message(s[0], s[1], Join(s[2], s[3]),
                    s[PACKET_HEADER_SIZE..first] + Zeros(TOKEN_MAX_LENGTH - p.TokenLength()), m.options, m.payload)
    && p.Version() == COAP_VERSION
  }

  lemma ParseByParts(b: Build, m: Message, s: seq<byte>) returns (p: Message)
    requires Parse(b, m, s).0.Accepted?
    ensures PrefixParsed(m, p, s)
    ensures Parse(b, m, s) == ParseBody(b, p, s)
  {
    hide ParseBody, ParseOptions;
    p := ParseToken(ParseHeader(m, s).1, s).1;
    if p.TokenLength() == 0 {
      assert p.token == s[PACKET_HEADER_SIZE..PACKET_HEADER_SIZE] + Zeros(TOKEN_MAX_LENGTH);
    }
  }

  /** s is p's header and token, p's options, and then nothing, or the marker and p's payload. */
  ghost predicate Partitions(b: Build, s: seq<byte>, p: Message) {
    var first := PACKET_HEADER_SIZE + p.TokenLength();
    && p.WellFormed() && p.TokenLength() <= TOKEN_MAX_LENGTH && first <= |s|
    && s[..first] == EncodePrefix(p)
    && var cuts := Cuts(b, s, first);
       var end := cuts[|cuts| - 1];
       && Accounts(s, cuts, p.options, b.Blank())
       && end <= |s| && s[end..] == if end == |s| then p.payload else [b.Marker()] + p.payload
  }

  lemma PayloadParts(b: Build, p: Message, s: seq<byte>, end: nat)
    requires end <= |s| && (end < |s| ==> s[end] == b.Marker())
    requires p.payload == [] && ParsePayload(b, p, s, end).0.Accepted?
    ensures ParsePayload(b, p, s, end).1 == p.(payload := if end == |s| then [] else s[end + 1..])
    ensures end < |s| ==> s[end..] == [b.Marker()] + s[end + 1..]
  {
    if end < |s| {
      assert s[end..] == [s[end]] + s[end + 1..];
      assert [] + s[end + 1..] == s[end + 1..];
    }
  }

  lemma BodyParts(b: Build, p: Message, s: seq<byte>)
    requires PACKET_HEADER_SIZE + p.TokenLength() <= |s|
    requires p.payload == [] && ParseBody(b, p, s).0.Accepted?
    ensures
      var r := ParseOptions(b, s, PACKET_HEADER_SIZE + p.TokenLength(), 0, b.Blank());
      && r.Parsed?
      && ParseBody(b, p, s).1 == p.(options := r.options, payload := if r.end == |s| then [] else s[r.end + 1..])
      && (r.end < |s| ==> s[r.end..] == [b.Marker()] + s[r.end + 1..])
  {
    hide ParseOptions, ParsePayload;
    var r := ParseOptions(b, s, PACKET_HEADER_SIZE + p.TokenLength(), 0, b.Blank());
    PayloadParts(b, p.(options := r.options), s, r.end);
  }

  /** Every accepted buffer is used up exactly: no byte is dropped and none is read twice. */
  lemma ParsePartitionsBuffer(b: Build, m: Message, s: seq<byte>)
    requires m.payload == []
    requires Parse(b, m, s).0.Accepted?
    ensures Partitions(b, s, Parse(b, m, s).1)
  {
    hide Parse, ParseBody, ParseOptions, Accounts, Cuts;
    var p := ParseByParts(b, m, s);
    PrefixReadsBack(s, p);
    BodyParts(b, p, s);
    OptionsPartition(b, s, PACKET_HEADER_SIZE + p.TokenLength(), 0, b.Blank());
  }

  /** The 16-bit running sum of the deltas does not wrap. */
  ghost predicate SumFits(b: Build, s: seq<byte>, i: nat, number: u16)
    requires i <= |s|
    decreases |s| - i
  {
    AtEnd(b, s, i) ||
    match ReadHead(s, i)
    case BadHead(_) => true
    case Head(delta, length, start) =>
      number + delta < 0x1_0000 && SumFits(b, s, start + length, number + delta)
  }

  predicate Ascending(options: seq<CoapOption>, least: u16) {
    options == [] || (least <= options[0].number && Ascending(options[1..], options[0].number))
  }

  /** Option numbers never decrease if and only if the running sum does not wrap. */
  lemma {:induction false} NumbersAscend(b: Build, s: seq<byte>, i: nat, number: u16, blank: seq<byte>)
    requires i <= |s|
    ensures Ascending(ParseOptions(b, s, i, number, blank).options, number) <==> SumFits(b, s, i, number)
    decreases |s| - i
  {
    hide ReadHead, ParseOptions;
    ParseTurn(b, s, i, number, blank);
    if !AtEnd(b, s, i) && ReadHead(s, i).Head? {
      var h := ReadHead(s, i);
      NumbersAscend(b, s, h.start + h.length, (number + h.delta) % 0x1_0000, []);
    }
  }

  const WRAPPING: seq<byte> := [0xE0, 0xF2, 0xFE, 0x10]

  lemma WrappingHeads()
    ensures ReadHead(WRAPPING, 0) == Head(65535, 0, 3) && ReadHead(WRAPPING, 3) == Head(1, 0, 4)
  {
  }

  /** A buffer whose second option wraps: number 65535 is followed by number 0. */
  lemma WrappingBuffer()
    ensures ParseOptions(Intended, WRAPPING, 0, 0, []) == Parsed([CoapOption(65535, []), CoapOption(0, [])], 4)
  {
    hide ReadHead, ParseOptions;
    WrappingHeads();
    ParseTurn(Intended, WRAPPING, 0, 0, []);
    ParseTurn(Intended, WRAPPING, 3, 65535, []);
    ParseTurn(Intended, WRAPPING, 4, 0, []);
    assert WRAPPING[3..3] == [] && WRAPPING[4..4] == [];
  }

  // ---------- the same in the numbers of the standard ----------

  /** A delta or length nibble with its extension at s[j + 1], as the code reads it. */
  function Field(s: seq<byte>, j: nat, nibble: int): int
    requires nibble == 13 ==> j + 1 < |s|
    requires nibble == 14 ==> j + 2 < |s|
  {
    if nibble == 13 then 13 + s[j + 1]
    else if nibble == 14 then (269 + s[j + 1] + 256 * (s[j + 2] as int)) % 65536
    else nibble
  }

  function Extra(nibble: int): nat {
    if nibble == 13 then 1 else if nibble == 14 then 2 else 0
  }

  /** When an option header is read: no nibble is 15 and everything up to the end of the value is there. */
  predicate Readable(s: seq<byte>, i: nat)
    requires i < |s|
  {
    var d, n := s[i] as int / 16, s[i] as int % 16;
    && d != 15 && n != 15
    && i + 1 + Extra(d) + Extra(n) <= |s|
    && i + 1 + Extra(d) + Extra(n) + Field(s, i + Extra(d), n) <= |s|
  }

  lemma HeadExact(s: seq<byte>, i: nat)
    requires i < |s|
    ensures ReadHead(s, i).Head? <==> Readable(s, i)
    ensures Readable(s, i) ==>
              var d, n := s[i] as int / 16, s[i] as int % 16;
              ReadHead(s, i) == Head(Field(s, i, d), Field(s, i + Extra(d), n), i + 1 + Extra(d) + Extra(n))
    ensures !Readable(s, i) ==>
              ReadHead(s, i) == BadHead(if s[i] >= 0xF0 || (s[i] >= 0xE0 && i + 2 > |s|)
                                        then WrongOptionDelta else WrongOptionLength)
  {
    assert s[i] / 16 == 15 <==> s[i] >= 0xF0;
    assert s[i] / 16 == 14 <==> 0xE0 <= s[i] < 0xF0;
  }

  lemma HeaderExact(m: Message, s: seq<byte>)
    ensures
      var (outcome, p) := ParseHeader(m, s);
      if |s| < 4 then outcome == Rejected(WrongArgument) && p == m
      else if s[0] < 64 || 128 <= s[0] then outcome == Rejected(ProtocolVersion) && p == m.(header := s[0])
      else outcome == Accepted
           && p == m.(header := s[0], code := s[1], messageId := 256 * (s[2] as int) + s[3])
  {
    if |s| >= 4 {
      assert s[0] / 64 == 1 <==> 64 <= s[0] < 128;
    }
  }

  lemma TokenExact(m: Message, s: seq<byte>)
    requires |s| >= 4
    ensures
      var (outcome, p) := ParseToken(m, s);
      var n := m.header % 16;
      if n > 8 || |s| < 4 + n then outcome == Rejected(ErrorCode.TokenLength) && p == m.(token := Zeros(8))
      else outcome == Accepted && p == m.(token := s[4..4 + n] + Zeros(8 - n))
  {
    assert s[4..4] + Zeros(8) == Zeros(8);
  }

  lemma BodyExact(b: Build, m: Message, s: seq<byte>)
    requires 4 + m.header % 16 <= |s|
    ensures
      var (outcome, p) := ParseBody(b, m, s);
      match ParseOptions(b, s, 4 + m.header % 16, 0, b.Blank())
      case Failed(options, e) => outcome == Rejected(e) && p == m.(options := options)
      case Parsed(options, end) =>
        if end < |s| then outcome == Accepted && p == m.(options := options, payload := m.payload + s[end + 1..])
        else outcome == (if b.AsWritten? then Aborted else Accepted) && p == m.(options := options)
  {
    hide ParseOptions;
  }

  /** The header fields of a packet of version 1. */
  function HeaderOf(m: Message, s: seq<byte>): Message
    requires |s| >= 4
  {
    m.(header := s[0], code := s[1], messageId := 256 * (s[2] as int) + s[3])
  }

  /** What parse makes of a buffer, on success and on every error. */
  lemma ParseExact(b: Build, m: Message, s: seq<byte>)
    ensures
      var (outcome, p) := Parse(b, m, s);
      if s == [] then outcome == Aborted && p == m
      else if |s| < 4 then outcome == Rejected(WrongArgument) && p == m
      else if s[0] < 64 || 128 <= s[0] then outcome == Rejected(ProtocolVersion) && p == m.(header := s[0])
      else
        var n, h := s[0] % 16, HeaderOf(m, s);
        if n > 8 || |s| < 4 + n then
          outcome == Rejected(ErrorCode.TokenLength) && p == h.(token := Zeros(8))
        else
          var t := h.(token := s[4..4 + n] + Zeros(8 - n));
          match ParseOptions(b, s, 4 + n, 0, b.Blank())
          case Failed(options, e) => outcome == Rejected(e) && p == t.(options := options)
          case Parsed(options, end) =>
            if end < |s| then outcome == Accepted && p == t.(options := options, payload := m.payload + s[end + 1..])
            else outcome == (if b.AsWritten? then Aborted else Accepted) && p == t.(options := options)
  {
    hide ParseOptions, ParseHeader, ParseToken, ParseBody, Zeros;
    HeaderExact(m, s);
    if |s| >= 4 && 64 <= s[0] < 128 {
      var h := HeaderOf(m, s);
      TokenExact(h, s);
      var n := s[0] % 16;
      if n <= 8 && 4 + n <= |s| {
        BodyExact(b, h.(token := s[4..4 + n] + Zeros(8 - n)), s);
      }
    }
  }

  lemma TokenRefused(b: Build, m: Message, s: seq<byte>)
    requires |s| >= 4 && 64 <= s[0] < 128 && (s[0] % 16 > 8 || |s| < 4 + s[0] % 16)
    ensures Parse(b, m, s).0 == Rejected(ErrorCode.TokenLength)
  {
    ParseExact(b, m, s);
    hide Parse;
  }
}
