/** class packet: its methods change the fields of one message in place (src/packet.cc, include/packet.h). */
module PacketClass {
  import opened Bytes
  import opened Messages
  import opened OptionList
  import opened Encoding
  import P = Parsing

  /** Read buffer[i]; one index past the end reads an unspecified byte. */
  method Peek(buffer: array<byte>, i: nat) returns (v: byte)
    ensures i < buffer.Length ==> v == buffer[i]
  {
    if i < buffer.Length {
      v := buffer[i];
    } else {
      v := *;
    }
  }

  /**
   The lambda option_parser.  Its bounds checks are one too weak, so it may look at buffer[length];
   whatever it sees there, next == length then, and the caller rejects the option.
   */
  method OptionParser(buffer: array<byte>, length: nat, i: nat, parsing: byte) returns (good: bool, value: u16, next: nat)
    requires i <= length <= buffer.Length && parsing <= 15
    ensures good <==> i + ExtensionSize(parsing) <= length && parsing != 15
    ensures good ==> next == i + ExtensionSize(parsing)
    ensures good && next < length ==> value == P.FieldValue(buffer[..length], i, parsing)
  {
    hide Join;
    good, value, next := true, parsing, i;
    if parsing == 13 {
      if i + 1 > length {
        return false, value, i;
      }
      var low: int := Peek(buffer, i + 1);
      value := low + 13;
      next := i + 1;
    } else if parsing == 14 {
      if i + 2 > length {
        return false, value, i;
      }
      var low := Peek(buffer, i + 1);
      var high := Peek(buffer, i + 2);
      value := (Join(high, low) + 269) % 0x1_0000;
      next := i + 2;
    } else if parsing == 15 {
      good := false;
    }
  }

  /** The first half of the loop body of parse_options, up to the check of the value's length. */
  method ReadHead(buffer: array<byte>, length: nat, i: nat) returns (h: P.Head)
    requires i < length <= buffer.Length
    ensures h == P.ReadHead(buffer[..length], i)
  {
    var deltaNibble, lengthNibble: byte := buffer[i] / 16, buffer[i] % 16;
    var good, delta, next := OptionParser(buffer, length, i, deltaNibble);
    if !good {
      return P.BadHead(WrongOptionDelta);
    }
    var valueLength;
    good, valueLength, next := OptionParser(buffer, length, next, lengthNibble);
    if !good {
      return P.BadHead(WrongOptionLength);
    }
    next := next + 1;
    if next + valueLength > length {
      return P.BadHead(WrongOptionLength);
    }
    return P.Head(delta, valueLength, next);
  }

  /** The lambda option_maker, without the assertion that ends it. */
  method OptionMaker(buffer: array?<byte>, offset: nat, firstParsing: byte, secondParsing: byte, checkBufferSizeOnly: bool)
    returns (next: nat)
    requires !checkBufferSizeOnly ==> buffer != null && offset + ExtensionSize(firstParsing) <= buffer.Length
    modifies if checkBufferSizeOnly || buffer == null then {} else {buffer}
    ensures next == offset + ExtensionSize(firstParsing)
    ensures !checkBufferSizeOnly ==>
              buffer[..] == Splice(old(buffer[..]), offset, Extension(firstParsing, secondParsing))
  {
    next := offset;
    if firstParsing == 13 {
      if !checkBufferSizeOnly {
        PutByte(buffer, next, (secondParsing - 13) % 256);
      }
      next := next + 1;
    } else if firstParsing == 14 {
      if !checkBufferSizeOnly {
        var high, low: byte := (secondParsing - 269) / 256 % 256, (secondParsing - 269) % 256;
        PutByte(buffer, next, high);
        PutByte(buffer, next + 1, low);
        SpliceTwice(old(buffer[..]), offset, [high], [low]);
        assert [high] + [low] == [high, low];
      }
      next := next + 2;
    }
  }

  class Packet {
    const build: Build
    const token: array<byte>
    var headerInfo: byte
    var code: byte
    var messageId: u16
    var options: seq<CoapOption>
    var payloadOffset: nat
    var payload: seq<byte>
    var bitmap: Bitmap

    ghost predicate Valid() {
      token.Length == TOKEN_MAX_LENGTH
    }

    /** The message the fields hold. */
    function Msg(): (m: Message)
      reads this, token
      ensures Valid() ==> m.WellFormed()
    {
      Message(headerInfo, code, messageId, token[..], options, payload)
    }

    constructor (build: Build)
      ensures Valid() && fresh(token) && this.build == build
      ensures Msg() == EMPTY_MESSAGE && bitmap == EMPTY_BITMAP
    {
      this.build := build;
      token := new byte[TOKEN_MAX_LENGTH](_ => 0);
      headerInfo, code, messageId, options, payloadOffset, payload := 0, 0, 0, [], 0, [];
      bitmap := EMPTY_BITMAP;
    }

    method CleanOptions()
      modifies `options, `bitmap
      ensures options == [] && bitmap == EMPTY_BITMAP
    {
      options := [];
      bitmap := EMPTY_BITMAP;
    }

    // ---------- parse ----------

    method ParseHeader(buffer: array<byte>, length: nat) returns (outcome: Outcome)
      requires Valid() && length <= buffer.Length
      modifies this
      ensures (outcome, Msg()) == P.ParseHeader(old(Msg()), buffer[..length])
      ensures bitmap == old(bitmap)
    {
      if length < PACKET_HEADER_SIZE {
        return Rejected(WrongArgument);
      }
      headerInfo := buffer[0];
      if COAP_VERSION != headerInfo / 64 {
        return Rejected(ProtocolVersion);
      }
      code := buffer[1];
      messageId := Join(buffer[2], buffer[3]);
      return Accepted;
    }

    method ParseToken(buffer: array<byte>, length: nat) returns (outcome: Outcome)
      requires Valid() && length <= buffer.Length && buffer != token
      modifies token
      ensures (outcome, Msg()) == P.ParseToken(old(Msg()), buffer[..length])
    {
      var tokenLength: byte := headerInfo % 16;
      forall k | 0 <= k < TOKEN_MAX_LENGTH {
        token[k] := 0;
      }
      assert token[..] == Zeros(TOKEN_MAX_LENGTH);
      if tokenLength == 0 {
        return Accepted;
      }
      if tokenLength > TOKEN_MAX_LENGTH || length < PACKET_HEADER_SIZE + tokenLength {
        return Rejected(ErrorCode.TokenLength);
      }
      ghost var tail := token[tokenLength..];
      assert tail == Zeros(TOKEN_MAX_LENGTH - tokenLength);
      CopyInto(token, 0, buffer[PACKET_HEADER_SIZE..PACKET_HEADER_SIZE + tokenLength]);
      assert buffer[..length][PACKET_HEADER_SIZE..PACKET_HEADER_SIZE + tokenLength]
          == buffer[PACKET_HEADER_SIZE..PACKET_HEADER_SIZE + tokenLength];
      assert token[..] == buffer[PACKET_HEADER_SIZE..PACKET_HEADER_SIZE + tokenLength] + tail;
      return Accepted;
    }

    /**
     The parser's loop.  Its guard reads buffer[i] before it compares i with length.  The result is a
     function of the first length bytes alone, so what lies behind them never matters.
     */
    method ParseOptions(buffer: array<byte>, length: nat) returns (outcome: Outcome)
      requires Valid() && length <= buffer.Length
      requires PACKET_HEADER_SIZE + headerInfo % 16 <= length
      modifies `options, `bitmap, `payloadOffset
      ensures
        var r := P.ParseOptions(build, buffer[..length], PACKET_HEADER_SIZE + headerInfo % 16, 0, build.Blank());
        && options == r.options
        && outcome == (if r.Parsed? then Accepted else Rejected(r.error))
        && (r.Parsed? ==> payloadOffset == r.end + 1)
      ensures bitmap == EMPTY_BITMAP
    {
      hide P.ParseOptions, P.ReadHead;
      var i: nat := PACKET_HEADER_SIZE + headerInfo % 16;
      var optNumber: u16, value := 0, build.Blank();
      CleanOptions();
      ghost var s := buffer[..length];
      ghost var whole := P.ParseOptions(build, s, i, 0, value);
      while true
        invariant i <= length
        invariant bitmap == EMPTY_BITMAP
        invariant whole == P.ParseOptions(build, s, i, optNumber, value).Prepend(options)
        decreases length - i
      {
        P.ParseTurn(build, s, i, optNumber, value);
        ghost var blank := value;
        var guard := Peek(buffer, i);
        if guard == build.Marker() || i >= length {
          break;
        }
        var h := ReadHead(buffer, length, i);
        if h.BadHead? {
          return Rejected(h.error);
        }
        optNumber := (optNumber + h.delta) % 0x1_0000;
        value := PushBytes(value, buffer, h.start, h.length);
        assert buffer[h.start..h.start + h.length] == s[h.start..h.start + h.length] by {
          assert s == buffer[..][..length];
          SliceOfPrefix(buffer[..], length, h.start, h.start + h.length);
        }
        P.PrependTwice(P.ParseOptions(build, s, h.start + h.length, optNumber, []),
                       [CoapOption(optNumber, value)], options);
        options := options + [CoapOption(optNumber, value)];
        value := [];
        i := h.start + h.length;
      }
      payloadOffset := i + 1;
      return Accepted;
    }
  
    /** Without payload the assertion length >= payloadOffset fails as written. */
    method ParsePayload(buffer: array<byte>, length: nat) returns (outcome: Outcome)
      requires Valid() && length <= buffer.Length && 0 < payloadOffset <= length + 1
      modifies `payload
      ensures (outcome, Msg()) == P.ParsePayload(build, old(Msg()), buffer[..length], payloadOffset - 1)
    {
      if length < payloadOffset {
        return if build.AsWritten? then Aborted else Accepted;
      }
      payload := PushBytes(payload, buffer, payloadOffset, length - payloadOffset);
      assert buffer[..length][payloadOffset..] == buffer[payloadOffset..length];
      return Accepted;
    }

    /** assert(length != 0) opens the method. */
    method Parse(buffer: array<byte>, length: nat) returns (outcome: Outcome)
      requires Valid() && length <= buffer.Length && buffer != token
      modifies this, token
      ensures (outcome, Msg()) == P.Parse(build, old(Msg()), buffer[..length])
    {
      hide P.ParseHeader, P.ParseToken, P.ParsePayload, P.ParseOptions;
      ghost var s := buffer[..length];
      if length == 0 {
        return Aborted;
      }
      outcome := ParseHeader(buffer, length);
      if !outcome.Accepted? {
        return;
      }
      outcome := ParseToken(buffer, length);
      if !outcome.Accepted? {
        return;
      }
      P.TokenFits(old(Msg()), s);
      outcome := ParseOptions(buffer, length);
      if !outcome.Accepted? {
        return;
      }
      outcome := ParsePayload(buffer, length);
    }
  
    // ---------- the option list ----------

    /**
     find_options.  With build.AsWritten? every element that the code touches outside the vector ends
     the call with OutOfRange; otherwise the scans stop at the ends of the list.
     */
    method FindOptions(number: u16) returns (r: Lookup, quantity: nat)
      modifies `options
      ensures options == Sort(old(options))
      ensures r == Find(build, options, number)
      ensures !r.OutOfRange? ==> quantity == |Select(options, number)|
    {
      SortProperties(options);
      hide Sorted, Select, Sort, Probe, Occurs, Insert;
      quantity := 0;
      options := Sort(options);
      var min;
      r, min := Search(number);
      match r {
        case Found(mid) =>
          var outside;
          outside, quantity := CountRun(number, min, mid);
          if outside {
            r := OutOfRange;
          }
        case Missing =>
          OccursByCount(options, number);
          FindMissing(build, options, number);
        case OutOfRange =>
      }
    }

    /** The binary search of find_options; min is its lower bound when it stops. */
    method Search(number: u16) returns (r: Lookup, min: nat)
      requires Sorted(options)
      ensures r == if build.AsWritten? then Probe(options, number, 0, |options|)
                   else Probe(options, number, 0, |options| - 1)
      ensures build.Intended? ==> !r.OutOfRange?
      ensures r.Found? ==> min <= r.index && forall k :: 0 <= k < min ==> options[k].number < number
    {
      hide Sorted, Around, Occurs, AllBelow, Probe;
      var max: int := if build.AsWritten? then |options| else |options| - 1;
      min := 0;
      AroundStarts(options, number, max);
      ghost var whole := Probe(options, number, min, max);
      while min <= max
        invariant 0 <= min <= max + 1 && min <= |options| && max <= |options|
        invariant build.Intended? ==> max < |options|
        invariant Around(options, number, min, max)
        invariant whole == Probe(options, number, min, max)
        decreases max + 1 - min
      {
        ProbeTurn(options, number, min, max);
        var mid := (min + max) / 2;
        if mid == |options| {
          return OutOfRange, min;
        }
        AroundNarrows(options, number, min, max, mid);
        if options[mid].number < number {
          min := mid + 1;
        } else if options[mid].number > number {
          max := mid - 1;
        } else {
          AroundBelow(options, number, min, max);
          return Found(mid), min;
        }
      }
      ProbeTurn(options, number, min, max);
      return Missing, min;
    }

    /** The two inner loops: down to the first option of the run, then up to the one behind its last. */
    method CountRun(number: u16, min: nat, mid: nat) returns (outside: bool, quantity: nat)
      requires Sorted(options) && forall k :: 0 <= k < min && k < |options| ==> options[k].number < number
      requires min <= mid < |options| && options[mid].number == number
      ensures outside <==>
              build.AsWritten? && (options[0].number == number || options[|options| - 1].number == number)
      ensures !outside ==> quantity == |Select(options, number)|
    {
      hide Select;
      outside, quantity := false, 0;
      var index: int := mid;
      while index >= min
        invariant min <= index <= mid
        invariant forall k :: index <= k <= mid ==> options[k].number == number
        decreases index
      {
        index := index - 1;
        if index < 0 && build.AsWritten? {
          return true, 0;
        }
        if index < 0 || options[index].number != number {
          break;
        }
      }
      index := index + 1;
      ghost var lo := index;
      assert forall k :: 0 <= k < lo ==> options[k].number < number;
      while true
        invariant lo <= index < |options| && lo <= mid
        invariant quantity == index - lo
        invariant forall k :: lo <= k <= index ==> options[k].number == number
        decreases |options| - index
      {
        quantity := quantity + 1;
        index := index + 1;
        if index == |options| && build.AsWritten? {
          return true, quantity;
        }
        if index == |options| || options[index].number != number {
          break;
        }
      }
      assert forall k :: index <= k < |options| ==> options[k].number > number;
      SelectRun(options, number, lo, index);
    }

    method SetOptionBitmap(number: byte)
      requires number < 64
      modifies `bitmap
      ensures bitmap == old(bitmap).With(number)
    {
      if number > 31 {
        bitmap := bitmap.(high := SetBit(bitmap.high, number - 32));
      } else {
        bitmap := bitmap.(low := SetBit(bitmap.low, number));
      }
    }

    /** add_option asserts the two bounds in its precondition. */
    method AddOption(number: u16, value: seq<byte>)
      requires number <= OPTION_MAX_NUMBER && |value| <= OPTION_MAX_LENGTH
      modifies `options, `bitmap
      ensures Index(options, bitmap) == Apply(build, old(Index(options, bitmap)), Add(number, value))
    {
      var bytes := build.Blank();
      for i := 0 to |value|
        invariant bytes == build.Blank() + value[..i]
      {
        bytes := bytes + [value[i]];
      }
      assert value[..|value|] == value;
      options := options + [CoapOption(number, bytes)];
      options := Sort(options);
      SetOptionBitmap(number);
    }

    // ---------- requests ----------

    /** generate_token; the bytes that rand() yields are a parameter. */
    method GenerateToken(tokenLength: nat, random: seq<byte>)
      requires Valid() && tokenLength <= TOKEN_MAX_LENGTH && |random| == tokenLength
      modifies token, `headerInfo
      ensures Msg() == old(Msg()).(header := WithTokenLength(old(headerInfo), tokenLength),
                                   token := random + old(token[tokenLength..]))
    {
      CopyInto(token, 0, random);
      headerInfo := WithTokenLength(headerInfo, tokenLength);
    }

    /** make_request.  A token length of zero leaves the token and its length as they were. */
    method MakeRequest(messageType: byte, messageCode: byte, id: u16, tokenLength: nat, random: seq<byte>, body: seq<byte>)
      requires Valid() && tokenLength <= TOKEN_MAX_LENGTH && |random| == tokenLength
      modifies token, `headerInfo, `code, `messageId, `payload
      ensures
        var header := WithType(WithVersion(old(headerInfo), COAP_VERSION), messageType);
        Msg() == if tokenLength == 0 then
                   old(Msg()).(header := header, code := messageCode, messageId := id, payload := body)
                 else
                   old(Msg()).(header := WithTokenLength(header, tokenLength), code := messageCode, messageId := id,
                               token := random + old(token[tokenLength..]), payload := body)
    {
      hide WithVersion, WithType, WithTokenLength;
      headerInfo := WithVersion(headerInfo, COAP_VERSION);
      headerInfo := WithType(headerInfo, messageType);
      messageId := id;
      code := messageCode;
      if tokenLength > 0 {
        GenerateToken(tokenLength, random);
      }
      SetPayload(body);
    }

    method SetPayload(body: seq<byte>)
      modifies `payload
      ensures payload == body
    {
      payload := [];
      for i := 0 to |body|
        invariant payload == body[..i]
      {
        payload := payload + [body[i]];
      }
    }

    // ---------- serialize ----------

    /**
     One option.  The assertions that follow each header byte are strict, so the last of them asks
     for a byte beyond the header; the one behind the value is not.
     */
    method WriteOption(buffer: array?<byte>, length: nat, o: CoapOption, previous: byte, offset: nat, checkBufferSizeOnly: bool)
      returns (aborted: bool, next: nat)
      requires !checkBufferSizeOnly ==>
                 buffer != null && length <= buffer.Length && offset + |EncodeOption(o, previous)| <= buffer.Length
      modifies if checkBufferSizeOnly || buffer == null then {} else {buffer}
      ensures aborted <==> !checkBufferSizeOnly &&
                           (offset + |EncodeHead(o, previous)| >= length || offset + |EncodeOption(o, previous)| > length)
      ensures !aborted ==> next == offset + |EncodeOption(o, previous)|
      ensures !checkBufferSizeOnly && !aborted ==>
                buffer[..] == Splice(old(buffer[..]), offset, EncodeOption(o, previous))
    {
      hide Extension, Nibble, Delta, Length32, Splice;
      var optDelta, optLength := Delta(o.number, previous), Length32(o.value);
      var deltaNibble, lengthNibble := Nibble(optDelta), Nibble(optLength);
      ghost var x1, x2 := Extension(deltaNibble, optDelta % 256), Extension(lengthNibble, optLength % 256);
      ghost var header := [deltaNibble * 16 + lengthNibble];
      aborted, next := false, offset + 1;
      ghost var s := if checkBufferSizeOnly then [] else buffer[..];
      if !checkBufferSizeOnly {
        PutByte(buffer, offset, deltaNibble * 16 + lengthNibble);
        if next >= length {
          return true, next;
        }
      }
      next := OptionMaker(buffer, next, deltaNibble, optDelta % 256, checkBufferSizeOnly);
      if !checkBufferSizeOnly {
        SpliceTwice(s, offset, header, x1);
        if next >= length {
          return true, next;
        }
      }
      next := OptionMaker(buffer, next, lengthNibble, optLength % 256, checkBufferSizeOnly);
      if !checkBufferSizeOnly {
        SpliceTwice(s, offset, header + x1, x2);
        if next >= length {
          return true, next;
        }
        CopyInto(buffer, next, o.value);
        SpliceTwice(s, offset, header + x1 + x2, o.value);
      }
      next := next + |o.value|;
      if !checkBufferSizeOnly && next > length {
        return true, next;
      }
    }
  
    /**
     serialize.  A dry run only computes the length; the writing run fills the first Size bytes.
     Its first assertion is part of the precondition, and so is that the options fit into the memory
     behind buffer: memcpy runs before the assertion that follows it.
     */
    method Serialize(buffer: array?<byte>, length: nat, checkBufferSizeOnly: bool) returns (outcome: Outcome, written: nat)
      requires Valid()
      requires !checkBufferSizeOnly ==>
                 && buffer != null && buffer != token
                 && PACKET_HEADER_SIZE + headerInfo % 16 <= length <= buffer.Length
                 && (headerInfo % 16 <= TOKEN_MAX_LENGTH ==> OptionsEnd(Msg()) <= buffer.Length)
      modifies if checkBufferSizeOnly || buffer == null then {} else {buffer}
      ensures headerInfo % 16 > TOKEN_MAX_LENGTH ==> outcome == Rejected(ErrorCode.TokenLength) && written == length
      ensures headerInfo % 16 <= TOKEN_MAX_LENGTH && checkBufferSizeOnly ==> outcome.Accepted?
      ensures headerInfo % 16 <= TOKEN_MAX_LENGTH && !checkBufferSizeOnly ==>
                outcome == if !OptionsWritable(Msg(), length) then Aborted
                           else if Writable(Msg(), length) then Accepted else Rejected(BufferLength)
      ensures outcome.Accepted? ==> written == Size(Msg())
      ensures outcome.Accepted? && !checkBufferSizeOnly ==>
                && |Encode(build, Msg())| == written
                && buffer[..] == Splice(old(buffer[..]), 0, Encode(build, Msg()))
    {
      hide Splice, EncodeOptions, EncodePrefix, Writable, Size;
      ghost var m, s := Msg(), if checkBufferSizeOnly then [] else buffer[..];
      if headerInfo % 16 > TOKEN_MAX_LENGTH {
        if !checkBufferSizeOnly {
          WriteHeader(buffer);
        }
        return Rejected(ErrorCode.TokenLength), length;
      }
      if !checkBufferSizeOnly {
        WritableByChecks(m, length);
      }
      SizeByParts(m);
      var offset: nat := PACKET_HEADER_SIZE + headerInfo % 16;
      if !checkBufferSizeOnly {
        WritePrefix(buffer);
        if offset >= length {
          return Aborted, length;
        }
      }
      var aborted;
      aborted, offset := WriteOptions(buffer, length, offset, checkBufferSizeOnly);
      if aborted {
        return Aborted, length;
      }
      ghost var prefix, body := EncodePrefix(m), EncodeOptions(m.options, 0);
      if !checkBufferSizeOnly {
        SpliceTwice(s, 0, prefix, body);
      }
      if payload == [] {
        assert prefix + body + [] == prefix + body;
        return Accepted, offset;
      }
      if !checkBufferSizeOnly {
        if length < offset + 1 + |payload| {
          return Rejected(BufferLength), length;
        }
        WritePayload(buffer, offset);
        SpliceTwice(s, 0, prefix + body, [build.Marker()] + payload);
      }
      return Accepted, offset + 1 + |payload|;
    }

    method WriteHeader(buffer: array<byte>)
      requires PACKET_HEADER_SIZE <= buffer.Length && buffer != token
      modifies buffer
      ensures buffer[..] == Splice(old(buffer[..]), 0, EncodeHeader(Msg()))
    {
      buffer[0] := headerInfo;
      buffer[1] := code;
      buffer[2] := messageId / 256;
      buffer[3] := messageId % 256;
    }

    method WritePrefix(buffer: array<byte>)
      requires Valid() && headerInfo % 16 <= TOKEN_MAX_LENGTH && buffer != token
      requires PACKET_HEADER_SIZE + headerInfo % 16 <= buffer.Length
      modifies buffer
      ensures buffer[..] == Splice(old(buffer[..]), 0, EncodePrefix(Msg()))
    {
      hide Splice, EncodeHeader;
      WriteHeader(buffer);
      CopyInto(buffer, PACKET_HEADER_SIZE, token[..headerInfo % 16]);
      SpliceTwice(old(buffer[..]), 0, EncodeHeader(Msg()), token[..headerInfo % 16]);
    }

    method WritePayload(buffer: array<byte>, offset: nat)
      requires offset + 1 + |payload| <= buffer.Length
      modifies buffer
      ensures buffer[..] == Splice(old(buffer[..]), offset, [build.Marker()] + payload)
    {
      hide Splice;
      PutByte(buffer, offset, build.Marker());
      CopyInto(buffer, offset + 1, payload);
      SpliceTwice(old(buffer[..]), offset, [build.Marker()], payload);
    }

    /** The loop over the options. */
    method WriteOptions(buffer: array?<byte>, length: nat, start: nat, checkBufferSizeOnly: bool) returns (aborted: bool, offset: nat)
      requires !checkBufferSizeOnly ==>
                 && buffer != null && start < length <= buffer.Length
                 && start + |EncodeOptions(options, 0)| <= buffer.Length
      modifies if checkBufferSizeOnly || buffer == null then {} else {buffer}
      ensures aborted <==> !checkBufferSizeOnly &&
                           var end := start + |EncodeOptions(options, 0)|;
                           !(end < length || (end == length && options != [] && options[|options| - 1].value != []))
      ensures !aborted ==> offset == start + |EncodeOptions(options, 0)|
      ensures !checkBufferSizeOnly && !aborted ==>
                buffer[..] == Splice(old(buffer[..]), start, EncodeOptions(options, 0))
    {
      hide Splice, EncodeOption, EncodeHead;
      ghost var s := if checkBufferSizeOnly then [] else buffer[..];
      ghost var all := EncodeOptions(options, 0);
      ghost var done: seq<byte> := [];
      var optNumDelta: byte := 0;
      aborted, offset := false, start;
      if !checkBufferSizeOnly {
        SpliceNothing(s, start);
      }
      for k := 0 to |options|
        invariant offset == start + |done|
        invariant all == done + EncodeOptions(options[k..], optNumDelta)
        invariant !checkBufferSizeOnly ==> buffer[..] == Splice(s, start, done)
        invariant !checkBufferSizeOnly ==> offset <= length && (offset == length ==> k > 0 && options[k - 1].value != [])
        invariant !aborted
      {
        var o := options[k];
        EncodeOptionsHead(options[k..], optNumDelta);
        assert options[k..][1..] == options[k + 1..];
        ghost var rest := EncodeOptions(options[k + 1..], o.number % 256);
        OptionBytes(o, optNumDelta);
        aborted, offset := WriteOption(buffer, length, o, optNumDelta, offset, checkBufferSizeOnly);
        if aborted {
          if k == |options| - 1 {
            assert rest == [];
          }
          return;
        }
        if !checkBufferSizeOnly {
          SpliceTwice(s, start, done, EncodeOption(o, optNumDelta));
        }
        ConcatAssociates(done, EncodeOption(o, optNumDelta), rest);
        done := done + EncodeOption(o, optNumDelta);
        optNumDelta := o.number % 256;
      }
      assert all == done;
    }
  }
}
