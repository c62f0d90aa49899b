/**
 What the two constructors of include/packet.h do to the codec as the text stands: a payload marker
 of zero, and a first option value that starts with a zero byte.
 */
module AsWrittenCodec {
  import opened Bytes
  import opened Messages
  import opened Encoding
  import opened Parsing
  import opened RoundTrip

  // ---------- parse after serialize, both as written ----------

  predicate AllZero(value: seq<byte>) {
    forall k :: 0 <= k < |value| ==> value[k] == 0
  }

  /** The one option list that survives: the zero in front makes up for a length read back one too short. */
  predicate FreakOption(options: seq<CoapOption>) {
    |options| == 1 && options[0].number <= 268 && |options[0].value| == 525 && AllZero(options[0].value)
  }

  /**
   As written, a packet survives serialize and parse if and only if it has a payload and no options,
   or no payload and a single option of 525 zero bytes.
   */
  lemma AsWrittenRoundTripExact(m0: Message, m: Message)
    requires m.WellFormed() && m.TokenLength() <= TOKEN_MAX_LENGTH && m0.payload == []
    ensures Parse(AsWritten, m0, Encode(AsWritten, m)) == (Accepted, m.Visible())
            <==> m.Version() == COAP_VERSION &&
                 if m.options == [] then m.payload != [] else FreakOption(m.options) && m.payload == []
  {
    hide Encode, EncodePrefix, EncodeOptions, EncodePayload, Parse, ParseBody, At, FreakOption;
    var s := Encode(AsWritten, m);
    EncodeParts(AsWritten, m);
    PrefixReadBack(AsWritten, m0, m, s);
    var q := m.Visible().(options := m0.options, payload := m0.payload);
    BodyAsWritten(q, m.options, m.payload, s);
    assert m.Visible() == q.(options := m.options, payload := m.payload);
  }

  lemma BodyAsWritten(q: Message, options: seq<CoapOption>, payload: seq<byte>, s: seq<byte>)
    requires q.payload == []
    requires At(s, PACKET_HEADER_SIZE + q.TokenLength(), EncodeOptions(options, 0))
    requires
      var end := PACKET_HEADER_SIZE + q.TokenLength() + |EncodeOptions(options, 0)|;
      end <= |s| && s[end..] == EncodePayload(AsWritten, payload)
    ensures PACKET_HEADER_SIZE + q.TokenLength() <= |s|
    ensures ParseBody(AsWritten, q, s) == (Accepted, q.(options := options, payload := payload))
            <==> if options == [] then payload != [] else FreakOption(options) && payload == []
  {
    hide FreakOption, At, ParseBody, EncodePayload;
    var first := PACKET_HEADER_SIZE + q.TokenLength();
    AtBounds(s, first, EncodeOptions(options, 0));
    if options == [] {
      BareBody(q, payload, s);
    } else {
      hide EncodeOptions;
      FirstOptionRead(s, first, options);
      var r := ParseOptions(AsWritten, s, first, 0, [0]);
      hide ParseOptions;
      BodyByOptions(q, s, r);
      MarkerLengthens(payload);
      if FreakOption(options) {
        var end := first + |EncodeOptions(options, 0)|;
        assert r == Parsed(options, end - 1);
        assert s[r.end + 1..] == s[end..];
      }
    }
  }

  lemma MarkerLengthens(payload: seq<byte>)
    ensures EncodePayload(AsWritten, payload) == payload <==> payload == []
  {
    assert payload != [] ==> |EncodePayload(AsWritten, payload)| == |payload| + 1;
  }

  lemma BodyByOptions(q: Message, s: seq<byte>, r: OptionsResult)
    requires q.payload == [] && PACKET_HEADER_SIZE + q.TokenLength() <= |s|
    requires r == ParseOptions(AsWritten, s, PACKET_HEADER_SIZE + q.TokenLength(), 0, [0])
    ensures r.Parsed? ==> r.end <= |s|
    ensures ParseBody(AsWritten, q, s).0.Accepted? <==> r.Parsed? && r.end < |s|
    ensures ParseBody(AsWritten, q, s).1.options == r.options
    ensures r.Parsed? && r.end < |s| ==>
              ParseBody(AsWritten, q, s).1 == q.(options := r.options, payload := s[r.end + 1..])
  {
    hide ParseOptions;
    if r.Parsed? && r.end < |s| {
      assert [] + s[r.end + 1..] == s[r.end + 1..];
    }
  }

  lemma BareBody(q: Message, payload: seq<byte>, s: seq<byte>)
    requires q.payload == [] && PACKET_HEADER_SIZE + q.TokenLength() <= |s|
    requires s[PACKET_HEADER_SIZE + q.TokenLength()..] == EncodePayload(AsWritten, payload)
    ensures ParseBody(AsWritten, q, s) == (Accepted, q.(options := [], payload := payload)) <==> payload != []
  {
    var first := PACKET_HEADER_SIZE + q.TokenLength();
    ParseTurn(AsWritten, s, first, 0, [0]);
    if payload != [] {
      assert s[first] == s[first..][0] == 0;
      assert s[first + 1..] == s[first..][1..] == payload;
    }
    BodyByOptions(q, s, ParseOptions(AsWritten, s, first, 0, [0]));
    hide ParseOptions, ParseBody;
  }

  /** The only length that is read back as one less. */
  lemma OneShort(value: seq<byte>)
    ensures ReadBack(Length32(value)) + 1 == |value| <==> |value| == 525
  {
    hide ReadBack;
    var n := Length32(value);
    ReadBackExact(n);
    if 269 <= n <= 65804 {
      LongReadBack(n);
      LongOneShort(n / 256, n % 256);
    }
  }

  lemma LongOneShort(high: nat, low: byte)
    requires 269 <= 256 * high + low
    ensures (if low < 13 then (62731 + 256 * low) % 0x1_0000 else 256 * low - 2804) + 1 == 256 * high + low
            <==> high == 2 && low == 13
  {
    if low < 13 {
      assert (62731 + 256 * low) % 0x1_0000 == if low < 11 then 62731 + 256 * low else 256 * low - 2805;
    }
  }

  /** A sequence that starts with zero and is its own shift has only zeros. */
  lemma ShiftedIsZero(value: seq<byte>)
    requires value != []
    ensures value == [0] + value[..|value| - 1] <==> AllZero(value)
  {
    if value == [0] + value[..|value| - 1] {
      var k := 0;
      while k < |value|
        invariant k <= |value| && AllZero(value[..k])
      {
        assert value[k] == ([0] + value[..|value| - 1])[k];
        if k > 0 {
          assert value[k - 1] == value[..k][k - 1];
        }
        k := k + 1;
      }
      assert value[..k] == value;
    }
  }

  /** What the parser as written makes of the first option that stands in the buffer. */
  lemma FirstOptionRead(s: seq<byte>, first: nat, options: seq<CoapOption>)
    requires options != [] && At(s, first, EncodeOptions(options, 0))
    ensures first <= |s|
    ensures
      var r := ParseOptions(AsWritten, s, first, 0, [0]);
      if FreakOption(options) then r == Parsed(options, first + |EncodeOptions(options, 0)| - 1)
      else r.options != options
  {
    hide EncodeHead, ReadHead, At, ParseOptions, AllZero, ReadBack, Delta, Length32;
    var o := options[0];
    var head, n := EncodeHead(o, 0), |o.value|;
    EncodeOptionsHead(options, 0);
    AtConcat(s, first, EncodeOption(o, 0), EncodeOptions(options[1..], o.number % 256));
    AtConcat(s, first, head, o.value);
    AtBounds(s, first, head);
    AtBounds(s, first + |head|, o.value);
    HeadReadsBack(s, first, o, 0);
    OneShort(o.value);
    DeltaReadsBack(0, o.number);
    ParseTurn(AsWritten, s, first, 0, [0]);
    var r, start := ParseOptions(AsWritten, s, first, 0, [0]), first + |head|;
    if n == 525 && o.number <= 268 {
      ValueStandsAt(s, start, o.value);
      ShiftedIsZero(o.value);
      HeadOfLong(s, first, o);
      ParseTurn(AsWritten, s, start + 524, o.number, []);
      assert AllZero(o.value) ==> r.options == [o];
    }
  }

  lemma ValueStandsAt(s: seq<byte>, start: nat, value: seq<byte>)
    requires At(s, start, value) && value != []
    ensures s[start..start + |value| - 1] == value[..|value| - 1]
    ensures AllZero(value) ==> s[start + |value| - 1] == 0
  {
    var v := s[start..start + |value|];
    assert v == value && v[..|value| - 1] == s[start..start + |value| - 1];
    assert v[|value| - 1] == s[start + |value| - 1];
  }

  lemma HeadOfLong(s: seq<byte>, i: nat, o: CoapOption)
    requires At(s, i, EncodeHead(o, 0)) && |o.value| == 525
    ensures i < |s| && s[i] != 0
  {
    var head := EncodeHead(o, 0);
    assert s[i] == s[i..i + |head|][0] == head[0];
    assert Length32(o.value) == 525 && Nibble(525) == 14;
    assert head[0] == Nibble(Delta(o.number, 0)) * 16 + 14;
  }

  lemma AtBounds(s: seq<byte>, i: nat, part: seq<byte>)
    requires At(s, i, part)
    ensures i + |part| <= |s|
  {
  }

  // ---------- parse as written after a serialize that follows the standard ----------

  /** An option that repeats its predecessor's number with an empty value: its header byte is zero. */
  predicate HasZeroHead(o: CoapOption, p: u16) {
    o.number == p && o.value == []
  }

  /** The index of the first such option, or the length of the list. */
  function ZeroHead(options: seq<CoapOption>, p: u16): (k: nat)
    ensures k <= |options|
  {
    if options == [] || HasZeroHead(options[0], p) then 0 else 1 + ZeroHead(options[1..], options[0].number)
  }

  /** The options as the loop stores them that starts with blank in its first value. */
  function Grow(blank: seq<byte>, options: seq<CoapOption>): seq<CoapOption> {
    if options == [] then [] else [options[0].(value := blank + options[0].value)] + options[1..]
  }

  lemma GrowNothing(options: seq<CoapOption>)
    ensures Grow([], options) == options
  {
    assert options != [] ==> [] + options[0].value == options[0].value;
  }

  lemma HeadByte(s: seq<byte>, i: nat, o: CoapOption, p: u16)
    requires At(s, i, EncodeOption(o, p % 256)) && NumberFits(p, o.number) && |o.value| <= 268
    ensures i < |s| && (s[i] == 0 <==> HasZeroHead(o, p))
  {
    var head := EncodeHead(o, p % 256);
    AtConcat(s, i, head, o.value);
    assert s[i] == s[i..i + |head|][0] == head[0];
    if p >= 512 {
      assert p == p / 256 * 256 + p % 256;
    }
  }

  /** The marker is taken for a header with the reserved delta 15. */
  lemma MarkerMisread(s: seq<byte>, i: nat)
    requires i < |s|
    ensures s[i] == 0xFF ==> !AtEnd(AsWritten, s, i) && ReadHead(s, i) == BadHead(WrongOptionDelta)
  {
  }

  /** Away from the marker the loop as written takes the same turns as the repaired one. */
  lemma StandardTurn(s: seq<byte>, i: nat, o: CoapOption, p: u16, blank: seq<byte>)
    requires At(s, i, EncodeOption(o, p % 256))
    requires NumberFits(p, o.number) && |o.value| <= 268 && !HasZeroHead(o, p)
    ensures i + |EncodeOption(o, p % 256)| <= |s|
    ensures ParseOptions(AsWritten, s, i, p, blank)
         == ParseOptions(AsWritten, s, i + |EncodeOption(o, p % 256)|, o.number, [])
              .Prepend([o.(value := blank + o.value)])
  {
    hide ParseOptions, EncodeOption, At, NumberFits, ReadHead;
    AtBounds(s, i, EncodeOption(o, p % 256));
    HeadByte(s, i, o, p);
    OptionReadsBack(s, i, o, p);
    ParseTurn(AsWritten, s, i, p, blank);
  }

  /** Where the standard options end the loop as written ends too, or fails at the marker. */
  predicate MisreadAt(s: seq<byte>, end: nat, r: OptionsResult) {
    if end == |s| then r.Parsed? && r.end == |s| else r.Failed? && r.error == WrongOptionDelta
  }

  lemma MisreadStays(s: seq<byte>, end: nat, r: OptionsResult, front: seq<CoapOption>)
    requires MisreadAt(s, end, r)
    ensures MisreadAt(s, end, r.Prepend(front))
  {
  }

  /** The loop as written stops at the first zero header, if there is one, and takes it for the marker. */
  ghost predicate StopsAtZeroHead(s: seq<byte>, i: nat, options: seq<CoapOption>, p: u16, blank: seq<byte>, r: OptionsResult) {
    var k := ZeroHead(options, p);
    if k == |options| then MisreadAt(s, i + |EncodeOptions(options, p % 256)|, r)
    else r == Parsed(Grow(blank, options[..k]), i + |EncodeOptions(options[..k], p % 256)|)
  }

  lemma StopsLater(s: seq<byte>, i: nat, options: seq<CoapOption>, p: u16, blank: seq<byte>, r: OptionsResult)
    requires options != [] && !HasZeroHead(options[0], p)
    requires StopsAtZeroHead(s, i + |EncodeOption(options[0], p % 256)|, options[1..], options[0].number, [], r)
    ensures StopsAtZeroHead(s, i, options, p, blank, r.Prepend([options[0].(value := blank + options[0].value)]))
  {
    hide EncodeOption, EncodeOptions, MisreadAt;
    var o, k := options[0], ZeroHead(options[1..], options[0].number);
    EncodeOptionsHead(options, p % 256);
    if k == |options[1..]| {
      MisreadStays(s, i + |EncodeOptions(options, p % 256)|, r, [o.(value := blank + o.value)]);
    } else {
      var before := options[..k + 1];
      assert before[0] == o && before[1..] == options[1..][..k];
      EncodeOptionsHead(before, p % 256);
      GrowNothing(before[1..]);
      hide ZeroHead, HasZeroHead;
    }
  }

  lemma {:induction false} StandardOptionsRead(s: seq<byte>, i: nat, options: seq<CoapOption>, p: u16, blank: seq<byte>)
    requires At(s, i, EncodeOptions(options, p % 256))
    requires
      var end := i + |EncodeOptions(options, p % 256)|;
      end <= |s| && (end == |s| || s[end] == 0xFF)
    requires OptionsFit(options, p)
    ensures StopsAtZeroHead(s, i, options, p, blank, ParseOptions(AsWritten, s, i, p, blank))
    decreases |options|
  {
    hide ParseOptions, EncodeOption, At, NumberFits, ReadHead;
    if options == [] {
      if i < |s| {
        MarkerMisread(s, i);
      }
      ParseTurn(AsWritten, s, i, p, blank);
    } else {
      var o := options[0];
      var first, rest := EncodeOption(o, p % 256), EncodeOptions(options[1..], o.number % 256);
      EncodeOptionsHead(options, p % 256);
      AtConcat(s, i, first, rest);
      if HasZeroHead(o, p) {
        HeadByte(s, i, o, p);
        ParseTurn(AsWritten, s, i, p, blank);
        assert options[..0] == [] && ZeroHead(options, p) == 0;
      } else {
        hide EncodeOptions, StopsAtZeroHead, HasZeroHead;
        StandardTurn(s, i, o, p, blank);
        StandardOptionsRead(s, i + |first|, options[1..], o.number, []);
        StopsLater(s, i, options, p, blank, ParseOptions(AsWritten, s, i + |first|, o.number, []));
      }
    }
  }

  /** What follows the header byte of option k, and is taken for the payload when that byte is zero. */
  function Tail(m: Message, k: nat): seq<byte>
    requires k < |m.options|
  {
    EncodeOptions(m.options[k..], LastNumber(m.options[..k], 0))[1..] + EncodePayload(Intended, m.payload)
  }

  /** What parse as written makes of the bytes of m. */
  function MisreadMessage(m0: Message, m: Message): (Outcome, Message)
    requires m.WellFormed() && m.TokenLength() <= TOKEN_MAX_LENGTH
    requires ZeroHead(m.options, 0) < |m.options|
  {
    var k := ZeroHead(m.options, 0);
    (Accepted, m.Visible().(options := Grow([0], m.options[..k]), payload := m0.payload + Tail(m, k)))
  }

  /**
   What the code as written does with a packet that was written with the marker 0xFF.  It accepts the
   packet if and only if some option header is zero: then it takes that byte for the marker, drops the
   option and all behind it, and appends their bytes to the payload.  In any other packet the marker is
   an option header with the reserved delta 15, or the missing payload fails the assertion.
   */
  lemma StandardPacketAcceptedExact(m0: Message, m: Message)
    requires m.WellFormed() && m.TokenLength() <= TOKEN_MAX_LENGTH && m.Version() == COAP_VERSION
    requires OptionsFit(m.options, 0)
    ensures
      var r := Parse(AsWritten, m0, Encode(Intended, m));
      && (r.0.Accepted? <==> ZeroHead(m.options, 0) < |m.options|)
      && (ZeroHead(m.options, 0) < |m.options| ==> r == MisreadMessage(m0, m))
      && (ZeroHead(m.options, 0) == |m.options| ==>
            r.0 == if m.payload == [] then Aborted else Rejected(WrongOptionDelta))
  {
    hide Encode, EncodePrefix, EncodeOptions, EncodePayload, Parse, At, ParseOptions, OptionsFit, ZeroHead, Grow;
    var s := Encode(Intended, m);
    EncodeParts(Intended, m);
    PrefixReadBack(AsWritten, m0, m, s);
    var first := PACKET_HEADER_SIZE + m.TokenLength();
    var end := first + |EncodeOptions(m.options, 0)|;
    MarkerStandsAt(m.payload, s, end);
    StandardOptionsRead(s, first, m.options, 0, [0]);
    if ZeroHead(m.options, 0) < |m.options| {
      TailStandsAt(m, s);
    }
  }

  lemma MarkerStandsAt(payload: seq<byte>, s: seq<byte>, end: nat)
    requires end <= |s| && s[end..] == EncodePayload(Intended, payload)
    ensures if payload == [] then end == |s| else end < |s| && s[end] == 0xFF
  {
    assert payload != [] ==> s[end] == s[end..][0];
  }

  lemma TailStandsAt(m: Message, s: seq<byte>)
    requires m.WellFormed() && m.TokenLength() <= TOKEN_MAX_LENGTH && s == Encode(Intended, m)
    requires ZeroHead(m.options, 0) < |m.options|
    ensures
      var k := ZeroHead(m.options, 0);
      var end := PACKET_HEADER_SIZE + m.TokenLength() + |EncodeOptions(m.options[..k], 0)|;
      end < |s| && s[end + 1..] == Tail(m, k)
  {
    hide EncodePrefix, EncodePayload, EncodeOption, ZeroHead;
    var k := ZeroHead(m.options, 0);
    var before, behind := m.options[..k], m.options[k..];
    assert m.options == before + behind;
    EncodeOptionsConcat(before, behind, 0);
    EncodeOptionsHead(behind, LastNumber(before, 0));
    OptionBytes(behind[0], LastNumber(before, 0));
    hide EncodeOptions;
    var b := EncodeOptions(behind, LastNumber(before, 0));
    assert s == (EncodePrefix(m) + EncodeOptions(before, 0)) + (b + EncodePayload(Intended, m.payload));
    assert (b + EncodePayload(Intended, m.payload))[1..] == Tail(m, k);
  }
}
