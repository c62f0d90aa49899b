/** serialize and parse are inverse to each other on exactly the messages and buffers named here. */
module RoundTrip {
  import opened Bytes
  import opened Messages
  import opened Encoding
  import opened Parsing

  // ---------- one delta or length ----------

  /** What option_parser reads back for a value that option_maker wrote. */
  function ReadBack(value: u32): u16 {
    var nibble := Nibble(value);
    var extension := Extension(nibble, value % 256);
    if nibble == 13 then extension[0] + 13
    else if nibble == 14 then (Join(extension[1], extension[0]) + 269) % 0x1_0000
    else nibble
  }

  lemma OneByteBack(value: u32)
    requires 13 <= value <= 268
    ensures (value % 256 - 13) % 256 + 13 == value
  {
  }

  lemma TwoBytesBack(low: byte)
    ensures (low - 269) / 256 % 256 == if low < 13 then 254 else 255
    ensures (low - 269) % 256 == if low < 13 then low + 243 else low - 13
  {
  }

  lemma LongReadBack(value: u32)
    requires 269 <= value <= 65804
    ensures ReadBack(value) == (if value % 256 < 13 then (62731 + 256 * (value % 256)) % 0x1_0000
                                else 256 * (value % 256) - 2804)
  {
    TwoBytesBack(value % 256);
  }

  /**
   Values up to 268 are read back.  The two-byte extension never is: the writer has cut the value to
   eight bits and the reader takes the bytes in the opposite order, so the result ends in 11 or 12.
   */
  lemma ReadBackExact(value: u32)
    ensures ReadBack(value) == value <==> value <= 268
    ensures 269 <= value <= 65804 ==>
              && ReadBack(value) % 256 == (if value % 256 < 13 then 11 else 12)
              && (value % 256 == 11 ==> ReadBack(value) == 11)
    ensures 65804 < value ==> ReadBack(value) == 0
  {
    if value <= 268 {
      if 13 <= value {
        OneByteBack(value);
      }
    } else if value <= 65804 {
      LongReadBack(value);
      LongResidue(value % 256);
    }
  }

  lemma LongResidue(low: byte)
    ensures low < 13 ==> (62731 + 256 * low) % 0x1_0000 % 256 == 11
    ensures low >= 13 ==> (256 * low - 2804) % 256 == 12
    ensures low == 11 ==> (62731 + 256 * low) % 0x1_0000 == 11
  {
    if low < 13 {
      assert (62731 + 256 * low) % 0x1_0000 == if low < 11 then 62731 + 256 * low else 256 * low - 2805;
    }
  }

  /**
   When a number survives after a predecessor p: either both stay in the range the code handles, or
   p is above 511 and the number is p + 11, where the truncated optNumDelta and the byte order cancel.
   */
  predicate NumberFits(p: u16, n: u16) {
    (p <= 255 && p <= n <= p + 268) || (p >= 512 && n == p + 11)
  }

  lemma ResidueDiffers(p: u16, delta: nat, back: u16)
    requires delta % 256 != back % 256
    ensures (p + back) % 0x1_0000 != p % 256 + delta
  {
    assert (p + back) % 0x1_0000 == if p + back < 0x1_0000 then p + back else p + back - 0x1_0000;
  }

  /** The sum of DeltaReadsBack, over plain numbers. */
  lemma ResidueDecides(p: u16, n: u16, delta: nat, back: u16)
    requires n == p % 256 + delta
    requires delta <= 268 ==> back == delta
    requires 269 <= delta ==> back % 256 == if delta % 256 < 13 then 11 else 12
    requires 269 <= delta && delta % 256 == 11 ==> back == 11
    ensures (p + back) % 0x1_0000 == n <==> NumberFits(p, n)
  {
    var q := p / 256;
    assert p == 256 * q + p % 256;
    if delta > 268 && delta % 256 != 11 {
      ResidueDiffers(p, delta, back);
    } else {
      assert (p + back) % 0x1_0000 == if p + back < 0x1_0000 then p + back else p + back - 0x1_0000;
    }
  }

  lemma DeltaReadsBack(p: u16, n: u16)
    ensures (p + ReadBack(Delta(n, p % 256))) % 0x1_0000 == n <==> NumberFits(p, n)
  {
    hide ReadBack;
    var delta := Delta(n, p % 256);
    ReadBackExact(delta);
    if n < p % 256 {
      assert delta > 65804;
    } else {
      ResidueDecides(p, n, delta, ReadBack(delta));
    }
  }

  // ---------- one option ----------

  ghost predicate At(s: seq<byte>, i: nat, part: seq<byte>) {
    i + |part| <= |s| && s[i..i + |part|] == part
  }

  lemma AtConcat(s: seq<byte>, i: nat, a: seq<byte>, c: seq<byte>)
    ensures At(s, i, a + c) <==> At(s, i, a) && At(s, i + |a|, c)
  {
    if i + |a| + |c| <= |s| {
      var all := s[i..i + |a| + |c|];
      assert all[..|a|] == s[i..i + |a|] && all[|a|..] == s[i + |a|..i + |a| + |c|];
      assert (a + c)[..|a|] == a && (a + c)[|a|..] == c;
      assert all == all[..|a|] + all[|a|..];
    }
  }

  lemma FieldReadsBack(s: seq<byte>, j: nat, value: u32)
    requires At(s, j + 1, Extension(Nibble(value), value % 256))
    ensures j + ExtensionSize(Nibble(value)) < |s|
    ensures FieldValue(s, j, Nibble(value)) == ReadBack(value)
  {
    var x := Extension(Nibble(value), value % 256);
    assert forall k :: 0 <= k < |x| ==> s[j + 1 + k] == s[j + 1..j + 1 + |x|][k] == x[k];
  }

  lemma ReadHeadByFields(s: seq<byte>, i: nat, n1: byte, n2: byte)
    requires i < |s| && n1 <= 14 && n2 <= 14 && s[i] == n1 * 16 + n2
    requires i + ExtensionSize(n1) + ExtensionSize(n2) < |s|
    ensures
      var j := i + ExtensionSize(n1);
      var start := j + ExtensionSize(n2) + 1;
      ReadHead(s, i) == if start + FieldValue(s, j, n2) > |s| then BadHead(WrongOptionLength)
                        else Head(FieldValue(s, i, n1), FieldValue(s, j, n2), start)
  {
    assert s[i] / 16 == n1 && s[i] % 16 == n2;
  }

  lemma HeadReadsBack(s: seq<byte>, i: nat, o: CoapOption, previous: byte)
    requires At(s, i, EncodeHead(o, previous))
    ensures s[i] != 0xFF
    ensures
      var start := i + |EncodeHead(o, previous)|;
      var length := ReadBack(Length32(o.value));
      ReadHead(s, i) == if start + length > |s| then BadHead(WrongOptionLength)
                        else Head(ReadBack(Delta(o.number, previous)), length, start)
  {
    var delta, length := Delta(o.number, previous), Length32(o.value);
    var n1, n2 := Nibble(delta), Nibble(length);
    var x1, x2 := Extension(n1, delta % 256), Extension(n2, length % 256);
    AtConcat(s, i, [n1 * 16 + n2] + x1, x2);
    AtConcat(s, i, [n1 * 16 + n2], x1);
    assert s[i] == s[i..i + 1][0] == n1 * 16 + n2;
    FieldReadsBack(s, i, delta);
    FieldReadsBack(s, i + |x1|, length);
    ReadHeadByFields(s, i, n1, n2);
  }

  // ---------- parse after serialize ----------

  lemma LengthReadsBack(value: seq<byte>)
    ensures ReadBack(Length32(value)) == |value| <==> |value| <= 268
  {
    hide ReadBack;
    ReadBackExact(Length32(value));
  }

  /** What a caller must check of an option list whose last option so far has number p. */
  predicate OptionsFit(options: seq<CoapOption>, p: u16) {
    options == [] ||
    (NumberFits(p, options[0].number) && |options[0].value| <= 268 && OptionsFit(options[1..], options[0].number))
  }

  /** One turn of the parser's loop at the place where an option was written. */
  lemma OptionReadsBack(s: seq<byte>, i: nat, o: CoapOption, p: u16)
    requires At(s, i, EncodeOption(o, p % 256))
    ensures i < |s| && !AtEnd(Intended, s, i)
    ensures
      var h := ReadHead(s, i);
      h.Head? && CoapOption((p + h.delta) % 0x1_0000, s[h.start..h.start + h.length]) == o
      <==> NumberFits(p, o.number) && |o.value| <= 268
    ensures |o.value| <= 268 ==> var h := ReadHead(s, i);
                                 h.Head? && h.start + h.length == i + |EncodeOption(o, p % 256)|
  {
    hide EncodeHead, ReadHead, ReadBack, Delta, NumberFits, Length32;
    var head := EncodeHead(o, p % 256);
    AtConcat(s, i, head, o.value);
    HeadReadsBack(s, i, o, p % 256);
    LengthReadsBack(o.value);
    DeltaReadsBack(p, o.number);
  }

  lemma {:induction false} OptionsReadBack(s: seq<byte>, i: nat, options: seq<CoapOption>, p: u16)
    requires At(s, i, EncodeOptions(options, p % 256))
    requires AtEnd(Intended, s, i + |EncodeOptions(options, p % 256)|)
    ensures OptionsFit(options, p) ==>
              ParseOptions(Intended, s, i, p, []) == Parsed(options, i + |EncodeOptions(options, p % 256)|)
    ensures !OptionsFit(options, p) ==>
              var r := ParseOptions(Intended, s, i, p, []);
              r.Parsed? ==> r.options != options
    decreases |options|
  {
    hide EncodeOption, ReadHead, NumberFits, ParseOptions;
    ParseTurn(Intended, s, i, p, []);
    if options != [] {
      hide At, AtEnd;
      var o := options[0];
      var first := EncodeOption(o, p % 256);
      AtConcat(s, i, first, EncodeOptions(options[1..], o.number % 256));
      OptionReadsBack(s, i, o, p);
      var h := ReadHead(s, i);
      if h.Head? {
        assert [] + s[h.start..h.start + h.length] == s[h.start..h.start + h.length];
        if NumberFits(p, o.number) && |o.value| <= 268 {
          OptionsReadBack(s, i + |first|, options[1..], o.number);
          assert options == [o] + options[1..];
        }
      }
    }
  }

  /** parse_header and parse_token take exactly the bytes that serialize wrote for them. */
  lemma PrefixReadBack(b: Build, m0: Message, m: Message, s: seq<byte>)
    requires m.WellFormed() && m.TokenLength() <= TOKEN_MAX_LENGTH
    requires At(s, 0, EncodePrefix(m))
    ensures Parse(b, m0, s) ==
            if m.Version() != COAP_VERSION then (Rejected(ProtocolVersion), m0.(header := m.header))
            else ParseBody(b, m.Visible().(options := m0.options, payload := m0.payload), s)
  {
    hide ParseBody;
    var prefix := EncodePrefix(m);
    var first := |prefix|;
    assert forall k :: 0 <= k < first ==> s[k] == s[0..first][k] == prefix[k];
    assert s[0] == m.header && s[1] == m.code && Join(s[2], s[3]) == m.messageId;
    assert s[PACKET_HEADER_SIZE..first] == s[0..first][PACKET_HEADER_SIZE..] == m.token[..m.TokenLength()];
    if m.TokenLength() == 0 {
      assert m.token[..0] + Zeros(TOKEN_MAX_LENGTH) == Zeros(TOKEN_MAX_LENGTH);
    }
  }

  /** Where the three parts of a packet stand. */
  lemma EncodeParts(b: Build, m: Message)
    requires m.WellFormed() && m.TokenLength() <= TOKEN_MAX_LENGTH
    ensures
      var s := Encode(b, m);
      var first := PACKET_HEADER_SIZE + m.TokenLength();
      var end := first + |EncodeOptions(m.options, 0)|;
      && At(s, 0, EncodePrefix(m)) && At(s, first, EncodeOptions(m.options, 0))
      && end <= |s| && s[end..] == EncodePayload(b, m.payload) && AtEnd(b, s, end)
  {
    var prefix, options, payload := EncodePrefix(m), EncodeOptions(m.options, 0), EncodePayload(b, m.payload);
    var s := Encode(b, m);
    assert s[0..|s|] == s == (prefix + options) + payload;
    AtConcat(s, 0, prefix + options, payload);
    AtConcat(s, 0, prefix, options);
    var end := |prefix| + |options|;
    assert s[end..] == payload;
    assert m.payload != [] ==> s[end] == payload[0];
  }

  lemma BodyReadsBack(q: Message, options: seq<CoapOption>, payload: seq<byte>, s: seq<byte>)
    requires q.payload == []
    requires At(s, PACKET_HEADER_SIZE + q.TokenLength(), EncodeOptions(options, 0))
    requires
      var end := PACKET_HEADER_SIZE + q.TokenLength() + |EncodeOptions(options, 0)|;
      s[end..] == EncodePayload(Intended, payload) && AtEnd(Intended, s, end)
    ensures ParseBody(Intended, q, s) == (Accepted, q.(options := options, payload := payload))
            <==> OptionsFit(options, 0)
  {
    hide EncodeOptions, OptionsFit, ParseOptions;
    var first := PACKET_HEADER_SIZE + q.TokenLength();
    OptionsReadBack(s, first, options, 0);
    var end := first + |EncodeOptions(options, 0)|;
    if payload != [] {
      assert s[end + 1..] == s[end..][1..] == payload;
      assert [] + payload == payload;
    }
  }

  /**
   serialize then parse gives the message back if and only if it is a version 1 message whose values
   have at most 268 bytes and whose numbers fit.  The packet parsed into must hold no payload yet.
   */
  lemma RoundTripExact(m0: Message, m: Message)
    requires m.WellFormed() && m.TokenLength() <= TOKEN_MAX_LENGTH && m0.payload == []
    ensures Parse(Intended, m0, Encode(Intended, m)) == (Accepted, m.Visible())
            <==> m.Version() == COAP_VERSION && OptionsFit(m.options, 0)
  {
    hide Encode, EncodePrefix, EncodeOptions, EncodePayload, OptionsFit, Parse, ParseBody, At, AtEnd;
    var s := Encode(Intended, m);
    EncodeParts(Intended, m);
    PrefixReadBack(Intended, m0, m, s);
    var q := m.Visible().(options := m0.options, payload := m0.payload);
    BodyReadsBack(q, m.options, m.payload, s);
    assert m.Visible() == q.(options := m.options, payload := m.payload);
  }

  /** Lists on both sides of OptionsFit: one that passes number 511, and three that are lost. */
  lemma FitAtTheLimits(value: seq<byte>)
    requires |value| == 269
    ensures OptionsFit([CoapOption(255, []), CoapOption(520, []), CoapOption(531, [])], 0)
    ensures !OptionsFit([CoapOption(255, []), CoapOption(520, []), CoapOption(532, [])], 0)
    ensures !OptionsFit([CoapOption(269, [])], 0)
    ensures !OptionsFit([CoapOption(11, value)], 0)
  {
    ThreeFit(255, 520, 531);
    ThreeFit(255, 520, 532);
    assert [CoapOption(11, value)][1..] == [];
  }

  lemma ThreeFit(a: u16, b: u16, c: u16)
    ensures OptionsFit([CoapOption(a, []), CoapOption(b, []), CoapOption(c, [])], 0)
            <==> NumberFits(0, a) && NumberFits(a, b) && NumberFits(b, c)
  {
    var options := [CoapOption(a, []), CoapOption(b, []), CoapOption(c, [])];
    var rest, last := [CoapOption(b, []), CoapOption(c, [])], [CoapOption(c, [])];
    assert options[1..] == rest && rest[1..] == last && last[1..] == [];
    assert OptionsFit(last, b) <==> NumberFits(b, c);
    assert OptionsFit(rest, a) <==> NumberFits(a, b) && OptionsFit(last, b);
  }
}
