/** Which accepted buffers serialize reproduces byte for byte after parse. */
module Canonical {
  import opened Bytes
  import opened Messages
  import opened Encoding
  import opened Parsing
  import opened RoundTrip

  /** The extension bytes of a field whose nibble stands before s[i + 1]. */
  function ExtensionAt(s: seq<byte>, i: nat, nibble: byte): seq<byte>
    requires i + ExtensionSize(nibble) < |s|
  {
    s[i + 1..i + 1 + ExtensionSize(nibble)]
  }

  lemma LengthCanonical(s: seq<byte>, i: nat, nibble: byte)
    requires nibble <= 14 && i + ExtensionSize(nibble) < |s|
    ensures var v := FieldValue(s, i, nibble);
            Nibble(v) == nibble && Extension(nibble, v % 256) == ExtensionAt(s, i, nibble) <==> nibble != 14
  {
    var v: int := FieldValue(s, i, nibble);
    if nibble == 13 {
      assert (v % 256 - 13) % 256 == s[i + 1];
    } else if nibble == 14 && v >= 269 {
      TwoByteFormDiffers(s[i + 1], s[i + 2], v, v);
    }
  }

  /** Re-encoding a value that came from two bytes reproduces them only when both are 0xFE and it ends in 11. */
  lemma TwoByteFormDiffers(x: byte, y: byte, v: u16, w: nat)
    requires v == (Join(y, x) + 269) % 0x1_0000
    requires w % 256 == v % 256
    ensures Extension(14, w % 256) == [x, y] <==> x == 0xFE && y == 0xFE
    ensures x == 0xFE && y == 0xFE ==> v == 11
  {
    var low := w % 256;
    TwoBytesBack(low);
    assert v % 256 == (x + 13) % 256;
    assert Extension(14, low)[0] == if low < 13 then 254 else 255;
    assert Extension(14, low)[1] == if low < 13 then low + 243 else low - 13;
    assert [x, y][0] == x && [x, y][1] == y;
  }

  /** When the delta written after a predecessor p is the one that was read. */
  predicate DeltaCanonical(s: seq<byte>, i: nat, nibble: byte, p: u16)
    requires i + ExtensionSize(nibble) < |s|
  {
    if p <= 255 then nibble != 14
    else 512 <= p <= 0xFFFF - 11 && nibble == 14 && s[i + 1] == 0xFE && s[i + 2] == 0xFE
  }

  /** The delta that serialize computes for a number that parse obtained by adding d to p. */
  lemma DeltaAfterSum(p: u16, d: u16)
    ensures
      var q := p / 256 * 256;
      var delta := Delta((p + d) % 0x1_0000, p % 256);
      && (p + d < 0x1_0000 ==> delta == d + q)
      && (p + d >= 0x1_0000 ==> delta > 65804 || (p > 255 && delta == d + q - 0x1_0000))
      && (delta <= 65804 ==> delta % 256 == d % 256)
  {
    assert p == p / 256 * 256 + p % 256;
    assert (p + d) % 0x1_0000 == if p + d < 0x1_0000 then p + d else p + d - 0x1_0000;
  }

  lemma WideDeltaCanonical(s: seq<byte>, i: nat, p: u16)
    requires i + 2 < |s|
    ensures
      var delta := Delta((p + FieldValue(s, i, 14)) % 0x1_0000, p % 256);
      Nibble(delta) == 14 && Extension(14, delta % 256) == ExtensionAt(s, i, 14)
      <==> DeltaCanonical(s, i, 14, p)
  {
    hide Delta, Extension, FieldValue;
    var d := FieldValue(s, i, 14);
    var delta := Delta((p + d) % 0x1_0000, p % 256);
    DeltaAfterSum(p, d);
    DoubleByte(s, i);
    assert ExtensionAt(s, i, 14) == [s[i + 1], s[i + 2]];
    if delta <= 65804 {
      TwoByteFormDiffers(s[i + 1], s[i + 2], d, delta);
      if s[i + 1] == 0xFE && s[i + 2] == 0xFE {
        assert delta == 11 + p / 256 * 256;
      }
    } else if s[i + 1] == 0xFE && s[i + 2] == 0xFE {
      TwoByteFormDiffers(s[i + 1], s[i + 2], d, d);
      assert p + 11 >= 0x1_0000;
    }
  }

  lemma DoubleByte(s: seq<byte>, i: nat)
    requires i + 2 < |s|
    ensures FieldValue(s, i, 14) == (Join(s[i + 2], s[i + 1]) + 269) % 0x1_0000
  {
  }

  lemma DeltaIsCanonical(s: seq<byte>, i: nat, nibble: byte, p: u16)
    requires nibble <= 14 && i + ExtensionSize(nibble) < |s|
    ensures
      var delta := Delta((p + FieldValue(s, i, nibble)) % 0x1_0000, p % 256);
      Nibble(delta) == nibble && Extension(nibble, delta % 256) == ExtensionAt(s, i, nibble)
      <==> DeltaCanonical(s, i, nibble, p)
  {
    hide Delta, Extension, FieldValue;
    if nibble == 14 {
      WideDeltaCanonical(s, i, p);
    } else {
      var d := FieldValue(s, i, nibble);
      ShortField(s, i, nibble);
      DeltaAfterSum(p, d);
      if p <= 255 {
        LengthCanonical(s, i, nibble);
      }
    }
  }

  lemma ShortField(s: seq<byte>, i: nat, nibble: byte)
    requires nibble <= 13 && i + ExtensionSize(nibble) < |s|
    ensures FieldValue(s, i, nibble) <= 268
    ensures nibble < 13 ==> FieldValue(s, i, nibble) == nibble
    ensures nibble == 13 ==> FieldValue(s, i, nibble) >= 13
  {
  }

  // ---------- one option ----------

  /** The condition on one option of the wire whose predecessor has number p. */
  predicate HeadCanonical(s: seq<byte>, i: nat, p: u16)
    requires i < |s| && ReadHead(s, i).Head?
  {
    s[i] % 16 != 14 && DeltaCanonical(s, i, s[i] / 16, p)
  }

  lemma HeadParts(s: seq<byte>, i: nat)
    requires i < |s| && ReadHead(s, i).Head?
    ensures
      var h, n1, n2 := ReadHead(s, i), s[i] / 16, s[i] % 16;
      var j := i + ExtensionSize(n1);
      && n1 <= 14 && n2 <= 14 && j + ExtensionSize(n2) < |s|
      && h.delta == FieldValue(s, i, n1) && h.length == FieldValue(s, j, n2)
      && h.start == j + ExtensionSize(n2) + 1
  {
  }

  /** A header with nibbles w1, w2 and extensions x1, x2 stands at i exactly when all four agree. */
  lemma HeadAt(s: seq<byte>, i: nat, w1: byte, w2: byte, x1: seq<byte>, x2: seq<byte>)
    requires i < |s| && w1 <= 14 && w2 <= 14
    requires |x1| == ExtensionSize(w1) && |x2| == ExtensionSize(w2)
    requires i + ExtensionSize(s[i] / 16) + ExtensionSize(s[i] % 16) < |s|
    ensures
      At(s, i, [w1 * 16 + w2] + x1 + x2) <==>
      && w1 == s[i] / 16 && w2 == s[i] % 16
      && x1 == ExtensionAt(s, i, w1) && x2 == ExtensionAt(s, i + ExtensionSize(w1), w2)
  {
    AtConcat(s, i, [w1 * 16 + w2] + x1, x2);
    AtConcat(s, i, [w1 * 16 + w2], x1);
    assert s[i..i + 1] == [s[i]];
    assert At(s, i, [w1 * 16 + w2]) <==> s[i] / 16 == w1 && s[i] % 16 == w2;
  }

  lemma FieldsRewritten(s: seq<byte>, i: nat, p: u16, o: CoapOption)
    requires i < |s| && s[i] / 16 <= 14 && s[i] % 16 <= 14
    requires i + ExtensionSize(s[i] / 16) + ExtensionSize(s[i] % 16) < |s|
    requires o.number == (p + FieldValue(s, i, s[i] / 16)) % 0x1_0000
    requires |o.value| == FieldValue(s, i + ExtensionSize(s[i] / 16), s[i] % 16)
    ensures At(s, i, EncodeHead(o, p % 256)) <==> s[i] % 16 != 14 && DeltaCanonical(s, i, s[i] / 16, p)
    ensures At(s, i, EncodeHead(o, p % 256)) ==>
              |EncodeHead(o, p % 256)| == 1 + ExtensionSize(s[i] / 16) + ExtensionSize(s[i] % 16)
  {
    hide DeltaCanonical, FieldValue, Delta, Nibble, Extension, At, ExtensionAt, ExtensionSize;
    var n1, n2 := s[i] / 16, s[i] % 16;
    DeltaIsCanonical(s, i, n1, p);
    LengthCanonical(s, i + ExtensionSize(n1), n2);
    var delta, length := Delta(o.number, p % 256), Length32(o.value);
    var w1, w2 := Nibble(delta), Nibble(length);
    HeadAt(s, i, w1, w2, Extension(w1, delta % 256), Extension(w2, length % 256));
  }

  lemma HeadRewritten(s: seq<byte>, i: nat, p: u16)
    requires i < |s| && ReadHead(s, i).Head?
    ensures
      var h := ReadHead(s, i);
      var o := CoapOption((p + h.delta) % 0x1_0000, s[h.start..h.start + h.length]);
      && (At(s, i, EncodeHead(o, p % 256)) <==> HeadCanonical(s, i, p))
      && (At(s, i, EncodeHead(o, p % 256)) ==> i + |EncodeHead(o, p % 256)| == h.start)
  {
    hide ReadHead, DeltaCanonical, FieldValue, EncodeHead, At, ExtensionSize;
    HeadParts(s, i);
    var h := ReadHead(s, i);
    FieldsRewritten(s, i, p, CoapOption((p + h.delta) % 0x1_0000, s[h.start..h.start + h.length]));
  }

  // ---------- serialize after parse ----------

  /** Every option on the wire from i on satisfies HeadCanonical; p is the number before it. */
  predicate WireCanonical(s: seq<byte>, i: nat, p: u16)
    requires i <= |s|
    decreases |s| - i
  {
    AtEnd(Intended, s, i) ||
    var h := ReadHead(s, i);
    h.Head? && HeadCanonical(s, i, p) && WireCanonical(s, h.start + h.length, (p + h.delta) % 0x1_0000)
  }

  lemma {:induction false} OptionsRewritten(s: seq<byte>, i: nat, p: u16)
    requires i <= |s| && ParseOptions(Intended, s, i, p, []).Parsed?
    ensures
      var r := ParseOptions(Intended, s, i, p, []);
      EncodeOptions(r.options, p % 256) == s[i..r.end] <==> WireCanonical(s, i, p)
    decreases |s| - i
  {
    hide ParseOptions, ReadHead, EncodeHead, HeadCanonical;
    ParseTurn(Intended, s, i, p, []);
    var r := ParseOptions(Intended, s, i, p, []);
    if !AtEnd(Intended, s, i) {
      var h := ReadHead(s, i);
      var to, o := h.start + h.length, r.options[0];
      assert [] + s[h.start..to] == s[h.start..to];
      OptionsRewritten(s, to, o.number);
      HeadRewritten(s, i, p);
      var head, rest := EncodeHead(o, p % 256), EncodeOptions(r.options[1..], o.number % 256);
      assert EncodeOptions(r.options, p % 256) == (head + o.value) + rest;
      JoinedAt(s, i, h.start, to, r.end, head, o.value, rest);
    }
  }

  /** Three pieces fill s[i..end] exactly when the first stands at i and the last fills its share. */
  lemma JoinedAt(s: seq<byte>, i: nat, start: nat, to: nat, end: nat, head: seq<byte>, value: seq<byte>, rest: seq<byte>)
    requires i <= start <= to <= end <= |s|
    requires value == s[start..to]
    requires At(s, i, head) ==> i + |head| == start
    ensures (head + value) + rest == s[i..end] <==> At(s, i, head) && rest == s[to..end]
  {
    var all := (head + value) + rest;
    if all == s[i..end] {
      assert s[i..i + |head|] == all[..|head|] == head;
      assert rest == all[|head| + |value|..] == s[to..end];
    }
  }

  /** A marker that is the last byte of the packet: parse accepts it, serialize leaves it out. */
  predicate BareMarker(s: seq<byte>, first: nat)
    requires first <= |s|
  {
    var r := ParseOptions(Intended, s, first, 0, []);
    r.Parsed? && r.end + 1 == |s|
  }

  lemma TailRewritten(s: seq<byte>, first: nat, payload: seq<byte>)
    requires first <= |s| && ParseOptions(Intended, s, first, 0, []).Parsed?
    requires
      var end := ParseOptions(Intended, s, first, 0, []).end;
      payload == if end == |s| then [] else s[end + 1..]
    ensures
      var end := ParseOptions(Intended, s, first, 0, []).end;
      if BareMarker(s, first) then |EncodePayload(Intended, payload)| < |s| - end
      else EncodePayload(Intended, payload) == s[end..]
  {
    var end := ParseOptions(Intended, s, first, 0, []).end;
    if end < |s| {
      assert s[end..] == [s[end]] + s[end + 1..];
    }
  }

  /** m is what parse made of s. */
  ghost predicate ReadFrom(m: Message, s: seq<byte>) {
    var first := PACKET_HEADER_SIZE + m.TokenLength();
    && m.WellFormed() && m.TokenLength() <= TOKEN_MAX_LENGTH
    && first <= |s| && s[..first] == EncodePrefix(m)
    && var r := ParseOptions(Intended, s, first, 0, []);
       r.Parsed? && r.options == m.options && m.payload == if r.end == |s| then [] else s[r.end + 1..]
  }

  lemma CanonicalSuffices(m: Message, s: seq<byte>)
    requires ReadFrom(m, s)
    requires var first := PACKET_HEADER_SIZE + m.TokenLength(); WireCanonical(s, first, 0) && !BareMarker(s, first)
    ensures Encode(Intended, m) == s
  {
    hide ParseOptions, EncodePrefix, EncodeOptions, EncodePayload, WireCanonical, BareMarker;
    var first := PACKET_HEADER_SIZE + m.TokenLength();
    var end := ParseOptions(Intended, s, first, 0, []).end;
    OptionsRewritten(s, first, 0);
    TailRewritten(s, first, m.payload);
    assert s == s[..first] + s[first..end] + s[end..];
  }

  lemma CanonicalNeeded(m: Message, s: seq<byte>)
    requires ReadFrom(m, s) && Encode(Intended, m) == s
    ensures var first := PACKET_HEADER_SIZE + m.TokenLength(); WireCanonical(s, first, 0) && !BareMarker(s, first)
  {
    hide Encode, ParseOptions, EncodePrefix, EncodeOptions, EncodePayload, WireCanonical, BareMarker, OptionsFit, AtEnd;
    var first := PACKET_HEADER_SIZE + m.TokenLength();
    EncodeParts(Intended, m);
    OptionsReadBack(s, first, m.options, 0);
    OptionsRewritten(s, first, 0);
    TailRewritten(s, first, m.payload);
  }

  /**
   parse then serialize gives the accepted buffer back if and only if every option is canonical and
   the packet does not end in a bare marker.
   */
  lemma CanonicalExact(m0: Message, s: seq<byte>)
    requires m0.payload == [] && Parse(Intended, m0, s).0.Accepted?
    ensures
      var m := Parse(Intended, m0, s).1;
      var first := PACKET_HEADER_SIZE + m.TokenLength();
      && m.WellFormed() && m.TokenLength() <= TOKEN_MAX_LENGTH && first <= |s|
      && (Encode(Intended, m) == s <==> WireCanonical(s, first, 0) && !BareMarker(s, first))
  {
    hide Parse, ParseBody, ParseOptions, Encode, WireCanonical, BareMarker;
    var p := ParseByParts(Intended, m0, s);
    PrefixReadsBack(s, p);
    BodyParts(Intended, p, s);
    var m := Parse(Intended, m0, s).1;
    if Encode(Intended, m) == s {
      CanonicalNeeded(m, s);
    } else if WireCanonical(s, PACKET_HEADER_SIZE + m.TokenLength(), 0)
              && !BareMarker(s, PACKET_HEADER_SIZE + m.TokenLength()) {
      CanonicalSuffices(m, s);
    }
  }

  /** On canonical buffers parse loses nothing: two of them that give one message are one buffer. */
  lemma ParseInjective(m1: Message, m2: Message, s1: seq<byte>, s2: seq<byte>)
    requires m1.payload == [] && m2.payload == []
    requires Parse(Intended, m1, s1).0.Accepted? && Parse(Intended, m2, s2).0.Accepted?
    requires Parse(Intended, m1, s1).1 == Parse(Intended, m2, s2).1
    requires
      var first := PACKET_HEADER_SIZE + Parse(Intended, m1, s1).1.TokenLength();
      && first <= |s1| && WireCanonical(s1, first, 0) && !BareMarker(s1, first)
      && first <= |s2| && WireCanonical(s2, first, 0) && !BareMarker(s2, first)
    ensures s1 == s2
  {
    hide Parse, Encode, WireCanonical, BareMarker;
    CanonicalExact(m1, s1);
    CanonicalExact(m2, s2);
  }
}
