/** What the text as it stands means for a client whose peers follow the standard. */
module AsWrittenClient {
  import opened Bytes
  import opened Messages
  import opened OptionList
  import opened Encoding
  import opened RoundTrip
  import opened Blockwise
  import opened ClientSteps
  import opened Sessions
  import opened AsWrittenCodec
  import opened Storing
  import P = Parsing

  // ---------- conforming packets, as written ----------

  /**
   d is a packet of a peer that follows the standard.  OptionsFit leaves out deltas and lengths above
   268, which the standard writes with the two-byte extension; Storing speaks of those datagrams too.
   */
  predicate StandardFor(m: Message, d: seq<byte>) {
    && m.WellFormed() && m.TokenLength() <= TOKEN_MAX_LENGTH && m.Version() == COAP_VERSION
    && OptionsFit(m.options, 0) && d == Encode(Intended, m) && |d| <= BUFFER_MAX_SIZE
  }

  /**
   Which of them the client as written stores: an option header is zero, and of the options before it
   one is a Block2 option, with a smaller number first, a larger one last, and one to three bytes.
   */
  predicate StandardStorable(m: Message) {
    var k := ZeroHead(m.options, 0);
    && k < |m.options| && m.Type() == ACKNOWLEDGEMENT && m.code == CONTENT
    && var r := Find(AsWritten, m.options[..k], BLOCK_2);
       r.Found? && 1 <= |m.options[r.index].value| <= 3
  }

  lemma {:induction false} FitIsSorted(options: seq<CoapOption>, p: u16)
    requires OptionsFit(options, p)
    ensures Sorted(options) && forall k :: 0 <= k < |options| ==> p <= options[k].number
  {
    if options != [] {
      FitIsSorted(options[1..], options[0].number);
      assert forall k :: 1 <= k < |options| ==> options[k] == options[1..][k - 1];
    }
  }

  predicate SameNumbers(a: seq<CoapOption>, c: seq<CoapOption>) {
    |a| == |c| && forall k :: 0 <= k < |a| ==> a[k].number == c[k].number
  }

  lemma {:induction false} ProbeByNumbers(a: seq<CoapOption>, c: seq<CoapOption>, n: u16, min: int, max: int)
    requires SameNumbers(a, c) && 0 <= min && max <= |a|
    ensures Probe(a, n, min, max) == Probe(c, n, min, max)
    decreases max + 1 - min
  {
    if min <= max {
      var mid := (min + max) / 2;
      if mid < |a| && a[mid].number < n {
        ProbeByNumbers(a, c, n, mid + 1, max);
      } else if mid < |a| && a[mid].number > n {
        ProbeByNumbers(a, c, n, min, mid - 1);
      }
    }
  }

  lemma FindByNumbers(a: seq<CoapOption>, c: seq<CoapOption>, n: u16)
    requires SameNumbers(a, c)
    ensures Find(AsWritten, a, n) == Find(AsWritten, c, n)
    ensures Find(AsWritten, a, n).Found? ==> Find(AsWritten, a, n).index > 0
  {
    ProbeByNumbers(a, c, n, 0, |a|);
    hide Probe;
  }

  lemma SortedByNumbers(a: seq<CoapOption>, c: seq<CoapOption>)
    requires SameNumbers(a, c) && Sorted(c)
    ensures Sorted(a)
  {
    forall j, k | 0 <= j < k < |a|
      ensures a[j].number <= a[k].number
    {
      assert c[j].number <= c[k].number;
    }
  }

  lemma GrowKeepsNumbers(front: seq<CoapOption>)
    ensures SameNumbers(Grow([0], front), front)
    ensures forall k :: 0 < k < |front| ==> Grow([0], front)[k] == front[k]
  {
  }

  /** The grown first value does not matter: what get_header finds is never the first option. */
  lemma GrownBlockFound(front: seq<CoapOption>)
    requires Sorted(front)
    ensures
      var g, r := Grow([0], front), Find(AsWritten, front, BLOCK_2);
      && Sort(g) == g && Find(AsWritten, g, BLOCK_2) == r
      && (r.Found? ==> g[r.index] == front[r.index])
  {
    hide Sorted, Sort, Find, Grow, SameNumbers;
    var g := Grow([0], front);
    GrowKeepsNumbers(front);
    FindByNumbers(g, front, BLOCK_2);
    SortedByNumbers(g, front);
    SortOfSorted(g);
  }

  lemma SortedFront(options: seq<CoapOption>, k: nat)
    requires Sorted(options) && k <= |options|
    ensures Sorted(options[..k])
  {
  }

  lemma StandardStorableExact(m: Message, d: seq<byte>)
    requires StandardFor(m, d)
    ensures Storable(AsWritten, d) <==> StandardStorable(m)
    ensures StandardStorable(m) ==>
              var p := ParsedAs(AsWritten, d).1;
              && p.payload == Tail(m, ZeroHead(m.options, 0)) && p.messageId == m.messageId
              && BlockOf(AsWritten, p) ==
                 DecodeBlock(m.options[Find(AsWritten, m.options[..ZeroHead(m.options, 0)], BLOCK_2).index].value)
  {
    hide P.Parse, Encode, Sort, Find, ZeroHead, Grow, Tail, Sorted, OptionsFit;
    StandardPacketAcceptedExact(EMPTY_MESSAGE, m);
    var k := ZeroHead(m.options, 0);
    if k < |m.options| {
      FitIsSorted(m.options, 0);
      SortedFront(m.options, k);
      GrownBlockFound(m.options[..k]);
      assert [] + Tail(m, k) == Tail(m, k);
    }
  }

  ghost predicate HarmlessArrival(d: seq<byte>) {
    exists m: Message :: StandardFor(m, d) && !StandardStorable(m)
  }

  /** As written, a client that receives only conforming packets of the other kind stores nothing. */
  lemma NothingStandardIsStored(cfg: Config, pdu: Message, existing: seq<byte>, actions: seq<Action>)
    requires cfg.build.AsWritten? && pdu.WellFormed()
    requires forall k :: 0 <= k < |actions| && actions[k].StepCall? && actions[k].input.arrival.Some? ==>
               HarmlessArrival(actions[k].input.arrival.value)
    ensures Untouched(Run(cfg, World(Initial(existing, pdu), [], false), actions), existing)
  {
    hide StandardFor, StandardStorable, Storable, Untouched;
    forall k | 0 <= k < |actions| && actions[k].StepCall? && actions[k].input.arrival.Some?
      ensures !Storable(cfg.build, actions[k].input.arrival.value)
    {
      var d := actions[k].input.arrival.value;
      var m: Message :| StandardFor(m, d) && !StandardStorable(m);
      StandardStorableExact(m, d);
    }
    NothingIsEverStored(cfg, pdu, existing, actions);
  }

  // ---------- two concrete packets with a zero header ----------

  /** One option after another, with what each contributes. */
  lemma ListStep(o: CoapOption, rest: seq<CoapOption>, p: u16)
    ensures OptionsFit([o] + rest, p) <==>
            NumberFits(p, o.number) && |o.value| <= 268 && OptionsFit(rest, o.number)
    ensures ZeroHead([o] + rest, p) == if HasZeroHead(o, p) then 0 else 1 + ZeroHead(rest, o.number)
    ensures EncodeOptions([o] + rest, p % 256) == EncodeOption(o, p % 256) + EncodeOptions(rest, o.number % 256)
  {
    assert ([o] + rest)[1..] == rest;
  }

  lemma ShortOption(o: CoapOption, p: byte)
    requires p <= o.number < p + 13 && |o.value| < 13
    ensures EncodeOption(o, p) == [(o.number - p) * 16 + |o.value|] + o.value
  {
    var delta, length := o.number - p, |o.value|;
    assert Delta(o.number, p) == delta && Length32(o.value) == length;
    hide Delta, Length32;
    assert Nibble(delta) == delta && Nibble(length) == length;
    hide Nibble;
    assert [delta * 16 + length] + [] + [] == [delta * 16 + length];
  }

  /** When the zero header belongs to the last option, only the marker and the payload are left of it. */
  lemma LastTail(m: Message, front: seq<CoapOption>, o: CoapOption)
    requires m.options == front + [o] && o == CoapOption(LastNumber(front, 0), [])
    ensures Tail(m, |front|) == EncodePayload(Intended, m.payload)
  {
    assert m.options[..|front|] == front && m.options[|front|..] == [o] + [];
    ListStep(o, [], o.number);
    ShortOption(o, o.number);
    assert EncodeOptions([], o.number) == [];
    hide EncodeOption, EncodeOptions, EncodePayload, LastNumber;
    assert EncodeOptions(m.options[|front|..], o.number) == [0] + [] + [];
  }

  lemma LastOptionLost(m0: Message, m: Message, front: seq<CoapOption>, o: CoapOption)
    requires m.WellFormed() && m.TokenLength() <= TOKEN_MAX_LENGTH && m.Version() == COAP_VERSION
    requires m0.payload == [] && OptionsFit(m.options, 0)
    requires m.options == front + [o] && ZeroHead(m.options, 0) == |front|
    requires o == CoapOption(LastNumber(front, 0), [])
    ensures P.Parse(AsWritten, m0, Encode(Intended, m)) ==
            (Accepted, m.Visible().(options := Grow([0], front), payload := EncodePayload(Intended, m.payload)))
  {
    hide P.Parse, Encode, EncodePayload, Grow, OptionsFit, ZeroHead, Tail, LastNumber;
    StandardPacketAcceptedExact(m0, m);
    LastTail(m, front, o);
    assert m.options[..|front|] == front;
    assert m0.payload + Tail(m, |front|) == Tail(m, |front|);
  }

  /** GET coap://h/a/ asks for the segments "a" and "". */
  const TRAILING_SLASH: Message :=
    Message(0x40, GET, 7, Zeros(TOKEN_MAX_LENGTH),
            [CoapOption(3, [104]), CoapOption(URI_PATH, [97]), CoapOption(URI_PATH, [])], [])

  lemma TrailingSlashList(o1: CoapOption, o2: CoapOption, o3: CoapOption)
    requires o1.number == 3 && o2.number == o3.number == URI_PATH
    requires |o1.value| == |o2.value| == 1 && o3.value == []
    ensures OptionsFit([o1, o2, o3], 0) && ZeroHead([o1, o2, o3], 0) == 2
  {
    ListStep(o3, [], URI_PATH);
    ListStep(o2, [o3], 3);
    ListStep(o1, [o2, o3], 0);
    assert [o3] + [] == [o3] && [o2] + [o3] == [o2, o3] && [o1] + [o2, o3] == [o1, o2, o3];
    assert OptionsFit([], URI_PATH) && ZeroHead([], URI_PATH) == 0;
    hide OptionsFit, ZeroHead;
  }

  lemma NothingHidden(m: Message)
    requires m.TokenLength() == 0 && m.token == Zeros(TOKEN_MAX_LENGTH)
    ensures m.Visible() == m
  {
    assert m.token[..0] + Zeros(TOKEN_MAX_LENGTH) == m.token;
  }

  lemma GrowTwo(o1: CoapOption, o2: CoapOption)
    ensures Grow([0], [o1, o2]) == [o1.(value := [0] + o1.value), o2]
  {
    assert [o1, o2][1..] == [o2];
  }

  /** It is accepted, and the empty segment is lost. */
  lemma TrailingSlashAccepted(m0: Message)
    requires m0.payload == []
    ensures P.Parse(AsWritten, m0, Encode(Intended, TRAILING_SLASH)) ==
            (Accepted, TRAILING_SLASH.(options := [CoapOption(3, [0] + [104]), CoapOption(URI_PATH, [97])]))
  {
    var o1, o2, o3 := CoapOption(3, [104]), CoapOption(URI_PATH, [97]), CoapOption(URI_PATH, []);
    assert EncodePayload(Intended, []) == [];
    assert TRAILING_SLASH.options == [o1, o2] + [o3];
    assert LastNumber([o1, o2], 0) == URI_PATH;
    hide P.Parse, Encode, EncodePayload, OptionsFit, ZeroHead, Zeros, Grow, LastNumber, NumberFits, EncodeOptions;
    TrailingSlashList(o1, o2, o3);
    NothingHidden(TRAILING_SLASH);
    GrowTwo(o1, o2);
    LastOptionLost(m0, TRAILING_SLASH, [o1, o2], o3);
  }

  const LAST_SIZE: CoapOption := CoapOption(28, [])

  /** The options of an answer: ETag, Block2 with number 0 and M unset, and Size2 twice, the second time empty. */
  const ANSWER_FRONT: seq<CoapOption> := [CoapOption(4, [1]), CoapOption(BLOCK_2, [0]), CoapOption(28, [1])]

  const ZERO_HEADER_ANSWER: Message :=
    Message(0x60, CONTENT, 7, Zeros(TOKEN_MAX_LENGTH), ANSWER_FRONT + [LAST_SIZE], [9])

  const ZERO_HEADER_BYTES: seq<byte> := [0x60, 69, 0, 7, 0x41, 1, 0xD1, 6, 0, 0x51, 1, 0, 0xFF, 9]

  lemma AnswerHeads()
    ensures EncodeOption(CoapOption(4, [1]), 0) == [0x41, 1]
    ensures EncodeOption(CoapOption(BLOCK_2, [0]), 4) == [0xD1, 6, 0]
    ensures EncodeOption(CoapOption(28, [1]), BLOCK_2) == [0x51, 1]
    ensures EncodeOption(LAST_SIZE, 28) == [0]
  {
    ShortOption(CoapOption(4, [1]), 0);
    ShortOption(CoapOption(28, [1]), BLOCK_2);
    ShortOption(LAST_SIZE, 28);
    assert EncodeHead(CoapOption(BLOCK_2, [0]), 4) == [0xD1] + [6] + [];
  }

  lemma AnswerAsSteps()
    ensures ANSWER_FRONT + [LAST_SIZE]
         == [CoapOption(4, [1])] + ([CoapOption(BLOCK_2, [0])] + ([CoapOption(28, [1])] + ([LAST_SIZE] + [])))
  {
  }

  lemma AnswerList()
    ensures OptionsFit(ANSWER_FRONT + [LAST_SIZE], 0) && ZeroHead(ANSWER_FRONT + [LAST_SIZE], 0) == 3
  {
    AnswerAsSteps();
    ListStep(LAST_SIZE, [], 28);
    ListStep(CoapOption(28, [1]), [LAST_SIZE] + [], BLOCK_2);
    ListStep(CoapOption(BLOCK_2, [0]), [CoapOption(28, [1])] + ([LAST_SIZE] + []), 4);
    ListStep(CoapOption(4, [1]), [CoapOption(BLOCK_2, [0])] + ([CoapOption(28, [1])] + ([LAST_SIZE] + [])), 0);
    assert OptionsFit([], 28) && ZeroHead([], 28) == 0;
    hide OptionsFit, ZeroHead, EncodeOption, EncodeOptions;
  }

  lemma AnswerEncoded()
    ensures EncodeOptions(ANSWER_FRONT + [LAST_SIZE], 0) == [0x41, 1, 0xD1, 6, 0, 0x51, 1, 0]
  {
    AnswerAsSteps();
    ListStep(LAST_SIZE, [], 28);
    ListStep(CoapOption(28, [1]), [LAST_SIZE] + [], BLOCK_2);
    ListStep(CoapOption(BLOCK_2, [0]), [CoapOption(28, [1])] + ([LAST_SIZE] + []), 4);
    ListStep(CoapOption(4, [1]), [CoapOption(BLOCK_2, [0])] + ([CoapOption(28, [1])] + ([LAST_SIZE] + [])), 0);
    assert EncodeOptions([], 28) == [];
    AnswerHeads();
    hide OptionsFit, ZeroHead, EncodeOption, EncodeOptions;
  }

  lemma AnswerBytes()
    ensures Encode(Intended, ZERO_HEADER_ANSWER) == ZERO_HEADER_BYTES
  {
    AnswerEncoded();
    hide EncodeOptions;
    assert EncodePrefix(ZERO_HEADER_ANSWER) == [0x60, 69, 0, 7];
    hide EncodePrefix;
  }

  lemma AnswerStorable()
    ensures StandardFor(ZERO_HEADER_ANSWER, ZERO_HEADER_BYTES) && StandardStorable(ZERO_HEADER_ANSWER)
    ensures Find(AsWritten, ANSWER_FRONT, BLOCK_2) == Found(1)
  {
    AnswerBytes();
    AnswerList();
    hide Encode, OptionsFit, ZeroHead;
    ProbeTurn(ANSWER_FRONT, BLOCK_2, 0, 3);
    hide Probe;
    assert ZERO_HEADER_ANSWER.options[..3] == ANSWER_FRONT;
  }

  lemma AnswerReceived()
    ensures Storable(AsWritten, ZERO_HEADER_BYTES)
    ensures ParsedAs(AsWritten, ZERO_HEADER_BYTES).1.messageId == 7
    ensures ParsedAs(AsWritten, ZERO_HEADER_BYTES).1.payload == [0xFF, 9]
    ensures BlockOf(AsWritten, ParsedAs(AsWritten, ZERO_HEADER_BYTES).1) == DecodeBlock([0])
  {
    var m := ZERO_HEADER_ANSWER;
    AnswerStorable();
    AnswerTail();
    StandardStorableExact(m, ZERO_HEADER_BYTES);
    AnswerList();
    hide StandardFor, StandardStorable, Storable, ParsedAs, BlockOf, DecodeBlock, ZeroHead, Tail, Find, OptionsFit;
    assert m.options[..3] == ANSWER_FRONT && m.options[1] == CoapOption(BLOCK_2, [0]);
  }

  /** The client as written stores the marker along with the payload, and reports completion. */
  lemma ZeroHeaderAnswerStored(cfg: Config, pdu: Message, existing: seq<byte>)
    requires cfg.build.AsWritten? && pdu.WellFormed() && pdu.TokenLength() <= TOKEN_MAX_LENGTH
    ensures
      var v := Run(cfg, World(Initial(existing, pdu), [], false), ShortRun(7, ZERO_HEADER_BYTES));
      v.client.next.Complete? && v.client.file == existing + [0xFF, 9]
  {
    assert !DecodeBlock([0]).value.more;
    hide Storable, ParsedAs, BlockOf, DecodeBlock, Run, ShortRun;
    AnswerReceived();
    StorableIsStored(cfg, pdu, existing, ZERO_HEADER_BYTES);
  }

  lemma AnswerTail()
    ensures Tail(ZERO_HEADER_ANSWER, 3) == [0xFF, 9]
  {
    assert EncodePayload(Intended, [9]) == [0xFF] + [9];
    hide Tail, EncodePayload;
    LastTail(ZERO_HEADER_ANSWER, ANSWER_FRONT, LAST_SIZE);
  }
}
