/** A request, a token and the limits around them, byte by byte. */
module ByteExamples {
  import opened Bytes
  import opened Messages
  import opened Encoding
  import opened RoundTrip
  import opened Blockwise
  import opened Requests
  import opened EndToEnd
  import opened ClientSteps
  import opened Sessions
  import opened AsWrittenClient
  import U = UriClass
  import P = Parsing

  // ---------- tokens ----------

  const EIGHT: seq<byte> := [1, 2, 3, 4, 5, 6, 7, 8]

  const LONGEST: Message := Message(0x48, 1, 7, EIGHT, [], [])

  /** A token of eight bytes is read. */
  lemma LongestToken(m: Message)
    requires m.payload == []
    ensures P.Parse(Intended, m, [0x48, 1, 0, 7, 1, 2, 3, 4, 5, 6, 7, 8]) == (Accepted, LONGEST)
  {
    LongestEncoded();
    assert LONGEST.Visible() == LONGEST;
    assert OptionsFit([], 0);
    hide P.Parse, Encode;
    RoundTripExact(m, LONGEST);
  }

  lemma LongestEncoded()
    ensures Encode(Intended, LONGEST) == [0x48, 1, 0, 7, 1, 2, 3, 4, 5, 6, 7, 8]
  {
    assert EncodeOptions([], 0) == [];
    hide EncodeOptions;
    assert EIGHT[..8] == EIGHT;
    assert EncodeHeader(LONGEST) == [0x48, 1, 0, 7];
    hide EncodeHeader;
    assert EncodePrefix(LONGEST) == [0x48, 1, 0, 7] + EIGHT;
  }

  const NINE: seq<byte> := [0x49, 1, 0, 7, 1, 2, 3, 4, 5, 6, 7, 8, 9]

  /** One of nine is refused. */
  lemma TooLongToken(b: Build, m: Message)
    ensures P.Parse(b, m, NINE).0 == Rejected(ErrorCode.TokenLength)
  {
    hide P.Parse;
    var s := NINE;
    assert |s| == 13 && s[0] == 0x49 && s[0] % 16 == 9;
    P.TokenRefused(b, m, s);
  }

  // ---------- a request ----------

  /** The path "/a/b" at port 5683. */
  const EXAMPLE: Config := Config(Intended, 5683, [[97], [98]])

  /** Version 1, confirmable, no token; GET; id 7; Uri-Port 5683; Uri-Path "a" and "b"; Block2 0/0/2048. */
  const EXAMPLE_BYTES: seq<byte> := [0x40, 0x01, 0x00, 0x07, 0x72, 0x16, 0x33, 0x41, 0x61, 0x01, 0x62, 0xC1, 0x07]

  lemma ExamplePath()
    ensures U.PathToUri([47, 97, 47, 98]) == Some(U.Uri(U.StringKind, EXAMPLE.path, []))
  {
    var u := U.Uri(U.StringKind, [[97], [98]], []);
    U.UriRoundTripExact(u);
    U.TwoSegments([97], [98]);
    assert U.UriToPath(u) == [47] + [97] + [47] + [98];
    hide U.PathToUri, U.UriToPath;
    assert [47, 97, 47, 98] == [47] + [97] + [47] + [98];
  }

  const PORT: CoapOption := CoapOption(7, [0x16, 0x33])
  const BLOCK: CoapOption := CoapOption(23, [7])

  lemma ExampleOptions()
    ensures EncodeBlock(BlockState(0, 2048, false)) == Some([7])
    ensures RequestOptions(Intended, 5683, EXAMPLE.path, [7])
         == [PORT] + ([CoapOption(11, [97])] + ([CoapOption(11, [98])] + ([BLOCK] + [])))
  {
    var path := EXAMPLE.path;
    var p := PathOptions(Intended, path);
    assert [] + path[0] == [97] && [] + path[1] == [98];
    assert p == [CoapOption(11, [97]), CoapOption(11, [98])];
    assert PortOption(Intended, 5683) == PORT && BlockOption(Intended, [7]) == BLOCK;
  }

  lemma ExampleEncoded()
    ensures EncodeOptions([PORT] + ([CoapOption(11, [97])] + ([CoapOption(11, [98])] + ([BLOCK] + []))), 0)
         == [0x72, 0x16, 0x33, 0x41, 0x61, 0x01, 0x62, 0xC1, 0x07]
  {
    ShortOption(PORT, 0);
    ShortOption(CoapOption(11, [97]), 7);
    ShortOption(CoapOption(11, [98]), 11);
    ShortOption(BLOCK, 11);
    assert EncodeOptions([], 23) == [];
    hide EncodeOption, EncodeOptions;
    ListStep(BLOCK, [], 11);
    ListStep(CoapOption(11, [98]), [BLOCK] + [], 11);
    ListStep(CoapOption(11, [97]), [CoapOption(11, [98])] + ([BLOCK] + []), 7);
    ListStep(PORT, [CoapOption(11, [97])] + ([CoapOption(11, [98])] + ([BLOCK] + [])), 0);
  }

  lemma ExampleMessage()
    ensures Encode(Intended, RequestMessage(EMPTY_MESSAGE, 7, RequestOptions(Intended, 5683, EXAMPLE.path, [7])))
         == EXAMPLE_BYTES
  {
    ExampleOptions();
    ExampleEncoded();
    hide RequestOptions, EncodeOptions;
    var m := RequestMessage(EMPTY_MESSAGE, 7, RequestOptions(Intended, 5683, EXAMPLE.path, [7]));
    assert m.header == 0x40;
    hide RequestHeader;
    assert EncodePrefix(m) == [0x40, 1, 0, 7];
  }

  /** What a new client for coap://host:5683/a/b sends first when 7 is drawn. */
  lemma ExampleRequest(existing: seq<byte>)
    ensures
      var w := World(Initial(existing, EMPTY_MESSAGE), [], false);
      Act(EXAMPLE, Act(EXAMPLE, w, StartCall), StepCall(Input(7, true, None))).sent == [EXAMPLE_BYTES]
  {
    ExampleMessage();
    ExampleOptions();
    hide RequestOptions, Encode, EncodeBlock, PathOptions;
  }
}
