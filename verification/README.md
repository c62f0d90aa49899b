# A model of the CoAP client library

The library downloads a resource over CoAP (RFC 7252) with the block-wise transfer of RFC 7959. This
project models the three parts that make a download work, connects them, and proves what they keep.

* **The packet codec.** `Messages`, `Encoding`, `Parsing` say what `packet::serialize` writes and what
  `packet::parse` reads, byte by byte; `RoundTrip`, `Canonical` and `BuiltLists` prove when the two are
  inverse to each other; `OptionList` covers the sorted option list, its bitmap and its binary search.
  `PacketClass` holds the class `Packet`: its methods change fields and buffers in place and are proved
  equal to those functions.
* **The Block2 option and the request.** `Blockwise` is the packing of number, size and M into one to
  three bytes. `Requests` holds the class `Block2` and the option list that `set_header` builds.
  `EndToEnd` proves what a peer reads out of the bytes that the client sends.
* **The download.** `ClientSteps` is `transaction_step` as a function; `Endpoint` holds the classes
  `Connection` and `UriClientEndpoint`, whose methods are proved equal to it. `Sessions` and
  `Retransmissions` are about runs in which anything may arrive. `Download` and `Termination` are about
  runs against a network that loses, duplicates, delays and reorders, and a server that answers as
  section 2.4 of RFC 7959 asks, and that takes the reserved size 2048 of the first request for an upper
  bound where section 2.2 would have it answer 4.00. `Completion` says which of those runs succeed. `IdealRuns` and `MessageIds` show that the assumptions made there can be
  met, and what happens without them. `Storing` says which datagrams can make a client store anything,
  and `Reactions` how the client reacts to each input, case by case.

`UriClass` is the path tokenizer and printer; `UriRequests` connects it to the requests that go out.
`ByteExamples` spells out a request and the longest token byte by byte.
`Bytes` has the helpers for bytes.

## The two builds

The text of the library differs at four points from what it is meant to do. `Build` names the two
readings, and every operation takes it as a parameter:

| point | `AsWritten` | `Intended` |
|---|---|---|
| payload marker | 0: `payloadMarker()` at include/packet.h:236 overrides the default of line 233 | 0xFF, section 3 of RFC 7252 |
| a new `option_t` | its value starts with one zero byte (include/packet.h:173) | its value is empty |
| a packet without payload | the assertion at src/packet.cc:270 fails | it is accepted |
| `find_options` | starts one too far right and scans past both ends (src/packet.cc:311, 338, 343) | stays in the list |

`AsWritten` is not only a remark: `AsWrittenCodec`, `AsWrittenClient`, `OptionList.FindAsWrittenExact`
and `EndToEnd.RequestMeaningAsWritten` prove what it does. Of the packets of a
conforming peer, with option deltas and lengths up to 268, it rejects or stops at all but one kind: an option that repeats the number before it with an empty value has
the header byte zero, which is taken for the marker. GET coap://h/a/ is such a packet. `Intended` repairs these four points and
nothing else. All other peculiarities are the code's own in both builds, and the theorems state exactly
how far they reach: the two-byte extension (`RoundTrip.ReadBackExact`), the eight-bit `optNumDelta`
(`RoundTrip.DeltaReadsBack`), the three-byte Block option marked TODO (`Blockwise.BlockRoundTripExact`),
the strict assertions of the writing run (`Encoding.WritableByChecks`), the loop of the parser that looks
one byte past its buffer (`PacketClass.Packet.ParseOptions` shows that this byte never matters), and the
token that outlives the packet it came with (`Retransmissions.TokenLeaks`).

Assertions are taken as active. A failed assertion, or a read outside a vector, is the outcome `Aborted`
of a call and the phase `Halted` of the client.

## How far the main results reach

* `RoundTrip.RoundTripExact`, `Canonical.CanonicalExact`, `Blockwise.BlockRoundTripExact`,
  `EndToEnd.RequestMeaningExact`, `UriClass.UriRoundTripExact`, `AsWrittenCodec.AsWrittenRoundTripExact`,
  `AsWrittenCodec.StandardPacketAcceptedExact`, `Storing.StorableExact`, `MessageIds.BoundsExact`,
  `Retransmissions.NonZeroIdExact` and `IdealRuns.IdealDownloadExact` are equivalences: they say when the code does what is promised, and that
  it does not everywhere else.
* `Download.DownloadSafe` covers every run of any length with `start()`, `stop()` and `set_received()` at
  any time. It assumes of the client: the repaired build, a path whose request fits the buffer of 2500
  bytes, drawn message ids whose successors do not wrap before the last block, and no `start()` after the
  last block. Of the resource: at most 4096 blocks of the server's least size. Of the server's answers:
  options in the range of `RoundTrip.OptionsFit`, at most 2500 bytes, and, with code 2.05, exactly one
  Block2 option and the slice at the offset that was asked for. Of the network: it may lose, duplicate,
  delay and reorder answers and deliver anything else, also bytes that do not parse and empty datagrams,
  but no forged acknowledgement of an id that was sent. An empty datagram stops the process at the
  assertion at src/packet.cc:281; nothing else does, and the file is right then too.
* What each of the limits costs: the bounds on ids and on the number of blocks are exact for the file
  (`MessageIds.BoundsExact`), the latter also for a loss-free download to end
  (`IdealRuns.IdealDownloadExact`), and
  `IdealRuns.WrongBlockStored` and `IdealRuns.RestartRepeatsLastBlock` show the wrong files.
* `Termination.FirstDownloadTerminates` has the assumptions of `Download.DownloadSafe` and needs no
  fairness: the network may lose everything. With a least block size of 16 bytes the bound
  is 10 * max(1, ceil(n / 16)) + 1 steps for a resource of n bytes.
  `Completion.DownloadCompletes` adds what it takes for the end to be COMPLETE.
* Between two blocks `Retransmissions.RetransmissionsAgree` needs ids other than zero, which the client
  takes for none although `generate_message_id` can return it; `Retransmissions.NonZeroIdExact` and
  `Retransmissions.OneIdExact` say exactly when, and `Retransmissions.RetransmissionsBounded` holds for
  every id.

## Model

| member | source | states |
|---|---|---|
| RoundTrip.RoundTripExact | src/packet.cc:277-290 | parse after serialize restores header byte, code, message id, visible token, option list and payload if and only if the version is 1, no value exceeds 268 bytes, and each number follows its predecessor in the range that the delta arithmetic handles |
| RoundTrip.ReadBackExact | src/packet.cc:207-228 | the extension that one lambda writes is read back by the other exactly for values up to 268; the two-byte form never is, since eight-bit truncation and the opposite byte order leave a value that ends in 11 or 12 |
| RoundTrip.DeltaReadsBack | src/packet.cc:442-453 | with `optNumDelta` cut to eight bits, an option number survives if and only if both numbers stay below the truncation (p <= 255, p <= n <= p + 268), or p >= 512 and n == p + 11, where two defects cancel |
| RoundTrip.OptionsReadBack | src/packet.cc:184-265 | wherever an encoded option list stands in a buffer, the parser's loop yields that list and stops right behind it if the list fits, and otherwise never yields it |
| RoundTrip.HeadReadsBack | src/packet.cc:420-454 | an option header that serialize writes is never the byte 0xFF, and the parser takes from it the delta, the length and the start of the value |
| RoundTrip.FitAtTheLimits | src/packet.cc:420-459 | concrete lists on both sides of the condition: 255, 520, 531 survives, and 255, 520, 532, a number of 269, and a value of 269 bytes do not |
| BuiltLists.BuiltPacketsSurvive | src/packet.cc:492-507 | every list that clean_options, add_option and find_options can build, in any order of calls, survives serialize and parse |
| BuiltLists.BuiltIsSorted | src/packet.cc:504-505 | such a list is sorted at every moment and holds only numbers up to 60 and values up to 256 bytes, so no delta in serialize is negative |
| BuiltLists.AddLimits | src/packet.cc:495-496 | add_option takes exactly numbers up to 60 and values up to 256 bytes |
| Canonical.CanonicalExact | src/packet.cc:370-489 | serialize after parse gives the accepted buffer back if and only if every option on the wire is in canonical form and no marker stands without payload |
| Canonical.OptionsRewritten | src/packet.cc:415-460 | the same for the stretch of options alone, by induction over the wire |
| Canonical.ParseInjective | src/packet.cc:277-290 | two canonical buffers that parse to one message are one buffer |
| Parsing.ParsePartitionsBuffer | src/packet.cc:184-275 | header, token, the options one after the other, marker and payload cover an accepted buffer exactly: no byte is dropped or used twice |
| Parsing.OptionsPartition | src/packet.cc:198-261 | wherever the parser's loop starts, the options it has pushed are the stretches between its cuts, also where it fails; then the last cut is the header that cannot be read |
| Parsing.HeadExact | src/packet.cc:200-248 | an option header is read if and only if neither nibble is 15 and everything up to the end of its value is in the buffer; delta, length, start of the value and both error codes are those of the bytes |
| Parsing.ParseExact | src/packet.cc:139-290 | for every buffer and packet, the outcome of parse and every field afterwards in literal numbers, on success and on each error |
| Parsing.NumbersAscend | src/packet.cc:249-250 | over every buffer, the parsed option numbers never decrease if and only if the 16-bit running sum of the deltas does not wrap |
| Parsing.WrappingBuffer | src/packet.cc:249-250 | the options E0 F2 FE 10 are read as number 65535 followed by number 0 |
| Sessions.ParseForgets | src/packet.cc:267-275 | what parse makes of a buffer depends on the packet it starts from only through the old payload, which it appends to |
| Encoding.SizeIsLength | src/packet.cc:370-489 | the dry run's length, counted from nibble ranges, is the number of bytes that the writing run writes |
| Encoding.EncodeOptionsConcat | src/packet.cc:415-460 | the bytes of two lists in a row are those of the first, then those of the second with the first's last number cut to eight bits as predecessor |
| Encoding.WritableByChecks | src/packet.cc:408-485 | the inner assertions and the length check all hold if and only if the buffer is longer than the packet, or exactly as long and the packet ends in a payload or a non-empty value |
| PacketClass.Packet.Serialize | src/packet.cc:370-489 | both modes return the same length; the writing run fills every index below that length and changes no other, aborts exactly when an assertion up to the end of the options fails, and rejects exactly when only the payload does not fit |
| PacketClass.Packet.WriteOptions | src/packet.cc:412-460 | the loop writes the encodings of the options one after the other and stops the process exactly when a strict assertion fails |
| PacketClass.Packet.WriteOption | src/packet.cc:442-459 | one option's header, extensions and value land at the offset and nothing else changes |
| PacketClass.OptionMaker | src/packet.cc:420-434 | the lambda writes zero, one or two bytes at the offset, or in a dry run none, and advances by that many |
| PacketClass.OptionParser | src/packet.cc:207-228 | despite bounds that are one too weak, what the lambda reads past the buffer is used only when its caller rejects the option |
| PacketClass.Packet.ParseHeader | src/packet.cc:139-164 | a short buffer changes nothing, a wrong version only the header byte, and otherwise header, code and big-endian id are taken over |
| PacketClass.Packet.ParseToken | src/packet.cc:166-182 | the token is cleared even on failure; on success it is the bytes behind the header padded with zeros |
| PacketClass.Packet.ParseOptions | src/packet.cc:184-265 | options, outcome and payload offset are a function of the first length bytes alone, including the options left behind by an error; the bitmap is empty afterwards |
| PacketClass.Packet.ParsePayload | src/packet.cc:267-275 | the bytes behind the marker are appended to the payload; without marker the assertion decides |
| PacketClass.Packet.Parse | src/packet.cc:277-290 | the whole packet after parse, on success and on every error path, is the parsing function of the old packet and the bytes |
| PacketClass.Packet.FindOptions | src/packet.cc:309-353 | the list is left sorted; the result is an index with the number, or none; quantity counts the options with it |
| PacketClass.Packet.Search | src/packet.cc:322-351 | the loop on min and max computes the recursive search, and everything left of min is smaller |
| PacketClass.Packet.CountRun | src/packet.cc:335-346 | the two inner loops count the run of equal numbers, and leave the vector exactly when the run touches one of its ends |
| PacketClass.Packet.AddOption | src/packet.cc:492-507 | the option is added to the sorted list and its bit is set |
| PacketClass.Packet.CleanOptions | include/packet.h:292-297 | list and bitmap are empty |
| PacketClass.Packet.SetOptionBitmap | src/packet.cc:292-298 | exactly the bit of that number is added in the right word |
| PacketClass.Packet.MakeRequest | src/packet.cc:530-548 | version, type, code, id and payload are replaced; a token length of zero keeps the old token and its length |
| PacketClass.Packet.GenerateToken | src/packet.cc:509-519 | the first bytes of the token are the drawn ones, the rest and the other header bits stay |
| OptionList.FindRefinesScan | src/packet.cc:309-353 | on a sorted list the binary search finds an option if and only if a linear scan would |
| OptionList.FindAsWrittenExact | src/packet.cc:311-346 | as written the lookup leaves the vector unless a larger number stands last and, if the number occurs, a smaller one stands first; inside those bounds it is right |
| OptionList.ProbeExact | src/packet.cc:324-350 | the search invariant from any bounds: a miss means absence, and index size is probed exactly when all numbers are smaller |
| OptionList.SelectRun | src/packet.cc:335-346 | the length of the run of equal numbers is the count of options with the number |
| OptionList.ListIsSortedHistory | src/packet.cc:492-507 | after any calls of clean, add, find and parse the list holds exactly what was added since, equal numbers in order of addition, and sorted unless a parse filled it last |
| OptionList.SortProperties | src/packet.cc:505 | sorting gives a sorted permutation |
| OptionList.SortStable | src/packet.cc:505 | options with one number keep their order, as section 5.4.5 of RFC 7252 needs for the path |
| OptionList.SortAfterEachAdd | src/packet.cc:504-505 | sorting after every addition gives what one sort at the end gives |
| OptionList.SortedPermutationMaySwap | src/packet.cc:505 | sorted and a permutation, which is all that std::sort promises, would allow two path segments to change places |
| OptionList.BitmapExact | src/packet.cc:292-306 | over every sequence of calls a bit is set if and only if its number was given to add_option since the last clean or parse |
| OptionList.BitmapAgrees | src/packet.cc:292-306 | so a set bit means that the option is in the list, and conversely while no parse has filled it |
| OptionList.WithExact | src/packet.cc:292-306 | setting one bit changes the answer for that number only |
| OptionList.WithFits | src/packet.cc:292-298 | a number below 32 changes the first word only and one below 64 the second only, and both stay 32-bit words |
| OptionList.SetBitExact | src/packet.cc:292-306 | the bit that is set can be read back, and all other bits of the word stay |
| OptionList.SetBitBound | include/packet.h:201 | setting a bit below the width keeps the word within its width |
| AsWrittenCodec.AsWrittenRoundTripExact | include/packet.h:236 | as written, a message survives serialize and parse if and only if its version is 1 and it has a payload and no options, or no payload and one option, numbered up to 268, of exactly 525 zero bytes |
| AsWrittenCodec.StandardPacketAcceptedExact | include/packet.h:236 | as written, a packet serialized with the marker 0xFF and option fields up to 268 is accepted if and only if some option header is zero; then the options before it, the first one grown by a zero byte, and the raw bytes behind it as payload are what is stored, and otherwise the marker is taken for a reserved delta or the assertion on the payload fails |
| AsWrittenCodec.StandardOptionsRead | src/packet.cc:184-265 | the same for the parser's loop, by induction over the options: where it stops and what it has pushed |
| Blockwise.BlockRoundTripExact | src/blockwise.cc:98-184 | decode after encode is exact if and only if the size is one of the eight and the number is below 4096 or one of the multiples of 0x11111 below 2^20 |
| Blockwise.BlockCanonicalExact | src/blockwise.cc:38-96 | encode after decode gives the bytes back if and only if no shorter form exists, with the same exception for three bytes |
| Blockwise.NumberReadsBack | src/blockwise.cc:151-175 | size and M always survive; a number from 4096 on comes back rotated by eight of its twenty bits |
| Blockwise.RotationFixedPoints | src/blockwise.cc:151-159 | that rotation leaves a number alone if and only if 0x11111 divides it |
| Blockwise.LookUpSize | src/blockwise.cc:25-36 | the loop returns the exponent of a size in the table, and 2 for any other |
| IdealRuns.StandardBlockRead | src/blockwise.cc:73-88 | the decoder reads the three-byte form of section 2.2 of RFC 7959 correctly for every number: only the encoder deviates |
| EndToEnd.BlockIsUint | src/blockwise.cc:38-96 | the decoder takes number, M and 2^(SZX+4) of section 2.2 of RFC 7959 out of the value read as one unsigned integer, for each value of one to three bytes |
| EndToEnd.PortReadsBack | src/blockwise.cc:325-326 | the bytes of the Uri-Port option, high byte first, make up the port |
| Requests.Block2.DecodeBlockOption | src/blockwise.cc:38-96 | the fields become the decoded state, and stay as they were on a wrong number or length |
| Requests.Block2.EncodeBlockOption | src/blockwise.cc:98-184 | the bytes are pushed behind what the option's value already holds |
| Requests.Block2.SetHeader | src/blockwise.cc:319-348 | the packet's options are exactly port, path segments in order and Block2; block 0 is asked for with size 2048 and M unset |
| Requests.Block2.GetHeader | src/blockwise.cc:293-317 | the state is read from an option numbered 23, and kept when there is none or it cannot be decoded |
| EndToEnd.RequestMeaning | src/blockwise.cc:319-348 | a peer that parses the request's bytes finds a confirmable GET of version 1 without payload and with no options but these, and reads the client's id, its port, the URI's segments in order, and size, M and number up to the rotation, whatever the packet held before |
| EndToEnd.RequestMeaningExact | src/blockwise.cc:319-348 | the peer reads exactly the client's block if and only if the number is below 4096 or a fixed point of the rotation |
| EndToEnd.RequestMeaningAsWritten | include/packet.h:173 | as written each segment arrives with a zero byte in front, and the Block2 option is readable if and only if the number is below 16 |
| ClientSteps.RequestWritable | src/uriClientEndpoint.cc:88-102 | every request is writable in a buffer of exactly its dry-run size, so the second serialize call never fails |
| ClientSteps.RequestBounded | src/uriClientEndpoint.cc:97 | a request takes at most 30 bytes and six more than the length of each segment, the condition under which the fixed buffer is large enough |
| Endpoint.UriClientEndpoint.constructor | include/uriClientEndpoint.h:76-81 | the fields start in IDLE with no id, no attempt and block 0, on the file's existing content |
| Endpoint.UriClientEndpoint.Start | src/uriClientEndpoint.cc:22-27 | only the next state changes |
| Endpoint.UriClientEndpoint.Stop | src/uriClientEndpoint.cc:28-32 | only the next state changes |
| Endpoint.UriClientEndpoint.SetReceived | include/uriClientEndpoint.h:61-64 | only the flag changes |
| Endpoint.UriClientEndpoint.TransactionStep | src/uriClientEndpoint.cc:34-62 | one step on the mutable client, packet, block state and connection equals the step function: every field, and the datagram that goes out |
| Endpoint.UriClientEndpoint.SendRequestHandler | src/uriClientEndpoint.cc:70-114 | the same for sending, on each of its failing branches |
| Endpoint.UriClientEndpoint.Transmit | src/uriClientEndpoint.cc:88-113 | dry run, writing run and transmission send exactly the encoding of the packet, or fail without sending |
| Endpoint.UriClientEndpoint.ReceiveDataBlockHandler | src/uriClientEndpoint.cc:116-198 | the same for receiving, on each of its failing branches |
| Endpoint.UriClientEndpoint.HandleResponse | src/uriClientEndpoint.cc:151-194 | type, id and code are checked in this order before the block option is looked at |
| Endpoint.UriClientEndpoint.StoreChunk | src/uriClientEndpoint.cc:177-193 | the payload is appended, and block, id and next state move together |
| Endpoint.UriClientEndpoint.Retry | src/uriClientEndpoint.cc:121-133 | the fifth failure resets the counter and reports a timeout, earlier ones send again |
| Endpoint.Connection.Receive | examples/POSIX/common/clientConnection.cc:130-147 | the buffer's first bytes are the datagram cut to the buffer's size; a failure keeps the length |
| Endpoint.Connection.Send | examples/POSIX/common/clientConnection.cc:99-128 | the first length bytes of the buffer go out |
| Sessions.EveryRequestIsSound | src/uriClientEndpoint.cc:70-80 | in every reachable state, whatever has arrived, M is unset, the size is one of the eight without the table's fallback, and building the option fails only for number 1048576 |
| Sessions.RunKeepsSound | src/uriClientEndpoint.cc:34-198 | the invariant behind it over every run against an unrestricted outside |
| Sessions.HaltsExact | src/packet.cc:281 | in the repaired build a step stops the process if and only if it receives an empty datagram |
| Sessions.ChunkIsOnePacket | src/uriClientEndpoint.cc:145-179 | although parse_payload appends, whatever a step adds to the file is the payload of the one datagram of that step |
| Retransmissions.RetransmissionsBounded | src/uriClientEndpoint.cc:75-133 | between two accepted blocks without start() at most five requests go out, all for the same block and path, and the file stays, whatever is parsed in between and whatever ids are drawn |
| Retransmissions.RetransmissionsAgree | src/uriClientEndpoint.cc:83-86 | all of them carry one id, the client's, provided that it has one already or that the ids that may be drawn do not include zero or are nothing but zero; without zero the id is not zero |
| Retransmissions.NonZeroIdExact | src/packet.cc:521-525 | for a client without an id and any set of ids that may be drawn, the requests of every such stretch carry one non-zero id if and only if zero is not in the set |
| Retransmissions.OneIdExact | src/packet.cc:521-525 | they carry one id at all if and only if zero is not in the set, or nothing else is |
| Retransmissions.ZeroIdChanges | src/uriClientEndpoint.cc:83-86 | the run that shows it: zero is drawn, the request times out, and the next one for the same block goes out under another id |
| Retransmissions.RetransmissionsReadAlike | src/uriClientEndpoint.cc:75-87 | a peer reads the same request out of each of them |
| Retransmissions.OnlyAcceptanceMoves | src/uriClientEndpoint.cc:135-197 | file, block and id change only in a transaction step that stores a chunk; start(), stop(), timeouts and every error keep them |
| Retransmissions.SentShape | src/uriClientEndpoint.cc:70-114 | an action sends at most one datagram, and it is a request for the current block |
| Retransmissions.BudgetFalls | src/uriClientEndpoint.cc:121-133 | requests sent plus requests left never grows between accepted blocks |
| Retransmissions.StartSendsExact | src/uriClientEndpoint.cc:70-114 | start() and one step send if and only if the token length left in the packet is at most 8, the block number can be encoded and the transmission works |
| Retransmissions.TokenLeaks | src/packet.cc:539 | two such requests are the same bytes if and only if the packets parsed before them had the same token |
| Retransmissions.StuckForever | src/packet.cc:401-405 | while the packet holds a token length above 8 nothing is ever sent again |
| Retransmissions.BadTokenLengthSticks | src/packet.cc:148-182 | a waiting client is put there by a received datagram of at least four bytes with token length 9 to 15, whatever its version, and by no other input; then nothing is sent in any later run, also after start() |
| Reactions.ReceptionExact | src/uriClientEndpoint.cc:116-198 | for every sound client that waits and every input: next phase, error code, attempts, file, block, id, packet and received flag, by what arrives: nothing in time, a failing receive, a datagram that cannot be parsed, one that answers something else, 4.04, another code, no readable block, or a chunk |
| Reactions.ContentExact | src/uriClientEndpoint.cc:151-193 | the part of it behind a successful parse |
| Reactions.SendExact | src/uriClientEndpoint.cc:70-114 | for every sound client that sends: which cause gives which error code, that a drawn id is kept also when sending fails, and the header, code, id and token of the datagram |
| Reactions.OtherExact | src/uriClientEndpoint.cc:34-68 | a step in IDLE, ERROR or COMPLETE reports that phase, goes to IDLE and changes nothing else |
| Reactions.StopStops | src/uriClientEndpoint.cc:28-32 | after stop() in any phase the next step reports ERROR whatever arrives, and nothing is sent or stored |
| Reactions.RunRests | src/uriClientEndpoint.cc:22-62 | a client in IDLE or on its way to ERROR sends and stores nothing and never completes in any run without start() |
| Reactions.StopThenStart | src/uriClientEndpoint.cc:22-32 | stop(), any run without start(), and start() lead back to sending with the same file, block, id, attempts and packet |
| Reactions.UnparsableEnds | src/uriClientEndpoint.cc:145-150 | after one datagram that cannot be parsed the next step reports ERROR with RECEIVED_PACKET, and nothing more is sent or stored without start() |
| Reactions.FiveRequests | src/uriClientEndpoint.cc:121-133 | without answers exactly five requests go out for a block, the fifth failure and no earlier one ends in ERROR with COAP_TIMEOUT, and start() then allows five again |
| Reactions.FreshTries | include/uriClientEndpoint.h:76-81 | a client that has just been constructed and started has all five of them |
| UriRequests.EveryDatagramIsGet | src/uriClientEndpoint.cc:87 | in either build, every datagram of every run starts with version 1, type confirmable, a token length up to 8 and the code 0.01 |
| Download.DownloadSafe | src/uriClientEndpoint.cc:70-198 | in every reachable state before the last block the file is its old content and exactly the first number * size bytes of the resource; from then on, and at COMPLETE, it is the whole resource; only an empty datagram can stop the process |
| Download.RunKeepsInv | src/uriClientEndpoint.cc:34-198 | the invariant of the protocol over every run, with losses, duplicates, delayed and reordered answers, stray packets, start() and stop() |
| Download.ActKeepsInv | src/uriClientEndpoint.cc:34-62 | every single action keeps it |
| Download.AnswerHandled | src/uriClientEndpoint.cc:151-194 | an answer with the current id is stored with the block the server put into it, or ends the transfer with an error |
| Download.ServedAdvances | src/uriClientEndpoint.cc:183-192 | after a served block the next offset is the end of its payload even if the server chose a smaller size, and a block without M makes the resource whole |
| Download.FindOnly | src/packet.cc:309-353 | sorting and searching find the only option with a number in an unsorted answer |
| Termination.FirstDownloadTerminates | src/uriClientEndpoint.cc:116-198 | under the assumptions of the safety theorem, from start() every run reports COMPLETE or ERROR within 10 * max(1, ceil(n / least)) + 1 steps, also when everything is lost, unless an empty datagram stops the process before |
| Termination.DownloadTerminates | src/uriClientEndpoint.cc:116-198 | the same from any later start(), counted from the bytes still missing |
| Termination.RankBoundsRun | src/uriClientEndpoint.cc:116-198 | the measure made of blocks left, attempts left and phase falls with every step until the end is reported |
| Termination.BlocksForIsCeiling | src/uriClientEndpoint.cc:183-192 | the recursive count of blocks left is max(1, ceil(n / least)) |
| Completion.DownloadCompletes | src/uriClientEndpoint.cc:116-198 | if besides that transmissions work, what arrives can be parsed, and the answer to each request comes with code 2.05 by the fifth attempt at the latest, the run reports COMPLETE with the whole resource within those steps, and ends in no ERROR |
| Completion.FirstDownloadCompletes | src/uriClientEndpoint.cc:22-198 | the same from construction and start() |
| Completion.ActStaysOnTheWay | src/uriClientEndpoint.cc:34-198 | no single action of such a run leads to ERROR or stops the process |
| Completion.RoundIsFavourable | src/uriClientEndpoint.cc:70-198 | the loss-free rounds are such runs |
| IdealRuns.IdealDownloadExact | src/blockwise.cc:151-175 | a loss-free download with a fixed block size ends if and only if the resource has at most 4096 blocks |
| IdealRuns.IdealCompletes | src/uriClientEndpoint.cc:70-198 | it then ends after exactly that many rounds with the whole resource, so the assumptions of the safety theorem can be met |
| IdealRuns.IdealNeverCompletes | src/blockwise.cc:151-175 | otherwise it never ends: after k rounds the client asks for block k up to 4096, then in a cycle of 4080 for 17 to 4096, and each round appends the block that the server reads, 16 for 4096 |
| IdealRuns.WrongBlockStored | src/blockwise.cc:151-159 | in place of block 4096 it stores block 16 again |
| IdealRuns.RestartRepeatsLastBlock | src/uriClientEndpoint.cc:22-27 | start() after the last block appends that block once more |
| IdealRuns.RoundStores | src/uriClientEndpoint.cc:70-198 | one request and its answer store the block that the server read and move the client on |
| IdealRuns.RoundIsBehaved | src/uriClientEndpoint.cc:70-198 | these rounds are what the safety theorem expects of server and network |
| IdealRuns.RoundIsAdmissible | src/uriClientEndpoint.cc:70-198 | with a first id whose successors do not wrap they are runs that the theorem covers |
| IdealRuns.AnswerToIsAnswer | src/uriClientEndpoint.cc:151-176 | the server used here is one that the safety theorem covers |
| MessageIds.BoundsExact | src/uriClientEndpoint.cc:83-86 | for every resource and whatever set of ids the generator may offer, the file is right in every run against that server and network if and only if 4096 blocks of the least size are enough and none of those ids wraps before the last of them (or there is no id to draw) |
| MessageIds.WrappedIdRepeatsBlock | src/uriClientEndpoint.cc:183-187 | for every first id and resource where the ids wrap at some block j, a run in which a duplicate of the first answer is stored as block j |
| MessageIds.RoundIds | src/uriClientEndpoint.cc:183-187 | before round k the client's id is the drawn one plus k, or zero where that wraps |
| Storing.StorableExact | src/uriClientEndpoint.cc:135-194 | in either build, a datagram can make some run store anything if and only if it parses, is an acknowledgement with code 2.05, and get_header reads a block option out of it |
| Storing.StepStoresExact | src/uriClientEndpoint.cc:135-194 | a step of any reachable client stores a chunk if and only if such a datagram arrives under the current id; its payload is what the file gains |
| Storing.NothingIsEverStored | src/uriClientEndpoint.cc:135-194 | in a run without such datagrams the file stays as it was and the client never completes |
| Storing.StorableIsStored | src/uriClientEndpoint.cc:135-194 | start(), one request and one such datagram under the drawn id put its payload into the file, and complete unless M is set |
| AsWrittenClient.StandardStorableExact | include/packet.h:236 | which conforming packets, with option fields up to 268, the client as written stores: a zero option header, and before it a Block2 option of one to three bytes with a smaller number first and a larger one last |
| AsWrittenClient.NothingStandardIsStored | include/packet.h:236 | as written, a client that receives only conforming packets of the other kind never stores a byte and never completes |
| AsWrittenClient.ZeroHeaderAnswerStored | include/packet.h:236 | the answer 60 45 00 07 41 01 D1 06 00 51 01 00 FF 09 makes the client as written store FF 09 and complete |
| AsWrittenClient.TrailingSlashAccepted | include/packet.h:236 | GET coap://h/a/ is accepted as written, with its empty last segment lost and a zero byte in its first value |
| UriRequests.EveryRequestNamesThePath | src/blockwise.cc:327-331 | for every path string that reads as a string URI with segments up to 256 bytes, in every run whatever arrives, every datagram sent can be read by a peer; it carries the client's port, and its Uri-Path values are the pieces of that string, which read as the same URI again |
| UriClass.UriRoundTripExact | src/uri.cc:26-81 | path_to_uri after uri_to_path restores a URI if and only if it has a segment, segments are non-empty and free of slash and zero bytes, the first does not start in 0x30..0x3F, or it is an integer URI whose first value is not negative |
| UriClass.NormalFormIsIdempotent | src/uri.cc:26-81 | reading and printing any path, string or integer, gives a normal form that a second time does not change |
| UriClass.PathExact | src/uri.cc:26-63 | for every path: none if only slashes stand before the first zero byte, an integer URI if the first other byte is 0x30 to 0x3F, and else a string URI of the maximal stretches without slash, in order |
| UriClass.TokensAreStretches | src/uri.cc:49-58 | the tokens are those stretches, by where they begin and end in the path |
| UriClass.CStringExact | src/uri.cc:33 | what is tokenized is the path up to its first zero byte |
| UriClass.PathExamples | src/uri.cc:42-47 | "/a" is the string URI of one segment and "/3/0" the integer URI 3, 0, and both are printed as they were read |
| UriClass.StrtolExact | src/uri.cc:55 | spaces, one sign, then digits up to the first other character, saturating at both ends of a 64-bit long, and zero without digits |
| UriClass.JoinThenTokens | src/uri.cc:65-73 | strtok splits a printed path into exactly the segments it was printed from |
| UriClass.TokensAreClean | src/uri.cc:49-58 | every token is non-empty and free of slash and zero bytes |
| UriClass.LongReadsBack | src/uri.cc:55-78 | strtol undoes to_string for every value of a 64-bit long |
| UriClass.UriObject.ReadPath | src/uri.cc:26-63 | the do-while loop collects the tokens, as text or numbers by the first character, and fails exactly without any token |
| UriClass.UriObject.PrintPath | src/uri.cc:65-81 | the printed segments are appended to the path |
| UriClass.UriObject.FromUri | src/uri.cc:21-24 | the path of an object made from a URI is the printed URI |
| UriClass.NextToken | src/uri.cc:57 | one call of strtok takes off the first token and leaves the others |
| ByteExamples.ExampleRequest | src/uriClientEndpoint.cc:70-114 | a new client for "/a/b" at port 5683 that draws 7 sends 40 01 00 07 72 16 33 41 61 01 62 C1 07 |
| ByteExamples.ExamplePath | src/uri.cc:26-63 | that path string gives those segments |
| ByteExamples.LongestToken | src/packet.cc:166-182 | a packet with a token of eight bytes is read |
| ByteExamples.TooLongToken | src/packet.cc:174-179 | one with nine is refused |

## Left out

- `PacketClass.Packet.Serialize`: requires that the memory behind the buffer holds the options, because memcpy runs before the assertion on the length; the test at src/packet.cc:436 cannot fail after the assertions before it and is omitted.
- `AsWrittenCodec.StandardPacketAcceptedExact`: is about option deltas and lengths up to 268; beyond, the standard uses the two-byte extension, which this library neither writes nor reads as the standard does. `Storing.StorableExact` has no such bound.
- `Download.DownloadSafe`: is about the repaired build, ids that do not wrap, at most 4096 blocks of the server's least size, and no start() after the last block; `AsWrittenClient.StandardStorableExact`, `MessageIds.BoundsExact`, `IdealRuns.WrongBlockStored` and `IdealRuns.RestartRepeatsLastBlock` show why.
- `UriClass.UriObject.ReadPath`: is about a freshly constructed object, the only place from which the method is called; the exception that the constructor throws on failure is the returned flag.
- `Endpoint.Connection.Send`: a short send counts as not sent.
- The timer (`set_tv_sec`) and the select loop: when the received flag is set is arbitrary.
- `OptionList.SortStable`: std::sort is modelled as a stable insertion sort, which common implementations use for short vectors; the standard promises less, see `OptionList.SortedPermutationMaySwap`.
- `OptionList.FindAsWrittenExact`: an access outside the vector ends the call; what such an access might yield is not modelled.
- Integer URIs in the client: its constructor takes the file name from the last string segment, which they do not have; the file name itself is not modelled.
- Sockets, name resolution, argument parsing and console output; the file stream is an append-only byte sequence.
- rand() and time(): drawn ids and tokens are parameters.
- Logging, error texts and stream operators; the header byte cached in option_t.
- Branches for big-endian hosts: include/packet.h:284-290 never selects them.
- The singleton of class packet and its destroyer: memory management only.
- block1, prepare_answer, decode_size_option, _offset and _total: the same shape as what is modelled, or never used by a download.
- The IPv4 and IPv6 text checks of src/connection.cc, the unfinished server endpoint, lwm2m and JSON parts, and the STM32 port.
