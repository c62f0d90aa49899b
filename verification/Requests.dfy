/** block2: the option list of every request, and what a peer reads out of it (src/blockwise.cc:293-348). */
module Requests {
  import opened Bytes
  import opened Messages
  import opened OptionList
  import opened PacketClass
  import opened Blockwise

  type Path = seq<seq<byte>>

  function PathOptions(b: Build, path: Path): (r: seq<CoapOption>)
    ensures |r| == |path|
    ensures forall i :: 0 <= i < |path| ==> r[i] == CoapOption(URI_PATH, b.Blank() + path[i])
  {
    seq(|path|, i requires 0 <= i < |path| => CoapOption(URI_PATH, b.Blank() + path[i]))
  }

  /** htons stores the port with its high byte first. */
  function PortOption(b: Build, port: u16): CoapOption {
    CoapOption(URI_PORT, b.Blank() + [port / 256, port % 256])
  }

  /** The option under construction starts with a blank value, and add_option puts another one in front. */
  function BlockOption(b: Build, value: seq<byte>): CoapOption {
    CoapOption(BLOCK_2, b.Blank() + (b.Blank() + value))
  }

  function RequestOptions(b: Build, port: u16, path: Path, value: seq<byte>): seq<CoapOption> {
    [PortOption(b, port)] + PathOptions(b, path) + [BlockOption(b, value)]
  }

  /** add_option asserts that no segment is longer than OPTION_MAX_LENGTH. */
  predicate SegmentsFit(path: Path) {
    forall i :: 0 <= i < |path| ==> |path[i]| <= OPTION_MAX_LENGTH
  }

  /** The state that set_header encodes: block 0 is always asked for with the largest size and M unset. */
  function Requested(s: BlockState): BlockState {
    if s.number == 0 then BlockState(0, BLOCK_MAX_SIZE, false) else s
  }

  lemma SortedAppend(options: seq<CoapOption>, o: CoapOption)
    requires Sorted(options) && (options != [] ==> options[|options| - 1].number <= o.number)
    ensures Sort(options + [o]) == options + [o] && Sorted(options + [o])
  {
    SortedSnoc(options, o);
    SortOfSorted(options + [o]);
  }

  lemma PathSnoc(b: Build, path: Path, i: nat)
    requires i < |path|
    ensures PathOptions(b, path[..i + 1]) == PathOptions(b, path[..i]) + [CoapOption(URI_PATH, b.Blank() + path[i])]
  {
  }

  lemma BlockValueFits(b: Build, s: BlockState)
    requires EncodeBlock(s).Some?
    ensures |b.Blank() + EncodeBlock(s).value| <= 4
  {
  }

  /** add_option of an option whose number is not smaller than any in the list. */
  method AppendOption(pack: Packet, number: u16, value: seq<byte>)
    requires number <= OPTION_MAX_NUMBER && |value| <= OPTION_MAX_LENGTH
    requires Sorted(pack.options)
    requires pack.options != [] ==> pack.options[|pack.options| - 1].number <= number
    modifies pack`options, pack`bitmap
    ensures pack.options == old(pack.options) + [CoapOption(number, pack.build.Blank() + value)]
    ensures Sorted(pack.options)
  {
    SortedAppend(pack.options, CoapOption(number, pack.build.Blank() + value));
    pack.AddOption(number, value);
  }

  /** The loop over the segments. */
  method AppendPath(pack: Packet, path: Path)
    requires SegmentsFit(path) && pack.options != [] && pack.options[|pack.options| - 1].number <= URI_PATH
    requires Sorted(pack.options)
    modifies pack`options, pack`bitmap
    ensures pack.options == old(pack.options) + PathOptions(pack.build, path)
    ensures Sorted(pack.options) && pack.options[|pack.options| - 1].number <= URI_PATH
  {
    hide Sorted;
    ghost var front := pack.options;
    assert path[..0] == [] && front + PathOptions(pack.build, []) == front;
    for i := 0 to |path|
      invariant pack.options == front + PathOptions(pack.build, path[..i])
      invariant Sorted(pack.options) && pack.options[|pack.options| - 1].number <= URI_PATH
    {
      PathSnoc(pack.build, path, i);
      AppendOption(pack, URI_PATH, path[i]);
    }
    assert path[..|path|] == path;
  }

  class Block2 {
    var number: u32
    var size: u16
    var more: bool

    function State(): BlockState
      reads this
    {
      BlockState(number, size, more)
    }

    constructor ()
      ensures State() == BlockState(0, 0, false)
    {
      number, size, more := 0, 0, false;
    }

    /** decode_block_option; the fields change only when it succeeds. */
    method DecodeBlockOption(option: CoapOption) returns (status: bool)
      modifies this
      ensures status <==> option.number in {23, 27} && DecodeBlock(option.value).Some?
      ensures State() == if status then DecodeBlock(option.value).value else old(State())
    {
      var v := option.value;
      if option.number != BLOCK_1 && option.number != BLOCK_2 {
        return false;
      }
      if |v| < 1 || |v| > 3 {
        return false;
      }
      var last := v[|v| - 1];
      size := SIZES[last % 8];
      more := last / 8 % 2 == 1;
      var leading: int := 0;
      if |v| == 2 {
        leading := v[0];
      } else if |v| == 3 {
        leading := v[0];
        leading := leading * 256 + v[1];
      }
      number := leading * 16 + last / 16;
      return true;
    }

    /** encode_block_option; the bytes are pushed behind what the option's value already holds. */
    method EncodeBlockOption(option: CoapOption) returns (status: bool, r: CoapOption)
      ensures status <==> option.number in {23, 27} && EncodeBlock(State()).Some?
      ensures status ==> r == option.(value := option.value + EncodeBlock(State()).value)
    {
      r := option;
      if option.number != BLOCK_1 && option.number != BLOCK_2 {
        return false, r;
      }
      if size % 16 != 0 || size > BLOCK_MAX_SIZE {
        return false, r;
      }
      var exponent := LookUpSize(size);
      var low: byte := exponent + if more then 8 else 0;
      if number < 16 {
        r := r.(value := r.value + [number * 16 + low]);
      } else if number < 4096 {
        r := r.(value := r.value + [number % 256 / 16 + number / 256 % 16 * 16]);
        r := r.(value := r.value + [number % 16 * 16 + low]);
      } else if number < BLOCK_NUMBERS {
        r := r.(value := r.value + [number % 256]);
        r := r.(value := r.value + [number / 256 % 256 / 16 + number / 65536 % 16 * 16]);
        r := r.(value := r.value + [number / 256 % 16 * 16 + low]);
      } else {
        return false, r;
      }
      return true, r;
    }

    /** block2::set_header: forget the packet's options, then port, path and block, in that order. */
    method SetHeader(port: u16, path: Path, pack: Packet) returns (status: bool)
      requires SegmentsFit(path)
      modifies this, pack`options, pack`bitmap
      ensures State() == Requested(old(State()))
      ensures status <==> EncodeBlock(State()).Some?
      ensures status ==> pack.options == RequestOptions(pack.build, port, path, EncodeBlock(State()).value)
      ensures !status ==> pack.options == [PortOption(pack.build, port)] + PathOptions(pack.build, path)
    {
      hide EncodeBlock, Sorted;
      pack.CleanOptions();
      AppendOption(pack, URI_PORT, [port / 256, port % 256]);
      AppendPath(pack, path);
      if number == 0 {
        number, more, size := 0, false, BLOCK_MAX_SIZE;
      }
      var option := CoapOption(BLOCK_2, pack.build.Blank());
      status, option := EncodeBlockOption(option);
      if status {
        BlockValueFits(pack.build, State());
        AppendOption(pack, option.number, option.value);
      }
    }

    /** block2::get_header.  Aborted stands for a lookup that leaves the option vector. */
    method GetHeader(pack: Packet) returns (outcome: Outcome)
      modifies this, pack`options
      ensures pack.options == Sort(old(pack.options))
      ensures
        var r := Find(pack.build, pack.options, BLOCK_2);
        match r
        case OutOfRange => outcome == Aborted && State() == old(State())
        case Missing => outcome == Rejected(ErrorCode.DecodeBlockOption) && State() == old(State())
        case Found(k) =>
          var d := DecodeBlock(pack.options[k].value);
          if d.Some? then outcome == Accepted && State() == d.value
          else outcome == Rejected(ErrorCode.DecodeBlockOption) && State() == old(State())
    {
      var r, quantity := pack.FindOptions(BLOCK_2);
      match r {
        case OutOfRange => return Aborted;
        case Missing => return Rejected(ErrorCode.DecodeBlockOption);
        case Found(k) =>
          var status := this.DecodeBlockOption(pack.options[k]);
          return if status then Accepted else Rejected(ErrorCode.DecodeBlockOption);
      }
    }
  }
}
