/** The Block option of RFC 7959 and the options of every request (src/blockwise.cc, include/blockwise.h). */
module Blockwise {
  import opened Bytes

  const BLOCK_MAX_SIZE: u16 := 2048
  const BLOCK_NUMBERS: u32 := 1048576
  const SIZES: seq<u16> := [16, 32, 64, 128, 256, 512, 1024, 2048]

  /** _number, _size and _more. */
  datatype BlockState = BlockState(number: u32, size: u16, more: bool)

  /** size_to_sizeoption; anything that is not in the table counts as 64. */
  function SizeToOption(size: u16): (r: byte)
    ensures r < 8
    ensures size in SIZES ==> SIZES[r] == size
    ensures size !in SIZES ==> r == 2
  {
    if size == 16 then 0 else if size == 32 then 1 else if size == 64 then 2 else if size == 128 then 3
    else if size == 256 then 4 else if size == 512 then 5 else if size == 1024 then 6
    else if size == 2048 then 7 else 2
  }

  method LookUpSize(size: u16) returns (r: byte)
    ensures r == SizeToOption(size)
  {
    for opt := 0 to 8
      invariant forall k :: 0 <= k < opt ==> SIZES[k] != size
    {
      if SIZES[opt] == size {
        return opt;
      }
    }
    return 2;
  }

  /** The low four bits of the option: the size exponent and the more bit. */
  function LowBits(b: BlockState): (r: byte)
    ensures r < 16
  {
    SizeToOption(b.size) + if b.more then 8 else 0
  }

  /** What encode_block_option pushes, if it succeeds.  The three-byte form is marked TODO in the source. */
  function EncodeBlock(b: BlockState): (r: Option<seq<byte>>)
    ensures r.Some? <==> b.size % 16 == 0 && b.size <= 2048 && b.number < 1048576
    ensures r.Some? ==> |r.value| == if b.number < 16 then 1 else if b.number < 4096 then 2 else 3
  {
    var n := b.number;
    if b.size % 16 != 0 || b.size > BLOCK_MAX_SIZE then None
    else if n < 16 then Some([n * 16 + LowBits(b)])
    else if n < 4096 then Some([n % 256 / 16 + n / 256 % 16 * 16, n % 16 * 16 + LowBits(b)])
    else if n < BLOCK_NUMBERS then
      Some([n % 256, n / 256 % 256 / 16 + n / 65536 % 16 * 16, n / 256 % 16 * 16 + LowBits(b)])
    else None
  }

  /** decode_block_option on an option value. */
  function DecodeBlock(v: seq<byte>): (r: Option<BlockState>)
    ensures r.Some? <==> 1 <= |v| <= 3
    ensures r.Some? ==> r.value.size in SIZES && r.value.number < BLOCK_NUMBERS
  {
    if 1 <= |v| <= 3 then
      var last := v[|v| - 1];
      var number: int :=
        if |v| == 1 then v[0] / 16
        else if |v| == 2 then v[1] / 16 + 16 * (v[0] as int)
        else v[2] / 16 + 16 * (v[1] as int) + 4096 * (v[0] as int);
      Some(BlockState(number, SIZES[last % 8], last / 8 % 2 == 1))
    else None
  }

  /** The number a peer reads: up to 4095 the one that was meant, above that a rotation by eight bits. */
  function NumberOnWire(n: u32): u32
    requires n < BLOCK_NUMBERS
  {
    if n < 4096 then n else n / 256 + n % 256 * 4096
  }

  lemma LowBitsReadBack(b: BlockState, high: nat)
    requires b.size in SIZES && high < 16
    ensures var last := high * 16 + LowBits(b);
            last < 256 && SIZES[last % 8] == b.size && (last / 8 % 2 == 1 <==> b.more) && last / 16 == high
  {
    var low := LowBits(b);
    assert (high * 16 + low) % 8 == low % 8 == SizeToOption(b.size);
    assert (high * 16 + low) / 8 % 2 == low / 8;
  }

  lemma HexDigits(n: u32, d4: nat, d3: nat, d2: nat, d1: nat, d0: nat)
    requires d4 < 16 && d3 < 16 && d2 < 16 && d1 < 16 && d0 < 16
    requires n == 65536 * d4 + 4096 * d3 + 256 * d2 + 16 * d1 + d0
    ensures n / 16 == 4096 * d4 + 256 * d3 + 16 * d2 + d1 && n % 16 == d0
    ensures n / 256 == 256 * d4 + 16 * d3 + d2 && n % 256 == 16 * d1 + d0
    ensures n / 4096 == 16 * d4 + d3
    ensures n / 65536 == d4
  {
  }

  lemma HexDigitSums(n: u32, d4: nat, d3: nat, d2: nat, d1: nat, d0: nat)
    requires d4 < 16 && d3 < 16 && d2 < 16 && d1 < 16 && d0 < 16
    requires n == 65536 * d4 + 4096 * d3 + 256 * d2 + 16 * d1 + d0
    ensures n % 256 / 16 == d1 && n / 256 % 16 == d2
    ensures n / 256 % 256 / 16 == d3 && n / 65536 % 16 == d4
  {
    HexDigits(n, d4, d3, d2, d1, d0);
    assert (16 * d1 + d0) / 16 == d1;
    var c := 16 * d3 + d2;
    assert (256 * d4 + c) % 256 == c && c / 16 == d3 && (256 * d4 + c) % 16 == d2;
  }

  lemma DigitSums(n: u32)
    requires n < BLOCK_NUMBERS
    ensures n < 4096 ==> n % 256 / 16 + n / 256 % 16 * 16 == n / 16
    ensures n / 256 % 256 / 16 + n / 65536 % 16 * 16 == n / 4096
    ensures n / 256 % 16 + n / 4096 * 16 == n / 256
    ensures n / 4096 < 256
  {
    var m1, d0 := n / 16, n % 16;
    assert n == 16 * m1 + d0;
    var m2, d1 := m1 / 16, m1 % 16;
    assert m1 == 16 * m2 + d1;
    var m3, d2 := m2 / 16, m2 % 16;
    assert m2 == 16 * m3 + d2;
    var d4, d3 := m3 / 16, m3 % 16;
    assert m3 == 16 * d4 + d3;
    HexDigits(n, d4, d3, d2, d1, d0);
    HexDigitSums(n, d4, d3, d2, d1, d0);
  }

  lemma ValueReadsBack(b: BlockState, lead: seq<byte>, high: nat)
    requires b.size in SIZES && high < 16 && |lead| <= 2
    ensures high * 16 + LowBits(b) < 256
    ensures DecodeBlock(lead + [high * 16 + LowBits(b)]) == Some(b.(number := high
              + (if |lead| == 1 then 16 * (lead[0] as int)
                 else if |lead| == 2 then 16 * (lead[1] as int) + 4096 * (lead[0] as int) else 0)))
  {
    hide LowBits;
    LowBitsReadBack(b, high);
  }

  /** The bytes of encode_block_option, with the shifts and masks worked out. */
  lemma EncodeForms(b: BlockState)
    requires b.size in SIZES && b.number < BLOCK_NUMBERS
    ensures
      var n, low := b.number, LowBits(b);
      EncodeBlock(b) == Some(
        if n < 16 then [] + [n * 16 + low]
        else if n < 4096 then [n / 16] + [n % 16 * 16 + low]
        else [n % 256, n / 4096] + [n / 256 % 16 * 16 + low])
    ensures b.number / 4096 < 256
  {
    hide LowBits;
    var n, low := b.number, LowBits(b);
    DigitSums(n);
    assert [] + [n * 16 + low] == [n * 16 + low];
    assert [n / 16] + [n % 16 * 16 + low] == [n / 16, n % 16 * 16 + low];
    assert [n % 256, n / 4096] + [n / 256 % 16 * 16 + low] == [n % 256, n / 4096, n / 256 % 16 * 16 + low];
  }

  lemma NumberReadsBack(b: BlockState)
    requires b.size in SIZES && b.number < BLOCK_NUMBERS
    ensures EncodeBlock(b).Some?
    ensures DecodeBlock(EncodeBlock(b).value) == Some(b.(number := NumberOnWire(b.number)))
  {
    hide LowBits, DecodeBlock, EncodeBlock;
    var n := b.number;
    EncodeForms(b);
    DigitSums(n);
    if n < 16 {
      ValueReadsBack(b, [], n);
    } else if n < 4096 {
      ValueReadsBack(b, [n / 16], n % 16);
    } else {
      ValueReadsBack(b, [n % 256, n / 4096], n / 256 % 16);
    }
  }

  lemma RotationFixedPoints(n: u32)
    requires 4096 <= n < BLOCK_NUMBERS
    ensures n / 256 + n % 256 * 4096 == n <==> n % 0x11111 == 0
  {
    var a, r := n / 256, n % 256;
    if 4095 * r == 255 * a {
      assert 273 * r == 17 * a;
      assert r % 17 == 0 by {
        assert 273 * r == 17 * (16 * r) + r;
        assert r == 17 * (a - 16 * r);
      }
      assert n == 0x11111 * (r / 17);
    }
    if n % 0x11111 == 0 {
      var k := n / 0x11111;
      assert n == 256 * (273 * k) + 17 * k;
      assert r == 17 * k && a == 273 * k;
    }
  }

  /**
   decode after encode: exact for the eight sizes and for numbers below 4096; above that only for the
   fifteen numbers that a rotation by eight bits leaves alone.
   */
  lemma BlockRoundTripExact(b: BlockState)
    ensures EncodeBlock(b).Some? && DecodeBlock(EncodeBlock(b).value) == Some(b)
            <==> b.size in SIZES && (b.number < 4096 || (b.number < BLOCK_NUMBERS && b.number % 0x11111 == 0))
  {
    if b.size in SIZES && b.number < BLOCK_NUMBERS {
      NumberReadsBack(b);
      hide EncodeBlock, DecodeBlock;
      assert b.(number := b.number) == b;
      if b.number >= 4096 {
        RotationFixedPoints(b.number);
      }
    }
  }

  lemma SizesDistinct(i: byte, j: byte)
    requires i < 8 && j < 8 && SIZES[i] == SIZES[j]
    ensures i == j
  {
  }

  lemma LastByte(x: byte, y: byte)
    requires x % 8 == y % 8 && x / 8 % 2 == y / 8 % 2 && x / 16 == y / 16
    ensures x == y
  {
  }

  lemma LeadingBytes(v0: byte, v1: byte, w0: byte, w1: byte, a: nat, c: nat)
    requires a < 16 && c < 16
    requires a + 16 * (v1 as int) + 4096 * (v0 as int) == c + 16 * (w1 as int) + 4096 * (w0 as int)
    ensures v0 == w0 && v1 == w1 && a == c
  {
  }

  lemma DecodeInjective(v: seq<byte>, w: seq<byte>)
    requires 1 <= |v| == |w| <= 3 && DecodeBlock(v) == DecodeBlock(w)
    ensures v == w
  {
    hide SizeToOption;
    var x, y := v[|v| - 1], w[|w| - 1];
    assert SIZES[x % 8] == SIZES[y % 8] && (x / 8 % 2 == 1 <==> y / 8 % 2 == 1);
    if |v| == 3 {
      LeadingBytes(v[0], v[1], w[0], w[1], x / 16, y / 16);
    } else if |v| == 2 {
      LeadingBytes(0, v[0], 0, w[0], x / 16, y / 16);
    }
    SizesDistinct(x % 8, y % 8);
    LastByte(x, y);
  }

  /** encode after decode: exact when no shorter form would do, with the same exception for three bytes. */
  lemma BlockCanonicalExact(v: seq<byte>)
    requires 1 <= |v| <= 3
    ensures
      var b := DecodeBlock(v).value;
      EncodeBlock(b) == Some(v) <==> |v| == 1 || (v[0] > 0 && (|v| == 2 || b.number % 0x11111 == 0))
  {
    var b := DecodeBlock(v).value;
    BlockRoundTripExact(b);
    NumberClass(v);
    hide EncodeBlock, DecodeBlock;
    if EncodeBlock(b).Some? && |EncodeBlock(b).value| == |v| && DecodeBlock(EncodeBlock(b).value) == Some(b) {
      DecodeInjective(v, EncodeBlock(b).value);
    }
  }

  lemma NumberClass(v: seq<byte>)
    requires 1 <= |v| <= 3
    ensures var n := DecodeBlock(v).value.number;
            n < (if |v| == 1 then 16 else if |v| == 2 then 4096 else BLOCK_NUMBERS)
            && (|v| == 2 ==> (n >= 16 <==> v[0] > 0)) && (|v| == 3 ==> (n >= 4096 <==> v[0] > 0))
  {
  }
}
