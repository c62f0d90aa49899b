/** The fixed-width unsigned integers of the C++ sources, written out as ranges of int. */
module Bytes {
  type byte = x: int | 0 <= x < 0x100
  type u16 = x: int | 0 <= x < 0x1_0000
  type u32 = x: int | 0 <= x < 0x1_0000_0000

  datatype Option<+T> = None | Some(value: T)

  function Zeros(n: nat): (r: seq<byte>)
    ensures |r| == n
    ensures forall k :: 0 <= k < n ==> r[k] == 0
  {
    seq(n, _ => 0)
  }

  /** The 16-bit value of two bytes in network order. */
  function Join(high: byte, low: byte): u16 {
    var h: int := high;
    h * 256 + low
  }

  function Min(a: int, b: int): int {
    if a < b then a else b
  }

  lemma SliceOfPrefix(s: seq<byte>, n: nat, from: nat, to: nat)
    requires from <= to <= n <= |s|
    ensures s[..n][from..to] == s[from..to]
  {
  }

  /** push_back of n bytes of buffer, one at a time. */
  method PushBytes(value: seq<byte>, buffer: array<byte>, from: nat, n: nat) returns (r: seq<byte>)
    requires from + n <= buffer.Length
    ensures r == value + buffer[from..from + n]
  {
    r := value;
    for j := 0 to n
      invariant r == value + buffer[from..from + j]
    {
      r := r + [buffer[from + j]];
    }
  }

  /** s with part written over the bytes from i on. */
  function Splice(s: seq<byte>, i: nat, part: seq<byte>): (r: seq<byte>)
    requires i + |part| <= |s|
    ensures |r| == |s|
  {
    s[..i] + part + s[i + |part|..]
  }

  lemma SpliceTwice(s: seq<byte>, i: nat, a: seq<byte>, c: seq<byte>)
    requires i + |a| + |c| <= |s|
    ensures Splice(Splice(s, i, a), i + |a|, c) == Splice(s, i, a + c)
  {
  }

  lemma SpliceNothing(s: seq<byte>, i: nat)
    requires i <= |s|
    ensures Splice(s, i, []) == s
  {
  }

  method PutByte(buffer: array<byte>, offset: nat, value: byte)
    requires offset < buffer.Length
    modifies buffer
    ensures buffer[..] == Splice(old(buffer[..]), offset, [value])
  {
    buffer[offset] := value;
  }

  /** memcpy of src into buffer at offset. */
  method CopyInto(buffer: array<byte>, offset: nat, src: seq<byte>)
    requires offset + |src| <= buffer.Length
    modifies buffer
    ensures buffer[..] == Splice(old(buffer[..]), offset, src)
  {
    hide Splice;
    ghost var s := buffer[..];
    SpliceNothing(s, offset);
    assert src[..0] == [];
    for k := 0 to |src|
      invariant buffer[..] == Splice(s, offset, src[..k])
    {
      PutByte(buffer, offset + k, src[k]);
      SpliceTwice(s, offset, src[..k], [src[k]]);
      assert src[..k + 1] == src[..k] + [src[k]];
    }
    assert src[..|src|] == src;
  }
}
