/** Fixed-width integers as the C structures hold them: little-endian bytes of a
    64-bit host (int 4 bytes, size_t, long and loff_t 8 bytes). */
module Bytes {

  datatype Option<+T> = None | Some(value: T)

  type byte = b: int | 0 <= b < 256

  const TWO_TO_THE_31: int := 0x8000_0000
  const TWO_TO_THE_32: int := 0x1_0000_0000
  const TWO_TO_THE_63: int := 0x8000_0000_0000_0000
  const TWO_TO_THE_64: int := 0x1_0000_0000_0000_0000

  /** C `int`, `__u32`, `size_t` and `loff_t`. */
  type int32 = x: int | -TWO_TO_THE_31 <= x < TWO_TO_THE_31
  type uint32 = x: int | 0 <= x < TWO_TO_THE_32
  type uint64 = x: int | 0 <= x < TWO_TO_THE_64
  type int64 = x: int | -TWO_TO_THE_63 <= x < TWO_TO_THE_63

  /** Conversion of an `int` to `__u32` and back. */
  function ToU32(x: int): uint32 {
    x % TWO_TO_THE_32
  }

  function ToI32(u: uint32): int32 {
    if u < TWO_TO_THE_31 then u else u - TWO_TO_THE_32
  }

  function ToU64(x: int): uint64 {
    x % TWO_TO_THE_64
  }

  function ToI64(u: uint64): int64 {
    if u < TWO_TO_THE_63 then u else u - TWO_TO_THE_64
  }

  function Min(a: int, b: int): int {
    if a < b then a else b
  }

  function Max(a: int, b: int): int {
    if a < b then b else a
  }

  function Zeros(n: nat): (bs: seq<byte>)
    ensures |bs| == n
  {
    seq(n, _ => 0)
  }

  function Pow256(width: nat): nat {
    if width == 0 then 1 else 256 * Pow256(width - 1)
  }

  function LittleEndian(v: nat, width: nat): (bs: seq<byte>)
    ensures |bs| == width
  {
    if width == 0 then [] else [v % 256] + LittleEndian(v / 256, width - 1)
  }

  function Value(bs: seq<byte>): nat {
    if bs == [] then 0 else bs[0] + 256 * Value(bs[1..])
  }

  /** A number survives being written in `width` bytes exactly when it fits them. */
  lemma {:induction false} LittleEndianRoundTrip(v: nat, width: nat)
    ensures Value(LittleEndian(v, width)) == v <==> v < Pow256(width)
  {
    if width == 0 {
    } else {
      LittleEndianRoundTrip(v / 256, width - 1);
      var bs := LittleEndian(v, width);
      assert bs[1..] == LittleEndian(v / 256, width - 1);
    }
  }

  lemma {:induction false} ValueBound(bs: seq<byte>)
    ensures Value(bs) < Pow256(|bs|)
  {
    if bs == [] {
    } else {
      ValueBound(bs[1..]);
    }
  }

  lemma Widths()
    ensures Pow256(4) == TWO_TO_THE_32
    ensures Pow256(8) == TWO_TO_THE_64
  {
    assert Pow256(2) == 0x1_0000;
    assert Pow256(4) == 0x1_0000 * 0x1_0000;
    assert Pow256(6) == 0x1_0000 * Pow256(4);
    assert Pow256(8) == 0x1_0000 * Pow256(6);
  }

  function IntBytes(x: int32): (bs: seq<byte>)
    ensures |bs| == 4
  {
    LittleEndian(ToU32(x), 4)
  }

  function ReadInt(bs: seq<byte>): int32
    requires |bs| == 4
  {
    ValueBound(bs);
    Widths();
    ToI32(Value(bs))
  }

  function SizeBytes(n: uint64): (bs: seq<byte>)
    ensures |bs| == 8
  {
    LittleEndian(n, 8)
  }

  function ReadSize(bs: seq<byte>): uint64
    requires |bs| == 8
  {
    ValueBound(bs);
    Widths();
    Value(bs)
  }

  function LongBytes(x: int64): (bs: seq<byte>)
    ensures |bs| == 8
  {
    SizeBytes(ToU64(x))
  }

  function ReadLong(bs: seq<byte>): int64
    requires |bs| == 8
  {
    ToI64(ReadSize(bs))
  }

  lemma IntRoundTrip(x: int32)
    ensures ReadInt(IntBytes(x)) == x
  {
    Widths();
    LittleEndianRoundTrip(ToU32(x), 4);
  }

  lemma SizeRoundTrip(n: uint64)
    ensures ReadSize(SizeBytes(n)) == n
  {
    Widths();
    LittleEndianRoundTrip(n, 8);
  }

  lemma LongRoundTrip(x: int64)
    ensures ReadLong(LongBytes(x)) == x
  {
    SizeRoundTrip(ToU64(x));
  }

  /** `dst` with `src` copied over it from offset `at`: what memcpy leaves behind. */
  function Splice(dst: seq<byte>, at: nat, src: seq<byte>): (r: seq<byte>)
    requires at + |src| <= |dst|
    ensures |r| == |dst|
  {
    dst[..at] + src + dst[at + |src|..]
  }

  /** memcpy into a buffer at an offset. */
  method CopyInto(dst: array<byte>, at: nat, src: seq<byte>)
    requires at + |src| <= dst.Length
    modifies dst
    ensures dst[..] == Splice(old(dst[..]), at, src)
  {
    var i := 0;
    while i < |src|
      invariant 0 <= i <= |src|
      invariant dst[..] == Splice(old(dst[..]), at, src[..i])
    {
      dst[at + i] := src[i];
      i := i + 1;
    }
    assert src[..i] == src;
  }
}
