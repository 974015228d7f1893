/** Bytes and fixed-width integer fields as the generator scripts and the decoder
    handle them: Python's struct.pack / int.to_bytes / int.from_bytes in either
    byte order, and the binary output stream the scripts write to. */
module Bytes {
  import opened Wrappers

  type byte = x: int | 0 <= x < 0x100
  type u16 = x: int | 0 <= x < 0x1_0000
  type u32 = x: int | 0 <= x < 0x1_0000_0000

  const U32Max: int := 0xFFFF_FFFF

  /** Byte order of multi-byte fields: '<' (little) or '>' (big) in a struct format. */
  datatype Endian = Little | Big

  /** 256 to the power w: the number of values a w-byte unsigned field holds. */
  function Pow256(w: nat): (r: nat)
    ensures r >= 1
  {
    if w == 0 then 1 else 256 * Pow256(w - 1)
  }

  /** The value of unsigned little-endian digits. */
  function FromLe(bs: seq<byte>): (v: nat)
    ensures v < Pow256(|bs|)
  {
    if bs == [] then 0 else bs[0] + 256 * FromLe(bs[1..])
  }

  /** The w little-endian digits of v; reading them back gives v. */
  function LeBytes(w: nat, v: nat): (r: seq<byte>)
    requires v < Pow256(w)
    ensures |r| == w && FromLe(r) == v
  {
    if w == 0 then [] else [v % 256] + LeBytes(w - 1, v / 256)
  }

  /** Digits are determined by their value: writing back what was read gives the same bytes. */
  lemma {:induction false} LeBytesFromLe(bs: seq<byte>)
    ensures LeBytes(|bs|, FromLe(bs)) == bs
  {
    if bs != [] {
      LeBytesFromLe(bs[1..]);
      assert FromLe(bs) % 256 == bs[0] && FromLe(bs) / 256 == FromLe(bs[1..]);
    }
  }

  function Reverse(s: seq<byte>): (r: seq<byte>)
    ensures |r| == |s|
    ensures forall i :: 0 <= i < |s| ==> r[i] == s[|s| - 1 - i]
  {
    if s == [] then [] else Reverse(s[1..]) + [s[0]]
  }

  lemma ReverseReverse(s: seq<byte>)
    ensures Reverse(Reverse(s)) == s
  {
  }

  /** int.from_bytes(bs, byteorder) for an unsigned field. */
  function FromBytes(e: Endian, bs: seq<byte>): (v: nat)
    ensures v < Pow256(|bs|)
  {
    if e == Little then FromLe(bs) else FromLe(Reverse(bs))
  }

  /** The w digits of v in byte order e. */
  function UBytes(e: Endian, w: nat, v: nat): (r: seq<byte>)
    requires v < Pow256(w)
    ensures |r| == w
  {
    var le := LeBytes(w, v);
    if e == Little then le else Reverse(le)
  }

  /** Reading the digits back in the same byte order gives v. */
  lemma UBytesValue(e: Endian, w: nat, v: nat)
    requires v < Pow256(w)
    ensures FromBytes(e, UBytes(e, w, v)) == v
  {
    ReverseReverse(LeBytes(w, v));
  }

  /** struct.pack with an unsigned code ('B', 'H', 'I'): Python raises
      (None here) unless the value fits the field. */
  function PackUnsigned(e: Endian, w: nat, v: int): (r: Option<seq<byte>>)
    ensures r.Some? <==> 0 <= v < Pow256(w)
    ensures r.Some? ==> |r.value| == w && FromBytes(e, r.value) == v
  {
    if 0 <= v < Pow256(w) then UBytesValue(e, w, v); Some(UBytes(e, w, v)) else None
  }

  /** Half the range of a w-byte field: a signed w-byte field holds [-Half(w), Half(w)). */
  function Half(w: nat): int
  {
    Pow256(w) / 2
  }

  lemma HalfTwice(w: nat)
    requires w >= 1
    ensures Pow256(w) == 2 * Half(w)
  {
  }

  /** int.from_bytes(bs, byteorder, signed=True): two's complement. */
  function SignedFromBytes(e: Endian, bs: seq<byte>): (v: int)
    requires |bs| >= 1
    ensures -Half(|bs|) <= v < Half(|bs|)
  {
    var u := FromBytes(e, bs);
    HalfTwice(|bs|);
    if u >= Half(|bs|) then u - Pow256(|bs|) else u
  }

  /** struct.pack with a signed code ('h', 'i') and int.to_bytes(w, byteorder,
      signed=True): Python raises (None here) unless the value fits the field. */
  function PackSigned(e: Endian, w: nat, v: int): (r: Option<seq<byte>>)
    requires w >= 1
    ensures r.Some? <==> -Half(w) <= v < Half(w)
    ensures r.Some? ==> |r.value| == w && SignedFromBytes(e, r.value) == v
  {
    HalfTwice(w);
    if -Half(w) <= v < Half(w) then
      UBytesValue(e, w, if v < 0 then v + Pow256(w) else v);
      Some(UBytes(e, w, if v < 0 then v + Pow256(w) else v))
    else
      None
  }

  /** A 16-bit unsigned field ('H'). */
  function U16(e: Endian, v: u16): (r: seq<byte>)
    ensures |r| == 2
  {
    UBytes(e, 2, v)
  }

  /** A 32-bit unsigned field ('I'). */
  function U32(e: Endian, v: u32): (r: seq<byte>)
    ensures |r| == 4
  {
    UBytes(e, 4, v)
  }

  /** An 'H' field reads back as its value. */
  lemma U16Value(e: Endian, v: u16)
    ensures FromBytes(e, U16(e, v)) == v
  {
    UBytesValue(e, 2, v);
  }

  /** An 'I' field reads back as its value. */
  lemma U32Value(e: Endian, v: u32)
    ensures FromBytes(e, U32(e, v)) == v
  {
    UBytesValue(e, 4, v);
  }

  /** The bytes of an ASCII literal such as b"RIFF". */
  function Ascii(s: string): (r: seq<byte>)
    requires forall i :: 0 <= i < |s| ==> s[i] as int < 0x100
    ensures |r| == |s| && forall i :: 0 <= i < |s| ==> r[i] == s[i] as int
  {
    seq(|s|, i requires 0 <= i < |s| => s[i] as int)
  }

  /** n copies of byte b, as b'\x00' * n. */
  function Repeat(b: byte, n: nat): (r: seq<byte>)
    ensures |r| == n && forall i :: 0 <= i < n ==> r[i] == b
  {
    seq(n, _ => b)
  }

  /** 2 to the power k: x << k is x * Pow2(k) and x >> k is x / Pow2(k). */
  function Pow2(k: nat): (r: nat)
    ensures r >= 1
  {
    if k == 0 then 1 else 2 * Pow2(k - 1)
  }

  /** The powers of two the shifts in the source use. */
  lemma Pow2Values()
    ensures Pow2(0) == 1 && Pow2(1) == 2 && Pow2(2) == 4 && Pow2(3) == 8 && Pow2(4) == 16
    ensures Pow2(5) == 32 && Pow2(6) == 64 && Pow2(7) == 128 && Pow2(8) == 256
    ensures Pow2(9) == 512 && Pow2(10) == 1024 && Pow2(11) == 2048 && Pow2(12) == 4096
  {
  }

  /** n ^ 5 on a nibble: flips bits 0 and 2. */
  function Flip5(n: int): (r: int)
    requires 0 <= n < 16
    ensures 0 <= r < 16 && r / 8 == n / 8
  {
    n + (if n % 2 == 0 then 1 else -1) + (if n / 4 % 2 == 0 then 4 else -4)
  }

  lemma Flip5Twice(n: int)
    requires 0 <= n < 16
    ensures Flip5(Flip5(n)) == n
  {
  }

  /** x ^ 0x55 on one byte: the mask 0x55 is 5 in each nibble, so each nibble is flipped by Flip5. */
  function Xor55(x: byte): (r: byte)
    ensures r < 0x80 <==> x < 0x80
  {
    Flip5(x / 16) * 16 + Flip5(x % 16)
  }

  /** Flip5 flips bits 0 and 2 of a nibble and keeps bits 1 and 3. */
  lemma Flip5Bits(n: int)
    requires 0 <= n < 16
    ensures Flip5(n) % 2 == 1 - n % 2 && Flip5(n) / 2 % 2 == n / 2 % 2
    ensures Flip5(n) / 4 % 2 == 1 - n / 4 % 2 && Flip5(n) / 8 == n / 8
  {
    assert n in {0, 1, 2, 3, 4, 5, 6, 7, 8, 9, 10, 11, 12, 13, 14, 15};
  }

  /** Applying the mask twice restores the byte. */
  lemma Xor55Involution(x: byte)
    ensures Xor55(Xor55(x)) == x
  {
    var h, l := Flip5(x / 16), Flip5(x % 16);
    Flip5Twice(x / 16);
    Flip5Twice(x % 16);
    assert (h * 16 + l) / 16 == h && (h * 16 + l) % 16 == l;
  }

  /** A binary output stream (a file opened with 'wb'): every byte written so far, in order. */
  class ByteSink {
    var bytes: seq<byte>

    constructor ()
      ensures bytes == []
    {
      bytes := [];
    }

    method Write(bs: seq<byte>)
      modifies this
      ensures bytes == old(bytes) + bs
    {
      bytes := bytes + bs;
    }
  }
}
