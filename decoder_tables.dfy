/** The integer part of the A-law and μ-law expansion tables that the decoder
    fills once at start-up: for each of the 256 codes, the sign and the
    integer magnitude before the division by the float scale. */
module DecoderTables {
  import opened Bytes

  /** (x & 0x80) ? -1 : 1 */
  function Sign(x: byte): int
  {
    if x >= 0x80 then -1 else 1
  }

  /** (x >> 4) & 0x07 */
  function Exponent(x: byte): nat
  {
    x / 16 % 8
  }

  /** x & 0x0F */
  function Mantissa(x: byte): nat
  {
    x % 16
  }

  /** The A-law magnitude of exponent e and mantissa m: (m << 4) + 8 in the
      first segment, ((1 << 4) | m) << (e + 3) above it. */
  function AlawMagnitude(e: nat, m: nat): (y: nat)
    requires e < 8 && m < 16
    ensures 8 <= y <= 31744
  {
    Pow2Values();
    if e == 0 then m * 16 + 8 else (16 + m) * Pow2(e + 3)
  }

  /** The μ-law magnitude of exponent e and mantissa m: ((33 + (m << 1)) << e) - 33. */
  function UlawMagnitude(e: nat, m: nat): (y: nat)
    requires e < 8 && m < 16
    ensures 0 <= y <= 8031
  {
    Pow2Values();
    (33 + 2 * m) * Pow2(e) - 33
  }

  /** The 7-bit code 16 * e + m, split into exponent and mantissa. */
  function Segment(c: nat): nat requires c < 128 { c / 16 }
  function Step(c: nat): nat requires c < 128 { c % 16 }

  /** The signed value of a byte whose fields are taken directly: bit 7 is
      the sign, bits 4-6 the exponent and bits 0-3 the mantissa. */
  function AlawValue(x: byte): int
  {
    Sign(x) * AlawMagnitude(Exponent(x), Mantissa(x))
  }

  function UlawValue(x: byte): int
  {
    Sign(x) * UlawMagnitude(Exponent(x), Mantissa(x))
  }

  /** Entry i of the A-law table times 32768: the byte is XORed with 0x55
      before its fields are taken. */
  function AlawEntry(i: byte): int
  {
    AlawValue(Xor55(i))
  }

  /** Entry i of the μ-law table times 8031: the fields come from ~i, whose low
      eight bits are 255 - i (the masks 0x80, 0x07 and 0x0F see only those
      bits, and >> on the negative int keeps them in place). */
  function UlawEntry(i: byte): int
  {
    UlawValue(255 - i)
  }

  /** The A-law half of one pass of init_decoder's table loop. */
  method ExpandAlaw(i: byte) returns (v: int)
    ensures v == AlawEntry(i)
  {
    Pow2Values();
    var x := Xor55(i);
    var sign := if x >= 0x80 then -1 else 1;
    var exponent := x / 16 % 8;
    var mantissa := x % 16;
    var magnitude := if exponent == 0 then mantissa * 16 + 8 else (16 + mantissa) * Pow2(exponent + 3);
    v := sign * magnitude;
  }

  /** The μ-law half of one pass of init_decoder's table loop. */
  method ExpandUlaw(i: byte) returns (v: int)
    ensures v == UlawEntry(i)
  {
    var x := 255 - i;
    var sign := if x >= 0x80 then -1 else 1;
    var exponent := x / 16 % 8;
    var mantissa := x % 16;
    var magnitude := (33 + 2 * mantissa) * Pow2(exponent) - 33;
    v := sign * magnitude;
  }

  /** init_decoder's table loop: for every byte i, the A-law and μ-law
      entries. The float tables hold these integers divided by 32768 and by
      8031. */
  method InitDecoder(alaw: array<int>, ulaw: array<int>)
    requires alaw.Length == 256 && ulaw.Length == 256 && alaw != ulaw
    modifies alaw, ulaw
    ensures forall i :: 0 <= i < 256 ==> alaw[i] == AlawEntry(i)
    ensures forall i :: 0 <= i < 256 ==> ulaw[i] == UlawEntry(i)
  {
    for i := 0 to 256
      invariant forall j :: 0 <= j < i ==> alaw[j] == AlawEntry(j)
      invariant forall j :: 0 <= j < i ==> ulaw[j] == UlawEntry(j)
    {
      alaw[i] := ExpandAlaw(i);
      ulaw[i] := ExpandUlaw(i);
    }
  }

  /** The A-law magnitude grows strictly with the 7-bit code: one step of
      the mantissa, or from the top of one segment to the bottom of the next. */
  lemma AlawMagnitudeStep(c: nat)
    requires c < 127
    ensures AlawMagnitude(Segment(c), Step(c)) < AlawMagnitude(Segment(c + 1), Step(c + 1))
  {
    var e, m := c / 16, c % 16;
    var p := Pow2(e + 3);
    if m == 15 {
      assert Segment(c + 1) == e + 1 && Step(c + 1) == 0;
      assert AlawMagnitude(e + 1, 0) == 16 * (2 * p);
      if e == 0 {
        assert p == 8;
      } else {
        assert AlawMagnitude(e, m) == 31 * p;
      }
    } else {
      assert Segment(c + 1) == e && Step(c + 1) == m + 1;
      if e > 0 {
        assert (16 + (m + 1)) * p == (16 + m) * p + p;
      }
    }
  }

  /** The μ-law magnitude grows strictly with the 7-bit code. */
  lemma UlawMagnitudeStep(c: nat)
    requires c < 127
    ensures UlawMagnitude(Segment(c), Step(c)) < UlawMagnitude(Segment(c + 1), Step(c + 1))
  {
    var e := c / 16;
    if c % 16 == 15 {
      assert Segment(c + 1) == e + 1 && Step(c + 1) == 0;
      assert Pow2(e + 1) == 2 * Pow2(e);
    } else {
      assert Segment(c + 1) == e && Step(c + 1) == c % 16 + 1;
    }
  }

  /** Both magnitudes are strictly increasing in the 7-bit code, so each
      half of each table is strictly ordered. */
  lemma {:induction false} MagnitudesIncreasing(c1: nat, c2: nat)
    requires c1 < c2 < 128
    ensures AlawMagnitude(Segment(c1), Step(c1)) < AlawMagnitude(Segment(c2), Step(c2))
    ensures UlawMagnitude(Segment(c1), Step(c1)) < UlawMagnitude(Segment(c2), Step(c2))
    decreases c2 - c1
  {
    AlawMagnitudeStep(c1);
    UlawMagnitudeStep(c1);
    if c1 + 1 < c2 {
      MagnitudesIncreasing(c1 + 1, c2);
    }
  }

  /** XOR with 0x55 leaves bit 7 alone: setting it commutes with the mask. */
  lemma Xor55TopBit(y: byte)
    requires y < 0x80
    ensures Xor55(y + 0x80) == Xor55(y) + 0x80
  {
    var h, l := y / 16, y % 16;
    assert y + 0x80 == (h + 8) * 16 + l;
    assert (y + 0x80) / 16 == h + 8 && (y + 0x80) % 16 == l;
    assert Flip5(h + 8) == Flip5(h) + 8;
  }

  /** A-law entries: negative exactly for codes with bit 7 set, and the
      table is odd-symmetric, entry i + 128 being minus entry i. The
      magnitude is the A-law magnitude of the 7-bit code i ^ 0x55. */
  lemma AlawEntrySign(i: byte)
    requires i < 0x80
    ensures AlawEntry(i) == AlawMagnitude(Segment(Xor55(i)), Step(Xor55(i))) > 0
    ensures AlawEntry(i + 0x80) == -AlawEntry(i)
  {
    Xor55TopBit(i);
    AlawValueSign(Xor55(i));
  }

  /** Setting bit 7 of a byte negates its A-law value. */
  lemma AlawValueSign(x: byte)
    requires x < 0x80
    ensures AlawValue(x) == AlawMagnitude(Segment(x), Step(x))
    ensures AlawValue(x + 0x80) == -AlawValue(x)
  {
    assert (x + 0x80) / 16 % 8 == x / 16 && (x + 0x80) % 16 == x % 16;
  }

  /** μ-law entries: codes below 128 give a non-positive value, codes from
      128 a non-negative one, and entry i + 128 is minus entry i. The
      magnitude is the μ-law magnitude of the 7-bit code 127 - i. */
  lemma UlawEntrySign(i: byte)
    requires i < 0x80
    ensures UlawEntry(i + 0x80) == UlawMagnitude(Segment(127 - i), Step(127 - i)) >= 0
    ensures UlawEntry(i) == -UlawEntry(i + 0x80)
  {
    assert (255 - i) / 16 % 8 == (127 - i) / 16 && (255 - i) % 16 == (127 - i) % 16;
  }
}
