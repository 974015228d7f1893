/** The G.711 encoders that scripts/gen-wav-fixtures.py and
    scripts/generate_wav_fixtures.py share: what linear_to_alaw and
    linear_to_ulaw compute from a 16-bit linear sample, stated as functions,
    and how the decoder's tables read the codes back. The scripts' loops are
    methods proved against these functions (modules GenWavFixtures and
    GenerateWavFixtures). */
module G711 {
  import opened Bytes
  import DecoderTables

  /** max(lo, min(v, hi)) */
  function Clamp(v: int, lo: int, hi: int): (r: int)
    requires lo <= hi
    ensures lo <= r <= hi
    ensures lo <= v <= hi ==> r == v
    ensures lo < 0 <= hi ==> (r < 0 <==> v < 0)
  {
    if v > hi then hi else if v < lo then lo else v
  }

  function Abs(x: int): nat { if x < 0 then -x else x }

  /** The segment boundaries of the A-law search. */
  const AlawBoundaries: seq<nat> := [32, 64, 128, 256, 512, 1024, 2048, 4096]

  /** The boundary search from index i on: the first index whose boundary
      lies above mag, or 7 when there is none. */
  function AlawSearch(mag: nat, i: nat): (e: nat)
    requires i <= 8
    ensures e < 8
    ensures forall j :: i <= j < e ==> AlawBoundaries[j] <= mag
    ensures e < 7 ==> mag < AlawBoundaries[e]
    decreases 8 - i
  {
    if i == 8 then 7
    else if mag < AlawBoundaries[i] then i
    else AlawSearch(mag, i + 1)
  }

  /** The A-law exponent of a magnitude of at least 32: every boundary below
      it is at most mag, and the boundary at it (for exponents below 7) is
      above mag. */
  function AlawExponent(mag: nat): (e: nat)
    ensures e < 8
    ensures forall j :: 0 <= j < e ==> AlawBoundaries[j] <= mag
    ensures e < 7 ==> mag < AlawBoundaries[e]
  {
    AlawSearch(mag, 0)
  }

  /** The exponent and mantissa linear_to_alaw packs for a magnitude: below
      32, exponent 0 and mantissa mag >> 1; otherwise the searched exponent
      and (mag >> shift) & 0x0F, the shift being exponent + 3 above exponent
      1 and 4 otherwise. */
  function AlawFields(mag: nat): (em: (nat, nat))
    ensures em.0 < 8 && em.1 < 16
  {
    if mag < 32 then (0, mag / 2)
    else
      var e := AlawExponent(mag);
      var shift := if e > 1 then e + 3 else 4;
      (e, mag / Pow2(shift) % 16)
  }

  /** ((exponent << 4) | mantissa) ^ 0x55, with the sign bit or-ed in. */
  function AlawPack(e: nat, m: nat, nonNegative: bool): (r: byte)
    requires e < 8 && m < 16
    ensures r >= 0x80 <==> nonNegative
  {
    Xor55(16 * e + m) + (if nonNegative then 0x80 else 0)
  }

  /** linear_to_alaw: the packed exponent and mantissa of the clamped
      magnitude, with bit 7 set for a non-negative input. */
  function AlawCode(pcm: int): (r: byte)
    ensures r >= 0x80 <==> pcm >= 0
  {
    var c := Clamp(pcm, -32768, 32767);
    var em := AlawFields(Abs(c));
    AlawPack(em.0, em.1, c >= 0)
  }

  /** Above 31 the exponent sits where the magnitude's boundaries put it:
      mag lies in [2^(e+4), 2^(e+5)) for exponents 1 to 6, and from 2048 on
      for exponent 7. */
  lemma AlawExponentRange(mag: nat)
    requires 32 <= mag
    ensures var e := AlawExponent(mag);
      1 <= e && (e < 7 ==> Pow2(e + 4) <= mag < Pow2(e + 5)) && (e == 7 ==> 2048 <= mag)
  {
    Pow2Values();
    var e := AlawExponent(mag);
    assert AlawBoundaries[0] <= mag;
    if e > 1 {
      assert AlawBoundaries[e - 1] <= mag;
    }
  }

  /** For magnitudes 32 to 2047 the shift leaves only the two top bits of
      the segment, so the mantissa is 2 or 3: each of exponents 1 to 6 uses
      two of its sixteen codes. */
  lemma AlawMantissaTwoValues(mag: nat)
    requires 32 <= mag < 2048
    ensures AlawFields(mag).1 == 2 || AlawFields(mag).1 == 3
  {
    AlawExponentRange(mag);
    var e := AlawExponent(mag);
    var d := Pow2(e + 3);
    assert Pow2(e + 4) == 2 * d && Pow2(e + 5) == 2 * Pow2(e + 4);
    DivBetween(mag, d);
    assert AlawFields(mag).1 == mag / d % 16;
  }

  lemma DivBetween(x: nat, d: nat)
    requires d > 0 && 2 * d <= x < 4 * d
    ensures x / d == 2 || x / d == 3
  {
  }

  /** From 4096 on the magnitude is shifted by 10 and the mantissa keeps only
      four bits, so large magnitudes wrap round: 4096 and 20480 give the same
      code, as do their negatives. */
  lemma AlawCodeWraps()
    ensures AlawCode(4096) == AlawCode(20480)
    ensures AlawCode(-4096) == AlawCode(-20480)
  {
    Pow2Values();
    assert Pow2(10) == 1024;
    assert AlawExponent(4096) == 7 && AlawExponent(20480) == 7;
    assert AlawFields(4096) == (7, 4) == AlawFields(20480);
  }

  /** The decoder's A-law table reads back the encoder's exponent and
      mantissa, with the sign reversed: a code for a non-negative input
      expands to a negative value. */
  lemma AlawDecodesReversed(pcm: int)
    ensures var c := Clamp(pcm, -32768, 32767);
      var em := AlawFields(Abs(c));
      DecoderTables.AlawEntry(AlawCode(pcm))
        == (if c >= 0 then -(DecoderTables.AlawMagnitude(em.0, em.1) as int) else DecoderTables.AlawMagnitude(em.0, em.1))
  {
    var c := Clamp(pcm, -32768, 32767);
    var em := AlawFields(Abs(c));
    AlawPackDecodes(em.0, em.1, c >= 0);
  }

  lemma AlawPackDecodes(e: nat, m: nat, nonNegative: bool)
    requires e < 8 && m < 16
    ensures DecoderTables.AlawEntry(AlawPack(e, m, nonNegative))
            == (if nonNegative then -(DecoderTables.AlawMagnitude(e, m) as int) else DecoderTables.AlawMagnitude(e, m))
  {
    CodeFields(e, m);
    AlawCodeDecodes(16 * e + m, nonNegative);
  }

  /** The same for the 7-bit code x: the mask undoes itself, and bit 7 only
      flips the sign. */
  lemma AlawCodeDecodes(x: byte, nonNegative: bool)
    requires x < 0x80
    ensures var mag: int := DecoderTables.AlawMagnitude(DecoderTables.Segment(x), DecoderTables.Step(x));
      DecoderTables.AlawEntry(Xor55(x) + (if nonNegative then 0x80 else 0)) == if nonNegative then -mag else mag
  {
    Xor55Involution(x);
    DecoderTables.AlawEntrySign(Xor55(x));
  }

  /** The 7-bit code 16 * e + m splits back into e and m. */
  lemma CodeFields(e: nat, m: nat)
    requires e < 8 && m < 16
    ensures 16 * e + m < 0x80
    ensures DecoderTables.Segment(16 * e + m) == e && DecoderTables.Step(16 * e + m) == m
  {
  }

  /** The threshold of exponent k in the μ-law search: 1 << (k + 5). */
  function Threshold(k: nat): nat
  {
    Pow2(k + 5)
  }

  /** The μ-law exponent search from e downwards: the first exponent whose
      threshold the biased magnitude b reaches. */
  function UlawSearch(b: nat, e: nat): (r: nat)
    requires 32 <= b && e < 8
    ensures r <= e && Threshold(r) <= b
    ensures forall k :: r < k <= e ==> b < Threshold(k)
  {
    assert Threshold(0) == 32;
    if b >= Threshold(e) then e else UlawSearch(b, e - 1)
  }

  /** The μ-law exponent of a biased magnitude: the largest exponent up to 7
      whose threshold b reaches. Since b >= 132 >= 1 << 5, there always is
      one, so the generator expression in gen-wav-fixtures.py never runs dry. */
  function UlawExponent(b: nat): (e: nat)
    requires 32 <= b
    ensures e < 8 && Threshold(e) <= b
    ensures e < 7 ==> b < Threshold(e + 1)
  {
    UlawSearch(b, 7)
  }

  /** The biased magnitude: |pcm| capped at 32635, plus 132. */
  function UlawBiased(c: int): (b: nat)
    ensures 132 <= b <= 32767
  {
    (if Abs(c) > 32635 then 32635 else Abs(c)) + 132
  }

  /** The exponent and mantissa linear_to_ulaw packs: the searched exponent
      and (b >> (exponent + 1)) & 0x0F. */
  function UlawFields(b: nat): (em: (nat, nat))
    requires 32 <= b
    ensures em.0 < 8 && em.1 < 16
  {
    var e := UlawExponent(b);
    (e, b / Pow2(e + 1) % 16)
  }

  /** (exponent << 4) | mantissa XORed with 0xFF for a negative input and
      with 0x7F otherwise. */
  function UlawPack(e: nat, m: nat, negative: bool): (r: byte)
    requires e < 8 && m < 16
    ensures r >= 0x80 <==> negative
  {
    var code := 16 * e + m;
    if negative then 255 - code else 127 - code
  }

  /** linear_to_ulaw: the packed exponent and mantissa of the biased
      magnitude, with bit 7 set exactly for a negative input. */
  function UlawCode(pcm: int): (r: byte)
    ensures r >= 0x80 <==> pcm < 0
  {
    var c := Clamp(pcm, -32767, 32767);
    var em := UlawFields(UlawBiased(c));
    UlawPack(em.0, em.1, c < 0)
  }

  /** The exponent test uses 1 << (exponent + 5), so every biased magnitude
      from 4096 on gets exponent 7 and a mantissa that wraps round: 3964 and
      8060 give the same code. */
  lemma UlawCodeWraps()
    ensures UlawCode(3964) == UlawCode(8060)
  {
    Pow2Values();
    assert Threshold(7) == 4096;
    assert UlawExponent(4096) == 7 && UlawExponent(8192) == 7;
    assert Pow2(8) == 256;
  }

  /** The decoder's μ-law table reads back the encoder's exponent and
      mantissa with the sign reversed: a code for a negative input expands
      to a non-negative value, and one for a non-negative input to a
      non-positive value. */
  lemma UlawDecodesReversed(pcm: int)
    ensures var c := Clamp(pcm, -32767, 32767);
      var em := UlawFields(UlawBiased(c));
      DecoderTables.UlawEntry(UlawCode(pcm))
        == (if c < 0 then DecoderTables.UlawMagnitude(em.0, em.1) as int else -(DecoderTables.UlawMagnitude(em.0, em.1) as int))
  {
    var c := Clamp(pcm, -32767, 32767);
    var em := UlawFields(UlawBiased(c));
    UlawPackDecodes(em.0, em.1, c < 0);
  }

  lemma UlawPackDecodes(e: nat, m: nat, negative: bool)
    requires e < 8 && m < 16
    ensures DecoderTables.UlawEntry(UlawPack(e, m, negative))
            == (if negative then DecoderTables.UlawMagnitude(e, m) as int else -(DecoderTables.UlawMagnitude(e, m) as int))
  {
    var x := 16 * e + m;
    assert DecoderTables.Segment(x) == e && DecoderTables.Step(x) == m;
    DecoderTables.UlawEntrySign(127 - x);
  }
}
