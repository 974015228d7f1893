/** scripts/generate_fixtures.py: the oldest fixture generator. Its
    linear_to_alaw is a segment table of its own and its linear_to_ulaw a
    linear approximation, neither the G.711 encoder of the other two
    scripts; generate_wav writes a plain 44-byte header (16-byte `fmt `,
    no `fact` chunk, whatever the codec) with the sample rate fixed at
    44100, then one sample per frame and channel. */
module GenerateFixtures {
  import opened Wrappers
  import opened Bytes
  import opened G711
  import opened RiffLayout
  import opened DecoderHeader
  import opened GenWavFixtures
  import opened FixtureParse
  import DecoderTables
  import SampleStream

  /* ------------------------------------------------------------- A-law */

  /** The 7-bit segment value of a magnitude (the input after >> 3):
      itself below 32, then 16 steps per doubling of the magnitude up to
      2047, and 127 from 2048 on. */
  function SegmentValue(m: nat): (v: nat)
    ensures v < 128
  {
    if m < 32 then m
    else if m < 64 then (m - 32) / 2 + 32
    else if m < 128 then (m - 64) / 4 + 48
    else if m < 256 then (m - 128) / 8 + 64
    else if m < 512 then (m - 256) / 16 + 80
    else if m < 1024 then (m - 512) / 32 + 96
    else if m < 2048 then (m - 1024) / 64 + 112
    else 127
  }

  /** linear_to_alaw: the segment value of pcm_val >> 3, or of -p - 1 for
      a negative p, XORed with 0xD5 for a non-negative input and with 0x55
      otherwise. The value is below 0x80, so XOR with 0xD5 is XOR with
      0x55 followed by setting bit 7. */
  function LegacyAlaw(pcmVal: int): (r: byte)
    ensures r >= 0x80 <==> pcmVal >= 0
  {
    var p := pcmVal / 8;
    if p >= 0 then Xor55(SegmentValue(p)) + 0x80 else Xor55(SegmentValue(-p - 1))
  }

  /** The segment value never decreases as the magnitude grows. */
  lemma SegmentValueMonotone(m1: nat, m2: nat)
    requires m1 <= m2
    ensures SegmentValue(m1) <= SegmentValue(m2)
  {
  }

  /** A negative input and its one's complement get the same segment
      value: their codes differ in bit 7 only. */
  lemma LegacyAlawSymmetric(x: int)
    requires x >= 0
    ensures LegacyAlaw(-x - 1) + 0x80 == LegacyAlaw(x)
  {
    assert (-x - 1) / 8 == -(x / 8) - 1;
  }

  /** What the decoder's A-law table makes of a legacy code for a
      non-negative input: minus the A-law magnitude of the segment value,
      that is, a negative value. */
  lemma LegacyAlawEntry(x: int)
    requires x >= 0
    ensures DecoderTables.AlawEntry(LegacyAlaw(x))
            == -(DecoderTables.AlawMagnitude(DecoderTables.Segment(SegmentValue(x / 8)),
                                             DecoderTables.Step(SegmentValue(x / 8))) as int)
  {
    var v := SegmentValue(x / 8);
    DecoderTables.Xor55TopBit(Xor55(v));
    Xor55Involution(v);
    DecoderTables.AlawValueSign(v);
  }

  /** The A-law magnitude of the segment value of m is about 16 * m: from
      15 * m to 16 * m + 8 below 2048, and the top magnitude 31744 from
      2048 on. */
  lemma SegmentMagnitude(m: nat)
    ensures var d := DecoderTables.AlawMagnitude(DecoderTables.Segment(SegmentValue(m)),
                                                 DecoderTables.Step(SegmentValue(m)));
      (m < 2048 ==> 15 * m <= d <= 16 * m + 8) && (m >= 2048 ==> d == 31744)
  {
    Pow2Values();
    var v := SegmentValue(m);
    if m < 32 {
    } else if m < 64 {
      assert v / 16 == 2 && v % 16 == (m - 32) / 2;
    } else if m < 128 {
      assert v / 16 == 3 && v % 16 == (m - 64) / 4;
    } else if m < 256 {
      assert v / 16 == 4 && v % 16 == (m - 128) / 8;
    } else if m < 512 {
      assert v / 16 == 5 && v % 16 == (m - 256) / 16;
    } else if m < 1024 {
      assert v / 16 == 6 && v % 16 == (m - 512) / 32;
    } else if m < 2048 {
      assert v / 16 == 7 && v % 16 == (m - 1024) / 64;
    }
  }

  /** The decoder reads a legacy A-law code back with the sign reversed
      and about twice the input's size: for 0 <= x < 16384 the table value
      is minus 15 to 16 times x >> 3 (plus 8), where the G.711 scale would
      give about x itself; from 16384 on every input gets the code 0xAA and
      the value -31744. */
  lemma LegacyAlawDecoded(x: int)
    requires x >= 0
    ensures x < 16384 ==> 15 * (x / 8) <= -DecoderTables.AlawEntry(LegacyAlaw(x)) <= 16 * (x / 8) + 8
    ensures x >= 16384 ==> LegacyAlaw(x) == 0xAA && DecoderTables.AlawEntry(LegacyAlaw(x)) == -31744
  {
    LegacyAlawEntry(x);
    SegmentMagnitude(x / 8);
  }

  /* ------------------------------------------------------------- μ-law */

  /** The clipping level of linear_to_ulaw. */
  const UlawMax := 32635

  /** linear_to_ulaw: the input clipped to [-32635, 32635], scaled to
      0..32 steps either side of the bias 0x84, and subtracted from 255. */
  function LegacyUlaw(pcmVal: int): (r: byte)
    ensures 91 <= r <= 155
  {
    var c := Clamp(pcmVal, -UlawMax, UlawMax);
    var val := if c >= 0 then 0x84 + c * 32 / UlawMax else 0x84 - Abs(c) * 32 / UlawMax;
    255 - val
  }

  /** Inputs of opposite sign get codes symmetric about 123, the code of 0. */
  lemma LegacyUlawOdd(x: int)
    ensures LegacyUlaw(x) + LegacyUlaw(-x) == 246
  {
  }

  /** The code never increases as the input grows. */
  lemma LegacyUlawMonotone(x: int, y: int)
    requires x <= y
    ensures LegacyUlaw(y) <= LegacyUlaw(x)
  {
    var cx, cy := Clamp(x, -UlawMax, UlawMax), Clamp(y, -UlawMax, UlawMax);
    if 0 <= cx {
      assert cx * 32 <= cy * 32;
    } else if cy < 0 {
      assert Abs(cy) * 32 <= Abs(cx) * 32;
    }
  }

  /** Bit 7 of the code, the sign bit of a G.711 μ-law byte, is set only
      for inputs of -5100 and below. */
  lemma LegacyUlawSignBit(x: int)
    ensures LegacyUlaw(x) >= 0x80 <==> x <= -5100
  {
  }

  /** What the decoder's μ-law table makes of a legacy code: every
      non-negative input reads back as a small negative value, from -131
      to -8 of a full scale of 8031, and every input of -5100 or below as
      a positive value from 2591 to 8031. */
  lemma LegacyUlawDecoded(x: int)
    ensures x >= 0 ==> -131 <= DecoderTables.UlawEntry(LegacyUlaw(x)) <= -8
    ensures x <= -5100 ==> 2591 <= DecoderTables.UlawEntry(LegacyUlaw(x)) <= 8031
  {
    var r := LegacyUlaw(x);
    assert DecoderTables.UlawEntry(r) == DecoderTables.UlawValue(255 - r);
    LegacyUlawSignBit(x);
    if x >= 0 {
      assert r <= 123;
      BiasedValue(255 - r);
    } else if x <= -5100 {
      ClippedValue(255 - r);
    }
  }

  /** The μ-law values of the bytes 132 to 164, the codes of the
      non-negative inputs complemented: sign bit set, exponent 0 to 2. */
  lemma BiasedValue(v: byte)
    requires 132 <= v <= 164
    ensures -131 <= DecoderTables.UlawValue(v) <= -8
  {
    Pow2Values();
    var e, m := v / 16 % 8, v % 16;
    assert e == v / 16 - 8;
    assert DecoderTables.UlawValue(v) == -(DecoderTables.UlawMagnitude(e, m) as int);
  }

  /** The μ-law values of the bytes 100 to 127: sign bit clear, exponent
      6 or 7, mantissa at least 4 in exponent 6. */
  lemma ClippedValue(v: byte)
    requires 100 <= v <= 127
    ensures 2591 <= DecoderTables.UlawValue(v) <= 8031
  {
    Pow2Values();
    var e, m := v / 16 % 8, v % 16;
    assert e == v / 16;
    assert DecoderTables.UlawValue(v) == DecoderTables.UlawMagnitude(e, m);
  }

  /* ------------------------------------------------------------ samples */

  /** RATE: every file is written at 44100 Hz. */
  const Rate := 44100

  /** generate_wav's codec chain: "pcm", "float", "alaw" and "ulaw" get
      the tags 1, 3, 6 and 7; any other codec raises ValueError. */
  function LegacyFormatTag(codec: string): (t: Option<int>)
    ensures t.Some? <==> codec in FormatTags
    ensures t.Some? ==> t.value == FormatTags[codec]
  {
    if codec == "pcm" then Some(1)
    else if codec == "float" then Some(3)
    else if codec == "alaw" then Some(6)
    else if codec == "ulaw" then Some(7)
    else None
  }

  /** The bytes one channel of a frame is written as, None where the
      write raises. 8-bit PCM is packed 'B'; other PCM by its width
      bit_depth // 8: 3 bytes through int.to_bytes with no clamp, 2 or 4
      bytes as 'h' or 'i', and any other width raises KeyError; float
      samples (their IEEE-754 bit pattern) are 'f' or 'd' by width, with
      KeyError otherwise; A-law and μ-law write the legacy code. */
  function LegacySample(codec: string, bits: int, endian: string, v: int): Option<seq<byte>>
  {
    var e := EndianOf(endian);
    if codec == "pcm" then
      if bits == 8 then PackUnsigned(Little, 1, v)
      else if bits / 8 == 3 then ToBytes24(endian, v)
      else if bits / 8 == 2 then PackSigned(e, 2, v)
      else if bits / 8 == 4 then PackSigned(e, 4, v)
      else None
    else if codec == "float" then
      if bits / 8 == 4 then PackUnsigned(e, 4, v)
      else if bits / 8 == 8 then PackUnsigned(e, 8, v)
      else None
    else if codec == "alaw" then Some([LegacyAlaw(v)])
    else if codec == "ulaw" then Some([LegacyUlaw(v)])
    else Some([])
  }

  /** For the codec and depth pairs of the configuration table every
      sample that is written fills bits / 8 bytes. */
  lemma LegacySampleWidth(codec: string, bits: int, endian: string, v: int)
    requires StandardDepth(codec, bits)
    ensures LegacySample(codec, bits, endian, v).Some? ==> |LegacySample(codec, bits, endian, v).value| == bits / 8
  {
  }

  /** A 24-bit sample is not clamped: it is written exactly when it fits
      three signed bytes (and the byte order is "little" or "big"), and
      then the decoder's read_i24_le gives it back. Out of range it raises
      where generate_wav_fixtures.py clamps. */
  lemma Legacy24Raises(endian: string, v: int)
    ensures LegacySample("pcm", 24, endian, v).Some?
            <==> (endian == "little" || endian == "big") && -0x80_0000 <= v <= 0x7F_FFFF
    ensures endian == "little" && -0x80_0000 <= v <= 0x7F_FFFF ==>
              ReadI24Le(LegacySample("pcm", 24, endian, v).value, 0) == v
    ensures (endian == "little" || endian == "big") && v > 0x7F_FFFF ==>
              LegacySample("pcm", 24, endian, v).None? && SineSample("pcm", 24, endian, v).Some?
  {
    assert Half(3) == 0x80_0000;
    if endian == "little" && -0x80_0000 <= v <= 0x7F_FFFF {
      ReadI24LeOfPacked(v);
    }
    if (endian == "little" || endian == "big") && v > 0x7F_FFFF {
      assert Clamp24(v) == 0x7F_FFFF;
    }
  }

  /** The sample bytes of a file: one value per sample index, written
      once per channel; None if a write raises. */
  function LegacyPayload(codec: string, bits: int, endian: string, channels: int, values: seq<int>)
    : Option<seq<byte>>
  {
    SampleStream.EncodeAll(v => LegacySample(codec, bits, endian, v), SampleStream.Flatten(Frames(values, channels)))
  }

  /** The sample bytes the loops leave in the file: those of the samples
      before the first write that raises, all of them if none does. */
  function LegacyWritten(codec: string, bits: int, endian: string, channels: int, values: seq<int>): seq<byte>
  {
    SampleStream.EncodePrefix(v => LegacySample(codec, bits, endian, v), SampleStream.Flatten(Frames(values, channels)))
  }

  /** The num_samples and channels loops: they complete exactly when every
      sample can be written, and have then written the whole payload; when
      a write raises, the samples before it stay in the file. */
  method WriteLegacySamples(f: ByteSink, codec: string, bits: int, endian: string, channels: int, values: seq<int>)
    returns (complete: bool)
    modifies f
    ensures complete <==> LegacyPayload(codec, bits, endian, channels, values).Some?
    ensures complete ==> f.bytes == old(f.bytes) + LegacyPayload(codec, bits, endian, channels, values).value
    ensures f.bytes == old(f.bytes) + LegacyWritten(codec, bits, endian, channels, values)
  {
    var frames := Frames(values, channels);
    var enc := v => LegacySample(codec, bits, endian, v);
    var written := SampleStream.WriteFrames(f, enc, frames);
    complete := written == |SampleStream.Flatten(frames)|;
    if complete {
      assert SampleStream.Flatten(frames)[..written] == SampleStream.Flatten(frames);
    }
  }

  /** For the configuration table's pairs, a complete payload is exactly
      data_chunk_size = num_samples * block_align bytes. */
  lemma LegacyPayloadLength(codec: string, bits: int, endian: string, channels: int, values: seq<int>)
    requires StandardDepth(codec, bits) && channels >= 0
    requires LegacyPayload(codec, bits, endian, channels, values).Some?
    ensures |LegacyPayload(codec, bits, endian, channels, values).value| == |values| * BlockAlign(channels, bits)
  {
    var enc := v => LegacySample(codec, bits, endian, v);
    var frames := Frames(values, channels);
    var flat := SampleStream.Flatten(frames);
    forall j | 0 <= j < |flat| ensures enc(flat[j]).Some? ==> |enc(flat[j]).value| == bits / 8 {
      LegacySampleWidth(codec, bits, endian, flat[j]);
    }
    SampleStream.PayloadLength(enc, frames, channels, bits / 8);
  }

  /* ------------------------------------------------------------- header */

  /** The `fmt ` chunk as generate_wav writes it: id, size 16, fields. */
  method WriteFmtChunk(f: ByteSink, e: Endian, fmtData: seq<byte>)
    modifies f
    ensures f.bytes == old(f.bytes) + (ChunkHeader(e, FmtId, 16) + fmtData)
  {
    f.Write(FmtId);
    f.Write(U32(e, 16));
    f.Write(fmtData);
  }

  /** The `data` chunk header: id, then data_chunk_size. */
  method WriteDataHeader(f: ByteSink, e: Endian, dataSize: int)
    requires U32Fits(dataSize)
    modifies f
    ensures f.bytes == old(f.bytes) + ChunkHeader(e, DataId, dataSize)
  {
    f.Write(DataId);
    f.Write(U32(e, dataSize));
  }

  /** The writes after file_size is packed: the size, "WAVE", the `fmt `
      chunk and the `data` header. */
  method WriteLegacyRest(f: ByteSink, e: Endian, fileSize: int, fmtData: seq<byte>, dataSize: int)
    requires U32Fits(fileSize) && U32Fits(dataSize)
    modifies f
    ensures f.bytes == old(f.bytes) + (U32(e, fileSize) + WaveId
                                       + (ChunkHeader(e, FmtId, 16) + fmtData + ChunkHeader(e, DataId, dataSize)))
  {
    f.Write(U32(e, fileSize));
    f.Write(WaveId);
    WriteFmtChunk(f, e, fmtData);
    WriteDataHeader(f, e, dataSize);
    Nest(old(f.bytes), U32(e, fileSize) + WaveId, ChunkHeader(e, FmtId, 16) + fmtData, ChunkHeader(e, DataId, dataSize));
  }

  lemma Nest(o: seq<byte>, h: seq<byte>, c: seq<byte>, d: seq<byte>)
    ensures o + h + c + d == o + (h + (c + d))
  {
  }

  lemma Flatten3(o: seq<byte>, r: seq<byte>, u: seq<byte>, w: seq<byte>, x: seq<byte>)
    ensures o + r + (u + w + x) == o + (r + u + w + x)
  {
  }

  /** The header writes of generate_wav once the `fmt ` fields are packed:
      the container tag, then file_size, which raises if it does not fit
      in 32 bits, then the rest. */
  method WriteLegacyHeader(f: ByteSink, e: Endian, fileSize: int, fmtData: seq<byte>, dataSize: int)
    returns (ok: bool)
    requires 0 <= dataSize && fileSize == 36 + dataSize
    modifies f
    ensures ok <==> U32Fits(fileSize)
    ensures ok ==> f.bytes == old(f.bytes) + (RiffTag(e) + U32(e, fileSize) + WaveId
                                              + (ChunkHeader(e, FmtId, 16) + fmtData + ChunkHeader(e, DataId, dataSize)))
    ensures !ok ==> f.bytes == old(f.bytes) + RiffTag(e)
  {
    f.Write(RiffTag(e));
    if !U32Fits(fileSize) {
      return false;
    }
    WriteLegacyRest(f, e, fileSize, fmtData, dataSize);
    Flatten3(old(f.bytes), RiffTag(e), U32(e, fileSize), WaveId,
             ChunkHeader(e, FmtId, 16) + fmtData + ChunkHeader(e, DataId, dataSize));
    ok := true;
  }

  /** data_chunk_size: one block per frame; never negative once block_align
      fits its 'H' field. */
  function DataChunkSize(frames: nat, channels: int, bits: int): (r: int)
    ensures BlockAlign(channels, bits) >= 0 ==> r >= 0
  {
    frames * BlockAlign(channels, bits)
  }

  /** generate_wav for one configuration. An unknown codec raises before
      the file is opened, and so does a `fmt ` field that does not fit its
      struct.pack code; a file_size beyond 32 bits raises after the tag is
      written; a sample that cannot be written raises in the loop and leaves
      the header and the samples before it. On success the file is the
      plain header with RIFF size 36 + data_chunk_size, then the samples. */
  method GenerateWav(f: ByteSink, codec: string, bits: int, channels: int, endian: string, values: seq<int>)
    returns (ok: bool)
    modifies f
    ensures LegacyFormatTag(codec).None? ==> !ok && f.bytes == old(f.bytes)
    ensures LegacyFormatTag(codec).Some? ==>
      var tag := LegacyFormatTag(codec).value;
      var fits := FmtFieldsFit(tag, channels, Rate, ByteRate(Rate, channels, bits), BlockAlign(channels, bits), bits);
      var dataSize := DataChunkSize(|values|, channels, bits);
      var payload := LegacyPayload(codec, bits, endian, channels, values);
      (ok <==> fits && U32Fits(36 + dataSize) && payload.Some?)
      && (!fits ==> f.bytes == old(f.bytes))
      && (fits && !U32Fits(36 + dataSize) ==> f.bytes == old(f.bytes) + RiffTag(EndianOf(endian)))
      && (ok ==> f.bytes == old(f.bytes) + Header44(EndianOf(endian), tag, channels, Rate, bits, dataSize, 36 + dataSize)
                           + payload.value)
    ensures LegacyFormatTag(codec).Some? ==>
      var tag := LegacyFormatTag(codec).value;
      var fits := FmtFieldsFit(tag, channels, Rate, ByteRate(Rate, channels, bits), BlockAlign(channels, bits), bits);
      var dataSize := DataChunkSize(|values|, channels, bits);
      fits && U32Fits(36 + dataSize) ==>
        f.bytes == old(f.bytes) + Header44(EndianOf(endian), tag, channels, Rate, bits, dataSize, 36 + dataSize)
                   + LegacyWritten(codec, bits, endian, channels, values)
  {
    var tag := LegacyFormatTag(codec);
    if tag.None? {
      return false;
    }
    var e := EndianOf(endian);
    var blockAlign := channels * (bits / 8);
    var byteRate := Rate * blockAlign;
    if !FmtFieldsFit(tag.value, channels, Rate, byteRate, blockAlign, bits) {
      return false;
    }
    var fmtData := FmtBody(e, tag.value, channels, Rate, byteRate, blockAlign, bits);
    var dataSize := DataChunkSize(|values|, channels, bits);
    var fileSize := 4 + (8 + 16) + (8 + dataSize);
    ok := WriteLegacyHeader(f, e, fileSize, fmtData, dataSize);
    if !ok {
      return;
    }
    ok := WriteLegacySamples(f, codec, bits, endian, channels, values);
  }

  /** The declared file_size is the file length minus 8 once the samples
      follow. */
  lemma LegacyFileSize(codec: string, bits: int, endian: string, channels: int, values: seq<int>)
    requires codec in FormatTags && StandardDepth(codec, bits) && channels >= 0
    requires var dataSize := |values| * BlockAlign(channels, bits);
      ChunksFit(FormatTags[codec], channels, Rate, bits, dataSize, None) && U32Fits(36 + dataSize)
      && LegacyPayload(codec, bits, endian, channels, values).Some?
    ensures var dataSize := |values| * BlockAlign(channels, bits);
      36 + dataSize
      == |Header44(EndianOf(endian), FormatTags[codec], channels, Rate, bits, dataSize, 36 + dataSize)
          + LegacyPayload(codec, bits, endian, channels, values).value| - 8
  {
    LegacyPayloadLength(codec, bits, endian, channels, values);
  }

  /** parse_header accepts every complete little-endian file whose
      configuration it validates, A-law and μ-law with their 16-byte
      `fmt ` included, and returns the configured fields with the samples
      right after the 44-byte header. */
  lemma LegacyFileParses(codec: string, bits: int, channels: int, values: seq<int>)
    requires codec in FormatTags && StandardDepth(codec, bits)
    requires var dataSize := |values| * BlockAlign(channels, bits);
      Decodable(FormatTags[codec], channels, Rate, bits, dataSize, None)
      && LegacyPayload(codec, bits, "little", channels, values).Some?
    ensures var tag, dataSize := FormatTags[codec], |values| * BlockAlign(channels, bits);
      ChunksFit(tag, channels, Rate, bits, dataSize, None) && U32Fits(36 + dataSize)
      && var file := Header44(Little, tag, channels, Rate, bits, dataSize, 36 + dataSize)
                     + LegacyPayload(codec, bits, "little", channels, values).value;
      |file| <= U32Max
      && Parse(file) == Parsed(WavHeader(tag, channels, Rate, ByteRate(Rate, channels, bits),
                                         BlockAlign(channels, bits), bits, 44, dataSize))
  {
    var payload := LegacyPayload(codec, bits, "little", channels, values).value;
    LegacyPayloadLength(codec, bits, "little", channels, values);
    Header44Parses(FormatTags[codec], channels, Rate, bits, payload);
  }

  /** For PCM and float the header is byte for byte the one
      write_wav_header writes without a `fact` chunk; for A-law and μ-law
      it lacks the `fmt ` extension word write_wav_header adds. */
  lemma LegacyHeaderAgrees(e: Endian, tag: int, channels: int, bits: int, dataSize: int)
    requires HeaderFits(e, tag, channels, Rate, bits, dataSize, None)
    ensures U32Fits(36 + dataSize)
    ensures !Extended(tag) ==>
      Header44(e, tag, channels, Rate, bits, dataSize, 36 + dataSize) == HeaderBytes(e, tag, channels, Rate, bits, dataSize, None)
    ensures Extended(tag) ==>
      |HeaderBytes(e, tag, channels, Rate, bits, dataSize, None)| == 46
  {
    if !Extended(tag) {
      PlainHeaderIs44(e, tag, channels, Rate, bits, dataSize);
    }
  }
}
