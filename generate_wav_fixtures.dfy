/** scripts/generate_wav_fixtures.py: a second fixture generator. Its
    linear_to_alaw is the one of scripts/gen-wav-fixtures.py word for word
    (GenWavFixtures.LinearToAlaw models both); its linear_to_ulaw finds the
    exponent with a for loop and a break instead of a generator
    expression, and computes the same code. Its sine files are built inline
    but byte for byte as write_wav_header builds them; its sweep files
    declare a RIFF size 4 bytes too large; save_wave and
    write_float_wav_header write the plain 44-byte header. */
module GenerateWavFixtures {
  import opened Wrappers
  import opened Bytes
  import opened G711
  import opened RiffLayout
  import opened DecoderHeader
  import opened GenWavFixtures
  import opened FixtureParse

  /* ---------------------------------------------------------------- G.711 */

  /** The exponent a search of the thresholds from 7 down to 0 stops at is
      the one UlawExponent names: the thresholds grow with the exponent, so
      only one exponent is reached by b while every larger one is not. */
  lemma UlawExponentUnique(b: nat, e: nat)
    requires 32 <= b && e < 8 && Threshold(e) <= b
    requires forall k :: e < k <= 7 ==> b < Threshold(k)
    ensures e == UlawExponent(b)
  {
    var r := UlawExponent(b);
    assert forall k :: r < k <= 7 ==> b < Threshold(k);
  }

  /** linear_to_ulaw: clamp to ±32767, cap the magnitude at 32635 and add
      the bias 132, then `for exp in range(7, -1, -1)` breaks at the first
      exponent whose threshold 1 << (exp + 5) the biased magnitude reaches
      (7 if the loop ran out). The code is the same as that of the
      generator-expression version in scripts/gen-wav-fixtures.py. */
  method LinearToUlaw(pcmVal: int) returns (r: byte)
    ensures r == UlawCode(pcmVal)
  {
    var pcm := Clamp(pcmVal, -32767, 32767);
    var negative := pcm < 0;
    var biased := (if Abs(pcm) > 32635 then 32635 else Abs(pcm)) + 132;
    assert biased == UlawBiased(pcm);
    var exponent := 7;
    var exp := 7;
    while exp >= 0
      invariant -1 <= exp <= 7 && exponent == 7
      invariant forall k :: exp < k <= 7 ==> biased < Threshold(k)
      decreases exp + 1
    {
      if biased >= Threshold(exp) {
        exponent := exp;
        break;
      }
      exp := exp - 1;
    }
    assert Threshold(0) == 32;
    UlawCodeFrom(pcmVal, exponent);
    var mantissa := biased / Pow2(exponent + 1) % 16;
    var compressed := 16 * exponent + mantissa;
    // compressed < 0x80, so compressed ^ 0xFF is 255 - compressed and
    // compressed ^ 0x7F is 127 - compressed
    r := if negative then 255 - compressed else 127 - compressed;
  }

  /** The code once the search has stopped at the exponent UlawExponent
      names. */
  lemma UlawCodeFrom(pcmVal: int, exponent: nat)
    requires var b := UlawBiased(Clamp(pcmVal, -32767, 32767));
      exponent < 8 && Threshold(exponent) <= b && forall k :: exponent < k <= 7 ==> b < Threshold(k)
    ensures var c := Clamp(pcmVal, -32767, 32767);
      var b := UlawBiased(c);
      var code := 16 * exponent + b / Pow2(exponent + 1) % 16;
      UlawCode(pcmVal) == if c < 0 then 255 - code else 127 - code
  {
    var c := Clamp(pcmVal, -32767, 32767);
    UlawExponentUnique(UlawBiased(c), exponent);
  }

  /* ---------------------------------------------------------- sine files */

  /** The `fmt ` chunk of generate_fixture_wavs: an 18-byte body ending in
      a zero word for tags 6 and 7, a 16-byte one otherwise; None where the
      fields do not fit their struct codes. */
  method PackSineFmt(e: Endian, tag: int, channels: int, rate: int, bits: int)
    returns (ok: bool, fmtChunk: seq<byte>)
    ensures ok <==> FmtFieldsFit(tag, channels, rate, ByteRate(rate, channels, bits), BlockAlign(channels, bits), bits)
    ensures ok ==> fmtChunk == FmtChunk(e, tag, channels, rate, bits)
  {
    var blockAlign := channels * (bits / 8);
    var byteRate := rate * blockAlign;
    if !FmtFieldsFit(tag, channels, rate, byteRate, blockAlign, bits) {
      return false, [];
    }
    var body := FmtBody(e, tag, channels, rate, byteRate, blockAlign, bits);
    if tag == 6 || tag == 7 {
      fmtChunk := FmtId + U32(e, 18) + (body + U16(e, 0));
    } else {
      fmtChunk := FmtId + U32(e, 16) + body;
    }
    ok := true;
  }

  /** The struct.pack calls of generate_fixture_wavs for one configuration,
      all made before the file is opened. format_tags.get gives None for an
      unknown codec, and packing None raises; the `fact` chunk, carrying the
      frame count, is built for every tag but 1. The pieces are those
      write_wav_header packs. */
  method PackSineChunks(e: Endian, tag: Option<int>, channels: int, rate: int, bits: int, numFrames: nat)
    returns (ok: bool, fmtChunk: seq<byte>, fact: seq<byte>, dataHdr: seq<byte>)
    ensures var dataSize := numFrames * (channels * (bits / 8));
      (ok <==> tag.Some? && ChunksFit(tag.value, channels, rate, bits, dataSize, Some(numFrames)))
      && (ok ==> fmtChunk == FmtChunk(e, tag.value, channels, rate, bits)
                 && fact == FactChunk(e, tag.value, Some(numFrames))
                 && dataHdr == ChunkHeader(e, DataId, dataSize))
  {
    if tag.None? {
      return false, [], [], [];
    }
    var t := tag.value;
    var dataSize := numFrames * (channels * (bits / 8));
    ok, fmtChunk := PackSineFmt(e, t, channels, rate, bits);
    if !ok {
      return false, [], [], [];
    }
    fact := [];
    if t != 1 {
      if !U32Fits(numFrames) {
        return false, [], [], [];
      }
      fact := ChunkHeader(e, FactId, 4) + U32(e, numFrames);
    }
    if !U32Fits(dataSize) {
      return false, [], [], [];
    }
    dataHdr := ChunkHeader(e, DataId, dataSize);
  }

  /** One sine configuration of generate_fixture_wavs. An unknown codec
      raises before the file is opened; otherwise the file gets the
      container tag, the size field (packed only then, so it may still
      raise), "WAVE", the chunks, and one frame per sample value. The file
      is the one scripts/gen-wav-fixtures.py writes for the same
      configuration: write_wav_header's header with a `fact` chunk for
      every tag but 1, then the same sample bytes. When a pack raises, the
      file keeps what was written: the tag alone if the size field does
      not pack, the header and the samples before the failing one if a
      sample does not. */
  method WriteSineFile(f: ByteSink, codec: string, bits: int, channels: int, endian: string,
                       rate: int, values: seq<int>) returns (ok: bool)
    modifies f
    ensures codec !in FormatTags ==> !ok && f.bytes == old(f.bytes)
    ensures codec in FormatTags ==>
      var tag := FormatTags[codec];
      var dataSize := |values| * (channels * (bits / 8));
      var payload := SinePayload(codec, bits, endian, channels, values);
      (ok <==> HeaderFits(EndianOf(endian), tag, channels, rate, bits, dataSize, Some(|values|)) && payload.Some?)
      && (ok ==> f.bytes == old(f.bytes)
                           + HeaderBytes(EndianOf(endian), tag, channels, rate, bits, dataSize, Some(|values|))
                           + payload.value)
      && (!ChunksFit(tag, channels, rate, bits, dataSize, Some(|values|)) ==> f.bytes == old(f.bytes))
    ensures codec in FormatTags ==>
      var tag := FormatTags[codec];
      var dataSize := |values| * (channels * (bits / 8));
      f.bytes == if HeaderFits(EndianOf(endian), tag, channels, rate, bits, dataSize, Some(|values|))
                 then old(f.bytes) + HeaderBytes(EndianOf(endian), tag, channels, rate, bits, dataSize, Some(|values|))
                      + SineWritten(codec, bits, endian, channels, values)
                 else if ChunksFit(tag, channels, rate, bits, dataSize, Some(|values|))
                 then old(f.bytes) + RiffTag(EndianOf(endian))
                 else old(f.bytes)
  {
    var tag := if codec in FormatTags then Some(FormatTags[codec]) else None;
    var e := EndianOf(endian);
    var dataSize := |values| * (channels * (bits / 8));
    var packed, fmtChunk, fact, dataHdr := PackSineChunks(e, tag, channels, rate, bits, |values|);
    if !packed {
      return false;
    }
    HeaderAssembly(e, tag.value, channels, rate, bits, dataSize, Some(|values|), fmtChunk, fact, dataHdr);
    ok := WritePieces(f, e, fmtChunk, fact, dataHdr, dataSize);
    if !ok {
      return;
    }
    ok := WriteSineSamples(f, codec, bits, endian, channels, values);
  }

  /** For the codec and depth pairs of the fixture table, the sample loop
      writes channels * (bits // 8) bytes per frame, so a complete payload
      is exactly the data_size the header declares. */
  lemma SinePayloadLength(codec: string, bits: int, endian: string, channels: int, values: seq<int>)
    requires StandardDepth(codec, bits) && channels >= 0
    requires SinePayload(codec, bits, endian, channels, values).Some?
    ensures |SinePayload(codec, bits, endian, channels, values).value| == |values| * (channels * (bits / 8))
  {
    var enc := v => SineSample(codec, bits, endian, v);
    var frames := Frames(values, channels);
    var flat := SampleStream.Flatten(frames);
    forall j | 0 <= j < |flat| ensures enc(flat[j]).Some? ==> |enc(flat[j]).value| == bits / 8 {
      SineSampleWidth(codec, bits, endian, flat[j]);
    }
    SampleStream.PayloadLength(enc, frames, channels, bits / 8);
  }

  /** The declared file_size is the number of bytes the file holds after
      the size field: the file length minus 8. */
  lemma SineFileSize(codec: string, bits: int, endian: string, channels: int, rate: int, values: seq<int>)
    requires codec in FormatTags && StandardDepth(codec, bits) && channels >= 0
    requires var dataSize := |values| * (channels * (bits / 8));
      HeaderFits(EndianOf(endian), FormatTags[codec], channels, rate, bits, dataSize, Some(|values|))
      && SinePayload(codec, bits, endian, channels, values).Some?
    ensures var dataSize := |values| * (channels * (bits / 8));
      RiffSize(FormatTags[codec], dataSize, Some(|values|))
      == |HeaderBytes(EndianOf(endian), FormatTags[codec], channels, rate, bits, dataSize, Some(|values|))
          + SinePayload(codec, bits, endian, channels, values).value| - 8
  {
    var dataSize := |values| * (channels * (bits / 8));
    SinePayloadLength(codec, bits, endian, channels, values);
    RiffSizeCounts(EndianOf(endian), FormatTags[codec], channels, rate, bits, dataSize, Some(|values|));
  }

  /** parse_header accepts every complete little-endian sine file of a
      configuration whose fields it validates, and returns the configured
      format, channels, rate, byte rate, block alignment and depth, with
      data_size bytes of samples right after the header. */
  lemma SineFileParses(codec: string, bits: int, channels: int, rate: int, values: seq<int>)
    requires codec in FormatTags && StandardDepth(codec, bits)
    requires var dataSize := |values| * (channels * (bits / 8));
      Decodable(FormatTags[codec], channels, rate, bits, dataSize, Some(|values|))
      && SinePayload(codec, bits, "little", channels, values).Some?
    ensures var tag, dataSize := FormatTags[codec], |values| * (channels * (bits / 8));
      HeaderFits(Little, tag, channels, rate, bits, dataSize, Some(|values|))
      && var h := HeaderBytes(Little, tag, channels, rate, bits, dataSize, Some(|values|));
      var file := h + SinePayload(codec, bits, "little", channels, values).value;
      |file| <= U32Max
      && Parse(file) == Parsed(WavHeader(tag, channels, rate, ByteRate(rate, channels, bits),
                                         BlockAlign(channels, bits), bits, |h|, dataSize))
  {
    var payload := SinePayload(codec, bits, "little", channels, values).value;
    SinePayloadLength(codec, bits, "little", channels, values);
    ParseAcceptsHeader(FormatTags[codec], channels, rate, bits, Some(|values|), payload);
  }

  /* --------------------------------------------------------- sweep files */

  /** The sweep's RIFF size as the script computes it: 4 plus chunks_size,
      where chunks_size counts the 24-byte `fmt ` chunk, the 8-byte `data`
      header, the samples and 4 more bytes. */
  function SweepFileSize(dataSize: int): int
  {
    4 + (24 + 8 + dataSize + 4)
  }

  /** The sweep's own format_tags.get: only "pcm" and "float" have a tag,
      and it is the one the sine table gives them, with a plain 16-byte
      `fmt ` body. */
  function SweepTagOf(codec: string): (t: Option<int>)
    ensures t.Some? <==> codec == "pcm" || codec == "float"
    ensures t.Some? ==> codec in FormatTags && t.value == FormatTags[codec] && !Extended(t.value)
  {
    if codec == "pcm" then Some(1) else if codec == "float" then Some(3) else None
  }

  /** The struct.pack calls of generate_sweep_wavs, made before the file is
      opened: the `fmt ` chunk as 'IHHIIHH' with size 16, which raises for
      a codec with no tag, and the `data` header. */
  method PackSweepChunks(e: Endian, tag: Option<int>, channels: int, rate: int, bits: int, numFrames: nat)
    returns (ok: bool, fmtChunk: seq<byte>, dataHdr: seq<byte>)
    ensures var dataSize := numFrames * (channels * (bits / 8));
      (ok <==> tag.Some? && ChunksFit(tag.value, channels, rate, bits, dataSize, None))
      && (ok ==> fmtChunk == ChunkHeader(e, FmtId, 16)
                             + FmtBody(e, tag.value, channels, rate, ByteRate(rate, channels, bits),
                                       BlockAlign(channels, bits), bits)
                 && dataHdr == ChunkHeader(e, DataId, dataSize))
  {
    if tag.None? {
      return false, [], [];
    }
    var blockAlign := channels * (bits / 8);
    var byteRate := rate * blockAlign;
    var dataSize := numFrames * blockAlign;
    if !FmtFieldsFit(tag.value, channels, rate, byteRate, blockAlign, bits) {
      return false, [], [];
    }
    fmtChunk := FmtId + (U32(e, 16) + FmtBody(e, tag.value, channels, rate, byteRate, blockAlign, bits));
    if !U32Fits(dataSize) {
      return false, [], [];
    }
    ok, dataHdr := true, ChunkHeader(e, DataId, dataSize);
  }

  /** The header writes of generate_sweep_wavs: the container tag, then the
      size field 4 + chunks_size (packed only then, so it may still raise),
      "WAVE", the 24-byte `fmt ` chunk and the 8-byte `data` header. */
  method WriteSweepHeader(f: ByteSink, e: Endian, dataSize: int, fmtChunk: seq<byte>, dataHdr: seq<byte>)
    returns (ok: bool)
    requires |fmtChunk| == 24 && |dataHdr| == 8
    modifies f
    ensures ok <==> U32Fits(SweepFileSize(dataSize))
    ensures ok ==> f.bytes == old(f.bytes) + (RiffTag(e) + U32(e, SweepFileSize(dataSize)) + WaveId + fmtChunk + dataHdr)
    ensures !ok ==> f.bytes == old(f.bytes) + RiffTag(e)
  {
    var chunksSize := |fmtChunk| + |dataHdr| + dataSize + 4;
    var fileSize := 4 + chunksSize;
    f.Write(RiffTag(e));
    if !U32Fits(fileSize) {
      return false;
    }
    f.Write(U32(e, fileSize));
    f.Write(WaveId);
    f.Write(fmtChunk);
    f.Write(dataHdr);
    ok := true;
  }

  /** The sweep header is the concatenation of the pieces the script
      writes one after the other. */
  lemma SweepHeaderPieces(e: Endian, tag: int, channels: int, rate: int, bits: int, dataSize: int,
                          fmtChunk: seq<byte>, dataHdr: seq<byte>)
    requires ChunksFit(tag, channels, rate, bits, dataSize, None) && U32Fits(SweepFileSize(dataSize))
    requires fmtChunk == ChunkHeader(e, FmtId, 16)
                         + FmtBody(e, tag, channels, rate, ByteRate(rate, channels, bits),
                                   BlockAlign(channels, bits), bits)
    requires dataHdr == ChunkHeader(e, DataId, dataSize)
    ensures Header44(e, tag, channels, rate, bits, dataSize, SweepFileSize(dataSize))
            == RiffTag(e) + U32(e, SweepFileSize(dataSize)) + WaveId + fmtChunk + dataHdr
  {
  }

  /** One sweep configuration of generate_sweep_wavs: the header, then one
      sample per frame and channel, packed as for the other script's
      sweep. A codec with no tag raises before the file is opened; a size
      field that does not pack leaves the tag alone, a sample that does not
      pack the header and the samples before it. The inner loop runs
      `channels` times for every frame. */
  method WriteSweepFile(f: ByteSink, codec: string, bits: int, channels: int, endian: string,
                        rate: int, frames: seq<seq<int>>) returns (ok: bool)
    requires SampleStream.Uniform(frames, if channels > 0 then channels else 0)
    modifies f
    ensures SweepTagOf(codec).None? ==> !ok && f.bytes == old(f.bytes)
    ensures SweepTagOf(codec).Some? ==>
      var tag := SweepTagOf(codec).value;
      var dataSize := |frames| * (channels * (bits / 8));
      var payload := SweepPayload(codec, bits, endian, frames);
      (ok <==> ChunksFit(tag, channels, rate, bits, dataSize, None) && U32Fits(SweepFileSize(dataSize))
               && payload.Some?)
      && (ok ==> f.bytes == old(f.bytes) + Header44(EndianOf(endian), tag, channels, rate, bits, dataSize, SweepFileSize(dataSize))
                           + payload.value)
      && (!ChunksFit(tag, channels, rate, bits, dataSize, None) ==> f.bytes == old(f.bytes))
    ensures SweepTagOf(codec).Some? ==>
      var tag := SweepTagOf(codec).value;
      var dataSize := |frames| * (channels * (bits / 8));
      f.bytes == if ChunksFit(tag, channels, rate, bits, dataSize, None) && U32Fits(SweepFileSize(dataSize))
                 then old(f.bytes) + Header44(EndianOf(endian), tag, channels, rate, bits, dataSize, SweepFileSize(dataSize))
                      + SweepWritten(codec, bits, endian, frames)
                 else if ChunksFit(tag, channels, rate, bits, dataSize, None) then old(f.bytes) + RiffTag(EndianOf(endian))
                 else old(f.bytes)
  {
    var tag := SweepTagOf(codec);
    var e := EndianOf(endian);
    var dataSize := |frames| * (channels * (bits / 8));
    var packed, fmtChunk, dataHdr := PackSweepChunks(e, tag, channels, rate, bits, |frames|);
    if !packed {
      return false;
    }
    ok := WriteSweepHeader(f, e, dataSize, fmtChunk, dataHdr);
    if !ok {
      return;
    }
    SweepHeaderPieces(e, tag.value, channels, rate, bits, dataSize, fmtChunk, dataHdr);
    ok := WriteSweepSamples(f, codec, bits, endian, frames);
  }

  /** The sweep's size field counts 4 bytes that are not there: it is the
      file length minus 4, where a RIFF size is the length minus 8, and so
      parse_header refuses every complete little-endian sweep file at the
      RIFF size check. */
  lemma SweepRiffSizeTooLarge(tag: int, channels: int, rate: int, bits: int, payload: seq<byte>)
    requires ChunksFit(tag, channels, rate, bits, |payload|, None)
    requires 44 + |payload| <= U32Max
    ensures U32Fits(SweepFileSize(|payload|))
    ensures var file := Header44(Little, tag, channels, rate, bits, |payload|, SweepFileSize(|payload|)) + payload;
      SweepFileSize(|payload|) == |file| - 4 && Parse(file) == Rejected(BadRiffSize)
  {
    Header44SizeRejected(tag, channels, rate, bits, SweepFileSize(|payload|), payload);
  }

  /** write_wav_header's header for the same configuration is the sweep's
      header with a size field 4 smaller: the RIFF size, the file length
      minus 8. */
  lemma SweepHeaderOffByFour(e: Endian, tag: int, channels: int, rate: int, bits: int, dataSize: int)
    requires !Extended(tag) && HeaderFits(e, tag, channels, rate, bits, dataSize, None)
    ensures SweepFileSize(dataSize) == RiffSize(tag, dataSize, None) + 4
    ensures HeaderBytes(e, tag, channels, rate, bits, dataSize, None)
            == Header44(e, tag, channels, rate, bits, dataSize, SweepFileSize(dataSize) - 4)
  {
    PlainHeaderIs44(e, tag, channels, rate, bits, dataSize);
  }

  /** With write_wav_header's size, 4 + len(fmt) + 8 + data_size, the
      declared size is the file length minus 8, and parse_header accepts
      the sweep file whenever it validates the configuration. */
  lemma SweepCorrectedParses(tag: int, channels: int, rate: int, bits: int, payload: seq<byte>)
    requires !Extended(tag) && Decodable(tag, channels, rate, bits, |payload|, None)
    ensures HeaderFits(Little, tag, channels, rate, bits, |payload|, None)
    ensures var fixed := HeaderBytes(Little, tag, channels, rate, bits, |payload|, None);
      RiffSize(tag, |payload|, None) == |fixed + payload| - 8 == SweepFileSize(|payload|) - 4
      && |fixed + payload| <= U32Max
      && Parse(fixed + payload)
         == Parsed(WavHeader(tag, channels, rate, ByteRate(rate, channels, bits), BlockAlign(channels, bits), bits,
                             44, |payload|))
  {
    ParseAcceptsHeader(tag, channels, rate, bits, None, payload);
    RiffSizeCounts(Little, tag, channels, rate, bits, |payload|, None);
  }

  /* --------------------------------------------------------- exotic files */

  /** The `fmt ` fields save_wave packs are those write_wav_header derives
      for 8 * sampwidth bits: block_align = sampwidth * nchannels and
      byte_rate = sample_rate * sampwidth * nchannels. */
  lemma SaveWaveFields(rate: int, sampwidth: int, nchannels: int)
    ensures BlockAlign(nchannels, 8 * sampwidth) == sampwidth * nchannels
    ensures ByteRate(rate, nchannels, 8 * sampwidth) == rate * sampwidth * nchannels
  {
    assert 8 * sampwidth / 8 == sampwidth;
    assert nchannels * sampwidth == sampwidth * nchannels;
    assert rate * (sampwidth * nchannels) == rate * sampwidth * nchannels;
  }

  /** The three struct.pack calls of save_wave and write_float_wav_header
      for a 16-byte `fmt ` body with the given fields: None where one
      raises, else "RIFF" with size 36 + len(data) and "WAVE", the `fmt `
      chunk, and the `data` chunk with the data. */
  function PlainWav(tag: int, channels: int, rate: int, byteRate: int, blockAlign: int, bits: int,
                    data: seq<byte>): Option<seq<byte>>
  {
    if !FmtFieldsFit(tag, channels, rate, byteRate, blockAlign, bits) || !U32Fits(|data|) || !U32Fits(36 + |data|)
    then None
    else
      var fmtChunk := ChunkHeader(Little, FmtId, 16) + FmtBody(Little, tag, channels, rate, byteRate, blockAlign, bits);
      var dataChunk := ChunkHeader(Little, DataId, |data|) + data;
      var riffChunk := ChunkHeader(Little, RiffId, 36 + |data|) + WaveId;
      Some(riffChunk + fmtChunk + dataChunk)
  }

  /** With write_wav_header's block alignment and byte rate, the plain
      file is built exactly when write_wav_header's header fits, and is
      that header, without a `fact` chunk, followed by the data. */
  lemma PlainWavIsHeader(tag: int, channels: int, rate: int, bits: int, data: seq<byte>)
    requires !Extended(tag)
    ensures var r := PlainWav(tag, channels, rate, ByteRate(rate, channels, bits), BlockAlign(channels, bits), bits, data);
      (r.Some? <==> HeaderFits(Little, tag, channels, rate, bits, |data|, None))
      && (r.Some? ==> r.value == HeaderBytes(Little, tag, channels, rate, bits, |data|, None) + data)
  {
    if HeaderFits(Little, tag, channels, rate, bits, |data|, None) {
      PlainWavBytes(tag, channels, rate, bits, data);
    }
  }

  lemma PlainWavBytes(tag: int, channels: int, rate: int, bits: int, data: seq<byte>)
    requires !Extended(tag) && HeaderFits(Little, tag, channels, rate, bits, |data|, None)
    ensures PlainWav(tag, channels, rate, ByteRate(rate, channels, bits), BlockAlign(channels, bits), bits, data)
            == Some(HeaderBytes(Little, tag, channels, rate, bits, |data|, None) + data)
  {
    PlainHeaderIs44(Little, tag, channels, rate, bits, |data|);
    var fmtChunk := ChunkHeader(Little, FmtId, 16)
                    + FmtBody(Little, tag, channels, rate, ByteRate(rate, channels, bits), BlockAlign(channels, bits), bits);
    var riffChunk := ChunkHeader(Little, RiffId, 36 + |data|) + WaveId;
    var dataHdr := ChunkHeader(Little, DataId, |data|);
    assert PlainWav(tag, channels, rate, ByteRate(rate, channels, bits), BlockAlign(channels, bits), bits, data)
           == Some(riffChunk + fmtChunk + (dataHdr + data));
    assert Header44(Little, tag, channels, rate, bits, |data|, 36 + |data|) == riffChunk + (fmtChunk + dataHdr);
    Regroup(riffChunk, fmtChunk, dataHdr, data);
  }

  lemma Regroup(a: seq<byte>, b: seq<byte>, c: seq<byte>, d: seq<byte>)
    ensures a + b + (c + d) == a + (b + c) + d
  {
  }

  /** save_wave: the file is opened, then len(data) // (sampwidth *
      nchannels) raises ZeroDivisionError when that product is 0, and the
      packs raise unless every field fits; otherwise the header and the
      data go out in one write. What it writes is write_wav_header's PCM
      header for 8 * sampwidth bits and no `fact` chunk, followed by the
      data. */
  method SaveWave(f: ByteSink, data: seq<byte>, rate: int, sampwidth: int, nchannels: int) returns (ok: bool)
    modifies f
    ensures ok <==> sampwidth * nchannels != 0
                    && HeaderFits(Little, 1, nchannels, rate, 8 * sampwidth, |data|, None)
    ensures ok ==> f.bytes == old(f.bytes) + (HeaderBytes(Little, 1, nchannels, rate, 8 * sampwidth, |data|, None) + data)
    ensures !ok ==> f.bytes == old(f.bytes)
  {
    if sampwidth * nchannels == 0 {
      return false;
    }
    var byteRate := rate * sampwidth * nchannels;
    var blockAlign := sampwidth * nchannels;
    var file := PlainWav(1, nchannels, rate, byteRate, blockAlign, sampwidth * 8, data);
    SaveWaveFields(rate, sampwidth, nchannels);
    PlainWavIsHeader(1, nchannels, rate, 8 * sampwidth, data);
    if file.None? {
      return false;
    }
    f.Write(file.value);
    ok := true;
  }

  /** The file save_wave writes for a configuration parse_header validates
      is accepted, with the samples at byte 44: the RIFF size 36 +
      len(data) is the file length minus 8, and the PCM block alignment and
      byte rate are consistent. */
  lemma SavedWaveParses(data: seq<byte>, rate: int, sampwidth: int, nchannels: int)
    requires Decodable(1, nchannels, rate, 8 * sampwidth, |data|, None)
    ensures HeaderFits(Little, 1, nchannels, rate, 8 * sampwidth, |data|, None)
    ensures var file := HeaderBytes(Little, 1, nchannels, rate, 8 * sampwidth, |data|, None) + data;
      |file| <= U32Max && RiffSize(1, |data|, None) == 36 + |data| == |file| - 8
      && Parse(file) == Parsed(WavHeader(1, nchannels, rate, ByteRate(rate, nchannels, 8 * sampwidth),
                                         BlockAlign(nchannels, 8 * sampwidth), 8 * sampwidth, 44, |data|))
  {
    ParseAcceptsHeader(1, nchannels, rate, 8 * sampwidth, None, data);
    RiffSizeCounts(Little, 1, nchannels, rate, 8 * sampwidth, |data|, None);
  }

  /** write_float_wav_header: the 44-byte header of a 32-bit IEEE float
      file (tag 3, block_align = 4 * nchannels) followed by the data; None
      where a struct.pack raises. It is write_wav_header's header for the
      same configuration, without a `fact` chunk. */
  function FloatWavFile(data: seq<byte>, rate: int, nchannels: int): (r: Option<seq<byte>>)
    ensures r.Some? <==> HeaderFits(Little, 3, nchannels, rate, 32, |data|, None)
    ensures r.Some? ==> r.value == HeaderBytes(Little, 3, nchannels, rate, 32, |data|, None) + data
  {
    var blockAlign := 4 * nchannels;
    var byteRate := rate * blockAlign;
    assert BlockAlign(nchannels, 32) == blockAlign && ByteRate(rate, nchannels, 32) == byteRate;
    PlainWavIsHeader(3, nchannels, rate, 32, data);
    PlainWav(3, nchannels, rate, byteRate, blockAlign, 32, data)
  }

  /** parse_header accepts the float file for every channel count and rate
      it validates, although the file has no `fact` chunk. */
  lemma FloatFileParses(data: seq<byte>, rate: int, nchannels: int)
    requires Decodable(3, nchannels, rate, 32, |data|, None)
    ensures FloatWavFile(data, rate, nchannels).Some?
    ensures var file := FloatWavFile(data, rate, nchannels).value;
      |file| <= U32Max
      && Parse(file) == Parsed(WavHeader(3, nchannels, rate, rate * (4 * nchannels), 4 * nchannels, 32, 44, |data|))
  {
    ParseAcceptsHeader(3, nchannels, rate, 32, None, data);
    RiffSizeCounts(Little, 3, nchannels, rate, 32, |data|, None);
    assert BlockAlign(nchannels, 32) == 4 * nchannels;
  }
}
