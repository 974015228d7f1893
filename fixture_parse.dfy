/** What decoder.c's parse_header makes of the files the fixture generator
    writes: a little-endian header from write_wav_header, followed by its
    data_size bytes of samples, is accepted, and the header the parser
    returns carries exactly the configuration that was written, with the
    samples located right after the header. A big-endian ("RIFX") file is
    refused at the signature check. */
module FixtureParse {
  import opened Wrappers
  import opened Bytes
  import opened DecoderHeader
  import opened RiffLayout
  import opened GenWavFixtures

  /** A configuration whose `fmt ` fields the decoder validates: the ranges
      parse_header checks, whole bytes per sample, and a data chunk no
      larger than the decoder's chunk limit. */
  predicate Decodable(tag: int, channels: int, rate: int, bits: int, dataSize: int, factCount: Option<int>)
  {
    U16Fits(tag) && 1 <= channels <= MaxChannels && 1 <= rate <= MaxSampleRate
    && 8 <= bits <= MaxBitsPerSample && bits % 8 == 0
    && 0 <= dataSize <= MaxChunkSize
    && (FactEmitted(tag, factCount) ==> U32Fits(factCount.value))
  }

  /** The header parse_header should return for such a file. */
  function Expected(tag: int, channels: int, rate: int, bits: int, dataSize: int, factCount: Option<int>): WavHeader
    requires FmtFieldsFit(tag, channels, rate, ByteRate(rate, channels, bits), BlockAlign(channels, bits), bits)
    requires U32Fits(dataSize)
  {
    WavHeader(tag, channels, rate, ByteRate(rate, channels, bits), BlockAlign(channels, bits), bits,
              DataHeaderAt(tag, factCount) + 8, dataSize)
  }

  /** A decodable configuration packs without an exception, and its fields
      pass parse_header's checks, including the PCM consistency checks:
      with whole bytes per sample, channels * (bits // 8) is the rounded-up
      channels * bits / 8 the decoder expects. */
  lemma DecodableFits(tag: int, channels: int, rate: int, bits: int, dataSize: int, factCount: Option<int>)
    requires Decodable(tag, channels, rate, bits, dataSize, factCount)
    ensures HeaderFits(Little, tag, channels, rate, bits, dataSize, factCount)
    ensures var x := Expected(tag, channels, rate, bits, dataSize, factCount);
      FmtFieldsValid(x) && PcmConsistent(x)
  {
    AlignBounds(channels, rate, bits);
    HeaderLengthBound(Little, tag, channels, rate, bits, dataSize, factCount);
  }

  /** The block alignment and byte rate of a decodable configuration, and
      the block alignment as the decoder computes it. */
  lemma AlignBounds(channels: int, rate: int, bits: int)
    requires 1 <= channels <= MaxChannels && 1 <= rate <= MaxSampleRate && 8 <= bits <= MaxBitsPerSample && bits % 8 == 0
    ensures 1 <= BlockAlign(channels, bits) <= 64
    ensures 0 <= ByteRate(rate, channels, bits) <= MaxSampleRate * 64
    ensures (channels * bits + 7) / 8 == BlockAlign(channels, bits)
  {
    var w := bits / 8;
    assert 1 <= w <= 8;
    ProductBound(channels, w, 8, 8);
    var ba := channels * w;
    ProductBound(rate, ba, MaxSampleRate, 64);
    assert channels * bits == 8 * ba by {
      assert bits == 8 * w;
    }
  }

  /** The header is at most 58 bytes, so its RIFF size fits once the chunks do. */
  lemma HeaderLengthBound(e: Endian, tag: int, channels: int, rate: int, bits: int, dataSize: int, factCount: Option<int>)
    requires ChunksFit(tag, channels, rate, bits, dataSize, factCount) && dataSize <= MaxChunkSize
    ensures HeaderFits(e, tag, channels, rate, bits, dataSize, factCount)
  {
  }

  /** The header's bytes are the file's first bytes. */
  lemma PrefixSlice(h: seq<byte>, payload: seq<byte>, i: nat, j: nat)
    requires i <= j <= |h|
    ensures (h + payload)[i..j] == h[i..j]
  {
    assert forall k :: i <= k < j ==> (h + payload)[k] == h[k];
  }

  /** The state of the loop before its first pass. */
  const Start: WalkState := WalkState(12, false, false, ZeroHeader)

  /** The checks before the loop: a file of at least 44 bytes with the two
      signatures and a RIFF size of its length minus 8 goes on to the loop. */
  lemma ParseReachesLoop(data: seq<byte>)
    requires 44 <= |data| <= U32Max
    requires data[..4] == RiffId && data[8..12] == WaveId && data[4..8] == U32(Little, |data| - 8)
    ensures Parse(data) == Walk(data, Start)
  {
    ReadU32Of(data, 4, |data| - 8);
  }

  /** The same checks refuse a file with both signatures whose RIFF size
      is below 36 or beyond its length minus 8. */
  lemma ParseRejectsRiffSize(data: seq<byte>, size: u32)
    requires 44 <= |data| <= U32Max
    requires data[..4] == RiffId && data[8..12] == WaveId && data[4..8] == U32(Little, size)
    requires size < 36 || size > |data| - 8
    ensures Parse(data) == Rejected(BadRiffSize)
  {
    ReadU32Of(data, 4, size);
  }

  /** The header once the `fmt ` chunk has been read. */
  function AfterFmt(tag: int, channels: int, rate: int, bits: int): WavHeader
    requires FmtFieldsFit(tag, channels, rate, ByteRate(rate, channels, bits), BlockAlign(channels, bits), bits)
  {
    ZeroHeader.(audioFormat := tag, numChannels := channels, sampleRate := rate,
                byteRate := ByteRate(rate, channels, bits), blockAlign := BlockAlign(channels, bits),
                bitsPerSample := bits)
  }

  /** A pass of the loop that goes on leaves the rest of the walk to the next state. */
  lemma WalkGoesOn(data: seq<byte>, s: WalkState, next: WalkState)
    requires |data| <= U32Max && s.offset + 8 <= |data| && !(s.foundFmt && s.foundData)
    requires LoopStep(data, s) == Next(next)
    ensures Walk(data, s) == Walk(data, next)
  {
    BelowModulus(s.offset + 8);
  }

  /** Once both chunks are found the loop ends and the header is returned. */
  lemma WalkStops(data: seq<byte>, s: WalkState)
    requires |data| <= U32Max && s.foundFmt && s.foundData
    ensures Walk(data, s) == Parsed(s.header)
  {
  }

  /** The first pass reads a valid `fmt ` chunk of 16 or 18 bytes at offset 12. */
  lemma WalkOverFmt(data: seq<byte>, size: nat, tag: int, channels: int, rate: int, bits: int)
    requires |data| <= U32Max && (size == 16 || size == 18) && 20 + size <= |data|
    requires FmtFieldsFit(tag, channels, rate, ByteRate(rate, channels, bits), BlockAlign(channels, bits), bits)
    requires FmtFieldsValid(AfterFmt(tag, channels, rate, bits)) && PcmConsistent(AfterFmt(tag, channels, rate, bits))
    requires data[12..20] == ChunkHeader(Little, FmtId, size)
    requires data[20..36] == FmtBody(Little, tag, channels, rate, ByteRate(rate, channels, bits), BlockAlign(channels, bits), bits)
    ensures Walk(data, Start) == Walk(data, WalkState(20 + size, true, false, AfterFmt(tag, channels, rate, bits)))
  {
    StepOverFmt(data, Start, size, tag, channels, rate,
                ByteRate(rate, channels, bits), BlockAlign(channels, bits), bits);
    WalkGoesOn(data, Start, WalkState(20 + size, true, false, AfterFmt(tag, channels, rate, bits)));
  }

  /** A `fact` chunk of 4 bytes at p is stepped over. */
  lemma WalkOverFact(data: seq<byte>, p: u32, h: WavHeader)
    requires |data| <= U32Max && p + 12 <= |data|
    requires data[p..p + 8] == ChunkHeader(Little, FactId, 4)
    ensures Walk(data, WalkState(p, true, false, h)) == Walk(data, WalkState(p + 12, true, false, h))
  {
    StepOverOther(data, WalkState(p, true, false, h), "fact", 4);
    WalkGoesOn(data, WalkState(p, true, false, h), WalkState(p + 12, true, false, h));
  }

  /** A `data` chunk at p that runs to the end of the file ends the loop
      once the `fmt ` chunk has been found: the header records where the
      samples start and how many bytes they take. */
  lemma WalkOverData(data: seq<byte>, p: u32, size: nat, h: WavHeader)
    requires |data| < U32Max && size <= MaxChunkSize && p + 8 + size == |data|
    requires data[p..p + 8] == ChunkHeader(Little, DataId, size)
    ensures Walk(data, WalkState(p, true, false, h)) == Parsed(h.(dataChunkPos := p + 8, dataChunkSize := size))
  {
    var s := WalkState(p, true, false, h);
    var next := WalkState(p + 8 + Padded(size), true, true, h.(dataChunkPos := p + 8, dataChunkSize := size));
    StepOverData(data, s, size);
    WalkGoesOn(data, s, next);
    WalkStops(data, next);
  }

  /** The bytes the decoder looks at in such a file. */
  lemma FileLayout(tag: int, channels: int, rate: int, bits: int, factCount: Option<int>, payload: seq<byte>)
    requires Decodable(tag, channels, rate, bits, |payload|, factCount)
    ensures HeaderFits(Little, tag, channels, rate, bits, |payload|, factCount)
    ensures var h := HeaderBytes(Little, tag, channels, rate, bits, |payload|, factCount);
      var data := h + payload;
      var fs, dp := FmtSize(tag), DataHeaderAt(tag, factCount);
      44 <= |data| < U32Max && |h| == dp + 8 && dp + 8 + |payload| == |data|
      && data[..4] == RiffId && data[4..8] == U32(Little, |data| - 8) && data[8..12] == WaveId
      && data[12..20] == ChunkHeader(Little, FmtId, fs)
      && data[20..36] == FmtBody(Little, tag, channels, rate, ByteRate(rate, channels, bits), BlockAlign(channels, bits), bits)
      && (FactEmitted(tag, factCount) ==> data[20 + fs..28 + fs] == ChunkHeader(Little, FactId, 4))
      && data[dp..dp + 8] == ChunkHeader(Little, DataId, |payload|)
  {
    DecodableFits(tag, channels, rate, bits, |payload|, factCount);
    var h := HeaderBytes(Little, tag, channels, rate, bits, |payload|, factCount);
    HeaderLayout(Little, tag, channels, rate, bits, |payload|, factCount);
    HeaderTailLayout(Little, tag, channels, rate, bits, |payload|, factCount);
    RiffSizeCounts(Little, tag, channels, rate, bits, |payload|, factCount);
    var fs, dp := FmtSize(tag), DataHeaderAt(tag, factCount);
    PrefixSlice(h, payload, 0, 4);
    PrefixSlice(h, payload, 4, 8);
    PrefixSlice(h, payload, 8, 12);
    PrefixSlice(h, payload, 12, 20);
    PrefixSlice(h, payload, 20, 36);
    PrefixSlice(h, payload, dp, dp + 8);
    if FactEmitted(tag, factCount) {
      PrefixSlice(h, payload, 20 + fs, 28 + fs);
    }
  }

  /** The chunk loop over such a file: the `fmt ` chunk, the `fact` chunk
      when there is one, then the `data` chunk, which ends it. */
  lemma WalkAccepts(tag: int, channels: int, rate: int, bits: int, factCount: Option<int>, payload: seq<byte>)
    requires Decodable(tag, channels, rate, bits, |payload|, factCount)
    requires HeaderFits(Little, tag, channels, rate, bits, |payload|, factCount)
    ensures var data := HeaderBytes(Little, tag, channels, rate, bits, |payload|, factCount) + payload;
      |data| <= U32Max
      && Walk(data, Start)
         == Parsed(WavHeader(tag, channels, rate, ByteRate(rate, channels, bits), BlockAlign(channels, bits), bits,
                             DataHeaderAt(tag, factCount) + 8, |payload|))
  {
    DecodableFits(tag, channels, rate, bits, |payload|, factCount);
    FileLayout(tag, channels, rate, bits, factCount, payload);
    var data := HeaderBytes(Little, tag, channels, rate, bits, |payload|, factCount) + payload;
    var fs, dp := FmtSize(tag), DataHeaderAt(tag, factCount);
    var x := AfterFmt(tag, channels, rate, bits);
    var done := x.(dataChunkPos := dp + 8, dataChunkSize := |payload|);
    assert done == WavHeader(tag, channels, rate, ByteRate(rate, channels, bits), BlockAlign(channels, bits), bits,
                             dp + 8, |payload|);
    WalkOverFmt(data, fs, tag, channels, rate, bits);
    if FactEmitted(tag, factCount) {
      WalkOverFact(data, 20 + fs, x);
      assert dp == 20 + fs + 12;
    } else {
      assert dp == 20 + fs;
    }
    WalkOverData(data, dp, |payload|, x);
    assert Walk(data, Start) == Parsed(done);
  }

  /** parse_header accepts every little-endian file the generator writes for
      a decodable configuration, whatever the sample bytes, and returns the
      written format, channels, rate, byte rate, block alignment and depth,
      with the samples at the end of the header and data_size bytes long. */
  lemma ParseAcceptsHeader(tag: int, channels: int, rate: int, bits: int, factCount: Option<int>, payload: seq<byte>)
    requires Decodable(tag, channels, rate, bits, |payload|, factCount)
    ensures HeaderFits(Little, tag, channels, rate, bits, |payload|, factCount)
    ensures var h := HeaderBytes(Little, tag, channels, rate, bits, |payload|, factCount);
      |h + payload| <= U32Max
      && Parse(h + payload)
         == Parsed(WavHeader(tag, channels, rate, ByteRate(rate, channels, bits), BlockAlign(channels, bits), bits,
                             |h|, |payload|))
  {
    FileLayout(tag, channels, rate, bits, factCount, payload);
    WalkAccepts(tag, channels, rate, bits, factCount, payload);
    ParseReachesLoop(HeaderBytes(Little, tag, channels, rate, bits, |payload|, factCount) + payload);
  }

  /** parse_header refuses every big-endian file the generator writes: its
      container tag is "RIFX", not "RIFF". */
  lemma ParseRefusesRifx(tag: int, channels: int, rate: int, bits: int, dataSize: int, factCount: Option<int>,
                         payload: seq<byte>)
    requires HeaderFits(Big, tag, channels, rate, bits, dataSize, factCount)
    requires |HeaderBytes(Big, tag, channels, rate, bits, dataSize, factCount) + payload| <= U32Max
    ensures Parse(HeaderBytes(Big, tag, channels, rate, bits, dataSize, factCount) + payload) == Rejected(BadSignature)
  {
    var h := HeaderBytes(Big, tag, channels, rate, bits, dataSize, factCount);
    HeaderLayout(Big, tag, channels, rate, bits, dataSize, factCount);
    PrefixSlice(h, payload, 0, 4);
    assert (h + payload)[3] == RifxId[3] != RiffId[3];
  }

  /* ------------------------------------------------- the plain 44-byte header */

  /** The 44-byte header with a 16-byte `fmt ` chunk and no `fact` chunk,
      whose RIFF size field holds riffSize: the layout save_wave,
      write_float_wav_header, the sweep generator and the older
      generate_fixtures.py all write, each with its own size. */
  function Header44(e: Endian, tag: int, channels: int, rate: int, bits: int, dataSize: int, riffSize: int)
    : (r: seq<byte>)
    requires ChunksFit(tag, channels, rate, bits, dataSize, None) && U32Fits(riffSize)
    ensures |r| == 44
  {
    RiffTag(e) + U32(e, riffSize) + WaveId
    + (ChunkHeader(e, FmtId, 16)
       + FmtBody(e, tag, channels, rate, ByteRate(rate, channels, bits), BlockAlign(channels, bits), bits)
       + ChunkHeader(e, DataId, dataSize))
  }

  /** For a tag without the extension word, write_wav_header's header
      without a `fact` chunk is the plain header with RIFF size
      36 + data_size. */
  lemma PlainHeaderIs44(e: Endian, tag: int, channels: int, rate: int, bits: int, dataSize: int)
    requires !Extended(tag) && HeaderFits(e, tag, channels, rate, bits, dataSize, None)
    ensures RiffSize(tag, dataSize, None) == 36 + dataSize
    ensures HeaderBytes(e, tag, channels, rate, bits, dataSize, None)
            == Header44(e, tag, channels, rate, bits, dataSize, 36 + dataSize)
  {
    var fmtChunk := ChunkHeader(e, FmtId, 16)
                    + FmtBody(e, tag, channels, rate, ByteRate(rate, channels, bits), BlockAlign(channels, bits), bits);
    assert FmtChunk(e, tag, channels, rate, bits) == fmtChunk + [] == fmtChunk;
    assert Chunks(e, tag, channels, rate, bits, dataSize, None)
           == fmtChunk + [] + ChunkHeader(e, DataId, dataSize) == fmtChunk + ChunkHeader(e, DataId, dataSize);
  }

  /** Six pieces of 4, 4, 4, 8, 16 and 8 bytes lie at 0, 4, 8, 12, 20, 36. */
  lemma SixPieces(a: seq<byte>, b: seq<byte>, c: seq<byte>, d: seq<byte>, f: seq<byte>, g: seq<byte>)
    requires |a| == 4 && |b| == 4 && |c| == 4 && |d| == 8 && |f| == 16 && |g| == 8
    ensures var h := a + b + c + (d + f + g);
      h[..4] == a && h[4..8] == b && h[8..12] == c && h[12..20] == d && h[20..36] == f && h[36..44] == g
  {
  }

  /** The bytes the decoder looks at in a little-endian file with the plain
      header. */
  lemma Header44Layout(tag: int, channels: int, rate: int, bits: int, riffSize: int, payload: seq<byte>)
    requires ChunksFit(tag, channels, rate, bits, |payload|, None) && U32Fits(riffSize)
    ensures var h := Header44(Little, tag, channels, rate, bits, |payload|, riffSize);
      var data := h + payload;
      data[..4] == RiffId && data[4..8] == U32(Little, riffSize) && data[8..12] == WaveId
      && data[12..20] == ChunkHeader(Little, FmtId, 16)
      && data[20..36] == FmtBody(Little, tag, channels, rate, ByteRate(rate, channels, bits), BlockAlign(channels, bits), bits)
      && data[36..44] == ChunkHeader(Little, DataId, |payload|)
  {
    var h := Header44(Little, tag, channels, rate, bits, |payload|, riffSize);
    SixPieces(RiffId, U32(Little, riffSize), WaveId, ChunkHeader(Little, FmtId, 16),
              FmtBody(Little, tag, channels, rate, ByteRate(rate, channels, bits), BlockAlign(channels, bits), bits),
              ChunkHeader(Little, DataId, |payload|));
    PrefixSlice(h, payload, 0, 4);
    PrefixSlice(h, payload, 4, 8);
    PrefixSlice(h, payload, 8, 12);
    PrefixSlice(h, payload, 12, 20);
    PrefixSlice(h, payload, 20, 36);
    PrefixSlice(h, payload, 36, 44);
  }

  /** parse_header accepts a little-endian file with the plain header and
      the RIFF size 36 + data_size, whatever its tag: a 16-byte `fmt ` chunk
      is enough for A-law and μ-law as well. */
  lemma Header44Parses(tag: int, channels: int, rate: int, bits: int, payload: seq<byte>)
    requires Decodable(tag, channels, rate, bits, |payload|, None)
    ensures ChunksFit(tag, channels, rate, bits, |payload|, None) && U32Fits(36 + |payload|)
    ensures var data := Header44(Little, tag, channels, rate, bits, |payload|, 36 + |payload|) + payload;
      |data| <= U32Max
      && Parse(data)
         == Parsed(WavHeader(tag, channels, rate, ByteRate(rate, channels, bits), BlockAlign(channels, bits), bits,
                             44, |payload|))
  {
    DecodableFits(tag, channels, rate, bits, |payload|, None);
    var data := Header44(Little, tag, channels, rate, bits, |payload|, 36 + |payload|) + payload;
    Header44Layout(tag, channels, rate, bits, 36 + |payload|, payload);
    ParseReachesLoop(data);
    var x := AfterFmt(tag, channels, rate, bits);
    WalkOverFmt(data, 16, tag, channels, rate, bits);
    WalkOverData(data, 36, |payload|, x);
  }

  /** parse_header refuses a little-endian file with the plain header
      whose RIFF size is below 36 or beyond the file length minus 8. */
  lemma Header44SizeRejected(tag: int, channels: int, rate: int, bits: int, riffSize: int, payload: seq<byte>)
    requires ChunksFit(tag, channels, rate, bits, |payload|, None) && U32Fits(riffSize)
    requires 44 + |payload| <= U32Max && (riffSize < 36 || riffSize > 36 + |payload|)
    ensures Parse(Header44(Little, tag, channels, rate, bits, |payload|, riffSize) + payload) == Rejected(BadRiffSize)
  {
    var data := Header44(Little, tag, channels, rate, bits, |payload|, riffSize) + payload;
    Header44Layout(tag, channels, rate, bits, riffSize, payload);
    ParseRejectsRiffSize(data, riffSize);
  }
}
