/** scripts/gen_evil_wav_fixtures.py: 24 malformed or unusual WAV files,
    each a literal concatenation of packed chunk headers and bytes, and
    what the decoder's parse_header makes of each. write_wav writes the
    header bytes, then the data bytes; a recipe here is the whole file. */
module EvilWavFixtures {
  import opened Wrappers
  import opened Bytes
  import opened DecoderHeader
  import opened RiffLayout
  import opened FixtureParse

  /* ------------------------------------------------------------ pieces */

  /** struct.pack('<4sI4s', b'RIFF', size, b'WAVE') */
  function RiffHeader(size: int): (r: seq<byte>)
    requires U32Fits(size)
    ensures |r| == 12
  {
    ChunkHeader(Little, RiffId, size) + WaveId
  }

  /** std_fmt: a PCM `fmt ` body, mono, 44100 Hz, 16 bits. */
  const StdFmt: seq<byte> := [0x01, 0x00, 0x01, 0x00, 0x44, 0xac, 0x00, 0x00, 0x88, 0x58, 0x01, 0x00, 0x02, 0x00, 0x10, 0x00]

  /** std_data_chunk: a `data` chunk of 32 zero bytes. */
  const StdDataChunk: seq<byte> := ChunkHeader(Little, DataId, 32) + Repeat(0, 32)

  /** The header parse_header has after reading the `fmt ` fields of a
      16-byte body. */
  function FieldsOf(body: seq<byte>): WavHeader
    requires |body| == 16
  {
    WithFmtFields(body, ZeroHeader, 0)
  }

  /** std_fmt is what write_wav_header packs for a mono 16-bit PCM file at
      44100 Hz. */
  lemma StdFmtPacked()
    ensures StdFmt == FmtBody(Little, 1, 1, 44100, 88200, 2, 16)
  {
    LittleU16(1, 0x01, 0x00);
    LittleU16(2, 0x02, 0x00);
    LittleU16(16, 0x10, 0x00);
    LittleU32(44100, 0x44, 0xac, 0x00, 0x00);
    LittleU32(88200, 0x88, 0x58, 0x01, 0x00);
    StdFmtDigits();
  }

  /** std_fmt, cut at its field boundaries. */
  lemma StdFmtDigits()
    ensures StdFmt == [0x01, 0x00] + [0x01, 0x00] + [0x44, 0xac, 0x00, 0x00] + [0x88, 0x58, 0x01, 0x00] + [0x02, 0x00] + [0x10, 0x00]
  {
  }

  /** The two little-endian digits of a 16-bit value. */
  lemma LittleU16(v: u16, b0: byte, b1: byte)
    requires v == b0 + 256 * b1
    ensures U16(Little, v) == [b0, b1]
  {
    LeDigit(0, b1, b1, 0);
    LeDigit(1, v, b0, b1);
    assert U16(Little, v) == LeBytes(2, v) && LeBytes(0, 0) == [];
  }

  /** The four little-endian digits of a 32-bit value. */
  lemma LittleU32(v: u32, b0: byte, b1: byte, b2: byte, b3: byte)
    requires v == b0 + 256 * (b1 + 256 * (b2 + 256 * b3))
    ensures U32(Little, v) == [b0, b1, b2, b3]
  {
    LeDigit(0, b3, b3, 0);
    LeDigit(1, b2 + 256 * b3, b2, b3);
    LeDigit(2, b1 + 256 * (b2 + 256 * b3), b1, b2 + 256 * b3);
    LeDigit(3, v, b0, b1 + 256 * (b2 + 256 * b3));
    assert U32(Little, v) == LeBytes(4, v) && LeBytes(0, 0) == [];
  }

  /** The lowest digit comes first, then the digits of the rest. */
  lemma LeDigit(w: nat, v: nat, b: byte, q: nat)
    requires v == b + 256 * q && q < Pow256(w)
    ensures LeBytes(w + 1, v) == [b] + LeBytes(w, q)
  {
    assert v % 256 == b && v / 256 == q;
  }

  /** The decoder reads std_fmt as tag 1, 1 channel, 44100 Hz, 88200 bytes
      per second, a block of 2 bytes and 16 bits, and accepts those fields. */
  lemma StdFmtAccepted(h: WavHeader)
    ensures WithFmtFields(StdFmt, h, 0) == h.(audioFormat := 1, numChannels := 1, sampleRate := 44100,
                                              byteRate := 88200, blockAlign := 2, bitsPerSample := 16)
    ensures CheckFmt(StdFmt, h, 0, 16) == FmtOk(WithFmtFields(StdFmt, h, 0))
  {
    var h' := WithFmtFields(StdFmt, h, 0);
    assert h'.audioFormat == 1 && h'.numChannels == 1 && h'.sampleRate == 44100;
    assert h'.byteRate == 88200 && h'.blockAlign == 2 && h'.bitsPerSample == 16;
    assert FmtFieldsValid(h') && PcmConsistent(h');
  }

  /* ------------------------------------------------------------ layout */

  /** The two halves of a concatenation, as slices. */
  lemma Split(a: seq<byte>, b: seq<byte>)
    ensures (a + b)[0..|a|] == a && (a + b)[|a|..|a| + |b|] == b
  {
    assert (a + b)[0..|a|] == a;
    assert (a + b)[|a|..] == b;
  }

  /* ------------------------------------------------- parse_header steps */

  /** The chunk header at p as the loop reads it: its id and its size field. */
  predicate ChunkAt(data: seq<byte>, p: nat, id: string, size: int)
    requires |id| == 4
  {
    p + 8 <= |data| && TagAt(data, p, id) && ReadU32Le(data, p + 4) == size
  }

  /** The fields the loop reads from a 16-byte `fmt ` body placed at f. */
  lemma FieldsAt(data: seq<byte>, f: nat, body: seq<byte>, h: WavHeader)
    requires |body| == 16 && f + 16 <= |data| && data[f..f + 16] == body
    ensures WithFmtFields(data, h, f) == WithFmtFields(body, h, 0)
  {
    assert forall i :: 0 <= i < 16 ==> data[f + i] == body[i];
  }

  /** The checks before the loop on a file that starts with a RIFF header. */
  lemma ParseHead(data: seq<byte>, size: int)
    requires MinHeaderSize <= |data| <= U32Max && U32Fits(size) && data[0..12] == RiffHeader(size)
    ensures Parse(data) == if size < 36 || size > |data| - 8 then Rejected(BadRiffSize) else Walk(data, Start)
  {
    var h := RiffHeader(size);
    SliceOf(data, 0, h, 0, RiffId);
    SliceOf(data, 0, h, 4, U32(Little, size));
    SliceOf(data, 0, h, 8, WaveId);
    ReadU32Of(data, 4, size);
  }

  /** A `fmt ` chunk of at least 16 bytes whose fields are those of body:
      the loop goes on with them, or stops with the reason they fail. */
  lemma ReadFmt(data: seq<byte>, s: WalkState, size: nat, body: seq<byte>)
    requires |data| < U32Max && !(s.foundFmt && s.foundData)
    requires 16 <= size <= MaxChunkSize && s.offset + 8 + size <= |data| && ChunkAt(data, s.offset, "fmt ", size)
    requires |body| == 16 && WithFmtFields(data, s.header, s.offset + 8) == WithFmtFields(body, s.header, 0)
    ensures var c := CheckFmt(body, s.header, 0, 16);
      Walk(data, s) == if c.FmtBad? then Rejected(c.reason)
                       else Walk(data, WalkState(s.offset + 8 + Padded(size), true, s.foundData, c.header))
  {
    var c := CheckFmt(body, s.header, 0, 16);
    if c.FmtOk? {
      var next := WalkState(s.offset + 8 + Padded(size), true, s.foundData, c.header);
      assert LoopStep(data, s) == Next(next);
      WalkGoesOn(data, s, next);
    } else {
      BelowModulus(s.offset + 8);
    }
  }

  /** std_fmt as the first chunk: the loop goes on after it with its fields. */
  lemma StdFmtFirst(data: seq<byte>, size: nat, next: nat)
    requires |data| < U32Max && 16 <= size <= MaxChunkSize && 20 + size <= |data| && next == 20 + Padded(size)
    requires ChunkAt(data, 12, "fmt ", size) && WithFmtFields(data, ZeroHeader, 20) == FieldsOf(StdFmt)
    ensures Walk(data, Start) == Walk(data, WalkState(next, true, false, FieldsOf(StdFmt)))
  {
    StdFmtAccepted(ZeroHeader);
    ReadFmt(data, Start, size, StdFmt);
  }

  /** A `fmt ` chunk that declares fewer than 16 bytes ends the parse. */
  lemma ShortFmt(data: seq<byte>, s: WalkState, size: nat)
    requires |data| < U32Max && !(s.foundFmt && s.foundData)
    requires size < 16 && s.offset + 8 + size <= |data| && ChunkAt(data, s.offset, "fmt ", size)
    ensures Walk(data, s) == Rejected(FmtTooSmall)
  {
    BelowModulus(s.offset + 8);
  }

  /** A `data` chunk that runs past the end of the buffer ends the parse. */
  lemma Overrun(data: seq<byte>, s: WalkState, size: nat)
    requires |data| < U32Max && !(s.foundFmt && s.foundData)
    requires |data| < s.offset + 8 + size && ChunkAt(data, s.offset, "data", size)
    ensures Walk(data, s) == Rejected(ChunkOutOfBounds)
  {
    BelowModulus(s.offset + 8);
  }

  /** A `data` chunk inside the buffer is recorded and stepped over. */
  lemma SkipData(data: seq<byte>, s: WalkState, size: nat)
    requires |data| < U32Max && !(s.foundFmt && s.foundData)
    requires size <= MaxChunkSize && s.offset + 8 + size <= |data| && ChunkAt(data, s.offset, "data", size)
    ensures Walk(data, s) == Walk(data, WalkState(s.offset + 8 + Padded(size), s.foundFmt, true,
                                                  s.header.(dataChunkPos := s.offset + 8, dataChunkSize := size)))
  {
    var next := WalkState(s.offset + 8 + Padded(size), s.foundFmt, true,
                          s.header.(dataChunkPos := s.offset + 8, dataChunkSize := size));
    assert LoopStep(data, s) == Next(next);
    WalkGoesOn(data, s, next);
  }

  /** A chunk whose id is neither `fmt ` nor `data` is stepped over, with
      its pad byte. */
  lemma SkipOther(data: seq<byte>, s: WalkState, size: nat)
    requires |data| < U32Max && !(s.foundFmt && s.foundData)
    requires size <= MaxChunkSize && s.offset + 8 + size <= |data|
    requires !TagAt(data, s.offset, "fmt ") && !TagAt(data, s.offset, "data") && ReadU32Le(data, s.offset + 4) == size
    ensures Walk(data, s) == Walk(data, s.(offset := s.offset + 8 + Padded(size)))
  {
    assert LoopStep(data, s) == Next(s.(offset := s.offset + 8 + Padded(size)));
    WalkGoesOn(data, s, s.(offset := s.offset + 8 + Padded(size)));
  }

  /** An even size needs no pad byte. */
  lemma PaddedEven(size: nat)
    requires size % 2 == 0
    ensures Padded(size) == size
  {
    assert (size + 1) / 2 == size / 2;
  }

  /** Fewer than 8 bytes left: the loop ends. */
  lemma LoopEnds(data: seq<byte>, s: WalkState)
    requires |data| <= U32Max && |data| < s.offset + 8 <= U32Max
    ensures Walk(data, s) == Finish(s)
  {
    BelowModulus(s.offset + 8);
  }

  /** A chunk whose id is neither `fmt ` nor `data` and whose size field is
      0 is stepped over: the loop moves 8 bytes on. */
  lemma SkipEmpty(data: seq<byte>, s: WalkState)
    requires |data| < U32Max && !(s.foundFmt && s.foundData) && s.offset + 8 <= |data|
    requires !TagAt(data, s.offset, "fmt ") && !TagAt(data, s.offset, "data")
    requires forall i :: s.offset + 4 <= i < s.offset + 8 ==> data[i] == 0
    ensures Walk(data, s) == Walk(data, s.(offset := s.offset + 8))
  {
    assert ReadU32Le(data, s.offset + 4) == 0;
    assert LoopStep(data, s) == Next(s.(offset := s.offset + 8));
    WalkGoesOn(data, s, s.(offset := s.offset + 8));
  }

  /** From an offset where only zero bytes remain, every pass reads a chunk
      with id 0 and size 0 and moves 8 bytes on, until fewer than 8 bytes
      are left: the loop ends with the flags it had. */
  lemma {:induction false} ZeroRun(data: seq<byte>, s: WalkState)
    requires |data| + 8 <= U32Max && s.offset <= |data| && !(s.foundFmt && s.foundData)
    requires forall i :: s.offset <= i < |data| ==> data[i] == 0
    ensures Walk(data, s) == Finish(s)
    decreases |data| - s.offset
  {
    if s.offset + 8 > |data| {
      LoopEnds(data, s);
    } else {
      SkipEmpty(data, s);
      ZeroRun(data, s.(offset := s.offset + 8));
    }
  }

  /** The slices of a file made of a 12-byte RIFF header, a chunk header
      and a body, then a second chunk header and its bytes. */
  lemma TwoChunks(r: seq<byte>, h1: seq<byte>, body: seq<byte>, h2: seq<byte>, rest: seq<byte>)
    requires |r| == 12 && |h1| == 8 && |h2| == 8
    ensures var data := r + h1 + body + (h2 + rest);
      var p := 20 + |body|;
      data[0..12] == r && data[12..20] == h1 && data[20..p] == body && data[p..p + 8] == h2
  {
    var b := r + h1;
    var a := b + body;
    var tail := h2 + rest;
    var data := a + tail;
    Split(a, tail);
    Split(b, body);
    Split(r, h1);
    Split(h2, rest);
    SliceOf(data, 0, a, 0, b);
    SliceOf(data, 0, a, 20, body);
    SliceOf(data, 0, b, 0, r);
    SliceOf(data, 0, b, 12, h1);
    SliceOf(data, |a|, tail, 0, h2);
  }

  /** The usual layout: a RIFF header, a `fmt ` chunk of 16 bytes, then a
      `data` chunk header that declares size and the bytes after it. The
      parse stops at the first of: the RIFF size check, the `fmt ` field
      checks, a `data` chunk that runs past the end; otherwise it returns
      the fields of body with the `data` chunk at 44. */
  lemma FmtThenData(riffSize: int, body: seq<byte>, size: int, rest: seq<byte>)
    requires U32Fits(riffSize) && |body| == 16 && U32Fits(size) && 44 + |rest| <= MaxChunkSize
    ensures var data := RiffHeader(riffSize) + ChunkHeader(Little, FmtId, 16) + body
                        + (ChunkHeader(Little, DataId, size) + rest);
      var c := CheckFmt(body, ZeroHeader, 0, 16);
      Parse(data) == if riffSize < 36 || riffSize > |data| - 8 then Rejected(BadRiffSize)
                     else if c.FmtBad? then Rejected(c.reason)
                     else if size > |rest| then Rejected(ChunkOutOfBounds)
                     else Parsed(c.header.(dataChunkPos := 44, dataChunkSize := size))
  {
    var data := RiffHeader(riffSize) + ChunkHeader(Little, FmtId, 16) + body
                + (ChunkHeader(Little, DataId, size) + rest);
    TwoChunks(RiffHeader(riffSize), ChunkHeader(Little, FmtId, 16), body, ChunkHeader(Little, DataId, size), rest);
    ParseHead(data, riffSize);
    if 36 <= riffSize <= |data| - 8 {
      ReadChunkHeader(data, 12, "fmt ", 16);
      ReadChunkHeader(data, 36, "data", size);
      FieldsAt(data, 20, body, ZeroHeader);
      FmtThenDataWalk(data, body, size);
    }
  }

  /** The loop of FmtThenData. */
  lemma FmtThenDataWalk(data: seq<byte>, body: seq<byte>, size: int)
    requires 44 <= |data| <= MaxChunkSize && |body| == 16 && U32Fits(size)
    requires ChunkAt(data, 12, "fmt ", 16) && WithFmtFields(data, ZeroHeader, 20) == WithFmtFields(body, ZeroHeader, 0)
    requires ChunkAt(data, 36, "data", size)
    ensures var c := CheckFmt(body, ZeroHeader, 0, 16);
      Walk(data, Start) == if c.FmtBad? then Rejected(c.reason)
                           else if 44 + size > |data| then Rejected(ChunkOutOfBounds)
                           else Parsed(c.header.(dataChunkPos := 44, dataChunkSize := size))
  {
    var c := CheckFmt(body, ZeroHeader, 0, 16);
    assert Walk(data, Start) == if c.FmtBad? then Rejected(c.reason) else Walk(data, WalkState(36, true, false, c.header)) by {
      ReadFmt(data, Start, 16, body);
      PaddedEven(16);
    }
    if c.FmtOk? {
      var s := WalkState(36, true, false, c.header);
      if 44 + size > |data| {
        assert Walk(data, s) == Rejected(ChunkOutOfBounds) by { Overrun(data, s, size); }
      } else {
        var h := c.header.(dataChunkPos := 44, dataChunkSize := size);
        assert Walk(data, s) == Parsed(h) by {
          SkipData(data, s, size);
          WalkStops(data, WalkState(44 + Padded(size), true, true, h));
        }
      }
    }
  }

  /* ------------------------------------------------------- the recipes */

  /** The fields of the `fmt ` bodies the script writes, other than std_fmt. */
  const BadTagFmt: seq<byte> := [0x99, 0x00, 0x01, 0x00, 0x44, 0xac, 0x00, 0x00, 0x88, 0x58, 0x01, 0x00, 0x02, 0x00, 0x10, 0x00]
  const ZeroChannelsFmt: seq<byte> := [0x01, 0x00, 0x00, 0x00, 0x44, 0xac, 0x00, 0x00, 0x88, 0x58, 0x01, 0x00, 0x02, 0x00, 0x10, 0x00]
  const ExtremeChannelsFmt: seq<byte> := [0x01, 0x00, 0xff, 0xff, 0x44, 0xac, 0x00, 0x00, 0x88, 0x58, 0x01, 0x00, 0x02, 0x00, 0x10, 0x00]
  const ZeroRateFmt: seq<byte> := [0x01, 0x00, 0x01, 0x00, 0x00, 0x00, 0x00, 0x00, 0x88, 0x58, 0x01, 0x00, 0x02, 0x00, 0x10, 0x00]
  const BadBitsFmt: seq<byte> := [0x01, 0x00, 0x01, 0x00, 0x44, 0xac, 0x00, 0x00, 0x88, 0x58, 0x01, 0x00, 0x02, 0x00, 0x0d, 0x00]
  const BadAlignFmt: seq<byte> := [0x01, 0x00, 0x02, 0x00, 0x44, 0xac, 0x00, 0x00, 0x88, 0x58, 0x01, 0x00, 0x01, 0x00, 0x10, 0x00]
  const FloatFmt: seq<byte> := [0x03, 0x00, 0x01, 0x00, 0x44, 0xac, 0x00, 0x00, 0x10, 0xb1, 0x02, 0x00, 0x04, 0x00, 0x20, 0x00]
  /** The 8-byte body of evil_tiny_fmt.wav: tag, channels and rate only. */
  const TinyFmt: seq<byte> := [0x01, 0x00, 0x01, 0x00, 0x44, 0xac, 0x00, 0x00]
  /** struct.pack('<8h', 1000, -1000, 2000, -2000, 0, 32767, -32768, 100) */
  const IntSamples: seq<byte> := [0xe8, 0x03, 0x18, 0xfc, 0xd0, 0x07, 0x30, 0xf8, 0x00, 0x00, 0xff, 0x7f, 0x00, 0x80, 0x64, 0x00]

  /** 1. evil_small_riff.wav: the RIFF size field says 20. */
  const SmallRiff: seq<byte> := RiffHeader(20) + ChunkHeader(Little, FmtId, 16) + StdFmt + StdDataChunk

  /** 2. evil_big_riff.wav: the RIFF size field says 99999. */
  const BigRiff: seq<byte> := RiffHeader(99999) + ChunkHeader(Little, FmtId, 16) + StdFmt + StdDataChunk

  /** 3. evil_multi_data_chunks.wav: an empty `data` chunk, then one of 32
      bytes, under a RIFF size of 100. */
  const MultiDataBody: seq<byte> := ChunkHeader(Little, DataId, 32) + Repeat(1, 32)
  const MultiData: seq<byte> := RiffHeader(100) + ChunkHeader(Little, FmtId, 16) + StdFmt
                                + (ChunkHeader(Little, DataId, 0) + MultiDataBody)

  /** 6. evil_truncated.wav: a `data` chunk of 32 bytes with 10 present. */
  const Truncated: seq<byte> := RiffHeader(40) + ChunkHeader(Little, FmtId, 16) + StdFmt
                                + (ChunkHeader(Little, DataId, 32) + Repeat(0, 10))

  /** 11 to 16: std_data_chunk after a `fmt ` chunk with an unusual field. */
  function WithFmt(body: seq<byte>): (r: seq<byte>)
    requires |body| == 16
    ensures |r| == 76
  {
    RiffHeader(44) + ChunkHeader(Little, FmtId, 16) + body + StdDataChunk
  }

  /** 19. evil_oversized_chunk.wav: a `data` chunk of 99999 bytes with 32 present. */
  const Oversized: seq<byte> := RiffHeader(44) + ChunkHeader(Little, FmtId, 16) + StdFmt
                                + (ChunkHeader(Little, DataId, 99999) + Repeat(0, 32))

  /** 24. evil_float_fmt_int_data.wav: an IEEE float `fmt ` chunk and a
      `data` chunk of 32 bytes with 16 present. */
  const FloatIntData: seq<byte> := RiffHeader(44) + ChunkHeader(Little, FmtId, 16) + FloatFmt
                                   + (ChunkHeader(Little, DataId, 32) + IntSamples)

  /** The RIFF size check rejects the two files whose size field is out of
      range, and evil_multi_data_chunks.wav, whose 100 exceeds its 76 bytes
      after the first eight; with a size in range the empty `data` chunk
      would be the one recorded. */
  lemma RiffSizeRejected()
    ensures |SmallRiff| == 76 && Parse(SmallRiff) == Rejected(BadRiffSize)
    ensures |BigRiff| == 76 && Parse(BigRiff) == Rejected(BadRiffSize)
    ensures |MultiData| == 84 && Parse(MultiData) == Rejected(BadRiffSize)
  {
    FmtThenData(20, StdFmt, 32, Repeat(0, 32));
    FmtThenData(99999, StdFmt, 32, Repeat(0, 32));
    FmtThenData(100, StdFmt, 0, MultiDataBody);
  }

  /** With a RIFF size in range, the first `data` chunk, the empty one, wins. */
  lemma MultiDataFirstWins(riffSize: int)
    requires 36 <= riffSize <= 76
    ensures var data := RiffHeader(riffSize) + ChunkHeader(Little, FmtId, 16) + StdFmt
                        + (ChunkHeader(Little, DataId, 0) + MultiDataBody);
      Parse(data) == Parsed(FieldsOf(StdFmt).(dataChunkPos := 44, dataChunkSize := 0))
  {
    FmtThenData(riffSize, StdFmt, 0, MultiDataBody);
    StdFmtAccepted(ZeroHeader);
  }

  /** A `data` chunk that declares more bytes than the file holds is refused,
      whatever the format tag says. */
  lemma OverrunRejected()
    ensures Parse(Truncated) == Rejected(ChunkOutOfBounds)
    ensures Parse(Oversized) == Rejected(ChunkOutOfBounds)
    ensures Parse(FloatIntData) == Rejected(ChunkOutOfBounds)
  {
    StdFmtAccepted(ZeroHeader);
    FmtThenData(40, StdFmt, 32, Repeat(0, 10));
    FmtThenData(44, StdFmt, 99999, Repeat(0, 32));
    FmtThenData(44, FloatFmt, 32, IntSamples);
  }

  /** 11. evil_bad_format_tag.wav: tag 0x99 is not one the decoder refuses;
      the parse succeeds with that tag. */
  lemma BadFormatTagAccepted()
    ensures FieldsOf(BadTagFmt) == FieldsOf(StdFmt).(audioFormat := 0x99)
    ensures Parse(WithFmt(BadTagFmt)) == Parsed(WavHeader(0x99, 1, 44100, 88200, 2, 16, 44, 32))
  {
    FmtThenData(44, BadTagFmt, 32, Repeat(0, 32));
  }

  /** 15. evil_bad_bit_depth.wav: 13 bits with a block of 2 bytes is
      consistent PCM for the decoder, so the parse succeeds. */
  lemma BadBitDepthAccepted()
    ensures FieldsOf(BadBitsFmt) == FieldsOf(StdFmt).(bitsPerSample := 13)
    ensures Parse(WithFmt(BadBitsFmt)) == Parsed(WavHeader(1, 1, 44100, 88200, 2, 13, 44, 32))
  {
    var h := FieldsOf(BadBitsFmt);
    assert h == WavHeader(1, 1, 44100, 88200, 2, 13, 0, 0);
    assert (1 * 13 + 7) / 8 == 2 && (44100 * 2) % 0x1_0000_0000 == 88200;
    assert CheckFmt(BadBitsFmt, ZeroHeader, 0, 16) == FmtOk(h);
    FmtThenData(44, BadBitsFmt, 32, Repeat(0, 32));
  }

  /** 12. evil_zero_channels.wav: 0 channels fails the range test. */
  lemma ZeroChannelsRejected()
    ensures FieldsOf(ZeroChannelsFmt) == FieldsOf(StdFmt).(numChannels := 0)
    ensures Parse(WithFmt(ZeroChannelsFmt)) == Rejected(BadFmtField)
  {
    FmtThenData(44, ZeroChannelsFmt, 32, Repeat(0, 32));
  }

  /** 13. evil_extreme_channels.wav: 65535 channels fails the range test. */
  lemma ExtremeChannelsRejected()
    ensures FieldsOf(ExtremeChannelsFmt) == FieldsOf(StdFmt).(numChannels := 0xffff)
    ensures Parse(WithFmt(ExtremeChannelsFmt)) == Rejected(BadFmtField)
  {
    FmtThenData(44, ExtremeChannelsFmt, 32, Repeat(0, 32));
  }

  /** 14. evil_zero_sample_rate.wav: a rate of 0 fails the range test. */
  lemma ZeroRateRejected()
    ensures FieldsOf(ZeroRateFmt) == FieldsOf(StdFmt).(sampleRate := 0)
    ensures Parse(WithFmt(ZeroRateFmt)) == Rejected(BadFmtField)
  {
    FmtThenData(44, ZeroRateFmt, 32, Repeat(0, 32));
  }

  /** 16. evil_bad_block_align.wav: a block of 1 byte for two 16-bit channels
      fails the PCM consistency test. */
  lemma BadBlockAlignRejected()
    ensures FieldsOf(BadAlignFmt) == FieldsOf(StdFmt).(numChannels := 2, blockAlign := 1)
    ensures Parse(WithFmt(BadAlignFmt)) == Rejected(PcmMismatch)
  {
    var h := FieldsOf(BadAlignFmt);
    assert h == WavHeader(1, 2, 44100, 88200, 1, 16, 0, 0);
    assert (2 * 16 + 7) / 8 == 4;
    assert CheckFmt(BadAlignFmt, ZeroHeader, 0, 16) == FmtBad(PcmMismatch);
    FmtThenData(44, BadAlignFmt, 32, Repeat(0, 32));
  }

  /** 4. evil_data_before_fmt.wav: the `data` chunk comes first. */
  const DataBeforeFmt: seq<byte> := RiffHeader(60) + (ChunkHeader(Little, DataId, 32) + Repeat(0, 32))
                                    + ChunkHeader(Little, FmtId, 16) + StdFmt

  /** A `data` chunk of even size first, then a 16-byte `fmt ` chunk that
      ends the file: the loop takes the chunks in either order. */
  lemma DataThenFmt(riffSize: int, samples: seq<byte>, body: seq<byte>)
    requires U32Fits(riffSize) && |body| == 16 && |samples| % 2 == 0 && 44 + |samples| <= MaxChunkSize
    ensures var data := RiffHeader(riffSize) + (ChunkHeader(Little, DataId, |samples|) + samples)
                        + ChunkHeader(Little, FmtId, 16) + body;
      var c := CheckFmt(body, ZeroHeader.(dataChunkPos := 20, dataChunkSize := |samples|), 0, 16);
      Parse(data) == if riffSize < 36 || riffSize > |data| - 8 then Rejected(BadRiffSize)
                     else if c.FmtBad? then Rejected(c.reason)
                     else Parsed(c.header)
  {
    var r, dh, fh := RiffHeader(riffSize), ChunkHeader(Little, DataId, |samples|), ChunkHeader(Little, FmtId, 16);
    var data := r + (dh + samples) + fh + body;
    DataFirstLayout(r, dh, samples, fh, body);
    ParseHead(data, riffSize);
    if 36 <= riffSize <= |data| - 8 {
      var size := |samples|;
      var h := ZeroHeader.(dataChunkPos := 20, dataChunkSize := size);
      var c := CheckFmt(body, h, 0, 16);
      var s := WalkState(20 + size, false, true, h);
      assert Walk(data, Start) == Walk(data, s) by {
        ReadChunkHeader(data, 12, "data", size);
        DataFirst(data, size);
      }
      assert Walk(data, s) == if c.FmtBad? then Rejected(c.reason) else Parsed(c.header) by {
        ReadChunkHeader(data, 20 + size, "fmt ", 16);
        FieldsAt(data, 28 + size, body, h);
        FmtLast(data, 20 + size, h, body);
      }
    }
  }

  /** The slices of a file made of a 12-byte RIFF header, a chunk with its
      bytes, then a second chunk header and its bytes. */
  lemma DataFirstLayout(r: seq<byte>, h1: seq<byte>, samples: seq<byte>, h2: seq<byte>, body: seq<byte>)
    requires |r| == 12 && |h1| == 8 && |h2| == 8
    ensures var data := r + (h1 + samples) + h2 + body;
      var p := 20 + |samples|;
      data[0..12] == r && data[12..20] == h1 && data[p..p + 8] == h2 && data[p + 8..p + 8 + |body|] == body
  {
    var d := h1 + samples;
    var a := r + d;
    var b := a + h2;
    var data := b + body;
    Split(b, body);
    Split(a, h2);
    Split(r, d);
    Split(h1, samples);
    SliceOf(data, 0, b, 0, a);
    SliceOf(data, 0, b, |a|, h2);
    SliceOf(data, 0, a, 0, r);
    SliceOf(data, 0, a, 12, d);
    SliceOf(data, 12, d, 0, h1);
  }

  /** A `data` chunk of even size at offset 12 is recorded and stepped over. */
  lemma DataFirst(data: seq<byte>, size: nat)
    requires |data| < U32Max && size % 2 == 0 && size <= MaxChunkSize && 20 + size <= |data|
    requires ChunkAt(data, 12, "data", size)
    ensures Walk(data, Start) == Walk(data, WalkState(20 + size, false, true, ZeroHeader.(dataChunkPos := 20, dataChunkSize := size)))
  {
    PaddedEven(size);
    SkipData(data, Start, size);
  }

  /** A 16-byte `fmt ` chunk that ends the buffer, after the `data` chunk:
      the parse ends with its fields or with the reason they fail. */
  lemma FmtLast(data: seq<byte>, o: nat, h: WavHeader, body: seq<byte>)
    requires |data| == o + 24 < U32Max && |body| == 16
    requires ChunkAt(data, o, "fmt ", 16) && WithFmtFields(data, h, o + 8) == WithFmtFields(body, h, 0)
    ensures var c := CheckFmt(body, h, 0, 16);
      Walk(data, WalkState(o, false, true, h)) == if c.FmtBad? then Rejected(c.reason) else Parsed(c.header)
  {
    ReadFmt(data, WalkState(o, false, true, h), 16, body);
    var c := CheckFmt(body, h, 0, 16);
    if c.FmtOk? {
      WalkStops(data, WalkState(o + 8 + Padded(16), true, true, c.header));
    }
  }

  /** The parse succeeds with the samples at 20. */
  lemma DataBeforeFmtAccepted()
    ensures |DataBeforeFmt| == 76
    ensures Parse(DataBeforeFmt) == Parsed(WavHeader(1, 1, 44100, 88200, 2, 16, 20, 32))
  {
    DataThenFmt(60, Repeat(0, 32), StdFmt);
    StdFmtAccepted(ZeroHeader.(dataChunkPos := 20, dataChunkSize := 32));
  }

  /** 7. evil_no_fmt_chunk.wav: a RIFF header and std_data_chunk. */
  const NoFmt: seq<byte> := RiffHeader(36) + StdDataChunk

  /** The `data` chunk is found, then the buffer ends: no `fmt ` chunk. */
  lemma NoFmtRejected()
    ensures |NoFmt| == 52 && Parse(NoFmt) == Rejected(MissingChunk)
  {
    var d := ChunkHeader(Little, DataId, 32) + Repeat(0, 32);
    Split(RiffHeader(36), d);
    SliceOf(NoFmt, 12, d, 0, ChunkHeader(Little, DataId, 32));
    ParseHead(NoFmt, 36);
    ReadChunkHeader(NoFmt, 12, "data", 32);
    SkipData(NoFmt, Start, 32);
    LoopEnds(NoFmt, WalkState(52, false, true, ZeroHeader.(dataChunkPos := 20, dataChunkSize := 32)));
  }

  /** 8. evil_no_data_chunk.wav: a RIFF header and a `fmt ` chunk only. */
  const NoData: seq<byte> := RiffHeader(28) + ChunkHeader(Little, FmtId, 16) + StdFmt

  /** 20. evil_empty_file.wav and 21. evil_just_riff.wav. */
  const Empty: seq<byte> := []
  const JustRiff: seq<byte> := RiffId

  /** Files shorter than the 44 bytes of a canonical header are refused
      before anything is read. */
  lemma TooShortRejected()
    ensures |NoData| == 36 && Parse(NoData) == Rejected(TooShort)
    ensures Parse(Empty) == Rejected(TooShort)
    ensures |JustRiff| == 4 && Parse(JustRiff) == Rejected(TooShort)
  {
  }

  /** 9. evil_zero_fmt_size.wav: a `fmt ` chunk that declares 0 bytes. */
  const ZeroFmtSize: seq<byte> := RiffHeader(40) + ChunkHeader(Little, FmtId, 0) + StdDataChunk

  lemma ZeroFmtSizeRejected()
    ensures |ZeroFmtSize| == 60 && Parse(ZeroFmtSize) == Rejected(FmtTooSmall)
  {
    var a := RiffHeader(40) + ChunkHeader(Little, FmtId, 0);
    Split(a, StdDataChunk);
    Split(RiffHeader(40), ChunkHeader(Little, FmtId, 0));
    SliceOf(ZeroFmtSize, 0, a, 0, RiffHeader(40));
    SliceOf(ZeroFmtSize, 0, a, 12, ChunkHeader(Little, FmtId, 0));
    ParseHead(ZeroFmtSize, 40);
    ReadChunkHeader(ZeroFmtSize, 12, "fmt ", 0);
    ShortFmt(ZeroFmtSize, Start, 0);
  }

  /** 10. evil_tiny_fmt.wav: an 8-byte `fmt ` chunk under a RIFF size of 30. */
  const TinyFmtFile: seq<byte> := RiffHeader(30) + ChunkHeader(Little, FmtId, 8) + TinyFmt + StdDataChunk

  /** The RIFF size check fires before the `fmt ` chunk is looked at; with
      a size in range, the 8-byte `fmt ` chunk would be refused as too small. */
  lemma TinyFmtParse(riffSize: int)
    requires U32Fits(riffSize)
    ensures var data := RiffHeader(riffSize) + ChunkHeader(Little, FmtId, 8) + TinyFmt + StdDataChunk;
      Parse(data) == if riffSize < 36 || riffSize > 60 then Rejected(BadRiffSize) else Rejected(FmtTooSmall)
  {
    var data := RiffHeader(riffSize) + ChunkHeader(Little, FmtId, 8) + TinyFmt + StdDataChunk;
    TwoChunks(RiffHeader(riffSize), ChunkHeader(Little, FmtId, 8), TinyFmt, ChunkHeader(Little, DataId, 32), Repeat(0, 32));
    ParseHead(data, riffSize);
    if 36 <= riffSize <= 60 {
      ReadChunkHeader(data, 12, "fmt ", 8);
      ShortFmt(data, Start, 8);
    }
  }

  lemma TinyFmtRejected()
    ensures |TinyFmtFile| == 68 && Parse(TinyFmtFile) == Rejected(BadRiffSize)
  {
    TinyFmtParse(30);
  }

  /** A 12-byte file header that is not "RIFF" ... "WAVE" is refused. */
  lemma BadHead(head: seq<byte>, rest: seq<byte>)
    requires |head| == 12 && 32 <= |rest| && 12 + |rest| <= U32Max
    requires head[0..4] != RiffId || head[8..12] != WaveId
    ensures Parse(head + rest) == Rejected(BadSignature)
  {
    Split(head, rest);
    SliceOf(head + rest, 0, head, 0, head[0..4]);
    SliceOf(head + rest, 0, head, 8, head[8..12]);
  }

  /** 17. evil_mixed_endian.wav: a big-endian RIFX header over
      little-endian chunks. */
  const MixedEndian: seq<byte> := (ChunkHeader(Big, RifxId, 44) + WaveId)
                                  + (ChunkHeader(Little, FmtId, 16) + StdFmt + StdDataChunk)

  /** Only RIFF files are read: RIFX is refused even with little-endian chunks. */
  lemma MixedEndianRejected()
    ensures |MixedEndian| == 76 && Parse(MixedEndian) == Rejected(BadSignature)
  {
    var head := ChunkHeader(Big, RifxId, 44) + WaveId;
    assert head[3] == 'X' as int;
    BadHead(head, ChunkHeader(Little, FmtId, 16) + StdFmt + StdDataChunk);
  }

  /** 22. evil_bad_wave_signature.wav: "WXYZ" in place of "WAVE". */
  const BadWaveSignature: seq<byte> := (ChunkHeader(Little, RiffId, 44) + Ascii("WXYZ"))
                                       + (ChunkHeader(Little, FmtId, 16) + StdFmt + StdDataChunk)

  /** A form type other than WAVE is refused. */
  lemma BadWaveSignatureRejected()
    ensures |BadWaveSignature| == 76 && Parse(BadWaveSignature) == Rejected(BadSignature)
  {
    var head := ChunkHeader(Little, RiffId, 44) + Ascii("WXYZ");
    assert head[9] == 'X' as int;
    BadHead(head, ChunkHeader(Little, FmtId, 16) + StdFmt + StdDataChunk);
  }

  /** 18. evil_bad_chunk_id.wav: the `fmt ` chunk is named "fmx ". */
  const BadChunkId: seq<byte> := RiffHeader(44) + ChunkHeader(Little, Ascii("fmx "), 16) + StdFmt + StdDataChunk

  /** A "fmx " chunk of 16 bytes first, then a `data` chunk of even size
      that ends the file: "fmx " is stepped over as an unknown chunk, the
      `data` chunk found, and the loop ends without a `fmt ` chunk. */
  lemma FmxThenData(riffSize: int, body: seq<byte>, samples: seq<byte>)
    requires U32Fits(riffSize) && |body| == 16 && |samples| % 2 == 0 && 44 + |samples| <= MaxChunkSize
    ensures var data := RiffHeader(riffSize) + ChunkHeader(Little, Ascii("fmx "), 16) + body
                        + (ChunkHeader(Little, DataId, |samples|) + samples);
      Parse(data) == if riffSize < 36 || riffSize > |data| - 8 then Rejected(BadRiffSize)
                     else Rejected(MissingChunk)
  {
    var data := RiffHeader(riffSize) + ChunkHeader(Little, Ascii("fmx "), 16) + body
                + (ChunkHeader(Little, DataId, |samples|) + samples);
    TwoChunks(RiffHeader(riffSize), ChunkHeader(Little, Ascii("fmx "), 16), body,
              ChunkHeader(Little, DataId, |samples|), samples);
    ParseHead(data, riffSize);
    if 36 <= riffSize <= |data| - 8 {
      ReadChunkHeader(data, 12, "fmx ", 16);
      ReadChunkHeader(data, 36, "data", |samples|);
      FmxWalk(data, |samples|);
    }
  }

  lemma FmxWalk(data: seq<byte>, size: nat)
    requires size % 2 == 0 && |data| == 44 + size <= MaxChunkSize
    requires TagAt(data, 12, "fmx ") && ReadU32Le(data, 16) == 16
    requires TagAt(data, 36, "data") && ReadU32Le(data, 40) == size
    ensures Walk(data, Start) == Rejected(MissingChunk)
  {
    var s := WalkState(36, false, false, ZeroHeader);
    var h := ZeroHeader.(dataChunkPos := 44, dataChunkSize := size);
    PaddedEven(16);
    PaddedEven(size);
    SkipOther(data, Start, 16);
    assert LoopStep(data, s) == Next(WalkState(44 + size, false, true, h));
    WalkGoesOn(data, s, WalkState(44 + size, false, true, h));
    LoopEnds(data, WalkState(44 + size, false, true, h));
  }

  /** "fmx " is not `fmt `: the file has no `fmt ` chunk for the decoder. */
  lemma BadChunkIdRejected()
    ensures |BadChunkId| == 76 && Parse(BadChunkId) == Rejected(MissingChunk)
  {
    FmxThenData(44, StdFmt, Repeat(0, 32));
  }

  /** 5. evil_odd_chunk_size.wav: a `fmt ` chunk of 17 bytes (std_fmt and a
      zero byte) with no pad byte after it, then a `data` chunk of 33 zero
      bytes followed by its pad byte. */
  const OddChunkSize: seq<byte> := RiffHeader(60) + ChunkHeader(Little, FmtId, 17) + StdFmt + [0]
                                   + (ChunkHeader(Little, DataId, 33) + Repeat(0, 33) + [0])

  /** The same file with the pad byte the `fmt ` chunk's odd size calls for. */
  const OddChunkSizePadded: seq<byte> := RiffHeader(60) + ChunkHeader(Little, FmtId, 17) + StdFmt + [0, 0]
                                         + (ChunkHeader(Little, DataId, 33) + Repeat(0, 33) + [0])

  /** The slices of a file made of a RIFF header, a `fmt ` chunk header, a
      16-byte body and the bytes after it, then a chunk header and its bytes. */
  lemma PaddedLayout(r: seq<byte>, h1: seq<byte>, body: seq<byte>, extra: seq<byte>, h2: seq<byte>, rest: seq<byte>)
    requires |r| == 12 && |h1| == 8 && |body| == 16 && |h2| == 8
    ensures var data := r + h1 + body + extra + (h2 + rest);
      var p := 36 + |extra|;
      data[0..12] == r && data[12..20] == h1 && data[20..36] == body
      && data[p..p + 8] == h2 && data[p + 8..|data|] == rest
  {
    var c := r + h1 + body;
    var a := c + extra;
    var tail := h2 + rest;
    var data := a + tail;
    Split(a, tail);
    Split(c, extra);
    Split(h2, rest);
    SliceOf(data, 0, a, 0, c);
    var b := r + h1;
    Split(b, body);
    Split(r, h1);
    SliceOf(data, 0, c, 0, b);
    SliceOf(data, 0, c, 20, body);
    SliceOf(data, 0, b, 0, r);
    SliceOf(data, 0, b, 12, h1);
    SliceOf(data, |a|, tail, 0, h2);
    SliceOf(data, |a|, tail, 8, rest);
  }

  /** The `fmt ` chunk is read, and the loop steps 8 + 18 bytes on, to 38.
      There the `data` chunk starts at 37, so the loop reads id "ata!" and
      size 0, then zero-sized chunks of zero bytes to the end: no `data`
      chunk is found. */
  lemma OddChunkSizeRejected()
    ensures |OddChunkSize| == 79 && OddChunkSize[37..41] == DataId
    ensures TagAt(OddChunkSize, 38, "ata!") && ReadU32Le(OddChunkSize, 42) == 0
    ensures Parse(OddChunkSize) == Rejected(MissingChunk)
  {
    PaddedLayout(RiffHeader(60), ChunkHeader(Little, FmtId, 17), StdFmt, [0],
                 ChunkHeader(Little, DataId, 33), Repeat(0, 33) + [0]);
    OddParse(OddChunkSize);
  }

  /** parse_header on the bytes of evil_odd_chunk_size.wav. */
  lemma OddParse(data: seq<byte>)
    requires |data| == 79 && data[0..12] == RiffHeader(60) && data[12..20] == ChunkHeader(Little, FmtId, 17)
    requires data[20..36] == StdFmt && data[37..45] == ChunkHeader(Little, DataId, 33)
    requires data[45..79] == Repeat(0, 33) + [0]
    ensures data[37..41] == DataId && TagAt(data, 38, "ata!") && ReadU32Le(data, 42) == 0
    ensures Parse(data) == Rejected(MissingChunk)
  {
    var s := WalkState(38, true, false, FieldsOf(StdFmt));
    assert data[37..41] == data[37..45][..4];
    MisalignedBytes(data);
    assert Parse(data) == Walk(data, Start) by { ParseHead(data, 60); }
    assert Walk(data, Start) == Walk(data, s) by {
      ReadChunkHeader(data, 12, "fmt ", 17);
      FieldsAt(data, 20, StdFmt, ZeroHeader);
      StdFmtFirst(data, 17, 38);
    }
    assert Walk(data, s) == Rejected(MissingChunk) by { OddWalk(data, FieldsOf(StdFmt)); }
  }

  /** What the loop sees from offset 38 of a `data` chunk of 33 zero bytes
      and a pad byte placed at 37. */
  lemma MisalignedBytes(data: seq<byte>)
    requires |data| == 79 && data[37..45] == ChunkHeader(Little, DataId, 33) && data[45..79] == Repeat(0, 33) + [0]
    ensures TagAt(data, 38, "ata!") && forall i :: 42 <= i < 79 ==> data[i] == 0
  {
    var dh := ChunkHeader(Little, DataId, 33);
    assert forall i :: 45 <= i < 79 ==> data[i] == data[45..79][i - 45];
    assert forall i :: 37 <= i < 45 ==> data[i] == dh[i - 37];
    assert dh == [0x64, 0x61, 0x74, 0x61, 33, 0, 0, 0];
  }

  /** The loop of OddChunkSizeRejected from offset 38. */
  lemma OddWalk(data: seq<byte>, h: WavHeader)
    requires |data| == 79 && TagAt(data, 38, "ata!") && forall i :: 42 <= i < 79 ==> data[i] == 0
    ensures Walk(data, WalkState(38, true, false, h)) == Rejected(MissingChunk)
  {
    var s := WalkState(38, true, false, h);
    SkipEmpty(data, s);
    ZeroRun(data, s.(offset := 46));
  }

  /** With the pad byte, the `data` chunk is where the loop looks: the parse
      succeeds with 33 bytes of samples at 46. */
  lemma OddChunkSizePaddedAccepted()
    ensures |OddChunkSizePadded| == 80
    ensures Parse(OddChunkSizePadded) == Parsed(WavHeader(1, 1, 44100, 88200, 2, 16, 46, 33))
  {
    PaddedLayout(RiffHeader(60), ChunkHeader(Little, FmtId, 17), StdFmt, [0, 0],
                 ChunkHeader(Little, DataId, 33), Repeat(0, 33) + [0]);
    PaddedParse(OddChunkSizePadded);
    StdFmtAccepted(ZeroHeader);
  }

  /** parse_header on the bytes of the padded file. */
  lemma PaddedParse(data: seq<byte>)
    requires |data| == 80 && data[0..12] == RiffHeader(60) && data[12..20] == ChunkHeader(Little, FmtId, 17)
    requires data[20..36] == StdFmt && data[38..46] == ChunkHeader(Little, DataId, 33)
    ensures Parse(data) == Parsed(FieldsOf(StdFmt).(dataChunkPos := 46, dataChunkSize := 33))
  {
    var s := WalkState(38, true, false, FieldsOf(StdFmt));
    assert Parse(data) == Walk(data, Start) by { ParseHead(data, 60); }
    assert Walk(data, Start) == Walk(data, s) by {
      ReadChunkHeader(data, 12, "fmt ", 17);
      FieldsAt(data, 20, StdFmt, ZeroHeader);
      StdFmtFirst(data, 17, 38);
    }
    assert Walk(data, s) == Parsed(FieldsOf(StdFmt).(dataChunkPos := 46, dataChunkSize := 33)) by {
      ReadChunkHeader(data, 38, "data", 33);
      SkipData(data, s, 33);
      WalkStops(data, WalkState(46 + Padded(33), true, true, FieldsOf(StdFmt).(dataChunkPos := 46, dataChunkSize := 33)));
    }
  }

  /** 23. evil_nested_chunks.wav: after the `fmt ` chunk, a LIST chunk that
      declares 20 bytes and holds "INFO" and a RIFF header of size 8 (16
      bytes), then std_data_chunk. */
  const ListChunk: seq<byte> := ChunkHeader(Little, Ascii("LIST"), 20) + Ascii("INFO") + RiffHeader(8)
  const Nested: seq<byte> := RiffHeader(60) + ChunkHeader(Little, FmtId, 16) + StdFmt + (ListChunk + StdDataChunk)

  /** The LIST chunk is stepped over by its declared 20 bytes, which lands at
      64, inside the `data` chunk header that starts at 60: the loop reads
      its size byte 32 as an id with size 0, then zero-sized chunks of zero
      bytes to the end, and finds no `data` chunk. */
  lemma NestedRejected()
    ensures Parse(Nested) == Rejected(MissingChunk)
  {
    var lh := ChunkHeader(Little, Ascii("LIST"), 20);
    NestedLayout(RiffHeader(60), ChunkHeader(Little, FmtId, 16), StdFmt, lh, Ascii("INFO"), RiffHeader(8), StdDataChunk);
    NestedParse(Nested);
  }

  /** parse_header on the bytes of evil_nested_chunks.wav. */
  lemma NestedParse(data: seq<byte>)
    requires |data| == 100 && data[0..12] == RiffHeader(60) && data[12..20] == ChunkHeader(Little, FmtId, 16)
    requires data[20..36] == StdFmt && data[36..44] == ChunkHeader(Little, Ascii("LIST"), 20)
    requires data[60..100] == StdDataChunk
    ensures Parse(data) == Rejected(MissingChunk)
  {
    var s := WalkState(36, true, false, FieldsOf(StdFmt));
    assert Parse(data) == Walk(data, Start) by { ParseHead(data, 60); }
    assert Walk(data, Start) == Walk(data, s) by {
      ReadChunkHeader(data, 12, "fmt ", 16);
      FieldsAt(data, 20, StdFmt, ZeroHeader);
      StdFmtFirst(data, 16, 36);
    }
    assert Walk(data, s) == Rejected(MissingChunk) by {
      ReadChunkHeader(data, 36, "LIST", 20);
      NestedBytes(data);
      NestedWalk(data, FieldsOf(StdFmt));
    }
  }

  /** The same file with the LIST chunk's size counted from what it holds:
      "INFO" and the 12-byte inner RIFF header, 16 bytes. */
  const NestedSized: seq<byte> :=
    RiffHeader(60) + ChunkHeader(Little, FmtId, 16) + StdFmt
    + (ChunkHeader(Little, Ascii("LIST"), 16) + Ascii("INFO") + RiffHeader(8) + StdDataChunk)

  /** With a LIST size of 16 the loop steps over the LIST chunk, contents
      and all, onto the `data` chunk at 60: the parse succeeds with the 32
      bytes of samples at 68, and the nested chunk is never looked into. */
  lemma NestedSizedAccepted()
    ensures |NestedSized| == 100
    ensures Parse(NestedSized) == Parsed(WavHeader(1, 1, 44100, 88200, 2, 16, 68, 32))
  {
    var lh := ChunkHeader(Little, Ascii("LIST"), 16);
    NestedLayout(RiffHeader(60), ChunkHeader(Little, FmtId, 16), StdFmt, lh, Ascii("INFO"), RiffHeader(8), StdDataChunk);
    NestedSizedParse(NestedSized);
    StdFmtAccepted(ZeroHeader);
  }

  /** parse_header on the bytes of the file with the LIST size corrected. */
  lemma NestedSizedParse(data: seq<byte>)
    requires |data| == 100 && data[0..12] == RiffHeader(60) && data[12..20] == ChunkHeader(Little, FmtId, 16)
    requires data[20..36] == StdFmt && data[36..44] == ChunkHeader(Little, Ascii("LIST"), 16)
    requires data[60..100] == StdDataChunk
    ensures Parse(data) == Parsed(FieldsOf(StdFmt).(dataChunkPos := 68, dataChunkSize := 32))
  {
    var s := WalkState(36, true, false, FieldsOf(StdFmt));
    assert Parse(data) == Walk(data, Start) by { ParseHead(data, 60); }
    assert Walk(data, Start) == Walk(data, s) by {
      ReadChunkHeader(data, 12, "fmt ", 16);
      FieldsAt(data, 20, StdFmt, ZeroHeader);
      StdFmtFirst(data, 16, 36);
    }
    assert Walk(data, s) == Walk(data, s.(offset := 60)) by {
      ReadChunkHeader(data, 36, "LIST", 16);
      SkipOther(data, s, 16);
      PaddedEven(16);
    }
    assert data[60..68] == ChunkHeader(Little, DataId, 32) by {
      assert data[60..68] == data[60..100][..8];
    }
    WalkOverData(data, 60, 32, FieldsOf(StdFmt));
  }

  /** The slices of a file made of a RIFF header, a 16-byte chunk, then a
      LIST chunk's three pieces and a last chunk. */
  lemma NestedLayout(r: seq<byte>, h1: seq<byte>, body: seq<byte>,
                     lh: seq<byte>, info: seq<byte>, inner: seq<byte>, last: seq<byte>)
    requires |r| == 12 && |h1| == 8 && |body| == 16 && |lh| == 8 && |info| == 4 && |inner| == 12
    ensures var data := r + h1 + body + (lh + info + inner + last);
      data[0..12] == r && data[12..20] == h1 && data[20..36] == body && data[36..44] == lh
      && data[60..60 + |last|] == last
  {
    var tail := lh + info + inner + last;
    var rest := info + inner + last;
    TwoChunks(r, h1, body, lh, rest);
    assert tail == lh + rest;
    var data := r + h1 + body + tail;
    Split(lh + info + inner, last);
    SliceOf(data, 36, tail, 24, last);
  }

  /** The bytes from 60 on are std_data_chunk. */
  lemma NestedBytes(data: seq<byte>)
    requires |data| == 100 && data[60..100] == StdDataChunk
    ensures data[60..64] == DataId && data[64] == 32 && forall i :: 68 <= i < 100 ==> data[i] == 0
  {
    assert forall i :: 60 <= i < 100 ==> data[i] == StdDataChunk[i - 60];
    assert StdDataChunk[..8] == [0x64, 0x61, 0x74, 0x61, 32, 0, 0, 0];
  }

  /** The loop of NestedRejected from offset 36. */
  lemma NestedWalk(data: seq<byte>, h: WavHeader)
    requires |data| == 100 && data[36] == 'L' as int && ReadU32Le(data, 40) == 20
    requires data[64] == 32 && forall i :: 68 <= i < 100 ==> data[i] == 0
    ensures Walk(data, WalkState(36, true, false, h)) == Rejected(MissingChunk)
  {
    var s := WalkState(36, true, false, h);
    assert Walk(data, s) == Walk(data, s.(offset := 64)) by { SkipOther(data, s, 20); PaddedEven(20); }
    assert Walk(data, s.(offset := 64)) == Walk(data, s.(offset := 72)) by { SkipEmpty(data, s.(offset := 64)); }
    assert Walk(data, s.(offset := 72)) == Rejected(MissingChunk) by { ZeroRun(data, s.(offset := 72)); }
  }

  /* ------------------------------------------------------- the files */

  /** write_wav: the file opened for writing holds the header bytes, then
      the data bytes. */
  method WriteWav(header: seq<byte>, data: seq<byte>) returns (f: ByteSink)
    ensures fresh(f) && f.bytes == header + data
  {
    f := new ByteSink();
    f.Write(header);
    f.Write(data);
  }
}
