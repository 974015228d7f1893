/** The WAV header parser of the WebAssembly decoder: little-endian field
    readers, the overflow-free bounds check, and the walk over the chunks of a
    RIFF WAVE form that validates the `fmt ` chunk and locates the `data`
    chunk. The input buffer is a byte sequence whose length is the C
    `data_size`, a uint32. */
module DecoderHeader {
  import opened Bytes

  const MaxChannels: int := 8
  const MaxSampleRate: int := 384000
  const MaxBitsPerSample: int := 64
  const MaxChunkSize: int := 100 * 1024 * 1024
  const MinHeaderSize: int := 44

  /** Format tags of the `fmt ` chunk (WAVE_FORMAT_* in the decoder's header). */
  const FormatPcm: int := 1
  const FormatAdpcm: int := 2
  const FormatIeeeFloat: int := 3
  const FormatAlaw: int := 6
  const FormatMulaw: int := 7
  const FormatImaAdpcm: int := 17

  /** strcmp of the four bytes at p against a four-letter tag: the tags
      contain no NUL byte, so this is equality of all four bytes. */
  predicate TagAt(data: seq<byte>, p: nat, t: string)
    requires p + 4 <= |data| && |t| == 4
  {
    data[p] == t[0] as int && data[p + 1] == t[1] as int
    && data[p + 2] == t[2] as int && data[p + 3] == t[3] as int
  }

  const RiffId: seq<byte> := Ascii("RIFF")
  const WaveId: seq<byte> := Ascii("WAVE")

  /** The decoded header: the `fmt ` fields and where the `data` chunk lies. */
  datatype WavHeader = WavHeader(
    audioFormat: u16,
    numChannels: u16,
    sampleRate: u32,
    byteRate: u32,
    blockAlign: u16,
    bitsPerSample: u16,
    dataChunkPos: u32,
    dataChunkSize: u32)

  /** The header after memset(header, 0, sizeof(WavHeader)). */
  const ZeroHeader: WavHeader := WavHeader(0, 0, 0, 0, 0, 0, 0, 0)

  /** Why the parser returned 0; the C function reports only the 0. */
  datatype Reason =
    | TooShort
    | BadSignature
    | BadRiffSize
    | ChunkOutOfBounds
    | FmtTooSmall
    | BadFmtField
    | PcmMismatch
    | OffsetOverflow
    | MissingChunk

  datatype ParseResult = Parsed(header: WavHeader) | Rejected(reason: Reason)

  /** read_u16_le: the unsigned little-endian value of two bytes. */
  function ReadU16Le(data: seq<byte>, p: nat): u16
    requires p + 2 <= |data|
  {
    data[p] as int + 256 * (data[p + 1] as int)
  }

  /** read_u32_le: the unsigned little-endian value of four bytes. */
  function ReadU32Le(data: seq<byte>, p: nat): u32
    requires p + 4 <= |data|
  {
    data[p] as int + 256 * (data[p + 1] as int) + 0x1_0000 * (data[p + 2] as int)
      + 0x100_0000 * (data[p + 3] as int)
  }

  /** read_i24_le: three little-endian bytes sign-extended from bit 23. */
  function ReadI24Le(data: seq<byte>, p: nat): (r: int)
    requires p + 3 <= |data|
    ensures -0x80_0000 <= r <= 0x7F_FFFF
    ensures r < 0 <==> data[p + 2] >= 0x80
  {
    var v := data[p] as int + 256 * (data[p + 1] as int) + 0x1_0000 * (data[p + 2] as int);
    if v >= 0x80_0000 then v - 0x100_0000 else v
  }

  /** The readers compute the little-endian value of their bytes, and
      read_i24_le their two's-complement value. */
  lemma ReadersValue(data: seq<byte>, p: nat)
    ensures p + 2 <= |data| ==> ReadU16Le(data, p) == FromLe(data[p..p + 2])
    ensures p + 3 <= |data| ==> ReadI24Le(data, p) == SignedFromBytes(Little, data[p..p + 3])
    ensures p + 4 <= |data| ==> ReadU32Le(data, p) == FromLe(data[p..p + 4])
  {
    if p + 2 <= |data| {
      assert data[p..p + 2][1..] == data[p + 1..p + 2];
      assert data[p + 1..p + 2][1..] == [];
    }
    if p + 3 <= |data| {
      assert data[p..p + 3][1..] == data[p + 1..p + 3];
      assert data[p + 1..p + 3][1..] == data[p + 2..p + 3];
      assert data[p + 2..p + 3][1..] == [];
      assert FromLe(data[p + 1..p + 3]) == data[p + 1] + 256 * (data[p + 2] as int);
    }
    if p + 4 <= |data| {
      assert data[p..p + 4][1..] == data[p + 1..p + 4];
      assert data[p + 1..p + 4][1..] == data[p + 2..p + 4];
      assert data[p + 2..p + 4][1..] == data[p + 3..p + 4];
      assert data[p + 3..p + 4][1..] == [];
      assert FromLe(data[p + 2..p + 4]) == data[p + 2] + 256 * (data[p + 3] as int);
    }
  }

  /** Three bytes written by int.to_bytes(3, 'little', signed=True) read back
      as the value that was written. */
  lemma ReadI24LeOfPacked(v: int)
    requires -0x80_0000 <= v <= 0x7F_FFFF
    ensures PackSigned(Little, 3, v).Some?
    ensures ReadI24Le(PackSigned(Little, 3, v).value, 0) == v
  {
    var bs := PackSigned(Little, 3, v).value;
    ReadersValue(bs, 0);
    assert bs[0..3] == bs;
  }

  /** check_bounds: whether [offset, offset + size) lies inside a buffer of n
      bytes. Every subtraction is guarded, so no uint32 arithmetic wraps. */
  function CheckBounds(offset: u32, size: u32, n: u32): (r: bool)
    ensures r <==> offset + size <= n
  {
    if offset > n || size > n then false
    else if offset > n - size then false
    else true
  }

  /** The validity test applied to the fields of a `fmt ` chunk. */
  predicate FmtFieldsValid(h: WavHeader)
  {
    1 <= h.numChannels <= MaxChannels
    && 1 <= h.sampleRate <= MaxSampleRate
    && h.blockAlign != 0
    && 1 <= h.bitsPerSample <= MaxBitsPerSample
  }

  /** For PCM, block_align must be ceil(channels * bits / 8) and byte_rate
      sample_rate * block_align (uint32 products). */
  predicate PcmConsistent(h: WavHeader)
  {
    h.audioFormat == FormatPcm ==>
      h.blockAlign == (h.numChannels * h.bitsPerSample + 7) / 8
      && h.byteRate == (h.sampleRate * h.blockAlign) % 0x1_0000_0000
  }

  /** The state of the chunk loop: the offset and the two flags. */
  datatype WalkState = WalkState(offset: u32, foundFmt: bool, foundData: bool, header: WavHeader)

  /** The header with the six `fmt ` fields read from the chunk body at f. */
  function WithFmtFields(data: seq<byte>, h: WavHeader, f: nat): WavHeader
    requires f + 16 <= |data|
  {
    h.(audioFormat := ReadU16Le(data, f),
       numChannels := ReadU16Le(data, f + 2),
       sampleRate := ReadU32Le(data, f + 4),
       byteRate := ReadU32Le(data, f + 8),
       blockAlign := ReadU16Le(data, f + 12),
       bitsPerSample := ReadU16Le(data, f + 14))
  }

  /** What the function returns once the loop has ended. */
  function Finish(s: WalkState): ParseResult
  {
    if s.foundFmt && s.foundData then Parsed(s.header) else Rejected(MissingChunk)
  }

  /** The outcome of the checks on a `fmt ` chunk. */
  datatype FmtCheck = FmtOk(header: WavHeader) | FmtBad(reason: Reason)

  /** The handling of a `fmt ` chunk of the given size whose body starts at f:
      at least 16 bytes, then the six fields read into the header and
      validated, with the extra PCM consistency checks. */
  function CheckFmt(data: seq<byte>, h: WavHeader, f: nat, size: nat): (r: FmtCheck)
    requires f + size <= |data|
    ensures r.FmtOk? <==> size >= 16 && FmtFieldsValid(WithFmtFields(data, h, f)) && PcmConsistent(WithFmtFields(data, h, f))
    ensures r.FmtOk? ==> r.header == WithFmtFields(data, h, f)
  {
    if size < 16 then FmtBad(FmtTooSmall)
    else
      var h' := WithFmtFields(data, h, f);
      if !FmtFieldsValid(h') then FmtBad(BadFmtField)
      else if !PcmConsistent(h') then FmtBad(PcmMismatch)
      else FmtOk(h')
  }

  /** The outcome of one pass of the loop: it goes on from a new state, or
      the function returns the given result. */
  datatype Step = Next(next: WalkState) | Stop(result: ParseResult)

  /** The loop condition. It adds 8 to the offset in uint32 arithmetic, so the
      sum is reduced modulo 2^32. */
  predicate LoopGoesOn(n: nat, s: WalkState)
  {
    (s.offset + 8) % 0x1_0000_0000 <= n && !(s.foundFmt && s.foundData)
  }

  /** The chunk size rounded up to even, (chunk_size + 1) & ~1U. */
  function Padded(size: nat): (r: nat)
    ensures r % 2 == 0 && size <= r <= size + 1
  {
    (size + 1) / 2 * 2
  }

  /** One pass of parse_header's while loop from state s. A pass that goes
      on moves at least one chunk header further and never past the end of
      the buffer plus a pad byte, so the loop terminates. */
  function LoopStep(data: seq<byte>, s: WalkState): (r: Step)
    requires |data| <= U32Max
    ensures r.Next? ==> s.offset + 8 <= r.next.offset <= |data| + 1
  {
    var n := |data|;
    if !CheckBounds(s.offset, 8, n) then Stop(Finish(s))
    else
      var isFmt, isData := TagAt(data, s.offset, "fmt "), TagAt(data, s.offset, "data");
      var size := ReadU32Le(data, s.offset + 4);
      if size > MaxChunkSize || !CheckBounds(s.offset + 8, size, n) then
        if isFmt || isData then Stop(Rejected(ChunkOutOfBounds))
        else if s.offset <= U32Max - 8 then Next(s.(offset := s.offset + 8))
        else Stop(Finish(s))
      else
        var check := if isFmt then CheckFmt(data, s.header, s.offset + 8, size) else FmtOk(s.header);
        if check.FmtBad? then Stop(Rejected(check.reason))
        else
          var h :=
            if isFmt then check.header
            else if isData then s.header.(dataChunkPos := s.offset + 8, dataChunkSize := size)
            else s.header;
          if s.offset > U32Max - 8 - Padded(size) then Stop(Rejected(OffsetOverflow))
          else
            Next(WalkState(s.offset + 8 + Padded(size),
                           s.foundFmt || isFmt,
                           s.foundData || (!isFmt && isData),
                           h))
  }

  /** The while loop of parse_header from state s. */
  function Walk(data: seq<byte>, s: WalkState): ParseResult
    requires |data| <= U32Max
    decreases 0x1_0000_0000 - s.offset
  {
    if !LoopGoesOn(|data|, s) then Finish(s)
    else
      match LoopStep(data, s)
      case Next(s') => Walk(data, s')
      case Stop(r) => r
  }

  /** parse_header, with the rejection reason made explicit. */
  function Parse(data: seq<byte>): ParseResult
    requires |data| <= U32Max
  {
    if |data| < MinHeaderSize then Rejected(TooShort)
    else if data[0..4] != RiffId || data[8..12] != WaveId then Rejected(BadSignature)
    else
      var fileSize := ReadU32Le(data, 4);
      if fileSize < 36 || fileSize > |data| - 8 then Rejected(BadRiffSize)
      else Walk(data, WalkState(12, false, false, ZeroHeader))
  }

  /** A `fmt ` chunk whose body starts at f, declares at least 16 bytes and
      lies inside the buffer, and whose six fields are those of h. */
  predicate FmtChunkAt(data: seq<byte>, f: nat, h: WavHeader)
  {
    8 <= f && f + 16 <= |data| && TagAt(data, f - 8, "fmt ")
    && 16 <= ReadU32Le(data, f - 4) && f + ReadU32Le(data, f - 4) <= |data|
    && WithFmtFields(data, h, f) == h
  }

  /** h locates a `data` chunk: its body starts at dataChunkPos, its size
      field is dataChunkSize, at most 100 MB, and it lies inside the buffer. */
  predicate DataChunkAt(data: seq<byte>, h: WavHeader)
  {
    8 <= h.dataChunkPos && h.dataChunkPos + h.dataChunkSize <= |data|
    && TagAt(data, h.dataChunkPos - 8, "data")
    && ReadU32Le(data, h.dataChunkPos - 4) == h.dataChunkSize
    && h.dataChunkSize <= MaxChunkSize
  }

  /** What the flags of the loop promise about the header filled so far. */
  ghost predicate FlagsHold(data: seq<byte>, s: WalkState)
  {
    (s.foundFmt ==>
      FmtFieldsValid(s.header) && PcmConsistent(s.header)
      && exists f :: FmtChunkAt(data, f, s.header))
    && (s.foundData ==> DataChunkAt(data, s.header))
  }

  /** What an accepted header promises. */
  ghost predicate HeaderSound(data: seq<byte>, h: WavHeader)
  {
    FmtFieldsValid(h) && PcmConsistent(h)
    && (exists f :: FmtChunkAt(data, f, h))
    && DataChunkAt(data, h)
  }

  /** One pass of the loop keeps the promises of the flags, and a pass that
      ends the loop with success does so with both chunks found. */
  lemma LoopStepSound(data: seq<byte>, s: WalkState)
    requires |data| <= U32Max && FlagsHold(data, s)
    ensures LoopStep(data, s).Next? ==> FlagsHold(data, LoopStep(data, s).next)
    ensures LoopStep(data, s).Stop? && LoopStep(data, s).result.Parsed? ==>
      s.foundFmt && s.foundData && LoopStep(data, s).result.header == s.header
  {
    var r := LoopStep(data, s);
    if r.Next? && CheckBounds(s.offset, 8, |data|) {
      var o := s.offset;
      var size := ReadU32Le(data, o + 4);
      if size > MaxChunkSize || !CheckBounds(o + 8, size, |data|) {
        FlagsKeep(data, s, r.next);
      } else if TagAt(data, o, "fmt ") {
        FmtFound(data, s, r.next, o + 8);
      } else if TagAt(data, o, "data") {
        DataFound(data, s, r.next);
      } else {
        FlagsKeep(data, s, r.next);
      }
    }
  }

  /** A pass that records nothing keeps the promises. */
  lemma FlagsKeep(data: seq<byte>, s: WalkState, t: WalkState)
    requires FlagsHold(data, s)
    requires t.header == s.header && t.foundFmt == s.foundFmt && t.foundData == s.foundData
    ensures FlagsHold(data, t)
  {
  }

  /** A pass over a valid `fmt ` chunk at f - 8 keeps the promises: the
      header now holds that chunk's fields. */
  lemma FmtFound(data: seq<byte>, s: WalkState, t: WalkState, f: nat)
    requires FlagsHold(data, s) && f + 16 <= |data|
    requires FmtChunkAt(data, f, t.header) && FmtFieldsValid(t.header) && PcmConsistent(t.header)
    requires t.header == WithFmtFields(data, s.header, f) && t.foundFmt && t.foundData == s.foundData
    ensures FlagsHold(data, t)
  {
    assert t.header.dataChunkPos == s.header.dataChunkPos && t.header.dataChunkSize == s.header.dataChunkSize;
  }

  /** A pass over a `data` chunk keeps the promises: the `fmt ` fields are
      as they were. */
  lemma DataFound(data: seq<byte>, s: WalkState, t: WalkState)
    requires FlagsHold(data, s) && DataChunkAt(data, t.header)
    requires t.header == s.header.(dataChunkPos := t.header.dataChunkPos, dataChunkSize := t.header.dataChunkSize)
    requires t.foundFmt == s.foundFmt && t.foundData
    ensures FlagsHold(data, t)
  {
    if s.foundFmt {
      var f :| FmtChunkAt(data, f, s.header);
      assert FmtChunkAt(data, f, t.header);
    }
  }

  /** Every header the loop accepts is sound, from any state whose flags
      keep their promises. */
  lemma {:induction false} WalkSound(data: seq<byte>, s: WalkState)
    requires |data| <= U32Max && FlagsHold(data, s)
    ensures Walk(data, s).Parsed? ==> HeaderSound(data, Walk(data, s).header)
    decreases 0x1_0000_0000 - s.offset
  {
    if LoopGoesOn(|data|, s) {
      LoopStepSound(data, s);
      match LoopStep(data, s)
      case Next(s') => WalkSound(data, s');
      case Stop(r) =>
    }
  }

  /** A PCM header that passed the checks has block_align at most 64, so its
      uint32 byte rate is the exact product. */
  lemma PcmByteRateExact(h: WavHeader)
    requires FmtFieldsValid(h) && PcmConsistent(h) && h.audioFormat == FormatPcm
    ensures h.blockAlign <= 64
    ensures h.byteRate == h.sampleRate * h.blockAlign
  {
    var bits := h.numChannels * h.bitsPerSample;
    ProductBound(h.numChannels, h.bitsPerSample, MaxChannels, MaxBitsPerSample);
    assert h.blockAlign == (bits + 7) / 8 <= 64;
    var rate := h.sampleRate * h.blockAlign;
    ProductBound(h.sampleRate, h.blockAlign, MaxSampleRate, 64);
    BelowModulus(rate);
  }

  lemma BelowModulus(v: int)
    requires 0 <= v < 0x1_0000_0000
    ensures v % 0x1_0000_0000 == v
  {
  }

  lemma ProductBound(a: int, b: int, maxA: int, maxB: int)
    requires 0 <= a <= maxA && 0 <= b <= maxB
    ensures a * b <= maxA * maxB
  {
    assert a * b <= maxA * b;
  }

  /** parse_header accepts only a buffer of at least 44 bytes that starts
      with "RIFF", has "WAVE" at byte 8 and declares a RIFF size between 36
      and data_size - 8; the header it returns comes from a `fmt ` chunk
      whose fields passed validation and locates a `data` chunk that lies
      inside the buffer. */
  lemma ParseSound(data: seq<byte>)
    requires |data| <= U32Max
    ensures Parse(data).Parsed? ==>
      |data| >= MinHeaderSize
      && data[0..4] == RiffId && data[8..12] == WaveId
      && 36 <= ReadU32Le(data, 4) <= |data| - 8
    ensures Parse(data).Parsed? ==>
      var h := Parse(data).header;
      HeaderSound(data, h)
      && 1 <= h.numChannels <= 8 && 1 <= h.sampleRate <= 384000 && h.blockAlign != 0
      && 1 <= h.bitsPerSample <= 64
      && h.dataChunkPos + h.dataChunkSize <= |data|
      && (h.audioFormat == FormatPcm ==>
            h.blockAlign == (h.numChannels * h.bitsPerSample + 7) / 8
            && h.byteRate == h.sampleRate * h.blockAlign)
  {
    if Parse(data).Parsed? {
      WalkSound(data, WalkState(12, false, false, ZeroHeader));
      var h := Parse(data).header;
      if h.audioFormat == FormatPcm {
        PcmByteRateExact(h);
      }
    }
  }

  /** One pass of the chunk loop (the body of parse_header's while loop) from
      state s: `break` ends the loop, so the function's result follows;
      `return 0` rejects the input; `continue` and the normal end of the body
      give the state of the next pass. */
  method VisitChunk(data: seq<byte>, s: WalkState) returns (step: Step)
    requires |data| <= U32Max
    ensures step == LoopStep(data, s)
  {
    var n := |data|;
    var offset, header := s.offset, s.header;
    var foundFmt, foundData := s.foundFmt, s.foundData;
    if !CheckBounds(offset, 8, n) {
      return Stop(Finish(s));
    }
    var isFmt, isData := TagAt(data, offset, "fmt "), TagAt(data, offset, "data");
    var chunkSize := ReadU32Le(data, offset + 4);
    if chunkSize > MaxChunkSize || !CheckBounds(offset + 8, chunkSize, n) {
      if isFmt || isData {
        return Stop(Rejected(ChunkOutOfBounds));
      }
      if offset <= U32Max - 8 {
        offset := offset + 8;
        return Next(s.(offset := offset));
      } else {
        return Stop(Finish(s));
      }
    }
    if isFmt {
      var check := CheckFmt(data, header, offset + 8, chunkSize);
      if check.FmtBad? {
        return Stop(Rejected(check.reason));
      }
      header := check.header;
      foundFmt := true;
    } else if isData {
      header := header.(dataChunkPos := offset + 8, dataChunkSize := chunkSize);
      foundData := true;
    }
    var padded := (chunkSize + 1) / 2 * 2;
    if offset > U32Max - 8 - padded {
      return Stop(Rejected(OffsetOverflow));
    }
    offset := offset + 8 + padded;
    return Next(WalkState(offset, foundFmt, foundData, header));
  }

  /** parse_header: the checks on the RIFF header, then the chunk loop over a
      header that starts zeroed. */
  method ParseHeader(data: seq<byte>) returns (r: ParseResult)
    requires |data| <= U32Max
    ensures r == Parse(data)
  {
    var n := |data|;
    if n < MinHeaderSize {
      return Rejected(TooShort);
    }
    if data[0..4] != RiffId || data[8..12] != WaveId {
      return Rejected(BadSignature);
    }
    var fileSize := ReadU32Le(data, 4);
    if fileSize < 36 || fileSize > n - 8 {
      return Rejected(BadRiffSize);
    }
    var header := ZeroHeader;
    var offset: u32 := 12;
    var foundFmt, foundData := false, false;
    while (offset + 8) % 0x1_0000_0000 <= n && !(foundFmt && foundData)
      invariant Walk(data, WalkState(offset, foundFmt, foundData, header)) == Parse(data)
      decreases 0x1_0000_0000 - offset
    {
      var step := VisitChunk(data, WalkState(offset, foundFmt, foundData, header));
      match step
      case Stop(result) =>
        return result;
      case Next(next) =>
        offset, foundFmt, foundData, header := next.offset, next.foundFmt, next.foundData, next.header;
    }
    return Finish(WalkState(offset, foundFmt, foundData, header));
  }
}
