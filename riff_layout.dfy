/** The byte layout the generator scripts write: chunk headers and `fmt `
    bodies as struct.pack lays them out, in little ('<') or big ('>') byte
    order, and how the decoder's little-endian readers see them again.
    struct.pack raises unless every field fits its width; the Fits
    predicates state those ranges, and the scripts' models check them
    before they build any bytes. */
module RiffLayout {
  import opened Bytes
  import opened DecoderHeader

  const RifxId: seq<byte> := Ascii("RIFX")
  const FmtId: seq<byte> := Ascii("fmt ")
  const FactId: seq<byte> := Ascii("fact")
  const DataId: seq<byte> := Ascii("data")

  /** The container tag: "RIFF" for little-endian files, "RIFX" otherwise. */
  function RiffTag(e: Endian): (r: seq<byte>)
    ensures |r| == 4
  {
    if e == Little then RiffId else RifxId
  }

  /** The range of struct.pack's 'H' and 'I' codes. */
  predicate U16Fits(v: int) { 0 <= v < 0x1_0000 }
  predicate U32Fits(v: int) { 0 <= v < 0x1_0000_0000 }

  /** struct.pack(ec + '4sI', id, size) */
  function ChunkHeader(e: Endian, id: seq<byte>, size: int): (r: seq<byte>)
    requires |id| == 4 && U32Fits(size)
    ensures |r| == 8 && r[..4] == id
  {
    id + U32(e, size)
  }

  /** The ranges the six fields of a `fmt ` body must lie in. */
  predicate FmtFieldsFit(tag: int, channels: int, rate: int, byteRate: int, blockAlign: int, bits: int)
  {
    U16Fits(tag) && U16Fits(channels) && U32Fits(rate) && U32Fits(byteRate)
    && U16Fits(blockAlign) && U16Fits(bits)
  }

  /** struct.pack(ec + 'HHIIHH', tag, channels, rate, byte_rate, block_align, bits) */
  function FmtBody(e: Endian, tag: int, channels: int, rate: int, byteRate: int, blockAlign: int, bits: int)
    : (r: seq<byte>)
    requires FmtFieldsFit(tag, channels, rate, byteRate, blockAlign, bits)
    ensures |r| == 16
  {
    U16(e, tag) + U16(e, channels) + U32(e, rate) + U32(e, byteRate) + U16(e, blockAlign) + U16(e, bits)
  }

  /** A 16-bit little-endian field reads back as its value. */
  lemma ReadU16Of(data: seq<byte>, p: nat, v: u16)
    requires p + 2 <= |data| && data[p..p + 2] == U16(Little, v)
    ensures ReadU16Le(data, p) == v
  {
    U16Value(Little, v);
    ReadersValue(data, p);
  }

  /** A 32-bit little-endian field reads back as its value. */
  lemma ReadU32Of(data: seq<byte>, p: nat, v: u32)
    requires p + 4 <= |data| && data[p..p + 4] == U32(Little, v)
    ensures ReadU32Le(data, p) == v
  {
    U32Value(Little, v);
    ReadersValue(data, p);
  }

  /** A little-endian chunk header at p: the decoder sees its id and its size. */
  lemma ReadChunkHeader(data: seq<byte>, p: nat, id: string, size: u32)
    requires |id| == 4 && forall i :: 0 <= i < 4 ==> id[i] as int < 0x100
    requires p + 8 <= |data| && data[p..p + 8] == ChunkHeader(Little, Ascii(id), size)
    ensures TagAt(data, p, id)
    ensures ReadU32Le(data, p + 4) == size
  {
    var h := data[p..p + 8];
    assert data[p + 4..p + 8] == h[4..8];
    ReadU32Of(data, p + 4, size);
    assert data[p] == h[0] && data[p + 1] == h[1] && data[p + 2] == h[2] && data[p + 3] == h[3];
  }

  /** A piece at offset k of the slice b at f is the slice of data at f + k. */
  lemma SliceOf(data: seq<byte>, f: nat, b: seq<byte>, k: nat, piece: seq<byte>)
    requires f + |b| <= |data| && b == data[f..f + |b|]
    requires k + |piece| <= |b| && b[k..k + |piece|] == piece
    ensures data[f + k..f + k + |piece|] == piece
  {
    forall i | 0 <= i < |piece|
      ensures data[f + k..f + k + |piece|][i] == piece[i]
    {
      assert piece[i] == b[k + i] == data[f + k + i];
    }
  }

  /** A little-endian `fmt ` body at f: the decoder's field reads give back
      the six values that were packed. */
  lemma ReadFmtBody(data: seq<byte>, f: nat, h: WavHeader,
                    tag: int, channels: int, rate: int, byteRate: int, blockAlign: int, bits: int)
    requires FmtFieldsFit(tag, channels, rate, byteRate, blockAlign, bits)
    requires f + 16 <= |data| && data[f..f + 16] == FmtBody(Little, tag, channels, rate, byteRate, blockAlign, bits)
    ensures WithFmtFields(data, h, f)
            == h.(audioFormat := tag, numChannels := channels, sampleRate := rate,
                  byteRate := byteRate, blockAlign := blockAlign, bitsPerSample := bits)
  {
    var p0, p1, p2 := U16(Little, tag), U16(Little, channels), U32(Little, rate);
    var p3, p4, p5 := U32(Little, byteRate), U16(Little, blockAlign), U16(Little, bits);
    var b := data[f..f + 16];
    assert b == p0 + p1 + p2 + p3 + p4 + p5;
    SliceOf(data, f, b, 0, p0);
    SliceOf(data, f, b, 2, p1);
    SliceOf(data, f, b, 4, p2);
    SliceOf(data, f, b, 8, p3);
    SliceOf(data, f, b, 12, p4);
    SliceOf(data, f, b, 14, p5);
    ReadU16Of(data, f, tag);
    ReadU16Of(data, f + 2, channels);
    ReadU32Of(data, f + 4, rate);
    ReadU32Of(data, f + 8, byteRate);
    ReadU16Of(data, f + 12, blockAlign);
    ReadU16Of(data, f + 14, bits);
  }

  /** Where the loop goes from a `fmt ` chunk of the given size at s.offset
      that lies inside the buffer and whose fields pass validation: on to the
      next chunk, with the fields read into the header and the flag set. */
  lemma StepOverFmt(data: seq<byte>, s: WalkState, size: nat,
                    tag: int, channels: int, rate: int, byteRate: int, blockAlign: int, bits: int)
    requires |data| <= U32Max
    requires FmtFieldsFit(tag, channels, rate, byteRate, blockAlign, bits)
    requires 16 <= size <= MaxChunkSize && s.offset + 8 + Padded(size) <= U32Max
    requires s.offset + 8 + size <= |data|
    requires data[s.offset..s.offset + 8] == ChunkHeader(Little, FmtId, size)
    requires data[s.offset + 8..s.offset + 24] == FmtBody(Little, tag, channels, rate, byteRate, blockAlign, bits)
    requires var h := s.header.(audioFormat := tag, numChannels := channels, sampleRate := rate,
                                byteRate := byteRate, blockAlign := blockAlign, bitsPerSample := bits);
             FmtFieldsValid(h) && PcmConsistent(h)
    ensures LoopStep(data, s)
            == Next(WalkState(s.offset + 8 + Padded(size), true, s.foundData,
                              s.header.(audioFormat := tag, numChannels := channels, sampleRate := rate,
                                        byteRate := byteRate, blockAlign := blockAlign, bitsPerSample := bits)))
  {
    ReadChunkHeader(data, s.offset, "fmt ", size);
    ReadFmtBody(data, s.offset + 8, s.header, tag, channels, rate, byteRate, blockAlign, bits);
  }

  /** Where the loop goes from a `data` chunk at s.offset that lies inside
      the buffer: on to the next chunk, with its position and size recorded. */
  lemma StepOverData(data: seq<byte>, s: WalkState, size: nat)
    requires |data| <= U32Max
    requires size <= MaxChunkSize && s.offset + 8 + Padded(size) <= U32Max
    requires s.offset + 8 + size <= |data|
    requires data[s.offset..s.offset + 8] == ChunkHeader(Little, DataId, size)
    ensures LoopStep(data, s)
            == Next(WalkState(s.offset + 8 + Padded(size), s.foundFmt, true,
                              s.header.(dataChunkPos := s.offset + 8, dataChunkSize := size)))
  {
    ReadChunkHeader(data, s.offset, "data", size);
  }

  /** Where the loop goes from a chunk of another kind that lies inside the
      buffer: past it, with nothing recorded. */
  lemma StepOverOther(data: seq<byte>, s: WalkState, id: string, size: nat)
    requires |data| <= U32Max
    requires |id| == 4 && (forall i :: 0 <= i < 4 ==> id[i] as int < 0x100) && id != "fmt " && id != "data"
    requires size <= MaxChunkSize && s.offset + 8 + Padded(size) <= U32Max
    requires s.offset + 8 + size <= |data|
    requires data[s.offset..s.offset + 8] == ChunkHeader(Little, Ascii(id), size)
    ensures LoopStep(data, s) == Next(WalkState(s.offset + 8 + Padded(size), s.foundFmt, s.foundData, s.header))
  {
    ReadChunkHeader(data, s.offset, id, size);
  }
}
