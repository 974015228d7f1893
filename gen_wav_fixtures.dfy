/** scripts/gen-wav-fixtures.py: the G.711 encoders, the naming helpers, the
    name filter, the manifest, the RIFF/RIFX header writer and the sample
    encoders of the sine and sweep fixtures. Endianness arrives as the
    Endian value the script derives from its "little"/"big" string. */
module GenWavFixtures {
  import opened Wrappers
  import opened Bytes
  import opened G711
  import opened RiffLayout
  import opened DecoderHeader
  import SampleStream

  /* ---------------------------------------------------------------- G.711 */

  /** The boundary loop of linear_to_alaw: the index of the first boundary
      above mag, or 7 when the loop runs to its end. */
  method SearchBoundaries(mag: nat) returns (exponent: nat)
    ensures exponent == AlawExponent(mag)
  {
    exponent := 7;
    var idx := 0;
    while idx < |AlawBoundaries|
      invariant idx <= 8 && exponent == 7
      invariant AlawSearch(mag, idx) == AlawExponent(mag)
    {
      if mag < AlawBoundaries[idx] {
        exponent := idx;
        break;
      }
      idx := idx + 1;
    }
  }

  /** The exponent and mantissa linear_to_alaw computes for a magnitude. */
  method AlawFieldsOf(mag: nat) returns (exponent: nat, mantissa: nat)
    ensures (exponent, mantissa) == AlawFields(mag)
  {
    if mag < 32 {
      exponent := 0;
      mantissa := mag / 2;
    } else {
      exponent := SearchBoundaries(mag);
      var shift := if exponent > 1 then exponent + 3 else 4;
      mantissa := mag / Pow2(shift) % 16;
    }
  }

  /** linear_to_alaw, with the script's boundary loop and its break. */
  method LinearToAlaw(pcmVal: int) returns (r: byte)
    ensures r == AlawCode(pcmVal)
  {
    var pcm := Clamp(pcmVal, -32768, 32767);
    var sign := if pcm < 0 then 0x00 else 0x80;
    var exponent, mantissa := AlawFieldsOf(Abs(pcm));
    r := Xor55(16 * exponent + mantissa) + sign;
  }

  /* --------------------------------------------------------------- naming */

  /** The decimal digits of a natural number, most significant first. */
  function Decimal(n: nat): (s: string)
    ensures |s| >= 1 && forall i :: 0 <= i < |s| ==> '0' <= s[i] <= '9'
  {
    if n < 10 then [('0' as int + n) as char]
    else Decimal(n / 10) + [('0' as int + n % 10) as char]
  }

  /** The number a string of decimal digits denotes. */
  function DecimalValue(s: string): nat
    requires forall i :: 0 <= i < |s| ==> '0' <= s[i] <= '9'
  {
    if |s| == 0 then 0
    else DecimalValue(s[..|s| - 1]) * 10 + (s[|s| - 1] as int - '0' as int)
  }

  lemma {:induction false} DecimalRoundTrip(n: nat)
    ensures DecimalValue(Decimal(n)) == n
  {
    if n >= 10 {
      var s := Decimal(n);
      assert s[..|s| - 1] == Decimal(n / 10);
      DecimalRoundTrip(n / 10);
    }
  }

  /** str(n) of a Python int. */
  function IntText(n: int): (s: string)
    ensures |s| >= 1
  {
    if n < 0 then "-" + Decimal(-n) else Decimal(n)
  }

  lemma DecimalInjective(a: nat, b: nat)
    requires Decimal(a) == Decimal(b)
    ensures a == b
  {
    DecimalRoundTrip(a);
    DecimalRoundTrip(b);
  }

  /** Different integers have different decimal texts. */
  lemma IntTextInjective(a: int, b: int)
    requires IntText(a) == IntText(b)
    ensures a == b
  {
    IntTextSign(a);
    IntTextSign(b);
    if a < 0 {
      var s := IntText(a);
      assert s[1..] == Decimal(-a) && IntText(b)[1..] == Decimal(-b);
      DecimalInjective(-a, -b);
    } else {
      DecimalInjective(a, b);
    }
  }

  lemma IntTextSign(n: int)
    ensures IntText(n)[0] == '-' <==> n < 0
  {
  }

  /** channel_str: "mono", "stereo", or the count followed by "ch". */
  function ChannelStr(ch: int): string
  {
    if ch == 1 then "mono" else if ch == 2 then "stereo" else IntText(ch) + "ch"
  }

  /** A count spelt with "ch" is neither of the two named layouts. */
  lemma NumberedNotNamed(n: int)
    ensures IntText(n) + "ch" != "mono" && IntText(n) + "ch" != "stereo"
  {
    var s := IntText(n) + "ch";
    assert s[|s| - 1] == 'h';
  }

  /** Different channel counts get different names, so no two fixture
      configurations that differ only in their channels share a file name. */
  lemma ChannelStrInjective(a: int, b: int)
    ensures ChannelStr(a) == ChannelStr(b) ==> a == b
  {
    NumberedNotNamed(a);
    NumberedNotNamed(b);
    if ChannelStr(a) == ChannelStr(b) && a != 1 && a != 2 && b != 1 && b != 2 {
      var s := ChannelStr(a);
      assert IntText(a) == s[..|s| - 2] == IntText(b);
      IntTextInjective(a, b);
    }
  }

  /** The byte order a configuration's endian string selects: '<' for
      "little", '>' for anything else. */
  function EndianOf(endian: string): Endian
  {
    if endian == "little" then Little else Big
  }

  /** endian_str: "le" for "little", "be" otherwise. */
  function EndianStr(endian: string): string
  {
    if endian == "little" then "le" else "be"
  }

  /** The name says "le" exactly when the file is written little-endian,
      which is exactly when its container tag is "RIFF". */
  lemma EndianNameAgrees(endian: string)
    ensures EndianStr(endian) == "le" <==> EndianOf(endian) == Little
    ensures EndianStr(endian) == "le" <==> RiffTag(EndianOf(endian)) == RiffId
  {
    if EndianOf(endian) == Big {
      assert RiffTag(Big)[3] != RiffId[3];
    }
  }

  /** FORMAT_TAGS */
  const FormatTags: map<string, int> := map["pcm" := 1, "float" := 3, "alaw" := 6, "ulaw" := 7]

  /** The script's tags are the decoder's WAVE_FORMAT_* values, and no two
      codecs share one. */
  lemma FormatTagsAgree()
    ensures FormatTags.Keys == {"pcm", "float", "alaw", "ulaw"}
    ensures FormatTags["pcm"] == FormatPcm && FormatTags["float"] == FormatIeeeFloat
    ensures FormatTags["alaw"] == FormatAlaw && FormatTags["ulaw"] == FormatMulaw
    ensures forall a, b :: a in FormatTags && b in FormatTags && a != b ==> FormatTags[a] != FormatTags[b]
  {
  }

  /* ----------------------------------------------------------- the filter */

  /** str.lower on ASCII letters. */
  function Lower(s: string): (r: string)
    ensures |r| == |s|
    ensures forall i :: 0 <= i < |s| ==> r[i] == LowerChar(s[i])
  {
    if |s| == 0 then [] else [LowerChar(s[0])] + Lower(s[1..])
  }

  function LowerChar(c: char): char
  {
    if 'A' <= c <= 'Z' then (c as int + 32) as char else c
  }

  /** t occurs in s at position k. */
  predicate OccursAt(s: string, t: string, k: nat)
  {
    k + |t| <= |s| && s[k..k + |t|] == t
  }

  /** The substring test t in s, scanning the positions from i on. */
  function ContainsFrom(s: string, t: string, i: nat): bool
    decreases |s| - i
  {
    if i + |t| > |s| then false
    else if OccursAt(s, t, i) then true
    else ContainsFrom(s, t, i + 1)
  }

  /** Python's `t in s` for strings. */
  function Contains(s: string, t: string): bool
  {
    ContainsFrom(s, t, 0)
  }

  /** any(p.lower() in nl for p in patterns) */
  function AnyPattern(nl: string, patterns: seq<string>): bool
  {
    if |patterns| == 0 then false
    else Contains(nl, Lower(patterns[0])) || AnyPattern(nl, patterns[1..])
  }

  /** matches: no patterns accept every name; otherwise some pattern must be
      a substring of the name, ignoring case. */
  function Matches(name: string, patterns: seq<string>): bool
  {
    if |patterns| == 0 then true else AnyPattern(Lower(name), patterns)
  }

  lemma {:induction false} ContainsFromIff(s: string, t: string, i: nat)
    ensures ContainsFrom(s, t, i) <==> exists k :: i <= k && OccursAt(s, t, k)
    decreases |s| - i
  {
    if i + |t| <= |s| && !OccursAt(s, t, i) {
      ContainsFromIff(s, t, i + 1);
      if exists k :: i <= k && OccursAt(s, t, k) {
        var k :| i <= k && OccursAt(s, t, k);
        assert k != i;
      }
    }
  }

  lemma {:induction false} AnyPatternIff(nl: string, patterns: seq<string>)
    ensures AnyPattern(nl, patterns) <==>
      exists j: int, k: nat :: 0 <= j < |patterns| && OccursAt(nl, Lower(patterns[j]), k)
  {
    if |patterns| > 0 {
      var rest := patterns[1..];
      ContainsFromIff(nl, Lower(patterns[0]), 0);
      AnyPatternIff(nl, rest);
      if exists j: int, k: nat :: 0 <= j < |patterns| && OccursAt(nl, Lower(patterns[j]), k) {
        var j: int, k: nat :| 0 <= j < |patterns| && OccursAt(nl, Lower(patterns[j]), k);
        if j > 0 {
          assert rest[j - 1] == patterns[j];
        }
      }
      if AnyPattern(nl, rest) {
        var j: int, k: nat :| 0 <= j < |rest| && OccursAt(nl, Lower(rest[j]), k);
        assert patterns[j + 1] == rest[j];
        assert OccursAt(nl, Lower(patterns[j + 1]), k);
      }
      if Contains(nl, Lower(patterns[0])) {
        var k :| 0 <= k && OccursAt(nl, Lower(patterns[0]), k);
        assert OccursAt(nl, Lower(patterns[0]), k);
      }
    }
  }

  /** matches as the script states it: true for an empty pattern list, and
      otherwise true exactly when the lower-cased name contains some
      lower-cased pattern. */
  lemma MatchesIff(name: string, patterns: seq<string>)
    ensures Matches(name, patterns) <==>
      |patterns| == 0
      || exists j: int, k: nat :: 0 <= j < |patterns| && OccursAt(Lower(name), Lower(patterns[j]), k)
  {
    AnyPatternIff(Lower(name), patterns);
    assert Matches(name, patterns) == (|patterns| == 0 || AnyPattern(Lower(name), patterns));
  }

  lemma {:induction false} LowerIdempotent(s: string)
    ensures Lower(Lower(s)) == Lower(s)
  {
    assert forall i :: 0 <= i < |s| ==> LowerChar(LowerChar(s[i])) == LowerChar(s[i]);
  }

  /** The filter ignores the case of the name. */
  lemma MatchesIgnoresCase(name: string, patterns: seq<string>)
    ensures Matches(Lower(name), patterns) == Matches(name, patterns)
  {
    LowerIdempotent(name);
  }

  /** A name that passes a non-empty pattern list keeps passing when more
      patterns are given. */
  lemma MatchesMorePatterns(name: string, patterns: seq<string>, more: seq<string>)
    requires |patterns| > 0 && Matches(name, patterns)
    ensures Matches(name, patterns + more)
  {
    var ps := patterns + more;
    assert Matches(name, ps) == AnyPattern(Lower(name), ps);
    assert Matches(name, patterns) == AnyPattern(Lower(name), patterns);
    AnyPatternIff(Lower(name), patterns);
    AnyPatternIff(Lower(name), ps);
    var j: int, k: nat :| 0 <= j < |patterns| && OccursAt(Lower(name), Lower(patterns[j]), k);
    assert ps[j] == patterns[j];
    assert OccursAt(Lower(name), Lower(ps[j]), k);
    assert exists j': int, k': nat :: 0 <= j' < |ps| && OccursAt(Lower(name), Lower(ps[j']), k');
    assert AnyPattern(Lower(name), ps);
  }

  /** The empty pattern lets every name through. */
  lemma EmptyPatternMatches(name: string, patterns: seq<string>)
    requires "" in patterns
    ensures Matches(name, patterns)
  {
    AnyPatternIff(Lower(name), patterns);
    var j :| 0 <= j < |patterns| && patterns[j] == "";
    assert OccursAt(Lower(name), Lower(patterns[j]), 0);
  }

  /* ------------------------------------------------------------ manifest */

  /** One manifest entry. */
  datatype ManifestEntry = ManifestEntry(
    channels: int, sampleRate: int, bitsPerSample: int, formatTag: int, samplesPerChannel: int)

  /** The MANIFEST dictionary, keyed by file name. */
  class Manifest {
    var entries: map<string, ManifestEntry>

    constructor ()
      ensures entries == map[]
    {
      entries := map[];
    }

    /** record_manifest: the entry for fname is set, replacing any earlier
        one, and every other entry stays as it was. */
    method Record(fname: string, channels: int, sampleRate: int, bitDepth: int,
                  formatTag: int, samplesPerChannel: int)
      modifies this
      ensures entries == old(entries)[fname := ManifestEntry(channels, sampleRate, bitDepth, formatTag, samplesPerChannel)]
    {
      entries := entries[fname := ManifestEntry(channels, sampleRate, bitDepth, formatTag, samplesPerChannel)];
    }
  }

  /* --------------------------------------------------------------- header */

  /** block_align = channels * (bit_depth // 8) */
  function BlockAlign(channels: int, bits: int): int
  {
    channels * (bits / 8)
  }

  /** byte_rate = sample_rate * block_align */
  function ByteRate(rate: int, channels: int, bits: int): int
  {
    rate * BlockAlign(channels, bits)
  }

  /** A-law and μ-law get the 18-byte `fmt ` with a trailing zero word. */
  predicate Extended(tag: int)
  {
    tag == 6 || tag == 7
  }

  function FmtSize(tag: int): nat
  {
    if Extended(tag) then 18 else 16
  }

  /** A `fact` chunk is written for every format but PCM that has a count. */
  predicate FactEmitted(tag: int, factCount: Option<int>)
  {
    tag != 1 && factCount.Some?
  }

  /** struct.pack accepts every field of the three chunk headers. */
  predicate ChunksFit(tag: int, channels: int, rate: int, bits: int, dataSize: int, factCount: Option<int>)
  {
    FmtFieldsFit(tag, channels, rate, ByteRate(rate, channels, bits), BlockAlign(channels, bits), bits)
    && (FactEmitted(tag, factCount) ==> U32Fits(factCount.value))
    && U32Fits(dataSize)
  }

  /** fmt_hdr */
  function FmtChunk(e: Endian, tag: int, channels: int, rate: int, bits: int): (r: seq<byte>)
    requires FmtFieldsFit(tag, channels, rate, ByteRate(rate, channels, bits), BlockAlign(channels, bits), bits)
    ensures |r| == 8 + FmtSize(tag)
  {
    ChunkHeader(e, FmtId, FmtSize(tag))
    + FmtBody(e, tag, channels, rate, ByteRate(rate, channels, bits), BlockAlign(channels, bits), bits)
    + (if Extended(tag) then U16(e, 0) else [])
  }

  /** fact */
  function FactChunk(e: Endian, tag: int, factCount: Option<int>): (r: seq<byte>)
    requires FactEmitted(tag, factCount) ==> U32Fits(factCount.value)
    ensures |r| == if FactEmitted(tag, factCount) then 12 else 0
  {
    if FactEmitted(tag, factCount) then ChunkHeader(e, FactId, 4) + U32(e, factCount.value) else []
  }

  /** fmt_hdr + fact + data_hdr */
  function Chunks(e: Endian, tag: int, channels: int, rate: int, bits: int, dataSize: int, factCount: Option<int>)
    : (r: seq<byte>)
    requires ChunksFit(tag, channels, rate, bits, dataSize, factCount)
    ensures |r| == 16 + FmtSize(tag) + (if FactEmitted(tag, factCount) then 12 else 0)
  {
    FmtChunk(e, tag, channels, rate, bits) + FactChunk(e, tag, factCount) + ChunkHeader(e, DataId, dataSize)
  }

  /** The length of the `fact` chunk the header carries. */
  function FactLength(tag: int, factCount: Option<int>): nat
  {
    if FactEmitted(tag, factCount) then 12 else 0
  }

  /** The offset of the `data` chunk header. */
  function DataHeaderAt(tag: int, factCount: Option<int>): nat
  {
    20 + FmtSize(tag) + FactLength(tag, factCount)
  }

  /** The declared RIFF size: 4 + len(fmt_hdr) + len(fact) + len(data_hdr) + data_size. */
  function RiffSize(tag: int, dataSize: int, factCount: Option<int>): int
  {
    4 + (8 + FmtSize(tag)) + FactLength(tag, factCount) + 8 + dataSize
  }

  /** write_wav_header completes without an exception. */
  predicate HeaderFits(e: Endian, tag: int, channels: int, rate: int, bits: int, dataSize: int, factCount: Option<int>)
  {
    ChunksFit(tag, channels, rate, bits, dataSize, factCount)
    && U32Fits(RiffSize(tag, dataSize, factCount))
  }

  /** The bytes write_wav_header writes when it completes. */
  function HeaderBytes(e: Endian, tag: int, channels: int, rate: int, bits: int, dataSize: int, factCount: Option<int>)
    : (r: seq<byte>)
    requires HeaderFits(e, tag, channels, rate, bits, dataSize, factCount)
  {
    RiffTag(e) + U32(e, RiffSize(tag, dataSize, factCount)) + WaveId
    + Chunks(e, tag, channels, rate, bits, dataSize, factCount)
  }

  /** How the header is put together from its three packed chunk headers. */
  lemma HeaderAssembly(e: Endian, tag: int, channels: int, rate: int, bits: int, dataSize: int, factCount: Option<int>,
                       fmtHdr: seq<byte>, fact: seq<byte>, dataHdr: seq<byte>)
    requires ChunksFit(tag, channels, rate, bits, dataSize, factCount)
    requires fmtHdr == FmtChunk(e, tag, channels, rate, bits) && fact == FactChunk(e, tag, factCount)
    requires dataHdr == ChunkHeader(e, DataId, dataSize)
    ensures var size := 4 + |fmtHdr| + |fact| + |dataHdr| + dataSize;
      RiffSize(tag, dataSize, factCount) == size
      && (HeaderFits(e, tag, channels, rate, bits, dataSize, factCount) <==> U32Fits(size))
      && (U32Fits(size) ==>
            HeaderBytes(e, tag, channels, rate, bits, dataSize, factCount)
            == RiffTag(e) + (U32(e, size) + WaveId + (fmtHdr + fact + dataHdr)))
  {
    var size := 4 + |fmtHdr| + |fact| + |dataHdr| + dataSize;
    var chunks := fmtHdr + fact + dataHdr;
    assert Chunks(e, tag, channels, rate, bits, dataSize, factCount) == chunks;
    assert RiffSize(tag, dataSize, factCount) == size;
    if U32Fits(size) {
      assert HeaderBytes(e, tag, channels, rate, bits, dataSize, factCount) == RiffTag(e) + U32(e, size) + WaveId + chunks;
      JoinFour(RiffTag(e), U32(e, size), WaveId, chunks);
    }
  }

  lemma JoinFour(a: seq<byte>, b: seq<byte>, c: seq<byte>, d: seq<byte>)
    ensures a + b + c + d == a + (b + c + d)
  {
  }

  /** The three struct.pack calls of write_wav_header, which run before
      anything is written: None if one of them raises. */
  method PackChunks(e: Endian, tag: int, channels: int, rate: int, bits: int, dataSize: int, factCount: Option<int>)
    returns (ok: bool, fmtHdr: seq<byte>, fact: seq<byte>, dataHdr: seq<byte>)
    ensures ok <==> ChunksFit(tag, channels, rate, bits, dataSize, factCount)
    ensures ok ==> fmtHdr == FmtChunk(e, tag, channels, rate, bits)
                   && fact == FactChunk(e, tag, factCount)
                   && dataHdr == ChunkHeader(e, DataId, dataSize)
  {
    var ba := channels * (bits / 8);
    var br := rate * ba;
    if !FmtFieldsFit(tag, channels, rate, br, ba, bits) {
      return false, [], [], [];
    }
    fmtHdr := FmtChunk(e, tag, channels, rate, bits);
    fact := [];
    if tag != 1 && factCount.Some? {
      if !U32Fits(factCount.value) {
        return false, [], [], [];
      }
      fact := ChunkHeader(e, FactId, 4) + U32(e, factCount.value);
    }
    if !U32Fits(dataSize) {
      return false, [], [], [];
    }
    ok, dataHdr := true, ChunkHeader(e, DataId, dataSize);
  }

  /** The writes after the container tag: the size field, "WAVE" and the
      chunk headers, the `fact` chunk only when it is not empty. */
  method WriteRest(f: ByteSink, size: seq<byte>, fmtHdr: seq<byte>, fact: seq<byte>, dataHdr: seq<byte>)
    modifies f
    ensures f.bytes == old(f.bytes) + (size + WaveId + (fmtHdr + fact + dataHdr))
  {
    f.Write(size);
    f.Write(WaveId);
    f.Write(fmtHdr);
    ghost var head := size + WaveId + fmtHdr;
    assert f.bytes == old(f.bytes) + head;
    if |fact| > 0 {
      f.Write(fact);
    }
    assert f.bytes == old(f.bytes) + (head + fact);
    f.Write(dataHdr);
    assert f.bytes == old(f.bytes) + (head + fact + dataHdr);
    assert head + fact + dataHdr == size + WaveId + (fmtHdr + fact + dataHdr);
  }

  /** The writes of write_wav_header once the chunk headers are packed: the
      container tag, then the size field, which raises if it does not fit
      in 32 bits, then the rest. */
  method WritePieces(f: ByteSink, e: Endian, fmtHdr: seq<byte>, fact: seq<byte>, dataHdr: seq<byte>, dataSize: int)
    returns (ok: bool)
    modifies f
    ensures var size := 4 + |fmtHdr| + |fact| + |dataHdr| + dataSize;
      (ok <==> U32Fits(size))
      && (ok ==> f.bytes == old(f.bytes) + (RiffTag(e) + (U32(e, size) + WaveId + (fmtHdr + fact + dataHdr))))
      && (!ok ==> f.bytes == old(f.bytes) + RiffTag(e))
  {
    f.Write(RiffTag(e));
    var size := 4 + |fmtHdr| + |fact| + |dataHdr| + dataSize;
    if !U32Fits(size) {
      return false;
    }
    WriteRest(f, U32(e, size), fmtHdr, fact, dataHdr);
    ok := true;
  }

  /** write_wav_header. Every struct.pack of the three chunk headers happens
      before the first write, so if one of them raises nothing is written;
      the RIFF size is packed after the tag is written, so if only it does
      not fit, the file holds just the tag. */
  method WriteWavHeader(f: ByteSink, e: Endian, tag: int, channels: int, rate: int, bits: int,
                        dataSize: int, factCount: Option<int>) returns (ok: bool)
    modifies f
    ensures ok <==> HeaderFits(e, tag, channels, rate, bits, dataSize, factCount)
    ensures ok ==> f.bytes == old(f.bytes) + HeaderBytes(e, tag, channels, rate, bits, dataSize, factCount)
    ensures !ok ==> f.bytes == old(f.bytes)
                               + (if ChunksFit(tag, channels, rate, bits, dataSize, factCount) then RiffTag(e) else [])
  {
    var packed, fmtHdr, fact, dataHdr := PackChunks(e, tag, channels, rate, bits, dataSize, factCount);
    if !packed {
      return false;
    }
    HeaderAssembly(e, tag, channels, rate, bits, dataSize, factCount, fmtHdr, fact, dataHdr);
    ok := WritePieces(f, e, fmtHdr, fact, dataHdr, dataSize);
  }

  /* ------------------------------------------------------- header layout */

  /** piece sits at offset |a| of a + piece + b. */
  lemma PieceAt(a: seq<byte>, piece: seq<byte>, b: seq<byte>)
    ensures (a + piece + b)[|a|..|a| + |piece|] == piece
  {
    assert forall i :: 0 <= i < |piece| ==> (a + piece + b)[|a| + i] == piece[i];
  }

  /** Where write_wav_header puts each field: the container tag and the
      RIFF size at 0 and 4, "WAVE" at 8, the `fmt ` chunk at 12 with its
      body at 20. */
  lemma HeaderLayout(e: Endian, tag: int, channels: int, rate: int, bits: int, dataSize: int, factCount: Option<int>)
    requires HeaderFits(e, tag, channels, rate, bits, dataSize, factCount)
    ensures var h := HeaderBytes(e, tag, channels, rate, bits, dataSize, factCount);
      |h| >= 36
      && h[..4] == RiffTag(e)
      && h[4..8] == U32(e, RiffSize(tag, dataSize, factCount))
      && h[8..12] == WaveId
      && h[12..20] == ChunkHeader(e, FmtId, FmtSize(tag))
      && h[20..36] == FmtBody(e, tag, channels, rate, ByteRate(rate, channels, bits), BlockAlign(channels, bits), bits)
  {
    HeaderPieces(e, tag, channels, rate, bits, dataSize, factCount);
    Layout(HeaderBytes(e, tag, channels, rate, bits, dataSize, factCount),
           RiffTag(e), U32(e, RiffSize(tag, dataSize, factCount)), WaveId,
           ChunkHeader(e, FmtId, FmtSize(tag)),
           FmtBody(e, tag, channels, rate, ByteRate(rate, channels, bits), BlockAlign(channels, bits), bits),
           if Extended(tag) then U16(e, 0) else [],
           if FactEmitted(tag, factCount) then ChunkHeader(e, FactId, 4) else [],
           if FactEmitted(tag, factCount) then U32(e, factCount.value) else [],
           ChunkHeader(e, DataId, dataSize), FmtSize(tag), FactEmitted(tag, factCount), DataHeaderAt(tag, factCount));
  }

  /** The rest of the header: the `fact` chunk right after the `fmt ` chunk
      when there is one, and the `data` chunk header last, so that the
      samples start right after the header. */
  lemma HeaderTailLayout(e: Endian, tag: int, channels: int, rate: int, bits: int, dataSize: int, factCount: Option<int>)
    requires HeaderFits(e, tag, channels, rate, bits, dataSize, factCount)
    ensures var h := HeaderBytes(e, tag, channels, rate, bits, dataSize, factCount);
      var fs, dp := FmtSize(tag), DataHeaderAt(tag, factCount);
      |h| == dp + 8
      && (FactEmitted(tag, factCount) ==>
            h[20 + fs..28 + fs] == ChunkHeader(e, FactId, 4) && h[28 + fs..32 + fs] == U32(e, factCount.value))
      && h[dp..dp + 8] == ChunkHeader(e, DataId, dataSize)
  {
    HeaderPieces(e, tag, channels, rate, bits, dataSize, factCount);
    Layout(HeaderBytes(e, tag, channels, rate, bits, dataSize, factCount),
           RiffTag(e), U32(e, RiffSize(tag, dataSize, factCount)), WaveId,
           ChunkHeader(e, FmtId, FmtSize(tag)),
           FmtBody(e, tag, channels, rate, ByteRate(rate, channels, bits), BlockAlign(channels, bits), bits),
           if Extended(tag) then U16(e, 0) else [],
           if FactEmitted(tag, factCount) then ChunkHeader(e, FactId, 4) else [],
           if FactEmitted(tag, factCount) then U32(e, factCount.value) else [],
           ChunkHeader(e, DataId, dataSize), FmtSize(tag), FactEmitted(tag, factCount), DataHeaderAt(tag, factCount));
  }

  /** The RIFF size counts every byte of the file after the size field:
      the rest of the header and the data_size bytes of samples. */
  lemma RiffSizeCounts(e: Endian, tag: int, channels: int, rate: int, bits: int, dataSize: int, factCount: Option<int>)
    requires HeaderFits(e, tag, channels, rate, bits, dataSize, factCount)
    ensures |HeaderBytes(e, tag, channels, rate, bits, dataSize, factCount)| == DataHeaderAt(tag, factCount) + 8
    ensures RiffSize(tag, dataSize, factCount)
            == |HeaderBytes(e, tag, channels, rate, bits, dataSize, factCount)| + dataSize - 8
  {
  }

  /** The header as the concatenation of its nine pieces. */
  lemma HeaderPieces(e: Endian, tag: int, channels: int, rate: int, bits: int, dataSize: int, factCount: Option<int>)
    requires HeaderFits(e, tag, channels, rate, bits, dataSize, factCount)
    ensures HeaderBytes(e, tag, channels, rate, bits, dataSize, factCount)
            == RiffTag(e) + U32(e, RiffSize(tag, dataSize, factCount)) + WaveId
               + (ChunkHeader(e, FmtId, FmtSize(tag))
                  + FmtBody(e, tag, channels, rate, ByteRate(rate, channels, bits), BlockAlign(channels, bits), bits)
                  + (if Extended(tag) then U16(e, 0) else [])
                  + ((if FactEmitted(tag, factCount) then ChunkHeader(e, FactId, 4) else [])
                     + (if FactEmitted(tag, factCount) then U32(e, factCount.value) else []))
                  + ChunkHeader(e, DataId, dataSize))
  {
    if !FactEmitted(tag, factCount) {
      assert FactChunk(e, tag, factCount) == [] == [] + [];
    }
  }

  /** The header's pieces at their offsets, whatever their contents. */
  lemma Layout(h: seq<byte>, riff: seq<byte>, size: seq<byte>, wave: seq<byte>, hd: seq<byte>, body: seq<byte>,
               ext: seq<byte>, fhd: seq<byte>, cnt: seq<byte>, dh: seq<byte>, fs: nat, hasFact: bool, dp: nat)
    requires h == riff + size + wave + (hd + body + ext + (fhd + cnt) + dh)
    requires |riff| == 4 && |size| == 4 && |wave| == 4 && |hd| == 8 && |body| == 16 && |dh| == 8
    requires fs == 16 + |ext|
    requires if hasFact then |fhd| == 8 && |cnt| == 4 else |fhd| + |cnt| == 0
    requires dp == 20 + fs + |fhd| + |cnt|
    ensures |h| == dp + 8
    ensures h[..4] == riff && h[4..8] == size && h[8..12] == wave && h[12..20] == hd && h[20..36] == body
    ensures hasFact ==> h[20 + fs..28 + fs] == fhd && h[28 + fs..32 + fs] == cnt
    ensures h[dp..dp + 8] == dh
  {
  }

  /* ------------------------------------------------------------- samples */

  /** The integer a 24-bit sample is clamped to before int.to_bytes. */
  function Clamp24(v: int): int
  {
    Clamp(v, -0x80_0000, 0x7F_FFFF)
  }

  /** int.to_bytes(3, byteorder=endian, signed=True): only "little" and
      "big" are byte orders; any other string raises. */
  function ToBytes24(endian: string, v: int): (r: Option<seq<byte>>)
  {
    if endian == "little" || endian == "big" then PackSigned(EndianOf(endian), 3, v) else None
  }

  /** The bytes one channel of a sine frame is written as. The sample is
      the integer the codec's branch derives from the frame's sine value:
      int((val+1)*127.5) for 8-bit PCM, int(val*8388607) for 24-bit PCM,
      int(val*((1<<(bd-1))-1)) for other PCM, the IEEE-754 bit pattern of
      val for float, and int(val*32767) for A-law and μ-law. */
  function SineSample(codec: string, bits: int, endian: string, v: int): Option<seq<byte>>
  {
    if codec == "pcm" then
      if bits == 8 then PackUnsigned(Little, 1, v)
      else if bits == 24 then ToBytes24(endian, Clamp24(v))
      else PackSigned(EndianOf(endian), if bits == 16 then 2 else 4, v)
    else if codec == "float" then PackUnsigned(EndianOf(endian), if bits == 32 then 4 else 8, v)
    else if codec == "alaw" then Some([AlawCode(v)])
    else if codec == "ulaw" then Some([UlawCode(v)])
    else Some([])
  }

  /** The bytes one channel of a sweep frame is written as: 24-bit PCM is
      clamped, other PCM packed as 'h' or 'i', and every other codec packed
      as a float ('f' or 'd'). */
  function SweepSample(codec: string, bits: int, endian: string, v: int): Option<seq<byte>>
  {
    if codec == "pcm" then
      if bits == 24 then ToBytes24(endian, Clamp24(v))
      else PackSigned(EndianOf(endian), if bits == 16 then 2 else 4, v)
    else PackUnsigned(EndianOf(endian), if bits == 32 then 4 else 8, v)
  }

  /** The codec and depth pairs the fixture tables use. */
  predicate StandardDepth(codec: string, bits: int)
  {
    (codec == "pcm" && bits in {8, 16, 24, 32})
    || (codec == "float" && bits in {32, 64})
    || ((codec == "alaw" || codec == "ulaw") && bits == 8)
  }

  /** For those pairs every sine sample that is written fills bits / 8
      bytes, the sample width the header declares. */
  lemma SineSampleWidth(codec: string, bits: int, endian: string, v: int)
    requires StandardDepth(codec, bits)
    ensures SineSample(codec, bits, endian, v).Some? ==> |SineSample(codec, bits, endian, v).value| == bits / 8
  {
  }

  /** The sweep's widths: 2 bytes for 16-bit PCM, 3 for 24-bit, 4 for any
      other PCM depth, and 4 or 8 for everything else. So bits / 8 only for
      16/24/32-bit PCM and 32/64-bit float: an 8-bit PCM, A-law or μ-law
      sweep would write more bytes than its header declares. */
  lemma SweepSampleWidth(codec: string, bits: int, endian: string, v: int)
    ensures SweepSample(codec, bits, endian, v).Some? ==>
      |SweepSample(codec, bits, endian, v).value|
      == (if codec == "pcm" then (if bits == 16 then 2 else if bits == 24 then 3 else 4)
          else if bits == 32 then 4 else 8)
  {
  }

  /** A 24-bit sample is always written: the clamp keeps it in range, and
      the decoder's read_i24_le gives back the clamped value. */
  lemma Sample24ReadsBack(v: int)
    ensures SineSample("pcm", 24, "little", v).Some? && SweepSample("pcm", 24, "little", v).Some?
    ensures ReadI24Le(SineSample("pcm", 24, "little", v).value, 0) == Clamp24(v)
    ensures v != Clamp24(v) ==> (v > 0x7F_FFFF && Clamp24(v) == 0x7F_FFFF) || (v < -0x80_0000 && Clamp24(v) == -0x80_0000)
  {
    ReadI24LeOfPacked(Clamp24(v));
  }

  /** A 16-bit sample is written exactly when it fits 'h', and then reads
      back as itself in either byte order. */
  lemma Sample16RoundTrip(endian: string, v: int)
    ensures SineSample("pcm", 16, endian, v).Some? <==> -0x8000 <= v < 0x8000
    ensures SineSample("pcm", 16, endian, v).Some? ==>
      SignedFromBytes(EndianOf(endian), SineSample("pcm", 16, endian, v).value) == v
  {
    assert Half(2) == 0x8000;
  }

  /* -------------------------------------------------------------- fixtures */

  /** One frame: every channel writes the frame's sample. */
  function Frame(v: int, channels: int): (r: seq<int>)
    ensures |r| == if channels > 0 then channels else 0
  {
    seq(if channels > 0 then channels else 0, _ => v)
  }

  /** The frames of a fixture, one per sample value. */
  function Frames(values: seq<int>, channels: int): (r: seq<seq<int>>)
    ensures |r| == |values|
    ensures forall i :: 0 <= i < |values| ==> r[i] == Frame(values[i], channels)
  {
    seq(|values|, i requires 0 <= i < |values| => Frame(values[i], channels))
  }

  /** The sample bytes of a sine fixture: None if a pack raises. */
  function SinePayload(codec: string, bits: int, endian: string, channels: int, values: seq<int>): Option<seq<byte>>
  {
    SampleStream.EncodeAll(v => SineSample(codec, bits, endian, v), SampleStream.Flatten(Frames(values, channels)))
  }

  /** The sample bytes a sine fixture's loops leave in the file: those of
      the samples before the first pack that raises, all of them if none
      does. */
  function SineWritten(codec: string, bits: int, endian: string, channels: int, values: seq<int>): seq<byte>
  {
    SampleStream.EncodePrefix(v => SineSample(codec, bits, endian, v), SampleStream.Flatten(Frames(values, channels)))
  }

  /** The frame loop of a sine fixture: it completes exactly when every
      sample can be packed, and then has written the whole payload; when a
      pack raises, the samples before it stay in the file. */
  method WriteSineSamples(f: ByteSink, codec: string, bits: int, endian: string, channels: int, values: seq<int>)
    returns (complete: bool)
    modifies f
    ensures complete <==> SinePayload(codec, bits, endian, channels, values).Some?
    ensures complete ==> f.bytes == old(f.bytes) + SinePayload(codec, bits, endian, channels, values).value
    ensures f.bytes == old(f.bytes) + SineWritten(codec, bits, endian, channels, values)
  {
    var frames := Frames(values, channels);
    var enc := v => SineSample(codec, bits, endian, v);
    var written := SampleStream.WriteFrames(f, enc, frames);
    complete := written == |SampleStream.Flatten(frames)|;
    if complete {
      assert SampleStream.Flatten(frames)[..written] == SampleStream.Flatten(frames);
    }
  }

  /** What happened to one configuration. */
  datatype Outcome = Raised | Skipped | Written(name: string)

  /** The file name of a configuration. */
  function FixtureName(kind: string, codec: string, bits: int, endian: string, channels: int): string
  {
    kind + "_" + codec + "_" + IntText(bits) + "bit_" + EndianStr(endian) + "_" + ChannelStr(channels) + ".wav"
  }

  /** The body of generate_fixture_wavs' loop for one configuration, written
      to the sink f: the format tag lookup raises for an unknown codec; a
      name the filter rejects is skipped; otherwise the header, then one
      frame per sample value, then the manifest entry. An exception from a
      pack leaves the bytes written so far and no manifest entry: nothing
      if a chunk does not pack, the container tag alone if the RIFF size
      does not, and otherwise the header and the samples before the one
      that raised. */
  method WriteSineFixture(f: ByteSink, m: Manifest, codec: string, bits: int, channels: int, endian: string,
                          rate: int, values: seq<int>, filters: seq<string>) returns (out: Outcome)
    modifies f, m
    ensures codec !in FormatTags ==> out == Raised && f.bytes == old(f.bytes)
    ensures codec in FormatTags ==>
      var tag := FormatTags[codec];
      var dataSize := |values| * (channels * (bits / 8));
      var factCount := if tag != 1 then Some(|values|) else None;
      var name := FixtureName("sine", codec, bits, endian, channels);
      var payload := SinePayload(codec, bits, endian, channels, values);
      (out == Skipped <==> !Matches(name, filters))
      && (out == Skipped ==> f.bytes == old(f.bytes))
      && (out.Written? <==>
            Matches(name, filters) && HeaderFits(EndianOf(endian), tag, channels, rate, bits, dataSize, factCount)
            && payload.Some?)
      && (out.Written? ==>
            out.name == name
            && f.bytes == old(f.bytes) + HeaderBytes(EndianOf(endian), tag, channels, rate, bits, dataSize, factCount)
                          + payload.value
            && m.entries == old(m.entries)[name := ManifestEntry(channels, rate, bits, tag, |values|)])
    ensures codec in FormatTags && Matches(FixtureName("sine", codec, bits, endian, channels), filters) ==>
      var tag := FormatTags[codec];
      var dataSize := |values| * (channels * (bits / 8));
      var factCount := if tag != 1 then Some(|values|) else None;
      f.bytes == if HeaderFits(EndianOf(endian), tag, channels, rate, bits, dataSize, factCount)
                 then old(f.bytes) + HeaderBytes(EndianOf(endian), tag, channels, rate, bits, dataSize, factCount)
                      + SineWritten(codec, bits, endian, channels, values)
                 else if ChunksFit(tag, channels, rate, bits, dataSize, factCount) then old(f.bytes) + RiffTag(EndianOf(endian))
                 else old(f.bytes)
    ensures !out.Written? ==> m.entries == old(m.entries)
  {
    if codec !in FormatTags {
      return Raised;
    }
    var tag := FormatTags[codec];
    var dataSize := |values| * (channels * (bits / 8));
    var name := FixtureName("sine", codec, bits, endian, channels);
    if !Matches(name, filters) {
      return Skipped;
    }
    var factCount := if tag != 1 then Some(|values|) else None;
    var ok := WriteWavHeader(f, EndianOf(endian), tag, channels, rate, bits, dataSize, factCount);
    if !ok {
      return Raised;
    }
    var complete := WriteSineSamples(f, codec, bits, endian, channels, values);
    if !complete {
      return Raised;
    }
    m.Record(name, channels, rate, bits, tag, |values|);
    out := Written(name);
  }

  /** The sample bytes of a sweep fixture: None if a pack raises. The
      values are per frame and channel, since the sweep evaluates its sine
      once per channel. */
  function SweepPayload(codec: string, bits: int, endian: string, frames: seq<seq<int>>): Option<seq<byte>>
  {
    SampleStream.EncodeAll(v => SweepSample(codec, bits, endian, v), SampleStream.Flatten(frames))
  }

  /** The sample bytes a sweep fixture's loops leave in the file. */
  function SweepWritten(codec: string, bits: int, endian: string, frames: seq<seq<int>>): seq<byte>
  {
    SampleStream.EncodePrefix(v => SweepSample(codec, bits, endian, v), SampleStream.Flatten(frames))
  }

  /** The frame loop of a sweep fixture: the whole payload when every
      sample packs, the samples before the one that raised otherwise. */
  method WriteSweepSamples(f: ByteSink, codec: string, bits: int, endian: string, frames: seq<seq<int>>)
    returns (complete: bool)
    modifies f
    ensures complete <==> SweepPayload(codec, bits, endian, frames).Some?
    ensures complete ==> f.bytes == old(f.bytes) + SweepPayload(codec, bits, endian, frames).value
    ensures f.bytes == old(f.bytes) + SweepWritten(codec, bits, endian, frames)
  {
    var enc := v => SweepSample(codec, bits, endian, v);
    var written := SampleStream.WriteFrames(f, enc, frames);
    complete := written == |SampleStream.Flatten(frames)|;
    if complete {
      assert SampleStream.Flatten(frames)[..written] == SampleStream.Flatten(frames);
    }
  }

  /** The sweep's format tag: the table's, except that "float" is 3 without
      a lookup. */
  function SweepTag(codec: string): Option<int>
  {
    if codec == "float" then Some(3) else if codec in FormatTags then Some(FormatTags[codec]) else None
  }

  /** The body of generate_sweep_wavs' loop for one configuration: as for
      the sine fixtures, but with no `fact` chunk and one value per frame
      and channel (the inner loop runs `channels` times for every frame). */
  method WriteSweepFixture(f: ByteSink, m: Manifest, codec: string, bits: int, channels: int, endian: string,
                           rate: int, frames: seq<seq<int>>, filters: seq<string>) returns (out: Outcome)
    requires SampleStream.Uniform(frames, if channels > 0 then channels else 0)
    modifies f, m
    ensures SweepTag(codec).None? ==> out == Raised && f.bytes == old(f.bytes)
    ensures SweepTag(codec).Some? ==>
      var tag := SweepTag(codec).value;
      var dataSize := |frames| * (channels * (bits / 8));
      var name := FixtureName("sweep", codec, bits, endian, channels);
      var payload := SweepPayload(codec, bits, endian, frames);
      (out == Skipped <==> !Matches(name, filters))
      && (out == Skipped ==> f.bytes == old(f.bytes))
      && (out.Written? <==>
            Matches(name, filters) && HeaderFits(EndianOf(endian), tag, channels, rate, bits, dataSize, None)
            && payload.Some?)
      && (out.Written? ==>
            out.name == name
            && f.bytes == old(f.bytes) + HeaderBytes(EndianOf(endian), tag, channels, rate, bits, dataSize, None)
                          + payload.value
            && m.entries == old(m.entries)[name := ManifestEntry(channels, rate, bits, tag, |frames|)])
    ensures SweepTag(codec).Some? && Matches(FixtureName("sweep", codec, bits, endian, channels), filters) ==>
      var tag := SweepTag(codec).value;
      var dataSize := |frames| * (channels * (bits / 8));
      f.bytes == if HeaderFits(EndianOf(endian), tag, channels, rate, bits, dataSize, None)
                 then old(f.bytes) + HeaderBytes(EndianOf(endian), tag, channels, rate, bits, dataSize, None)
                      + SweepWritten(codec, bits, endian, frames)
                 else if ChunksFit(tag, channels, rate, bits, dataSize, None) then old(f.bytes) + RiffTag(EndianOf(endian))
                 else old(f.bytes)
    ensures !out.Written? ==> m.entries == old(m.entries)
  {
    var tag;
    if codec != "float" {
      if codec !in FormatTags {
        return Raised;
      }
      tag := FormatTags[codec];
    } else {
      tag := 3;
    }
    var dataSize := |frames| * (channels * (bits / 8));
    var name := FixtureName("sweep", codec, bits, endian, channels);
    if !Matches(name, filters) {
      return Skipped;
    }
    var ok := WriteWavHeader(f, EndianOf(endian), tag, channels, rate, bits, dataSize, None);
    if !ok {
      return Raised;
    }
    var complete := WriteSweepSamples(f, codec, bits, endian, frames);
    if !complete {
      return Raised;
    }
    m.Record(name, channels, rate, bits, tag, |frames|);
    out := Written(name);
  }

  /** The sweep table gives the float codec tag 3 either way. */
  lemma SweepTagAgrees(codec: string)
    ensures SweepTag(codec).Some? <==> codec in FormatTags
    ensures SweepTag(codec).Some? ==> SweepTag(codec).value == FormatTags[codec]
  {
  }
}
