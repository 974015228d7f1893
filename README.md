# WAV decoder header parser, IMA ADPCM and G.711 tables, and the fixture generators

This project models two sides of a WebAssembly WAV decoder's test setup in Dafny and proves properties of both.

The decoder side is `src/wasm/src/decoder.c`. The model covers:
- the little-endian field readers;
- the overflow-free bounds check;
- `parse_header`, which walks the chunks of a RIFF WAVE form, validates the `fmt ` chunk and locates the `data` chunk;
- the integer part of the A-law and μ-law expansion tables that `init_decoder` fills;
- `clamp_i32`;
- the integer predictor and step-index machine of the two IMA ADPCM decoders, which follow the code's own block layout.

The generator side is the Python fixture scripts. The model covers:
- the G.711 encoders;
- the RIFF/RIFX header writers and the sample loops that follow them;
- the naming helpers, the name filter and the manifest;
- the 24 malformed-file recipes of `scripts/gen_evil_wav_fixtures.py`.

The two sides meet in lemmas that run the modelled `parse_header` on the generated files. They prove:
- which generated files the decoder accepts, and with which header;
- which evil recipes it rejects, and at which check.

Modules, one per source file or concern:
- `Bytes` covers byte values, `struct.pack` / `int.to_bytes` / `int.from_bytes` in either byte order, and the output stream as a `ByteSink` class.
- `DecoderHeader` covers the readers, `check_bounds` and `parse_header`:
  - the pure specification `Walk` mirrors the while loop step by step, including the uint32 wrap of `offset + 8`;
  - the imperative `ParseHeader` runs the loop itself and is proved equal to `Parse`.
- `DecoderTables` covers `init_decoder`'s table loop over arrays.
- `DecoderIma` covers `clamp_i32` and the two IMA decoders, as methods over arrays proved against specification functions.
- `G711` holds the G.711 encoders shared by two scripts, stated as functions.
- `RiffLayout` covers chunk headers and `fmt ` bodies as the scripts pack them, and how the decoder reads them back.
- `SampleStream` covers the frame/channel sample loops and the exception that ends them.
- `GenWavFixtures` covers `scripts/gen-wav-fixtures.py`.
- `GenerateWavFixtures` covers `scripts/generate_wav_fixtures.py`.
- `GenerateFixtures` covers `scripts/generate_fixtures.py`.
- `EvilWavFixtures` covers `scripts/gen_evil_wav_fixtures.py`.
- `FixtureParse` holds what `parse_header` makes of the generators' output.

`parse_header` returns only 0 or 1. Its model returns `Parsed(header)` or `Rejected(reason)`, where the reason names the check that failed.

Where a Python call raises (a `struct.pack` field out of range, an unknown codec, `int.to_bytes` overflow, a division by zero), the model takes an explicit failure path. This is an `Option` or a `false` result, and the bytes written up to that point stay in the sink. It is never a precondition.

Three behaviours of the source are worth knowing, and the model states exactly what the code computes:
- **A-law sign.** The G.711 encoders set bit 7 for non-negative input, while the decoder's A-law table treats a set bit 7 as negative. A code read back therefore has the opposite sign.
- **μ-law exponent.** The μ-law encoder tests the exponent against `1 << (exp + 5)`. From a biased magnitude of 4096 on, the exponent is 7 and the mantissa wraps round: `linear_to_ulaw(3964) == linear_to_ulaw(8060)`.
- **Legacy encoders.** The encoders of `scripts/generate_fixtures.py` use different scales from the decoder's tables.

## Model

| member | source | states |
|---|---|---|
| Bytes.FromLe | src/wasm/src/decoder.c:75-78 | the unsigned little-endian value of w bytes is below 256^w |
| Bytes.LeBytes | scripts/gen-wav-fixtures.py:133-139 | the w little-endian digits of a value that fits w bytes have length w and read back as the value |
| Bytes.LeBytesFromLe | scripts/gen-wav-fixtures.py:133-139 | digits are determined by their value: packing what was read gives the same bytes |
| Bytes.Reverse | scripts/gen-wav-fixtures.py:128 | the '>' byte order is the '<' digits reversed, element by element |
| Bytes.ReverseReverse | scripts/gen-wav-fixtures.py:128 | reversing twice restores the bytes |
| Bytes.FromBytes | scripts/gen-wav-fixtures.py:128 | int.from_bytes of an unsigned field in either order is below 256^w |
| Bytes.UBytes | scripts/gen-wav-fixtures.py:133-139 | an unsigned field in byte order e has exactly w bytes |
| Bytes.UBytesValue | scripts/gen-wav-fixtures.py:133-139 | an unsigned field reads back as its value in the same byte order |
| Bytes.PackUnsigned | scripts/gen-wav-fixtures.py:133-139 | struct.pack with 'B'/'H'/'I' succeeds exactly when the value fits the field, and then gives w bytes that read back as the value |
| Bytes.SignedFromBytes | scripts/gen-wav-fixtures.py:170-171 | the two's-complement value of w bytes lies in [-2^(8w-1), 2^(8w-1)) |
| Bytes.PackSigned | scripts/gen-wav-fixtures.py:170-171 | struct.pack 'h'/'i' and int.to_bytes(signed=True) succeed exactly when the value fits, and then read back as the value |
| Bytes.U16 | scripts/gen-wav-fixtures.py:133-137 | an 'H' field is 2 bytes |
| Bytes.U32 | scripts/gen-wav-fixtures.py:139-141 | an 'I' field is 4 bytes |
| Bytes.U16Value | scripts/gen-wav-fixtures.py:133-137 | an 'H' field reads back as its value |
| Bytes.U32Value | scripts/gen-wav-fixtures.py:139-141 | an 'I' field reads back as its value |
| Bytes.Ascii | scripts/gen-wav-fixtures.py:129 | a bytes literal such as b"RIFF" holds the code of each character, in order |
| Bytes.Repeat | scripts/gen_evil_wav_fixtures.py:16 | b'\x00' * n is n copies of the byte |
| Bytes.Flip5 | src/wasm/src/decoder.c:53 | XOR with 5 keeps a nibble a nibble and keeps its top bit |
| Bytes.Flip5Twice | src/wasm/src/decoder.c:53 | XOR with 5 twice restores the nibble |
| Bytes.Flip5Bits | src/wasm/src/decoder.c:53 | XOR with 5 flips bits 0 and 2 of a nibble and keeps bits 1 and 3 |
| Bytes.Xor55 | src/wasm/src/decoder.c:53 | x ^ 0x55 has bit 7 set exactly when x has |
| Bytes.Xor55Involution | src/wasm/src/decoder.c:53 | the mask 0x55 undoes itself |
| Bytes.ByteSink.constructor | scripts/gen_evil_wav_fixtures.py:8 | a file just opened with 'wb' is empty |
| Bytes.ByteSink.Write | scripts/gen_evil_wav_fixtures.py:9-10 | f.write appends exactly its bytes to what the file holds |
| DecoderHeader.ReadI24Le | src/wasm/src/decoder.c:70-73 | read_i24_le lies in [-8388608, 8388607] and is negative exactly when bit 7 of p[2] is set |
| DecoderHeader.ReadersValue | src/wasm/src/decoder.c:70-82 | read_u16_le and read_u32_le give the unsigned little-endian value of their bytes, read_i24_le the signed value of three bytes |
| DecoderHeader.ReadI24LeOfPacked | src/wasm/src/decoder.c:70-73 | three bytes from int.to_bytes(3, 'little', signed=True) read back as the value packed |
| DecoderHeader.CheckBounds | src/wasm/src/decoder.c:84-88 | check_bounds returns 1 exactly when offset + size <= data_size, with no uint32 wrap-around |
| DecoderHeader.CheckFmt | src/wasm/src/decoder.c:129-150 | a `fmt ` chunk is accepted exactly when it declares at least 16 bytes, its fields pass the range checks and, for PCM, block_align and byte_rate are consistent; the header then holds the six fields read |
| DecoderHeader.Padded | src/wasm/src/decoder.c:159 | (size + 1) & ~1 is even and is size or size + 1 |
| DecoderHeader.LoopStep | src/wasm/src/decoder.c:107-162 | every pass that goes on moves the offset at least 8 bytes on and never beyond the buffer end plus a pad byte, so the loop terminates |
| DecoderHeader.LoopStepSound | src/wasm/src/decoder.c:115-163 | one pass keeps the promises of found_fmt/found_data, and success is only returned with both flags set and the header as filled |
| DecoderHeader.FlagsKeep | src/wasm/src/decoder.c:119-125 | a pass that skips a chunk keeps the promises of the flags |
| DecoderHeader.FmtFound | src/wasm/src/decoder.c:128-151 | a pass over a valid `fmt ` chunk keeps the promises, the header now holding that chunk's fields |
| DecoderHeader.DataFound | src/wasm/src/decoder.c:153-157 | a pass over a `data` chunk records its position and size and leaves the `fmt ` fields alone |
| DecoderHeader.WalkSound | src/wasm/src/decoder.c:107-163 | every header the loop accepts comes from a validated `fmt ` chunk and locates a `data` chunk inside the buffer |
| DecoderHeader.PcmByteRateExact | src/wasm/src/decoder.c:145-150 | an accepted PCM header has block_align at most 64, so its uint32 byte_rate equals the exact product sample_rate * block_align |
| DecoderHeader.ParseSound | src/wasm/src/decoder.c:90-164 | parse_header succeeds only on a buffer of at least 44 bytes starting "RIFF" … "WAVE" with a RIFF size in [36, data_size - 8], and then returns 1..8 channels, a rate in 1..384000, block_align != 0, 1..64 bits, data_chunk_pos + data_chunk_size <= data_size, and for PCM block_align == ceil(channels*bits/8) and byte_rate == sample_rate*block_align |
| DecoderHeader.VisitChunk | src/wasm/src/decoder.c:108-161 | the body of the while loop computes the pass LoopStep describes: break, return 0, continue, or the next offset and flags |
| DecoderHeader.ParseHeader | src/wasm/src/decoder.c:90-164 | parse_header's checks and while loop compute Parse, whose properties ParseSound states |
| DecoderTables.AlawMagnitude | src/wasm/src/decoder.c:57 | the integer A-law magnitude lies in [8, 31744] |
| DecoderTables.UlawMagnitude | src/wasm/src/decoder.c:65 | the integer μ-law magnitude ((33 + 2m) << e) - 33 lies in [0, 8031] |
| DecoderTables.ExpandAlaw | src/wasm/src/decoder.c:53-58 | the A-law half of a pass computes the table entry AlawEntry(i) (times 32768) |
| DecoderTables.ExpandUlaw | src/wasm/src/decoder.c:61-66 | the μ-law half of a pass computes UlawEntry(i) (times 8031), taking the fields of ~i |
| DecoderTables.InitDecoder | src/wasm/src/decoder.c:51-67 | after the loop every one of the 256 entries of both tables holds its expansion |
| DecoderTables.AlawMagnitudeStep | src/wasm/src/decoder.c:57 | the A-law magnitude grows strictly from each 7-bit code to the next, across segment boundaries too |
| DecoderTables.UlawMagnitudeStep | src/wasm/src/decoder.c:65 | the μ-law magnitude grows strictly from each 7-bit code to the next |
| DecoderTables.MagnitudesIncreasing | src/wasm/src/decoder.c:51-67 | both magnitudes are strictly increasing in the 7-bit code, so each half of each table is strictly ordered |
| DecoderTables.Xor55TopBit | src/wasm/src/decoder.c:53-54 | XOR with 0x55 commutes with setting bit 7 |
| DecoderTables.AlawEntrySign | src/wasm/src/decoder.c:53-58 | A-law entries below 128 are positive, and entry i + 128 is minus entry i |
| DecoderTables.AlawValueSign | src/wasm/src/decoder.c:54-57 | setting bit 7 of an XOR-ed byte negates its A-law value |
| DecoderTables.UlawEntrySign | src/wasm/src/decoder.c:61-66 | μ-law entries from 128 are non-negative with the magnitude of code 127 - i, and entry i is minus entry i + 128 |
| DecoderIma.ClampI32 | src/wasm/src/decoder.c:455-457 | the result lies in [min, max] and is val itself when val does |
| DecoderIma.ClampNearest | src/wasm/src/decoder.c:455-457 | the clamped value is the point of [min, max] nearest to val |
| DecoderIma.Int16 | src/wasm/src/decoder.c:472 | the (int16_t) cast gives the value in [-32768, 32767] congruent to the 16-bit pattern, negative exactly when bit 15 is set |
| DecoderIma.DiffApproximates | src/wasm/src/decoder.c:479-483 | the difference a nibble adds approximates (2m + 1) * step / 8 from below by less than 3 |
| DecoderIma.IndexTableValue | src/wasm/src/decoder.c:27-30 | IMA_INDEX_TABLE is -1 for magnitudes 0-3 and 2, 4, 6, 8 for 4-7, in both halves |
| DecoderIma.Decode | src/wasm/src/decoder.c:479-486 | after a nibble the predictor stays in [-32768, 32767] and the step index in [0, 88]; the predictor rises for nibbles 0-7 and falls for 8-15; the index moves by the table value and is clamped |
| DecoderIma.DecodeTracks | src/wasm/src/decoder.c:479-485 | away from the rails the predictor moves by the approximated (2m + 1) * step / 8 |
| DecoderIma.StateAfter | src/wasm/src/decoder.c:475-497 | after any number of nibbles the state is still a 16-bit predictor and an index in [0, 88] |
| DecoderIma.Samples | src/wasm/src/decoder.c:487-496 | one sample is written per nibble decoded |
| DecoderIma.SamplesInRange | src/wasm/src/decoder.c:485-494 | every sample written is a 16-bit value |
| DecoderIma.BlockHeader | src/wasm/src/decoder.c:472-473 | a block header gives a valid state: an int16 predictor and the step index byte clamped to [0, 88] |
| DecoderIma.MonoBlock | src/wasm/src/decoder.c:471-499 | a mono block of 4 + spb/2 bytes yields spb samples |
| DecoderIma.StereoBlock | src/wasm/src/decoder.c:517-548 | a stereo block of 8 + spb bytes yields spb samples per channel |
| DecoderIma.MonoSamples | src/wasm/src/decoder.c:471-500 | n mono blocks laid end to end yield n * spb samples |
| DecoderIma.StereoSamples | src/wasm/src/decoder.c:517-549 | n stereo blocks laid end to end yield n * spb samples per channel |
| DecoderIma.Overwrite | src/wasm/src/decoder.c:487-496 | writing a run into an array keeps its length |
| DecoderIma.OverwriteAt | src/wasm/src/decoder.c:487-496 | after the stores, positions p..p+|r| hold the run and every other position what it held before |
| DecoderIma.DecodeNibble | src/wasm/src/decoder.c:479-486 | the mono decoder's nibble code computes Decode |
| DecoderIma.DecodeNibbleSigned | src/wasm/src/decoder.c:527-534 | the stereo decoder's nibble code, with its sign multiplier, computes the same Decode |
| DecoderIma.MonoPairStep | src/wasm/src/decoder.c:476-496 | data byte i of a mono block gives nibbles 2i (low) then 2i + 1 (high) |
| DecoderIma.DecodeMonoPair | src/wasm/src/decoder.c:476-496 | one data byte decodes its low then its high nibble and stores both predictors at pos and pos + 1, nothing else |
| DecoderIma.DecodeMonoData | src/wasm/src/decoder.c:475-497 | the nibble loop writes the block's samples from outPos and leaves the rest of the output alone |
| DecoderIma.DecodeMonoBlock | src/wasm/src/decoder.c:472-497 | one mono block is decoded into output[outPos .. outPos + spb] |
| DecoderIma.MonoSamplesSnoc | src/wasm/src/decoder.c:498-499 | block n + 1 starts where the first n blocks end, in the input and in the output |
| DecoderIma.DecodeMonoBlocks | src/wasm/src/decoder.c:471-500 | the block loop writes the samples of all n blocks from the start of the output, block after block |
| DecoderIma.DecodeImaMono | src/wasm/src/decoder.c:459-501 | nothing is written unless n_blocks > 0, spb > 0 and spb even; otherwise the output holds every block's samples in order and the rest is unchanged |
| DecoderIma.StoreNibble | src/wasm/src/decoder.c:527-535 | one channel's half of a stereo sample decodes its nibble and stores the predictor at pos only |
| DecoderIma.DecodeStereoData | src/wasm/src/decoder.c:523-545 | the sample loop writes the left channel from the low nibbles and the right from the high nibbles |
| DecoderIma.DecodeStereoBlock | src/wasm/src/decoder.c:518-545 | one stereo block, with headers at bytes 0 and 4 and data from byte 8, is decoded into both arrays |
| DecoderIma.StereoSamplesSnoc | src/wasm/src/decoder.c:546-548 | stereo block n + 1 starts 8 + spb bytes per block on, its samples spb per block on |
| DecoderIma.DecodeStereoBlocks | src/wasm/src/decoder.c:517-549 | the block loop writes both channels of all n blocks from the start of each array |
| DecoderIma.DecodeImaStereo | src/wasm/src/decoder.c:503-550 | nothing is written unless n_blocks > 0 and spb > 0; otherwise each array holds its channel's samples and the rest is unchanged |
| DecoderIma.MonoBlockLocal | src/wasm/src/decoder.c:498 | a mono block consumes exactly its 4 + spb/2 bytes: its samples depend on nothing else |
| DecoderIma.StereoBlockLocal | src/wasm/src/decoder.c:546 | a stereo block consumes exactly its 8 + spb bytes |
| G711.Clamp | scripts/gen-wav-fixtures.py:74 | max(lo, min(v, hi)) lies in [lo, hi], is v when v does, and keeps the sign of v when the range straddles 0 |
| G711.AlawSearch | scripts/gen-wav-fixtures.py:81-86 | the boundary loop stops at the first boundary above the magnitude, or runs out at 7 |
| G711.AlawExponent | scripts/gen-wav-fixtures.py:81-86 | the exponent is below 8, every earlier boundary is at most the magnitude, and its own boundary (below 7) is above it |
| G711.AlawFields | scripts/gen-wav-fixtures.py:77-88 | linear_to_alaw's exponent is below 8 and its mantissa below 16 |
| G711.AlawPack | scripts/gen-wav-fixtures.py:89-90 | the packed code has bit 7 set exactly for the non-negative sign |
| G711.AlawCode | scripts/gen-wav-fixtures.py:73-90 | linear_to_alaw returns a byte whose bit 7 is set exactly when the input is >= 0 |
| G711.AlawExponentRange | scripts/gen-wav-fixtures.py:81-87 | from 32 on the exponent is at least 1 and the magnitude lies in [2^(e+4), 2^(e+5)) for exponents 1-6, and from 2048 for exponent 7 |
| G711.AlawMantissaTwoValues | scripts/gen-wav-fixtures.py:87-88 | for magnitudes 32-2047 the shift leaves mantissa 2 or 3 only |
| G711.AlawCodeWraps | scripts/gen-wav-fixtures.py:87-88 | the four-bit mantissa wraps from 4096 on: 4096 and 20480 (and their negatives) get the same code |
| G711.AlawDecodesReversed | scripts/gen-wav-fixtures.py:73-90 | the decoder's table gives back the encoder's exponent and mantissa with the sign reversed |
| G711.AlawPackDecodes | src/wasm/src/decoder.c:53-57 | a packed exponent and mantissa expand to that magnitude, negative for the non-negative sign |
| G711.AlawCodeDecodes | src/wasm/src/decoder.c:53-57 | the XOR with 0x55 in the encoder and in the decoder cancel, and bit 7 only flips the sign |
| G711.CodeFields | scripts/gen-wav-fixtures.py:89 | (exponent << 4) \| mantissa is a 7-bit code that splits back into the two |
| G711.UlawSearch | scripts/gen-wav-fixtures.py:97 | the downward search stops at an exponent whose threshold the biased magnitude reaches, every larger one not reached |
| G711.UlawExponent | scripts/gen-wav-fixtures.py:97 | the generator expression never runs dry: the exponent is below 8, reached, and the next threshold is not |
| G711.UlawBiased | scripts/gen-wav-fixtures.py:96 | the biased magnitude lies in [132, 32767] |
| G711.UlawFields | scripts/gen-wav-fixtures.py:97-98 | the exponent is below 8 and the mantissa below 16 |
| G711.UlawPack | scripts/gen-wav-fixtures.py:95-99 | the packed code has bit 7 set exactly for a negative input |
| G711.UlawCode | scripts/gen-wav-fixtures.py:92-99 | linear_to_ulaw returns a byte whose bit 7 is set exactly when the input is negative |
| G711.UlawCodeWraps | scripts/gen-wav-fixtures.py:97-98 | with the threshold 1 << (exp + 5), 3964 and 8060 get the same code |
| G711.UlawDecodesReversed | scripts/gen-wav-fixtures.py:92-99 | the decoder's μ-law table gives back the encoder's fields with the sign reversed |
| G711.UlawPackDecodes | src/wasm/src/decoder.c:61-65 | a packed exponent and mantissa expand to that magnitude, non-positive for a non-negative input |
| RiffLayout.RiffTag | scripts/gen-wav-fixtures.py:129 | the container tag is 4 bytes: "RIFF" for little-endian, "RIFX" otherwise |
| RiffLayout.ChunkHeader | scripts/gen-wav-fixtures.py:139 | struct.pack('4sI') is 8 bytes starting with the id |
| RiffLayout.FmtBody | scripts/gen-wav-fixtures.py:133-137 | the 'HHIIHH' body is 16 bytes |
| RiffLayout.ReadU16Of | src/wasm/src/decoder.c:80-82 | read_u16_le of a packed '<H' field gives its value |
| RiffLayout.ReadU32Of | src/wasm/src/decoder.c:75-78 | read_u32_le of a packed '<I' field gives its value |
| RiffLayout.ReadChunkHeader | src/wasm/src/decoder.c:111-113 | the decoder reads a packed little-endian chunk header as its id and size |
| RiffLayout.ReadFmtBody | src/wasm/src/decoder.c:131-136 | the decoder's six field reads of a packed little-endian body give the six packed values |
| RiffLayout.StepOverFmt | src/wasm/src/decoder.c:128-161 | a packed valid `fmt ` chunk sets found_fmt, records its fields and advances past its padded size |
| RiffLayout.StepOverData | src/wasm/src/decoder.c:153-161 | a packed `data` chunk in bounds sets found_data, records position and size and advances |
| RiffLayout.StepOverOther | src/wasm/src/decoder.c:159-161 | a packed chunk of another id in bounds is stepped over, nothing recorded |
| SampleStream.EncodeAll | scripts/gen-wav-fixtures.py:164-174 | a run of samples is written in full exactly when every one of them can be packed |
| SampleStream.EncodeAllConcat | scripts/gen-wav-fixtures.py:164-174 | encoding a run in two parts gives the two encodings one after the other |
| SampleStream.EncodeAllParts | scripts/gen-wav-fixtures.py:164-174 | both parts of a run that encodes do encode, and their bytes concatenate |
| SampleStream.WriteFrame | scripts/gen-wav-fixtures.py:167-174 | the channel loop appends the frame's samples and stops exactly at the first one that raises |
| SampleStream.FrameStep | scripts/gen-wav-fixtures.py:164-167 | samples are visited frame-major: frame i's samples follow all earlier frames |
| SampleStream.FramesStep | scripts/gen-wav-fixtures.py:164-174 | one pass of the frame loop extends the written prefix by a whole frame, or stops at the failing sample |
| SampleStream.WriteFrames | scripts/gen-wav-fixtures.py:164-174 | the nested loops append the samples in frame-major order and stop at the first one that raises; the file gains exactly EncodePrefix of the samples |
| SampleStream.EncodePrefix | scripts/gen-wav-fixtures.py:164-174 | what the loops leave in the file; for a run that encodes in full it is the whole encoding |
| SampleStream.EncodePrefixAt | scripts/gen-wav-fixtures.py:164-174 | when the first k samples encode and sample k raises (or there is none), the file gains exactly the bytes of those k samples |
| SampleStream.PayloadLength | scripts/gen-wav-fixtures.py:158 | frames of `channels` samples of w bytes fill frames * channels * w bytes, the declared data size |
| SampleStream.RunLength | scripts/gen-wav-fixtures.py:158 | a run of samples of w bytes each fills |s| * w bytes |
| GenWavFixtures.SearchBoundaries | scripts/gen-wav-fixtures.py:81-86 | the for loop with break computes the exponent AlawExponent names |
| GenWavFixtures.AlawFieldsOf | scripts/gen-wav-fixtures.py:77-88 | the exponent and mantissa branches compute AlawFields |
| GenWavFixtures.LinearToAlaw | scripts/gen-wav-fixtures.py:73-90 | linear_to_alaw computes AlawCode, whose sign, range and decoding the G711 lemmas state |
| GenWavFixtures.Decimal | scripts/gen-wav-fixtures.py:105 | the decimal text of a count is a non-empty string of digits |
| GenWavFixtures.DecimalRoundTrip | scripts/gen-wav-fixtures.py:105 | the digits read back as the number |
| GenWavFixtures.IntText | scripts/gen-wav-fixtures.py:105 | str(n) is never empty |
| GenWavFixtures.DecimalInjective | scripts/gen-wav-fixtures.py:105 | different numbers have different digits |
| GenWavFixtures.IntTextInjective | scripts/gen-wav-fixtures.py:105 | different integers have different str() texts |
| GenWavFixtures.IntTextSign | scripts/gen-wav-fixtures.py:105 | str(n) starts with '-' exactly when n is negative |
| GenWavFixtures.NumberedNotNamed | scripts/gen-wav-fixtures.py:105 | "<n>ch" is never "mono" or "stereo" |
| GenWavFixtures.ChannelStrInjective | scripts/gen-wav-fixtures.py:104-105 | channel_str gives different channel counts different names |
| GenWavFixtures.EndianNameAgrees | scripts/gen-wav-fixtures.py:106-107 | the name says "le" exactly when the file is little-endian, which is exactly when its tag is "RIFF" |
| GenWavFixtures.FormatTagsAgree | scripts/gen-wav-fixtures.py:108 | FORMAT_TAGS maps the four codecs to the decoder's WAVE_FORMAT values 1, 3, 6, 7, no two alike |
| GenWavFixtures.Lower | scripts/gen-wav-fixtures.py:151 | str.lower keeps the length and lowers each character |
| GenWavFixtures.ContainsFromIff | scripts/gen-wav-fixtures.py:152 | the substring scan finds t exactly when t occurs at some position |
| GenWavFixtures.AnyPatternIff | scripts/gen-wav-fixtures.py:152 | any(...) holds exactly when some lowered pattern occurs in the lowered name |
| GenWavFixtures.MatchesIff | scripts/gen-wav-fixtures.py:149-152 | matches is true for an empty pattern list and otherwise exactly when some pattern is a case-insensitive substring of the name |
| GenWavFixtures.LowerIdempotent | scripts/gen-wav-fixtures.py:151 | lowering twice is lowering once |
| GenWavFixtures.MatchesIgnoresCase | scripts/gen-wav-fixtures.py:149-152 | the filter gives the same answer for the name and its lower-cased form |
| GenWavFixtures.MatchesMorePatterns | scripts/gen-wav-fixtures.py:149-152 | a name accepted by a non-empty list stays accepted when patterns are added |
| GenWavFixtures.EmptyPatternMatches | scripts/gen-wav-fixtures.py:149-152 | an empty pattern in the list accepts every name |
| GenWavFixtures.Manifest.constructor | scripts/gen-wav-fixtures.py:36 | MANIFEST starts empty |
| GenWavFixtures.Manifest.Record | scripts/gen-wav-fixtures.py:110-120 | record_manifest sets the entry for fname, replacing any earlier one, and leaves every other entry as it was |
| GenWavFixtures.FmtChunk | scripts/gen-wav-fixtures.py:131-137 | the `fmt ` chunk is 8 + 18 bytes for tags 6 and 7 and 8 + 16 otherwise |
| GenWavFixtures.FactChunk | scripts/gen-wav-fixtures.py:138 | a 12-byte `fact` chunk is present exactly when the tag is not 1 and a count is given, otherwise nothing |
| GenWavFixtures.Chunks | scripts/gen-wav-fixtures.py:133-139 | the three chunk headers together take 16 + fmt size (+ 12 with `fact`) bytes |
| GenWavFixtures.HeaderAssembly | scripts/gen-wav-fixtures.py:133-144 | the declared size is 4 + len(fmt_hdr) + len(fact) + len(data_hdr) + data_size, the header is written exactly when that fits 'I', and it is tag, size, "WAVE", then the chunks |
| GenWavFixtures.PackChunks | scripts/gen-wav-fixtures.py:133-139 | the three struct.pack calls succeed exactly when every field fits, and give the three chunk headers |
| GenWavFixtures.WriteRest | scripts/gen-wav-fixtures.py:141-144 | the writes after the tag append the size, "WAVE", `fmt `, the `fact` chunk when non-empty, and the `data` header |
| GenWavFixtures.WritePieces | scripts/gen-wav-fixtures.py:140-144 | the tag is written, then the size raises unless it fits; on success the whole header follows |
| GenWavFixtures.WriteWavHeader | scripts/gen-wav-fixtures.py:125-144 | write_wav_header completes exactly when every field fits, and then appends the header; if a chunk pack raises nothing is written, if only the size does, just the tag |
| GenWavFixtures.HeaderLayout | scripts/gen-wav-fixtures.py:128-142 | the tag and RIFF size sit at 0 and 4 in the file's byte order, "WAVE" at 8, the `fmt ` header at 12 with its fields at 20 |
| GenWavFixtures.HeaderTailLayout | scripts/gen-wav-fixtures.py:138-144 | the `fact` chunk with the count follows the `fmt ` chunk when emitted, and the `data` header ends the header |
| GenWavFixtures.RiffSizeCounts | scripts/gen-wav-fixtures.py:141 | the declared RIFF size is the file length minus 8 once data_size payload bytes follow |
| GenWavFixtures.HeaderPieces | scripts/gen-wav-fixtures.py:128-144 | the header is the concatenation of its nine pieces, the zero word for tags 6/7 and the `fact` chunk only when emitted |
| GenWavFixtures.SineSampleWidth | scripts/gen-wav-fixtures.py:168-174 | for the configuration table's pairs every sine sample written fills bit_depth / 8 bytes |
| GenWavFixtures.SweepSampleWidth | scripts/gen-wav-fixtures.py:192-195 | sweep samples are 2, 3 or 4 bytes for PCM and 4 or 8 otherwise, so bits / 8 only for the sweep table's pairs |
| GenWavFixtures.Sample24ReadsBack | scripts/gen-wav-fixtures.py:170 | a 24-bit sample is always written, clamped to [-8388608, 8388607], and read_i24_le gives back the clamped value |
| GenWavFixtures.Sample16RoundTrip | scripts/gen-wav-fixtures.py:171 | a 16-bit sample is written exactly when it fits 'h', and reads back as itself in its byte order |
| GenWavFixtures.Frame | scripts/gen-wav-fixtures.py:167 | a frame holds one sample per channel, none for a channel count of 0 or less |
| GenWavFixtures.Frames | scripts/gen-wav-fixtures.py:164-167 | one frame per sample value, in order |
| GenWavFixtures.WriteSineSamples | scripts/gen-wav-fixtures.py:164-174 | the frame loop completes exactly when every sample packs, and then has appended the whole payload; in every case it appends the samples before the first that raises |
| GenWavFixtures.WriteSineFixture | scripts/gen-wav-fixtures.py:156-175 | an unknown codec raises before writing; a filtered name is skipped; otherwise the file gains nothing if a chunk does not pack, the tag alone if the RIFF size does not, and otherwise the header (with `fact` for non-PCM) and the samples before the first that raises; the manifest gains the entry exactly when the file is complete |
| GenWavFixtures.WriteSweepSamples | scripts/gen-wav-fixtures.py:187-195 | the sweep's frame loop completes exactly when every sample packs, and then has appended the payload; in every case it appends the samples before the first that raises |
| GenWavFixtures.WriteSweepFixture | scripts/gen-wav-fixtures.py:179-196 | as for the sine fixtures, with no `fact` chunk and `channels` values per frame: every outcome, including the tag-only and header-plus-prefix files a raise leaves |
| GenWavFixtures.SweepTagAgrees | scripts/gen-wav-fixtures.py:181 | the sweep's tag, with "float" special-cased, is the table's for every codec |
| FixtureParse.DecodableFits | src/wasm/src/decoder.c:138-150 | a configuration in the decoder's ranges with whole bytes per sample packs without error and passes parse_header's field and PCM checks |
| FixtureParse.AlignBounds | src/wasm/src/decoder.c:146-148 | the writers' channels * (bits // 8) is the decoder's (channels*bits + 7)/8, at most 64 |
| FixtureParse.HeaderLengthBound | scripts/gen-wav-fixtures.py:141 | with chunks that fit and a payload within 100 MB, the RIFF size fits 'I' |
| FixtureParse.ParseReachesLoop | src/wasm/src/decoder.c:91-105 | a buffer of 44+ bytes with both signatures and RIFF size = length - 8 passes the checks before the loop |
| FixtureParse.ParseRejectsRiffSize | src/wasm/src/decoder.c:97-100 | a RIFF size below 36 or above length - 8 is refused |
| FixtureParse.WalkGoesOn | src/wasm/src/decoder.c:107-162 | a pass that goes on leaves the rest of the parse to the next state |
| FixtureParse.WalkStops | src/wasm/src/decoder.c:163 | once both chunks are found the loop ends and the header is returned |
| FixtureParse.WalkOverFmt | src/wasm/src/decoder.c:128-161 | a valid 16- or 18-byte `fmt ` chunk at 12 is read and stepped over |
| FixtureParse.WalkOverFact | src/wasm/src/decoder.c:159-161 | a 4-byte `fact` chunk is stepped over by 12 bytes |
| FixtureParse.WalkOverData | src/wasm/src/decoder.c:153-163 | a `data` chunk running to the end ends the parse with its position and size |
| FixtureParse.FileLayout | scripts/gen-wav-fixtures.py:125-144 | the bytes the decoder reads in a written file: signatures, RIFF size = length - 8, the chunk headers and `fmt ` fields at their offsets |
| FixtureParse.WalkAccepts | src/wasm/src/decoder.c:107-163 | the chunk loop over a written file finds `fmt `, steps over `fact`, finds `data` and returns the written fields |
| FixtureParse.ParseAcceptsHeader | scripts/gen-wav-fixtures.py:125-144 | parse_header accepts every little-endian file write_wav_header writes for a decodable configuration, returning the written fields with data_size bytes of samples right after the header |
| FixtureParse.ParseRefusesRifx | scripts/gen-wav-fixtures.py:129 | every big-endian (RIFX) file the writer produces is refused at the signature check |
| FixtureParse.Header44 | scripts/generate_wav_fixtures.py:230-233 | the plain header with a 16-byte `fmt ` and no `fact` chunk is 44 bytes |
| FixtureParse.PlainHeaderIs44 | scripts/gen-wav-fixtures.py:131-141 | for tags other than 6/7 and no `fact` chunk, write_wav_header writes the plain header with RIFF size 36 + data_size |
| FixtureParse.Header44Layout | scripts/generate_fixtures.py:107-117 | where the decoder finds each field of the plain header |
| FixtureParse.Header44Parses | scripts/generate_fixtures.py:105-117 | parse_header accepts a plain little-endian header with RIFF size 36 + data_size for every decodable configuration, samples at 44 |
| FixtureParse.Header44SizeRejected | src/wasm/src/decoder.c:97-100 | a plain header whose RIFF size is below 36 or beyond the length - 8 is refused |
| GenerateFixtures.SegmentValue | scripts/generate_fixtures.py:36-51 | the segment value is in [0, 127] |
| GenerateFixtures.LegacyAlaw | scripts/generate_fixtures.py:26-53 | the code has bit 7 set exactly when the input is >= 0 (XOR with 0xD5 vs 0x55) |
| GenerateFixtures.SegmentValueMonotone | scripts/generate_fixtures.py:36-51 | the segment value never decreases as the magnitude after >> 3 grows |
| GenerateFixtures.LegacyAlawSymmetric | scripts/generate_fixtures.py:28-34 | x >= 0 and -x - 1 get codes that differ in bit 7 only |
| GenerateFixtures.LegacyAlawEntry | scripts/generate_fixtures.py:26-53 | the decoder's A-law table reads a non-negative input's code as minus the magnitude of its segment value |
| GenerateFixtures.SegmentMagnitude | scripts/generate_fixtures.py:36-51 | the A-law magnitude of the segment value of m is between 15m and 16m + 8 below 2048, and 31744 above |
| GenerateFixtures.LegacyAlawDecoded | scripts/generate_fixtures.py:26-53 | the decoder reads a non-negative input x < 16384 back as minus a magnitude between 15(x//8) and 16(x//8) + 8, about -2x, and every larger one as -31744 (code 0xAA) |
| GenerateFixtures.LegacyUlaw | scripts/generate_fixtures.py:56-66 | the code 255 - val lies in [91, 155] |
| GenerateFixtures.LegacyUlawOdd | scripts/generate_fixtures.py:59-64 | opposite inputs get codes symmetric about 123 |
| GenerateFixtures.LegacyUlawMonotone | scripts/generate_fixtures.py:56-66 | the code never increases as the input grows |
| GenerateFixtures.LegacyUlawSignBit | scripts/generate_fixtures.py:56-66 | bit 7 is set exactly for inputs of -5100 and below |
| GenerateFixtures.LegacyUlawDecoded | scripts/generate_fixtures.py:56-66 | the decoder reads every non-negative input back in [-131, -8] and every input <= -5100 in [2591, 8031] |
| GenerateFixtures.BiasedValue | src/wasm/src/decoder.c:61-65 | μ-law bytes 132-164 decode to [-131, -8] |
| GenerateFixtures.ClippedValue | src/wasm/src/decoder.c:61-65 | μ-law bytes 100-127 decode to [2591, 8031] |
| GenerateFixtures.LegacyFormatTag | scripts/generate_fixtures.py:79-88 | "pcm", "float", "alaw", "ulaw" get 1, 3, 6, 7 and any other codec raises |
| GenerateFixtures.LegacySampleWidth | scripts/generate_fixtures.py:124-146 | for the configuration table's pairs every sample written fills bit_depth / 8 bytes |
| GenerateFixtures.Legacy24Raises | scripts/generate_fixtures.py:131-132 | a 24-bit sample is written exactly when it fits three signed bytes (no clamp), reads back through read_i24_le, and raises above 8388607 where the other scripts clamp |
| GenerateFixtures.WriteLegacySamples | scripts/generate_fixtures.py:119-146 | the sample loops complete exactly when every sample packs and then have written the payload; in every case they write the samples before the first that raises |
| GenerateFixtures.LegacyPayloadLength | scripts/generate_fixtures.py:119-146 | a complete payload is num_samples * block_align bytes, data_chunk_size |
| GenerateFixtures.WriteFmtChunk | scripts/generate_fixtures.py:112-114 | the `fmt ` id, size 16 and fields are appended |
| GenerateFixtures.WriteDataHeader | scripts/generate_fixtures.py:116-117 | the `data` id and data_chunk_size are appended |
| GenerateFixtures.WriteLegacyRest | scripts/generate_fixtures.py:109-117 | after the tag: file_size, "WAVE", the `fmt ` chunk and the `data` header |
| GenerateFixtures.WriteLegacyHeader | scripts/generate_fixtures.py:108-117 | the tag is written, then file_size raises unless it fits 32 bits; on success the plain header follows |
| GenerateFixtures.DataChunkSize | scripts/generate_fixtures.py:104 | num_samples * block_align is non-negative once block_align is |
| GenerateFixtures.GenerateWav | scripts/generate_fixtures.py:69-146 | an unknown codec or an unpackable field raises before writing; an oversized file_size after the tag; otherwise the file is the plain 44-byte header with RIFF size 36 + data_chunk_size, then the samples before the first that raises (all of them on success) |
| GenerateFixtures.LegacyFileSize | scripts/generate_fixtures.py:105 | file_size = 4 + (8+16) + (8+data_chunk_size) is the file length - 8 |
| GenerateFixtures.LegacyFileParses | scripts/generate_fixtures.py:90-117 | parse_header accepts every complete little-endian file of a decodable configuration, A-law and μ-law with their 16-byte `fmt ` included |
| GenerateFixtures.LegacyHeaderAgrees | scripts/generate_fixtures.py:97-117 | for PCM and float the header equals write_wav_header's without `fact`; for A-law/μ-law it lacks the 2-byte extension word |
| GenerateWavFixtures.UlawExponentUnique | scripts/generate_wav_fixtures.py:68-72 | the exponent the for loop breaks at is the one UlawExponent names |
| GenerateWavFixtures.LinearToUlaw | scripts/generate_wav_fixtures.py:60-75 | the for/break version of linear_to_ulaw computes the same code as the generator-expression version |
| GenerateWavFixtures.UlawCodeFrom | scripts/generate_wav_fixtures.py:73-75 | the code once the loop has stopped: 16e + mantissa XOR the sign mask |
| GenerateWavFixtures.PackSineFmt | scripts/generate_wav_fixtures.py:105-116 | an 18-byte body ending in a zero word for tags 6/7, 16 bytes otherwise, exactly when the fields fit |
| GenerateWavFixtures.PackSineChunks | scripts/generate_wav_fixtures.py:97-121 | the packs succeed exactly for a known codec with fitting fields, and give write_wav_header's `fmt `, `fact` (carrying num_frames, for every tag but 1) and `data` pieces |
| GenerateWavFixtures.WriteSineFile | scripts/generate_wav_fixtures.py:92-161 | an unknown codec or a chunk that does not pack writes nothing; a size that does not pack leaves the tag; otherwise write_wav_header's header with `fact` for non-PCM, then the samples before the first that raises (all of them on success) |
| GenerateWavFixtures.SinePayloadLength | scripts/generate_wav_fixtures.py:134-161 | per frame the loop writes block_align bytes, so a complete payload is data_size bytes |
| GenerateWavFixtures.SineFileSize | scripts/generate_wav_fixtures.py:122-123 | file_size = 4 + chunks_size is the total bytes written - 8 |
| GenerateWavFixtures.SineFileParses | scripts/generate_wav_fixtures.py:97-133 | parse_header accepts every complete little-endian sine file of a decodable configuration with the configured fields |
| GenerateWavFixtures.SweepTagOf | scripts/generate_wav_fixtures.py:166-172 | only "pcm" and "float" get a tag, the sine table's, with a 16-byte `fmt ` |
| GenerateWavFixtures.PackSweepChunks | scripts/generate_wav_fixtures.py:180-184 | the sweep's 'IHHIIHH' `fmt ` chunk (size 16) and `data` header, exactly when the fields fit |
| GenerateWavFixtures.WriteSweepHeader | scripts/generate_wav_fixtures.py:185-194 | the tag, then the size 4 + chunks_size (raising if it does not fit), "WAVE", `fmt ` and the `data` header |
| GenerateWavFixtures.SweepHeaderPieces | scripts/generate_wav_fixtures.py:180-194 | the sweep header is the plain 44-byte layout with the script's size field |
| GenerateWavFixtures.WriteSweepFile | scripts/generate_wav_fixtures.py:165-214 | a codec with no tag or a chunk that does not pack writes nothing; a size that does not pack leaves the tag; otherwise the sweep header, then the samples before the first that raises, `channels` per frame |
| GenerateWavFixtures.SweepRiffSizeTooLarge | scripts/generate_wav_fixtures.py:185-186 | the sweep's size field is the file length - 4, and parse_header refuses every complete little-endian sweep file |
| GenerateWavFixtures.SweepHeaderOffByFour | scripts/generate_wav_fixtures.py:185-186 | write_wav_header's header for the same configuration differs only in a size field 4 smaller |
| GenerateWavFixtures.SweepCorrectedParses | scripts/generate_wav_fixtures.py:185-186 | with the size 4 + len(fmt) + 8 + data_size the declared size is length - 8 and parse_header accepts the sweep file |
| GenerateWavFixtures.SaveWaveFields | scripts/generate_wav_fixtures.py:227-231 | save_wave's block_align = sampwidth * nchannels and byte_rate = rate * sampwidth * nchannels are write_wav_header's for 8 * sampwidth bits |
| GenerateWavFixtures.PlainWavIsHeader | scripts/generate_wav_fixtures.py:230-234 | the plain file is built exactly when write_wav_header's header fits, and is that header without `fact`, then the data |
| GenerateWavFixtures.SaveWave | scripts/generate_wav_fixtures.py:219-234 | save_wave writes nothing if sampwidth * nchannels is 0 or a field does not fit, and otherwise the PCM header then the data |
| GenerateWavFixtures.SavedWaveParses | scripts/generate_wav_fixtures.py:227-234 | 36 + len(data) is the file length - 8, and parse_header accepts the file with samples at 44 |
| GenerateWavFixtures.FloatWavFile | scripts/generate_wav_fixtures.py:260-267 | write_float_wav_header's file is built exactly when write_wav_header's float header fits, and equals it plus the data |
| GenerateWavFixtures.FloatFileParses | scripts/generate_wav_fixtures.py:260-267 | parse_header accepts the float file for every validated channel count and rate, with no `fact` chunk |
| EvilWavFixtures.RiffHeader | scripts/gen_evil_wav_fixtures.py:19 | struct.pack('<4sI4s', b'RIFF', size, b'WAVE') is 12 bytes |
| EvilWavFixtures.StdFmtPacked | scripts/gen_evil_wav_fixtures.py:15 | std_fmt is the packed body of tag 1, 1 channel, 44100 Hz, 88200 B/s, block 2, 16 bits |
| EvilWavFixtures.StdFmtAccepted | scripts/gen_evil_wav_fixtures.py:15 | the decoder reads those six values from std_fmt and accepts them as consistent PCM |
| EvilWavFixtures.ParseHead | src/wasm/src/decoder.c:91-105 | a 44+ byte file with a RIFF header is refused exactly when its size is out of range, else goes to the loop |
| EvilWavFixtures.ReadFmt | src/wasm/src/decoder.c:128-161 | a `fmt ` chunk of 16+ bytes ends the parse with the reason its fields fail, or the loop goes on with them |
| EvilWavFixtures.StdFmtFirst | src/wasm/src/decoder.c:128-161 | std_fmt as the first chunk is read and stepped over |
| EvilWavFixtures.ShortFmt | src/wasm/src/decoder.c:129 | a `fmt ` chunk declaring fewer than 16 bytes is refused |
| EvilWavFixtures.Overrun | src/wasm/src/decoder.c:115-117 | a `data` chunk running past the buffer is refused |
| EvilWavFixtures.SkipData | src/wasm/src/decoder.c:153-161 | a `data` chunk in bounds is recorded and stepped over |
| EvilWavFixtures.SkipOther | src/wasm/src/decoder.c:159-161 | a chunk whose id is neither `fmt ` nor `data` is stepped over with its pad byte |
| EvilWavFixtures.LoopEnds | src/wasm/src/decoder.c:107 | fewer than 8 bytes left ends the loop |
| EvilWavFixtures.SkipEmpty | src/wasm/src/decoder.c:159-161 | a chunk of size 0 whose id is neither `fmt ` nor `data` moves the loop 8 bytes on |
| EvilWavFixtures.ZeroRun | src/wasm/src/decoder.c:107-163 | over zero bytes the loop steps 8 at a time to the end and returns with the flags it had |
| EvilWavFixtures.FmtThenData | src/wasm/src/decoder.c:90-164 | for RIFF header, 16-byte `fmt `, `data` header: the parse fails at the RIFF size, the fields, or an overrunning `data` chunk, else returns the fields with samples at 44 |
| EvilWavFixtures.FmtThenDataWalk | src/wasm/src/decoder.c:107-163 | the chunk loop of that layout |
| EvilWavFixtures.WithFmt | scripts/gen_evil_wav_fixtures.py:61-89 | the recipes 11-16 are 76 bytes |
| EvilWavFixtures.RiffSizeRejected | scripts/gen_evil_wav_fixtures.py:18-29 | evil_small_riff (20), evil_big_riff (99999) and evil_multi_data_chunks (100 > 76) are refused at the RIFF size check |
| EvilWavFixtures.MultiDataFirstWins | scripts/gen_evil_wav_fixtures.py:26-29 | with a RIFF size in range, the first, empty `data` chunk is the one recorded |
| EvilWavFixtures.OverrunRejected | scripts/gen_evil_wav_fixtures.py:40-43 | evil_truncated (32 declared, 10 present), evil_oversized_chunk (lines 99-102) and evil_float_fmt_int_data (lines 119-123) are refused as out of bounds |
| EvilWavFixtures.BadFormatTagAccepted | scripts/gen_evil_wav_fixtures.py:61-64 | tag 0x99 is not checked: the parse succeeds with that tag |
| EvilWavFixtures.BadBitDepthAccepted | scripts/gen_evil_wav_fixtures.py:81-84 | 13 bits with block_align 2 is consistent for the decoder: accepted |
| EvilWavFixtures.ZeroChannelsRejected | scripts/gen_evil_wav_fixtures.py:66-69 | 0 channels fails the field check |
| EvilWavFixtures.ExtremeChannelsRejected | scripts/gen_evil_wav_fixtures.py:71-74 | 65535 channels fails the field check |
| EvilWavFixtures.ZeroRateRejected | scripts/gen_evil_wav_fixtures.py:76-79 | a sample rate of 0 fails the field check |
| EvilWavFixtures.BadBlockAlignRejected | scripts/gen_evil_wav_fixtures.py:86-89 | block_align 1 for two 16-bit channels fails the PCM check |
| EvilWavFixtures.DataThenFmt | src/wasm/src/decoder.c:107-163 | `data` then `fmt `: the loop takes the chunks in either order |
| EvilWavFixtures.DataFirst | src/wasm/src/decoder.c:153-161 | a `data` chunk at 12 is recorded and stepped over |
| EvilWavFixtures.FmtLast | src/wasm/src/decoder.c:128-163 | a final 16-byte `fmt ` chunk after `data` ends the parse with its fields or their failure |
| EvilWavFixtures.DataBeforeFmtAccepted | scripts/gen_evil_wav_fixtures.py:31-33 | evil_data_before_fmt is accepted with the samples at 20 |
| EvilWavFixtures.NoFmtRejected | scripts/gen_evil_wav_fixtures.py:45-47 | evil_no_fmt_chunk is refused: no `fmt ` chunk |
| EvilWavFixtures.TooShortRejected | scripts/gen_evil_wav_fixtures.py:49-51 | evil_no_data_chunk (36 bytes), evil_empty_file and evil_just_riff (lines 104-108) are refused as shorter than 44 bytes |
| EvilWavFixtures.ZeroFmtSizeRejected | scripts/gen_evil_wav_fixtures.py:53-55 | a `fmt ` chunk of size 0 is refused as too small |
| EvilWavFixtures.TinyFmtParse | scripts/gen_evil_wav_fixtures.py:57-59 | the 8-byte `fmt ` file fails at the RIFF size check, or as too small with a size in range |
| EvilWavFixtures.TinyFmtRejected | scripts/gen_evil_wav_fixtures.py:57-59 | evil_tiny_fmt is refused at its RIFF size 30 |
| EvilWavFixtures.BadHead | src/wasm/src/decoder.c:94-96 | a 44+ byte file not starting "RIFF" … "WAVE" is refused |
| EvilWavFixtures.MixedEndianRejected | scripts/gen_evil_wav_fixtures.py:91-93 | evil_mixed_endian (RIFX) is refused at the signature check |
| EvilWavFixtures.BadWaveSignatureRejected | scripts/gen_evil_wav_fixtures.py:110-112 | "WXYZ" in place of "WAVE" is refused |
| EvilWavFixtures.FmxThenData | scripts/gen_evil_wav_fixtures.py:95-97 | a "fmx " chunk is stepped over, the `data` chunk found, and the parse fails for lack of `fmt ` |
| EvilWavFixtures.FmxWalk | src/wasm/src/decoder.c:107-163 | the chunk loop of that layout ends without `fmt ` |
| EvilWavFixtures.BadChunkIdRejected | scripts/gen_evil_wav_fixtures.py:95-97 | evil_bad_chunk_id is refused: no `fmt ` chunk |
| EvilWavFixtures.OddChunkSizeRejected | scripts/gen_evil_wav_fixtures.py:35-38 | with no pad byte after the 17-byte `fmt `, the loop lands at 38 inside the `data` header, reads "ata!", and the file is refused for lack of `data` |
| EvilWavFixtures.OddParse | scripts/gen_evil_wav_fixtures.py:35-38 | parse_header on any bytes with the layout of evil_odd_chunk_size |
| EvilWavFixtures.OddChunkSizePaddedAccepted | scripts/gen_evil_wav_fixtures.py:35-38 | with the pad byte, the file is accepted with 33 bytes of samples at 46 |
| EvilWavFixtures.PaddedParse | scripts/gen_evil_wav_fixtures.py:35-38 | parse_header on any bytes with the layout of the padded file |
| EvilWavFixtures.NestedRejected | scripts/gen_evil_wav_fixtures.py:114-117 | the LIST chunk declaring 20 of its 16 bytes moves the loop into the `data` header, and the file is refused for lack of `data` |
| EvilWavFixtures.NestedParse | scripts/gen_evil_wav_fixtures.py:114-117 | parse_header on any bytes with the layout of evil_nested_chunks |
| EvilWavFixtures.NestedSizedAccepted | scripts/gen_evil_wav_fixtures.py:114-117 | with the LIST size counted as 16, the loop steps over the LIST chunk onto `data` and accepts the file with 32 bytes of samples at 68 |
| EvilWavFixtures.NestedSizedParse | scripts/gen_evil_wav_fixtures.py:114-117 | parse_header on any bytes with the layout of the corrected file |
| EvilWavFixtures.WriteWav | scripts/gen_evil_wav_fixtures.py:7-11 | the file written holds the header bytes, then the data bytes |

## Left out

- The SIMD block loops and all float arithmetic of the decoder are not modelled. This covers the `decode_pcm*`, `decode_float*`, `decode_alaw*` and `decode_ulaw*` functions, the scale constants and the float division in the tables. The `wasm_*` intrinsics are foreign code, and float rounding is outside the model.
- DecoderTables.InitDecoder: the float tables hold the integer entry divided by 32768 (A-law) or 8031 (μ-law). The model keeps the integer and its sign.
- DecoderIma.DecodeImaMono: the output holds the predictor itself; the decoder stores predictor / 32768 as a float. The predictor sum never leaves int32 (at most 32767 + 61438), so no wrap-around is modelled.
- DecoderIma.DecodeImaStereo: as for the mono decoder, the arrays hold the predictor, not the float.
- DecoderIma.DecodeImaMono requires the input and the output to hold n_blocks blocks. The C function does not check this and reads or writes out of bounds otherwise. The same holds for DecoderIma.DecodeImaStereo.
- The NULL checks in `parse_header` and the IMA guards (`!data`, `!header`, `!in`, `!out`) are not modelled. A Dafny sequence or array is never null.
- DecoderHeader.Parse: the length of the sequence stands for `data_size` and is at most 2^32 - 1. On rejection, the partly filled `WavHeader` the C function leaves behind is not modelled.
- `src/wasm/src/decoder.h` holds declarations only. The `WavHeader` datatype and the format constants come from it.
- Signal generation is not modelled:
  - `math.sin`, the logarithmic sweep and the float-to-int scaling of samples are left out;
  - integer sample values are inputs, and float samples are inputs as their IEEE-754 bit pattern;
  - the sample count `int(RATE * DURATION_SECONDS)` is the length of the input sequence.
- The numpy exotic files are not modelled, in either `generate_exotic_wavs`. This covers `np.zeros`, `np.linspace`, `np.clip`, `save_pcm16` in `scripts/gen-wav-fixtures.py` and the NaN/Inf float data. The header writing of `save_wave` and `write_float_wav_header` is modelled; their data is an input byte sequence.
- The scripts' I/O and command-line glue is not modelled:
  - `open`, `mkdir` (including the import-time `mkdir` of the evil script) and `print`;
  - `argparse`, `main` and the `json.dump` of the manifest;
  - the unused `GENERATE_IMA_ADPCM` toggle and the `skip` set.
  A file opened for writing is a `ByteSink`.
- The driver loop of `generate_evil_wavs` is not modelled. Each recipe is a constant file: header bytes followed by data bytes.
- The file names of `scripts/generate_fixtures.py` and `scripts/generate_wav_fixtures.py` are not modelled. Their `channel_str` and `endian_str` behave as those of `scripts/gen-wav-fixtures.py`, which GenWavFixtures.ChannelStr and GenWavFixtures.EndianStr model.
- `linear_to_alaw` of `scripts/generate_wav_fixtures.py` is word for word that of `scripts/gen-wav-fixtures.py`, and GenWavFixtures.LinearToAlaw models both.
- GenWavFixtures.Lower: only ASCII letters are lowered. Python's `str.lower` also lowers other Unicode letters.

## Findings

| source | as written | input that shows it | evidently intended | confidence | as-written member | corrected member |
|---|---|---|---|---|---|---|
| scripts/generate_wav_fixtures.py:185 | `chunks_size` adds 4 bytes that the file does not hold, so the sweep's RIFF size is the file length minus 4 | the 16-bit stereo PCM sweep with 44100 frames: 176444 bytes, size field 176440, while `parse_header` allows at most 176436 | the size write_wav_header declares, 4 + len(fmt) + 8 + data_size, the file length minus 8 | not executed | GenerateWavFixtures.SweepRiffSizeTooLarge | GenerateWavFixtures.SweepCorrectedParses |
| scripts/gen_evil_wav_fixtures.py:36 | the `fmt ` chunk declares 17 bytes and carries 17 with no pad byte, so the next chunk starts at an odd offset the parser never visits | evil_odd_chunk_size.wav itself: the loop reads "ata!" at 38 and refuses the file for lack of a `data` chunk | a padded odd chunk ("odd chunk sizes with padding"), which `parse_header` accepts with 33 bytes of samples at 46 | not executed | EvilWavFixtures.OddChunkSizeRejected | EvilWavFixtures.OddChunkSizePaddedAccepted |
| scripts/gen_evil_wav_fixtures.py:115 | the LIST chunk declares 20 bytes but holds 16 ("INFO" and a 12-byte RIFF header, which itself declares 8 and holds 4), so the walk steps over 4 bytes of the `data` header | evil_nested_chunks.wav itself: the loop lands at 64 inside the `data` header and refuses the file for lack of a `data` chunk, so no nested chunk is reached | a LIST size of 16, which `parse_header` accepts with 32 bytes of samples at 68 | not executed | EvilWavFixtures.NestedRejected | EvilWavFixtures.NestedSizedAccepted |
