/** The integer core of the IMA ADPCM decoders: per nibble, the predictor and
    the step index are updated from the step and index tables of the IMA
    Recommended Practices for Enhancing Digital Audio Compatibility (1992).
    The decoders store predictor / 32768 as a float; here the output arrays
    hold the predictor itself. */
module DecoderIma {
  import opened Bytes

  type Nibble = x: int | 0 <= x < 16
  type StepSize = x: int | 7 <= x <= 32767 witness 7

  /** IMA_STEP_TABLE: the 89 quantizer step sizes. */
  const StepTable: seq<StepSize> := [
    7, 8, 9, 10, 11, 12, 13, 14, 16, 17, 19, 21, 23, 25, 28, 31, 34, 37, 41, 45,
    50, 55, 60, 66, 73, 80, 88, 97, 107, 118, 130, 143, 157, 173, 190, 209, 230,
    253, 279, 307, 337, 371, 408, 449, 494, 544, 598, 658, 724, 796, 876, 963,
    1060, 1166, 1282, 1411, 1552, 1707, 1878, 2066, 2272, 2499, 2749, 3024, 3327,
    3660, 4026, 4428, 4871, 5358, 5894, 6484, 7132, 7845, 8630, 9493, 10442,
    11487, 12635, 13899, 15289, 16818, 18500, 20350, 22385, 24623, 27086, 29794,
    32767
  ]

  /** IMA_INDEX_TABLE: the step-index adjustment for each nibble. */
  const IndexTable: seq<int> := [
    -1, -1, -1, -1, 2, 4, 6, 8,
    -1, -1, -1, -1, 2, 4, 6, 8
  ]

  function Abs(x: int): nat { if x < 0 then -x else x }

  /** clamp_i32: val itself when it lies in [min, max], otherwise the bound it passed. */
  function ClampI32(val: int, min: int, max: int): (r: int)
    ensures min <= max ==> min <= r <= max
    ensures min <= val <= max ==> r == val
  {
    if val < min then min else if val > max then max else val
  }

  /** The clamped value is the point of [min, max] nearest to val. */
  lemma ClampNearest(val: int, min: int, max: int, y: int)
    requires min <= y <= max
    ensures Abs(ClampI32(val, min, max) - val) <= Abs(y - val)
  {
  }

  /** The (int16_t) cast of a 16-bit pattern: the int16 value congruent to it. */
  function Int16(v: u16): (r: int)
    ensures -0x8000 <= r < 0x8000 && (v - r) % 0x1_0000 == 0
    ensures r < 0 <==> v >= 0x8000
  {
    if v >= 0x8000 then v - 0x1_0000 else v
  }

  /** The decoding state of one channel: predictor and step index. */
  datatype Channel = Channel(predictor: int, index: int)

  predicate Valid(c: Channel)
  {
    -32768 <= c.predictor <= 32767 && 0 <= c.index <= 88
  }

  /** The difference a nibble adds: step >> 3, plus step, step >> 1 and
      step >> 2 for bits 2, 1 and 0. */
  function Diff(step: StepSize, n: Nibble): nat
  {
    step / 8 + (if n / 4 % 2 == 1 then step else 0)
      + (if n / 2 % 2 == 1 then step / 2 else 0) + (if n % 2 == 1 then step / 4 else 0)
  }

  /** The difference approximates (2m + 1) * step / 8 for the magnitude m
      (the low three bits) from below, by less than 3. */
  lemma DiffApproximates(step: StepSize, n: Nibble)
    ensures 8 * Diff(step, n) <= (2 * (n % 8) + 1) * step < 8 * Diff(step, n) + 24
  {
    DiffBits(step, n / 4 % 2, n / 2 % 2, n % 2);
    assert n % 8 == 4 * (n / 4 % 2) + 2 * (n / 2 % 2) + n % 2;
  }

  lemma DiffBits(step: StepSize, b2: int, b1: int, b0: int)
    requires 0 <= b2 < 2 && 0 <= b1 < 2 && 0 <= b0 < 2
    ensures var d := step / 8 + (if b2 == 1 then step else 0)
      + (if b1 == 1 then step / 2 else 0) + (if b0 == 1 then step / 4 else 0);
      8 * d <= (2 * (4 * b2 + 2 * b1 + b0) + 1) * step < 8 * d + 24
  {
    var q, r := step / 8, step % 8;
    assert step == 8 * q + r && step / 2 == 4 * q + r / 2 && step / 4 == 2 * q + r / 4;
    Distribute(b2, b1, b0, step);
    assert b2 * step == (if b2 == 1 then step else 0);
    assert b1 * step == (if b1 == 1 then step else 0);
    assert b0 * step == (if b0 == 1 then step else 0);
  }

  lemma Distribute(a: int, b: int, c: int, x: int)
    ensures (2 * (4 * a + 2 * b + c) + 1) * x == 8 * (a * x) + 4 * (b * x) + 2 * (c * x) + x
  {
  }

  /** The index table by formula: -1 for magnitudes 0-3, then 2, 4, 6, 8. */
  lemma IndexTableValue(n: Nibble)
    ensures IndexTable[n] == if n % 8 < 4 then -1 else 2 * (n % 8) - 6
  {
    assert n in {0, 1, 2, 3, 4, 5, 6, 7, 8, 9, 10, 11, 12, 13, 14, 15};
  }

  /** One nibble of the decoder: the predictor moves by the difference, up for
      nibbles 0-7 and down for 8-15, and stays a 16-bit sample; the step index
      drops by one for magnitudes 0-3 and rises by 2, 4, 6 or 8 for 4-7,
      staying in [0, 88]. */
  function Decode(c: Channel, n: Nibble): (r: Channel)
    requires Valid(c)
    ensures Valid(r)
    ensures n < 8 ==> c.predictor <= r.predictor
    ensures n >= 8 ==> r.predictor <= c.predictor
    ensures r.index == if n % 8 < 4 then ClampI32(c.index - 1, 0, 88)
                       else ClampI32(c.index + 2 * (n % 8) - 6, 0, 88)
  {
    IndexTableValue(n);
    var d: int := Diff(StepTable[c.index], n);
    Channel(ClampI32(c.predictor + (if n >= 8 then -d else d), -32768, 32767),
            ClampI32(c.index + IndexTable[n], 0, 88))
  }

  /** Away from the rails, the predictor moves by the difference itself. */
  lemma DecodeTracks(c: Channel, n: Nibble)
    requires Valid(c)
    requires -32768 < Decode(c, n).predictor < 32767
    ensures var delta := Abs(Decode(c, n).predictor - c.predictor);
      8 * delta <= (2 * (n % 8) + 1) * StepTable[c.index] < 8 * delta + 24
  {
    DiffApproximates(StepTable[c.index], n);
  }

  /** Where the nibbles of a block's data bytes come from: a mono block takes
      the low nibble and then the high nibble of each byte; in a stereo block
      the left channel takes the low nibble of each byte and the right channel
      the high nibble. */
  datatype Layout = Mono | Left | Right

  function NibbleCount(bs: seq<byte>, layout: Layout): nat
  {
    if layout == Mono then 2 * |bs| else |bs|
  }

  /** Nibble k of the data bytes bs in the given layout. */
  function NibbleAt(bs: seq<byte>, layout: Layout, k: nat): Nibble
    requires k < NibbleCount(bs, layout)
  {
    match layout
    case Mono => if k % 2 == 0 then bs[k / 2] % 16 else bs[k / 2] / 16
    case Left => bs[k] % 16
    case Right => bs[k] / 16
  }

  /** The channel state after the first k nibbles, starting from c. */
  function StateAfter(c: Channel, bs: seq<byte>, layout: Layout, k: nat): (r: Channel)
    requires Valid(c) && k <= NibbleCount(bs, layout)
    ensures Valid(r)
  {
    if k == 0 then c else Decode(StateAfter(c, bs, layout, k - 1), NibbleAt(bs, layout, k - 1))
  }

  /** The samples written for the first k nibbles: the predictor after each. */
  function Samples(c: Channel, bs: seq<byte>, layout: Layout, k: nat): (r: seq<int>)
    requires Valid(c) && k <= NibbleCount(bs, layout)
    ensures |r| == k
  {
    if k == 0 then [] else Samples(c, bs, layout, k - 1) + [StateAfter(c, bs, layout, k).predictor]
  }

  /** Every sample is a 16-bit value. */
  lemma {:induction false} SamplesInRange(c: Channel, bs: seq<byte>, layout: Layout, k: nat)
    requires Valid(c) && k <= NibbleCount(bs, layout)
    ensures forall j :: 0 <= j < k ==> -32768 <= Samples(c, bs, layout, k)[j] <= 32767
  {
    if k > 0 {
      SamplesInRange(c, bs, layout, k - 1);
      var r, t := Samples(c, bs, layout, k - 1), Samples(c, bs, layout, k);
      assert t == r + [StateAfter(c, bs, layout, k).predictor];
      forall j | 0 <= j < k - 1 ensures t[j] == r[j] {
      }
    }
  }

  /** A block header at p: the int16 predictor in bytes p and p + 1
      (little-endian) and the step index in byte p + 2, clamped to [0, 88]. */
  function BlockHeader(data: seq<byte>, p: nat): (c: Channel)
    requires p + 3 <= |data|
    ensures Valid(c)
  {
    Channel(Int16(data[p] as int + 256 * data[p + 1] as int), ClampI32(data[p + 2], 0, 88))
  }

  /** A mono block of spb samples occupies 4 header bytes and spb / 2 data bytes. */
  function MonoBlockSize(spb: nat): nat { 4 + spb / 2 }

  /** A stereo block of spb sample pairs occupies 8 header bytes and spb data bytes. */
  function StereoBlockSize(spb: nat): nat { 8 + spb }

  /** The spb samples of the mono block at p. */
  function MonoBlock(data: seq<byte>, p: nat, spb: nat): (r: seq<int>)
    requires spb % 2 == 0 && p + MonoBlockSize(spb) <= |data|
    ensures |r| == spb
  {
    Samples(BlockHeader(data, p), data[p + 4 .. p + MonoBlockSize(spb)], Mono, spb)
  }

  function ChannelLayout(ch: nat): Layout { if ch == 0 then Left else Right }

  /** The spb samples of channel ch (0 left, 1 right) of the stereo block at p:
      the header at p + 4 * ch and one nibble of each data byte. */
  function StereoBlock(data: seq<byte>, p: nat, spb: nat, ch: nat): (r: seq<int>)
    requires ch < 2 && p + StereoBlockSize(spb) <= |data|
    ensures |r| == spb
  {
    Samples(BlockHeader(data, p + 4 * ch), data[p + 8 .. p + StereoBlockSize(spb)], ChannelLayout(ch), spb)
  }

  /** n blocks of b bytes (or samples) each, laid end to end: n * b, built by
      addition (SpanIsProduct). */
  function Span(n: nat, b: nat): nat
  {
    if n == 0 then 0 else Span(n - 1, b) + b
  }

  lemma {:induction false} SpanIsProduct(n: nat, b: nat)
    ensures Span(n, b) == n * b
  {
    if n > 0 {
      SpanIsProduct(n - 1, b);
    }
  }

  lemma {:induction false} SpanMono(m: nat, n: nat, b: nat)
    requires m <= n
    ensures Span(m, b) <= Span(n, b)
    decreases n - m
  {
    if m < n {
      SpanMono(m, n - 1, b);
    }
  }

  /** The samples of the first nBlocks mono blocks, block after block. */
  function MonoSamples(data: seq<byte>, nBlocks: nat, spb: nat): (r: seq<int>)
    requires spb % 2 == 0 && Span(nBlocks, MonoBlockSize(spb)) <= |data|
    ensures |r| == Span(nBlocks, spb)
  {
    if nBlocks == 0 then []
    else MonoSamples(data, nBlocks - 1, spb) + MonoBlock(data, Span(nBlocks - 1, MonoBlockSize(spb)), spb)
  }

  /** The samples of channel ch over the first nBlocks stereo blocks. */
  function StereoSamples(data: seq<byte>, nBlocks: nat, spb: nat, ch: nat): (r: seq<int>)
    requires ch < 2 && Span(nBlocks, StereoBlockSize(spb)) <= |data|
    ensures |r| == Span(nBlocks, spb)
  {
    if nBlocks == 0 then []
    else StereoSamples(data, nBlocks - 1, spb, ch) + StereoBlock(data, Span(nBlocks - 1, StereoBlockSize(spb)), spb, ch)
  }

  /** s with r written over it from position p on, one element after the
      other, as the decoders' stores do. */
  function Overwrite<T>(s: seq<T>, p: nat, r: seq<T>): (t: seq<T>)
    requires p + |r| <= |s|
    ensures |t| == |s|
    decreases |r|
  {
    if |r| == 0 then s else Overwrite(s[p := r[0]], p + 1, r[1..])
  }

  /** What an overwrite leaves: r at positions p to p + |r|, and s at every
      other position. */
  lemma {:induction false} OverwriteAt<T>(s: seq<T>, p: nat, r: seq<T>, k: nat)
    requires p + |r| <= |s| && k < |s|
    ensures Overwrite(s, p, r)[k] == if p <= k < p + |r| then r[k - p] else s[k]
    decreases |r|
  {
    if |r| > 0 {
      OverwriteAt(s[p := r[0]], p + 1, r[1..], k);
    }
  }

  lemma {:induction false} OverwriteSnoc<T>(s: seq<T>, p: nat, r: seq<T>, x: T)
    requires p + |r| < |s|
    ensures Overwrite(s, p, r)[p + |r| := x] == Overwrite(s, p, r + [x])
    decreases |r|
  {
    if |r| == 0 {
      assert r + [x] == [x] && [x][1..] == [];
    } else {
      assert (r + [x])[0] == r[0] && (r + [x])[1..] == r[1..] + [x];
      OverwriteSnoc(s[p := r[0]], p + 1, r[1..], x);
    }
  }

  lemma OverwritePair<T>(s: seq<T>, p: nat, r: seq<T>, x: T, y: T, cur: seq<T>, after: seq<T>)
    requires p + |r| + 1 < |s| && cur == Overwrite(s, p, r) && after == cur[p + |r| := x][p + |r| + 1 := y]
    ensures after == Overwrite(s, p, r + [x] + [y])
  {
    OverwriteSnoc(s, p, r, x);
    OverwriteSnoc(s, p, r + [x], y);
  }

  lemma {:induction false} OverwriteAppend<T>(s: seq<T>, p: nat, a: seq<T>, b: seq<T>)
    requires p + |a| + |b| <= |s|
    ensures Overwrite(Overwrite(s, p, a), p + |a|, b) == Overwrite(s, p, a + b)
    decreases |a|
  {
    if |a| == 0 {
      assert a + b == b;
    } else {
      assert (a + b)[0] == a[0] && (a + b)[1..] == a[1..] + b;
      OverwriteAppend(s[p := a[0]], p + 1, a[1..], b);
    }
  }

  /** A block's samples written right after the samples of the blocks
      before it: the array holds the samples of all of them. */
  lemma BlockWritten<T>(initial: seq<T>, done: seq<T>, next: seq<T>, total: seq<T>, cur: seq<T>, after: seq<T>)
    requires |done| + |next| <= |initial| && total == done + next
    requires cur == Overwrite(initial, 0, done) && after == Overwrite(cur, |done|, next)
    ensures after == Overwrite(initial, 0, total)
  {
    OverwriteAppend(initial, 0, done, next);
  }

  /** The decoding of one nibble as the mono decoder writes it. */
  method DecodeNibble(predictor: int, stepIndex: int, nibble: Nibble) returns (p: int, idx: int)
    requires Valid(Channel(predictor, stepIndex))
    ensures Channel(p, idx) == Decode(Channel(predictor, stepIndex), nibble)
  {
    var step: int := StepTable[stepIndex];
    var diff: int := step / 8;
    if nibble / 4 % 2 == 1 { diff := diff + step; }
    if nibble / 2 % 2 == 1 { diff := diff + step / 2; }
    if nibble % 2 == 1 { diff := diff + step / 4; }
    p := ClampI32(predictor + (if nibble >= 8 then -diff else diff), -32768, 32767);
    idx := ClampI32(stepIndex + IndexTable[nibble], 0, 88);
  }

  /** The decoding of one nibble as the stereo decoder writes it: the
      difference is multiplied by a sign of -1 or 1. */
  method DecodeNibbleSigned(pred: int, idx: int, n: Nibble) returns (p: int, i: int)
    requires Valid(Channel(pred, idx))
    ensures Channel(p, i) == Decode(Channel(pred, idx), n)
  {
    var step: int := StepTable[idx];
    var diff: int := step / 8;
    if n / 4 % 2 == 1 { diff := diff + step; }
    if n / 2 % 2 == 1 { diff := diff + step / 2; }
    if n % 2 == 1 { diff := diff + step / 4; }
    var sign := if n >= 8 then -1 else 1;
    p := ClampI32(pred + sign * diff, -32768, 32767);
    i := ClampI32(idx + IndexTable[n], 0, 88);
  }

  /** Byte i of a mono block's data gives nibbles 2i (low) and 2i + 1 (high). */
  lemma MonoPairStep(c: Channel, bs: seq<byte>, i: nat)
    requires Valid(c) && i < |bs|
    ensures var c1 := Decode(StateAfter(c, bs, Mono, 2 * i), bs[i] % 16);
      var c2 := Decode(c1, bs[i] / 16);
      StateAfter(c, bs, Mono, 2 * i + 2) == c2
      && Samples(c, bs, Mono, 2 * i + 2) == Samples(c, bs, Mono, 2 * i) + [c1.predictor] + [c2.predictor]
  {
    var k := 2 * i;
    assert k % 2 == 0 && k / 2 == i && (k + 1) % 2 == 1 && (k + 1) / 2 == i;
    assert NibbleAt(bs, Mono, k) == bs[i] % 16;
    assert NibbleAt(bs, Mono, k + 1) == bs[i] / 16;
    var c1 := StateAfter(c, bs, Mono, k + 1);
    assert c1 == Decode(StateAfter(c, bs, Mono, k), bs[i] % 16);
    assert StateAfter(c, bs, Mono, k + 2) == Decode(c1, bs[i] / 16);
    assert Samples(c, bs, Mono, k + 1) == Samples(c, bs, Mono, k) + [c1.predictor];
  }

  /** One data byte of a mono block: its low nibble is decoded and stored
      at pos, then its high nibble at pos + 1. */
  method DecodeMonoPair(output: array<int>, pos: nat, predictor: int, stepIndex: int, b: byte)
    returns (p: int, idx: int)
    requires Valid(Channel(predictor, stepIndex)) && pos + 2 <= output.Length
    modifies output
    ensures var c1 := Decode(Channel(predictor, stepIndex), b % 16);
      Channel(p, idx) == Decode(c1, b / 16)
      && output[..] == old(output[..])[pos := c1.predictor][pos + 1 := p]
  {
    p, idx := DecodeNibble(predictor, stepIndex, b % 16);
    output[pos] := p;
    p, idx := DecodeNibble(p, idx, b / 16);
    output[pos + 1] := p;
  }

  /** The sample loop of a mono block: data byte i gives output[outPos + 2i]
      from its low nibble and output[outPos + 2i + 1] from its high one. */
  method DecodeMonoData(bytes: seq<byte>, output: array<int>, outPos: nat, head: Channel)
    requires Valid(head) && outPos + 2 * |bytes| <= output.Length
    modifies output
    ensures output[..] == Overwrite(old(output[..]), outPos, Samples(head, bytes, Mono, 2 * |bytes|))
  {
    var predictor, stepIndex := head.predictor, head.index;
    ghost var before := output[..];
    ghost var run: seq<int> := [];
    for i := 0 to |bytes|
      invariant Channel(predictor, stepIndex) == StateAfter(head, bytes, Mono, 2 * i)
      invariant run == Samples(head, bytes, Mono, 2 * i)
      invariant output[..] == Overwrite(before, outPos, run)
    {
      var b := bytes[i];
      ghost var c1 := Decode(Channel(predictor, stepIndex), b % 16);
      ghost var c2 := Decode(c1, b / 16);
      ghost var cur := output[..];
      MonoPairStep(head, bytes, i);
      predictor, stepIndex := DecodeMonoPair(output, outPos + 2 * i, predictor, stepIndex, b);
      OverwritePair(before, outPos, run, c1.predictor, c2.predictor, cur, output[..]);
      run := run + [c1.predictor] + [c2.predictor];
    }
  }

  /** One mono block at blockPos, decoded into output[outPos .. outPos + spb]. */
  method DecodeMonoBlock(input: seq<byte>, output: array<int>, blockPos: nat, outPos: nat, spb: nat)
    requires spb % 2 == 0 && blockPos + MonoBlockSize(spb) <= |input| && outPos + spb <= output.Length
    modifies output
    ensures output[..] == Overwrite(old(output[..]), outPos, MonoBlock(input, blockPos, spb))
  {
    var head := BlockHeader(input, blockPos);
    DecodeMonoData(input[blockPos + 4 .. blockPos + MonoBlockSize(spb)], output, outPos, head);
  }

  lemma MonoSamplesSnoc(data: seq<byte>, n: nat, spb: nat)
    requires spb % 2 == 0 && Span(n + 1, MonoBlockSize(spb)) <= |data|
    ensures MonoSamples(data, n + 1, spb)
            == MonoSamples(data, n, spb) + MonoBlock(data, Span(n, MonoBlockSize(spb)), spb)
  {
  }

  /** The block loop of the mono decoder, once the arguments have passed its guard. */
  method DecodeMonoBlocks(input: seq<byte>, output: array<int>, nBlocks: nat, spb: nat)
    requires spb % 2 == 0
    requires Span(nBlocks, MonoBlockSize(spb)) <= |input| && Span(nBlocks, spb) <= output.Length
    modifies output
    ensures output[..] == Overwrite(old(output[..]), 0, MonoSamples(input, nBlocks, spb))
  {
    ghost var initial := output[..];
    assert Overwrite(initial, 0, []) == initial;
    var blockPos := 0;
    var outPos := 0;
    for block := 0 to nBlocks
      invariant blockPos == Span(block, MonoBlockSize(spb)) && outPos == Span(block, spb)
      invariant blockPos <= |input| && outPos <= output.Length
      invariant output[..] == Overwrite(initial, 0, MonoSamples(input, block, spb))
    {
      SpanMono(block + 1, nBlocks, MonoBlockSize(spb));
      SpanMono(block + 1, nBlocks, spb);
      ghost var done := MonoSamples(input, block, spb);
      ghost var next := MonoBlock(input, blockPos, spb);
      ghost var cur := output[..];
      DecodeMonoBlock(input, output, blockPos, outPos, spb);
      MonoSamplesSnoc(input, block, spb);
      BlockWritten(initial, done, next, MonoSamples(input, block + 1, spb), cur, output[..]);
      blockPos := blockPos + MonoBlockSize(spb);
      outPos := outPos + spb;
    }
  }

  /** decode_ima_adpcm_mono: nothing is written unless n_blocks and
      samples_per_block are positive and samples_per_block is even;
      otherwise block after block the predictor after every nibble is written
      from the start of the output, and the rest of it is left as it was. */
  method DecodeImaMono(input: seq<byte>, output: array<int>, nBlocks: int, spb: int)
    requires nBlocks > 0 && spb > 0 && spb % 2 == 0 ==>
      Span(nBlocks, MonoBlockSize(spb)) <= |input| && Span(nBlocks, spb) <= output.Length
    modifies output
    ensures !(nBlocks > 0 && spb > 0 && spb % 2 == 0) ==> output[..] == old(output[..])
    ensures nBlocks > 0 && spb > 0 && spb % 2 == 0 ==>
      output[..] == Overwrite(old(output[..]), 0, MonoSamples(input, nBlocks, spb))
  {
    if nBlocks <= 0 || spb <= 0 || spb % 2 != 0 {
      return;
    }
    DecodeMonoBlocks(input, output, nBlocks, spb);
  }

  /** One channel's half of a stereo sample: the nibble decoded in the
      stereo decoder's form, and the new predictor stored at out[pos]. */
  method StoreNibble(out: array<int>, pos: nat, pred: int, idx: int, n: Nibble) returns (p: int, i: int)
    requires Valid(Channel(pred, idx)) && pos < out.Length
    modifies out
    ensures Channel(p, i) == Decode(Channel(pred, idx), n)
    ensures out[..] == old(out[..])[pos := p]
  {
    p, i := DecodeNibbleSigned(pred, idx, n);
    out[pos] := p;
  }

  /** The sample loop of a stereo block: data byte s gives left[outPos + s]
      from its low nibble and right[outPos + s] from its high one. */
  method DecodeStereoData(bytes: seq<byte>, left: array<int>, right: array<int>,
                          outPos: nat, headL: Channel, headR: Channel)
    requires left != right && Valid(headL) && Valid(headR)
    requires outPos + |bytes| <= left.Length && outPos + |bytes| <= right.Length
    modifies left, right
    ensures left[..] == Overwrite(old(left[..]), outPos, Samples(headL, bytes, Left, |bytes|))
    ensures right[..] == Overwrite(old(right[..]), outPos, Samples(headR, bytes, Right, |bytes|))
  {
    var predL, idxL := headL.predictor, headL.index;
    var predR, idxR := headR.predictor, headR.index;
    ghost var runL: seq<int>, runR: seq<int> := [], [];
    ghost var beforeL, beforeR := left[..], right[..];
    for s := 0 to |bytes|
      invariant Channel(predL, idxL) == StateAfter(headL, bytes, Left, s)
      invariant Channel(predR, idxR) == StateAfter(headR, bytes, Right, s)
      invariant runL == Samples(headL, bytes, Left, s)
      invariant runR == Samples(headR, bytes, Right, s)
      invariant left[..] == Overwrite(beforeL, outPos, runL)
      invariant right[..] == Overwrite(beforeR, outPos, runR)
    {
      var b := bytes[s];
      OverwriteSnoc(beforeL, outPos, runL, Decode(Channel(predL, idxL), b % 16).predictor);
      OverwriteSnoc(beforeR, outPos, runR, Decode(Channel(predR, idxR), b / 16).predictor);
      predL, idxL := StoreNibble(left, outPos + s, predL, idxL, b % 16);
      runL := runL + [predL];
      predR, idxR := StoreNibble(right, outPos + s, predR, idxR, b / 16);
      runR := runR + [predR];
    }
  }

  /** One stereo block at blockPos: the left header in bytes 0-2, the right
      one in bytes 4-6, then spb data bytes from byte 8. */
  method DecodeStereoBlock(input: seq<byte>, left: array<int>, right: array<int>,
                           blockPos: nat, outPos: nat, spb: nat)
    requires left != right
    requires blockPos + StereoBlockSize(spb) <= |input|
    requires outPos + spb <= left.Length && outPos + spb <= right.Length
    modifies left, right
    ensures left[..] == Overwrite(old(left[..]), outPos, StereoBlock(input, blockPos, spb, 0))
    ensures right[..] == Overwrite(old(right[..]), outPos, StereoBlock(input, blockPos, spb, 1))
  {
    var headL := BlockHeader(input, blockPos);
    var headR := BlockHeader(input, blockPos + 4);
    DecodeStereoData(input[blockPos + 8 .. blockPos + StereoBlockSize(spb)], left, right, outPos, headL, headR);
  }

  lemma StereoSamplesSnoc(data: seq<byte>, n: nat, spb: nat, ch: nat)
    requires ch < 2 && Span(n + 1, StereoBlockSize(spb)) <= |data|
    ensures StereoSamples(data, n + 1, spb, ch)
            == StereoSamples(data, n, spb, ch) + StereoBlock(data, Span(n, StereoBlockSize(spb)), spb, ch)
  {
  }

  /** The invariant of the stereo block loop after `blk` blocks: each array
      holds its channel's samples so far over what it held before. */
  ghost predicate StereoProgress(input: seq<byte>, l: seq<int>, r: seq<int>, initialL: seq<int>,
                                 initialR: seq<int>, blk: nat, spb: nat)
  {
    Span(blk, StereoBlockSize(spb)) <= |input| && Span(blk, spb) <= |initialL| && Span(blk, spb) <= |initialR|
    && l == Overwrite(initialL, 0, StereoSamples(input, blk, spb, 0))
    && r == Overwrite(initialR, 0, StereoSamples(input, blk, spb, 1))
  }

  /** The invariant of the stereo block loop holds before the first block. */
  lemma StereoProgressStart(input: seq<byte>, l: seq<int>, r: seq<int>, spb: nat)
    ensures StereoProgress(input, l, r, l, r, 0, spb)
  {
    assert Overwrite(l, 0, []) == l && Overwrite(r, 0, []) == r;
  }

  /** One pass of the stereo block loop: block blk is decoded behind the
      blocks before it. */
  method DecodeStereoNext(input: seq<byte>, left: array<int>, right: array<int>, blk: nat, spb: nat,
                          ghost initialL: seq<int>, ghost initialR: seq<int>)
    requires left != right && |initialL| == left.Length && |initialR| == right.Length
    requires Span(blk + 1, StereoBlockSize(spb)) <= |input|
    requires Span(blk + 1, spb) <= left.Length && Span(blk + 1, spb) <= right.Length
    requires StereoProgress(input, left[..], right[..], initialL, initialR, blk, spb)
    modifies left, right
    ensures StereoProgress(input, left[..], right[..], initialL, initialR, blk + 1, spb)
  {
    ghost var doneL, doneR := StereoSamples(input, blk, spb, 0), StereoSamples(input, blk, spb, 1);
    var blockPos, outPos := Span(blk, StereoBlockSize(spb)), Span(blk, spb);
    ghost var nextL, nextR := StereoBlock(input, blockPos, spb, 0), StereoBlock(input, blockPos, spb, 1);
    ghost var curL, curR := left[..], right[..];
    DecodeStereoBlock(input, left, right, blockPos, outPos, spb);
    StereoSamplesSnoc(input, blk, spb, 0);
    StereoSamplesSnoc(input, blk, spb, 1);
    BlockWritten(initialL, doneL, nextL, StereoSamples(input, blk + 1, spb, 0), curL, left[..]);
    BlockWritten(initialR, doneR, nextR, StereoSamples(input, blk + 1, spb, 1), curR, right[..]);
  }

  /** The block loop of the stereo decoder, once the arguments have passed its guard. */
  method DecodeStereoBlocks(input: seq<byte>, left: array<int>, right: array<int>, nBlocks: nat, spb: nat)
    requires left != right
    requires Span(nBlocks, StereoBlockSize(spb)) <= |input|
    requires Span(nBlocks, spb) <= left.Length && Span(nBlocks, spb) <= right.Length
    modifies left, right
    ensures left[..] == Overwrite(old(left[..]), 0, StereoSamples(input, nBlocks, spb, 0))
    ensures right[..] == Overwrite(old(right[..]), 0, StereoSamples(input, nBlocks, spb, 1))
  {
    ghost var initialL, initialR := left[..], right[..];
    StereoProgressStart(input, initialL, initialR, spb);
    for blk := 0 to nBlocks
      invariant StereoProgress(input, left[..], right[..], initialL, initialR, blk, spb)
    {
      SpanMono(blk + 1, nBlocks, StereoBlockSize(spb));
      SpanMono(blk + 1, nBlocks, spb);
      DecodeStereoNext(input, left, right, blk, spb, initialL, initialR);
    }
  }

  /** decode_ima_adpcm_stereo: nothing is written unless n_blocks and
      samples_per_block are positive; otherwise block after block the left
      channel's samples go to left and the right channel's to right, from
      the start, and the rest of each array is left as it was. */
  method DecodeImaStereo(input: seq<byte>, left: array<int>, right: array<int>, nBlocks: int, spb: int)
    requires left != right
    requires nBlocks > 0 && spb > 0 ==>
      Span(nBlocks, StereoBlockSize(spb)) <= |input|
      && Span(nBlocks, spb) <= left.Length && Span(nBlocks, spb) <= right.Length
    modifies left, right
    ensures !(nBlocks > 0 && spb > 0) ==> left[..] == old(left[..]) && right[..] == old(right[..])
    ensures nBlocks > 0 && spb > 0 ==>
      left[..] == Overwrite(old(left[..]), 0, StereoSamples(input, nBlocks, spb, 0))
      && right[..] == Overwrite(old(right[..]), 0, StereoSamples(input, nBlocks, spb, 1))
  {
    if nBlocks <= 0 || spb <= 0 {
      return;
    }
    DecodeStereoBlocks(input, left, right, nBlocks, spb);
  }

  /** A mono block depends only on its own MonoBlockSize(spb) bytes. */
  lemma MonoBlockLocal(data: seq<byte>, p: nat, spb: nat)
    requires spb % 2 == 0 && p + MonoBlockSize(spb) <= |data|
    ensures MonoBlock(data, p, spb) == MonoBlock(data[p .. p + MonoBlockSize(spb)], 0, spb)
  {
    var blk := data[p .. p + MonoBlockSize(spb)];
    assert BlockHeader(data, p) == BlockHeader(blk, 0);
    assert data[p + 4 .. p + MonoBlockSize(spb)] == blk[4 .. MonoBlockSize(spb)];
  }

  /** A stereo block depends only on its own StereoBlockSize(spb) bytes. */
  lemma StereoBlockLocal(data: seq<byte>, p: nat, spb: nat, ch: nat)
    requires ch < 2 && p + StereoBlockSize(spb) <= |data|
    ensures StereoBlock(data, p, spb, ch) == StereoBlock(data[p .. p + StereoBlockSize(spb)], 0, spb, ch)
  {
    var blk := data[p .. p + StereoBlockSize(spb)];
    assert BlockHeader(data, p + 4 * ch) == BlockHeader(blk, 4 * ch);
    assert data[p + 8 .. p + StereoBlockSize(spb)] == blk[8 .. StereoBlockSize(spb)];
  }
}
