/** The sample loops of the generator scripts: for every frame, for every
    channel, one sample is encoded and written to the file. An encoder is a
    function from the integer sample to its bytes, or None where
    struct.pack or int.to_bytes raises; the exception ends the loops, and
    the file keeps what was written before it. */
module SampleStream {
  import opened Wrappers
  import opened Bytes

  /** The samples in the order the frame and channel loops visit them. */
  function Flatten(frames: seq<seq<int>>): seq<int>
  {
    if |frames| == 0 then [] else frames[0] + Flatten(frames[1..])
  }

  /** The bytes of a run of samples, encoded one after the other; None if
      one of them cannot be encoded. */
  function EncodeAll(enc: int -> Option<seq<byte>>, s: seq<int>): (r: Option<seq<byte>>)
    ensures r.Some? <==> forall j :: 0 <= j < |s| ==> enc(s[j]).Some?
  {
    if |s| == 0 then Some([])
    else
      match enc(s[0])
      case None => None
      case Some(b) =>
        match EncodeAll(enc, s[1..])
        case None => None
        case Some(rest) => Some(b + rest)
  }

  lemma {:induction false} FlattenConcat(a: seq<seq<int>>, b: seq<seq<int>>)
    ensures Flatten(a + b) == Flatten(a) + Flatten(b)
  {
    if |a| > 0 {
      assert (a + b)[1..] == a[1..] + b;
      FlattenConcat(a[1..], b);
    } else {
      assert a + b == b;
    }
  }

  /** Encoding a run in two parts gives the two encodings one after the other. */
  lemma {:induction false} EncodeAllConcat(enc: int -> Option<seq<byte>>, a: seq<int>, b: seq<int>)
    requires EncodeAll(enc, a).Some? && EncodeAll(enc, b).Some?
    ensures EncodeAll(enc, a + b) == Some(EncodeAll(enc, a).value + EncodeAll(enc, b).value)
  {
    if |a| > 0 {
      assert (a + b)[0] == a[0] && (a + b)[1..] == a[1..] + b;
      EncodeAllConcat(enc, a[1..], b);
      var h, ta, tb := enc(a[0]).value, EncodeAll(enc, a[1..]).value, EncodeAll(enc, b).value;
      assert EncodeAll(enc, a).value == h + ta;
      assert EncodeAll(enc, a + b) == Some(h + (ta + tb));
      assert h + (ta + tb) == (h + ta) + tb;
    } else {
      assert a + b == b && EncodeAll(enc, a).value == [];
      assert EncodeAll(enc, a).value + EncodeAll(enc, b).value == EncodeAll(enc, b).value;
    }
  }

  /** The bytes the loops leave in the file: every sample up to, and not
      including, the first one that cannot be encoded; all of them when
      none fails. */
  function EncodePrefix(enc: int -> Option<seq<byte>>, s: seq<int>): (r: seq<byte>)
    ensures EncodeAll(enc, s).Some? ==> r == EncodeAll(enc, s).value
  {
    if |s| == 0 then []
    else
      match enc(s[0])
      case None => []
      case Some(b) => b + EncodePrefix(enc, s[1..])
  }

  /** The prefix the loops stop at: if the first k samples can be encoded
      and sample k cannot (or there is none), the file gains exactly the
      bytes of those k samples. */
  lemma {:induction false} EncodePrefixAt(enc: int -> Option<seq<byte>>, s: seq<int>, k: nat)
    requires k <= |s| && EncodeAll(enc, s[..k]).Some?
    requires k < |s| ==> enc(s[k]).None?
    ensures EncodePrefix(enc, s) == EncodeAll(enc, s[..k]).value
  {
    if k == 0 {
      assert s[..0] == [];
    } else {
      assert s[..k][0] == s[0] && s[..k][1..] == s[1..][..k - 1];
      if k - 1 < |s[1..]| {
        assert s[1..][k - 1] == s[k];
      }
      EncodePrefixAt(enc, s[1..], k - 1);
    }
  }

  /** One frame: the channel loop writes the frame's samples until one of
      them cannot be encoded. It returns how many it wrote. */
  method WriteFrame(f: ByteSink, enc: int -> Option<seq<byte>>, frame: seq<int>) returns (n: nat)
    modifies f
    ensures n <= |frame| && EncodeAll(enc, frame[..n]).Some?
    ensures f.bytes == old(f.bytes) + EncodeAll(enc, frame[..n]).value
    ensures n < |frame| ==> enc(frame[n]).None?
  {
    n := 0;
    while n < |frame|
      invariant n <= |frame| && EncodeAll(enc, frame[..n]).Some?
      invariant f.bytes == old(f.bytes) + EncodeAll(enc, frame[..n]).value
    {
      var b := enc(frame[n]);
      if b.None? {
        return;
      }
      EncodeAllConcat(enc, frame[..n], [frame[n]]);
      assert frame[..n + 1] == frame[..n] + [frame[n]];
      f.Write(b.value);
      n := n + 1;
    }
  }

  /** Where frame i's first n samples sit in the frame-major order: right
      after the frames before it. */
  lemma FrameStep(frames: seq<seq<int>>, i: nat, n: nat)
    requires i < |frames| && n <= |frames[i]|
    ensures var w := |Flatten(frames[..i])| + n;
      w <= |Flatten(frames)| && Flatten(frames)[..w] == Flatten(frames[..i]) + frames[i][..n]
      && (n < |frames[i]| ==> w < |Flatten(frames)| && Flatten(frames)[w] == frames[i][n])
      && (n == |frames[i]| ==> Flatten(frames[..i + 1]) == Flatten(frames)[..w])
  {
    assert frames == frames[..i] + frames[i..];
    FlattenConcat(frames[..i], frames[i..]);
    assert frames[i..][1..] == frames[i + 1..];
    assert Flatten(frames[i..]) == frames[i] + Flatten(frames[i + 1..]);
    assert frames[..i + 1] == frames[..i] + [frames[i]];
    FlattenConcat(frames[..i], [frames[i]]);
    assert Flatten([frames[i]]) == frames[i] + Flatten([]);
    assert frames[i][..|frames[i]|] == frames[i];
  }

  /** The loop's bookkeeping: the first i frames, which are the first
      `written` samples, have been encoded and appended to `before`. */
  ghost predicate Wrote(enc: int -> Option<seq<byte>>, frames: seq<seq<int>>, i: nat, written: nat,
                        before: seq<byte>, now: seq<byte>)
  {
    i <= |frames| && written <= |Flatten(frames)|
    && Flatten(frames)[..written] == Flatten(frames[..i])
    && EncodeAll(enc, Flatten(frames)[..written]).Some?
    && now == before + EncodeAll(enc, Flatten(frames)[..written]).value
  }

  /** One pass of the frame loop: a complete frame moves the bookkeeping on
      by one frame; an incomplete one stops at the sample that failed. */
  lemma FramesStep(enc: int -> Option<seq<byte>>, frames: seq<seq<int>>, i: nat, written: nat, n: nat,
                   before: seq<byte>, mid: seq<byte>, now: seq<byte>)
    requires i < |frames| && Wrote(enc, frames, i, written, before, mid)
    requires n <= |frames[i]| && EncodeAll(enc, frames[i][..n]).Some?
    requires now == mid + EncodeAll(enc, frames[i][..n]).value
    requires n < |frames[i]| ==> enc(frames[i][n]).None?
    ensures n == |frames[i]| ==> Wrote(enc, frames, i + 1, written + n, before, now)
    ensures written + n <= |Flatten(frames)| && EncodeAll(enc, Flatten(frames)[..written + n]).Some?
    ensures now == before + EncodeAll(enc, Flatten(frames)[..written + n]).value
    ensures n < |frames[i]| ==> written + n < |Flatten(frames)| && enc(Flatten(frames)[written + n]).None?
  {
    FrameStep(frames, i, n);
    EncodeAllConcat(enc, Flatten(frames[..i]), frames[i][..n]);
  }

  /** The frame loop: it writes the samples in frame-major order and stops
      at the first one that cannot be encoded, which is where the script's
      exception leaves the file. It returns how many samples it wrote. */
  method WriteFrames(f: ByteSink, enc: int -> Option<seq<byte>>, frames: seq<seq<int>>) returns (written: nat)
    modifies f
    ensures written <= |Flatten(frames)| && EncodeAll(enc, Flatten(frames)[..written]).Some?
    ensures f.bytes == old(f.bytes) + EncodeAll(enc, Flatten(frames)[..written]).value
    ensures written < |Flatten(frames)| ==> enc(Flatten(frames)[written]).None?
    ensures f.bytes == old(f.bytes) + EncodePrefix(enc, Flatten(frames))
  {
    written := 0;
    var i := 0;
    while i < |frames|
      invariant Wrote(enc, frames, i, written, old(f.bytes), f.bytes)
    {
      ghost var mid := f.bytes;
      var n := WriteFrame(f, enc, frames[i]);
      FramesStep(enc, frames, i, written, n, old(f.bytes), mid, f.bytes);
      written := written + n;
      if n < |frames[i]| {
        EncodePrefixAt(enc, Flatten(frames), written);
        return;
      }
      i := i + 1;
    }
    assert frames[..i] == frames;
    EncodePrefixAt(enc, Flatten(frames), written);
  }

  /** The two parts of a run that can be encoded can each be encoded. */
  lemma EncodeAllParts(enc: int -> Option<seq<byte>>, a: seq<int>, b: seq<int>)
    requires EncodeAll(enc, a + b).Some?
    ensures EncodeAll(enc, a).Some? && EncodeAll(enc, b).Some?
    ensures EncodeAll(enc, a + b) == Some(EncodeAll(enc, a).value + EncodeAll(enc, b).value)
  {
    assert forall j :: 0 <= j < |a| ==> a[j] == (a + b)[j];
    assert forall j :: 0 <= j < |b| ==> b[j] == (a + b)[|a| + j];
    EncodeAllConcat(enc, a, b);
  }

  /** Every frame holds the same number of samples. */
  predicate Uniform(frames: seq<seq<int>>, channels: nat)
  {
    forall i :: 0 <= i < |frames| ==> |frames[i]| == channels
  }

  /** Every sample that can be encoded has the same width. */
  predicate Width(enc: int -> Option<seq<byte>>, s: seq<int>, w: nat)
  {
    forall j :: 0 <= j < |s| ==> enc(s[j]).Some? ==> |enc(s[j]).value| == w
  }

  /** frames frames of channels samples of w bytes each fill exactly
      frames * (channels * w) bytes: the data size the header declares. */
  lemma {:induction false} PayloadLength(enc: int -> Option<seq<byte>>, frames: seq<seq<int>>, channels: nat, w: nat)
    requires Uniform(frames, channels) && Width(enc, Flatten(frames), w)
    requires EncodeAll(enc, Flatten(frames)).Some?
    ensures |Flatten(frames)| == |frames| * channels
    ensures |EncodeAll(enc, Flatten(frames)).value| == |frames| * (channels * w)
  {
    if |frames| > 0 {
      var s := Flatten(frames);
      var rest := Flatten(frames[1..]);
      assert s == frames[0] + rest;
      WidthParts(enc, frames[0], rest, w);
      EncodeAllParts(enc, frames[0], rest);
      PayloadLength(enc, frames[1..], channels, w);
      RunLength(enc, frames[0], w);
      assert |frames| * (channels * w) == channels * w + (|frames| - 1) * (channels * w);
    }
  }

  lemma WidthParts(enc: int -> Option<seq<byte>>, a: seq<int>, b: seq<int>, w: nat)
    requires Width(enc, a + b, w)
    ensures Width(enc, a, w) && Width(enc, b, w)
  {
    assert forall j :: 0 <= j < |a| ==> a[j] == (a + b)[j];
    assert forall j :: 0 <= j < |b| ==> b[j] == (a + b)[|a| + j];
  }

  /** A run of samples of w bytes each fills |s| * w bytes. */
  lemma {:induction false} RunLength(enc: int -> Option<seq<byte>>, s: seq<int>, w: nat)
    requires Width(enc, s, w) && EncodeAll(enc, s).Some?
    ensures |EncodeAll(enc, s).value| == |s| * w
  {
    if |s| > 0 {
      assert Width(enc, s[1..], w) by {
        forall j | 0 <= j < |s[1..]| ensures enc(s[1..][j]).Some? ==> |enc(s[1..][j]).value| == w {
          assert s[1..][j] == s[j + 1];
        }
      }
      RunLength(enc, s[1..], w);
    }
  }
}
