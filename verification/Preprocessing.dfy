/** The sample pipeline before speaker recognition: PCM16 decoding, mixing, resampling, trimming, normalizing,
    padding and encoding. Sample arithmetic that the program does in floating point is done in reals. */
module Preprocessing {
  import opened Wrappers

  type Samples = seq<int>

  const TARGET_RATE := 16000
  const MIN_FRAMES := 16000
  const THRESHOLD := 98
  const MARGIN := 320
  const TARGET_PEAK := 29490
  const MAX_GAIN := 8.0

  predicate IsPcm16(v: int) {
    -0x8000 <= v < 0x8000
  }

  predicate AllPcm16(s: Samples) {
    forall i :: 0 <= i < |s| ==> IsPcm16(s[i])
  }

  predicate Within(lo: int, hi: int, s: Samples) {
    forall i :: 0 <= i < |s| ==> lo <= s[i] <= hi
  }

  function Abs(v: int): nat {
    if v < 0 then -v else v
  }

  // ----- Rounding -----

  /** To the nearest integer, to the even one from halfway. */
  function Round(x: real): int {
    var f := x.Floor;
    var rest := x - f as real;
    if rest < 0.5 || (rest == 0.5 && f % 2 == 0) then f else f + 1
  }

  /** Towards zero. */
  function Truncate(x: real): int {
    if x < 0.0 then -((-x).Floor) else x.Floor
  }

  lemma RoundWithin(x: real, lo: int, hi: int)
    requires lo as real <= x <= hi as real
    ensures lo <= Round(x) <= hi
  {
  }

  lemma RoundMonotone(x: real, y: real)
    requires x <= y
    ensures Round(x) <= Round(y)
  {
  }

  lemma RoundExact(n: int)
    ensures Round(n as real) == n
  {
  }

  // ----- PCM16 -----

  /** Little-endian, two's complement. */
  function Value(low: byte, high: byte): (v: int)
    ensures IsPcm16(v)
  {
    var u := low as int + 0x100 * high as int;
    if u < 0x8000 then u else u - 0x10000
  }

  function LowByte(v: int): byte {
    (v % 0x100) as byte
  }

  function HighByte(v: int): byte {
    (v % 0x10000 / 0x100) as byte
  }

  lemma ValueOfBytes(v: int)
    requires IsPcm16(v)
    ensures Value(LowByte(v), HighByte(v)) == v
  {
  }

  lemma BytesOfValue(low: byte, high: byte)
    ensures LowByte(Value(low, high)) == low && HighByte(Value(low, high)) == high
  {
    var l, h := low as int, high as int;
    var u := l + 0x100 * h;
    assert u % 0x100 == l && u / 0x100 == h;
    if u >= 0x8000 {
      assert (u - 0x10000) % 0x100 == l && (u - 0x10000) % 0x10000 == u;
    }
  }

  function SampleAt(frames: seq<byte>, offset: nat): int
    requires offset + 1 < |frames|
  {
    Value(frames[offset], frames[offset+1])
  }

  /** What the WAV reader reports: not a WAV file, or its header and the bytes of its frames. */
  datatype Wav = NotWav | Wav(channels: nat, sampleWidth: nat, sampleRate: int, frames: seq<byte>)

  datatype Reason = InvalidAudio | UnsupportedSampleWidth | UnsupportedChannels | InvalidSampleRate | NoAudio
      | LowSignal | TooShort

  datatype Decoded = Decoded(channels: seq<Samples>, rate: int)

  /** Sample k of a channel, in frames with this many channels. */
  function ChannelSample(frames: seq<byte>, channels: nat, c: nat, k: nat): int
    requires c < channels && (k + 1) * channels * 2 <= |frames|
  {
    assert (k * channels + c) * 2 + 1 < (k + 1) * channels * 2;
    SampleAt(frames, (k * channels + c) * 2)
  }

  function ChannelOf(frames: seq<byte>, channels: nat, c: nat, n: nat): (s: Samples)
    requires c < channels && n * channels * 2 <= |frames|
    ensures |s| == n && AllPcm16(s)
  {
    seq(n, k requires 0 <= k < n =>
      assert (k + 1) * channels <= n * channels;
      ChannelSample(frames, channels, c, k))
  }

  function FrameCount(length: nat, channels: nat): (n: nat)
    requires channels == 1 || channels == 2
    ensures n * channels * 2 <= length
    ensures n == length / (2 * channels)
  {
    if channels == 1 then length / 2 else length / 4
  }

  /** The frames' samples, separated by channel. */
  function Separated(frames: seq<byte>, channels: nat): seq<Samples>
    requires channels == 1 || channels == 2
  {
    var n := FrameCount(|frames|, channels);
    seq(channels, c requires 0 <= c < channels => ChannelOf(frames, channels, c, n))
  }

  function DecodedWav(w: Wav): Result<Decoded, Reason> {
    if w.NotWav? then Err(InvalidAudio)
    else if w.sampleWidth != 2 then Err(UnsupportedSampleWidth)
    else if w.channels != 1 && w.channels != 2 then Err(UnsupportedChannels)
    else if w.sampleRate <= 0 then Err(InvalidSampleRate)
    else if |w.frames| % (2 * w.channels) != 0 then Err(InvalidAudio)
    else Ok(Decoded(Separated(w.frames, w.channels), w.sampleRate))
  }

  /** The bytes of the samples; none if a sample does not fit into 16 bits. */
  function Encoded(s: Samples): seq<byte> {
    if s == [] then [] else Encoded(s[..|s|-1]) + [LowByte(s[|s|-1]), HighByte(s[|s|-1])]
  }

  lemma {:induction false} EncodedBytes(s: Samples, k: nat)
    requires AllPcm16(s)
    ensures |Encoded(s)| == 2 * |s|
    ensures k < |s| ==> SampleAt(Encoded(s), 2 * k) == s[k]
  {
    if s != [] {
      EncodedBytes(s[..|s|-1], k);
      ValueOfBytes(s[|s|-1]);
    }
  }

  function MonoWav(s: Samples): Wav {
    Wav(1, 2, TARGET_RATE, Encoded(s))
  }

  /** Decoding what was encoded gives the samples back. */
  lemma DecodeEncode(s: Samples)
    requires AllPcm16(s)
    ensures DecodedWav(MonoWav(s)) == Ok(Decoded([s], TARGET_RATE))
  {
    EncodedBytes(s, 0);
    var frames := Encoded(s);
    var c := ChannelOf(frames, 1, 0, |s|);
    forall k | 0 <= k < |s| ensures c[k] == s[k] {
      EncodedBytes(s, k);
    }
    assert c == s;
    assert Separated(frames, 1) == [s];
  }

  /** All samples of a mono file but the last are those of the file without its last two bytes. */
  lemma MonoFront(frames: seq<byte>, n: nat)
    requires |frames| == 2 * (n + 1)
    ensures ChannelOf(frames, 1, 0, n + 1)[..n] == ChannelOf(frames[..2 * n], 1, 0, n)
  {
    forall k | 0 <= k < n ensures ChannelSample(frames, 1, 0, k) == ChannelSample(frames[..2 * n], 1, 0, k) {}
  }

  lemma MonoLast(frames: seq<byte>, n: nat)
    requires |frames| == 2 * (n + 1)
    ensures var v := ChannelOf(frames, 1, 0, n + 1)[n];
            frames == frames[..2 * n] + [LowByte(v), HighByte(v)]
  {
    assert ChannelSample(frames, 1, 0, n) == Value(frames[2*n], frames[2*n+1]);
    BytesOfValue(frames[2*n], frames[2*n+1]);
  }

  /** Encoding what was decoded from a mono file gives its bytes back. */
  lemma {:induction false} EncodeDecode(frames: seq<byte>)
    requires |frames| % 2 == 0
    ensures Encoded(ChannelOf(frames, 1, 0, |frames| / 2)) == frames
  {
    if frames != [] {
      var n := |frames| / 2 - 1;
      EncodeDecode(frames[..2 * n]);
      MonoFront(frames, n);
      MonoLast(frames, n);
      EncodedOneMore(ChannelOf(frames, 1, 0, n + 1), n);
    }
  }

  lemma EncodedOneMore(s: Samples, n: nat)
    requires |s| == n + 1
    ensures Encoded(s) == Encoded(s[..n]) + [LowByte(s[n]), HighByte(s[n])]
  {
  }

  // ----- Mixing -----

  function MixedSample(a: int, b: int): int {
    Truncate((a + b) as real / 2.0)
  }

  /** The mean of two samples, short of it towards zero by at most a half. */
  lemma MixedSampleIsMean(a: int, b: int)
    ensures Abs(2 * MixedSample(a, b)) <= Abs(a + b) <= Abs(2 * MixedSample(a, b)) + 1
    ensures MixedSample(a, b) * (a + b) >= 0
    ensures if a <= b then a <= MixedSample(a, b) <= b else b <= MixedSample(a, b) <= a
  {
    var m := MixedSample(a, b);
    if a + b < 0 {
      assert -2 * m <= -(a + b) < -2 * m + 2;
      assert m <= 0;
    } else {
      assert 2 * m <= a + b < 2 * m + 2;
      assert m >= 0;
    }
    SameSign(m, a + b);
  }

  lemma SameSign(a: int, b: int)
    requires (a <= 0 && b <= 0) || (a >= 0 && b >= 0)
    ensures a * b >= 0
  {
  }

  function Min(a: int, b: int): int {
    if a < b then a else b
  }

  function ToMono(channels: seq<Samples>): (r: Result<Samples, Reason>)
    requires |channels| <= 2
  {
    if channels == [] || channels[0] == [] then Err(NoAudio)
    else if |channels| == 1 then Ok(channels[0])
    else
      var left, right := channels[0], channels[1];
      Ok(seq(Min(|left|, |right|), i requires 0 <= i < Min(|left|, |right|) => MixedSample(left[i], right[i])))
  }

  lemma ToMonoWithin(channels: seq<Samples>, lo: int, hi: int)
    requires |channels| <= 2 && forall c :: 0 <= c < |channels| ==> Within(lo, hi, channels[c])
    ensures ToMono(channels).Ok? ==> Within(lo, hi, ToMono(channels).value)
  {
    if ToMono(channels).Ok? && |channels| == 2 {
      var left, right := channels[0], channels[1];
      forall i | 0 <= i < Min(|left|, |right|) ensures lo <= MixedSample(left[i], right[i]) <= hi {
        MixedSampleIsMean(left[i], right[i]);
      }
    }
  }

  // ----- Resampling -----

  function OutputLength(n: nat, rate: int): nat
    requires 0 < rate
  {
    var r := Round((n * TARGET_RATE) as real / rate as real);
    if r < 1 then 1 else r
  }

  function Position(i: nat, rate: int): (p: real)
    requires 0 < rate
    ensures p >= 0.0
  {
    i as real * (rate as real / TARGET_RATE as real)
  }

  /** The input sample at or before the position, the last one beyond the end. */
  function LeftIndex(n: nat, p: real): (k: nat)
    requires 0 < n && p >= 0.0
    ensures k < n && k as real <= p && (k < n - 1 ==> p < (k + 1) as real)
  {
    Min(p.Floor, n - 1)
  }

  function Blend(a: int, b: int, f: real): real {
    a as real * (1.0 - f) + b as real * f
  }

  /** Between the two neighbours of the position, in proportion. */
  function Interpolated(s: Samples, rate: int, i: nat): real
    requires 0 < rate && s != []
  {
    var p := Position(i, rate);
    var left := LeftIndex(|s|, p);
    Blend(s[left], s[Min(left + 1, |s| - 1)], p - left as real)
  }

  function Resampled(s: Samples, rate: int): Samples
    requires 0 < rate
  {
    if rate == TARGET_RATE || s == [] then s
    else seq(OutputLength(|s|, rate), i requires 0 <= i < OutputLength(|s|, rate) => Round(Interpolated(s, rate, i)))
  }

  lemma BlendWithin(a: int, b: int, f: real, lo: int, hi: int)
    requires lo <= a <= hi && lo <= b <= hi && (0.0 <= f <= 1.0 || a == b)
    ensures lo as real <= Blend(a, b, f) <= hi as real
  {
    assert Blend(a, b, f) == a as real + (b - a) as real * f;
    if a == b {
    } else if a < b {
      assert 0.0 <= (b - a) as real * f <= (b - a) as real;
    } else {
      assert (b - a) as real <= (b - a) as real * f <= 0.0;
    }
  }

  lemma InterpolatedWithin(s: Samples, rate: int, i: nat, lo: int, hi: int)
    requires 0 < rate && s != [] && Within(lo, hi, s)
    ensures lo as real <= Interpolated(s, rate, i) <= hi as real
  {
    var p := Position(i, rate);
    var left := LeftIndex(|s|, p);
    BlendWithin(s[left], s[Min(left + 1, |s| - 1)], p - left as real, lo, hi);
  }

  /** Resampling leaves the range of the input nowhere. */
  lemma ResampledWithin(s: Samples, rate: int, lo: int, hi: int)
    requires 0 < rate && Within(lo, hi, s)
    ensures Within(lo, hi, Resampled(s, rate))
  {
    if rate != TARGET_RATE && s != [] {
      var r := Resampled(s, rate);
      forall i | 0 <= i < |r| ensures lo <= r[i] <= hi {
        InterpolatedWithin(s, rate, i, lo, hi);
        RoundWithin(Interpolated(s, rate, i), lo, hi);
      }
    }
  }

  /** At the target rate the general formula would give the samples that are passed through. */
  lemma SameRateAgrees(s: Samples, i: nat)
    requires i < |s|
    ensures OutputLength(|s|, TARGET_RATE) == |s|
    ensures Round(Interpolated(s, TARGET_RATE, i)) == s[i]
  {
    assert (|s| * TARGET_RATE) as real / TARGET_RATE as real == |s| as real;
    RoundExact(|s|);
    var p := Position(i, TARGET_RATE);
    assert p == i as real;
    assert LeftIndex(|s|, p) == i;
    assert Interpolated(s, TARGET_RATE, i) == s[i] as real;
    RoundExact(s[i]);
  }

  /** Where the position is that of an input sample, the output is that sample. */
  lemma ResampledHits(s: Samples, rate: int, i: nat, k: nat)
    requires 0 < rate && k < |s| && i * rate == k * TARGET_RATE
    ensures Round(Interpolated(s, rate, i)) == s[k]
  {
    PositionOf(i, rate);
    assert Position(i, rate) == k as real;
    assert LeftIndex(|s|, Position(i, rate)) == k;
    assert Interpolated(s, rate, i) == s[k] as real;
    RoundExact(s[k]);
  }

  lemma PositionOf(i: nat, rate: int)
    requires 0 < rate
    ensures Position(i, rate) == (i * rate) as real / TARGET_RATE as real
  {
  }

  /** On a straight line the interpolation follows the line, and it stays at the last sample beyond the end. */
  lemma InterpolationFollowsLines(s: Samples, rate: int, i: nat, start: int, slope: int)
    requires 0 < rate && s != [] && forall k :: 0 <= k < |s| ==> s[k] == start + slope * k
    ensures Position(i, rate) <= (|s| - 1) as real ==>
              Interpolated(s, rate, i) == start as real + slope as real * Position(i, rate)
    ensures Position(i, rate) > (|s| - 1) as real ==> Interpolated(s, rate, i) == s[|s|-1] as real
  {
    var p := Position(i, rate);
    var left := LeftIndex(|s|, p);
    if left == |s| - 1 {
      BlendOfEqual(s[left], p - left as real);
      assert s[left] as real == start as real + slope as real * left as real;
    } else {
      BlendOnLine(start, slope, left, p - left as real);
    }
  }

  lemma BlendOfEqual(a: int, f: real)
    ensures Blend(a, a, f) == a as real
  {
    assert a as real * (1.0 - f) + a as real * f == a as real;
  }

  lemma BlendOnLine(start: int, slope: int, k: nat, f: real)
    ensures Blend(start + slope * k, start + slope * (k + 1), f) == start as real + slope as real * (k as real + f)
  {
    var a := (start + slope * k) as real;
    assert (start + slope * (k + 1)) as real == a + slope as real;
    assert a * (1.0 - f) + (a + slope as real) * f == a + slope as real * f;
  }

  lemma RoundNearest(x: real)
    ensures Round(x) as real - 0.5 <= x <= Round(x) as real + 0.5
  {
  }

  /** The output has at least one sample; if more, as many as the input lasts at the target rate, to within a half. */
  lemma DurationKept(n: nat, rate: int)
    requires 0 < rate && 0 < n
    ensures var m := OutputLength(n, rate);
            var exact := (n * TARGET_RATE) as real / rate as real;
            m >= 1 && (m > 1 ==> m as real - 0.5 <= exact <= m as real + 0.5) && (exact > 1.5 ==> m > 1)
  {
    RoundNearest((n * TARGET_RATE) as real / rate as real);
  }

  // ----- Trimming -----

  predicate IsActive(v: int) {
    Abs(v) >= THRESHOLD
  }

  /** The places of the active samples, in order. */
  function ActiveIndices(s: Samples): (a: seq<nat>)
    ensures forall i :: 0 <= i < |a| ==> a[i] < |s| && IsActive(s[a[i]])
    ensures forall i, j :: 0 <= i < j < |a| ==> a[i] < a[j]
    ensures forall k :: 0 <= k < |s| && IsActive(s[k]) ==> k in a
  {
    if s == [] then []
    else
      var n := |s| - 1;
      var before := ActiveIndices(s[..n]);
      if IsActive(s[n]) then
        assert (before + [n])[|before|] == n;
        assert forall k :: k in before ==> k in before + [n];
        before + [n]
      else before
  }

  function TrimStart(s: Samples): nat {
    var a := ActiveIndices(s);
    if a == [] || a[0] < MARGIN then 0 else a[0] - MARGIN
  }

  function TrimEnd(s: Samples): (e: nat)
    ensures TrimStart(s) <= e <= |s|
  {
    var a := ActiveIndices(s);
    if a == [] then |s|
    else
      assert a[0] <= a[|a|-1];
      Min(|s|, a[|a|-1] + MARGIN + 1)
  }

  function Trimmed(s: Samples): Samples {
    s[TrimStart(s)..TrimEnd(s)]
  }

  /** The speech found, in frames: all of the trimmed samples, or none if nothing is active. */
  function SpeechFrames(s: Samples): nat {
    if ActiveIndices(s) == [] then 0 else |Trimmed(s)|
  }

  /** Only samples below the threshold are cut off. */
  lemma TrimCutsOnlyQuiet(s: Samples, k: nat)
    requires k < |s| && IsActive(s[k])
    ensures TrimStart(s) <= k < TrimEnd(s)
  {
    var a := ActiveIndices(s);
    var i :| 0 <= i < |a| && a[i] == k;
  }

  lemma TrimBounds(s: Samples, first: nat, last: nat)
    requires ActiveIndices(s) != [] && first == ActiveIndices(s)[0] && last == ActiveIndices(s)[|ActiveIndices(s)|-1]
    ensures TrimStart(s) <= first <= last < TrimEnd(s) && IsActive(s[first]) && IsActive(s[last])
    ensures first == TrimStart(s) + MARGIN || (TrimStart(s) == 0 && first < MARGIN)
    ensures TrimEnd(s) == last + MARGIN + 1 || (TrimEnd(s) == |s| && |s| < last + MARGIN + 1)
  {
    TrimCutsOnlyQuiet(s, first);
    TrimCutsOnlyQuiet(s, last);
  }

  lemma TrimmedAt(s: Samples, j: nat)
    requires j < |Trimmed(s)|
    ensures Trimmed(s)[j] == s[TrimStart(s) + j] && |Trimmed(s)| == TrimEnd(s) - TrimStart(s)
  {
  }

  /** The first active sample is left with exactly a margin before it, or with all there is. */
  lemma TrimKeepsFirst(s: Samples) returns (k: nat)
    requires ActiveIndices(s) != []
    ensures k < |Trimmed(s)| && IsActive(Trimmed(s)[k]) && forall j :: 0 <= j < k ==> !IsActive(Trimmed(s)[j])
    ensures k == MARGIN || (k < MARGIN && TrimStart(s) == 0)
  {
    var a := ActiveIndices(s);
    TrimBounds(s, a[0], a[|a|-1]);
    k := a[0] - TrimStart(s);
    TrimmedAt(s, k);
    QuietBeforeFirst(s, k);
  }

  lemma QuietBeforeFirst(s: Samples, k: nat)
    requires ActiveIndices(s) != [] && k <= |Trimmed(s)| && TrimStart(s) + k == ActiveIndices(s)[0]
    ensures forall j :: 0 <= j < k ==> !IsActive(Trimmed(s)[j])
  {
    forall j | 0 <= j < k ensures !IsActive(Trimmed(s)[j]) {
      TrimmedAt(s, j);
      FirstActive(s, TrimStart(s) + j);
    }
  }

  /** The last active sample is left with exactly a margin after it, or with all there is. */
  lemma TrimKeepsLast(s: Samples) returns (k: nat)
    requires ActiveIndices(s) != []
    ensures k < |Trimmed(s)| && IsActive(Trimmed(s)[k]) && forall j :: k < j < |Trimmed(s)| ==> !IsActive(Trimmed(s)[j])
    ensures |Trimmed(s)| == k + MARGIN + 1 || (|Trimmed(s)| < k + MARGIN + 1 && TrimEnd(s) == |s|)
  {
    var a := ActiveIndices(s);
    TrimBounds(s, a[0], a[|a|-1]);
    k := a[|a|-1] - TrimStart(s);
    TrimmedAt(s, k);
    QuietAfterLast(s, k);
  }

  lemma QuietAfterLast(s: Samples, k: nat)
    requires ActiveIndices(s) != [] && TrimStart(s) + k == ActiveIndices(s)[|ActiveIndices(s)|-1]
    ensures forall j :: k < j < |Trimmed(s)| ==> !IsActive(Trimmed(s)[j])
  {
    forall j | k < j < |Trimmed(s)| ensures !IsActive(Trimmed(s)[j]) {
      TrimmedAt(s, j);
      LastActive(s, TrimStart(s) + j);
    }
  }

  lemma OutsideAscending(a: seq<nat>, j: nat)
    requires a != [] && (j < a[0] || a[|a|-1] < j) && forall i, k :: 0 <= i < k < |a| ==> a[i] < a[k]
    ensures j !in a
  {
  }

  lemma FirstActive(s: Samples, j: nat)
    requires ActiveIndices(s) != [] && j < ActiveIndices(s)[0]
    ensures !IsActive(s[j])
  {
    OutsideAscending(ActiveIndices(s), j);
  }

  lemma LastActive(s: Samples, j: nat)
    requires ActiveIndices(s) != [] && ActiveIndices(s)[|ActiveIndices(s)|-1] < j < |s|
    ensures !IsActive(s[j])
  {
    OutsideAscending(ActiveIndices(s), j);
  }

  lemma NothingBefore(t: Samples, k: nat)
    requires k < |t| && k <= MARGIN && IsActive(t[k])
    ensures TrimStart(t) == 0
  {
    var a := ActiveIndices(t);
    var i :| 0 <= i < |a| && a[i] == k;
    assert a[0] <= a[i];
  }

  lemma NothingAfter(t: Samples, k: nat)
    requires k < |t| <= k + MARGIN + 1 && IsActive(t[k])
    ensures TrimEnd(t) == |t|
  {
    var a := ActiveIndices(t);
    var i :| 0 <= i < |a| && a[i] == k;
    assert a[i] <= a[|a|-1];
  }

  /** What is trimmed is not trimmed further. */
  lemma TrimTwice(s: Samples)
    ensures Trimmed(Trimmed(s)) == Trimmed(s)
  {
    var t := Trimmed(s);
    if ActiveIndices(s) == [] {
      assert t == s;
    } else {
      var first := TrimKeepsFirst(s);
      NothingBefore(t, first);
      var last := TrimKeepsLast(s);
      NothingAfter(t, last);
    }
  }

  // ----- Normalizing -----

  function Peak(s: Samples): nat {
    if s == [] then 0
    else
      var before := Peak(s[..|s|-1]);
      if Abs(s[|s|-1]) > before then Abs(s[|s|-1]) else before
  }

  lemma {:induction false} PeakIsMax(s: Samples)
    ensures forall i :: 0 <= i < |s| ==> Abs(s[i]) <= Peak(s)
    ensures s != [] ==> exists i :: 0 <= i < |s| && Abs(s[i]) == Peak(s)
  {
    if s != [] {
      var front := s[..|s|-1];
      PeakIsMax(front);
      if Abs(s[|s|-1]) >= Peak(front) {
        assert Abs(s[|s|-1]) == Peak(s);
      } else if front != [] {
        var i :| 0 <= i < |front| && Abs(front[i]) == Peak(front);
        assert s[i] == front[i];
      }
    }
  }

  function GainFor(peak: nat): real
    requires 0 < peak
  {
    var g := TARGET_PEAK as real / peak as real;
    if g < MAX_GAIN then g else MAX_GAIN
  }

  function Clamped(v: int): int {
    if v < -32768 then -32768 else if v > 32767 then 32767 else v
  }

  /** Multiplies by the gain, rounds, and clamps. */
  function Amplifier(round: real -> int, gain: real): int -> int {
    (v: int) => Clamped(round(v as real * gain))
  }

  function Mapped(s: Samples, f: int -> int): Samples {
    seq(|s|, i requires 0 <= i < |s| => f(s[i]))
  }

  predicate IsQuiet(s: Samples) {
    Peak(s) > 0 && GainFor(Peak(s)) > 1.0
  }

  function Normalized(s: Samples): Samples {
    if IsQuiet(s) then Mapped(s, Amplifier(Round, GainFor(Peak(s)))) else s
  }

  /** The peak that normalizing aims at: 90 % of full scale, or eight times the peak if that is less. */
  function NewPeak(peak: nat): nat {
    Min(TARGET_PEAK, 8 * peak)
  }

  lemma ScaleOrder(x: real, y: real, g: real)
    requires x <= y && 0.0 < g
    ensures x * g <= y * g
  {
  }

  lemma ScaleStrict(x: real, y: real, g: real)
    requires x < y && 0.0 < g
    ensures x * g < y * g
  {
  }

  /** The gain takes the peak exactly to the top, which fits into 16 bits. */
  predicate Fits(peak: nat, gain: real, top: int) {
    0 <= top <= 32767 && 0.0 < gain && peak as real * gain == top as real
  }

  lemma GainTimesPeak(peak: nat)
    requires 0 < peak
    ensures Fits(peak, GainFor(peak), NewPeak(peak))
  {
    var g := TARGET_PEAK as real / peak as real;
    assert g * peak as real == TARGET_PEAK as real;
    if g < MAX_GAIN {
      assert TARGET_PEAK < 8 * peak by { ScaleStrict(g, MAX_GAIN, peak as real); }
    } else {
      ScaleOrder(MAX_GAIN, g, peak as real);
    }
  }

  lemma NegatedProduct(x: real, g: real)
    ensures -x * g == -(x * g)
  {
  }

  lemma ProductBounded(x: real, y: real, g: real)
    requires -y <= x <= y && 0.0 < g
    ensures -(y * g) <= x * g <= y * g
  {
    ScaleOrder(x, y, g);
    ScaleOrder(-y, x, g);
    NegatedProduct(y, g);
  }

  function Whole(n: int): real {
    n as real
  }

  /** Never reverses order, and leaves whole numbers alone. */
  ghost predicate IsRounding(round: real -> int) {
    && (forall x, y :: x <= y ==> round(x) <= round(y))
    && (forall n :: round(Whole(n)) == n)
  }

  lemma RoundIsRounding()
    ensures IsRounding(Round)
  {
    forall x: real, y: real | x <= y ensures Round(x) <= Round(y) {
      RoundMonotone(x, y);
    }
    forall n ensures Round(Whole(n)) == n {
      RoundExact(n);
    }
  }

  lemma RoundedBounded(round: real -> int, x: real, top: int)
    requires 0 <= top && IsRounding(round) && Whole(-top) <= x <= Whole(top) && top <= 32767
    ensures Clamped(round(x)) == round(x) && Abs(round(x)) <= top
    ensures x == Whole(top) || x == Whole(-top) ==> Abs(round(x)) == top
  {
    assert round(Whole(top)) == top && round(Whole(-top)) == -top;
  }

  lemma ScaledBounded(v: int, peak: nat, gain: real, top: int)
    requires Abs(v) <= peak && Fits(peak, gain, top)
    ensures Whole(-top) <= v as real * gain <= Whole(top)
    ensures Abs(v) == peak ==> v as real * gain == Whole(top) || v as real * gain == Whole(-top)
  {
    ProductBounded(v as real, peak as real, gain);
    NegatedProduct(peak as real, gain);
  }

  /** Up to the peak nothing is clamped, and samples at the peak get to the new peak exactly. */
  lemma AmplifiedBounded(round: real -> int, v: int, peak: nat, gain: real, top: int)
    requires IsRounding(round) && Abs(v) <= peak && Fits(peak, gain, top)
    ensures Amplifier(round, gain)(v) == round(v as real * gain)
    ensures Abs(Amplifier(round, gain)(v)) <= top && (Abs(v) == peak ==> Abs(Amplifier(round, gain)(v)) == top)
  {
    ScaledBounded(v, peak, gain, top);
    RoundedBounded(round, v as real * gain, top);
  }

  lemma AmplifiedKeepsOrder(round: real -> int, v: int, w: int, gain: real)
    requires IsRounding(round) && gain > 0.0 && v <= w
    ensures Amplifier(round, gain)(v) <= Amplifier(round, gain)(w)
  {
    ScaleOrder(v as real, w as real, gain);
    assert round(v as real * gain) <= round(w as real * gain);
  }

  lemma AmplifiedKeepsSign(round: real -> int, v: int, gain: real)
    requires IsRounding(round) && gain > 1.0
    ensures v > 0 ==> Amplifier(round, gain)(v) > 0
    ensures v < 0 ==> Amplifier(round, gain)(v) < 0
    ensures v == 0 ==> Amplifier(round, gain)(v) == 0
  {
    var x := v as real * gain;
    assert round(Whole(0)) == 0 && round(Whole(1)) == 1 && round(Whole(-1)) == -1;
    if v > 0 {
      ProductAbove(v as real, gain);
      assert round(Whole(1)) <= round(x);
    } else if v < 0 {
      ProductAbove(-(v as real), gain);
      NegatedProduct(v as real, gain);
      assert round(x) <= round(Whole(-1));
    }
  }

  lemma ProductAbove(x: real, g: real)
    requires x >= 1.0 && g >= 1.0
    ensures x * g >= 1.0
  {
  }

  /** Within the bound the function stays below the top and takes the bound itself to it. */
  ghost predicate TakesTo(f: int -> int, bound: nat, top: int) {
    forall v :: Abs(v) <= bound ==> Abs(f(v)) <= top && (Abs(v) == bound ==> Abs(f(v)) == top)
  }

  lemma AmplifierTakesTo(round: real -> int, peak: nat, gain: real, top: int)
    requires IsRounding(round) && Fits(peak, gain, top)
    ensures TakesTo(Amplifier(round, gain), peak, top)
  {
    forall v | Abs(v) <= peak
      ensures Abs(Amplifier(round, gain)(v)) <= top && (Abs(v) == peak ==> Abs(Amplifier(round, gain)(v)) == top)
    {
      AmplifiedBounded(round, v, peak, gain, top);
    }
  }

  lemma MappedPeak(s: Samples, f: int -> int, top: int)
    requires s != [] && TakesTo(f, Peak(s), top)
    ensures Peak(Mapped(s, f)) == top
  {
    PeakIsMax(s);
    PeakIsMax(Mapped(s, f));
    var i :| 0 <= i < |s| && Abs(s[i]) == Peak(s);
    assert Abs(Mapped(s, f)[i]) == top;
  }

  /** A quiet recording is brought to exactly the peak aimed at; a louder one is left alone. */
  lemma NormalizedPeak(s: Samples)
    requires s != []
    ensures |Normalized(s)| == |s|
    ensures Peak(Normalized(s)) == if IsQuiet(s) then NewPeak(Peak(s)) else Peak(s)
  {
    if IsQuiet(s) {
      RoundIsRounding();
      GainTimesPeak(Peak(s));
      AmplifierTakesTo(Round, Peak(s), GainFor(Peak(s)), NewPeak(Peak(s)));
      MappedPeak(s, Amplifier(Round, GainFor(Peak(s))), NewPeak(Peak(s)));
    }
  }

  /** The two samples are amplified without being clamped, keep their signs, and their order. */
  ghost predicate ShapeKept(v: int, w: int, x: int, y: int, round: real -> int, gain: real) {
    && x == round(v as real * gain) && y == round(w as real * gain)
    && (v > 0 <==> x > 0) && (v < 0 <==> x < 0) && (v <= w ==> x <= y)
  }

  lemma AmplifierKeepsShape(round: real -> int, v: int, w: int, peak: nat, gain: real, top: int)
    requires IsRounding(round) && Abs(v) <= peak && Abs(w) <= peak && 1.0 < gain && Fits(peak, gain, top)
    ensures ShapeKept(v, w, Amplifier(round, gain)(v), Amplifier(round, gain)(w), round, gain)
  {
    AmplifiedBounded(round, v, peak, gain, top);
    AmplifiedBounded(round, w, peak, gain, top);
    AmplifiedKeepsSign(round, v, gain);
    if v <= w { AmplifiedKeepsOrder(round, v, w, gain); }
  }

  /** Nothing is clamped, signs and order are kept. */
  lemma NormalizedKeepsShape(s: Samples, i: nat, j: nat)
    requires IsQuiet(s) && i < |s| && j < |s|
    ensures |Normalized(s)| == |s|
    ensures ShapeKept(s[i], s[j], Normalized(s)[i], Normalized(s)[j], Round, GainFor(Peak(s)))
  {
    PeakIsMax(s);
    RoundIsRounding();
    GainTimesPeak(Peak(s));
    AmplifierKeepsShape(Round, s[i], s[j], Peak(s), GainFor(Peak(s)), NewPeak(Peak(s)));
  }

  lemma NormalizedPcm16(s: Samples)
    requires AllPcm16(s)
    ensures AllPcm16(Normalized(s)) && |Normalized(s)| == |s|
  {
    if IsQuiet(s) {
      NormalizedPeak(s);
      PeakIsMax(Normalized(s));
    }
  }

  // ----- The whole pipeline -----

  function Padded(s: Samples): Samples {
    if |s| >= MIN_FRAMES then s else s + seq(MIN_FRAMES - |s|, i => 0)
  }

  datatype Mode = Identification | Enrollment | WakeWord

  function MinimumSpeech(mode: Mode): real {
    match mode
    case Identification => 0.25
    case Enrollment => 0.35
    case WakeWord => 0.15
  }

  function Energy(s: Samples): nat {
    if s == [] then 0 else Energy(s[..|s|-1]) + Abs(s[|s|-1]) * Abs(s[|s|-1])
  }

  /** The root mean square on the scale of 1 is below 0.0015; both sides are squared here. */
  predicate IsLowSignal(s: Samples) {
    s == [] || Energy(s) as real / (|s| as real * 32768.0 * 32768.0) < 0.0015 * 0.0015
  }

  datatype Processed = Processed(wav: Wav, duration: real, speech: real)

  function Resampling(w: Wav): Result<Samples, Reason> {
    match DecodedWav(w)
    case Err(reason) => Err(reason)
    case Ok(decoded) =>
      match ToMono(decoded.channels)
      case Err(reason) => Err(reason)
      case Ok(mono) => Ok(Resampled(mono, decoded.rate))
  }

  function Finished(s: Samples): Samples {
    Padded(Normalized(Trimmed(s)))
  }

  function Preprocessed(w: Wav, mode: Mode): Result<Processed, Reason> {
    match Resampling(w)
    case Err(reason) => Err(reason)
    case Ok(s) =>
      var speech := SpeechFrames(s) as real / TARGET_RATE as real;
      if mode == Enrollment && IsLowSignal(Trimmed(s)) then Err(LowSignal)
      else if speech < MinimumSpeech(mode) then Err(TooShort)
      else Ok(Processed(MonoWav(Finished(s)), |Finished(s)| as real / TARGET_RATE as real, speech))
  }

  lemma ResamplingPcm16(w: Wav)
    ensures Resampling(w).Ok? ==> AllPcm16(Resampling(w).value)
  {
    if Resampling(w).Ok? {
      var d := DecodedWav(w).value;
      forall c | 0 <= c < |d.channels| ensures Within(-0x8000, 0x7FFF, d.channels[c]) {
        assert AllPcm16(d.channels[c]);
      }
      ToMonoWithin(d.channels, -0x8000, 0x7FFF);
      ResampledWithin(ToMono(d.channels).value, d.rate, -0x8000, 0x7FFF);
    }
  }

  lemma FinishedPcm16(s: Samples)
    requires AllPcm16(s)
    ensures AllPcm16(Finished(s)) && |Finished(s)| >= MIN_FRAMES
  {
    NormalizedPcm16(Trimmed(s));
  }

  /** Whatever is accepted decodes to at least a second of 16-bit mono audio: the trimmed input, normalized, and
      silence after it. */
  lemma AcceptedAudio(w: Wav, mode: Mode)
    requires Preprocessed(w, mode).Ok?
    ensures var p := Preprocessed(w, mode).value;
            && Resampling(w).Ok?
            && var s := Resampling(w).value;
            && DecodedWav(p.wav) == Ok(Decoded([Finished(s)], TARGET_RATE))
            && |Finished(s)| >= MIN_FRAMES && |Trimmed(s)| <= |Finished(s)| && AllPcm16(Finished(s))
            && (|Finished(s)| == MIN_FRAMES || |Finished(s)| == |Trimmed(s)|)
            && Finished(s)[..|Trimmed(s)|] == Normalized(Trimmed(s))
            && (forall i :: |Trimmed(s)| <= i < |Finished(s)| ==> Finished(s)[i] == 0)
            && p.speech >= MinimumSpeech(mode) && |Trimmed(s)| as real / TARGET_RATE as real == p.speech
  {
    ResamplingPcm16(w);
    var s := Resampling(w).value;
    FinishedPcm16(s);
    NormalizedPcm16(Trimmed(s));
    DecodeEncode(Finished(s));
  }

  // ----- The loops -----

  method DecodeWav(w: Wav) returns (r: Result<Decoded, Reason>)
    ensures r == DecodedWav(w)
  {
    if w.NotWav? { return Err(InvalidAudio); }
    if w.sampleWidth != 2 { return Err(UnsupportedSampleWidth); }
    if w.channels != 1 && w.channels != 2 { return Err(UnsupportedChannels); }
    if w.sampleRate <= 0 { return Err(InvalidSampleRate); }
    var frameSize := 2 * w.channels;
    if |w.frames| % frameSize != 0 { return Err(InvalidAudio); }
    ghost var n := FrameCount(|w.frames|, w.channels);
    var decoded: seq<Samples> := seq(w.channels, c => []);
    var offset := 0;
    ghost var k := 0;
    while offset < |w.frames|
      invariant 0 <= k <= n && offset == k * frameSize && |decoded| == w.channels
      invariant forall c :: 0 <= c < w.channels ==> decoded[c] == ChannelOf(w.frames, w.channels, c, k)
    {
      for channel := 0 to w.channels
        invariant |decoded| == w.channels
        invariant forall c :: 0 <= c < w.channels ==>
          decoded[c] == ChannelOf(w.frames, w.channels, c, if c < channel then k + 1 else k)
      {
        var start := offset + channel * 2;
        var value := Value(w.frames[start], w.frames[start+1]);
        ChannelOneMore(w.frames, w.channels, channel, k);
        decoded := decoded[channel := decoded[channel] + [value]];
      }
      offset := offset + frameSize;
      k := k + 1;
    }
    assert decoded == Separated(w.frames, w.channels);
    return Ok(Decoded(decoded, w.sampleRate));
  }

  lemma ChannelOneMore(frames: seq<byte>, channels: nat, c: nat, k: nat)
    requires c < channels && (k + 1) * channels * 2 <= |frames|
    ensures ChannelOf(frames, channels, c, k + 1) ==
            ChannelOf(frames, channels, c, k) + [ChannelSample(frames, channels, c, k)]
  {
  }

  method Resample(s: Samples, rate: int) returns (output: Samples)
    requires 0 < rate
    ensures output == Resampled(s, rate)
  {
    if rate == TARGET_RATE { return s; }
    if s == [] { return []; }
    var outputLength := OutputLength(|s|, rate);
    output := [];
    for index := 0 to outputLength
      invariant |output| == index
      invariant forall i :: 0 <= i < index ==> output[i] == Round(Interpolated(s, rate, i))
    {
      var position := Position(index, rate);
      var left := LeftIndex(|s|, position);
      var right := Min(left + 1, |s| - 1);
      var value := Blend(s[left], s[right], position - left as real);
      output := output + [Round(value)];
    }
  }

  /** Fails if a sample does not fit into 16 bits, and only then. */
  method EncodeWav(s: Samples) returns (ok: bool, w: Wav)
    ensures ok <==> AllPcm16(s)
    ensures ok ==> w == MonoWav(s)
  {
    var pcm: seq<byte> := [];
    for i := 0 to |s|
      invariant pcm == Encoded(s[..i]) && forall k :: 0 <= k < i ==> IsPcm16(s[k])
    {
      if !IsPcm16(s[i]) { return false, NotWav; }
      assert s[..i+1][..i] == s[..i];
      pcm := pcm + [LowByte(s[i]), HighByte(s[i])];
    }
    assert s[..|s|] == s;
    return true, Wav(1, 2, TARGET_RATE, pcm);
  }

  /** The encoder never fails on what the stages before it produce. */
  method PreprocessAudio(raw: Wav, mode: Mode) returns (r: Result<Processed, Reason>)
    ensures r == Preprocessed(raw, mode)
  {
    ResamplingPcm16(raw);
    var decoded := DecodeWav(raw);
    if decoded.Err? { return Err(decoded.error); }
    var mono := ToMono(decoded.value.channels);
    if mono.Err? { return Err(mono.error); }
    var resampled := Resample(mono.value, decoded.value.rate);
    var trimmed, speechSeconds := Trimmed(resampled), SpeechFrames(resampled) as real / TARGET_RATE as real;
    if mode == Enrollment && IsLowSignal(trimmed) { return Err(LowSignal); }
    if speechSeconds < MinimumSpeech(mode) { return Err(TooShort); }
    var padded := Padded(Normalized(trimmed));
    FinishedPcm16(resampled);
    var ok, wav := EncodeWav(padded);
    assert ok;
    return Ok(Processed(wav, |padded| as real / TARGET_RATE as real, speechSeconds));
  }
}
