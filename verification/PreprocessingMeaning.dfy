/** What the sample pipeline accepts, and what comes out of each stage, in numbers of the audio format. */
module PreprocessingMeaning {
  import opened Wrappers
  import opened Preprocessing

  // ----- Rounding -----

  /** To the nearest integer; from halfway to the even one. No other integer is like that. */
  ghost predicate IsNearest(n: int, x: real) {
    && n as real - 0.5 <= x <= n as real + 0.5
    && (x == n as real - 0.5 || x == n as real + 0.5 ==> n % 2 == 0)
  }

  lemma RoundIsNearest(x: real)
    ensures IsNearest(Round(x), x) && forall n :: IsNearest(n, x) ==> n == Round(x)
  {
    RoundNearest(x);
    forall n | IsNearest(n, x) ensures n == Round(x) {
      assert x as real - 0.5 <= n as real <= x + 0.5;
    }
  }

  // ----- Decoding -----

  /** Two bytes hold the value: little-endian, negative from 32768 on. */
  predicate Holds(low: byte, high: byte, v: int) {
    low as int + 256 * high as int == if v < 0 then v + 65536 else v
  }

  /** Channel c is every channels-th sample, from the c-th on. */
  ghost predicate IsChannel(s: Samples, frames: seq<byte>, channels: nat, c: nat) {
    && |s| * channels * 2 == |frames|
    && forall k :: 0 <= k < |s| ==> SampleHeld(frames, (k * channels + c) * 2, s[k])
  }

  predicate SampleHeld(frames: seq<byte>, offset: int, v: int) {
    0 <= offset < |frames| - 1 && -32768 <= v < 32768 && Holds(frames[offset], frames[offset+1], v)
  }

  /** The decoder's rejections, each with its condition, and what it makes of the rest. */
  ghost predicate DecodeMeans(w: Wav, r: Result<Decoded, Reason>) {
    match w
    case NotWav => r == Err(InvalidAudio)
    case Wav(channels, width, rate, frames) =>
      && (r == Err(UnsupportedSampleWidth) <==> width != 2)
      && (r == Err(UnsupportedChannels) <==> width == 2 && channels != 1 && channels != 2)
      && (r == Err(InvalidSampleRate) <==> width == 2 && (channels == 1 || channels == 2) && rate < 1)
      && (r == Err(InvalidAudio) <==>
            width == 2 && rate >= 1 && ((channels == 1 && |frames| % 2 != 0) || (channels == 2 && |frames| % 4 != 0)))
      && (r.Ok? <==>
            width == 2 && rate >= 1 && ((channels == 1 && |frames| % 2 == 0) || (channels == 2 && |frames| % 4 == 0)))
      && (r.Ok? ==> r.value.rate == rate && |r.value.channels| == channels
                    && forall c :: 0 <= c < channels ==> IsChannel(r.value.channels[c], frames, channels, c))
  }

  lemma SeparatedChannel(frames: seq<byte>, channels: nat, c: nat)
    requires c < channels <= 2 && |frames| % (2 * channels) == 0
    ensures IsChannel(Separated(frames, channels)[c], frames, channels, c)
  {
    var n := FrameCount(|frames|, channels);
    var s := ChannelOf(frames, channels, c, n);
    forall k | 0 <= k < n ensures SampleHeld(frames, (k * channels + c) * 2, s[k]) {
      assert (k + 1) * channels <= n * channels;
      assert s[k] == ChannelSample(frames, channels, c, k);
    }
  }

  lemma DecodingIsMeant(w: Wav)
    ensures DecodeMeans(w, DecodedWav(w))
  {
    if DecodedWav(w).Ok? {
      forall c | 0 <= c < w.channels ensures IsChannel(Separated(w.frames, w.channels)[c], w.frames, w.channels, c) {
        SeparatedChannel(w.frames, w.channels, c);
      }
    }
  }

  /** Left and right in turn. */
  function Interleaved(left: Samples, right: Samples): Samples
    requires |left| == |right|
  {
    seq(2 * |left|, i requires 0 <= i < 2 * |left| => if i % 2 == 0 then left[i / 2] else right[i / 2])
  }

  lemma InterleavedAt(left: Samples, right: Samples, k: nat)
    requires k < |left| == |right| && AllPcm16(left) && AllPcm16(right)
    ensures var s := Interleaved(left, right);
            && AllPcm16(s) && |Encoded(s)| == 4 * |left|
            && ChannelSample(Encoded(s), 2, 0, k) == left[k] && ChannelSample(Encoded(s), 2, 1, k) == right[k]
  {
    var s := Interleaved(left, right);
    assert s[2 * k] == left[k] && s[2 * k + 1] == right[k];
    EncodedBytes(s, 2 * k);
    EncodedBytes(s, 2 * k + 1);
  }

  lemma ChannelBack(left: Samples, right: Samples, c: nat)
    requires |left| == |right| && AllPcm16(left) && AllPcm16(right) && c < 2
    ensures |Encoded(Interleaved(left, right))| == 4 * |left|
    ensures ChannelOf(Encoded(Interleaved(left, right)), 2, c, |left|) == [left, right][c]
  {
    var frames := Encoded(Interleaved(left, right));
    if left == [] { return; }
    InterleavedAt(left, right, 0);
    var s := ChannelOf(frames, 2, c, |left|);
    forall k | 0 <= k < |left| ensures s[k] == [left, right][c][k] {
      InterleavedAt(left, right, k);
      assert s[k] == ChannelSample(frames, 2, c, k);
    }
  }

  /** Decoding what was encoded in stereo gives both channels back. */
  lemma StereoDecodeEncode(left: Samples, right: Samples, rate: int)
    requires |left| == |right| && AllPcm16(left) && AllPcm16(right) && rate > 0
    ensures DecodedWav(Wav(2, 2, rate, Encoded(Interleaved(left, right)))) == Ok(Decoded([left, right], rate))
  {
    ChannelBack(left, right, 0);
    ChannelBack(left, right, 1);
    assert Separated(Encoded(Interleaved(left, right)), 2) == [left, right];
  }

  // ----- Mixing and resampling -----

  /** Half of the sum, towards zero. */
  predicate IsHalf(m: int, sum: int) {
    2 * m == sum || (2 * m == sum - 1 && sum > 0) || (2 * m == sum + 1 && sum < 0)
  }

  /** One channel is passed on, of two the means of simultaneous samples, and audio without samples is refused. */
  ghost predicate MixMeans(channels: seq<Samples>, r: Result<Samples, Reason>) {
    && (r == Err(NoAudio) <==> channels == [] || |channels[0]| == 0)
    && (r.Err? ==> r == Err(NoAudio))
    && (r.Ok? && |channels| == 1 ==> r.value == channels[0])
    && (r.Ok? && |channels| == 2 ==>
          && (|r.value| == |channels[0]| <= |channels[1]| || |r.value| == |channels[1]| <= |channels[0]|)
          && forall i :: 0 <= i < |r.value| ==> IsHalf(r.value[i], channels[0][i] + channels[1][i]))
  }

  lemma MixedIsHalf(a: int, b: int)
    ensures IsHalf(MixedSample(a, b), a + b)
  {
    MixedSampleIsMean(a, b);
    SignOfMix(MixedSample(a, b), a + b);
  }

  lemma SignOfMix(m: int, sum: int)
    requires m * sum >= 0 && Abs(2 * m) <= Abs(sum) <= Abs(2 * m) + 1
    ensures IsHalf(m, sum)
  {
    if m != 0 {
      assert (m > 0) == (sum > 0) by { OppositeSigns(m, sum); }
    }
  }

  lemma OppositeSigns(m: int, sum: int)
    ensures (m > 0 && sum < 0) || (m < 0 && sum > 0) ==> m * sum < 0
  {
  }

  lemma MixingIsMeant(channels: seq<Samples>)
    requires |channels| <= 2
    ensures MixMeans(channels, ToMono(channels))
  {
    if ToMono(channels).Ok? && |channels| == 2 {
      var r := ToMono(channels).value;
      forall i | 0 <= i < |r| ensures IsHalf(r[i], channels[0][i] + channels[1][i]) {
        MixedIsHalf(channels[0][i], channels[1][i]);
      }
    }
  }

  /** v lies at position p on the line that joins the samples, and beyond the last one at its height. */
  ghost predicate OnLine(s: Samples, p: real, v: real) {
    && (forall k :: 0 <= k < |s| - 1 && k as real <= p < (k + 1) as real ==> v == Joined(s[k], s[k+1], p - k as real))
    && (s != [] && p >= (|s| - 1) as real ==> v == s[|s|-1] as real)
  }

  function Joined(a: int, b: int, part: real): real {
    a as real + (b - a) as real * part
  }

  /** Where the line is at the time of sample i, in samples of the input. */
  function Time(i: nat, rate: int): real {
    i as real * (rate as real / 16000.0)
  }

  ghost predicate ReadOff(r: Samples, s: Samples, rate: int) {
    forall i, v :: 0 <= i < |r| && OnLine(s, Time(i, rate), v) ==> IsNearest(r[i], v)
  }

  /** At 16000 samples a second nothing changes; else the length is scaled to the nearest whole number, but to no
      less than 1, and the samples are read off the line, rounded to the nearest. */
  ghost predicate ResampleMeans(s: Samples, rate: int, r: Samples)
    requires rate > 0
  {
    if rate == 16000 || s == [] then r == s
    else
      && (IsNearest(|r|, (|s| * 16000) as real / rate as real) ||
            (|r| == 1 && IsNearest(0, (|s| * 16000) as real / rate as real)))
      && ReadOff(r, s, rate)
  }

  lemma BlendIsJoined(a: int, b: int, part: real)
    ensures Blend(a, b, part) == Joined(a, b, part)
  {
  }

  lemma InterpolatedOnLine(s: Samples, rate: int, i: nat, v: real)
    requires 0 < rate && s != [] && OnLine(s, Position(i, rate), v)
    ensures v == Interpolated(s, rate, i)
  {
    var p := Position(i, rate);
    var k := LeftIndex(|s|, p);
    if k < |s| - 1 {
      BlendIsJoined(s[k], s[k+1], p - k as real);
    } else {
      BlendOfEqual(s[k], p - k as real);
    }
  }

  lemma LengthNonnegative(n: nat, rate: int)
    requires 0 < rate
    ensures (n * 16000) as real / rate as real >= 0.0
  {
  }

  lemma LengthIsMeant(n: nat, rate: int)
    requires 0 < rate
    ensures var exact := (n * 16000) as real / rate as real;
            IsNearest(OutputLength(n, rate), exact) || (OutputLength(n, rate) == 1 && IsNearest(0, exact))
  {
    var exact := (n * 16000) as real / rate as real;
    LengthNonnegative(n, rate);
    RoundWithin(exact, 0, exact.Floor + 1);
    RoundIsNearest(exact);
  }

  lemma TimeIsPosition(i: nat, rate: int)
    requires 0 < rate
    ensures Time(i, rate) == Position(i, rate)
  {
  }

  lemma SampleIsMeant(s: Samples, rate: int, i: nat, v: real)
    requires 0 < rate && rate != 16000 && s != [] && i < |Resampled(s, rate)| && OnLine(s, Time(i, rate), v)
    ensures IsNearest(Resampled(s, rate)[i], v)
  {
    TimeIsPosition(i, rate);
    InterpolatedOnLine(s, rate, i, v);
    RoundIsNearest(v);
  }

  lemma SamplesAreMeant(s: Samples, rate: int)
    requires rate > 0 && rate != 16000 && s != []
    ensures ReadOff(Resampled(s, rate), s, rate)
  {
    var r := Resampled(s, rate);
    forall i, v | 0 <= i < |r| && OnLine(s, Time(i, rate), v) ensures IsNearest(r[i], v) {
      SampleIsMeant(s, rate, i, v);
    }
  }

  lemma ResamplingIsMeant(s: Samples, rate: int)
    requires rate > 0
    ensures ResampleMeans(s, rate, Resampled(s, rate))
  {
    if rate != 16000 && s != [] {
      LengthIsMeant(|s|, rate);
      SamplesAreMeant(s, rate);
    }
  }

  // ----- Trimming -----

  predicate Loud(v: int) {
    v >= 98 || v <= -98
  }

  /** From 20 ms before the first loud sample to 20 ms after the last one, as far as there is that much. */
  ghost predicate TrimmedAround(s: Samples, t: Samples, first: nat, last: nat) {
    && first <= last < |s| && Loud(s[first]) && Loud(s[last])
    && (forall j :: 0 <= j < first ==> !Loud(s[j]))
    && (forall j :: last < j < |s| ==> !Loud(s[j]))
    && t == s[if first < 320 then 0 else first - 320 .. if |s| < last + 321 then |s| else last + 321]
  }

  ghost predicate IsSilent(s: Samples) {
    forall j :: 0 <= j < |s| ==> !Loud(s[j])
  }

  ghost predicate TrimMeans(s: Samples, t: Samples) {
    if IsSilent(s) then t == s else exists first, last :: TrimmedAround(s, t, first, last)
  }

  lemma ActiveIsLoud(s: Samples)
    ensures ActiveIndices(s) == [] <==> IsSilent(s)
  {
    if ActiveIndices(s) != [] {
      assert Loud(s[ActiveIndices(s)[0]]);
    } else {
      forall j | 0 <= j < |s| ensures !Loud(s[j]) {
        assert IsActive(s[j]) <==> Loud(s[j]);
      }
    }
  }

  lemma SilentOutside(s: Samples, first: nat, last: nat)
    requires ActiveIndices(s) != [] && first == ActiveIndices(s)[0] && last == ActiveIndices(s)[|ActiveIndices(s)|-1]
    ensures forall j :: 0 <= j < |s| && (j < first || last < j) ==> !Loud(s[j])
  {
    forall j | 0 <= j < |s| && (j < first || last < j) ensures !Loud(s[j]) {
      if j < first { FirstActive(s, j); } else { LastActive(s, j); }
    }
  }

  lemma TrimmedAroundLoud(s: Samples, first: nat, last: nat)
    requires ActiveIndices(s) != [] && first == ActiveIndices(s)[0] && last == ActiveIndices(s)[|ActiveIndices(s)|-1]
    ensures TrimmedAround(s, Trimmed(s), first, last)
  {
    SilentOutside(s, first, last);
    TrimBounds(s, first, last);
  }

  lemma TrimmingIsMeant(s: Samples)
    ensures TrimMeans(s, Trimmed(s))
  {
    var a := ActiveIndices(s);
    ActiveIsLoud(s);
    if a == [] {
      assert Trimmed(s) == s;
    } else {
      TrimmedAroundLoud(s, a[0], a[|a|-1]);
    }
  }

  // ----- Normalizing -----

  ghost predicate IsPeak(s: Samples, p: nat) {
    && (forall i :: 0 <= i < |s| ==> 0 <= s[i] + p <= 2 * p)
    && exists i :: 0 <= i < |s| && (s[i] == p || s[i] + p == 0)
  }

  /** What takes the peak to 29490, but at most eightfold. */
  function Factor(peak: nat): real
    requires 0 < peak
  {
    if 8 * peak <= 29490 then 8.0 else 29490.0 / peak as real
  }

  /** Each sample is multiplied by the gain and rounded to the nearest integer. */
  ghost predicate Scaled(n: Samples, s: Samples, gain: real) {
    |n| == |s| && forall i :: 0 <= i < |s| ==> IsNearest(n[i], s[i] as real * gain)
  }

  /** A recording of a peak below 29490 is scaled up so that this becomes its peak, but at most eightfold. */
  ghost predicate NormalizeMeans(s: Samples, n: Samples, peak: nat) {
    var top := if 8 * peak < 29490 then 8 * peak else 29490;
    if 0 < peak < 29490
    then IsPeak(n, top) && Scaled(n, s, Factor(peak))
    else n == s
  }

  lemma FactorIsGain(peak: nat)
    requires 0 < peak
    ensures Factor(peak) == GainFor(peak)
  {
    var g := TARGET_PEAK as real / peak as real;
    assert g * peak as real == 29490.0;
    if 8 * peak <= 29490 {
      if g < 8.0 { ScaleStrict(g, 8.0, peak as real); }
    } else {
      if g >= 8.0 { ScaleOrder(8.0, g, peak as real); }
    }
  }

  lemma QuietExactly(s: Samples)
    ensures IsQuiet(s) <==> 0 < Peak(s) < 29490
  {
    if Peak(s) > 0 {
      var g := 29490 as real / Peak(s) as real;
      assert g * Peak(s) as real == 29490 as real;
      if Peak(s) < 29490 {
        assert g > 1.0 by { if g <= 1.0 { ScaleOrder(g, 1.0, Peak(s) as real); } }
      } else {
        assert g <= 1.0 by { if g > 1.0 { ScaleStrict(1.0, g, Peak(s) as real); } }
      }
    }
  }

  lemma PeakIsPeak(s: Samples, p: nat)
    requires s != []
    ensures IsPeak(s, p) <==> p == Peak(s)
  {
    PeakIsMax(s);
    var i :| 0 <= i < |s| && Abs(s[i]) == Peak(s);
    assert s[i] == Peak(s) || s[i] + Peak(s) == 0;
  }

  lemma ShapeRounds(v: int, n: int, gain: real)
    requires ShapeKept(v, v, n, n, Round, gain)
    ensures IsNearest(n, v as real * gain)
  {
    RoundIsNearest(v as real * gain);
  }

  lemma ScaledFromShape(n: Samples, s: Samples, gain: real)
    requires |n| == |s| && forall i :: 0 <= i < |s| ==> ShapeKept(s[i], s[i], n[i], n[i], Round, gain)
    ensures Scaled(n, s, gain)
  {
    forall i | 0 <= i < |s| ensures IsNearest(n[i], s[i] as real * gain) {
      ShapeRounds(s[i], n[i], gain);
    }
  }

  lemma NormalizedScaled(s: Samples, gain: real)
    requires IsQuiet(s) && gain == GainFor(Peak(s))
    ensures Scaled(Normalized(s), s, gain)
  {
    var n := Normalized(s);
    assert |n| == |s|;
    forall i | 0 <= i < |s| ensures ShapeKept(s[i], s[i], n[i], n[i], Round, gain) {
      NormalizedKeepsShape(s, i, i);
    }
    ScaledFromShape(n, s, gain);
  }

  lemma NormalizingIsMeant(s: Samples, peak: nat)
    requires IsPeak(s, peak)
    ensures NormalizeMeans(s, Normalized(s), peak)
  {
    PeakIsPeak(s, peak);
    QuietExactly(s);
    if IsQuiet(s) {
      NormalizedPeak(s);
      PeakIsPeak(Normalized(s), NewPeak(peak));
      FactorIsGain(peak);
      NormalizedScaled(s, Factor(peak));
    }
  }

  // ----- The level of an enrollment -----

  /** The energy of a recording is that of its parts, and that of a sample its square. */
  lemma {:induction false} EnergyAdds(s: Samples, t: Samples, v: int)
    ensures Energy(s + t) == Energy(s) + Energy(t) && Energy([v]) == v * v
  {
    if t == [] {
      assert s + t == s;
    } else {
      EnergyAdds(s, t[..|t|-1], v);
      assert (s + t)[..|s+t|-1] == s + t[..|t|-1];
    }
    assert [v][..0] == [];
  }

  /** The root mean square is below 0.0015 of full scale: its square, below 9 / 4000000 of 2^30. */
  predicate TooFaint(s: Samples) {
    s == [] || 4000000 * Energy(s) < 9 * 0x40000000 * |s|
  }

  lemma QuotientBelow(e: real, d: real, bound: real)
    requires 0.0 < d
    ensures e / d < bound <==> e < bound * d
  {
    var q := e / d;
    assert q * d == e;
    if q < bound {
      ScaleStrict(q, bound, d);
    } else {
      ScaleOrder(bound, q, d);
    }
  }

  lemma LowExactlyIfFaint(s: Samples)
    ensures IsLowSignal(s) <==> TooFaint(s)
  {
    if s != [] {
      var n := Whole(|s|);
      assert n * 32768.0 * 32768.0 > 0.0 && n * 32768.0 * 32768.0 == n * 1073741824.0;
      QuotientBelow(Energy(s) as real, n * 32768.0 * 32768.0, 0.0015 * 0.0015);
      FaintScaled(Energy(s), |s|);
    }
  }

  lemma FaintScaled(e: int, n: int)
    ensures e as real < 0.0015 * 0.0015 * (Whole(n) * 1073741824.0) <==> 4000000 * e < 9 * 0x40000000 * n
  {
    assert (4000000 * e) as real == 4000000.0 * e as real;
    assert (9 * 0x40000000 * n) as real == 9.0 * (Whole(n) * 1073741824.0);
  }

  // ----- The whole pipeline -----

  /** The frames of speech that a mode asks for: 250, 350 or 150 ms. */
  function FramesAsked(mode: Mode): nat {
    match mode
    case Identification => 4000
    case Enrollment => 5600
    case WakeWord => 2400
  }

  /** s is resampled audio, t what trimming leaves of it. */
  ghost predicate OutcomeMeans(s: Samples, t: Samples, mode: Mode, r: Result<Processed, Reason>) {
    && TrimMeans(s, t)
    && (r == Err(LowSignal) <==> mode == Enrollment && TooFaint(t))
    && (r == Err(TooShort) <==> r != Err(LowSignal) && (IsSilent(s) || |t| < FramesAsked(mode)))
    && (r.Err? ==> r == Err(LowSignal) || r == Err(TooShort))
    && (r.Ok? ==> OutputMeans(t, r.value))
  }

  /** The output decodes to the normalized recording, with silence after it up to a second. */
  ghost predicate OutputMeans(t: Samples, p: Processed) {
    && DecodedWav(p.wav).Ok?
    && var d := DecodedWav(p.wav).value;
    && d.rate == 16000 && |d.channels| == 1
    && var out := d.channels[0];
    && |out| == (if |t| < 16000 then 16000 else |t|)
    && (forall peak :: IsPeak(t, peak) ==> NormalizeMeans(t, out[..|t|], peak))
    && (forall i :: |t| <= i < |out| ==> out[i] == 0)
    && p.duration == |out| as real / 16000.0 && p.speech == |t| as real / 16000.0
  }

  lemma OutputIsMeant(w: Wav, mode: Mode)
    requires Preprocessed(w, mode).Ok?
    ensures Resampling(w).Ok? && OutputMeans(Trimmed(Resampling(w).value), Preprocessed(w, mode).value)
  {
    AcceptedAudio(w, mode);
    var t := Trimmed(Resampling(w).value);
    forall peak | IsPeak(t, peak) ensures NormalizeMeans(t, Normalized(t), peak) {
      NormalizingIsMeant(t, peak);
    }
  }

  lemma ShortExactly(n: nat, mode: Mode)
    ensures n as real / 16000.0 < MinimumSpeech(mode) <==> n < FramesAsked(mode)
  {
  }

  /** A recording that decodes and has samples is refused for its level or its length exactly as stated, and
      else it comes out as stated. */
  lemma PreprocessingIsMeant(w: Wav, mode: Mode)
    requires Resampling(w).Ok?
    ensures OutcomeMeans(Resampling(w).value, Trimmed(Resampling(w).value), mode, Preprocessed(w, mode))
  {
    var s := Resampling(w).value;
    TrimmingIsMeant(s);
    ActiveIsLoud(s);
    LowExactlyIfFaint(Trimmed(s));
    ShortExactly(SpeechFrames(s), mode);
    if Preprocessed(w, mode).Ok? {
      OutputIsMeant(w, mode);
    }
  }

  /** The recording that trimming gets is what was decoded, mixed and resampled. */
  ghost predicate Stages(w: Wav, d: Decoded, mono: Samples, s: Samples) {
    DecodeMeans(w, Ok(d)) && MixMeans(d.channels, Ok(mono)) && d.rate > 0 && ResampleMeans(mono, d.rate, s)
  }

  lemma StagesAreMeant(w: Wav)
    requires Resampling(w).Ok?
    ensures exists d, mono :: Stages(w, d, mono, Resampling(w).value)
  {
    var d := DecodedWav(w).value;
    DecodingIsMeant(w);
    MixingIsMeant(d.channels);
    var mono := ToMono(d.channels).value;
    ResamplingIsMeant(mono, d.rate);
    assert Stages(w, d, mono, Resampling(w).value);
  }

  /** One that does not decode is refused with the decoder's reason, and one without samples as such. */
  lemma RefusedUndecoded(w: Wav, mode: Mode)
    requires Resampling(w).Err?
    ensures Preprocessed(w, mode) == Err(Resampling(w).error)
    ensures Resampling(w).error == NoAudio <==> DecodedWav(w).Ok? && w.frames == []
    ensures DecodedWav(w).Err? ==> Preprocessed(w, mode) == Err(DecodedWav(w).error)
  {
    if DecodedWav(w).Ok? {
      SeparatedChannel(w.frames, w.channels, 0);
    }
  }
}
