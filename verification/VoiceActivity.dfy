/** The voice activity detector: when speech starts, when it has ended, and when to give up. */
module VoiceActivity {
  import opened RootMeanSquare

  datatype Decision = WaitingForSpeech | Speaking | Complete | NoSpeechTimeout | MaxDuration

  datatype Config = Config(speechRms: uint32, continuationRms: uint32, speechOnMs: uint32,
                           trailingSilenceMs: uint32, noSpeechTimeoutMs: uint32, maxDurationMs: uint32)

  const CLOCK: int := 0x1_0000_0000

  /** The detector's variables as numbers. */
  datatype Detector = Detector(started: int, candidateStarted: int, lastVoice: int,
                               candidateActive: bool, speechStarted: bool)

  /** How much time lies between two clock readings. */
  type Elapsed = (int, int) -> int

  function Plain(now: int, before: int): int { now - before }

  function Wrapping(now: int, before: int): int { (now - before) % CLOCK }

  function Fresh(now: int): Detector {
    Detector(now, now, now, false, false)
  }

  /** One update, on whichever clock `elapsed` reads. */
  function Step(c: Config, elapsed: Elapsed, d: Detector, level: int, now: int): (Detector, Decision) {
    if d.speechStarted then
      if elapsed(now, d.started) >= c.maxDurationMs as int then (d, MaxDuration)
      else
        var lastVoice := if level >= c.continuationRms as int then now else d.lastVoice;
        (d.(lastVoice := lastVoice),
         if elapsed(now, lastVoice) >= c.trailingSilenceMs as int then Complete else Speaking)
    else if elapsed(now, d.started) >= c.noSpeechTimeoutMs as int then (d, NoSpeechTimeout)
    else if level < c.speechRms as int then (d.(candidateActive := false), WaitingForSpeech)
    else if !d.candidateActive then (d.(candidateActive := true, candidateStarted := now), WaitingForSpeech)
    else if elapsed(now, d.candidateStarted) < c.speechOnMs as int then (d, WaitingForSpeech)
    else (d.(speechStarted := true, lastVoice := now), Speaking)
  }

  function Sub32(a: uint32, b: uint32): (r: uint32)
    ensures r as int == Wrapping(a as int, b as int)
  {
    ((a as int - b as int) % CLOCK) as uint32
  }

  class VoiceActivityDetector {
    const config: Config
    var startedMs: uint32
    var candidateStartedMs: uint32
    var lastVoiceMs: uint32
    var candidateActive: bool
    var speechStarted: bool

    function State(): Detector
      reads this
    {
      Detector(startedMs as int, candidateStartedMs as int, lastVoiceMs as int, candidateActive, speechStarted)
    }

    constructor (c: Config)
      ensures config == c && State() == Fresh(0)
    {
      config := c;
      startedMs, candidateStartedMs, lastVoiceMs := 0, 0, 0;
      candidateActive, speechStarted := false, false;
    }

    method Reset(nowMs: uint32)
      modifies this
      ensures State() == Fresh(nowMs as int)
    {
      startedMs := nowMs;
      candidateStartedMs := nowMs;
      lastVoiceMs := nowMs;
      candidateActive := false;
      speechStarted := false;
    }

    /** `level` is the level of the frame, whether or not the detector had to measure it. */
    method Update(samples: array?<int16>, count: uint32, nowMs: uint32)
      returns (decision: Decision, ghost level: uint32)
      requires samples != null ==> count as int <= samples.Length
      modifies this
      ensures samples == null || count == 0 ==> level == 0
      ensures samples != null && count > 0 ==> IsRms(level as int, samples[..count])
      ensures (State(), decision) == Step(config, Wrapping, old(State()), level as int, nowMs as int)
    {
      var rms := CalculateRms(samples, count);
      level := rms;
      var elapsed := Sub32(nowMs, startedMs);
      if speechStarted && elapsed >= config.maxDurationMs { return MaxDuration, level; }
      if !speechStarted {
        if elapsed >= config.noSpeechTimeoutMs { return NoSpeechTimeout, level; }
        if rms < config.speechRms {
          candidateActive := false;
          return WaitingForSpeech, level;
        }
        if !candidateActive {
          candidateActive := true;
          candidateStartedMs := nowMs;
          return WaitingForSpeech, level;
        }
        if Sub32(nowMs, candidateStartedMs) < config.speechOnMs { return WaitingForSpeech, level; }
        speechStarted := true;
        lastVoiceMs := nowMs;
        return Speaking, level;
      }
      if rms >= config.continuationRms { lastVoiceMs := nowMs; }
      if Sub32(nowMs, lastVoiceMs) >= config.trailingSilenceMs { return Complete, level; }
      return Speaking, level;
    }
  }

  // ----- Runs of updates after a reset -----

  datatype Frame = Frame(level: int, now: int)

  function After(c: Config, elapsed: Elapsed, t0: int, f: seq<Frame>): Detector {
    if f == [] then Fresh(t0)
    else Step(c, elapsed, After(c, elapsed, t0, f[..|f|-1]), f[|f|-1].level, f[|f|-1].now).0
  }

  /** What the last update of the run decided. */
  function Decided(c: Config, elapsed: Elapsed, t0: int, f: seq<Frame>): Decision
    requires f != []
  {
    Step(c, elapsed, After(c, elapsed, t0, f[..|f|-1]), f[|f|-1].level, f[|f|-1].now).1
  }

  ghost predicate InOrder(t0: int, f: seq<Frame>) {
    && (forall i :: 0 <= i < |f| ==> t0 <= f[i].now)
    && (forall i, j :: 0 <= i < j < |f| ==> f[i].now <= f[j].now)
  }

  // ----- The wrapping clock -----

  /** The same frames read off the 32-bit clock. */
  function OnClock(f: seq<Frame>): (r: seq<Frame>)
    ensures |r| == |f|
  {
    seq(|f|, i requires 0 <= i < |f| => Frame(f[i].level, f[i].now % CLOCK))
  }

  lemma WrappedDifference(now: int, before: int)
    requires 0 <= now - before < CLOCK
    ensures Wrapping(now % CLOCK, before % CLOCK) == Plain(now, before)
  {
  }

  ghost predicate SameOnClock(w: Detector, p: Detector, t0: int, now: int) {
    && w == Detector(p.started % CLOCK, p.candidateStarted % CLOCK, p.lastVoice % CLOCK, p.candidateActive,
                     p.speechStarted)
    && p.started == t0 && t0 <= p.candidateStarted <= now && t0 <= p.lastVoice <= now
  }

  /** One update decides alike on both clocks while all its times lie within one turn of the clock. */
  lemma WrappingStep(c: Config, w: Detector, p: Detector, t0: int, level: int, now: int)
    requires SameOnClock(w, p, t0, now) && t0 <= now < t0 + CLOCK
    ensures var sw, sp := Step(c, Wrapping, w, level, now % CLOCK), Step(c, Plain, p, level, now);
            sw.1 == sp.1 && SameOnClock(sw.0, sp.0, t0, now)
  {
    WrappedDifference(now, p.started);
    WrappedDifference(now, p.candidateStarted);
    WrappedDifference(now, p.lastVoice);
    WrappedDifference(now, now);
  }

  lemma {:induction false} WrappingRun(c: Config, t0: int, f: seq<Frame>)
    requires InOrder(t0, f) && forall i :: 0 <= i < |f| ==> f[i].now < t0 + CLOCK
    ensures var now := if f == [] then t0 else f[|f|-1].now;
            SameOnClock(After(c, Wrapping, t0 % CLOCK, OnClock(f)), After(c, Plain, t0, f), t0, now)
    ensures f != [] ==> Decided(c, Wrapping, t0 % CLOCK, OnClock(f)) == Decided(c, Plain, t0, f)
  {
    if f != [] {
      var n := |f| - 1;
      var g := f[..n];
      WrappingRun(c, t0, g);
      assert OnClock(f)[..n] == OnClock(g);
      WrappingStep(c, After(c, Wrapping, t0 % CLOCK, OnClock(g)), After(c, Plain, t0, g), t0, f[n].level, f[n].now);
    }
  }

  // ----- What the history says, without any state -----

  ghost predicate LoudRun(c: Config, f: seq<Frame>, i: int, j: int)
    requires 0 <= i && j < |f|
  {
    forall k :: i <= k <= j ==> f[k].level >= c.speechRms as int
  }

  /** An unbroken run of loud frames that ends at frame j has lasted long enough, before the detector gives up. */
  ghost predicate SpeechAt(c: Config, t0: int, f: seq<Frame>, j: int)
    requires 0 <= j < |f|
  {
    && f[j].now - t0 < c.noSpeechTimeoutMs as int
    && exists i :: 0 <= i < j && LoudRun(c, f, i, j) && f[j].now - f[i].now >= c.speechOnMs as int
  }

  ghost predicate SpeechWithin(c: Config, t0: int, f: seq<Frame>) {
    exists j :: 0 <= j < |f| && SpeechAt(c, t0, f, j)
  }

  ghost predicate FirstSpeechAt(c: Config, t0: int, f: seq<Frame>, j: int)
    requires 0 <= j < |f|
  {
    SpeechAt(c, t0, f, j) && forall k :: 0 <= k < j ==> !SpeechAt(c, t0, f, k)
  }

  /** From frame j to the end of the run there was no voice during the last trailing-silence period. */
  ghost predicate SilentSince(c: Config, f: seq<Frame>, j: int)
    requires 0 <= j < |f|
  {
    var now := f[|f|-1].now;
    && now - f[j].now >= c.trailingSilenceMs as int
    && forall k :: j < k < |f| && f[k].level >= c.continuationRms as int ==>
       now - f[k].now >= c.trailingSilenceMs as int
  }

  /** The decision for the last frame as a statement about the history. */
  ghost predicate Justified(c: Config, t0: int, f: seq<Frame>, decision: Decision)
    requires f != []
  {
    var n := |f| - 1;
    var elapsed := f[n].now - t0;
    if SpeechWithin(c, t0, f[..n]) then
      if elapsed >= c.maxDurationMs as int then decision == MaxDuration
      else exists j :: 0 <= j < n && FirstSpeechAt(c, t0, f, j) &&
             decision == if SilentSince(c, f, j) then Complete else Speaking
    else if elapsed >= c.noSpeechTimeoutMs as int then decision == NoSpeechTimeout
    else decision == if SpeechAt(c, t0, f, n) then Speaking else WaitingForSpeech
  }

  lemma SpeechAtInPrefix(c: Config, t0: int, f: seq<Frame>, n: int, j: int)
    requires 0 <= j < n <= |f|
    ensures SpeechAt(c, t0, f, j) <==> SpeechAt(c, t0, f[..n], j)
  {
    forall i | 0 <= i < j ensures LoudRun(c, f, i, j) <==> LoudRun(c, f[..n], i, j) {
      assert forall k :: i <= k <= j ==> f[k] == f[..n][k];
    }
  }

  lemma SpeechWithinOneMore(c: Config, t0: int, f: seq<Frame>)
    requires f != []
    ensures SpeechWithin(c, t0, f) <==> SpeechWithin(c, t0, f[..|f|-1]) || SpeechAt(c, t0, f, |f| - 1)
  {
    var n := |f| - 1;
    forall j | 0 <= j < n { SpeechAtInPrefix(c, t0, f, n, j); }
  }

  /** While waiting: the candidate is the start of the current loud run. */
  ghost predicate CandidateIsRunStart(c: Config, f: seq<Frame>, d: Detector) {
    if f == [] then !d.candidateActive
    else
      && (d.candidateActive <==> f[|f|-1].level >= c.speechRms as int)
      && (d.candidateActive ==>
            exists i :: 0 <= i < |f| && LoudRun(c, f, i, |f| - 1) && d.candidateStarted == f[i].now &&
                        (i == 0 || f[i-1].level < c.speechRms as int))
  }

  /** Of the frames from the start of speech j on, m is the latest that counts as voice. */
  ghost predicate VoiceUntil(c: Config, f: seq<Frame>, j: int, m: int)
    requires 0 <= j <= m < |f|
  {
    && (m == j || f[m].level >= c.continuationRms as int)
    && forall k :: m < k < |f| ==> f[k].level < c.continuationRms as int
  }

  /** While speaking: the last voice is the latest frame, from the start of speech on, that was loud enough. */
  ghost predicate LastVoiceIsLatest(c: Config, t0: int, f: seq<Frame>, d: Detector) {
    exists j, m :: 0 <= j <= m < |f| && FirstSpeechAt(c, t0, f, j) && VoiceUntil(c, f, j, m) && d.lastVoice == f[m].now
  }

  ghost predicate Explained(c: Config, t0: int, f: seq<Frame>, d: Detector) {
    && d.started == t0
    && (d.speechStarted <==> SpeechWithin(c, t0, f))
    && (!d.speechStarted && (f == [] || f[|f|-1].now - t0 < c.noSpeechTimeoutMs as int) ==>
       CandidateIsRunStart(c, f, d))
    && (d.speechStarted && f[|f|-1].now - t0 < c.maxDurationMs as int ==> LastVoiceIsLatest(c, t0, f, d))
  }

  lemma VoiceMovesOn(c: Config, f: seq<Frame>, j: nat, m: nat)
    requires j <= m < |f| - 1 && VoiceUntil(c, f[..|f|-1], j, m)
    ensures VoiceUntil(c, f, j, if f[|f|-1].level >= c.continuationRms as int then |f| - 1 else m)
  {
    assert forall k :: 0 <= k < |f| - 1 ==> f[k] == f[..|f|-1][k];
  }

  lemma SpeakingStepExplained(c: Config, t0: int, f: seq<Frame>, d: Detector)
    requires f != [] && InOrder(t0, f) && Explained(c, t0, f[..|f|-1], d) && d.speechStarted
    ensures var s := Step(c, Plain, d, f[|f|-1].level, f[|f|-1].now);
            Explained(c, t0, f, s.0) && Justified(c, t0, f, s.1)
  {
    var n := |f| - 1;
    var g := f[..n];
    SpeechWithinOneMore(c, t0, f);
    assert g != [] && g[n-1].now <= f[n].now;
    if f[n].now - t0 < c.maxDurationMs as int {
      var j, m :| 0 <= j <= m < |g| && FirstSpeechAt(c, t0, g, j) && VoiceUntil(c, g, j, m) && d.lastVoice == g[m].now;
      FirstSpeechInPrefix(c, t0, f, n, j);
      VoiceMovesOn(c, f, j, m);
      SilenceSinceLastVoice(c, t0, f, j, if f[n].level >= c.continuationRms as int then n else m);
    }
  }

  lemma FirstSpeechInPrefix(c: Config, t0: int, f: seq<Frame>, n: int, j: int)
    requires 0 <= j < n <= |f|
    ensures FirstSpeechAt(c, t0, f, j) <==> FirstSpeechAt(c, t0, f[..n], j)
  {
    forall k | 0 <= k <= j { SpeechAtInPrefix(c, t0, f, n, k); }
  }

  lemma SilenceSinceLastVoice(c: Config, t0: int, f: seq<Frame>, j: int, m: int)
    requires InOrder(t0, f) && 0 <= j <= m < |f| && VoiceUntil(c, f, j, m)
    ensures f[|f|-1].now - f[m].now >= c.trailingSilenceMs as int <==> SilentSince(c, f, j)
  {
  }

  lemma NoEarlierStart(c: Config, t0: int, f: seq<Frame>, i: int)
    requires f != [] && InOrder(t0, f) && 0 <= i < |f|
    requires i == 0 || f[i-1].level < c.speechRms as int
    requires i == |f| - 1 || f[|f|-1].now - f[i].now < c.speechOnMs as int
    ensures !SpeechAt(c, t0, f, |f| - 1)
  {
  }

  lemma LoudRunGrows(c: Config, f: seq<Frame>, i: nat)
    requires i < |f| - 1 && LoudRun(c, f[..|f|-1], i, |f| - 2) && f[|f|-1].level >= c.speechRms as int
    ensures LoudRun(c, f, i, |f| - 1)
  {
    assert forall k :: i <= k < |f| - 1 ==> f[k] == f[..|f|-1][k];
  }

  lemma NoSpeechBefore(c: Config, t0: int, f: seq<Frame>)
    requires f != [] && !SpeechWithin(c, t0, f[..|f|-1])
    ensures SpeechAt(c, t0, f, |f| - 1) ==> FirstSpeechAt(c, t0, f, |f| - 1)
  {
    var n := |f| - 1;
    forall k | 0 <= k < n ensures !SpeechAt(c, t0, f, k) { SpeechAtInPrefix(c, t0, f, n, k); }
  }

  /** The history without its last frame explains the waiting detector. */
  ghost predicate Waits(c: Config, t0: int, f: seq<Frame>, d: Detector) {
    f != [] && InOrder(t0, f) && Explained(c, t0, f[..|f|-1], d) && !d.speechStarted
  }

  /** The history explains what the last frame makes of the detector, and calls for the decision. */
  ghost predicate StepExplained(c: Config, t0: int, f: seq<Frame>, d: Detector)
    requires f != []
  {
    var s := Step(c, Plain, d, f[|f|-1].level, f[|f|-1].now);
    Explained(c, t0, f, s.0) && Justified(c, t0, f, s.1)
  }

  lemma LoudRunBegins(c: Config, t0: int, f: seq<Frame>, d: Detector)
    requires Waits(c, t0, f, d) && !d.candidateActive
    requires f[|f|-1].now - t0 < c.noSpeechTimeoutMs as int && f[|f|-1].level >= c.speechRms as int
    ensures StepExplained(c, t0, f, d)
  {
    var n := |f| - 1;
    SpeechWithinOneMore(c, t0, f);
    assert n > 0 ==> f[..n][n-1] == f[n-1];
    NoEarlierStart(c, t0, f, n);
    assert LoudRun(c, f, n, n);
  }

  lemma LoudRunIsTooShort(c: Config, t0: int, f: seq<Frame>, d: Detector, i: nat)
    requires Waits(c, t0, f, d) && d.candidateActive && i < |f| - 1 && LoudRun(c, f, i, |f| - 1)
    requires d.candidateStarted == f[i].now && (i == 0 || f[i-1].level < c.speechRms as int)
    requires f[|f|-1].now - t0 < c.noSpeechTimeoutMs as int && f[|f|-1].now - f[i].now < c.speechOnMs as int
    ensures StepExplained(c, t0, f, d)
  {
    SpeechWithinOneMore(c, t0, f);
    NoEarlierStart(c, t0, f, i);
  }

  lemma LoudRunIsSpeech(c: Config, t0: int, f: seq<Frame>, d: Detector, i: nat)
    requires Waits(c, t0, f, d) && d.candidateActive && i < |f| - 1 && LoudRun(c, f, i, |f| - 1)
    requires d.candidateStarted == f[i].now
    requires f[|f|-1].now - t0 < c.noSpeechTimeoutMs as int && f[|f|-1].now - f[i].now >= c.speechOnMs as int
    ensures StepExplained(c, t0, f, d)
  {
    var n := |f| - 1;
    SpeechWithinOneMore(c, t0, f);
    assert SpeechAt(c, t0, f, n);
    NoSpeechBefore(c, t0, f);
    assert VoiceUntil(c, f, n, n);
  }

  lemma QuietStepExplained(c: Config, t0: int, f: seq<Frame>, d: Detector)
    requires Waits(c, t0, f, d)
    requires f[|f|-1].now - t0 >= c.noSpeechTimeoutMs as int || f[|f|-1].level < c.speechRms as int
    ensures StepExplained(c, t0, f, d)
  {
    SpeechWithinOneMore(c, t0, f);
  }

  lemma WaitingStepExplained(c: Config, t0: int, f: seq<Frame>, d: Detector)
    requires Waits(c, t0, f, d)
    ensures StepExplained(c, t0, f, d)
  {
    var n := |f| - 1;
    var g := f[..n];
    if f[n].now - t0 >= c.noSpeechTimeoutMs as int || f[n].level < c.speechRms as int {
      QuietStepExplained(c, t0, f, d);
    } else if !d.candidateActive {
      LoudRunBegins(c, t0, f, d);
    } else {
      var i :| 0 <= i < |g| && LoudRun(c, g, i, n - 1) && d.candidateStarted == g[i].now &&
               (i == 0 || g[i-1].level < c.speechRms as int);
      LoudRunGrows(c, f, i);
      if f[n].now - f[i].now < c.speechOnMs as int {
        LoudRunIsTooShort(c, t0, f, d, i);
      } else {
        LoudRunIsSpeech(c, t0, f, d, i);
      }
    }
  }

  lemma {:induction false} RunExplained(c: Config, t0: int, f: seq<Frame>)
    requires InOrder(t0, f)
    ensures Explained(c, t0, f, After(c, Plain, t0, f))
    ensures f != [] ==> Justified(c, t0, f, Decided(c, Plain, t0, f))
  {
    if f != [] {
      var g := f[..|f|-1];
      RunExplained(c, t0, g);
      var d := After(c, Plain, t0, g);
      if d.speechStarted { SpeakingStepExplained(c, t0, f, d); } else { WaitingStepExplained(c, t0, f, d); }
    }
  }

  /** On the device's own clock, every decision of a run shorter than one turn of the clock is
      the one the history calls for. */
  lemma DetectorDecidesByHistory(c: Config, t0: int, f: seq<Frame>)
    requires InOrder(t0, f) && f != [] && f[|f|-1].now < t0 + CLOCK
    ensures Justified(c, t0, f, Decided(c, Wrapping, t0 % CLOCK, OnClock(f)))
  {
    WrappingRun(c, t0, f);
    RunExplained(c, t0, f);
  }

  /** The history calls for one decision only. */
  lemma HistoryDecidesOnce(c: Config, t0: int, f: seq<Frame>, a: Decision, b: Decision)
    requires f != [] && Justified(c, t0, f, a) && Justified(c, t0, f, b)
    ensures a == b
  {
    var n := |f| - 1;
    if SpeechWithin(c, t0, f[..n]) && f[n].now - t0 < c.maxDurationMs as int {
      var i :| 0 <= i < n && FirstSpeechAt(c, t0, f, i) && a == if SilentSince(c, f, i) then Complete else Speaking;
      var j :| 0 <= j < n && FirstSpeechAt(c, t0, f, j) && b == if SilentSince(c, f, j) then Complete else Speaking;
      assert i == j;
    }
  }

  predicate EndsCapture(d: Decision) {
    d == Complete || d == NoSpeechTimeout || d == MaxDuration
  }

  /** No capture outlives both limits. */
  lemma PastBothLimitsEndsCapture(c: Config, t0: int, f: seq<Frame>)
    requires InOrder(t0, f) && f != [] && f[|f|-1].now < t0 + CLOCK
    requires f[|f|-1].now - t0 >= c.maxDurationMs as int && f[|f|-1].now - t0 >= c.noSpeechTimeoutMs as int
    ensures EndsCapture(Decided(c, Wrapping, t0 % CLOCK, OnClock(f)))
  {
    DetectorDecidesByHistory(c, t0, f);
  }
}
