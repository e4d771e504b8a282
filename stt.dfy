/**
 * The streaming endpoint detector of the modular assistant's `listen`
 * (audio/stt.py) and what it does with the recording: normalisation and the
 * transcript.
 *
 * Frames arrive one at a time. Before speech starts each frame enters a pre-roll
 * list of at most six blocks; a loud run lasting more than 0.3 s confirms the
 * onset, which sets the barge-in flag and moves the pre-roll, followed by the
 * current block, into the recording. After the onset every block is recorded,
 * and listening ends after more than 0.7 s of continuous silence or more than
 * 6 s after the onset.
 *
 * The history of frames seen and the index of the confirming frame are ghost
 * fields; `Valid` ties the pre-roll, the recording, the timers, the speech flag
 * and the barge-in flag to them (the onset timer only before the onset); `done`
 * is not tied to the history, and `Step`'s outcome says when a pass ends listening.
 */
module Stt {
  import opened Options
  import opened Text
  import opened Signal

  const MaxPreChunks: nat := 6
  const OnsetMs: nat := 300
  const EndSilenceMs: nat := 700
  const MaxSpeechMs: nat := 6000
  /** The smallest divisor of the normalisation, which bounds its gain. */
  const Floor: real := 0.3

  /** The frame that ends `h` confirms speech: it is loud and the loud run began more than 0.3 s before it, at an earlier frame. */
  predicate Confirms(h: seq<Frame>, threshold: real) {
    Sustained(h, threshold, true, OnsetMs)
  }

  /** No frame of the history confirms speech. */
  predicate NoOnset(fs: seq<Frame>, threshold: real) {
    forall n :: 1 <= n <= |fs| ==> !Confirms(fs[..n], threshold)
  }

  /** Frame `k` is the first one that confirms speech. */
  predicate IsOnset(fs: seq<Frame>, threshold: real, k: nat) {
    && k < |fs|
    && Confirms(fs[..k + 1], threshold)
    && forall n :: 1 <= n <= k ==> !Confirms(fs[..n], threshold)
  }

  /** The index of the frame at which the detector confirms speech, if it has. */
  function Onset(fs: seq<Frame>, threshold: real): (r: Option<nat>)
    ensures r.Some? ==> r.value < |fs|
    decreases |fs|
  {
    if fs == [] then None
    else match Onset(fs[..|fs| - 1], threshold)
      case Some(k) => Some(k)
      case None => if Confirms(fs, threshold) then Some(|fs| - 1) else None
  }

  /** The detector confirms speech at the first frame that confirms it, and not without one. */
  lemma {:induction false} OnsetSpec(fs: seq<Frame>, threshold: real)
    ensures Onset(fs, threshold).None? <==> NoOnset(fs, threshold)
    ensures Onset(fs, threshold).Some? ==> IsOnset(fs, threshold, Onset(fs, threshold).value)
    decreases |fs|
  {
    if fs != [] {
      var init := fs[..|fs| - 1];
      OnsetSpec(init, threshold);
      assert fs[..|fs|] == fs;
      forall n | 1 <= n <= |init| ensures fs[..n] == init[..n] {
      }
      if Onset(init, threshold).None? && !Confirms(fs, threshold) {
        assert NoOnset(fs, threshold);
      } else if Onset(init, threshold).Some? {
        assert Confirms(init[..Onset(init, threshold).value + 1], threshold);
      }
    }
  }

  /** Whatever the frames that follow, the onset stays where it was. */
  lemma OnsetAppend(fs: seq<Frame>, f: Frame, threshold: real)
    ensures Onset(fs + [f], threshold) ==
      if Onset(fs, threshold).Some? then Onset(fs, threshold)
      else if Confirms(fs + [f], threshold) then Some(|fs|) else None
  {
    assert (fs + [f])[..|fs|] == fs;
  }

  /**
   * The recording once frame `k` confirmed speech: the pre-roll (the last six
   * blocks up to and including frame `k`), frame `k`'s block once more, then
   * every later block.
   */
  function Recording(fs: seq<Frame>, k: nat): (cs: seq<seq<real>>)
    requires k < |fs|
    ensures |cs| == |Tail(Chunks(fs[..k + 1]), MaxPreChunks)| + 1 + (|fs| - k - 1)
  {
    Tail(Chunks(fs[..k + 1]), MaxPreChunks) + [fs[k].samples] + Chunks(fs[k + 1..])
  }

  /**
   * The confirming block appears twice in a row in the recording: it is the last
   * block of the pre-roll and is appended again right after it.
   */
  lemma RecordingRepeatsOnsetBlock(fs: seq<Frame>, k: nat)
    requires k < |fs|
    ensures var n := |Tail(Chunks(fs[..k + 1]), MaxPreChunks)|;
      1 <= n <= MaxPreChunks && |Recording(fs, k)| >= 2
      && Recording(fs, k)[n - 1] == fs[k].samples && Recording(fs, k)[n] == fs[k].samples
  {
    var pre := Chunks(fs[..k + 1]);
    var t := Tail(pre, MaxPreChunks);
    assert t[|t| - 1] == pre[|pre| - 1];
  }

  /** After the onset, one more frame adds its block at the end of the recording. */
  lemma RecordingAppend(fs: seq<Frame>, f: Frame, k: nat)
    requires k < |fs|
    ensures Recording(fs + [f], k) == Recording(fs, k) + [f.samples]
  {
    var g := fs + [f];
    assert g[..k + 1] == fs[..k + 1];
    assert g[k + 1..] == fs[k + 1..] + [f];
    ChunksSnoc(fs[k + 1..], f);
  }

  /** The pre-roll, the onset timer and the onset test after one more frame before the onset. */
  lemma OnsetTimer(fs: seq<Frame>, f: Frame, threshold: real)
    requires Onset(fs, threshold).None?
    ensures var start := RunStartTime(fs, threshold, true);
      && RunStartTime(fs + [f], threshold, true) ==
           (if f.energy <= threshold then None else if start.None? then Some(f.time) else start)
      && (Confirms(fs + [f], threshold) <==>
           f.energy > threshold && start.Some? && f.time - start.value > OnsetMs)
    ensures Onset(fs + [f], threshold) == if Confirms(fs + [f], threshold) then Some(|fs|) else None
    ensures Tail(Chunks(fs + [f]), MaxPreChunks) == Admit(Tail(Chunks(fs), MaxPreChunks), f.samples, MaxPreChunks)
    ensures Recording(fs + [f], |fs|) == Tail(Chunks(fs + [f]), MaxPreChunks) + [f.samples]
    ensures (fs + [f])[|fs| + 1..] == []
  {
    var g := fs + [f];
    RunStartAppend(fs, f, threshold, true);
    SustainedAppend(fs, f, threshold, true, OnsetMs);
    OnsetAppend(fs, f, threshold);
    AdmitTail(Chunks(fs), f.samples, MaxPreChunks);
    ChunksSnoc(fs, f);
    assert g[..|fs| + 1] == g;
    assert g[|fs| + 1..] == [];
  }

  /** A history has at most one onset. */
  lemma OnsetUnique(fs: seq<Frame>, threshold: real, k: nat, m: nat)
    requires IsOnset(fs, threshold, k) && IsOnset(fs, threshold, m)
    ensures k == m
  {
  }

  /** The 6 s ceiling: `if speech_started and speech_start_time` (a zero timestamp is falsy) and more than 6 s elapsed. */
  predicate TimeUp(start: nat, now: nat) {
    start != 0 && now - start > MaxSpeechMs
  }

  /**
   * Before the onset: no frame has confirmed speech, the pre-roll holds the last
   * six blocks and the onset timer the start time of the trailing loud run.
   */
  ghost predicate Waiting(fs: seq<Frame>, threshold: real, preRoll: seq<seq<real>>, voiceStart: Option<nat>) {
    && Onset(fs, threshold).None?
    && preRoll == Tail(Chunks(fs), MaxPreChunks)
    && voiceStart == RunStartTime(fs, threshold, true)
  }

  /**
   * After the onset at frame `k`: the recording, the onset time, and the silence
   * timer holding the start time of the trailing quiet run since the onset.
   */
  ghost predicate Capturing(fs: seq<Frame>, threshold: real, k: nat, chunks: seq<seq<real>>,
    speechStart: Option<nat>, silenceStart: Option<nat>)
  {
    && Onset(fs, threshold) == Some(k)
    && chunks == Recording(fs, k)
    && speechStart == Some(fs[k].time)
    && silenceStart == RunStartTime(fs[k + 1..], threshold, false)
  }

  /** audio/stt.py lines 64-88 on one more frame before the onset: the pre-roll, the onset timer and the onset. */
  lemma WaitingStep(fs: seq<Frame>, f: Frame, threshold: real, preRoll: seq<seq<real>>, voiceStart: Option<nat>)
    requires Waiting(fs, threshold, preRoll, voiceStart)
    ensures Confirms(fs + [f], threshold) <==>
      f.energy > threshold && voiceStart.Some? && f.time - voiceStart.value > OnsetMs
    ensures var pre := Admit(preRoll, f.samples, MaxPreChunks);
      if f.energy <= threshold then Waiting(fs + [f], threshold, pre, None)
      else if voiceStart.None? then Waiting(fs + [f], threshold, pre, Some(f.time))
      else if f.time - voiceStart.value <= OnsetMs then Waiting(fs + [f], threshold, pre, voiceStart)
      else Capturing(fs + [f], threshold, |fs|, pre + [f.samples], Some(f.time), None)
  {
    OnsetTimer(fs, f, threshold);
  }

  /** audio/stt.py lines 91-100 on one more frame after the onset: the recording and the silence timer. */
  lemma CapturingStep(fs: seq<Frame>, f: Frame, threshold: real, k: nat, chunks: seq<seq<real>>,
    speechStart: Option<nat>, silenceStart: Option<nat>)
    requires Capturing(fs, threshold, k, chunks, speechStart, silenceStart)
    ensures Sustained((fs + [f])[k + 1..], threshold, false, EndSilenceMs) <==>
      f.energy <= threshold && silenceStart.Some? && f.time - silenceStart.value > EndSilenceMs
    ensures Capturing(fs + [f], threshold, k, chunks + [f.samples], speechStart,
      if f.energy > threshold then None else if silenceStart.None? then Some(f.time) else silenceStart)
  {
    SilenceTimer(fs, f, threshold, k, EndSilenceMs);
    OnsetAppend(fs, f, threshold);
    RecordingAppend(fs, f, k);
    assert (fs + [f])[k] == fs[k];
  }

  /**
   * The detector stops on the last frame of `fs`: speech has been confirmed, and
   * either the silence since the onset has lasted more than 0.7 s or more than
   * 6 s have passed since the onset.
   */
  ghost predicate Ends(fs: seq<Frame>, threshold: real) {
    match Onset(fs, threshold)
    case None => false
    case Some(k) =>
      Sustained(fs[k + 1..], threshold, false, EndSilenceMs) || TimeUp(fs[k].time, fs[|fs| - 1].time)
  }

  /** The detector does not stop on any frame before frame `used - 1`. */
  ghost predicate NoEndBefore(fs: seq<Frame>, used: nat, threshold: real)
    requires used <= |fs|
  {
    forall n :: 0 < n < used ==> !Ends(fs[..n], threshold)
  }

  lemma NoEndBeforeNext(fs: seq<Frame>, used: nat, threshold: real)
    requires used < |fs| && NoEndBefore(fs, used, threshold)
    requires used > 0 ==> !Ends(fs[..used], threshold)
    ensures NoEndBefore(fs, used + 1, threshold)
  {
  }

  class Detector {
    const threshold: real
    var speechStarted: bool
    var voiceStart: Option<nat>
    var silenceStart: Option<nat>
    var speechStart: Option<nat>
    var preRoll: seq<seq<real>>
    var chunks: seq<seq<real>>
    /** The module-level `STOP_TTS` flag, which the onset sets. */
    var stopTts: bool
    /** Whether listening has ended (the loop's `break`). */
    var done: bool

    ghost const stopTts0: bool
    ghost var frames: seq<Frame>
    ghost var onset: nat

    /** The detector's state agrees with the frames so far; `done` is not part of it. */
    ghost predicate Valid()
      reads this`speechStarted, this`voiceStart, this`silenceStart, this`speechStart,
        this`preRoll, this`chunks, this`stopTts, this`frames, this`onset
    {
      && (!speechStarted ==>
            && Waiting(frames, threshold, preRoll, voiceStart)
            && chunks == [] && silenceStart == None && speechStart == None && stopTts == stopTts0)
      && (speechStarted ==>
            && Capturing(frames, threshold, onset, chunks, speechStart, silenceStart)
            && preRoll == [] && stopTts)
    }

    /** The state at the top of `listen`; `stopTts` is the flag's value from earlier calls. */
    constructor (threshold: real, stopTts: bool)
      ensures Valid() && !done && !speechStarted && frames == []
      ensures this.threshold == threshold && this.stopTts == stopTts && stopTts0 == stopTts
    {
      this.threshold := threshold;
      speechStarted := false;
      voiceStart := None;
      silenceStart := None;
      speechStart := None;
      preRoll := [];
      chunks := [];
      this.stopTts := stopTts;
      done := false;
      stopTts0 := stopTts;
      frames := [];
      onset := 0;
    }

    /** One pass of the `while True` loop with a dequeued frame. */
    method Step(f: Frame) returns (outcome: Outcome)
      requires Valid() && !done
      modifies this
      ensures Valid()
      ensures frames == old(frames) + [f]
      ensures old(speechStarted) ==> speechStarted && onset == old(onset)
      ensures stopTts == (old(stopTts) || speechStarted)
      ensures !speechStarted ==> outcome == Continue
      ensures outcome == EndOfSpeech <==>
        speechStarted && Sustained(frames[onset + 1..], threshold, false, EndSilenceMs)
      ensures outcome == MaxDuration <==>
        speechStarted && !Sustained(frames[onset + 1..], threshold, false, EndSilenceMs)
        && TimeUp(frames[onset].time, f.time)
      ensures done <==> outcome != Continue
      ensures Onset(frames, threshold) == if speechStarted then Some(onset) else None
      ensures outcome != Continue <==> Ends(frames, threshold)
    {
      if !speechStarted {
        var quiet := BeforeOnset(f);
        if quiet {
          return Continue;
        }
      } else {
        var ended := AfterOnset(f);
        if ended {
          done := true;
          return EndOfSpeech;
        }
      }
      if speechStarted && speechStart.Some? && speechStart.value != 0 {
        if f.time - speechStart.value > MaxSpeechMs {
          done := true;
          return MaxDuration;
        }
      }
      outcome := Continue;
    }

    /**
     * audio/stt.py lines 64-88: a frame before the onset enters the pre-roll; a loud one starts
     * or confirms the onset timer, a quiet one resets it and skips the rest of the
     * pass (`quiet`).
     */
    method BeforeOnset(f: Frame) returns (quiet: bool)
      requires Valid() && !speechStarted
      modifies this`frames, this`preRoll, this`voiceStart, this`stopTts, this`speechStarted,
        this`speechStart, this`silenceStart, this`chunks, this`onset
      ensures Valid()
      ensures frames == old(frames) + [f]
      ensures quiet <==> f.energy <= threshold
      ensures speechStarted <==> Confirms(frames, threshold)
      ensures speechStarted ==> onset == |old(frames)| && frames[onset + 1..] == []
      ensures speechStarted ==> speechStart == Some(frames[onset].time)
      ensures stopTts == (old(stopTts) || speechStarted)
    {
      WaitingStep(frames, f, threshold, preRoll, voiceStart);
      ghost var fs := frames;
      frames := frames + [f];
      preRoll := Admit(preRoll, f.samples, MaxPreChunks);
      if f.energy > threshold {
        if voiceStart.None? {
          voiceStart := Some(f.time);
        } else if f.time - voiceStart.value > OnsetMs {
          stopTts := true;
          speechStarted := true;
          speechStart := Some(f.time);
          silenceStart := None;
          chunks := chunks + preRoll;
          preRoll := [];
          chunks := chunks + [f.samples];
          onset := |fs|;
        }
        quiet := false;
      } else {
        voiceStart := None;
        quiet := true;
      }
    }

    /**
     * audio/stt.py lines 91-100: after the onset every block is recorded; a loud frame clears
     * the silence timer, a quiet one starts it or, when more than 0.7 s have
     * passed since it started, ends listening (`ended`).
     */
    method AfterOnset(f: Frame) returns (ended: bool)
      requires Valid() && speechStarted
      modifies this`frames, this`chunks, this`silenceStart
      ensures Valid()
      ensures frames == old(frames) + [f]
      ensures ended <==> Sustained(frames[onset + 1..], threshold, false, EndSilenceMs)
      ensures speechStarted && onset == old(onset) && stopTts == old(stopTts)
      ensures speechStart == Some(frames[onset].time)
    {
      CapturingStep(frames, f, threshold, onset, chunks, speechStart, silenceStart);
      frames := frames + [f];
      chunks := chunks + [f.samples];
      ended := false;
      if f.energy > threshold {
        silenceStart := None;
      } else if silenceStart.None? {
        silenceStart := Some(f.time);
      } else if f.time - silenceStart.value > EndSilenceMs {
        ended := true;
      }
    }
  }

  /**
   * The normalisation guard: when the peak is positive, divide by the peak but
   * never by less than `Floor`; a silent recording is left as it is.
   */
  function Normalize(a: seq<real>): (r: seq<real>)
    ensures |r| == |a|
    ensures Peak(a) > 0.0 ==> r == Scale(a, Divisor(Peak(a)))
    ensures Peak(a) == 0.0 ==> r == a
  {
    var m := Peak(a);
    if m > 0.0 then Scale(a, Divisor(m)) else a
  }

  /** Every sample of a recording with any sound is divided by `max(peak, 0.3)`. */
  lemma NormalizeSamples(a: seq<real>, i: nat)
    requires Peak(a) > 0.0 && i < |a|
    ensures Normalize(a)[i] == a[i] / Divisor(Peak(a))
  {
    ScaledSample(a, Divisor(Peak(a)), i);
  }

  /** `max(max_val, 0.3)`. */
  function Divisor(m: real): (d: real)
    ensures d >= Floor && d >= m
    ensures m >= Floor ==> d == m
    ensures m < Floor ==> d == Floor
  {
    if m > Floor then m else Floor
  }

  lemma DivideByLarger(x: real, d: real, e: real)
    requires x >= 0.0 && d >= e > 0.0
    ensures x / d <= x / e
  {
    assert x / e - x / d == x * (d - e) / (d * e);
  }

  /** Every normalised sample lies in [-1, 1], and no sample is amplified more than 1 / `Floor` times. */
  lemma NormalizeBounded(a: seq<real>)
    ensures forall i :: 0 <= i < |a| ==> Abs(Normalize(a)[i]) <= 1.0
    ensures forall i :: 0 <= i < |a| ==> Abs(Normalize(a)[i]) <= Abs(a[i]) / Floor
  {
    var m := Peak(a);
    if m > 0.0 {
      var d := Divisor(m);
      var r := Scale(a, d);
      assert Normalize(a) == r;
      forall i | 0 <= i < |a|
        ensures Abs(r[i]) <= 1.0
        ensures Abs(r[i]) <= Abs(a[i]) / Floor
      {
        SampleBounds(Abs(a[i]), m, d);
      }
    }
  }

  lemma SampleBounds(x: real, m: real, d: real)
    requires 0.0 <= x <= m && d >= m && d >= Floor
    ensures x / d <= 1.0 && x / d <= x / Floor
  {
    DivideMonotone(x, m, d);
    DivideMonotone(m, d, d);
    DivideByLarger(x, d, Floor);
  }

  /** A recording that already peaks at exactly 1 is left as it is. */
  lemma NormalizeFixed(a: seq<real>)
    requires Peak(a) == 1.0
    ensures Normalize(a) == a
  {
    assert Divisor(1.0) == 1.0;
    var r := Scale(a, 1.0);
    forall i | 0 <= i < |a| ensures r[i] == a[i] {
      assert r[i] * 1.0 == a[i];
    }
  }

  /**
   * A recording at least as loud as `Floor` is scaled to peak exactly 1; a quieter one
   * is scaled by 1 / `Floor`; one that already peaks at 1 is unchanged, so normalising
   * a loud recording twice is normalising it once.
   */
  lemma NormalizePeak(a: seq<real>)
    ensures Peak(a) >= Floor ==> Peak(Normalize(a)) == 1.0
    ensures 0.0 < Peak(a) < Floor ==> Peak(Normalize(a)) == Peak(a) / Floor
    ensures Peak(a) == 0.0 ==> Normalize(a) == a
    ensures Peak(a) == 1.0 ==> Normalize(a) == a
    ensures Peak(a) >= Floor ==> Normalize(Normalize(a)) == Normalize(a)
  {
    var m := Peak(a);
    if m > 0.0 {
      var d := Divisor(m);
      var r := Normalize(a);
      assert r == Scale(a, d);
      PeakScale(a, d);
      assert Peak(r) == m / d;
      DivisorQuotient(m);
      if m >= Floor {
        NormalizeFixed(r);
      }
      if m == 1.0 {
        NormalizeFixed(a);
      }
    }
  }

  lemma DivisorQuotient(m: real)
    requires m > 0.0
    ensures m >= Floor ==> m / Divisor(m) == 1.0
    ensures m < Floor ==> m / Divisor(m) == m / Floor
  {
  }

  /** `"".join(seg.text for seg in segments).strip()`, with an empty text read as nothing heard. */
  function Transcript(segments: seq<string>): (r: Option<string>)
    ensures r.None? <==> AllSpace(Join(segments, ""))
    ensures r.Some? ==> r.value != [] && !IsSpace(r.value[0]) && !IsSpace(r.value[|r.value| - 1])
    ensures r.Some? ==> r.value == Strip(Join(segments, ""))
  {
    var t := Strip(Join(segments, ""));
    if t == [] then None else Some(t)
  }

  /** The joined text is all whitespace exactly when every segment is. */
  lemma {:induction false} JoinAllSpace(segments: seq<string>)
    ensures AllSpace(Join(segments, "")) <==> forall k :: 0 <= k < |segments| ==> AllSpace(segments[k])
    decreases |segments|
  {
    if |segments| > 1 {
      JoinAllSpace(segments[1..]);
      var h, t := segments[0], Join(segments[1..], "");
      assert Join(segments, "") == h + t;
      assert AllSpace(h + t) <==> AllSpace(h) && AllSpace(t) by {
        if AllSpace(h + t) {
          assert forall i :: 0 <= i < |h| ==> h[i] == (h + t)[i];
          assert forall i :: 0 <= i < |t| ==> t[i] == (h + t)[i + |h|];
        }
      }
      assert forall k :: 1 <= k < |segments| ==> segments[k] == segments[1..][k - 1];
    }
  }

  /** Nothing is heard exactly when every segment of the transcription is blank. */
  lemma TranscriptNone(segments: seq<string>)
    ensures Transcript(segments).None? <==> forall k :: 0 <= k < |segments| ==> AllSpace(segments[k])
  {
    JoinAllSpace(segments);
  }

  /** audio/stt.py lines 107-134 of `listen`: no blocks give nothing; otherwise normalise and transcribe. */
  function Transcribed(chunks: seq<seq<real>>, transcribe: seq<real> -> seq<string>): (r: Option<string>)
    ensures chunks == [] ==> r == None
    ensures r.Some? ==> r.value != [] && !IsSpace(r.value[0]) && !IsSpace(r.value[|r.value| - 1])
    ensures r.Some? ==> chunks != [] && r.value == Strip(Join(transcribe(Normalize(Concat(chunks))), ""))
  {
    if chunks == [] then None else Transcript(transcribe(Normalize(Concat(chunks))))
  }

  /**
   * `listen` over a finite stream of frames. The source waits for ever when no end
   * is detected; here the frames run out and the outcome stays `Continue`.
   * `stopTts` is the barge-in flag on entry, `stop` its value on return.
   */
  method Listen(threshold: real, stopTts: bool, frames: seq<Frame>, transcribe: seq<real> -> seq<string>)
    returns (outcome: Outcome, used: nat, stop: bool, text: Option<string>)
    ensures used <= |frames|
    ensures outcome == Continue ==> used == |frames| && text == None
    ensures outcome != Continue <==> 0 < used && Ends(frames[..used], threshold)
    ensures NoEndBefore(frames, used, threshold)
    ensures stop == (stopTts || Onset(frames[..used], threshold).Some?)
    ensures outcome != Continue ==>
      && 0 < used
      && Onset(frames[..used], threshold).Some?
      && text == Transcribed(Recording(frames[..used], Onset(frames[..used], threshold).value), transcribe)
    ensures text.Some? ==> text.value != [] && !IsSpace(text.value[0]) && !IsSpace(text.value[|text.value| - 1])
  {
    var d := new Detector(threshold, stopTts);
    outcome, used := Detect(d, frames);
    stop := d.stopTts;
    if outcome == Continue {
      text := None;
    } else {
      text := Transcribed(d.chunks, transcribe);
    }
  }

  /** The `while True` loop of `listen`: steps the detector over the frames until it stops or they run out. */
  method Detect(d: Detector, frames: seq<Frame>) returns (outcome: Outcome, used: nat)
    requires d.Valid() && !d.done && !d.speechStarted && d.frames == []
    modifies d
    ensures d.Valid() && used <= |frames| && d.frames == frames[..used]
    ensures d.stopTts == (old(d.stopTts) || d.speechStarted)
    ensures outcome == Continue ==> used == |frames|
    ensures outcome != Continue ==> used > 0 && d.speechStarted
    ensures outcome != Continue <==> 0 < used && Ends(frames[..used], d.threshold)
    ensures NoEndBefore(frames, used, d.threshold)
  {
    used, outcome := 0, Continue;
    while used < |frames| && outcome == Continue
      invariant d.Valid() && used <= |frames| && d.frames == frames[..used]
      invariant d.stopTts == (old(d.stopTts) || d.speechStarted)
      invariant d.done <==> outcome != Continue
      invariant outcome != Continue ==> used > 0 && d.speechStarted
      invariant outcome != Continue <==> 0 < used && Ends(frames[..used], d.threshold)
      invariant NoEndBefore(frames, used, d.threshold)
    {
      NoEndBeforeNext(frames, used, d.threshold);
      assert frames[..used + 1] == frames[..used] + [frames[used]];
      outcome := d.Step(frames[used]);
      used := used + 1;
    }
  }
}
