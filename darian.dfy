/**
 * The older speech detector of the single-file assistant's `listen`
 * (darian.py): every block is recorded, including the noise before speech; a
 * single loud frame starts speech; listening ends after more than 0.4 s of
 * continuous silence, or once more than 15 s have passed since `listen` began,
 * a test that quiet frames before speech skip. The recording is then divided
 * by its peak, with no floor and no guard against a zero peak.
 */
module Darian {
  import opened Options
  import opened Text
  import opened Signal
  import Stt

  const EndSilenceMs: nat := 400
  const MaxListenMs: nat := 15000

  /** Every frame of the history is quiet. */
  predicate AllQuiet(fs: seq<Frame>, threshold: real) {
    forall i :: 0 <= i < |fs| ==> fs[i].energy <= threshold
  }

  /** Frame `k` is the first loud frame of the history. */
  predicate FirstLoud(fs: seq<Frame>, threshold: real, k: nat) {
    k < |fs| && fs[k].energy > threshold && AllQuiet(fs[..k], threshold)
  }

  /** A history has at most one first loud frame. */
  lemma FirstLoudUnique(fs: seq<Frame>, threshold: real, k: nat, m: nat)
    requires FirstLoud(fs, threshold, k) && FirstLoud(fs, threshold, m)
    ensures k == m
  {
  }

  /** The index of the frame that started speech, if one has. */
  function Onset(fs: seq<Frame>, threshold: real): (r: Option<nat>)
    ensures r.Some? ==> r.value < |fs|
    decreases |fs|
  {
    if fs == [] then None
    else match Onset(fs[..|fs| - 1], threshold)
      case Some(k) => Some(k)
      case None => if fs[|fs| - 1].energy > threshold then Some(|fs| - 1) else None
  }

  /** Speech starts at the first loud frame, and not without one. */
  lemma {:induction false} OnsetSpec(fs: seq<Frame>, threshold: real)
    ensures Onset(fs, threshold).None? <==> AllQuiet(fs, threshold)
    ensures Onset(fs, threshold).Some? ==> FirstLoud(fs, threshold, Onset(fs, threshold).value)
    decreases |fs|
  {
    if fs != [] {
      var init := fs[..|fs| - 1];
      OnsetSpec(init, threshold);
      assert forall i :: 0 <= i < |init| ==> fs[i] == init[i];
      if Onset(init, threshold).Some? {
        var k := Onset(init, threshold).value;
        assert fs[..k] == init[..k];
      } else {
        assert fs[..|fs| - 1] == init;
      }
    }
  }

  /** Whatever the frames that follow, the onset stays where it was. */
  lemma OnsetAppend(fs: seq<Frame>, f: Frame, threshold: real)
    ensures Onset(fs + [f], threshold) ==
      if Onset(fs, threshold).Some? then Onset(fs, threshold)
      else if f.energy > threshold then Some(|fs|) else None
    ensures (fs + [f])[|fs| + 1..] == []
  {
    assert (fs + [f])[..|fs|] == fs;
  }

  /**
   * The detector stops on the last frame of `fs`: speech has started, and either
   * the silence since then has lasted more than 0.4 s or more than 15 s have
   * passed since `listen` began.
   */
  ghost predicate Ends(fs: seq<Frame>, threshold: real, startTime: nat) {
    match Onset(fs, threshold)
    case None => false
    case Some(k) =>
      Sustained(fs[k + 1..], threshold, false, EndSilenceMs) || fs[|fs| - 1].time - startTime > MaxListenMs
  }

  /** After the onset at frame `k`: the silence timer holds the start of the trailing quiet run since then. */
  ghost predicate Speaking(fs: seq<Frame>, threshold: real, k: nat, silenceStart: Option<nat>) {
    && FirstLoud(fs, threshold, k)
    && silenceStart == RunStartTime(fs[k + 1..], threshold, false)
  }

  /** Whether the detector stops, read off the first loud frame `k`. */
  lemma EndsAt(fs: seq<Frame>, threshold: real, startTime: nat, k: nat)
    requires FirstLoud(fs, threshold, k)
    ensures Ends(fs, threshold, startTime) <==>
      Sustained(fs[k + 1..], threshold, false, EndSilenceMs) || fs[|fs| - 1].time - startTime > MaxListenMs
  {
    OnsetSpec(fs, threshold);
    FirstLoudUnique(fs, threshold, k, Onset(fs, threshold).value);
  }

  /** Before speech the detector never stops. */
  lemma QuietNoEnd(fs: seq<Frame>, threshold: real, startTime: nat)
    requires AllQuiet(fs, threshold)
    ensures !Ends(fs, threshold, startTime)
  {
    OnsetSpec(fs, threshold);
  }

  /** The stop rule of one pass, in terms of the whole history. */
  lemma StopIsEnd(fs: seq<Frame>, f: Frame, threshold: real, startTime: nat, started: bool, k: nat, stopped: bool)
    requires started ==> FirstLoud(fs + [f], threshold, k)
    requires !started ==> AllQuiet(fs + [f], threshold)
    requires stopped <==> (started &&
      (Sustained((fs + [f])[k + 1..], threshold, false, EndSilenceMs) || f.time - startTime > MaxListenMs))
    ensures stopped <==> Ends(fs + [f], threshold, startTime)
  {
    if started {
      EndsAt(fs + [f], threshold, startTime, k);
    } else {
      QuietNoEnd(fs + [f], threshold, startTime);
    }
  }

  /** darian.py lines 104-114 on one more frame before speech: a loud frame is the onset. */
  lemma QuietStep(fs: seq<Frame>, f: Frame, threshold: real)
    requires AllQuiet(fs, threshold)
    ensures f.energy <= threshold ==> AllQuiet(fs + [f], threshold)
    ensures f.energy > threshold ==> Speaking(fs + [f], threshold, |fs|, None) && (fs + [f])[|fs| + 1..] == []
  {
    var g := fs + [f];
    assert g[..|fs|] == fs;
  }

  /** darian.py lines 104 and 115-123 on one more frame after the onset: the silence timer. */
  lemma SpeakingStep(fs: seq<Frame>, f: Frame, threshold: real, k: nat, silenceStart: Option<nat>)
    requires Speaking(fs, threshold, k, silenceStart)
    ensures Sustained((fs + [f])[k + 1..], threshold, false, EndSilenceMs) <==>
      f.energy <= threshold && silenceStart.Some? && f.time - silenceStart.value > EndSilenceMs
    ensures Speaking(fs + [f], threshold, k,
      if f.energy > threshold then None else if silenceStart.None? then Some(f.time) else silenceStart)
  {
    SilenceTimer(fs, f, threshold, k, EndSilenceMs);
    assert (fs + [f])[..k] == fs[..k];
  }

  /** The detector does not stop on any frame before frame `used - 1`. */
  ghost predicate NoEndBefore(fs: seq<Frame>, used: nat, threshold: real, startTime: nat)
    requires used <= |fs|
  {
    forall n :: 0 < n < used ==> !Ends(fs[..n], threshold, startTime)
  }

  lemma NoEndBeforeNext(fs: seq<Frame>, used: nat, threshold: real, startTime: nat)
    requires used < |fs| && NoEndBefore(fs, used, threshold, startTime)
    requires used > 0 ==> !Ends(fs[..used], threshold, startTime)
    ensures NoEndBefore(fs, used + 1, threshold, startTime)
  {
  }

  class Detector {
    const threshold: real
    /** `start_time`: when `listen` began. */
    const startTime: nat
    var speechStarted: bool
    var silenceStart: Option<nat>
    var chunks: seq<seq<real>>
    var done: bool

    ghost var frames: seq<Frame>
    ghost var onset: nat

    /** The detector's state agrees with the frames so far; `done` is not part of it. */
    ghost predicate Valid()
      reads this`speechStarted, this`silenceStart, this`chunks, this`frames, this`onset
    {
      && chunks == Chunks(frames)
      && (!speechStarted ==> AllQuiet(frames, threshold) && silenceStart == None)
      && (speechStarted ==> Speaking(frames, threshold, onset, silenceStart))
    }

    constructor (threshold: real, startTime: nat)
      ensures Valid() && !done && !speechStarted && frames == []
      ensures this.threshold == threshold && this.startTime == startTime
    {
      this.threshold := threshold;
      this.startTime := startTime;
      speechStarted := false;
      silenceStart := None;
      chunks := [];
      done := false;
      frames := [];
      onset := 0;
    }

    /** One pass of the `while True` loop with a dequeued frame (darian.py:104-126). */
    method Step(f: Frame) returns (outcome: Outcome)
      requires Valid() && !done
      modifies this
      ensures Valid()
      ensures frames == old(frames) + [f]
      ensures old(speechStarted) ==> speechStarted && onset == old(onset)
      ensures !speechStarted ==> outcome == Continue
      ensures outcome == EndOfSpeech <==>
        speechStarted && Sustained(frames[onset + 1..], threshold, false, EndSilenceMs)
      ensures outcome == MaxDuration <==>
        speechStarted && !Sustained(frames[onset + 1..], threshold, false, EndSilenceMs)
        && f.time - startTime > MaxListenMs
      ensures done <==> outcome != Continue
      ensures speechStarted ==> FirstLoud(frames, threshold, onset)
      ensures !speechStarted ==> AllQuiet(frames, threshold)
    {
      var skip, ended := false, false;
      if !speechStarted {
        skip := BeforeOnset(f);
      } else {
        ended := AfterOnset(f);
      }
      if ended {
        done := true;
        outcome := EndOfSpeech;
      } else if !skip && f.time - startTime > MaxListenMs {
        done := true;
        outcome := MaxDuration;
      } else {
        outcome := Continue;
      }
    }

    /** darian.py lines 104-114: the block is recorded; a loud frame starts speech, a quiet one skips the rest of the pass. */
    method BeforeOnset(f: Frame) returns (quiet: bool)
      requires Valid() && !speechStarted
      modifies this`frames, this`chunks, this`speechStarted, this`silenceStart, this`onset
      ensures Valid()
      ensures frames == old(frames) + [f]
      ensures quiet <==> f.energy <= threshold
      ensures speechStarted <==> !quiet
      ensures speechStarted ==> onset == |old(frames)| && frames[onset + 1..] == []
    {
      QuietStep(frames, f, threshold);
      ChunksSnoc(frames, f);
      frames := frames + [f];
      chunks := chunks + [f.samples];
      if f.energy > threshold {
        speechStarted := true;
        silenceStart := None;
        onset := |frames| - 1;
        quiet := false;
      } else {
        quiet := true;
      }
    }

    /** darian.py lines 104 and 115-123: the block is recorded; the silence timer is cleared, started, or ends listening (`ended`). */
    method AfterOnset(f: Frame) returns (ended: bool)
      requires Valid() && speechStarted
      modifies this`frames, this`chunks, this`silenceStart
      ensures Valid()
      ensures frames == old(frames) + [f]
      ensures ended <==> Sustained(frames[onset + 1..], threshold, false, EndSilenceMs)
    {
      SpeakingStep(frames, f, threshold, onset, silenceStart);
      ChunksSnoc(frames, f);
      frames := frames + [f];
      chunks := chunks + [f.samples];
      ended := false;
      if f.energy > threshold {
        silenceStart := None;
      } else if silenceStart.None? {
        silenceStart := Some(f.time);
      } else if f.time - silenceStart.value > EndSilenceMs {
        ended := true;
      }
    }
  }

  /** The recording after `audio / np.max(np.abs(audio))`; dividing an all-zero recording gives not-a-number samples. */
  datatype Prepared = NoAudio | Scaled(audio: seq<real>) | NotANumber

  /** darian.py lines 128-135: concatenate, give up on an empty recording, divide by the peak. */
  function Prepare(chunks: seq<seq<real>>): (r: Prepared)
    ensures r.NoAudio? <==> Concat(chunks) == []
    ensures r.NotANumber? <==> Concat(chunks) != [] && Peak(Concat(chunks)) == 0.0
    ensures r.Scaled? ==> Peak(Concat(chunks)) > 0.0 && r.audio == Scale(Concat(chunks), Peak(Concat(chunks)))
    ensures r.Scaled? ==> |r.audio| == |Concat(chunks)|
  {
    var audio := Concat(chunks);
    if audio == [] then NoAudio
    else if Peak(audio) == 0.0 then NotANumber
    else Scaled(Scale(audio, Peak(audio)))
  }

  /** Without a floor, a recording with any sound is scaled to peak exactly 1. */
  lemma PreparePeak(chunks: seq<seq<real>>)
    ensures Prepare(chunks).Scaled? ==> Peak(Prepare(chunks).audio) == 1.0
  {
    var audio := Concat(chunks);
    if audio != [] && Peak(audio) != 0.0 {
      var m := Peak(audio);
      var r := Prepare(chunks).audio;
      assert r == Scale(audio, m);
      PeakScale(audio, m);
      assert Peak(r) == m / m;
      SelfQuotient(m);
    }
  }

  lemma SelfQuotient(m: real)
    requires m > 0.0
    ensures m / m == 1.0
  {
  }

  /**
   * The two normalisations agree on recordings at least as loud as the floor of
   * the newer one, and differ on quieter ones, which only the older one scales to 1.
   */
  lemma PrepareAgreesWithNormalize(chunks: seq<seq<real>>)
    requires Peak(Concat(chunks)) >= Stt.Floor
    ensures Prepare(chunks) == Scaled(Stt.Normalize(Concat(chunks)))
  {
  }

  /**
   * `listen` over a finite stream of frames: the detector, then darian.py lines 128-156.
   * `transcribe` stands for the speech recogniser, run on the prepared recording.
   */
  method Listen(threshold: real, startTime: nat, frames: seq<Frame>, transcribe: Prepared -> seq<string>)
    returns (outcome: Outcome, used: nat, text: Option<string>)
    ensures used <= |frames|
    ensures outcome == Continue ==> used == |frames| && text == None
    ensures outcome != Continue <==> 0 < used && Ends(frames[..used], threshold, startTime)
    ensures NoEndBefore(frames, used, threshold, startTime)
    ensures outcome != Continue ==>
      && var p := Prepare(Chunks(frames[..used]));
         text == if p.NoAudio? then None else Stt.Transcript(transcribe(p))
    ensures text.Some? ==> text.value != [] && !IsSpace(text.value[0]) && !IsSpace(text.value[|text.value| - 1])
  {
    var d := new Detector(threshold, startTime);
    outcome, used := Detect(d, frames);
    if outcome == Continue {
      return outcome, used, None;
    }
    var p := Prepare(d.chunks);
    if p.NoAudio? {
      text := None;
    } else {
      text := Stt.Transcript(transcribe(p));
    }
  }

  /** The `while True` loop of `listen`: steps the detector over the frames until it stops or they run out. */
  method Detect(d: Detector, frames: seq<Frame>) returns (outcome: Outcome, used: nat)
    requires d.Valid() && !d.done && !d.speechStarted && d.frames == []
    modifies d
    ensures d.Valid() && used <= |frames| && d.frames == frames[..used]
    ensures outcome == Continue ==> used == |frames|
    ensures outcome != Continue <==> 0 < used && Ends(frames[..used], d.threshold, d.startTime)
    ensures NoEndBefore(frames, used, d.threshold, d.startTime)
  {
    used, outcome := 0, Continue;
    while used < |frames| && outcome == Continue
      invariant d.Valid() && used <= |frames| && d.frames == frames[..used]
      invariant d.done <==> outcome != Continue
      invariant outcome != Continue <==> 0 < used && Ends(frames[..used], d.threshold, d.startTime)
      invariant NoEndBefore(frames, used, d.threshold, d.startTime)
    {
      NoEndBeforeNext(frames, used, d.threshold, d.startTime);
      assert frames[..used + 1] == frames[..used] + [frames[used]];
      outcome := d.Step(frames[used]);
      StopIsEnd(frames[..used], frames[used], d.threshold, d.startTime, d.speechStarted, d.onset, outcome != Continue);
      used := used + 1;
    }
  }
}
