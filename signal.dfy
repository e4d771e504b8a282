/**
 * The pieces of audio handling shared by the two speech detectors: a frame
 * (one block delivered by the input stream, with its energy and the time it
 * was taken), the trailing run of loud or quiet frames, the bounded pre-roll
 * list, concatenation of blocks and the peak of a signal.
 *
 * Samples are reals: there is no float32 rounding. A frame's energy
 * (`np.linalg.norm(chunk) * 10`) is given with the frame, and its time is a
 * timestamp in milliseconds taken once per frame in place of `time.time()`.
 */
module Signal {
  import opened Options

  datatype Frame = Frame(samples: seq<real>, energy: real, time: nat)

  /** What a detector decides after one frame: keep listening, or stop for one of two reasons. */
  datatype Outcome = Continue | EndOfSpeech | MaxDuration

  /** A frame belongs to the loud class when its energy is strictly above the threshold. */
  predicate InRun(f: Frame, threshold: real, loud: bool) {
    (f.energy > threshold) == loud
  }

  /**
   * The index of the first frame of the run of frames of one class that ends the
   * history, or None when the history is empty or its last frame is of the other class.
   */
  function RunStart(fs: seq<Frame>, threshold: real, loud: bool): (r: Option<nat>)
    ensures r.None? <==> fs == [] || !InRun(fs[|fs| - 1], threshold, loud)
    ensures r.Some? ==> r.value < |fs|
    ensures r.Some? ==> forall i :: r.value <= i < |fs| ==> InRun(fs[i], threshold, loud)
    ensures r.Some? && r.value > 0 ==> !InRun(fs[r.value - 1], threshold, loud)
    decreases |fs|
  {
    if fs == [] || !InRun(fs[|fs| - 1], threshold, loud) then None
    else
      match RunStart(fs[..|fs| - 1], threshold, loud)
      case None => Some(|fs| - 1)
      case Some(i) => Some(i)
  }

  /** The time of the first frame of the trailing run, as the detectors store it. */
  function RunStartTime(fs: seq<Frame>, threshold: real, loud: bool): (t: Option<nat>)
    ensures t.Some? <==> RunStart(fs, threshold, loud).Some?
  {
    match RunStart(fs, threshold, loud)
    case None => None
    case Some(i) => Some(fs[i].time)
  }

  /** One more frame either extends the trailing run, starts a new one, or ends it. */
  lemma RunStartAppend(fs: seq<Frame>, f: Frame, threshold: real, loud: bool)
    ensures RunStartTime(fs + [f], threshold, loud) ==
      if !InRun(f, threshold, loud) then None
      else if RunStartTime(fs, threshold, loud).None? then Some(f.time)
      else RunStartTime(fs, threshold, loud)
  {
    var g := fs + [f];
    assert g[..|g| - 1] == fs;
    if InRun(f, threshold, loud) && RunStart(fs, threshold, loud).Some? {
      assert g[RunStart(fs, threshold, loud).value] == fs[RunStart(fs, threshold, loud).value];
    }
  }

  /**
   * The run that ends the history began at an earlier frame, and the last frame
   * came more than `ms` milliseconds after it: the test both timers apply
   * (`elif time.time() - start > limit`).
   */
  predicate Sustained(fs: seq<Frame>, threshold: real, loud: bool, ms: nat) {
    && RunStart(fs, threshold, loud).Some?
    && RunStart(fs, threshold, loud).value < |fs| - 1
    && fs[|fs| - 1].time - fs[RunStart(fs, threshold, loud).value].time > ms
  }

  /** The timer test on a new frame, read off the stored start time of the run so far. */
  lemma {:induction false} SustainedAppend(fs: seq<Frame>, f: Frame, threshold: real, loud: bool, ms: nat)
    ensures Sustained(fs + [f], threshold, loud, ms) <==>
      InRun(f, threshold, loud) && RunStartTime(fs, threshold, loud).Some?
      && f.time - RunStartTime(fs, threshold, loud).value > ms
  {
    var g := fs + [f];
    assert g[..|g| - 1] == fs;
    if InRun(f, threshold, loud) && RunStart(fs, threshold, loud).Some? {
      assert g[RunStart(fs, threshold, loud).value] == fs[RunStart(fs, threshold, loud).value];
    }
  }

  /** A run never lasts long enough on its first frame alone. */
  lemma SustainedNeedsTwoFrames(fs: seq<Frame>, threshold: real, loud: bool, ms: nat)
    requires Sustained(fs, threshold, loud, ms)
    ensures |fs| >= 2 && InRun(fs[|fs| - 2], threshold, loud) && InRun(fs[|fs| - 1], threshold, loud)
  {
  }

  /**
   * The silence timer after one more frame following frame `k`: it holds the start
   * of the trailing quiet run since frame `k`, and the silence test on the new
   * frame reads it off that timer.
   */
  lemma SilenceTimer(fs: seq<Frame>, f: Frame, threshold: real, k: nat, ms: nat)
    requires k < |fs|
    ensures var start := RunStartTime(fs[k + 1..], threshold, false);
      && RunStartTime((fs + [f])[k + 1..], threshold, false) ==
           (if f.energy > threshold then None else if start.None? then Some(f.time) else start)
      && (Sustained((fs + [f])[k + 1..], threshold, false, ms) <==>
           f.energy <= threshold && start.Some? && f.time - start.value > ms)
  {
    assert (fs + [f])[k + 1..] == fs[k + 1..] + [f];
    RunStartAppend(fs[k + 1..], f, threshold, false);
    SustainedAppend(fs[k + 1..], f, threshold, false, ms);
  }

  /** The last `n` elements of `s`, or all of it when it is shorter. */
  function Tail<T>(s: seq<T>, n: nat): (r: seq<T>)
    ensures |r| == if |s| <= n then |s| else n
  {
    if |s| <= n then s else s[|s| - n..]
  }

  /**
   * `buffer.append(x)` followed by `buffer.pop(0)` when the buffer then holds
   * more than `cap` elements: the oldest element is evicted first.
   */
  function Admit<T>(buffer: seq<T>, x: T, cap: nat): (r: seq<T>)
    ensures |buffer| <= cap ==> |r| <= cap
    ensures |buffer| < cap ==> r == buffer + [x]
    ensures |buffer| == cap > 0 ==> r == buffer[1..] + [x]
  {
    var b := buffer + [x];
    if |b| > cap then b[1..] else b
  }

  /** Admitting into the last `n` elements gives the last `n` elements of the longer list. */
  lemma {:induction false} AdmitTail<T>(s: seq<T>, x: T, n: nat)
    ensures Admit(Tail(s, n), x, n) == Tail(s + [x], n)
  {
    var t := s + [x];
    if |s| < n {
    } else if n == 0 {
    } else {
      assert Tail(s, n) == s[|s| - n..];
      assert Tail(t, n) == t[|t| - n..];
      assert s[|s| - n..][1..] == s[|s| - n + 1..];
      assert t[|t| - n..] == s[|s| - n + 1..] + [x];
    }
  }

  /** The blocks of samples of a list of frames. */
  function Chunks(fs: seq<Frame>): (cs: seq<seq<real>>)
    ensures |cs| == |fs|
    ensures forall i :: 0 <= i < |fs| ==> cs[i] == fs[i].samples
  {
    seq(|fs|, i requires 0 <= i < |fs| => fs[i].samples)
  }

  /** One more frame adds its block at the end. */
  lemma ChunksSnoc(fs: seq<Frame>, f: Frame)
    ensures Chunks(fs + [f]) == Chunks(fs) + [f.samples]
  {
    assert forall i :: 0 <= i < |fs| + 1 ==> Chunks(fs + [f])[i] == (Chunks(fs) + [f.samples])[i];
  }

  /** `np.concatenate(chunks)`: the blocks one after the other. */
  function Concat(cs: seq<seq<real>>): (a: seq<real>)
  {
    if cs == [] then [] else cs[0] + Concat(cs[1..])
  }

  /** The samples of a concatenation, counted block by block. */
  function TotalLength(cs: seq<seq<real>>): nat
  {
    if cs == [] then 0 else |cs[0]| + TotalLength(cs[1..])
  }

  lemma {:induction false} ConcatLength(cs: seq<seq<real>>)
    ensures |Concat(cs)| == TotalLength(cs)
  {
    if cs != [] {
      ConcatLength(cs[1..]);
    }
  }

  /** Concatenation gives every block's samples in order. */
  lemma {:induction false} ConcatAppend(cs: seq<seq<real>>, ds: seq<seq<real>>)
    ensures Concat(cs + ds) == Concat(cs) + Concat(ds)
    decreases |cs|
  {
    if cs != [] {
      assert (cs + ds)[1..] == cs[1..] + ds;
      ConcatAppend(cs[1..], ds);
    } else {
      assert cs + ds == ds;
    }
  }

  function Abs(x: real): real {
    if x < 0.0 then -x else x
  }

  /** `np.max(np.abs(audio))`, taken as 0 for the empty signal. */
  function Peak(a: seq<real>): (p: real)
    ensures p >= 0.0
    ensures forall i :: 0 <= i < |a| ==> Abs(a[i]) <= p
    ensures a != [] ==> exists i :: 0 <= i < |a| && Abs(a[i]) == p
    ensures a == [] ==> p == 0.0
  {
    if a == [] then 0.0
    else
      var m := Peak(a[..|a| - 1]);
      var x := Abs(a[|a| - 1]);
      assert forall i :: 0 <= i < |a| - 1 ==> a[i] == a[..|a| - 1][i];
      if x > m then x else m
  }

  /** The peak is the only bound on the magnitudes that some sample attains. */
  lemma PeakUnique(a: seq<real>, p: real)
    requires forall i :: 0 <= i < |a| ==> Abs(a[i]) <= p
    requires exists i :: 0 <= i < |a| && Abs(a[i]) == p
    ensures Peak(a) == p
  {
    var i :| 0 <= i < |a| && Abs(a[i]) == p;
    var j :| 0 <= j < |a| && Abs(a[j]) == Peak(a);
    assert Abs(a[j]) <= p && Abs(a[i]) <= Peak(a);
  }

  /** One sample of a scaled signal is the original sample divided by the divisor. */
  lemma ScaledSample(a: seq<real>, d: real, i: nat)
    requires d > 0.0 && i < |a|
    ensures Scale(a, d)[i] == a[i] / d
  {
  }

  /** `audio / d`: every sample divided by the same positive number. */
  function Scale(a: seq<real>, d: real): (r: seq<real>)
    requires d > 0.0
    ensures |r| == |a|
    ensures forall i :: 0 <= i < |a| ==> r[i] * d == a[i]
    ensures forall i :: 0 <= i < |a| ==> Abs(r[i]) == Abs(a[i]) / d
  {
    seq(|a|, i requires 0 <= i < |a| => a[i] / d)
  }

  lemma DivideMonotone(x: real, y: real, d: real)
    requires x <= y && d > 0.0
    ensures x / d <= y / d
  {
    assert y / d - x / d == (y - x) / d;
  }

  /** Dividing by a positive number divides the peak by it. */
  lemma PeakScale(a: seq<real>, d: real)
    requires d > 0.0
    ensures Peak(Scale(a, d)) == Peak(a) / d
  {
    var r := Scale(a, d);
    if a != [] {
      var j :| 0 <= j < |a| && Abs(a[j]) == Peak(a);
      assert Abs(r[j]) == Peak(a) / d;
      forall i | 0 <= i < |r| ensures Abs(r[i]) <= Peak(a) / d {
        DivideMonotone(Abs(a[i]), Peak(a), d);
      }
      PeakUnique(r, Peak(a) / d);
    }
  }
}
