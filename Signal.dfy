/**
 * The signal rules of recording.py over samples modelled as reals: the level
 * acceptance test, silence trimming, RMS normalisation with its clip guard and
 * the four-band level meter.
 */
module Signal {

  const SAMPLE_RATE: nat := 22050
  const LEVEL_THRESHOLD_LOW: real := 0.02
  const LEVEL_THRESHOLD_HIGH: real := 0.9
  const TARGET_RMS: real := 0.15
  const SILENCE_THRESHOLD: real := 0.01
  const SILENCE_DURATION: real := 0.1
  /** Peak amplitude that normalisation never exceeds. */
  const CLIP_LEVEL: real := 0.95
  /** Largest moving-average window used when smoothing before a trim. */
  const MAX_WINDOW: nat := 512

  function Abs(x: real): real
  {
    if x < 0.0 then -x else x
  }

  /** `np.abs(audio)`. */
  function Magnitudes(a: seq<real>): (r: seq<real>)
    ensures |r| == |a| && forall i :: 0 <= i < |a| ==> r[i] == Abs(a[i])
  {
    seq(|a|, i requires 0 <= i < |a| => Abs(a[i]))
  }

  function Sum(a: seq<real>): real
  {
    if a == [] then 0.0 else a[0] + Sum(a[1..])
  }

  function SumSquares(a: seq<real>): real
  {
    if a == [] then 0.0 else a[0] * a[0] + SumSquares(a[1..])
  }

  /** `np.mean(audio ** 2)`, defined on non-empty audio. */
  function MeanSquare(a: seq<real>): real
    requires |a| > 0
  {
    SumSquares(a) / (|a| as real)
  }

  /** Python's `int(x)` on a float: truncation toward zero. */
  function Truncate(x: real): int
  {
    if x >= 0.0 then x.Floor else -((-x).Floor)
  }

  // ---------------------------------------------------------------------------
  // Level acceptance test of stop_recording
  // ---------------------------------------------------------------------------

  datatype Level = TooQuiet | TooLoud | InRange

  /**
   * `rms < LEVEL_THRESHOLD_LOW`, `rms > LEVEL_THRESHOLD_HIGH`, else in range,
   * stated on the mean square against the squared thresholds. The mean of no
   * samples is NaN in numpy, which fails both comparisons.
   */
  function CheckLevel(a: seq<real>): Level
  {
    if |a| == 0 then InRange
    else if MeanSquare(a) < LEVEL_THRESHOLD_LOW * LEVEL_THRESHOLD_LOW then TooQuiet
    else if MeanSquare(a) > LEVEL_THRESHOLD_HIGH * LEVEL_THRESHOLD_HIGH then TooLoud
    else InRange
  }

  /**
   * Comparing the square root of the mean square with a positive threshold is
   * the same as comparing the mean square with the squared threshold.
   */
  lemma RmsComparison(rms: real, t: real)
    requires rms >= 0.0 && t > 0.0
    ensures rms < t <==> rms * rms < t * t
    ensures rms > t <==> rms * rms > t * t
  {
    if rms < t {
      SquareLess(rms, t);
    } else if rms > t {
      SquareLess(t, rms);
    }
  }

  lemma SquareLess(x: real, y: real)
    requires 0.0 <= x < y
    ensures x * x < y * y
  {
    MulLtBoth(x, y, x, y);
  }

  lemma MulLtBoth(a: real, b: real, c: real, d: real)
    requires 0.0 <= a < b && 0.0 <= c < d
    ensures a * c < b * d
  {
    MulLe(a, b, c);
    assert b * c < b * d by {
      assert b * (d - c) > 0.0;
    }
  }

  lemma MulLt(x: real, y: real, k: real)
    requires x < y && k > 0.0
    ensures x * k < y * k
  {
    assert (y - x) * k > 0.0;
  }

  lemma MulLe(x: real, y: real, k: real)
    requires x <= y && k >= 0.0
    ensures x * k <= y * k
  {
    assert (y - x) * k >= 0.0;
  }

  /** With rms the square root of the mean square, CheckLevel is the source's RMS test. */
  lemma CheckLevelIsRmsTest(a: seq<real>, rms: real)
    requires |a| > 0 && rms >= 0.0 && rms * rms == MeanSquare(a)
    ensures CheckLevel(a) == TooQuiet <==> rms < LEVEL_THRESHOLD_LOW
    ensures CheckLevel(a) == TooLoud <==> !(rms < LEVEL_THRESHOLD_LOW) && rms > LEVEL_THRESHOLD_HIGH
    ensures CheckLevel(a) == InRange <==> LEVEL_THRESHOLD_LOW <= rms <= LEVEL_THRESHOLD_HIGH
  {
    RmsComparison(rms, LEVEL_THRESHOLD_LOW);
    RmsComparison(rms, LEVEL_THRESHOLD_HIGH);
  }

  // ---------------------------------------------------------------------------
  // trim_silence
  // ---------------------------------------------------------------------------

  /** `min(512, n // 10)`. */
  function SmoothingWindow(n: nat): (w: nat)
    ensures w <= MAX_WINDOW && w <= n / 10
    ensures w == MAX_WINDOW || w == n / 10
  {
    if MAX_WINDOW < n / 10 then MAX_WINDOW else n / 10
  }

  /** The samples of `x` at positions lo .. hi - 1 that exist. */
  function Clip(x: seq<real>, lo: int, hi: int): seq<real>
  {
    var a := if lo < 0 then 0 else if lo > |x| then |x| else lo;
    var b := if hi > |x| then |x| else if hi < a then a else hi;
    x[a..b]
  }

  /**
   * Entry i of `np.convolve(x, np.ones(w) / w, mode='same')`: the mean over the
   * w positions starting w // 2 before i, with zeros outside the signal.
   */
  function WindowMean(x: seq<real>, w: nat, i: int): real
    requires w > 0
  {
    Sum(Clip(x, i - w / 2, i - w / 2 + w)) / (w as real)
  }

  /** The smoothed magnitude trim_silence scans; no smoothing when the window is at most 1. */
  function Smooth(x: seq<real>): (r: seq<real>)
    ensures |r| == |x|
    ensures SmoothingWindow(|x|) <= 1 ==> r == x
  {
    var w := SmoothingWindow(|x|);
    if w > 1 then seq(|x|, i requires 0 <= i < |x| => WindowMean(x, w, i)) else x
  }

  /** The first index at or after `i` whose value exceeds `t`, or |s| when there is none. */
  function FirstAbove(s: seq<real>, t: real, i: nat): (k: nat)
    requires i <= |s|
    ensures i <= k <= |s|
    ensures forall j :: i <= j < k ==> s[j] <= t
    ensures k < |s| ==> s[k] > t
    decreases |s| - i
  {
    if i == |s| then |s| else if s[i] > t then i else FirstAbove(s, t, i + 1)
  }

  /** The last index below `i` whose value exceeds `t`, or -1 when there is none. */
  function LastAbove(s: seq<real>, t: real, i: nat): (k: int)
    requires i <= |s|
    ensures -1 <= k < i
    ensures forall j :: k < j < i ==> s[j] <= t
    ensures k >= 0 ==> s[k] > t
  {
    if i == 0 then -1 else if s[i - 1] > t then i - 1 else LastAbove(s, t, i - 1)
  }

  /** The half-open range trim_silence keeps. */
  datatype Span = Span(start: nat, end: nat)

  /**
   * `start_idx` and `end_idx`: from `pad` frames before the first value above
   * the threshold to `pad` frames after the last one, clamped to the signal;
   * the whole signal when nothing is above the threshold.
   */
  function TrimSpan(s: seq<real>, t: real, pad: nat): (sp: Span)
    ensures sp.start <= sp.end <= |s|
    ensures (forall i :: 0 <= i < |s| ==> s[i] <= t) ==> sp == Span(0, |s|)
    ensures forall i :: 0 <= i < |s| && s[i] > t ==>
      sp.start <= i <= sp.end && (pad > 0 ==> i < sp.end)
    ensures sp.start > 0 ==> forall j :: 0 <= j < |s| && j < sp.start + pad ==> s[j] <= t
    ensures sp.end < |s| ==> forall j :: 0 <= j < |s| && sp.end < j + pad ==> s[j] <= t
  {
    var first := FirstAbove(s, t, 0);
    var last := LastAbove(s, t, |s|);
    var start := if first < |s| then (if first - pad < 0 then 0 else first - pad) else 0;
    var end := if last >= 0 then (if |s| < last + pad then |s| else last + pad) else |s|;
    Span(start, end)
  }

  /** `int(duration * sample_rate)`: the shortest span a trim may keep. */
  function MinFrames(duration: real, sampleRate: nat): int
  {
    Truncate(duration * sampleRate as real)
  }

  /** `int(0.05 * sample_rate)`: the 50 ms kept before and after speech. */
  function PreRoll(sampleRate: nat): nat
  {
    Truncate(0.05 * sampleRate as real)
  }

  /** What trim_silence returns. */
  function Trimmed(audio: seq<real>, sampleRate: nat, threshold: real, duration: real): (r: seq<real>)
  {
    var sp := TrimSpan(Smooth(Magnitudes(audio)), threshold, PreRoll(sampleRate));
    if sp.end - sp.start < MinFrames(duration, sampleRate) then audio else audio[sp.start..sp.end]
  }

  /** At the default rate the guard is 2205 frames and the pre-roll 1102 frames. */
  lemma DefaultTrimFrames()
    ensures MinFrames(SILENCE_DURATION, SAMPLE_RATE) == 2205
    ensures PreRoll(SAMPLE_RATE) == 1102
  {
    assert SILENCE_DURATION * SAMPLE_RATE as real == 2205.0;
    assert 0.05 * SAMPLE_RATE as real == 1102.5;
  }

  /**
   * The result is a slice `audio[start:end]` with 0 <= start <= end <= len: the
   * input itself, or a span at least the guard length long. Every sample whose
   * smoothed magnitude is above the threshold lies in [start, end]; with a
   * positive pre-roll (any rate of at least 20 Hz) each one is kept.
   */
  lemma TrimmedShape(audio: seq<real>, sampleRate: nat, threshold: real, duration: real)
    ensures var r := Trimmed(audio, sampleRate, threshold, duration);
      var sm := Smooth(Magnitudes(audio));
      var sp := TrimSpan(sm, threshold, PreRoll(sampleRate));
      0 <= sp.start <= sp.end <= |audio| &&
      (r == audio || (r == audio[sp.start..sp.end] && |r| >= MinFrames(duration, sampleRate))) &&
      (r != audio ==> forall i :: 0 <= i < |audio| && sm[i] > threshold ==> sp.start <= i <= sp.end) &&
      (r != audio && PreRoll(sampleRate) > 0 ==>
        forall i :: 0 <= i < |audio| && sm[i] > threshold ==> sp.start <= i < sp.end)
  {
  }

  /** When no smoothed magnitude exceeds the threshold the audio comes back unchanged. */
  lemma TrimmedSilence(audio: seq<real>, sampleRate: nat, threshold: real, duration: real)
    requires forall i :: 0 <= i < |audio| ==> Smooth(Magnitudes(audio))[i] <= threshold
    ensures Trimmed(audio, sampleRate, threshold, duration) == audio
  {
    var sp := TrimSpan(Smooth(Magnitudes(audio)), threshold, PreRoll(sampleRate));
    assert sp == Span(0, |audio|);
    assert audio[0..|audio|] == audio;
  }

  /** The forward scan of trim_silence: pad frames before the first loud frame. */
  method ScanStart(smoothed: seq<real>, threshold: real, pad: nat) returns (startIdx: nat)
    ensures startIdx == TrimSpan(smoothed, threshold, pad).start
  {
    ghost var first := FirstAbove(smoothed, threshold, 0);
    startIdx := 0;
    for i := 0 to |smoothed|
      invariant forall j :: 0 <= j < i ==> smoothed[j] <= threshold
    {
      if smoothed[i] > threshold {
        startIdx := if i - pad < 0 then 0 else i - pad;
        assert i == first;
        return;
      }
    }
    assert first == |smoothed|;
  }

  /** The backward scan of trim_silence: pad frames after the last loud frame. */
  method ScanEnd(smoothed: seq<real>, threshold: real, pad: nat) returns (endIdx: nat)
    ensures endIdx == TrimSpan(smoothed, threshold, pad).end
  {
    ghost var last := LastAbove(smoothed, threshold, |smoothed|);
    endIdx := |smoothed|;
    var i := |smoothed| - 1;
    while i >= 0
      invariant -1 <= i < |smoothed|
      invariant forall j :: i < j < |smoothed| ==> smoothed[j] <= threshold
    {
      if smoothed[i] > threshold {
        endIdx := if |smoothed| < i + pad then |smoothed| else i + pad;
        assert i == last;
        return;
      }
      i := i - 1;
    }
    assert last == -1;
  }

  /** trim_silence: smooth, scan from both ends, keep the span unless it is too short. */
  method TrimSilence(audio: seq<real>, sampleRate: nat, threshold: real, duration: real)
    returns (r: seq<real>)
    ensures r == Trimmed(audio, sampleRate, threshold, duration)
  {
    var minFrames := MinFrames(duration, sampleRate);
    var smoothed := Smooth(Magnitudes(audio));
    var pad := PreRoll(sampleRate);
    var startIdx := ScanStart(smoothed, threshold, pad);
    var endIdx := ScanEnd(smoothed, threshold, pad);
    if endIdx - startIdx < minFrames {
      return audio;
    }
    return audio[startIdx..endIdx];
  }

  // ---------------------------------------------------------------------------
  // normalize_audio
  // ---------------------------------------------------------------------------

  /** The largest magnitude, 0 for no samples: `np.max(np.abs(audio))`. */
  function Peak(a: seq<real>): (p: real)
    ensures p >= 0.0
  {
    if a == [] then 0.0
    else
      var rest := Peak(a[1..]);
      if Abs(a[0]) >= rest then Abs(a[0]) else rest
  }

  /** Every magnitude is at most the peak. */
  lemma {:induction false} PeakBound(a: seq<real>, i: nat)
    requires i < |a|
    ensures Abs(a[i]) <= Peak(a)
  {
    if i > 0 {
      PeakBound(a[1..], i - 1);
    }
  }

  /** The peak of non-empty audio is the magnitude of one of its samples. */
  lemma {:induction false} PeakAttained(a: seq<real>) returns (i: nat)
    requires |a| > 0
    ensures i < |a| && Abs(a[i]) == Peak(a)
  {
    if |a| == 1 || Abs(a[0]) >= Peak(a[1..]) {
      i := 0;
    } else {
      var j := PeakAttained(a[1..]);
      i := j + 1;
    }
  }

  /** The peak is the least bound on the magnitudes. */
  lemma {:induction false} PeakLeast(a: seq<real>, b: real)
    requires b >= 0.0
    requires forall i :: 0 <= i < |a| ==> Abs(a[i]) <= b
    ensures Peak(a) <= b
  {
    if |a| > 0 {
      var i := PeakAttained(a);
    }
  }

  /** `audio * k`. */
  function Scale(a: seq<real>, k: real): (r: seq<real>)
    ensures |r| == |a| && forall i :: 0 <= i < |a| ==> r[i] == a[i] * k
  {
    seq(|a|, i requires 0 <= i < |a| => a[i] * k)
  }

  predicate AllZero(a: seq<real>)
  {
    forall i :: 0 <= i < |a| ==> a[i] == 0.0
  }

  /** Scaling by a positive factor scales every magnitude by that factor. */
  lemma AbsScale(x: real, k: real)
    requires k > 0.0
    ensures Abs(x * k) == Abs(x) * k
  {
    if x < 0.0 {
      MulLt(x, 0.0, k);
      assert -(x * k) == (-x) * k;
    } else {
      MulLe(0.0, x, k);
    }
  }

  /**
   * `normalize_audio`: unchanged when every sample is zero (RMS 0, or NaN for
   * no samples); otherwise scaled by `gain` (standing for TARGET_RMS / rms,
   * positive, see IsTargetGain), then scaled down to a peak of 0.95 when it came out above that.
   */
  function Normalize(a: seq<real>, gain: real): seq<real>
    requires gain > 0.0
  {
    if AllZero(a) then a
    else
      var s := Scale(a, gain);
      var m := Peak(s);
      if m > CLIP_LEVEL then Scale(s, CLIP_LEVEL / m) else s
  }

  /**
   * `target_rms / current_rms` for audio that is not empty: the positive gain
   * whose square times the mean square is TARGET_RMS squared.
   */
  predicate IsTargetGain(a: seq<real>, gain: real)
  {
    |a| > 0 && gain > 0.0 && gain * gain * MeanSquare(a) == TARGET_RMS * TARGET_RMS
  }

  /** Scaling every sample by k scales the sum of squares by k squared. */
  lemma {:induction false} SumSquaresScale(a: seq<real>, k: real)
    ensures SumSquares(Scale(a, k)) == k * k * SumSquares(a)
  {
    if a != [] {
      var s := Scale(a, k);
      ScaleTail(a, k);
      SumSquaresScale(a[1..], k);
      assert s[0] * s[0] == k * k * (a[0] * a[0]);
    }
  }

  lemma ScaleTail(a: seq<real>, k: real)
    requires a != []
    ensures Scale(a, k)[1..] == Scale(a[1..], k)
  {
    var s, t := Scale(a, k)[1..], Scale(a[1..], k);
    assert |s| == |t|;
    forall i | 0 <= i < |s| ensures s[i] == t[i] {
      assert s[i] == a[i + 1] * k;
    }
  }

  /**
   * With the gain `target_rms / current_rms`, normalised audio has RMS
   * TARGET_RMS unless the clip guard had to scale it down.
   */
  lemma NormalizeHitsTarget(a: seq<real>, gain: real)
    requires IsTargetGain(a, gain) && Peak(Scale(a, gain)) <= CLIP_LEVEL
    ensures |Normalize(a, gain)| == |a|
    ensures MeanSquare(Normalize(a, gain)) == TARGET_RMS * TARGET_RMS
  {
    NormalizeGainOnly(a, gain);
    MeanSquareScale(a, gain);
  }

  /** Scaling every sample by k scales the mean square by k squared. */
  lemma MeanSquareScale(a: seq<real>, k: real)
    requires |a| > 0
    ensures MeanSquare(Scale(a, k)) == k * k * MeanSquare(a)
  {
    var s := Scale(a, k);
    SumSquaresScale(a, k);
    assert SumSquares(s) == k * k * SumSquares(a);
    assert MeanSquare(s) == SumSquares(s) / (|a| as real);
    MulDiv(k * k, SumSquares(a), |a| as real);
  }

  lemma MulDiv(x: real, y: real, n: real)
    requires n > 0.0
    ensures x * y / n == x * (y / n)
  {
  }

  /** The single factor normalisation multiplies every sample by. */
  function NormalizeFactor(a: seq<real>, gain: real): (k: real)
    requires gain > 0.0
    ensures k > 0.0
  {
    if AllZero(a) then 1.0
    else
      var m := Peak(Scale(a, gain));
      if m > CLIP_LEVEL then gain * (CLIP_LEVEL / m) else gain
  }

  /** Scaling twice is scaling once by the product. */
  lemma ScaleTwice(a: seq<real>, j: real, k: real, jk: real)
    requires jk == j * k
    ensures Scale(Scale(a, j), k) == Scale(a, jk)
  {
    forall i | 0 <= i < |a|
      ensures Scale(Scale(a, j), k)[i] == Scale(a, jk)[i]
    {
      MulAssoc(a[i], j, k);
    }
  }

  lemma MulAssoc(x: real, j: real, k: real)
    ensures (x * j) * k == x * (j * k)
  {
  }

  /** Scaling silence leaves it unchanged. */
  lemma ScaleZero(a: seq<real>, k: real)
    requires AllZero(a)
    ensures Scale(a, k) == a
  {
    forall i | 0 <= i < |a|
      ensures Scale(a, k)[i] == a[i]
    {
      MulZero(a[i], k);
    }
  }

  lemma MulZero(x: real, k: real)
    requires x == 0.0
    ensures x * k == 0.0
  {
  }

  /** A sample within m > 0, scaled by CLIP_LEVEL / m, is within CLIP_LEVEL. */
  lemma ClipSample(x: real, m: real, y: real)
    requires m > 0.0 && Abs(x) <= m && y == x * (CLIP_LEVEL / m)
    ensures Abs(y) <= CLIP_LEVEL
  {
    var c := CLIP_LEVEL / m;
    AbsScale(x, c);
    MulLe(Abs(x), m, c);
    assert m * c == CLIP_LEVEL;
  }

  /** Scaling down by CLIP_LEVEL / Peak(s) leaves a peak of at most CLIP_LEVEL. */
  lemma {:induction false} ClipToLevel(s: seq<real>)
    requires Peak(s) > CLIP_LEVEL
    ensures Peak(Scale(s, CLIP_LEVEL / Peak(s))) <= CLIP_LEVEL
  {
    var m := Peak(s);
    var r := Scale(s, CLIP_LEVEL / m);
    forall i | 0 <= i < |s|
      ensures Abs(r[i]) <= CLIP_LEVEL
    {
      PeakBound(s, i);
      ClipSample(s[i], m, r[i]);
    }
    PeakLeast(r, CLIP_LEVEL);
  }

  /** Normalisation multiplies every sample by one positive factor. */
  lemma {:induction false} NormalizeIsScaling(a: seq<real>, gain: real)
    requires gain > 0.0
    ensures Normalize(a, gain) == Scale(a, NormalizeFactor(a, gain))
  {
    if AllZero(a) {
      ScaleZero(a, 1.0);
    } else if Peak(Scale(a, gain)) > CLIP_LEVEL {
      ScaleTwice(a, gain, CLIP_LEVEL / Peak(Scale(a, gain)), NormalizeFactor(a, gain));
    }
  }

  /** Audio that is not silent comes out with a peak of at most 0.95. */
  lemma {:induction false} NormalizeClips(a: seq<real>, gain: real)
    requires gain > 0.0 && !AllZero(a)
    ensures Peak(Normalize(a, gain)) <= CLIP_LEVEL
  {
    var s := Scale(a, gain);
    if Peak(s) > CLIP_LEVEL {
      ClipToLevel(s);
    }
  }

  /**
   * Silent (or empty) audio comes back unchanged, and audio the gain alone
   * keeps at or below 0.95 is just scaled by the gain.
   */
  lemma {:induction false} NormalizeGainOnly(a: seq<real>, gain: real)
    requires gain > 0.0
    ensures AllZero(a) ==> Normalize(a, gain) == a
    ensures Peak(Scale(a, gain)) <= CLIP_LEVEL ==> Normalize(a, gain) == Scale(a, gain)
  {
    if AllZero(a) {
      ScaleZero(a, gain);
    }
  }

  /** Normalisation preserves the length and the sign of every sample. */
  lemma NormalizeKeepsSign(a: seq<real>, gain: real, i: nat)
    requires gain > 0.0 && i < |a|
    ensures |Normalize(a, gain)| == |a|
    ensures Normalize(a, gain)[i] > 0.0 <==> a[i] > 0.0
    ensures Normalize(a, gain)[i] < 0.0 <==> a[i] < 0.0
  {
    NormalizeIsScaling(a, gain);
    SignOfProduct(a[i], NormalizeFactor(a, gain));
  }

  lemma SignOfProduct(x: real, k: real)
    requires k > 0.0
    ensures x * k > 0.0 <==> x > 0.0
    ensures x * k < 0.0 <==> x < 0.0
  {
    if x > 0.0 {
      MulLt(0.0, x, k);
    } else if x < 0.0 {
      MulLt(x, 0.0, k);
    }
  }

  // ---------------------------------------------------------------------------
  // Level meter of update_meter
  // ---------------------------------------------------------------------------

  datatype Band = Quiet | Good | Loud | Clipping

  /** The four bands, by fixed thresholds on the peak level. */
  function BandOf(level: real): Band
  {
    if level < 0.05 then Quiet
    else if level < 0.7 then Good
    else if level < 0.9 then Loud
    else Clipping
  }

  /** The status text shown next to the meter. */
  function BandLabel(b: Band): string
  {
    match b
    case Quiet => "Too quiet"
    case Good => "Good"
    case Loud => "Loud"
    case Clipping => "Clipping!"
  }

  function BandRank(b: Band): nat
  {
    match b
    case Quiet => 0
    case Good => 1
    case Loud => 2
    case Clipping => 3
  }

  /** A louder level never shows a lower band. */
  lemma BandMonotone(x: real, y: real)
    requires x <= y
    ensures BandRank(BandOf(x)) <= BandRank(BandOf(y))
  {
  }

  /** `audio[-k:]` for k > 0: the last k samples, or all of them when there are fewer. */
  function Tail(a: seq<real>, k: nat): (r: seq<real>)
    requires k > 0
    ensures |r| == if |a| < k then |a| else k
    ensures r == a[|a| - |r|..]
  {
    if |a| <= k then a else a[|a| - k..]
  }

  /** The meter's level: the peak over the last SAMPLE_RATE // 10 samples. */
  function MeterLevel(audio: seq<real>): real
  {
    Peak(Tail(audio, SAMPLE_RATE / 10))
  }

  /** The meter shows "Clipping!" exactly when a recent sample reaches 0.9 in magnitude. */
  lemma MeterClipping(audio: seq<real>)
    requires |audio| > 0
    ensures var t := Tail(audio, SAMPLE_RATE / 10);
      BandOf(MeterLevel(audio)) == Clipping <==> exists k :: 0 <= k < |t| && Abs(t[k]) >= 0.9
  {
    var t := Tail(audio, SAMPLE_RATE / 10);
    var i := PeakAttained(t);
    forall k | 0 <= k < |t|
      ensures Abs(t[k]) <= Peak(t)
    {
      PeakBound(t, k);
    }
  }

  /** The meter shows "Too quiet" exactly when every recent sample is below 0.05 in magnitude. */
  lemma MeterQuiet(audio: seq<real>)
    requires |audio| > 0
    ensures var t := Tail(audio, SAMPLE_RATE / 10);
      BandOf(MeterLevel(audio)) == Quiet <==> forall k :: 0 <= k < |t| ==> Abs(t[k]) < 0.05
  {
    var t := Tail(audio, SAMPLE_RATE / 10);
    var i := PeakAttained(t);
    forall k | 0 <= k < |t|
      ensures Abs(t[k]) <= Peak(t)
    {
      PeakBound(t, k);
    }
  }
}
