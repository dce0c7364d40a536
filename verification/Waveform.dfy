/** Cutting a track into waveform segments: the detail tier over its samples, and
    the preview tier over the detail tier. Levels are exact reals. */
module Waveform {
  const DETAIL_SEGMENTS_PER_SECOND: nat := 150
  const PREVIEW_SEGMENT_COUNT: nat := 400
  const EPSILON: real := 1.0 / 8_388_608.0

  datatype Segment = Segment(amplitude: nat, low: nat, mid: nat, high: nat)

  // ---- The boundaries of the detail tier ----

  function DetailCount(n: nat, sampleRate: nat): nat
    requires sampleRate > 0
  {
    (n * DETAIL_SEGMENTS_PER_SECOND + sampleRate - 1) / sampleRate
  }

  function DetailStart(i: nat, sampleRate: nat): nat {
    i * sampleRate / DETAIL_SEGMENTS_PER_SECOND
  }

  function DetailEnd(i: nat, sampleRate: nat, n: nat): nat {
    var end := (i + 1) * sampleRate / DETAIL_SEGMENTS_PER_SECOND;
    if end > n then n else end
  }

  lemma DivisionBounds(a: nat, b: nat)
    requires b > 0
    ensures b * (a / b) <= a < b * (a / b) + b
  {
  }

  lemma CountBounds(n: nat, sampleRate: nat)
    requires n > 0 && sampleRate > 0
    ensures var count := DetailCount(n, sampleRate);
      count > 0 && (count - 1) * sampleRate < n * DETAIL_SEGMENTS_PER_SECOND <= count * sampleRate
  {
  }

  /** Segment after segment, the samples are covered exactly: the first begins at
      the first sample, each begins where the one before it ends, the last ends at
      the last sample, and none reaches outside. */
  lemma DetailPartitions(n: nat, sampleRate: nat, i: nat)
    requires n > 0 && sampleRate > 0 && i < DetailCount(n, sampleRate)
    ensures DetailStart(0, sampleRate) == 0
    ensures DetailStart(i, sampleRate) <= DetailEnd(i, sampleRate, n) <= n
    ensures i + 1 < DetailCount(n, sampleRate) ==> DetailEnd(i, sampleRate, n) == DetailStart(i + 1, sampleRate)
    ensures i + 1 == DetailCount(n, sampleRate) ==> DetailEnd(i, sampleRate, n) == n
  {
    CountBounds(n, sampleRate);
    var count := DetailCount(n, sampleRate);
    MultiplyMonotone(i, count - 1, sampleRate);
    assert (i + 1) * sampleRate == i * sampleRate + sampleRate;
    if i + 1 < count {
      MultiplyMonotone(i + 1, count - 1, sampleRate);
    }
  }

  lemma MultiplyMonotone(a: nat, b: nat, c: nat)
    requires a <= b
    ensures a * c <= b * c
  {
  }

  // ---- Levels ----

  function Abs(x: real): real { if x < 0.0 then -x else x }

  /** The level of a chunk: no sample is louder, and some sample is that loud. */
  ghost predicate IsPeak(peak: real, chunk: seq<real>) {
    && peak >= 0.0
    && (forall k :: 0 <= k < |chunk| ==> Abs(chunk[k]) <= peak)
    && (peak == 0.0 || exists k :: 0 <= k < |chunk| && Abs(chunk[k]) == peak)
  }

  method PeakOf(chunk: seq<real>) returns (peak: real)
    ensures IsPeak(peak, chunk)
  {
    peak := 0.0;
    for k := 0 to |chunk|
      invariant peak >= 0.0
      invariant forall j :: 0 <= j < k ==> Abs(chunk[j]) <= peak
      invariant peak == 0.0 || exists j :: 0 <= j < k && Abs(chunk[j]) == peak
    {
      if Abs(chunk[k]) > peak { peak := Abs(chunk[k]); }
    }
  }

  /** Each segment's level, over exactly its share of the samples. */
  method DetailPeaks(samples: seq<real>, sampleRate: nat) returns (peaks: seq<real>)
    requires samples != [] && sampleRate > 0
    ensures PeaksOf(peaks, samples, sampleRate)
  {
    peaks := [];
    for i := 0 to DetailCount(|samples|, sampleRate)
      invariant |peaks| == i
      invariant forall k :: 0 <= k < i ==> SegmentPeak(peaks[k], samples, sampleRate, k)
    {
      DetailPartitions(|samples|, sampleRate, i);
      var peak := PeakOf(samples[DetailStart(i, sampleRate)..DetailEnd(i, sampleRate, |samples|)]);
      peaks := peaks + [peak];
    }
  }

  ghost predicate SegmentPeak(peak: real, samples: seq<real>, sampleRate: nat, i: nat)
    requires samples != [] && sampleRate > 0
  {
    && DetailStart(i, sampleRate) <= DetailEnd(i, sampleRate, |samples|)
    && IsPeak(peak, samples[DetailStart(i, sampleRate)..DetailEnd(i, sampleRate, |samples|)])
  }

  ghost predicate PeaksOf(peaks: seq<real>, samples: seq<real>, sampleRate: nat)
    requires samples != [] && sampleRate > 0
  {
    && |peaks| == DetailCount(|samples|, sampleRate)
    && forall i :: 0 <= i < |peaks| ==> SegmentPeak(peaks[i], samples, sampleRate, i)
  }

  /** Every sample lies in a segment. */
  lemma SegmentOfSample(n: nat, sampleRate: nat, k: nat, bound: nat) returns (i: nat)
    requires k < n && sampleRate > 0 && bound < DetailCount(n, sampleRate)
    requires k < DetailEnd(bound, sampleRate, n)
    ensures i <= bound && DetailStart(i, sampleRate) <= k < DetailEnd(i, sampleRate, n)
    decreases bound
  {
    if DetailStart(bound, sampleRate) <= k {
      i := bound;
    } else {
      DetailPartitions(n, sampleRate, bound);
      DetailPartitions(n, sampleRate, bound - 1);
      i := SegmentOfSample(n, sampleRate, k, bound - 1);
    }
  }

  lemma SampleIsCovered(peaks: seq<real>, samples: seq<real>, sampleRate: nat, k: nat) returns (i: nat)
    requires samples != [] && sampleRate > 0 && PeaksOf(peaks, samples, sampleRate) && k < |samples|
    ensures i < |peaks| && Abs(samples[k]) <= peaks[i]
  {
    var n, count := |samples|, DetailCount(|samples|, sampleRate);
    CountBounds(n, sampleRate);
    DetailPartitions(n, sampleRate, count - 1);
    i := SegmentOfSample(n, sampleRate, k, count - 1);
    hide DetailStart, DetailEnd, DetailCount;
    assert SegmentPeak(peaks[i], samples, sampleRate, i);
    var start, end := DetailStart(i, sampleRate), DetailEnd(i, sampleRate, n);
    assert samples[start..end][k - start] == samples[k];
  }

  lemma PeakIsASample(peaks: seq<real>, samples: seq<real>, sampleRate: nat, i: nat) returns (k: nat)
    requires samples != [] && sampleRate > 0 && PeaksOf(peaks, samples, sampleRate) && i < |peaks| && peaks[i] != 0.0
    ensures k < |samples| && Abs(samples[k]) == peaks[i]
  {
    DetailPartitions(|samples|, sampleRate, i);
    hide DetailStart, DetailEnd, DetailCount;
    assert SegmentPeak(peaks[i], samples, sampleRate, i);
    var start, end := DetailStart(i, sampleRate), DetailEnd(i, sampleRate, |samples|);
    var j :| 0 <= j < |samples[start..end]| && Abs(samples[start..end][j]) == peaks[i];
    k := start + j;
    assert samples[k] == samples[start..end][j];
  }

  /** The loudest segment is as loud as the loudest sample of the track. */
  lemma LoudestIsKept(peaks: seq<real>, samples: seq<real>, sampleRate: nat, peak: real)
    requires samples != [] && sampleRate > 0 && PeaksOf(peaks, samples, sampleRate)
    ensures IsPeak(peak, peaks) <==> IsPeak(peak, samples)
  {
    hide PeaksOf, DetailCount;
    assert forall i :: 0 <= i < |peaks| ==> peaks[i] >= 0.0 by {
      NoPeakIsNegative(peaks, samples, sampleRate);
    }
    if IsPeak(peak, peaks) {
      forall k | 0 <= k < |samples| ensures Abs(samples[k]) <= peak {
        var i := SampleIsCovered(peaks, samples, sampleRate, k);
      }
      if peak != 0.0 {
        var i :| 0 <= i < |peaks| && Abs(peaks[i]) == peak;
        var k := PeakIsASample(peaks, samples, sampleRate, i);
      }
    }
    if IsPeak(peak, samples) {
      forall i | 0 <= i < |peaks| ensures peaks[i] <= peak {
        if peaks[i] != 0.0 {
          var k := PeakIsASample(peaks, samples, sampleRate, i);
        }
      }
      if peak != 0.0 {
        var k :| 0 <= k < |samples| && Abs(samples[k]) == peak;
        var i := SampleIsCovered(peaks, samples, sampleRate, k);
        assert peaks[i] == peak;
      }
    }
  }

  lemma NoPeakIsNegative(peaks: seq<real>, samples: seq<real>, sampleRate: nat)
    requires samples != [] && sampleRate > 0 && PeaksOf(peaks, samples, sampleRate)
    ensures forall i :: 0 <= i < |peaks| ==> peaks[i] >= 0.0
  {
  }

  // ---- Amplitudes ----

  /** The nearest whole number of 255ths, halves up. */
  function Quantize(level: real): nat
    requires level >= 0.0
  {
    var clamped := if level > 1.0 then 1.0 else level;
    (clamped * 255.0 + 0.5).Floor
  }

  /** The level, cut off at one, in whole 255ths: no other whole number is nearer, and
      the upper of two that are as near is taken. */
  predicate IsNearest(amplitude: nat, level: real) {
    amplitude as real - 0.5 <= (if level > 1.0 then 1.0 else level) * 255.0 < amplitude as real + 0.5
  }

  lemma QuantizeIsNearest(level: real)
    requires level >= 0.0
    ensures IsNearest(Quantize(level), level)
  {
  }

  lemma QuantizeOrder(a: real, b: real, top: real)
    requires 0.0 <= a <= b && top > 0.0
    ensures Quantize(a / top) <= Quantize(b / top) <= 255
  {
    assert a / top <= b / top;
  }

  lemma QuantizeEnds(top: real)
    requires top > 0.0
    ensures Quantize(0.0 / top) == 0 && Quantize(top / top) == 255
  {
  }

  lemma PeakIsUnique(a: real, b: real, chunk: seq<real>)
    requires IsPeak(a, chunk) && IsPeak(b, chunk)
    ensures a == b
  {
  }

  /** Levels relative to the loudest segment, in 255ths. */
  method Amplitudes(peaks: seq<real>) returns (amplitudes: seq<nat>, ghost top: real)
    requires forall i :: 0 <= i < |peaks| ==> peaks[i] >= 0.0
    ensures |amplitudes| == |peaks| && top > 0.0
    ensures forall i :: 0 <= i < |peaks| ==> amplitudes[i] == Quantize(peaks[i] / top)
    ensures forall level :: IsPeak(level, peaks) ==> top == if level < EPSILON then EPSILON else level
  {
    var trackPeak := PeakOf(peaks);
    forall level | IsPeak(level, peaks) ensures level == trackPeak {
      PeakIsUnique(level, trackPeak, peaks);
    }
    if trackPeak < EPSILON { trackPeak := EPSILON; }
    top := trackPeak;
    amplitudes := [];
    hide IsPeak;
    for i := 0 to |peaks|
      invariant |amplitudes| == i
      invariant forall k :: 0 <= k < i ==> amplitudes[k] == Quantize(peaks[k] / top)
    {
      amplitudes := amplitudes + [Quantize(peaks[i] / trackPeak)];
    }
  }

  /** Amplitudes fit a byte, keep the order of levels, put silence at zero, and the
      loudest segment at the top unless the track is all but silent. */
  lemma AmplitudesScale(peaks: seq<real>, amplitudes: seq<nat>, top: real, i: nat, k: nat)
    requires forall j :: 0 <= j < |peaks| ==> peaks[j] >= 0.0
    requires |amplitudes| == |peaks| && top > 0.0 && i < |peaks| && k < |peaks|
    requires forall j :: 0 <= j < |peaks| ==> amplitudes[j] == Quantize(peaks[j] / top)
    ensures amplitudes[i] <= 255
    ensures peaks[i] <= peaks[k] ==> amplitudes[i] <= amplitudes[k]
    ensures peaks[i] == 0.0 ==> amplitudes[i] == 0
    ensures peaks[i] == top ==> amplitudes[i] == 255
  {
    QuantizeEnds(top);
    QuantizeOrder(peaks[i], peaks[i], top);
    if peaks[i] <= peaks[k] { QuantizeOrder(peaks[i], peaks[k], top); }
  }

  /** What a segment of the detail tier shows: the loudest sample of its share of the
      track, relative to the loudest of the track, or to a floor if that is all but silent. */
  ghost predicate Shows(amplitude: nat, samples: seq<real>, sampleRate: nat, i: nat) {
    exists peak, loudest :: IsPeak(peak, Share(samples, sampleRate, i)) && IsPeak(loudest, samples)
      && IsNearest(amplitude, peak / (if loudest < 1.0 / 8_388_608.0 then 1.0 / 8_388_608.0 else loudest))
  }

  /** The samples of one 150th of a second, as far as there are any. */
  function Share(samples: seq<real>, sampleRate: nat, i: nat): seq<real> {
    var start, end := i * sampleRate / 150, (i + 1) * sampleRate / 150;
    if start >= |samples| || end < start then []
    else if end > |samples| then samples[start..]
    else samples[start..end]
  }

  lemma ShareIsSegment(samples: seq<real>, sampleRate: nat, i: nat)
    requires samples != [] && sampleRate > 0 && i < DetailCount(|samples|, sampleRate)
    ensures DetailStart(i, sampleRate) <= DetailEnd(i, sampleRate, |samples|) <= |samples|
    ensures samples[DetailStart(i, sampleRate)..DetailEnd(i, sampleRate, |samples|)] == Share(samples, sampleRate, i)
  {
    DetailPartitions(|samples|, sampleRate, i);
  }

  /** The amplitudes of the detail tier, each for its own share. Unless the track is all
      but silent, its loudest sample puts some segment at the top. */
  method DetailAmplitudes(samples: seq<real>, sampleRate: nat) returns (amplitudes: seq<nat>)
    ensures samples == [] || sampleRate == 0 ==> amplitudes == []
    ensures samples != [] && sampleRate > 0 ==> |amplitudes| == DetailCount(|samples|, sampleRate)
    ensures forall i :: 0 <= i < |amplitudes| ==> amplitudes[i] <= 255
    ensures forall i :: 0 <= i < |amplitudes| ==> Shows(amplitudes[i], samples, sampleRate, i)
    ensures samples != [] && sampleRate > 0 ==>
      forall level :: IsPeak(level, samples) && level >= EPSILON ==> 255 in amplitudes
  {
    if samples == [] || sampleRate == 0 { return []; }
    var peaks := DetailPeaks(samples, sampleRate);
    NoPeakIsNegative(peaks, samples, sampleRate);
    ghost var top: real;
    amplitudes, top := Amplitudes(peaks);
    forall i | 0 <= i < |amplitudes| ensures amplitudes[i] <= 255 {
      AmplitudesScale(peaks, amplitudes, top, i, i);
    }
    var loudest := PeakOf(samples);
    forall i | 0 <= i < |amplitudes| ensures Shows(amplitudes[i], samples, sampleRate, i) {
      SegmentShows(peaks, samples, sampleRate, i, loudest, top);
    }
    forall level | IsPeak(level, samples) && level >= EPSILON ensures 255 in amplitudes {
      LoudestIsKept(peaks, samples, sampleRate, level);
      var i :| 0 <= i < |peaks| && Abs(peaks[i]) == level;
      AmplitudesScale(peaks, amplitudes, top, i, i);
      assert amplitudes[i] == 255;
    }
  }

  lemma NonNegative(a: real, b: real)
    requires a >= 0.0 && b > 0.0
    ensures a / b >= 0.0
  {
  }

  lemma SegmentShows(peaks: seq<real>, samples: seq<real>, sampleRate: nat, i: nat, loudest: real, top: real)
    requires samples != [] && sampleRate > 0 && PeaksOf(peaks, samples, sampleRate) && i < |peaks|
    requires IsPeak(loudest, samples)
    requires forall level :: IsPeak(level, peaks) ==> top == if level < EPSILON then EPSILON else level
    ensures peaks[i] >= 0.0 && top > 0.0 && Shows(Quantize(peaks[i] / top), samples, sampleRate, i)
  {
    LoudestIsKept(peaks, samples, sampleRate, loudest);
    assert SegmentPeak(peaks[i], samples, sampleRate, i) && peaks[i] >= 0.0;
    ShareIsSegment(samples, sampleRate, i);
    NonNegative(peaks[i], top);
    QuantizeIsNearest(peaks[i] / top);
    hide IsPeak, IsNearest, Quantize, Share, DetailStart, DetailEnd, DetailCount;
  }

  // ---- The preview tier ----

  function BucketStart(i: nat, length: nat): nat {
    i * length / PREVIEW_SEGMENT_COUNT
  }

  function BucketEnd(i: nat, length: nat): nat {
    var end := (i + 1) * length / PREVIEW_SEGMENT_COUNT;
    if end < BucketStart(i, length) + 1 then BucketStart(i, length) + 1 else end
  }

  /** The buckets cover the detail segments exactly and in order, and their sizes
      differ by at most one. */
  lemma BucketsPartition(length: nat, i: nat)
    requires length > PREVIEW_SEGMENT_COUNT && i < PREVIEW_SEGMENT_COUNT
    ensures BucketStart(0, length) == 0 && BucketEnd(PREVIEW_SEGMENT_COUNT - 1, length) == length
    ensures BucketStart(i, length) < BucketEnd(i, length) == BucketStart(i + 1, length) <= length
    ensures var size := BucketEnd(i, length) - BucketStart(i, length);
      size == length / PREVIEW_SEGMENT_COUNT || size == length / PREVIEW_SEGMENT_COUNT + 1
    ensures BucketStart(i, length) == i * length / 400 && BucketEnd(i, length) == (i + 1) * length / 400
  {
    BucketSize(i * length, length);
    assert (i + 1) * length == i * length + length;
    BucketSize((PREVIEW_SEGMENT_COUNT - 1) * length, length);
    MultiplyMonotone(i + 1, PREVIEW_SEGMENT_COUNT, length);
  }

  lemma BucketSize(a: nat, length: nat)
    ensures var size := (a + length) / 400 - a / 400;
      size == length / 400 || size == length / 400 + 1
  {
  }

  function Low(s: Segment): nat { s.low }
  function Mid(s: Segment): nat { s.mid }
  function High(s: Segment): nat { s.high }

  function Total(segments: seq<Segment>, band: Segment -> nat): nat {
    if segments == [] then 0
    else Total(segments[..|segments| - 1], band) + band(segments[|segments| - 1])
  }

  /** The mean, rounded down. */
  function Mean(sum: nat, count: nat): nat
    requires count > 0
  {
    sum / count
  }

  ghost predicate IsLoudest(amplitude: nat, segments: seq<Segment>) {
    && (forall i :: 0 <= i < |segments| ==> segments[i].amplitude <= amplitude)
    && (exists i :: 0 <= i < |segments| && segments[i].amplitude == amplitude)
  }

  lemma OneMore(n: nat, x: nat)
    ensures (n + 1) * x == n * x + x
  {
  }

  lemma TotalOneMore(segments: seq<Segment>, i: nat, band: Segment -> nat)
    requires i < |segments|
    ensures Total(segments[..i + 1], band) == Total(segments[..i], band) + band(segments[i])
  {
    assert segments[..i + 1][..i] == segments[..i];
  }

  /** A total lies between so many of the least and so many of the greatest. */
  lemma {:induction false} TotalBounds(segments: seq<Segment>, band: Segment -> nat, least: nat, greatest: nat)
    requires forall i :: 0 <= i < |segments| ==> least <= band(segments[i]) <= greatest
    ensures |segments| * least <= Total(segments, band) <= |segments| * greatest
  {
    if segments != [] {
      var n := |segments| - 1;
      TotalBounds(segments[..n], band, least, greatest);
      OneMore(n, least);
      OneMore(n, greatest);
    }
  }

  /** The loudest amplitude of a bucket and the totals of its bands. */
  method Accumulate(slice: seq<Segment>) returns (maxAmp: nat, low: nat, mid: nat, high: nat)
    requires slice != []
    ensures IsLoudest(maxAmp, slice)
    ensures low == Total(slice, Low) && mid == Total(slice, Mid) && high == Total(slice, High)
  {
    maxAmp, low, mid, high := 0, 0, 0, 0;
    ghost var loudest := 0;
    for i := 0 to |slice|
      invariant forall k :: 0 <= k < i ==> slice[k].amplitude <= maxAmp
      invariant if i == 0 then maxAmp == 0 else 0 <= loudest < i && slice[loudest].amplitude == maxAmp
      invariant low == Total(slice[..i], Low) && mid == Total(slice[..i], Mid) && high == Total(slice[..i], High)
    {
      TotalOneMore(slice, i, Low);
      TotalOneMore(slice, i, Mid);
      TotalOneMore(slice, i, High);
      hide Total;
      if slice[i].amplitude > maxAmp || i == 0 { loudest := i; }
      if slice[i].amplitude > maxAmp { maxAmp := slice[i].amplitude; }
      low, mid, high := low + slice[i].low, mid + slice[i].mid, high + slice[i].high;
    }
    assert slice[..|slice|] == slice;
  }

  /** So many times the mean make up the total, but for less than one each. */
  predicate IsMean(mean: nat, total: nat, count: nat) {
    count * mean <= total < count * mean + count
  }

  /** One preview segment: the loudest of the bucket, and the mean of each band. */
  method BucketSegments(slice: seq<Segment>) returns (s: Segment)
    ensures slice == [] ==> s == Segment(0, 0, 0, 0)
    ensures slice != [] ==> IsLoudest(s.amplitude, slice)
    ensures slice != [] ==>
      (IsMean(s.low, Total(slice, Low), |slice|) && IsMean(s.mid, Total(slice, Mid), |slice|)
       && IsMean(s.high, Total(slice, High), |slice|))
  {
    hide Total;
    if slice == [] { return Segment(0, 0, 0, 0); }
    var maxAmp, low, mid, high := Accumulate(slice);
    DivisionBounds(low, |slice|);
    DivisionBounds(mid, |slice|);
    DivisionBounds(high, |slice|);
    return Segment(maxAmp, Mean(low, |slice|), Mean(mid, |slice|), Mean(high, |slice|));
  }

  ghost predicate IsPreview(preview: seq<Segment>, detail: seq<Segment>) {
    && |preview| == PREVIEW_SEGMENT_COUNT < |detail|
    && forall i :: 0 <= i < |preview| ==> IsBucket(preview[i], detail, i)
  }

  ghost predicate IsBucket(s: Segment, detail: seq<Segment>, i: nat) {
    var start, end := BucketStart(i, |detail|), BucketEnd(i, |detail|);
    && start < end <= |detail|
    && IsLoudest(s.amplitude, detail[start..end])
    && IsMean(s.low, Total(detail[start..end], Low), end - start)
    && IsMean(s.mid, Total(detail[start..end], Mid), end - start)
    && IsMean(s.high, Total(detail[start..end], High), end - start)
  }

  method BuildPreview(detail: seq<Segment>) returns (preview: seq<Segment>)
    ensures |detail| <= 400 ==> preview == detail
    ensures |detail| > 400 ==> |preview| == 400 && IsPreview(preview, detail)
  {
    if |detail| <= PREVIEW_SEGMENT_COUNT { return detail; }
    preview := [];
    for i: nat := 0 to PREVIEW_SEGMENT_COUNT
      invariant |preview| == i
      invariant forall k :: 0 <= k < i ==> IsBucket(preview[k], detail, k)
    {
      BucketsPartition(|detail|, i);
      var s := BucketSegments(detail[BucketStart(i, |detail|)..BucketEnd(i, |detail|)]);
      preview := preview + [s];
    }
  }

  lemma BucketOfSegment(length: nat, k: nat, bound: nat) returns (i: nat)
    requires length > PREVIEW_SEGMENT_COUNT && bound < PREVIEW_SEGMENT_COUNT && k < BucketEnd(bound, length)
    ensures i <= bound && BucketStart(i, length) <= k < BucketEnd(i, length)
    decreases bound
  {
    if BucketStart(bound, length) <= k {
      i := bound;
    } else {
      BucketsPartition(length, bound);
      BucketsPartition(length, bound - 1);
      i := BucketOfSegment(length, k, bound - 1);
    }
  }

  lemma SegmentIsCovered(preview: seq<Segment>, detail: seq<Segment>, k: nat) returns (i: nat)
    requires IsPreview(preview, detail) && k < |detail|
    ensures i < |preview| && detail[k].amplitude <= preview[i].amplitude
  {
    BucketsPartition(|detail|, PREVIEW_SEGMENT_COUNT - 1);
    i := BucketOfSegment(|detail|, k, PREVIEW_SEGMENT_COUNT - 1);
    hide BucketStart, BucketEnd;
    assert IsBucket(preview[i], detail, i);
    var start, end := BucketStart(i, |detail|), BucketEnd(i, |detail|);
    assert detail[start..end][k - start] == detail[k];
  }

  lemma AmplitudeIsASegments(preview: seq<Segment>, detail: seq<Segment>, i: nat) returns (k: nat)
    requires IsPreview(preview, detail) && i < |preview|
    ensures k < |detail| && detail[k].amplitude == preview[i].amplitude
  {
    hide BucketStart, BucketEnd;
    assert IsBucket(preview[i], detail, i);
    var start, end := BucketStart(i, |detail|), BucketEnd(i, |detail|);
    var j :| 0 <= j < |detail[start..end]| && detail[start..end][j].amplitude == preview[i].amplitude;
    k := start + j;
    assert detail[k] == detail[start..end][j];
  }

  /** The preview is as loud as the detail it was made from. */
  lemma PreviewKeepsLoudest(preview: seq<Segment>, detail: seq<Segment>, amplitude: nat)
    requires IsPreview(preview, detail)
    ensures IsLoudest(amplitude, preview) <==> IsLoudest(amplitude, detail)
  {
    hide IsPreview;
    if IsLoudest(amplitude, preview) {
      var i :| 0 <= i < |preview| && preview[i].amplitude == amplitude;
      var k := AmplitudeIsASegments(preview, detail, i);
      forall j | 0 <= j < |detail| ensures detail[j].amplitude <= amplitude {
        var m := SegmentIsCovered(preview, detail, j);
      }
    }
    if IsLoudest(amplitude, detail) {
      forall j | 0 <= j < |preview| ensures preview[j].amplitude <= amplitude {
        var m := AmplitudeIsASegments(preview, detail, j);
      }
      var k :| 0 <= k < |detail| && detail[k].amplitude == amplitude;
      var i := SegmentIsCovered(preview, detail, k);
      assert preview[i].amplitude == amplitude;
    }
  }

  /** Every band of a preview segment lies between the least and the greatest of its bucket. */
  lemma PreviewBandsAreMeans(
      preview: seq<Segment>, detail: seq<Segment>, i: nat, band: Segment -> nat, least: nat, greatest: nat)
    requires IsPreview(preview, detail) && i < |preview| && band in {Low, Mid, High}
    requires forall k :: BucketStart(i, |detail|) <= k < BucketEnd(i, |detail|) && k < |detail| ==>
      least <= band(detail[k]) <= greatest
    ensures least <= band(preview[i]) <= greatest
  {
    hide BucketStart, BucketEnd, Total;
    var start, end := BucketStart(i, |detail|), BucketEnd(i, |detail|);
    assert IsBucket(preview[i], detail, i);
    TotalBounds(detail[start..end], band, least, greatest);
    MeanBounds(band(preview[i]), Total(detail[start..end], band), end - start, least, greatest);
  }

  lemma CancelLess(count: nat, a: nat, b: nat)
    requires count * a < count * b
    ensures a < b
  {
  }

  lemma MeanBounds(mean: nat, total: nat, count: nat, least: nat, greatest: nat)
    requires count > 0 && IsMean(mean, total, count) && count * least <= total <= count * greatest
    ensures least <= mean <= greatest
  {
    OneMore(mean, count);
    OneMore(greatest, count);
    CancelLess(count, least, mean + 1);
    CancelLess(count, mean, greatest + 1);
  }
}
