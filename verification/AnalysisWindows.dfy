/** The windows an analysis listens to, and the analyzer that cuts them out of
    whatever it has already decoded. Times are exact reals; the reader cannot
    seek, so a window is found by skipping. */
module AnalysisWindows {
  import opened Wrappers
  import opened Decode

  const BPM_KEY_WINDOW_SECS: nat := 120
  const ACOUSTICS_LONG_WINDOW_SECS: nat := 480
  const LONG_TRACK_THRESHOLD_SECS: nat := 900
  const MIN_SAMPLES_FOR_ANALYSIS: nat := 44_100

  /** What a decode of the file meets: its mono samples up to the end, or up to an error. */
  datatype File = File(sampleRate: nat, mono: seq<real>, broken: bool)

  // ---- Where windows lie ----

  function WindowStart(hint: Option<real>, len: nat): real {
    match hint
    case Some(duration) =>
      var start := (duration - len as real) / 2.0;
      if start > 0.0 then start else 0.0
    case None => 0.0
  }

  predicate IsLongTrack(hint: Option<real>) {
    hint.Some? && hint.value > LONG_TRACK_THRESHOLD_SECS as real
  }

  /** Samples to drop before a window. */
  function SkipSamples(start: real, sampleRate: nat): nat {
    if start <= 0.0 then 0 else FloorOf(start, sampleRate)
  }

  function FloorOf(start: real, sampleRate: nat): nat
    requires start >= 0.0
  {
    assert start * sampleRate as real >= 0.0;
    (start * sampleRate as real).Floor
  }

  function DecodeFull(file: File): Option<seq<real>> {
    Collected(file.mono, file.broken, 0, None)
  }

  function DecodeWindow(file: File, start: real, len: nat): Option<seq<real>> {
    Collected(file.mono, file.broken, SkipSamples(start, file.sampleRate), Some(len * file.sampleRate))
  }

  function CenterSlice(region: seq<real>, want: nat): (slice: seq<real>)
    ensures |slice| <= want || slice == region
  {
    if |region| <= want then region
    else
      var start := (|region| - want) / 2;
      region[start..start + want]
  }

  function LongEnough(samples: Option<seq<real>>): Option<seq<real>> {
    if samples.Some? && |samples.value| >= MIN_SAMPLES_FOR_ANALYSIS then samples else None
  }

  // ---- The same window, found in three ways ----

  function BpmKeyAlone(file: File, hint: Option<real>): Option<seq<real>> {
    LongEnough(DecodeWindow(file, WindowStart(hint, BPM_KEY_WINDOW_SECS), BPM_KEY_WINDOW_SECS))
  }

  function AcousticsRegion(file: File, hint: Option<real>): Option<seq<real>> {
    LongEnough(DecodeWindow(file, WindowStart(hint, ACOUSTICS_LONG_WINDOW_SECS), ACOUSTICS_LONG_WINDOW_SECS))
  }

  function BpmKeyFrom(region: seq<real>, sampleRate: nat): Option<seq<real>> {
    LongEnough(Some(CenterSlice(region, BPM_KEY_WINDOW_SECS * sampleRate)))
  }

  function BpmKeySkip(file: File, hint: Option<real>): nat {
    SkipSamples(WindowStart(hint, BPM_KEY_WINDOW_SECS), file.sampleRate)
  }

  function AcousticsSkip(file: File, hint: Option<real>): nat {
    SkipSamples(WindowStart(hint, ACOUSTICS_LONG_WINDOW_SECS), file.sampleRate)
  }

  /** Where cutting the window out of the whole track finds it. */
  function Center(n: nat, want: nat): nat {
    if n <= want then 0 else (n - want) / 2
  }

  /** The whole-track decode gives the window's samples: it failed, or the hint
      places the window where the middle of the decode is. */
  ghost predicate FullAgrees(file: File, hint: Option<real>) {
    file.broken || file.mono == []
    || BpmKeySkip(file, hint) == Center(|file.mono|, BPM_KEY_WINDOW_SECS * file.sampleRate)
  }

  /** The acoustics window gives them: it was not decoded whole, or not at all. */
  ghost predicate AcousticsAgrees(file: File, hint: Option<real>) {
    IsLongTrack(hint) && AcousticsRegion(file, hint).Some? ==>
      |file.mono| >= AcousticsSkip(file, hint) + ACOUSTICS_LONG_WINDOW_SECS * file.sampleRate
  }

  ghost predicate DistinctSamples(mono: seq<real>) {
    forall i, k :: 0 <= i < k < |mono| ==> mono[i] != mono[k]
  }

  /** Both windows are centred, so on a long track one lies in the other at a fixed place. */
  lemma WindowsNest(file: File, hint: Option<real>)
    requires IsLongTrack(hint)
    ensures BpmKeySkip(file, hint) == AcousticsSkip(file, hint) + 180 * file.sampleRate
  {
  }

  lemma SliceOfSlice(mono: seq<real>, a: nat, sr: nat)
    requires sr > 0 && a + 480 * sr <= |mono|
    ensures CenterSlice(mono[a..a + 480 * sr], 120 * sr) == mono[a + 180 * sr..a + 300 * sr]
  {
    var region := mono[a..a + 480 * sr];
    assert (|region| - 120 * sr) / 2 == 180 * sr;
    assert CenterSlice(region, 120 * sr) == region[180 * sr..180 * sr + 120 * sr];
    SliceInSlice(mono, a, a + 480 * sr, 180 * sr, 300 * sr);
  }

  lemma SliceInSlice(mono: seq<real>, a: nat, b: nat, from: nat, upto: nat)
    requires a <= b <= |mono| && from <= upto <= b - a
    ensures mono[a..b][from..upto] == mono[a + from..a + upto]
  {
    var outer := mono[a..b];
    assert |outer[from..upto]| == upto - from == |mono[a + from..a + upto]|;
    forall k | 0 <= k < upto - from ensures outer[from..upto][k] == mono[a + from..a + upto][k] {
      assert outer[from + k] == mono[a + from + k];
    }
  }

  lemma AcousticsGivesWindow(file: File, hint: Option<real>)
    requires IsLongTrack(hint) && AcousticsAgrees(file, hint) && file.sampleRate > 0
    requires AcousticsRegion(file, hint).Some?
    ensures BpmKeyFrom(AcousticsRegion(file, hint).value, file.sampleRate) == BpmKeyAlone(file, hint)
  {
    WindowsNest(file, hint);
    hide SkipSamples, WindowStart;
    var sr, a, h := file.sampleRate, AcousticsSkip(file, hint), BpmKeySkip(file, hint);
    var region := AcousticsRegion(file, hint).value;
    assert region == file.mono[a..a + 480 * sr];
    SliceOfSlice(file.mono, a, sr);
  }

  /** Unless samples repeat, only a whole acoustics window gives them. A shorter one is
      cut in its own middle, before the place where the window decoded alone starts. */
  lemma AcousticsGivesWindowIff(file: File, hint: Option<real>)
    requires IsLongTrack(hint) && !file.broken && DistinctSamples(file.mono) && file.sampleRate >= 368
    requires AcousticsRegion(file, hint).Some?
    ensures BpmKeyFrom(AcousticsRegion(file, hint).value, file.sampleRate) == BpmKeyAlone(file, hint)
      <==> AcousticsAgrees(file, hint)
  {
    WindowsNest(file, hint);
    hide SkipSamples, WindowStart;
    var sr, a, n := file.sampleRate, AcousticsSkip(file, hint), |file.mono|;
    if n >= a + 480 * sr {
      AcousticsGivesWindow(file, hint);
    } else {
      var region := AcousticsRegion(file, hint).value;
      assert region == file.mono[a..];
      var cut := CenterSlice(region, 120 * sr);
      assert cut[0] == file.mono[a + Center(|region|, 120 * sr)];
      assert Center(|region|, 120 * sr) < 180 * sr;
      var alone := BpmKeyAlone(file, hint);
      if alone.Some? {
        assert alone.value[0] == file.mono[a + 180 * sr];
      }
    }
  }

  lemma FullGivesWindow(file: File, hint: Option<real>)
    requires FullAgrees(file, hint) && DecodeFull(file).Some? && file.sampleRate > 0
    ensures BpmKeyFrom(DecodeFull(file).value, file.sampleRate) == BpmKeyAlone(file, hint)
  {
    var sr, h, n := file.sampleRate, BpmKeySkip(file, hint), |file.mono|;
    hide SkipSamples, WindowStart;
    assert DecodeFull(file).value == file.mono;
    if n > 120 * sr {
      assert CenterSlice(file.mono, 120 * sr) == file.mono[h..h + 120 * sr];
    } else if n > 0 {
      assert file.mono[0..] == file.mono == file.mono[..n];
    }
  }

  /** Unless samples repeat, the window decoded alone is the middle of the whole
      decode exactly when the hint places it there. */
  lemma FullAgreesIff(file: File, hint: Option<real>)
    requires !file.broken && DistinctSamples(file.mono) && file.sampleRate > 0
    ensures DecodeWindow(file, WindowStart(hint, BPM_KEY_WINDOW_SECS), BPM_KEY_WINDOW_SECS)
        == Some(CenterSlice(file.mono, BPM_KEY_WINDOW_SECS * file.sampleRate))
      <==> FullAgrees(file, hint)
  {
    var w, h, n := 120 * file.sampleRate, BpmKeySkip(file, hint), |file.mono|;
    var c := Center(n, w);
    var alone := DecodeWindow(file, WindowStart(hint, BPM_KEY_WINDOW_SECS), BPM_KEY_WINDOW_SECS).value;
    var cut := CenterSlice(file.mono, w);
    if n > 0 {
      assert cut[0] == file.mono[c];
      assert h < n ==> alone[0] == file.mono[h];
      if h == c {
        assert alone == cut;
      }
    }
  }

  /** What is too short to analyze is not heard at all, wherever it is cut from. */
  lemma FullGivesWindowIff(file: File, hint: Option<real>)
    requires !file.broken && DistinctSamples(file.mono) && file.sampleRate >= 368
    ensures BpmKeyFrom(file.mono, file.sampleRate) == BpmKeyAlone(file, hint)
      <==> FullAgrees(file, hint) || |file.mono| < MIN_SAMPLES_FOR_ANALYSIS
  {
    FullAgreesIff(file, hint);
    hide SkipSamples, WindowStart, DistinctSamples;
  }

  /** Without a hint the window starts at the beginning, so the two differ as soon
      as the track is two samples longer than the window. */
  lemma NoHintAgreesIff(file: File)
    requires !file.broken
    ensures FullAgrees(file, None) <==> |file.mono| <= BPM_KEY_WINDOW_SECS * file.sampleRate + 1
  {
  }

  /** With a hint, the two agree exactly when it measures the track to within two
      samples, counted from the last whole pair the track has beyond the window. A
      hint cut off just short of the true length may miss this. */
  lemma HintAgreesIff(file: File, duration: real)
    requires !file.broken && file.sampleRate > 0
    requires |file.mono| > BPM_KEY_WINDOW_SECS * file.sampleRate
    ensures var want := BPM_KEY_WINDOW_SECS * file.sampleRate;
      var pairs := Center(|file.mono|, want);
      var beyond := duration * file.sampleRate as real - want as real;
      FullAgrees(file, Some(duration)) <==>
        beyond < (2 * pairs + 2) as real && (pairs == 0 || (2 * pairs) as real <= beyond)
  {
  }

  /** A hint as exact as the sample rate allows, and not short of the track, is
      enough for either region. */
  lemma ExactHintAgrees(file: File, hint: Option<real>)
    requires file.sampleRate > 0 && hint.Some?
    requires |file.mono| as real <= hint.value * file.sampleRate as real < |file.mono| as real + 1.0
    ensures FullAgrees(file, hint) && AcousticsAgrees(file, hint)
  {
    HintPlacesWindow(file, hint, BPM_KEY_WINDOW_SECS);
    HintPlacesWindow(file, hint, ACOUSTICS_LONG_WINDOW_SECS);
    if IsLongTrack(hint) {
      var r := file.sampleRate as real;
      assert hint.value * r > 900.0 * r;
    }
  }

  /** Such a hint places any window in the middle of the track. */
  lemma HintPlacesWindow(file: File, hint: Option<real>, len: nat)
    requires file.sampleRate > 0 && hint.Some?
    requires |file.mono| as real <= hint.value * file.sampleRate as real < |file.mono| as real + 1.0
    ensures SkipSamples(WindowStart(hint, len), file.sampleRate) == Center(|file.mono|, len * file.sampleRate)
  {
  }

  // ---- What is heard, in terms of the file alone ----

  /** So many samples from a position on, as far as there are any. */
  function SamplesFrom(mono: seq<real>, from: nat, count: nat): seq<real> {
    if from >= |mono| then [] else if from + count >= |mono| then mono[from..] else mono[from..from + count]
  }

  /** The samples of so many seconds from a start on. */
  function Heard(file: File, start: real, secs: nat): seq<real>
    requires start >= 0.0
  {
    SamplesFrom(file.mono, Position(start, file.sampleRate), secs * file.sampleRate)
  }

  /** The last sample not after a time. */
  function Position(time: real, sampleRate: nat): (position: nat)
    requires time >= 0.0
  {
    assert time * sampleRate as real >= 0.0;
    (time * sampleRate as real).Floor
  }

  lemma CollectedIsHeard(file: File, from: nat, count: nat)
    requires count > 0
    ensures var heard := SamplesFrom(file.mono, from, count);
      LongEnough(Collected(file.mono, file.broken, from, Some(count))) ==
        if (!file.broken || |heard| == count) && |heard| >= 44_100 then Some(heard) else None
  {
    if from + count == |file.mono| {
      assert file.mono[from..] == file.mono[from..from + count];
    }
  }

  /** They were heard unless the decode broke off before they were complete, or they
      are too few to be analyzed. */
  ghost predicate IsWindow(audio: Option<seq<real>>, file: File, start: real, secs: nat)
    requires start >= 0.0
  {
    var heard := Heard(file, start, secs);
    audio == if (!file.broken || |heard| == secs * file.sampleRate) && |heard| >= 44_100 then Some(heard) else None
  }

  /** A window of so many seconds lies in the middle of what the hint promises. */
  function MiddleStart(hint: Option<real>, secs: real): (start: real)
    ensures start >= 0.0
  {
    if hint.Some? && hint.value > secs then (hint.value - secs) / 2.0 else 0.0
  }

  lemma WindowIsHeard(file: File, hint: Option<real>, secs: nat)
    requires file.sampleRate > 0 && secs > 0
    ensures var audio := LongEnough(DecodeWindow(file, WindowStart(hint, secs), secs));
      IsWindow(audio, file, MiddleStart(hint, secs as real), secs)
  {
    assert WindowStart(hint, secs) == MiddleStart(hint, secs as real);
    hide SkipSamples, WindowStart, MiddleStart, SamplesFrom, Collected, LongEnough, Position;
    var start := MiddleStart(hint, secs as real);
    StartIsSkip(file, start);
    var from := SkipSamples(start, file.sampleRate);
    var count := secs * file.sampleRate;
    assert count > 0;
    CollectedIsHeard(file, from, count);
    assert DecodeWindow(file, start, secs) == Collected(file.mono, file.broken, from, Some(count));
    assert Heard(file, start, secs) == SamplesFrom(file.mono, from, count);
  }

  lemma StartIsSkip(file: File, start: real)
    requires start >= 0.0
    ensures SkipSamples(start, file.sampleRate) == Position(start, file.sampleRate)
  {
    if start == 0.0 {
      assert start * file.sampleRate as real == 0.0;
    }
  }

  /** The middle of a region: as many samples before it as after it, or one more after. */
  ghost predicate IsMiddle(audio: seq<real>, region: seq<real>, want: nat) {
    if |region| <= want then audio == region
    else exists before :: IsMiddleAt(audio, region, want, before)
  }

  ghost predicate IsMiddleAt(audio: seq<real>, region: seq<real>, want: nat, before: nat) {
    && before + want <= |region| && audio == region[before..before + want]
    && before <= |region| - want - before <= before + 1
  }

  lemma SliceIsMiddle(region: seq<real>, want: nat)
    ensures IsMiddle(CenterSlice(region, want), region, want)
  {
    if |region| > want {
      assert IsMiddleAt(CenterSlice(region, want), region, want, (|region| - want) / 2);
    }
  }

  /** The middle 120 seconds of a region, if that is enough. */
  ghost predicate IsCutFrom(audio: Option<seq<real>>, region: seq<real>, sampleRate: nat) {
    exists cut :: IsMiddle(cut, region, 120 * sampleRate) && audio == if |cut| >= 44_100 then Some(cut) else None
  }

  // ---- The analyzer ----

  datatype Call = Waveform | Acoustics | BpmOrKey

  class Analyzer {
    const file: File
    const hint: Option<real>
    // Each cell is filled once, with what its decode gave.
    var fullAudio: Option<Option<seq<real>>>
    var acousticsWindow: Option<Option<seq<real>>>
    var bpmKeyAudio: Option<Option<seq<real>>>

    ghost predicate Agrees()
    {
      FullAgrees(file, hint) && AcousticsAgrees(file, hint)
    }

    ghost predicate Valid()
      reads this
    {
      && file.sampleRate > 0
      && (fullAudio.Some? ==> fullAudio.value == DecodeFull(file))
      && (acousticsWindow.Some? ==> IsLongTrack(hint) && acousticsWindow.value == AcousticsRegion(file, hint))
      && (bpmKeyAudio.Some? && Agrees() ==> bpmKeyAudio.value == BpmKeyAlone(file, hint))
    }

    constructor (file: File, hint: Option<real>)
      requires file.sampleRate > 0
      ensures Valid() && this.file == file && this.hint == hint
      ensures fullAudio.None? && acousticsWindow.None? && bpmKeyAudio.None?
    {
      this.file, this.hint := file, hint;
      fullAudio, acousticsWindow, bpmKeyAudio := None, None, None;
    }

    method Full() returns (audio: Option<seq<real>>)
      requires Valid()
      modifies `fullAudio
      ensures Valid() && audio == DecodeFull(file) && fullAudio == Some(audio)
      ensures audio == if file.broken then None else Some(file.mono)
    {
      if fullAudio.None? { fullAudio := Some(DecodeFull(file)); }
      return fullAudio.value;
    }

    method AcousticsAudio() returns (audio: Option<seq<real>>)
      requires Valid()
      modifies `fullAudio, `acousticsWindow
      ensures Valid() && audio == if IsLongTrack(hint) then AcousticsRegion(file, hint) else DecodeFull(file)
      // All of the track, or of a long one the middle eight minutes.
      ensures hint.Some? && hint.value > 900.0 ==> IsWindow(audio, file, MiddleStart(hint, 480.0), 480)
      ensures hint.None? || hint.value <= 900.0 ==> audio == if file.broken then None else Some(file.mono)
      // A long track is never decoded whole for this.
      ensures IsLongTrack(hint) ==> fullAudio == old(fullAudio) && acousticsWindow == Some(audio)
    {
      WindowIsHeard(file, hint, ACOUSTICS_LONG_WINDOW_SECS);
      hide IsWindow, Heard, MiddleStart, WindowStart;
      if IsLongTrack(hint) {
        if acousticsWindow.None? {
          var window := DecodeWindow(file, WindowStart(hint, ACOUSTICS_LONG_WINDOW_SECS), ACOUSTICS_LONG_WINDOW_SECS);
          acousticsWindow := Some(LongEnough(window));
        }
        return acousticsWindow.value;
      }
      audio := Full();
    }

    /** The region that is there to cut a window from: the acoustics window first. */
    function Region(): Option<seq<real>>
      reads this
    {
      if acousticsWindow.Some? && acousticsWindow.value.Some? then acousticsWindow.value
      else if fullAudio.Some? then fullAudio.value
      else None
    }

    /** The window BPM and key listen to, cut from a region that is already there,
        else decoded on its own. The larger decodes are never started for it, and
        where they agree, it is the same whatever was called before. */
    method BpmKeyAudio() returns (audio: Option<seq<real>>)
      requires Valid()
      modifies `bpmKeyAudio
      ensures Valid() && bpmKeyAudio == Some(audio)
      ensures Agrees() ==> audio == BpmKeyAlone(file, hint)
      ensures old(bpmKeyAudio).Some? ==> Some(audio) == old(bpmKeyAudio)
      ensures old(bpmKeyAudio).None? && Region().None? ==> audio == BpmKeyAlone(file, hint)
      ensures old(bpmKeyAudio).None? && Region().Some? ==> audio == BpmKeyFrom(Region().value, file.sampleRate)
      // Two minutes: from the middle of the track, or of the region.
      ensures old(bpmKeyAudio).None? && Region().None? ==> IsWindow(audio, file, MiddleStart(hint, 120.0), 120)
      ensures old(bpmKeyAudio).None? && Region().Some? ==> IsCutFrom(audio, Region().value, file.sampleRate)
    {
      hide IsWindow, IsCutFrom, BpmKeyAlone, BpmKeyFrom, MiddleStart, DecodeFull, AcousticsRegion, IsLongTrack;
      hide FullAgrees, AcousticsAgrees;
      if bpmKeyAudio.None? {
        var region: Option<seq<real>> := None;
        if acousticsWindow.Some? { region := acousticsWindow.value; }
        if region.None? && fullAudio.Some? { region := fullAudio.value; }
        if region.Some? {
          if Agrees() { RegionGivesWindow(region.value); }
          var cut := CutFrom(region.value);
          bpmKeyAudio := Some(cut);
        } else {
          var window := DecodeAlone();
          bpmKeyAudio := Some(window);
        }
      }
      return bpmKeyAudio.value;
    }

    /** The window in the middle of a region. */
    method CutFrom(region: seq<real>) returns (audio: Option<seq<real>>)
      ensures audio == BpmKeyFrom(region, file.sampleRate) && IsCutFrom(audio, region, file.sampleRate)
    {
      var want := BPM_KEY_WINDOW_SECS * file.sampleRate;
      SliceIsMiddle(region, want);
      hide IsMiddle, CenterSlice;
      return LongEnough(Some(CenterSlice(region, want)));
    }

    /** The window decoded on its own. */
    method DecodeAlone() returns (audio: Option<seq<real>>)
      requires file.sampleRate > 0
      ensures audio == BpmKeyAlone(file, hint) && IsWindow(audio, file, MiddleStart(hint, 120.0), 120)
    {
      WindowIsHeard(file, hint, BPM_KEY_WINDOW_SECS);
      hide IsWindow, MiddleStart, WindowStart, DecodeWindow;
      var window := DecodeWindow(file, WindowStart(hint, BPM_KEY_WINDOW_SECS), BPM_KEY_WINDOW_SECS);
      return LongEnough(window);
    }

    lemma RegionGivesWindow(region: seq<real>)
      requires file.sampleRate > 0 && Agrees()
      requires (IsLongTrack(hint) && AcousticsRegion(file, hint) == Some(region)) || DecodeFull(file) == Some(region)
      ensures BpmKeyFrom(region, file.sampleRate) == BpmKeyAlone(file, hint)
    {
      if DecodeFull(file) == Some(region) {
        FullGivesWindow(file, hint);
      } else {
        AcousticsGivesWindow(file, hint);
      }
    }

    /** What a call gives, as far as that does not depend on the calls before it. */
    ghost predicate Gives(call: Call, audio: Option<seq<real>>)
    {
      match call
      case Waveform => audio == if file.broken then None else Some(file.mono)
      case Acoustics =>
        if hint.Some? && hint.value > 900.0 then IsWindow(audio, file, MiddleStart(hint, 480.0), 480)
        else audio == if file.broken then None else Some(file.mono)
      case BpmOrKey => Agrees() ==> IsWindow(audio, file, MiddleStart(hint, 120.0), 120)
    }

    method Answer(call: Call) returns (audio: Option<seq<real>>)
      requires Valid()
      modifies this
      ensures Valid() && Gives(call, audio)
      ensures call.Waveform? ==> fullAudio.Some?
      ensures call.BpmOrKey? ==> bpmKeyAudio == Some(audio)
    {
      WindowIsHeard(file, hint, BPM_KEY_WINDOW_SECS);
      hide IsWindow, MiddleStart, Agrees, DecodeWindow, LongEnough;
      match call {
        case Waveform => audio := Full();
        case Acoustics => audio := AcousticsAudio();
        case BpmOrKey => audio := BpmKeyAudio();
      }
    }

    /** Any calls in any order, and what each of them gives. */
    method Use(calls: seq<Call>) returns (heard: seq<Option<seq<real>>>)
      requires Valid()
      modifies this
      ensures Valid() && |heard| == |calls|
      ensures forall i :: 0 <= i < |calls| ==> Gives(calls[i], heard[i])
    {
      heard := [];
      hide Gives;
      for i := 0 to |calls|
        invariant Valid() && |heard| == i
        invariant forall k :: 0 <= k < i ==> Gives(calls[k], heard[k])
      {
        var audio := Answer(calls[i]);
        heard := heard + [audio];
      }
    }
  }

  /** With an exact hint, no history of calls changes what BPM and key hear. */
  method SameWhateverTheOrder(file: File, hint: Option<real>, calls: seq<Call>, otherCalls: seq<Call>)
    returns (one: Option<seq<real>>, other: Option<seq<real>>)
    requires file.sampleRate > 0 && hint.Some?
    requires |file.mono| as real <= hint.value * file.sampleRate as real < |file.mono| as real + 1.0
    ensures one == other == BpmKeyAlone(file, hint)
  {
    ExactHintAgrees(file, hint);
    var first := new Analyzer(file, hint);
    var heard := first.Use(calls);
    one := first.BpmKeyAudio();
    var second := new Analyzer(file, hint);
    heard := second.Use(otherCalls);
    other := second.BpmKeyAudio();
  }

  /** Without a hint, hearing the waveform first changes what BPM and key hear. */
  method OrderMattersWithoutHint(file: File) returns (first: Option<seq<real>>, second: Option<seq<real>>)
    requires file.sampleRate >= 368 && !file.broken && DistinctSamples(file.mono)
    requires |file.mono| > BPM_KEY_WINDOW_SECS * file.sampleRate + 1
    ensures first.Some? && second.Some? && first != second
  {
    NoHintAgreesIff(file);
    FullAgreesIff(file, None);
    var alone := new Analyzer(file, None);
    first := alone.BpmKeyAudio();
    var primed := new Analyzer(file, None);
    var full := primed.Full();
    second := primed.BpmKeyAudio();
  }

  /** A hint well past the end of a long track does so too, when acoustics come first. */
  method OrderMattersPastTheEnd(file: File, hint: Option<real>)
    returns (first: Option<seq<real>>, second: Option<seq<real>>)
    requires file.sampleRate >= 368 && !file.broken && DistinctSamples(file.mono)
    requires IsLongTrack(hint) && AcousticsRegion(file, hint).Some?
    requires |file.mono| < AcousticsSkip(file, hint) + ACOUSTICS_LONG_WINDOW_SECS * file.sampleRate
    ensures first != second
  {
    AcousticsGivesWindowIff(file, hint);
    var alone := new Analyzer(file, hint);
    first := alone.BpmKeyAudio();
    var primed := new Analyzer(file, hint);
    var region := primed.AcousticsAudio();
    second := primed.BpmKeyAudio();
  }
}
