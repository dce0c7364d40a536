/** Decoding a track, or a window of it, to mono samples. Samples are exact reals. */
module Decode {
  import opened Wrappers
  import opened Numbers

  datatype Payload = Corrupt | Fatal | Audio(channels: nat, interleaved: seq<real>)

  datatype Packet = Packet(trackId: nat, payload: Payload) | ReadError

  function Sum(xs: seq<real>): real {
    if xs == [] then 0.0 else Sum(xs[..|xs| - 1]) + xs[|xs| - 1]
  }

  /** The average of each whole frame; a frame cut short is dropped. */
  function Frames(interleaved: seq<real>, channels: nat): seq<real>
    requires channels > 0
  {
    if |interleaved| < channels then []
    else [Sum(interleaved[..channels]) / channels as real] + Frames(interleaved[channels..], channels)
  }

  function MonoOf(channels: nat, interleaved: seq<real>): seq<real> {
    if channels <= 1 then interleaved else Frames(interleaved, channels)
  }

  /** All mono samples of a track up to the first error that ends decoding, and
      whether there is such an error. Corrupt packets and other tracks do not count. */
  function Mono(packets: seq<Packet>, trackId: nat): (seq<real>, bool) {
    if packets == [] then ([], false)
    else
      match packets[0]
      case ReadError => ([], true)
      case Packet(id, payload) =>
        if id != trackId || payload.Corrupt? then Mono(packets[1..], trackId)
        else if payload.Fatal? then ([], true)
        else
          var (rest, broken) := Mono(packets[1..], trackId);
          (MonoOf(payload.channels, payload.interleaved) + rest, broken)
  }

  /** What a decode keeps: after the skipped samples, as many as the cap allows,
      but always at least one; an error counts only if the cap was not reached. */
  function Collected(mono: seq<real>, broken: bool, skip: nat, cap: Option<nat>): Option<seq<real>> {
    if cap.Some? && |mono| >= skip + Max(cap.value, 1) then Some(mono[skip..skip + Max(cap.value, 1)])
    else if broken then None
    else Some(Retained(mono, skip))
  }

  function Retained(mono: seq<real>, skip: nat): seq<real> {
    if |mono| <= skip then [] else mono[skip..]
  }

  function Left(mono: seq<real>, skip: nat): nat {
    if |mono| <= skip then skip - |mono| else 0
  }

  ghost predicate Below(samples: seq<real>, cap: Option<nat>) {
    cap.Some? ==> |samples| < Max(cap.value, 1)
  }

  /** One mono sample: skip it, or keep it and see whether the cap is reached. */
  method Push(sample: real, skipSamples: nat, samples: seq<real>, cap: Option<nat>, ghost mono: seq<real>, ghost skip: nat)
    returns (skipLeft: nat, kept: seq<real>, full: bool)
    requires samples == Retained(mono, skip) && skipSamples == Left(mono, skip) && Below(samples, cap)
    ensures kept == Retained(mono + [sample], skip) && skipLeft == Left(mono + [sample], skip)
    ensures full <==> !Below(kept, cap)
    ensures full ==> cap.Some? && |mono| + 1 == skip + Max(cap.value, 1)
  {
    if skipSamples > 0 {
      return skipSamples - 1, samples, false;
    }
    kept := samples + [sample];
    return 0, kept, cap.Some? && |kept| >= cap.value;
  }

  /** What a decode stopped by its cap returns is settled, whatever would follow. */
  ghost predicate Settled(mono: seq<real>, skip: nat, cap: Option<nat>, kept: seq<real>) {
    forall rest, broken :: Collected(mono + rest, broken, skip, cap) == Some(kept)
  }

  lemma FullIsSettled(mono: seq<real>, more: seq<real>, skip: nat, cap: Option<nat>)
    requires cap.Some? && |mono| == skip + Max(cap.value, 1)
    ensures Settled(mono + more, skip, cap, Retained(mono, skip))
  {
    forall rest, broken ensures Collected(mono + more + rest, broken, skip, cap) == Some(Retained(mono, skip)) {
      assert (mono + more + rest)[skip..skip + Max(cap.value, 1)] == mono[skip..];
    }
  }

  /** Feed a packet with one channel in, sample by sample, until the cap is reached. */
  method PushSamples(interleaved: seq<real>, skipSamples: nat, samples: seq<real>, cap: Option<nat>,
                     ghost mono: seq<real>, ghost skip: nat)
    returns (skipLeft: nat, kept: seq<real>, full: bool)
    requires samples == Retained(mono, skip) && skipSamples == Left(mono, skip) && Below(samples, cap)
    ensures !full ==>
      (kept == Retained(mono + interleaved, skip) && skipLeft == Left(mono + interleaved, skip) && Below(kept, cap))
    ensures full ==> Settled(mono + interleaved, skip, cap, kept)
  {
    skipLeft, kept, full := skipSamples, samples, false;
    assert mono + interleaved[..0] == mono;
    for i := 0 to |interleaved|
      invariant kept == Retained(mono + interleaved[..i], skip)
      invariant skipLeft == Left(mono + interleaved[..i], skip) && Below(kept, cap) && !full
    {
      skipLeft, kept, full := Push(interleaved[i], skipLeft, kept, cap, mono + interleaved[..i], skip);
      assert mono + interleaved[..i] + [interleaved[i]] == mono + interleaved[..i + 1];
      if full {
        FullIsSettled(mono + interleaved[..i + 1], interleaved[i + 1..], skip, cap);
        assert mono + interleaved[..i + 1] + interleaved[i + 1..] == mono + interleaved;
        return;
      }
    }
    assert interleaved[..|interleaved|] == interleaved;
  }

  /** The samples of one frame, added up and divided by their number. */
  method Average(frame: seq<real>) returns (average: real)
    requires frame != []
    ensures average == Sum(frame) / |frame| as real
  {
    var total := 0.0;
    for i := 0 to |frame|
      invariant total == Sum(frame[..i])
    {
      assert frame[..i + 1][..i] == frame[..i];
      total := total + frame[i];
    }
    assert frame[..|frame|] == frame;
    return total / |frame| as real;
  }

  /** Feed a packet with several channels in, frame by frame, until the cap is reached. */
  method PushFrames(channels: nat, interleaved: seq<real>, skipSamples: nat, samples: seq<real>, cap: Option<nat>,
                    ghost mono: seq<real>, ghost skip: nat)
    returns (skipLeft: nat, kept: seq<real>, full: bool)
    requires channels > 0
    requires samples == Retained(mono, skip) && skipSamples == Left(mono, skip) && Below(samples, cap)
    ensures !full ==>
      (kept == Retained(mono + Frames(interleaved, channels), skip)
       && skipLeft == Left(mono + Frames(interleaved, channels), skip) && Below(kept, cap))
    ensures full ==> Settled(mono + Frames(interleaved, channels), skip, cap, kept)
  {
    skipLeft, kept, full := skipSamples, samples, false;
    ghost var done := mono;
    var rest := interleaved;
    while |rest| >= channels
      invariant done + Frames(rest, channels) == mono + Frames(interleaved, channels)
      invariant kept == Retained(done, skip) && skipLeft == Left(done, skip) && Below(kept, cap) && !full
    {
      var sample := Average(rest[..channels]);
      skipLeft, kept, full := Push(sample, skipLeft, kept, cap, done, skip);
      assert done + ([sample] + Frames(rest[channels..], channels)) == done + [sample] + Frames(rest[channels..], channels);
      done, rest := done + [sample], rest[channels..];
      if full {
        FullIsSettled(done, Frames(rest, channels), skip, cap);
        return;
      }
    }
    assert done + [] == done;
  }

  /** A stereo frame becomes the average of its two samples, and so on. */
  lemma StereoIsAveraged(left: real, right: real, rest: seq<real>)
    ensures MonoOf(2, [left, right] + rest) == [(left + right) / 2.0] + MonoOf(2, rest)
  {
    var all := [left, right] + rest;
    assert all[..2] == [left, right] && all[2..] == rest;
    assert [left, right][..1] == [left] && [left][..0] == [];
    assert Sum([]) == 0.0 && Sum([left]) == left && Sum([left, right]) == left + right;
  }

  /** Packets of other tracks, and corrupt ones, do not change what is heard. */
  lemma {:induction false} OthersDoNotCount(before: seq<Packet>, p: Packet, after: seq<Packet>, trackId: nat)
    requires p.Packet? && (p.trackId != trackId || p.payload.Corrupt?)
    ensures Mono(before + [p] + after, trackId) == Mono(before + after, trackId)
  {
    if before == [] {
      assert ([p] + after)[1..] == after && before + [p] + after == [p] + after && before + after == after;
    } else {
      OthersDoNotCount(before[1..], p, after, trackId);
      assert (before + [p] + after)[1..] == before[1..] + [p] + after;
      assert (before + after)[1..] == before[1..] + after;
    }
  }

  /** Packets of the track are heard one after the other, up to an error. */
  lemma {:induction false} SoundIsJoined(before: seq<Packet>, channels: nat, interleaved: seq<real>, trackId: nat)
    ensures var (mono, broken) := Mono(before, trackId);
      Mono(before + [Packet(trackId, Audio(channels, interleaved))], trackId) ==
        if broken then (mono, true) else (mono + MonoOf(channels, interleaved), false)
  {
    var last := Packet(trackId, Audio(channels, interleaved));
    hide MonoOf;
    if before == [] {
      assert [last][1..] == [] && before + [last] == [last];
      var chunk := MonoOf(channels, interleaved);
      assert Mono([], trackId) == ([], false);
      assert chunk + [] == chunk == [] + chunk;
    } else {
      SoundIsJoined(before[1..], channels, interleaved, trackId);
      assert (before + [last])[1..] == before[1..] + [last];
      if before[0].Packet? && before[0].trackId == trackId && before[0].payload.Audio? {
        var chunk := MonoOf(before[0].payload.channels, before[0].payload.interleaved);
        var mono := Mono(before[1..], trackId).0;
        assert chunk + (mono + MonoOf(channels, interleaved)) == chunk + mono + MonoOf(channels, interleaved);
      }
    }
  }

  /** An error in a packet of the track, or in reading, ends it. */
  lemma {:induction false} ErrorsEnd(before: seq<Packet>, p: Packet, after: seq<Packet>, trackId: nat)
    requires p.ReadError? || (p.trackId == trackId && p.payload.Fatal?)
    ensures Mono(before + [p] + after, trackId) == (Mono(before, trackId).0, true)
  {
    hide MonoOf;
    if before == [] {
      assert before + [p] + after == [p] + after;
    } else {
      ErrorsEnd(before[1..], p, after, trackId);
      assert (before + [p] + after)[1..] == before[1..] + [p] + after;
    }
  }

  lemma MonoFrom(packets: seq<Packet>, trackId: nat, i: nat)
    requires i < |packets|
    ensures Mono(packets[i..], trackId) ==
      match packets[i]
      case ReadError => ([], true)
      case Packet(id, payload) =>
        (if id != trackId || payload.Corrupt? then Mono(packets[i + 1..], trackId)
         else if payload.Fatal? then ([], true)
         else (MonoOf(payload.channels, payload.interleaved) + Mono(packets[i + 1..], trackId).0,
               Mono(packets[i + 1..], trackId).1))
  {
  }

  /** What the samples so far and the rest of the stream amount to. */
  function Following(done: seq<real>, rest: (seq<real>, bool)): (seq<real>, bool) {
    (done + rest.0, rest.1)
  }

  lemma FollowingOneMore(done: seq<real>, chunk: seq<real>, rest: (seq<real>, bool))
    ensures Following(done, (chunk + rest.0, rest.1)) == Following(done + chunk, rest)
  {
    assert done + (chunk + rest.0) == done + chunk + rest.0;
  }

  /** The decode loop keeps exactly the samples of the window. */
  method CollectSamples(packets: seq<Packet>, trackId: nat, skip: nat, cap: Option<nat>) returns (r: Option<seq<real>>)
    ensures r == Collected(Mono(packets, trackId).0, Mono(packets, trackId).1, skip, cap)
  {
    hide Mono, MonoOf, Frames;
    var samples: seq<real> := [];
    var skipSamples := skip;
    ghost var done: seq<real> := [];
    ghost var all := Mono(packets, trackId);
    assert packets[0..] == packets && [] + all.0 == all.0;
    for i := 0 to |packets|
      invariant Following(done, Mono(packets[i..], trackId)) == all
      invariant samples == Retained(done, skip) && skipSamples == Left(done, skip) && Below(samples, cap)
    {
      MonoFrom(packets, trackId, i);
      match packets[i] {
        case ReadError => return None;
        case Packet(id, payload) =>
          if id != trackId || payload.Corrupt? { continue; }
          if payload.Fatal? { return None; }
          ghost var chunk := MonoOf(payload.channels, payload.interleaved);
          FollowingOneMore(done, chunk, Mono(packets[i + 1..], trackId));
          var full: bool;
          skipSamples, samples, full :=
            PushPacket(payload.channels, payload.interleaved, skipSamples, samples, cap, done, skip);
          if full { return Some(samples); }
          done := done + chunk;
      }
    }
    EmptyMono(packets, trackId);
    assert done + [] == done;
    return Some(samples);
  }

  lemma EmptyMono(packets: seq<Packet>, trackId: nat)
    ensures Mono(packets[|packets|..], trackId) == ([], false)
  {
  }

  /** Feed one packet in, whatever its channels. */
  method PushPacket(channels: nat, interleaved: seq<real>, skipSamples: nat, samples: seq<real>, cap: Option<nat>,
                    ghost mono: seq<real>, ghost skip: nat)
    returns (skipLeft: nat, kept: seq<real>, full: bool)
    requires samples == Retained(mono, skip) && skipSamples == Left(mono, skip) && Below(samples, cap)
    ensures !full ==>
      (kept == Retained(mono + MonoOf(channels, interleaved), skip)
       && skipLeft == Left(mono + MonoOf(channels, interleaved), skip) && Below(kept, cap))
    ensures full ==> Settled(mono + MonoOf(channels, interleaved), skip, cap, kept)
  {
    if channels <= 1 {
      skipLeft, kept, full := PushSamples(interleaved, skipSamples, samples, cap, mono, skip);
    } else {
      skipLeft, kept, full := PushFrames(channels, interleaved, skipSamples, samples, cap, mono, skip);
    }
  }
}
