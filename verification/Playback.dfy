/** The output callback's queue at 48 kHz: trimming with a crossfade, filling with ramps. Samples are reals. */
module Playback {
  import opened Config

  const FADE: nat := SAMPLE_RATE * PLAYBACK_FADE_MS / 1000

  function MinNat(a: nat, b: nat): nat {
    if a < b then a else b
  }

  /** Position of sample `i` in a ramp over `f` samples: strictly between 0 and 1. */
  function Ramp(i: nat, f: nat): (t: real)
    requires i < f
    ensures 0.0 < t < 1.0
  {
    (i + 1) as real / (f + 1) as real
  }

  function Blend(outgoing: real, incoming: real, t: real): real {
    outgoing * (1.0 - t) + incoming * t
  }

  /** Length of the crossfade when `excess` samples go and `cap` stay. */
  function FadeLength(fade: nat, excess: nat, cap: nat): (f: nat)
    ensures f <= fade && f <= excess && f <= cap
  {
    MinNat(MinNat(fade, excess), cap)
  }

  /** The queue after trimming: its newest `cap` samples, the first of them blended with the oldest ones dropped. */
  function Trimmed(buf: seq<real>, cap: nat, fade: nat): (r: seq<real>)
    ensures |r| == MinNat(|buf|, cap)
  {
    if |buf| <= cap then buf
    else
      var excess := |buf| - cap;
      var f := FadeLength(fade, excess, cap);
      Crossfaded(buf, excess, f, f)
  }

  /** The last samples of `buf`, the first `i` of them blended with the `i` oldest over a fade of length `f`. */
  function Crossfaded(buf: seq<real>, excess: nat, f: nat, i: nat): (r: seq<real>)
    requires i <= f <= excess && excess + f <= |buf|
    ensures |r| == |buf| - excess
  {
    seq(|buf| - excess, k requires 0 <= k < |buf| - excess =>
      if k < i then Blend(buf[k], buf[excess + k], Ramp(k, f)) else buf[excess + k])
  }

  /** Step `i` reads two samples no earlier step has written, and writes one. */
  lemma CrossfadeStep(buf: seq<real>, excess: nat, f: nat, i: nat)
    requires i < f <= excess && excess + f <= |buf|
    ensures
      var now := buf[..excess] + Crossfaded(buf, excess, f, i);
      && now[i] == buf[i] && now[excess + i] == buf[excess + i]
      && now[excess + i := Blend(buf[i], buf[excess + i], Ramp(i, f))] == buf[..excess] + Crossfaded(buf, excess, f, i + 1)
  {
    hide Blend, Ramp;
  }

  lemma CrossfadeNone(buf: seq<real>, excess: nat, f: nat)
    requires f <= excess && excess + f <= |buf|
    ensures buf == buf[..excess] + Crossfaded(buf, excess, f, 0)
  {
  }

  /** The gain on sample `i` of `available` when the read starts and ends as told. */
  function EdgeGain(i: nat, available: nat, fade: nat, fadeIn: bool, fadeOut: bool): (g: real)
    requires i < available
    ensures 0.0 < g <= 1.0
  {
    var rise := if fadeIn && i < fade then Ramp(i, fade) else 1.0;
    var fall := if fadeOut && available - 1 - i < fade then Ramp(available - 1 - i, fade) else 1.0;
    GainProduct(rise, fall);
    rise * fall
  }

  lemma GainProduct(a: real, b: real)
    requires 0.0 < a <= 1.0 && 0.0 < b <= 1.0
    ensures 0.0 < a * b <= 1.0
  {
    assert a * b + (1.0 - a) * b == b;
    assert (1.0 - a) * b >= 0.0;
  }

  /** The samples a read of `needed` takes, with the silence boundaries ramped. */
  function Ramped(buf: seq<real>, needed: nat, fade: nat, silent: bool): (r: seq<real>)
    ensures |r| == MinNat(|buf|, needed)
  {
    var available := MinNat(|buf|, needed);
    seq(available, i requires 0 <= i < available =>
      buf[i] * EdgeGain(i, available, fade, silent, available < needed))
  }

  /** Device samples written for each mono one: a device that reports no channels counts as mono. */
  function Lanes(channels: nat): (lanes: nat)
    ensures 0 < lanes
  {
    if channels == 0 then 1 else channels
  }

  /**
   What ends up in a device buffer of `length`: the samples on every channel
   and silence behind them. Silence starts at a multiple of the reported
   channels, so with none it overwrites the samples too.
   */
  function Delivered(mono: seq<real>, channels: nat, length: nat): (data: seq<real>)
    requires |mono| <= length / Lanes(channels)
    ensures |data| == length
  {
    FitsDevice(|mono|, Lanes(channels), length);
    if channels == 0 then seq(length, _ => 0.0)
    else Interleaved(mono, channels) + seq(length - |mono| * channels, _ => 0.0)
  }

  /** Mono samples spread over interleaved channels. */
  function Interleaved(mono: seq<real>, channels: nat): (r: seq<real>)
    ensures |r| == |mono| * channels
  {
    if mono == [] then []
    else
      var n := |mono| - 1;
      assert |mono| * channels == n * channels + channels;
      Interleaved(mono[..n], channels) + seq(channels, _ => mono[n])
  }

  /** The read ran dry: it is short, and has data or follows a read that was satisfied. */
  predicate RunsDry(len: nat, needed: nat, silent: bool) {
    len < needed && (len > 0 || !silent)
  }

  class PlaybackQueue {
    var buf: seq<real>
    const fade: nat
    var silent: bool

    constructor ()
      ensures buf == [] && fade == FADE && silent
    {
      buf, fade, silent := [], FADE, true;
    }

    method Extend(samples: seq<real>)
      modifies `buf
      ensures buf == old(buf) + samples
    {
      buf := buf + samples;
    }

    /**
     Drop the oldest samples down to `cap`, crossfading in place. Every sample
     read is one the loop has not overwritten yet: the result is a function of
     the queue as it was.
     */
    method TrimTo(cap: nat) returns (dropped: nat)
      modifies `buf
      ensures buf == Trimmed(old(buf), cap, fade)
      ensures dropped == |old(buf)| - |buf|
    {
      if |buf| <= cap {
        return 0;
      }
      hide Crossfaded;
      var excess := |buf| - cap;
      CrossfadeHead(excess, FadeLength(fade, excess, cap));
      buf := buf[excess..];
      return excess;
    }

    /** Blend the first `f` samples into the `f` that follow the first `excess`, in place. */
    method CrossfadeHead(excess: nat, f: nat)
      requires f <= excess && excess + f <= |buf|
      modifies `buf
      ensures buf == old(buf)[..excess] + Crossfaded(old(buf), excess, f, f)
    {
      hide Blend, Ramp, Crossfaded;
      ghost var was := buf;
      CrossfadeNone(was, excess, f);
      for i := 0 to f
        invariant buf == was[..excess] + Crossfaded(was, excess, f, i)
      {
        CrossfadeStep(was, excess, f, i);
        var outgoing := buf[i];
        var incoming := buf[excess + i];
        buf := buf[excess + i := Blend(outgoing, incoming, Ramp(i, f))];
      }
    }

    /**
     Fill one device buffer of `channels` interleaved channels. Returns whether
     the queue ran dry.
     */
    method Fill(data: array<real>, channels: nat) returns (dry: bool)
      modifies this, data
      ensures
        var needed := data.Length / Lanes(channels);
        && data[..] == Delivered(Ramped(old(buf), needed, fade, old(silent)), channels, data.Length)
        && buf == old(buf)[MinNat(|old(buf)|, needed)..]
        && dry == RunsDry(|old(buf)|, needed, old(silent))
        && silent == (|old(buf)| < needed)
    {
      hide EdgeGain, Ramped, Interleaved;
      var lanes := Lanes(channels);
      var needed := data.Length / lanes;
      var available := MinNat(|buf|, needed);
      FitsDevice(available, lanes, data.Length);
      WriteSamples(data, lanes, needed);
      WriteSilence(data, available * channels);
      dry := available < needed && (available > 0 || !silent);
      silent := available < needed;
      buf := buf[available..];
    }

    /** The samples a read of `needed` takes, ramped and upmixed, at the front of `data`. */
    method WriteSamples(data: array<real>, channels: nat, needed: nat)
      requires 0 < channels && MinNat(|buf|, needed) * channels <= data.Length
      modifies data
      ensures data[..MinNat(|buf|, needed) * channels] == Interleaved(Ramped(buf, needed, fade, silent), channels)
    {
      hide EdgeGain, Interleaved;
      var available := MinNat(|buf|, needed);
      ghost var ramped := Ramped(buf, needed, fade, silent);
      InterleavedNone(channels);
      var at := 0;
      for i := 0 to available
        modifies data
        invariant at == i * channels
        invariant at <= data.Length
        invariant data[..at] == Interleaved(ramped[..i], channels)
      {
        Monotone(i + 1, available, channels);
        assert (i + 1) * channels == at + channels;
        var s := buf[i] * EdgeGain(i, available, fade, silent, available < needed);
        InterleavedAppend(ramped, i, channels);
        assert s == ramped[i];
        Repeat(data, at, channels, s);
        at := at + channels;
      }
      assert ramped[..available] == ramped;
    }
  }

  lemma Monotone(i: nat, n: nat, channels: nat)
    requires i <= n
    ensures i * channels <= n * channels
  {
  }

  lemma InterleavedNone(channels: nat)
    ensures Interleaved([], channels) == []
  {
  }

  lemma InterleavedAppend(mono: seq<real>, i: nat, channels: nat)
    requires i < |mono|
    ensures Interleaved(mono[..i + 1], channels) == Interleaved(mono[..i], channels) + seq(channels, _ => mono[i])
  {
    assert mono[..i + 1][..i] == mono[..i];
  }

  /** One mono sample written to every channel of its frame. */
  method Repeat(data: array<real>, at: nat, channels: nat, s: real)
    requires at + channels <= data.Length
    modifies data
    ensures data[..at + channels] == old(data[..at]) + seq(channels, _ => s)
  {
    for c := 0 to channels
      modifies data
      invariant data[..at + c] == old(data[..at]) + seq(c, _ => s)
    {
      data[at + c] := s;
    }
  }

  method WriteSilence(data: array<real>, at: nat)
    requires at <= data.Length
    modifies data
    ensures data[..] == old(data[..at]) + seq(data.Length - at, _ => 0.0)
  {
    for j := at to data.Length
      modifies data
      invariant data[..j] == old(data[..at]) + seq(j - at, _ => 0.0)
    {
      data[j] := 0.0;
    }
  }

  /**
   The samples read reach the device if and only if it reports a channel, or
   they are silence anyway; `Fill` consumes them either way.
   */
  lemma SamplesReachExactly(buf: seq<real>, fade: nat, silent: bool, channels: nat, length: nat)
    ensures
      var mono := Ramped(buf, length / Lanes(channels), fade, silent);
      var samples := Interleaved(mono, Lanes(channels));
      && |samples| <= length
      && (Delivered(mono, channels, length)[..|samples|] == samples <==>
          channels != 0 || forall i | 0 <= i < |mono| :: buf[i] == 0.0)
  {
    hide EdgeGain;
    var mono := Ramped(buf, length / Lanes(channels), fade, silent);
    var samples := Interleaved(mono, Lanes(channels));
    FitsDevice(|mono|, Lanes(channels), length);
    if channels == 0 {
      MonoUnchanged(mono);
      forall i | 0 <= i < |mono|
        ensures mono[i] == 0.0 <==> buf[i] == 0.0
      {
        RampedZero(buf, length / Lanes(channels), fade, silent, i);
      }
    }
  }

  /** A ramp silences nothing that was not silent. */
  lemma RampedZero(buf: seq<real>, needed: nat, fade: nat, silent: bool, i: nat)
    requires i < MinNat(|buf|, needed)
    ensures Ramped(buf, needed, fade, silent)[i] == 0.0 <==> buf[i] == 0.0
  {
    var available := MinNat(|buf|, needed);
    var g := EdgeGain(i, available, fade, silent, available < needed);
    assert 0.0 < g;
    hide EdgeGain;
    ZeroProduct(buf[i], g);
  }

  lemma ZeroProduct(x: real, g: real)
    requires 0.0 < g
    ensures x * g == 0.0 <==> x == 0.0
  {
  }

  lemma {:induction false} MonoUnchanged(mono: seq<real>)
    ensures Interleaved(mono, 1) == mono
  {
    if mono != [] {
      MonoUnchanged(mono[..|mono| - 1]);
    }
  }

  /** A device without channels is given silence, and the sample is gone. */
  lemma NoChannelsNoSound()
    ensures Ramped([1.0], 1 / Lanes(0), FADE, false) == [1.0] && Delivered([1.0], 0, 1) == [0.0]
  {
    assert EdgeGain(0, 1, FADE, false, false) == 1.0;
    assert Ramped([1.0], 1 / Lanes(0), FADE, false)[0] == 1.0;
  }

  lemma FitsDevice(i: nat, channels: nat, length: nat)
    requires 0 < channels && i <= length / channels
    ensures i * channels <= length
  {
  }

  /** Every channel of a frame of the device carries the mono sample. */
  lemma {:induction false} InterleavedAt(mono: seq<real>, channels: nat, i: nat, c: nat)
    requires i < |mono| && c < channels
    ensures i * channels + c < |mono| * channels && Interleaved(mono, channels)[i * channels + c] == mono[i]
  {
    var n := |mono| - 1;
    Monotone(i + 1, |mono|, channels);
    assert (i + 1) * channels == i * channels + channels && |mono| * channels == n * channels + channels;
    if i < n {
      Monotone(i + 1, n, channels);
      InterleavedAt(mono[..n], channels, i, c);
    }
  }

  /** With channels, each of them carries the read's samples in order; everything behind them is silence. */
  lemma DeliveredAt(mono: seq<real>, channels: nat, length: nat, i: nat, c: nat)
    requires |mono| <= length / Lanes(channels) && c < channels
    ensures
      var data := Delivered(mono, channels, length);
      && (i < |mono| ==> i * channels + c < length && data[i * channels + c] == mono[i])
      && (forall j | |mono| * channels <= j < length :: data[j] == 0.0)
  {
    FitsDevice(|mono|, channels, length);
    if i < |mono| {
      InterleavedAt(mono, channels, i, c);
    }
    hide Interleaved;
  }
}
