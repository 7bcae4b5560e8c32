/** The ring, the shared signals and the output callback as they run; proved against `Output`. */
module PlaybackDevice {
  import opened Config
  import opened Playback
  import opened Output

  /** The bounded sample FIFO between the pump and the callback. */
  class Ring {
    var items: seq<real>

    constructor ()
      ensures items == []
    {
      items := [];
    }

    /** Push what fits. */
    method PushSlice(samples: seq<real>) returns (pushed: nat)
      requires |items| <= RING_CAPACITY
      modifies this
      ensures pushed == MinNat(|samples|, RING_CAPACITY - |old(items)|)
      ensures items == old(items) + samples[..pushed]
    {
      pushed := MinNat(|samples|, RING_CAPACITY - |items|);
      items := items + samples[..pushed];
    }

    method PopSlice(n: nat) returns (samples: seq<real>)
      requires n <= |items|
      modifies this
      ensures samples == old(items)[..n] && items == old(items)[n..]
    {
      samples := items[..n];
      items := items[n..];
    }
  }

  /** What each side publishes for the other. */
  class PlayoutSignals {
    var queued: nat
    var request: nat
    var playing: nat

    constructor ()
      ensures queued == 0 && request == 0 && playing == 0
    {
      queued, request, playing := 0, 0, 0;
    }
  }

  class Glitches {
    var overflow: nat
    var trimmed: nat
    var dry: nat
    var starved: nat

    constructor ()
      ensures overflow == 0 && trimmed == 0 && dry == 0 && starved == 0
    {
      overflow, trimmed, dry, starved := 0, 0, 0, 0;
    }
  }

  ghost function DeviceOf(ring: Ring, queue: PlaybackQueue, signals: PlayoutSignals, glitches: Glitches): Device
    reads ring, queue, signals, glitches
  {
    Device(ring.items, queue.buf, queue.silent, signals.queued, signals.request, signals.playing,
      glitches.overflow, glitches.trimmed, glitches.dry, glitches.starved)
  }

  /** Push into the ring, counting the samples it had no room for. */
  method PushCounted(ring: Ring, samples: seq<real>, glitches: Glitches)
    requires |ring.items| <= RING_CAPACITY
    modifies ring, glitches`overflow
    ensures
      var n := MinNat(|samples|, RING_CAPACITY - |old(ring.items)|);
      ring.items == old(ring.items) + samples[..n] && glitches.overflow == old(glitches.overflow) + |samples| - n
  {
    var pushed := ring.PushSlice(samples);
    if pushed < |samples| {
      glitches.overflow := glitches.overflow + |samples| - pushed;
    }
  }

  /** Mono samples a device buffer asks for. */
  function Request(length: nat, channels: nat): nat {
    length / Lanes(channels)
  }

  /** `data` is what a read of the queue delivers, ramped at the silence boundaries. */
  ghost predicate Sounds(data: seq<real>, ready: seq<real>, silent: bool, channels: nat) {
    data == Delivered(Ramped(ready, Request(|data|, channels), FADE, silent), channels, |data|)
  }

  class PlaybackRenderer {
    const queue: PlaybackQueue
    const channels: nat

    constructor (channels: nat)
      ensures fresh(queue) && queue.buf == [] && queue.silent && queue.fade == FADE && this.channels == channels
    {
      queue := new PlaybackQueue();
      this.channels := channels;
    }

    /** Move the whole frames of the ring into the queue at the listener's volume. */
    method DrainRing(ring: Ring, vol: real)
      modifies ring, queue`buf
      ensures
        var w := Whole(|old(ring.items)|);
        && ring.items == old(ring.items)[w..]
        && queue.buf == old(queue.buf) + Scaled(old(ring.items)[..w], vol)
    {
      ghost var was := ring.items;
      ghost var before := queue.buf;
      ghost var taken: nat := 0;
      hide Scaled, Whole;
      ScaledNone(vol);
      while |ring.items| >= FRAME_SIZE
        modifies ring, queue`buf
        invariant taken <= |was| && taken % FRAME_SIZE == 0
        invariant ring.items == was[taken..]
        invariant queue.buf == before + Scaled(was[..taken], vol)
      {
        var frame := ring.PopSlice(FRAME_SIZE);
        ScaledAppend(was, taken, FRAME_SIZE, vol);
        queue.Extend(Scaled(frame, vol));
        taken := taken + FRAME_SIZE;
      }
      WholeUnique(|was|, taken);
    }

    /** One output callback: ring, volume, queue, trim, fill; then publish what is left and the request. */
    method Render(ring: Ring, vol: real, data: array<real>, signals: PlayoutSignals, glitches: Glitches)
      requires queue.fade == FADE
      modifies ring, queue, data, signals, glitches
      ensures
        var d := old(DeviceOf(ring, queue, signals, glitches));
        var ready := Trimmed(Drain(d, vol).queue, PLAYBACK_SAFETY_CAP, FADE);
        && DeviceOf(ring, queue, signals, glitches) == Callback(d, Request(data.Length, channels), vol)
        && Sounds(data[..], ready, d.silent, channels)
    {
      hide Trimmed, Scaled, Whole, RunsDry, MinNat, MaxNat, Request, Sounds;
      DrainRing(ring, vol);
      var trimmed := queue.TrimTo(PLAYBACK_SAFETY_CAP);
      if trimmed > 0 {
        glitches.trimmed := glitches.trimmed + trimmed;
      }
      Deliver(data, signals, glitches);
    }

    /** Fill the device buffer, count a dry read, publish what is left and the request. */
    method Deliver(data: array<real>, signals: PlayoutSignals, glitches: Glitches)
      requires queue.fade == FADE
      modifies queue, data, signals`queued, signals`request, glitches`dry, glitches`starved
      ensures
        var needed := Request(data.Length, channels);
        var dry := RunsDry(|old(queue.buf)|, needed, old(queue.silent));
        && Sounds(data[..], old(queue.buf), old(queue.silent), channels)
        && queue.buf == old(queue.buf)[MinNat(|old(queue.buf)|, needed)..]
        && queue.silent == (|old(queue.buf)| < needed)
        && signals.queued == |queue.buf|
        && signals.request == MaxNat(old(signals.request), needed)
        && glitches.dry == old(glitches.dry) + (if dry then 1 else 0)
        && glitches.starved == old(glitches.starved) + (if dry && signals.playing > 0 then 1 else 0)
    {
      hide Interleaved, Ramped, RunsDry, MinNat, MaxNat;
      var dry := queue.Fill(data, channels);
      if dry {
        glitches.dry := glitches.dry + 1;
        if signals.playing > 0 {
          glitches.starved := glitches.starved + 1;
        }
      }
      signals.queued := |queue.buf|;
      signals.request := MaxNat(signals.request, Request(data.Length, channels));
    }
  }

  lemma ScaledNone(vol: real)
    ensures Scaled([], vol) == []
  {
  }

  lemma WholeUnique(n: nat, w: nat)
    requires w <= n && n - w < FRAME_SIZE && w % FRAME_SIZE == 0
    ensures w == Whole(n)
  {
  }

  lemma ScaledAppend(samples: seq<real>, a: nat, n: nat, vol: real)
    requires a + n <= |samples|
    ensures Scaled(samples[..a + n], vol) == Scaled(samples[..a], vol) + Scaled(samples[a..][..n], vol)
  {
    hide Gain;
  }
}
