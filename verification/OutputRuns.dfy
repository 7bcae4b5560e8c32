/** Latency, starvation and conservation of the output, over every interleaving of pumps and callbacks. */
module OutputRuns {
  import opened Config
  import opened Playback
  import opened Audio
  import opened Output

  /** The largest request of a device the ring is sized for (140 ms): a frame less than the ring holds. */
  const MAX_REQUEST: nat := RING_CAPACITY - FRAME_SIZE

  // ── conservation: any device, any request ──

  /** Every sample offered is refused, in the ring, in the queue, trimmed, or played, and each of those is counted. */
  ghost predicate Conserved(h: History) {
    var d := h.device;
    && |h.offered| == d.overflow + |h.taken| + |d.ring|
    && |h.taken| == |h.drained|
    && |h.drained| == d.trimmed + |h.played| + |d.queue|
  }

  lemma {:induction false} PumpConserves(d: Device, supply: seq<Frame>)
    requires |d.ring| <= RING_CAPACITY
    ensures
      var r := PumpLoop(d, supply);
      && r == d.(ring := r.ring, overflow := r.overflow)
      && |Offered(d, supply)| == r.overflow - d.overflow + |r.ring| - |d.ring|
    decreases |supply|
  {
    if WantsFrame(d) && supply != [] && RING_CAPACITY - |d.ring| >= FRAME_SIZE {
      PumpConserves(PushCounted(d, supply[0]), supply[1..]);
    }
  }

  lemma CallbackConserves(h: History, needed: nat, vol: real)
    requires |h.device.ring| <= RING_CAPACITY && Conserved(h)
    ensures Conserved(Next(h, CallbackStep(needed, vol)))
  {
    hide Trimmed, Scaled, Whole;
  }

  /** No sample is lost without being counted, in any run whatever the device asks for. */
  lemma {:induction false} SamplesConserved(steps: seq<Step>)
    ensures Conserved(Run(steps))
  {
    if steps != [] {
      hide Conserved, Next;
      var init, s := steps[..|steps| - 1], steps[|steps| - 1];
      SamplesConserved(init);
      StepConserves(Run(init), s);
    } else {
      assert Conserved(NO_HISTORY);
    }
  }

  lemma StepConserves(h: History, s: Step)
    requires |h.device.ring| <= RING_CAPACITY && Conserved(h)
    ensures Conserved(Next(h, s))
  {
    match s
    case PumpStep(supply, playing) =>
      hide PumpLoop, Offered;
      PumpConserves(h.device, supply);
    case CallbackStep(needed, vol) =>
      hide Conserved, Next;
      CallbackConserves(h, needed, vol);
  }

  // ── latency: devices that never ask for more than MAX_REQUEST ──

  /** The output is within its bound, and nothing has ever been refused or trimmed. */
  ghost predicate Bounded(d: Device) {
    && d.request <= MAX_REQUEST
    && d.queued == |d.queue|
    && |d.ring| + |d.queue| < LowWater(d.request) + FRAME_SIZE
    && |d.ring| % FRAME_SIZE == 0
    && d.overflow == 0 && d.trimmed == 0
  }

  ghost predicate Modest(s: Step) {
    s.CallbackStep? ==> s.needed <= MAX_REQUEST
  }

  /** A pump of a bounded output accepts every frame whole. */
  lemma {:induction false} PumpBounded(d: Device, supply: seq<Frame>)
    requires Bounded(d) && |d.ring| <= RING_CAPACITY
    ensures Bounded(PumpLoop(d, supply))
    ensures PumpLoop(d, supply).ring == d.ring + Offered(d, supply)
    decreases |supply|
  {
    if WantsFrame(d) && supply != [] {
      assert RING_CAPACITY - |d.ring| >= FRAME_SIZE;
      var pushed := PushCounted(d, supply[0]);
      assert supply[0][..FRAME_SIZE] == supply[0];
      PumpBounded(pushed, supply[1..]);
      assert d.ring + supply[0] + Offered(pushed, supply[1..]) == d.ring + (supply[0] + Offered(pushed, supply[1..]));
    } else {
      assert d.ring + [] == d.ring;
    }
  }

  /** A callback of a bounded output drains the ring to its last sample and trims nothing. */
  lemma CallbackBounded(d: Device, needed: nat, vol: real)
    requires Bounded(d) && needed <= MAX_REQUEST
    ensures Bounded(Callback(d, needed, vol))
    ensures Whole(|d.ring|) == |d.ring| && Callback(d, needed, vol).ring == []
    ensures Trimmed(Drain(d, vol).queue, PLAYBACK_SAFETY_CAP, FADE) == Drain(d, vol).queue
  {
  }

  /** Every sample is where it should be, in order: offered = taken + ring, drained = played + queue. */
  ghost predicate Lossless(h: History) {
    && h.offered == h.taken + h.device.ring
    && h.drained == h.played + h.device.queue
  }

  lemma PumpLossless(h: History, supply: seq<Frame>, playing: nat)
    requires |h.device.ring| <= RING_CAPACITY && Bounded(h.device) && Lossless(h)
    ensures var r := Next(h, PumpStep(supply, playing)); Bounded(r.device) && Lossless(r)
  {
    hide PumpLoop, Offered, LowWater;
    PumpBounded(h.device, supply);
    PumpConserves(h.device, supply);
    var more := Offered(h.device, supply);
    assert h.taken + (h.device.ring + more) == h.taken + h.device.ring + more;
  }

  lemma CallbackLossless(h: History, needed: nat, vol: real)
    requires |h.device.ring| <= RING_CAPACITY && Bounded(h.device) && Lossless(h) && needed <= MAX_REQUEST
    ensures var r := Next(h, CallbackStep(needed, vol)); Bounded(r.device) && Lossless(r)
  {
    hide LowWater, Whole, Trimmed, Scaled, Bounded;
    var d := h.device;
    CallbackBounded(d, needed, vol);
    var added := Scaled(d.ring, vol);
    assert d.ring[..|d.ring|] == d.ring;
    var queue := d.queue + added;
    var n := MinNat(|queue|, needed);
    assert h.drained + added == h.played + queue;
    assert queue == queue[..n] + queue[n..];
    assert h.played + queue == h.played + queue[..n] + queue[n..];
  }

  lemma StepBounded(h: History, s: Step)
    requires |h.device.ring| <= RING_CAPACITY && Bounded(h.device) && Lossless(h) && Modest(s)
    ensures Bounded(Next(h, s).device) && Lossless(Next(h, s))
  {
    hide Bounded, Lossless, Next;
    match s
    case PumpStep(supply, playing) => PumpLossless(h, supply, playing);
    case CallbackStep(needed, vol) => CallbackLossless(h, needed, vol);
  }

  /**
   Bounded latency: in every interleaving of pumps and callbacks of a device
   that never asks for more than `MAX_REQUEST` samples, the ring and the queue
   together stay below the low-water mark plus one frame, the ring never
   refuses a sample and the safety cap never trims one; so the samples come
   out exactly as they were offered, in order.
   */
  lemma {:induction false} LatencyBounded(steps: seq<Step>)
    requires forall s <- steps :: Modest(s)
    ensures Bounded(Run(steps).device) && Lossless(Run(steps))
  {
    if steps != [] {
      hide Bounded, Lossless, Next, Modest;
      var init, s := steps[..|steps| - 1], steps[|steps| - 1];
      LatencyBounded(init);
      StepBounded(Run(init), s);
    }
  }

  /** A device that asks for more makes a pump push into a full ring. */
  lemma {:induction false} FullRingRefuses(d: Device, supply: seq<Frame>)
    requires d.queued == 0 && d.request > MAX_REQUEST
    requires |d.ring| % FRAME_SIZE == 0 && |d.ring| <= RING_CAPACITY
    requires |d.ring| + |supply| * FRAME_SIZE > RING_CAPACITY
    ensures PumpLoop(d, supply).overflow > d.overflow
    decreases |supply|
  {
    if |d.ring| < RING_CAPACITY {
      FullRingRefuses(PushCounted(d, supply[0]), supply[1..]);
    }
  }

  /**
   The bound is exact: a device may be served without ever refusing a sample,
   in every run, if and only if it never asks for more than `MAX_REQUEST`.
   */
  lemma RequestBoundExact(request: nat)
    ensures (forall steps: seq<Step> | (forall s <- steps :: s.CallbackStep? ==> s.needed <= request) ::
      Run(steps).device.overflow == 0) <==> request <= MAX_REQUEST
  {
    if request > MAX_REQUEST {
      var first := CallbackStep(request, 1.0);
      var frame: Frame := seq(FRAME_SIZE, _ => 0.0);
      var second := PumpStep(seq(RING_BUF_FRAMES + 1, _ => frame), 1);
      TwoSteps(first, second);
      FullRingRefuses(Callback(FRESH, request, 1.0), second.supply);
      hide Run, PumpLoop;
      assert Run([first, second]).device.overflow > 0;
    } else {
      forall steps: seq<Step> | forall s <- steps :: s.CallbackStep? ==> s.needed <= request
        ensures Run(steps).device.overflow == 0
      {
        assert forall s <- steps :: Modest(s);
        LatencyBounded(steps);
      }
    }
  }

  lemma TwoSteps(a: Step, b: Step)
    ensures Run([a, b]) == Next(Next(NO_HISTORY, a), b)
  {
    hide Next;
    assert [a][..0] == [];
    assert Run([a]) == Next(Run([]), a);
    assert [a, b][..1] == [a];
  }

  // ── starvation ──

  /** A pump that is not cut short by an idle engine. */
  ghost predicate Completes(d: Device, s: Step)
    requires |d.ring| <= RING_CAPACITY
  {
    s.PumpStep? && !WantsFrame(PumpLoop(d, s.supply))
  }

  /**
   From `d` on, every callback asks for no more than has been published and
   comes after a pump that completed since the callback before it. `ready`
   says that such a pump has already happened.
   */
  ghost predicate WellServed(d: Device, steps: seq<Step>, ready: bool)
    requires |d.ring| <= RING_CAPACITY
    decreases |steps|
  {
    steps != [] ==>
      var s := steps[0];
      match s
      case PumpStep(supply, playing) =>
        WellServed(Pump(d, supply, playing), steps[1..], ready || Completes(d, s))
      case CallbackStep(needed, vol) =>
        ready && needed <= d.request && WellServed(Callback(d, needed, vol), steps[1..], false)
  }

  function StepDevice(d: Device, s: Step): (r: Device)
    requires |d.ring| <= RING_CAPACITY
    ensures |r.ring| <= RING_CAPACITY
  {
    match s
    case PumpStep(supply, playing) => Pump(d, supply, playing)
    case CallbackStep(needed, vol) => Callback(d, needed, vol)
  }

  function RunFrom(d: Device, steps: seq<Step>): Device
    requires |d.ring| <= RING_CAPACITY
    decreases |steps|
  {
    if steps == [] then d else RunFrom(StepDevice(d, steps[0]), steps[1..])
  }

  /** After a completed pump the ring and the queue hold the low-water mark, and further pumps keep it. */
  lemma {:induction false} PumpKeepsLevel(d: Device, supply: seq<Frame>)
    requires |d.ring| <= RING_CAPACITY
    ensures Level(PumpLoop(d, supply)) >= Level(d)
    decreases |supply|
  {
    if WantsFrame(d) && supply != [] && RING_CAPACITY - |d.ring| >= FRAME_SIZE {
      PumpKeepsLevel(PushCounted(d, supply[0]), supply[1..]);
    }
  }

  lemma FullCallbackIsFed(d: Device, needed: nat, vol: real)
    requires Bounded(d) && !WantsFrame(d) && needed <= d.request
    ensures var r := Callback(d, needed, vol);
      r.dry == d.dry && r.starved == d.starved && !r.silent
  {
    CallbackBounded(d, needed, vol);
    hide Trimmed, Scaled, Whole;
  }

  /**
   No starvation: once the device's largest request is published, if a pump
   completes between every two callbacks, no callback ever runs dry and
   `output_starved` never moves, however many other pumps are interleaved.
   */
  lemma {:induction false} NeverStarved(d: Device, steps: seq<Step>, ready: bool)
    requires Bounded(d) && |d.ring| <= RING_CAPACITY
    requires WellServed(d, steps, ready) && (ready ==> !WantsFrame(d))
    ensures RunFrom(d, steps).dry == d.dry && RunFrom(d, steps).starved == d.starved
    decreases |steps|
  {
    if steps != [] {
      var s := steps[0];
      match s
      case PumpStep(supply, playing) =>
        hide Bounded, LowWater, PumpLoop;
        PumpReady(d, supply, playing);
        NeverStarved(Pump(d, supply, playing), steps[1..], ready || Completes(d, s));
      case CallbackStep(needed, vol) =>
        assert d.request <= MAX_REQUEST;
        hide Bounded, LowWater, Callback;
        FullCallbackIsFed(d, needed, vol);
        CallbackBounded(d, needed, vol);
        NeverStarved(Callback(d, needed, vol), steps[1..], false);
    }
  }

  /** The same from any state a run of pumps and callbacks can reach. */
  lemma ServedRunsNeverStarve(before: seq<Step>, steps: seq<Step>)
    requires forall s <- before :: Modest(s)
    requires WellServed(Run(before).device, steps, false)
    ensures var d := Run(before).device;
      RunFrom(d, steps).dry == d.dry && RunFrom(d, steps).starved == d.starved
  {
    LatencyBounded(before);
    NeverStarved(Run(before).device, steps, false);
  }

  lemma PumpReady(d: Device, supply: seq<Frame>, playing: nat)
    requires Bounded(d) && |d.ring| <= RING_CAPACITY
    ensures
      var r := Pump(d, supply, playing);
      && Bounded(r) && r.dry == d.dry && r.starved == d.starved
      && (!WantsFrame(d) ==> !WantsFrame(r))
      && (!WantsFrame(PumpLoop(d, supply)) ==> !WantsFrame(r))
  {
    hide PumpLoop, LowWater;
    PumpBounded(d, supply);
    PumpConserves(d, supply);
    PumpKeepsLevel(d, supply);
  }

  // ── volume, and what the callback counts ──

  /** Sample for sample, `out` is `input` times `vol`. */
  ghost predicate AtVolume(out: seq<real>, input: seq<real>, vol: real) {
    |out| == |input| && forall k | 0 <= k < |input| :: out[k] == input[k] * vol
  }

  lemma AtVolumeConcat(out: seq<real>, input: seq<real>, more: seq<real>, vol: real)
    requires AtVolume(out, input, vol)
    ensures AtVolume(out + Scaled(more, vol), input + more, vol)
  {
  }

  /** With the volume fixed, what leaves the ring enters the queue times the volume. */
  lemma {:induction false} VolumeApplied(steps: seq<Step>, vol: real)
    requires forall s <- steps :: s.CallbackStep? ==> s.vol == vol
    ensures var h := Run(steps); AtVolume(h.drained, h.taken, vol)
  {
    hide PumpLoop, Offered, Trimmed, Whole, Scaled, AtVolume, Callback;
    if steps != [] {
      var h, s := Run(steps[..|steps| - 1]), steps[|steps| - 1];
      VolumeApplied(steps[..|steps| - 1], vol);
      if s.CallbackStep? {
        AtVolumeConcat(h.drained, h.taken, h.device.ring[..Whole(|h.device.ring|)], vol);
      }
    } else {
      NothingAtVolume(vol);
    }
  }

  lemma NothingAtVolume(vol: real)
    ensures AtVolume([], [], vol)
  {
  }

  /**
   One callback, told by how many samples it plays. It plays all it was asked
   for, or everything there is; it is dry if it plays too few though it plays
   some or the callback before it was satisfied; and that is starvation if
   somebody was playing. It publishes what is left and its largest request.
   */
  lemma CallbackExactly(h: History, needed: nat, vol: real)
    requires |h.device.ring| <= RING_CAPACITY
    ensures
      var (d, n) := (h.device, Next(h, CallbackStep(needed, vol)));
      var (e, p) := (n.device, |n.played| - |h.played|);
      && 0 <= p <= needed && (p < needed ==> e.queue == [])
      && e.silent == (p < needed)
      && e.dry == d.dry + (if p < needed && (p > 0 || !d.silent) then 1 else 0)
      && e.starved == d.starved + (if p < needed && (p > 0 || !d.silent) && d.playing > 0 then 1 else 0)
      && e.queued == |e.queue| && e.request >= needed && e.request >= d.request && (e.request == needed || e.request == d.request)
      && e.overflow == d.overflow && e.playing == d.playing
      && |e.ring| < FRAME_SIZE && |n.taken| - |h.taken| == |d.ring| - |e.ring|
  {
    hide Trimmed, Scaled;
  }
}
