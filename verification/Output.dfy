/**
 The two sides of the output at 48 kHz: the receive task's pump fills a ring,
 the device callback drains it. One pump call and one callback are atomic.
 */
module Output {
  import opened Config
  import opened Playback
  import opened Audio

  const RING_CAPACITY: nat := FRAME_SIZE * RING_BUF_FRAMES

  /**
   `queued` and `request` are what the callback publishes for the pump,
   `playing` what the pump publishes for the callback; the rest are the glitch
   counters.
   */
  datatype Device = Device(
    ring: seq<real>,
    queue: seq<real>,
    silent: bool,
    queued: nat,
    request: nat,
    playing: nat,
    overflow: nat,
    trimmed: nat,
    dry: nat,
    starved: nat)

  const FRESH := Device([], [], true, 0, 0, 0, 0, 0, 0, 0)

  function MaxNat(a: nat, b: nat): nat {
    if a < b then b else a
  }

  /** How full the output is kept: two frames, or one device request plus a frame. */
  function LowWater(request: nat): nat {
    MaxNat(PLAYOUT_OUTPUT_LOW_WATER, request + FRAME_SIZE)
  }

  /** What the pump believes the output holds. */
  function Level(d: Device): nat {
    |d.ring| + d.queued
  }

  function WantsFrame(d: Device): bool {
    Level(d) < LowWater(d.request)
  }

  /** The least number of frames that lifts a level to the low-water mark. */
  function PullOf(level: nat, lowWater: nat): nat {
    if level >= lowWater then 0 else (lowWater - level + FRAME_SIZE - 1) / FRAME_SIZE
  }

  /** Push what fits, counting the samples refused. */
  function PushCounted(d: Device, f: seq<real>): Device
    requires |d.ring| <= RING_CAPACITY
  {
    var n := MinNat(|f|, RING_CAPACITY - |d.ring|);
    d.(ring := d.ring + f[..n], overflow := d.overflow + |f| - n)
  }

  /** Render frames until the output is full, the ring is, or the supply of frames ends. */
  function PumpLoop(d: Device, supply: seq<Frame>): (r: Device)
    requires |d.ring| <= RING_CAPACITY
    ensures |r.ring| <= RING_CAPACITY
    decreases |supply|
  {
    if !WantsFrame(d) || supply == [] then d
    else
      var pushed := PushCounted(d, supply[0]);
      if RING_CAPACITY - |d.ring| < FRAME_SIZE then pushed else PumpLoop(pushed, supply[1..])
  }

  /** One pump: `supply` is what the engine would render, in order, before it has nothing to play. */
  function Pump(d: Device, supply: seq<Frame>, playing: nat): (r: Device)
    requires |d.ring| <= RING_CAPACITY
    ensures |r.ring| <= RING_CAPACITY
  {
    PumpLoop(d, supply).(playing := playing)
  }

  /** The whole frames of a ring. */
  function Whole(n: nat): (w: nat)
    ensures w <= n && n - w < FRAME_SIZE && w % FRAME_SIZE == 0
  {
    n - n % FRAME_SIZE
  }

  function Gain(s: real, vol: real): real {
    s * vol
  }

  function Scaled(samples: seq<real>, vol: real): (r: seq<real>)
    ensures |r| == |samples|
  {
    seq(|samples|, i requires 0 <= i < |samples| => Gain(samples[i], vol))
  }

  /** Whole frames move from the ring to the queue at the listener's volume. */
  function Drain(d: Device, vol: real): Device {
    var w := Whole(|d.ring|);
    d.(ring := d.ring[w..], queue := d.queue + Scaled(d.ring[..w], vol))
  }

  /** Trim to the safety cap, then take `needed` samples for the device. */
  function Take(d: Device, needed: nat): Device {
    var queue := Trimmed(d.queue, PLAYBACK_SAFETY_CAP, FADE);
    var rest := queue[MinNat(|queue|, needed)..];
    var dry := RunsDry(|queue|, needed, d.silent);
    Device(d.ring, rest, |queue| < needed, |rest|, MaxNat(d.request, needed), d.playing,
      d.overflow,
      d.trimmed + |d.queue| - |queue|,
      d.dry + if dry then 1 else 0,
      d.starved + if dry && d.playing > 0 then 1 else 0)
  }

  /** One output callback for `needed` mono samples. */
  function Callback(d: Device, needed: nat, vol: real): Device {
    Take(Drain(d, vol), needed)
  }

  datatype Step = PumpStep(supply: seq<Frame>, playing: nat) | CallbackStep(needed: nat, vol: real)

  /** The device, and every sample offered to it, moved out of the ring, moved into the queue, and played. */
  datatype History = History(
    device: Device,
    offered: seq<real>,
    taken: seq<real>,
    drained: seq<real>,
    played: seq<real>)

  const NO_HISTORY := History(FRESH, [], [], [], [])

  /** The samples the frames a pump pushes offer to the ring. */
  function Offered(d: Device, supply: seq<Frame>): seq<real>
    requires |d.ring| <= RING_CAPACITY
    decreases |supply|
  {
    if !WantsFrame(d) || supply == [] then []
    else supply[0] + if RING_CAPACITY - |d.ring| < FRAME_SIZE then [] else Offered(PushCounted(d, supply[0]), supply[1..])
  }

  function Next(h: History, s: Step): (r: History)
    requires |h.device.ring| <= RING_CAPACITY
    ensures |r.device.ring| <= RING_CAPACITY
  {
    var d := h.device;
    match s
    case PumpStep(supply, playing) =>
      h.(device := Pump(d, supply, playing), offered := h.offered + Offered(d, supply))
    case CallbackStep(needed, vol) =>
      var w := Whole(|d.ring|);
      var queue := Trimmed(Drain(d, vol).queue, PLAYBACK_SAFETY_CAP, FADE);
      History(Callback(d, needed, vol), h.offered,
        h.taken + d.ring[..w],
        h.drained + Scaled(d.ring[..w], vol),
        h.played + queue[..MinNat(|queue|, needed)])
  }

  function Run(steps: seq<Step>): (h: History)
    ensures |h.device.ring| <= RING_CAPACITY
  {
    if steps == [] then NO_HISTORY else Next(Run(steps[..|steps| - 1]), steps[|steps| - 1])
  }
}
