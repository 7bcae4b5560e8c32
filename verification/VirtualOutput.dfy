/** The pump without a device: a virtual output that takes one frame per 20 ms of wall clock. */
module VirtualOutput {
  import opened Config
  import opened Engines = Engine
  import opened PlayoutEngines
  import opened EnginePumps
  import Jitter
  import Output

  /** How far behind the clock the virtual output may be and still catch up. */
  const MAX_LAG: nat := FRAME_NS * JITTER_BUF_MAX

  /** The engine, and the instant up to which the virtual output is covered. */
  datatype Virtual = Virtual(engine: Engine, until: int)

  /** Samples the virtual output still holds at `now`; the clock is read in whole microseconds. */
  function LevelAt(until: int, now: int): nat {
    Jitter.Elapsed(until, now) / 1000 * SAMPLE_RATE / 1_000_000
  }

  function VirtualPull(until: int, now: int, turn: Turn): Pull {
    Pull(now, Output.PullOf(LevelAt(until, now), Output.LowWater(0)), turn.answers)
  }

  /** Two frames ahead, in time rather than in samples. */
  lemma CoveredInTime(until: int, now: int)
    ensures LevelAt(until, now) >= Output.LowWater(0) <==> until - now >= 2 * FRAME_NS
  {
  }

  /** The frames rendered from number `k` on until the output is covered or nobody plays; and how many. */
  function VirtualFrom(v: Virtual, now: int, turns: nat -> Turn, k: nat): (r: (Virtual, nat))
    decreases now + 2 * FRAME_NS - v.until
  {
    CoveredInTime(v.until, now);
    if LevelAt(v.until, now) >= Output.LowWater(0) then (v, 0)
    else
      var p := VirtualPull(v.until, now, turns(k));
      if !Plays(v.engine, p) then (Virtual(RenderFrame(v.engine, p), now), 0)
      else
        var (r, n) := VirtualFrom(Virtual(RenderFrame(v.engine, p), v.until + FRAME_NS), now, turns, k + 1);
        (r, n + 1)
  }

  /** A lag beyond the jitter ring is forgotten. */
  function CaughtUp(v: Virtual, now: int): Virtual {
    if Jitter.Elapsed(now, v.until) > MAX_LAG then v.(until := now) else v
  }

  function VirtualPump(v: Virtual, now: int, turns: nat -> Turn): (Virtual, nat) {
    VirtualFrom(CaughtUp(v, now), now, turns, 0)
  }

  /** The output is covered by two frames, and by less than three. */
  predicate Aligned(v: Virtual, now: int) {
    now + 2 * FRAME_NS <= v.until < now + 3 * FRAME_NS
  }

  /** A pump covers the output, one frame for each 20 ms, or leaves nobody playing and the output dry. */
  lemma {:induction false} VirtualKeepsTime(v: Virtual, now: int, turns: nat -> Turn, k: nat)
    ensures
      var (r, n) := VirtualFrom(v, now, turns, k);
      && (n > 0 ==> v.until + (n - 1) * FRAME_NS < now + 2 * FRAME_NS)
      && ((Playing(r.engine.senders) == 0 && r.until == now)
          || (r.until == v.until + n * FRAME_NS && now + 2 * FRAME_NS <= r.until))
    decreases now + 2 * FRAME_NS - v.until
  {
    hide RenderFrame, Plays, LevelAt, Output.LowWater, Output.PullOf, Playing;
    CoveredInTime(v.until, now);
    if LevelAt(v.until, now) < Output.LowWater(0) {
      var p := VirtualPull(v.until, now, turns(k));
      if Plays(v.engine, p) {
        VirtualKeepsTime(Virtual(RenderFrame(v.engine, p), v.until + FRAME_NS), now, turns, k + 1);
      } else {
        NobodyPlays(v.engine, p);
      }
    }
  }

  /** Whatever the clock did, one pump renders at most the lag it forgives and two frames. */
  lemma VirtualPumpBounded(v: Virtual, now: int, turns: nat -> Turn)
    ensures VirtualPump(v, now, turns).1 <= JITTER_BUF_MAX + 2
  {
    VirtualKeepsTime(CaughtUp(v, now), now, turns, 0);
    hide VirtualFrom, Playing;
  }

  datatype Tick = Tick(at: int, turns: nat -> Turn)

  /** A run of pumps: what they leave, and the frames they rendered. */
  function VirtualRun(v: Virtual, ticks: seq<Tick>): (Virtual, nat)
    decreases |ticks|
  {
    if ticks == [] then (v, 0)
    else
      var (next, n) := VirtualPump(v, ticks[0].at, ticks[0].turns);
      var (r, more) := VirtualRun(next, ticks[1..]);
      (r, n + more)
  }

  /** Time goes on, no pump comes too late to catch up, and each of them leaves somebody playing. */
  ghost predicate PlaysThrough(v: Virtual, start: int, ticks: seq<Tick>)
    decreases |ticks|
  {
    ticks != [] ==>
      var (at, next) := (ticks[0].at, VirtualPump(v, ticks[0].at, ticks[0].turns).0);
      && start <= at && at - v.until <= MAX_LAG
      && Playing(next.engine.senders) > 0
      && PlaysThrough(next, at, ticks[1..])
  }

  function LastAt(start: int, ticks: seq<Tick>): int {
    if ticks == [] then start else ticks[|ticks| - 1].at
  }

  lemma AlignedStep(v: Virtual, start: int, now: int, turns: nat -> Turn)
    requires Aligned(v, start) && start <= now && now - v.until <= MAX_LAG
    requires Playing(VirtualPump(v, now, turns).0.engine.senders) > 0
    ensures
      var (r, n) := VirtualPump(v, now, turns);
      Aligned(r, now) && r.until == v.until + n * FRAME_NS
  {
    VirtualKeepsTime(v, now, turns, 0);
    hide VirtualFrom, Playing;
  }

  /**
   Real time: while somebody plays and the pump is not starved of time itself,
   the virtual output takes exactly one frame per 20 ms. Over any run the
   frames rendered differ from the time passed by less than one frame.
   */
  lemma {:induction false} RealTime(v: Virtual, start: int, ticks: seq<Tick>)
    requires Aligned(v, start) && PlaysThrough(v, start, ticks)
    ensures
      var (r, n) := VirtualRun(v, ticks);
      && Aligned(r, LastAt(start, ticks)) && r.until == v.until + n * FRAME_NS
      && LastAt(start, ticks) - start - FRAME_NS < n * FRAME_NS < LastAt(start, ticks) - start + FRAME_NS
    decreases |ticks|
  {
    hide VirtualPump, Playing;
    if ticks != [] {
      AlignedStep(v, start, ticks[0].at, ticks[0].turns);
      RealTime(VirtualPump(v, ticks[0].at, ticks[0].turns).0, ticks[0].at, ticks[1..]);
    }
  }
}
