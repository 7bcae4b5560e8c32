/** The pump with its engine: frames rendered until the output is full, nobody plays or the ring refuses. */
module EnginePumps {
  import opened Config
  import opened Wrappers
  import opened Engines = Engine
  import opened PlayoutEngines
  import opened Audio
  import Output
  import OutputRuns

  /** What the decoders and the listener's gains answer for one frame. */
  datatype Turn = Turn(answers: string -> Answer, gains: Gains)

  /** What a pump leaves, and the frames it pushed in order. */
  datatype Pumped = Pumped(engine: Engine, device: Output.Device, supply: seq<Frame>)

  function MixOf(senders: map<string, Sender>, p: Pull, s: Gains, names: seq<string>): Frame
    requires forall n <- names :: n in senders
  {
    seq(FRAME_SIZE, k requires 0 <= k < FRAME_SIZE => MixedAt(senders, p, s, names, k))
  }

  /** The call the pump makes next: every frame is told how many the output still takes back to back. */
  function PullFor(d: Output.Device, now: int, turn: Turn): Pull {
    Pull(now, Output.PullOf(Output.Level(d), Output.LowWater(d.request)), turn.answers)
  }

  /** The pump from its frame number `k` on; `names` is the order the engine's map is visited in. */
  function PumpFrom(e: Engine, d: Output.Device, now: int, names: seq<string>, turns: nat -> Turn, k: nat): (r: Pumped)
    requires |d.ring| <= Output.RING_CAPACITY && forall n <- names :: n in e.senders
    ensures |r.device.ring| <= Output.RING_CAPACITY
    decreases Output.RING_CAPACITY - |d.ring|
  {
    if !Output.WantsFrame(d) then Pumped(e, d, [])
    else
      var p := PullFor(d, now, turns(k));
      if !Plays(e, p) then Pumped(RenderFrame(e, p), d, [])
      else
        var frame := MixOf(e.senders, p, turns(k).gains, names);
        var pushed := Output.PushCounted(d, frame);
        if Output.RING_CAPACITY - |d.ring| < FRAME_SIZE then Pumped(RenderFrame(e, p), pushed, [frame])
        else
          var rest := PumpFrom(RenderFrame(e, p), pushed, now, names, turns, k + 1);
          rest.(supply := [frame] + rest.supply)
  }

  /** One round of the pump: whatever it renders and pushes, and whether it goes on. */
  function Turned(e: Engine, d: Output.Device, now: int, names: seq<string>, turn: Turn): (Engine, Output.Device, bool)
    requires |d.ring| <= Output.RING_CAPACITY && forall n <- names :: n in e.senders
  {
    var p := PullFor(d, now, turn);
    if !Output.WantsFrame(d) then (e, d, false)
    else if !Plays(e, p) then (RenderFrame(e, p), d, false)
    else
      (RenderFrame(e, p), Output.PushCounted(d, MixOf(e.senders, p, turn.gains, names)),
       Output.RING_CAPACITY - |d.ring| >= FRAME_SIZE)
  }

  lemma PumpTurns(e: Engine, d: Output.Device, now: int, names: seq<string>, turns: nat -> Turn, k: nat)
    requires |d.ring| <= Output.RING_CAPACITY && forall n <- names :: n in e.senders
    ensures
      var (next, after, more) := Turned(e, d, now, names, turns(k));
      var r := PumpFrom(e, d, now, names, turns, k);
      && |after.ring| <= Output.RING_CAPACITY && (forall n <- names :: n in next.senders)
      && r.engine == (if more then PumpFrom(next, after, now, names, turns, k + 1).engine else next)
      && r.device == if more then PumpFrom(next, after, now, names, turns, k + 1).device else after
  {
    hide RenderFrame, Plays, MixOf, Output.LowWater;
    KeepsNames(e, PullFor(d, now, turns(k)));
  }

  /** One pump: the engine moves on, the ring fills, and the playing count is published. */
  ghost function EnginePump(e: Engine, d: Output.Device, now: int, names: seq<string>, turns: nat -> Turn): (r: Pumped)
    requires |d.ring| <= Output.RING_CAPACITY && forall n <- names :: n in e.senders
    ensures |r.device.ring| <= Output.RING_CAPACITY
  {
    var r := PumpFrom(e, d, now, names, turns, 0);
    r.(device := r.device.(playing := Playing(r.engine.senders)))
  }

  /** What the engine renders is a supply in the sense of `Output`, so everything proved of runs of pumps holds of these. */
  lemma {:induction false} PumpIsOutputPump(e: Engine, d: Output.Device, now: int, names: seq<string>, turns: nat -> Turn, k: nat)
    requires |d.ring| <= Output.RING_CAPACITY && forall n <- names :: n in e.senders
    ensures var r := PumpFrom(e, d, now, names, turns, k); r.device == Output.PumpLoop(d, r.supply)
    decreases Output.RING_CAPACITY - |d.ring|
  {
    hide RenderFrame, Plays, Output.LowWater, MixOf;
    if Output.WantsFrame(d) && Plays(e, PullFor(d, now, turns(k))) {
      KeepsNames(e, PullFor(d, now, turns(k)));
      var frame := MixOf(e.senders, PullFor(d, now, turns(k)), turns(k).gains, names);
      var pushed := Output.PushCounted(d, frame);
      if Output.RING_CAPACITY - |d.ring| >= FRAME_SIZE {
        PumpIsOutputPump(RenderFrame(e, PullFor(d, now, turns(k))), pushed, now, names, turns, k + 1);
        var rest := PumpFrom(RenderFrame(e, PullFor(d, now, turns(k))), pushed, now, names, turns, k + 1).supply;
        assert ([frame] + rest)[1..] == rest;
      }
    }
  }

  lemma KeepsNames(e: Engine, p: Pull)
    ensures RenderFrame(e, p).senders.Keys == e.senders.Keys
  {
    hide RenderSender, Touches;
  }

  /** A frame nobody played leaves nobody playing. */
  lemma NobodyPlays(e: Engine, p: Pull)
    requires !Plays(e, p)
    ensures Playing(RenderFrame(e, p).senders) == 0
  {
    var after := RenderFrame(e, p).senders;
    forall n | n in after
      ensures !after[n].stream.playing
    {
      SilentFrame(e.senders[n], InputOf(p, n));
    }
    assert (set n | n in after.Keys && n in after && after[n].stream.playing) == {};
  }

  lemma SilentFrame(x: Sender, i: Streams.Input)
    ensures Streams.Render(x.stream, i).op == None ==> !Streams.Render(x.stream, i).stream.playing
  {
    hide Jitter.Pop, Jitter.Skip, Jitter.PopKind, Streams.ShouldAccelerate, Streams.Conceal;
  }

  /** A pump stops because the output is full, nobody plays any more, or the ring refused samples. */
  lemma {:induction false} PumpStops(e: Engine, d: Output.Device, now: int, names: seq<string>, turns: nat -> Turn, k: nat)
    requires |d.ring| <= Output.RING_CAPACITY && forall n <- names :: n in e.senders
    ensures
      var r := PumpFrom(e, d, now, names, turns, k);
      || !Output.WantsFrame(r.device)
      || Playing(r.engine.senders) == 0
      || r.device.overflow > d.overflow
    ensures PumpFrom(e, d, now, names, turns, k).device.overflow >= d.overflow
    decreases Output.RING_CAPACITY - |d.ring|
  {
    hide RenderFrame, Plays, Output.LowWater, MixOf, Playing;
    if Output.WantsFrame(d) {
      var p := PullFor(d, now, turns(k));
      if !Plays(e, p) {
        NobodyPlays(e, p);
      } else {
        KeepsNames(e, p);
        var frame := MixOf(e.senders, p, turns(k).gains, names);
        if Output.RING_CAPACITY - |d.ring| >= FRAME_SIZE {
          PumpStops(RenderFrame(e, p), Output.PushCounted(d, frame), now, names, turns, k + 1);
        }
      }
    }
  }

  /**
   On a device within its bound a pump that publishes anyone as playing has
   filled the output. `SystemRuns` draws the consequence for `output_starved`.
   */
  lemma PlayingPumpCompletes(e: Engine, d: Output.Device, now: int, names: seq<string>, turns: nat -> Turn)
    requires OutputRuns.Bounded(d) && |d.ring| <= Output.RING_CAPACITY && forall n <- names :: n in e.senders
    ensures
      var r := EnginePump(e, d, now, names, turns);
      && r.device == Output.Pump(d, r.supply, Playing(r.engine.senders))
      && OutputRuns.Bounded(r.device)
      && (r.device.playing > 0 ==> OutputRuns.Completes(d, Output.PumpStep(r.supply, r.device.playing)))
  {
    hide PumpFrom, Output.PumpLoop, Output.LowWater, Playing;
    var r := PumpFrom(e, d, now, names, turns, 0);
    PumpIsOutputPump(e, d, now, names, turns, 0);
    PumpStops(e, d, now, names, turns, 0);
    OutputRuns.PumpReady(d, r.supply, Playing(r.engine.senders));
    OutputRuns.PumpBounded(d, r.supply);
  }
}

/** The lead over a real pump: an idle sender that the pump starts by depth still holds its target when the pump is done. */
module PumpLead {
  import opened Config
  import opened Wrappers
  import opened Engines = Engine
  import opened Streams
  import opened EnginePumps
  import opened Audio
  import Lead
  import Jitter
  import StreamRuns
  import Output

  /** The pull the next frame is told. */
  function PullNow(d: Output.Device): nat {
    Output.PullOf(Output.Level(d), Output.LowWater(d.request))
  }

  /** Frames a pump still renders at most: what the output takes, and no more than one past a full ring. */
  function FramesLeft(d: Output.Device): nat
    requires |d.ring| <= Output.RING_CAPACITY
  {
    if !Output.WantsFrame(d) then 0
    else
      var pull, room := PullNow(d), (Output.RING_CAPACITY - |d.ring|) / FRAME_SIZE + 1;
      if pull < room then pull else room
  }

  lemma FrameUsesOne(d: Output.Device, frame: Frame)
    requires |d.ring| <= Output.RING_CAPACITY && Output.WantsFrame(d)
    ensures FramesLeft(d) > 0
    ensures FramesLeft(d) <= PullNow(d)
    ensures FramesLeft(d) <= RING_BUF_FRAMES + 1 <= PLAYOUT_ACCEL_MIN_OBSERVED
    ensures
      if Output.RING_CAPACITY - |d.ring| >= FRAME_SIZE then FramesLeft(Output.PushCounted(d, frame)) == FramesLeft(d) - 1
      else FramesLeft(d) == 1
    ensures var after := Output.PushCounted(d, frame); PullNow(after) <= PullNow(d)
  {
    hide Output.LowWater;
  }

  /** A playing stream with enough for the rest of the pump, too young to drop before its last frame. */
  ghost predicate Stocked(s: Stream, left: nat) {
    && Streams.WellFormed(s) && s.playing
    && |s.jitter.content| >= Target(s) + left && |s.depths| + left <= PLAYOUT_ACCEL_MIN_OBSERVED
  }

  lemma StockedFrame(s: Stream, i: Input, left: nat)
    requires left > 0 && Stocked(s, left)
    ensures Render(s, i).op.Some? && Stocked(Render(s, i).stream, left - 1)
  {
    RenderWellFormed(s, i);
    Lead.RenderKeepsTarget(s, i);
    Lead.FrameTakesOne(s, i);
    StreamRuns.AccelerationSafe(s, i);
    PlaysSomething(s, i);
    YoungDrop(s, i);
    hide Render, Target, Streams.WellFormed, Depths.Recent;
  }

  lemma PlaysSomething(s: Stream, i: Input)
    requires Streams.WellFormed(s) && s.playing && s.jitter.content != map[]
    ensures Render(s, i).op.Some?
  {
    hide Jitter.Pop, ShouldAccelerate, Conceal;
  }

  lemma YoungDrop(s: Stream, i: Input)
    ensures |Depths.Recent(s.depths + [|s.jitter.content|])| <= |s.depths| + 1
  {
  }

  /** Whoever has waited for a lead of `p` frames on top of its target holds it. */
  predicate LeadReached(s: Stream, now: int, p: nat) {
    Jitter.Elapsed(now, s.firstIdle.GetOr(now)) >= FRAME_NS * (Target(s) + p) ==> |s.jitter.content| >= Target(s) + p
  }

  /** An idle stream that no frame of a pump announced as `pull` frames starts for its waiting alone. */
  ghost predicate ByDepth(s: Stream, now: int, pull: nat) {
    && Streams.WellFormed(s) && !s.playing
    && (forall p | 0 < p <= pull :: LeadReached(s, now, p))
  }

  /**
   Whatever frame of the pump first finds its lead buffered qualifies the
   sender: those before it, with longer leads, did not start it.
   */
  lemma StartByDepth(s: Stream, now: int, pull: nat, p: nat)
    requires Streams.WellFormed(s) && !s.playing && 0 < p <= pull
    requires |s.jitter.content| >= Target(s) + p
    requires p == pull || Jitter.Elapsed(now, s.firstIdle.GetOr(now)) < FRAME_NS * (Target(s) + p + 1)
    ensures ByDepth(s, now, pull)
  {
    forall q | 0 < q <= pull
      ensures LeadReached(s, now, q)
    {
      if q > p {
        LongerLead(Target(s) + p + 1, Target(s) + q);
      }
    }
  }

  lemma LongerLead(a: nat, b: nat)
    requires a <= b
    ensures FRAME_NS * a <= FRAME_NS * b
  {
  }

  lemma IdleFrame(s: Stream, i: Input, left: nat)
    requires ByDepth(s, i.now, i.pull) && 0 < left <= i.pull && left <= PLAYOUT_ACCEL_MIN_OBSERVED
    ensures
      var r := Render(s, i);
      if r.op.Some? then Stocked(r.stream, left - 1) else ByDepth(r.stream, i.now, i.pull)
  {
    RenderWellFormed(s, i);
    Lead.RenderKeepsTarget(s, i);
    assert LeadReached(s, i.now, i.pull);
    if s.jitter.content != map[] && Ready(s, i) {
      Lead.FirstFrameTakesOne(s, i);
      hide Render, Target, Streams.WellFormed;
    } else {
      StaysIdle(s, i);
      hide Render, Target, Streams.WellFormed;
      forall p | 0 < p <= i.pull
        ensures LeadReached(Render(s, i).stream, i.now, p)
      {
        assert LeadReached(s, i.now, p);
      }
    }
  }

  /** A render that does not start an idle stream keeps its packets, and its waiting time while there are any. */
  lemma StaysIdle(s: Stream, i: Input)
    requires Streams.WellFormed(s) && !s.playing && (s.jitter.content == map[] || !Ready(s, i))
    ensures var r := Render(s, i);
      && r.op == None && !r.stream.playing && r.stream.jitter == s.jitter
      && r.stream.firstIdle == if s.jitter.content == map[] then None else Some(s.firstIdle.GetOr(i.now))
  {
    hide Streams.WellFormed;
  }

  /** The stream of `name` in an engine after one more frame. */
  lemma FrameOf(e: Engine, p: Pull, name: string)
    requires name in e.senders
    ensures name in RenderFrame(e, p).senders
    ensures RenderFrame(e, p).senders[name].stream == Render(e.senders[name].stream, InputOf(p, name)).stream
    ensures Render(e.senders[name].stream, InputOf(p, name)).op.Some? ==> Plays(e, p)
  {
    hide Render, Touches;
  }

  lemma {:induction false} StockedPump(e: Engine, d: Output.Device, now: int, names: seq<string>, turns: nat -> Turn, k: nat, name: string)
    requires |d.ring| <= Output.RING_CAPACITY && forall n <- names :: n in e.senders
    requires name in e.senders && Stocked(e.senders[name].stream, FramesLeft(d))
    ensures
      var r := PumpFrom(e, d, now, names, turns, k).engine;
      name in r.senders && Stocked(r.senders[name].stream, 0)
    decreases Output.RING_CAPACITY - |d.ring|
  {
    hide RenderFrame, Plays, MixOf, Render, Output.LowWater, Stocked, FramesLeft;
    if Output.WantsFrame(d) {
      var p := PullFor(d, now, turns(k));
      var frame := MixOf(e.senders, p, turns(k).gains, names);
      var s, left := e.senders[name].stream, FramesLeft(d);
      FrameUsesOne(d, frame);
      StockedFrame(s, InputOf(p, name), left);
      FrameOf(e, p, name);
      KeepsNames(e, p);
      var next := RenderFrame(e, p);
      StockedLess(next.senders[name].stream, left - 1, 0);
      if Output.RING_CAPACITY - |d.ring| >= FRAME_SIZE {
        var pushed := Output.PushCounted(d, frame);
        StockedLess(next.senders[name].stream, left - 1, FramesLeft(pushed));
        StockedPump(next, pushed, now, names, turns, k + 1, name);
      }
    } else {
      NoFramesLeft(d);
    }
  }

  lemma NoFramesLeft(d: Output.Device)
    requires |d.ring| <= Output.RING_CAPACITY && !Output.WantsFrame(d)
    ensures FramesLeft(d) == 0
  {
  }

  lemma StockedLess(s: Stream, a: nat, b: nat)
    requires Stocked(s, a) && b <= a
    ensures Stocked(s, b)
  {
  }

  /**
   For every engine, every output and every request: a pump that starts an idle
   sender by depth, at its first frame or at any later one, leaves it with its
   target still buffered once all its frames are taken.
   */
  lemma {:induction false} PumpKeepsLead(e: Engine, d: Output.Device, now: int, names: seq<string>, turns: nat -> Turn, k: nat, name: string)
    requires |d.ring| <= Output.RING_CAPACITY && forall n <- names :: n in e.senders
    requires name in e.senders && ByDepth(e.senders[name].stream, now, PullNow(d))
    ensures
      var r := PumpFrom(e, d, now, names, turns, k).engine;
      && name in r.senders
      && var s := r.senders[name].stream;
         s.playing ==> |s.jitter.content| >= Target(s)
    decreases Output.RING_CAPACITY - |d.ring|
  {
    hide RenderFrame, Plays, MixOf, Render, Target, Output.LowWater, Output.PullOf, FramesLeft, Streams.WellFormed, LeadReached;
    if Output.WantsFrame(d) {
      var p := PullFor(d, now, turns(k));
      var frame := MixOf(e.senders, p, turns(k).gains, names);
      var s, left := e.senders[name].stream, FramesLeft(d);
      FrameUsesOne(d, frame);
      IdleFrame(s, InputOf(p, name), left);
      FrameOf(e, p, name);
      KeepsNames(e, p);
      var next := RenderFrame(e, p);
      if Plays(e, p) && Output.RING_CAPACITY - |d.ring| >= FRAME_SIZE {
        var pushed := Output.PushCounted(d, frame);
        if Render(s, InputOf(p, name)).op.Some? {
          StockedLess(next.senders[name].stream, left - 1, FramesLeft(pushed));
          StockedPump(next, pushed, now, names, turns, k + 1, name);
        } else {
          PumpKeepsLead(next, pushed, now, names, turns, k + 1, name);
        }
      }
    }
  }

  /** A pump renders at most nine frames, the last into a full ring. */
  lemma {:induction false} PumpFramesBounded(e: Engine, d: Output.Device, now: int, names: seq<string>, turns: nat -> Turn, k: nat)
    requires |d.ring| <= Output.RING_CAPACITY && forall n <- names :: n in e.senders
    ensures |PumpFrom(e, d, now, names, turns, k).supply| <= FramesLeft(d)
    ensures FramesLeft(d) <= RING_BUF_FRAMES + 1
    decreases Output.RING_CAPACITY - |d.ring|
  {
    hide RenderFrame, Plays, MixOf, Output.LowWater, FramesLeft;
    if Output.WantsFrame(d) {
      var p := PullFor(d, now, turns(k));
      var frame := MixOf(e.senders, p, turns(k).gains, names);
      FrameUsesOne(d, frame);
      KeepsNames(e, p);
      if Plays(e, p) && Output.RING_CAPACITY - |d.ring| >= FRAME_SIZE {
        PumpFramesBounded(RenderFrame(e, p), Output.PushCounted(d, frame), now, names, turns, k + 1);
      }
    } else {
      NoFramesLeft(d);
    }
  }
}

/** The pump as it runs, over its engine, its mix buffer and the device's ring. */
module Pumps {
  import opened Config
  import opened Wrappers
  import opened Engines = Engine
  import opened PlayoutEngines
  import opened Audio
  import opened PlaybackDevice
  import opened EnginePumps
  import opened VirtualOutput
  import Jitter
  import Playback
  import Output

  class PlayoutPump {
    const engine: PlayoutEngine
    const mix: array<real>
    /** Without a device: the instant up to which the virtual output is covered. */
    var virtualUntil: int

    constructor (now: int)
      ensures fresh(engine) && fresh(mix) && mix.Length == FRAME_SIZE && engine.View() == FRESH && virtualUntil == now
    {
      engine := new PlayoutEngine();
      mix := new real[FRAME_SIZE](_ => 0.0);
      virtualUntil := now;
    }

    ghost function View(): Virtual
      reads this, engine
    {
      Virtual(engine.View(), virtualUntil)
    }

    /** The pump without a device: frames are rendered in real time and discarded. */
    method PumpWithoutDevice(signals: PlayoutSignals, now: int, names: seq<string>, turns: nat -> Turn)
      requires mix.Length == FRAME_SIZE && Enumerates(names, engine.streams)
      modifies `virtualUntil, engine, mix, signals`playing
      ensures View() == VirtualPump(old(View()), now, turns).0 && signals.playing == Playing(engine.streams)
      ensures Enumerates(names, engine.streams)
    {
      hide RenderFrame, Plays, MixedAt, LevelAt, Output.LowWater, Output.PullOf;
      ghost var goal := VirtualPump(View(), now, turns).0;
      if Jitter.Elapsed(now, virtualUntil) > MAX_LAG {
        virtualUntil := now;
      }
      var k := 0;
      while LevelAt(virtualUntil, now) < Output.LowWater(0)
        modifies `virtualUntil, engine, mix
        invariant Enumerates(names, engine.streams)
        invariant VirtualFrom(View(), now, turns, k).0 == goal
        decreases now + 2 * FRAME_NS - virtualUntil
      {
        CoveredInTime(virtualUntil, now);
        var p := VirtualPull(virtualUntil, now, turns(k));
        KeepsNames(engine.View(), p);
        var n := engine.RenderFrame(p, turns(k).gains, names, mix);
        if n == None {
          virtualUntil := now;
          break;
        }
        virtualUntil := virtualUntil + FRAME_NS;
        k := k + 1;
      }
      var playing := engine.CountPlaying();
      signals.playing := playing;
    }

    /**
     Render frames until the output holds its low-water mark, no sender is
     playing or the ring is full, then publish the playing count.
     */
    method Pump(ring: Ring, ghost queue: Playback.PlaybackQueue, signals: PlayoutSignals, glitches: Glitches,
      now: int, names: seq<string>, turns: nat -> Turn)
      requires mix.Length == FRAME_SIZE && |ring.items| <= Output.RING_CAPACITY && Enumerates(names, engine.streams)
      modifies `virtualUntil, engine, mix, ring, signals`playing, glitches`overflow
      ensures |ring.items| <= Output.RING_CAPACITY && Enumerates(names, engine.streams) && virtualUntil == now
      ensures
        var r := EnginePump(old(engine.View()), old(DeviceOf(ring, queue, signals, glitches)), now, names, turns);
        engine.View() == r.engine && DeviceOf(ring, queue, signals, glitches) == r.device
    {
      hide PumpFrom, Turned, Output.LowWater;
      ghost var goal := PumpFrom(engine.View(), DeviceOf(ring, queue, signals, glitches), now, names, turns, 0);
      virtualUntil := now;
      var request := signals.request;
      var k := 0;
      var more := true;
      while more
        modifies engine, mix, ring, glitches`overflow
        invariant |ring.items| <= Output.RING_CAPACITY && Enumerates(names, engine.streams) && request == signals.request
        invariant
          var (e, d) := (engine.View(), DeviceOf(ring, queue, signals, glitches));
          && goal.engine == (if more then PumpFrom(e, d, now, names, turns, k).engine else e)
          && goal.device == if more then PumpFrom(e, d, now, names, turns, k).device else d
        decreases more, Output.RING_CAPACITY - |ring.items|
      {
        PumpTurns(engine.View(), DeviceOf(ring, queue, signals, glitches), now, names, turns, k);
        more := RenderOne(ring, queue, signals, glitches, now, names, turns(k), request);
        k := k + 1;
      }
      var playing := engine.CountPlaying();
      signals.playing := playing;
    }

    /** One round of the loop; false ends it. */
    method RenderOne(ring: Ring, ghost queue: Playback.PlaybackQueue, signals: PlayoutSignals, glitches: Glitches,
      now: int, names: seq<string>, turn: Turn, request: nat) returns (more: bool)
      requires mix.Length == FRAME_SIZE && |ring.items| <= Output.RING_CAPACITY && Enumerates(names, engine.streams)
      requires request == signals.request
      modifies engine, mix, ring, glitches`overflow
      ensures |ring.items| <= Output.RING_CAPACITY && Enumerates(names, engine.streams)
      ensures (engine.View(), DeviceOf(ring, queue, signals, glitches), more) ==
        Turned(old(engine.View()), old(DeviceOf(ring, queue, signals, glitches)), now, names, turn)
      ensures more ==> |ring.items| > |old(ring.items)|
    {
      hide RenderFrame, Plays, MixOf, MixedAt, Output.LowWater, Output.PullOf;
      var level := |ring.items| + signals.queued;
      if level >= Output.LowWater(request) {
        return false;
      }
      var p := Pull(now, Output.PullOf(level, Output.LowWater(request)), turn.answers);
      KeepsNames(engine.View(), p);
      ghost var senders := engine.streams;
      var n := engine.RenderFrame(p, turn.gains, names, mix);
      if n == None {
        return false;
      }
      MixIsFrame(senders, p, turn.gains, names, mix[..]);
      var room := Output.RING_CAPACITY - |ring.items|;
      PushCounted(ring, mix[..], glitches);
      return room >= FRAME_SIZE;
    }
  }

  lemma MixIsFrame(senders: map<string, Sender>, p: Pull, s: Gains, names: seq<string>, mix: seq<real>)
    requires |mix| == FRAME_SIZE && forall n <- names :: n in senders
    requires forall k | 0 <= k < FRAME_SIZE :: mix[k] == MixedAt(senders, p, s, names, k)
    ensures mix == MixOf(senders, p, s, names)
  {
    hide MixedAt;
  }
}
