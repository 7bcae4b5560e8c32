/**
 A run of packets, pumps and callbacks that loses the lead: a device that asks
 for 9000 samples at once makes an idle sender wait for eleven frames on top of
 its target, and the eleven are taken by two pumps.
 */
module LeadRuns {
  import opened Config
  import opened Wrappers
  import opened Serial
  import opened Jitter
  import opened Streams
  import opened Engines = Engine
  import opened PlayoutEngines
  import opened EnginePumps
  import opened PumpLead
  import opened SystemRuns
  import Lead
  import Output
  import OutputRuns
  import Playback

  const NAME := "a"
  const NAMES := [NAME]

  /** The engine has one sender, whose stream is `s`. */
  ghost predicate Solo(e: Engine, s: Stream) {
    e.senders.Keys == {NAME} && e.senders[NAME].stream == s
  }

  // ── thirteen packets, each on time ──

  /** The estimate after the first `k` packets of a stream, each on time. */
  ghost predicate OnTime(e: Estimate, k: nat) {
    && e.jitterMs == 0.0 && e.spurtPackets == k
    && e.reference == if k < TALKSPURT_ONSET_PACKETS then None else Some(((k - 1) * FRAME_NS, k))
  }

  lemma ObserveOnTime(e: Estimate, k: nat)
    requires OnTime(e, k) && k < JITTER_BUF_MAX
    ensures OnTime(Observe(e, k + 1, k * FRAME_NS), k + 1)
  {
    if k >= TALKSPURT_ONSET_PACKETS {
      assert Elapsed(k * FRAME_NS, (k - 1) * FRAME_NS) as real / 1_000_000.0 == FRAME_MS;
      assert Signed(Sub(k + 1, k)) == 1;
    }
  }

  /** Packet `k + 1` of a stream that starts at 1 lies `k` ahead of its start. */
  lemma Ahead(k: nat)
    requires k < JITTER_BUF_MAX
    ensures Wrap(1) == 1 && !SeqBefore(k + 1, 1) && Sub(k + 1, 1) == k && PosOf(1, k + 1) == k + 1
  {
  }

  lemma FirstPush(e: Estimate)
    requires e == Observe(FRESH_ESTIMATE, 1, 0)
    ensures Push(Jitter.FRESH, 1, [], 0) == Pushed(Lead.Gapless(e, 1, 1).(provisional := true), false)
  {
    Ahead(0);
    assert Lead.Blanks(1, 1) == map[1 := []];
    hide Observe, Wrap, SeqBefore, Sub, PosOf, FitsFrom;
  }

  lemma FirstPacket(e: Estimate)
    requires e == Observe(FRESH_ESTIMATE, 1, 0)
    ensures Receive(Streams.FRESH, 1, [], 0).stream == Lead.Idle(e, 1, Some(0)) && OnTime(e, 1)
  {
    FirstPush(e);
    hide Push, Lead.Gapless;
  }

  lemma NextPush(e: Estimate, k: nat, now: int)
    requires 0 < k < JITTER_BUF_MAX
    ensures Push(Lead.Gapless(e, 1, k).(provisional := true), k + 1, [], now) ==
      Pushed(Lead.Gapless(Observe(e, k + 1, now), 1, k + 1).(provisional := true), false)
  {
    Ahead(k);
    assert Lead.Blanks(1, k)[k + 1 := []] == Lead.Blanks(1, k + 1);
    hide Observe, Wrap, SeqBefore, Sub, PosOf, FitsFrom;
  }

  lemma NextPacket(e: Estimate, k: nat)
    requires 0 < k < JITTER_BUF_MAX
    ensures Receive(Lead.Idle(e, k, Some(0)), k + 1, [], k * FRAME_NS).stream ==
      Lead.Idle(Observe(e, k + 1, k * FRAME_NS), k + 1, Some(0))
  {
    hide Push, Lead.Gapless, Observe;
    NextPush(e, k, k * FRAME_NS);
  }

  function PacketAt(k: nat): Event {
    Event.Packet(NAME, if k < U32 then k else 0, [], (k - 1) * FRAME_NS, true)
  }

  /** One packet at the engine; too few have come for a prune. */
  lemma EnginePacket(e: Engine, k: nat, s: Stream)
    requires 0 < k <= JITTER_BUF_MAX && e.sincePrune == k - 1
    requires if k == 1 then e.senders == map[] && s == Streams.FRESH else Solo(e, s)
    ensures
      var r := OnPacket(e, NAME, k, [], (k - 1) * FRAME_NS, true).engine;
      Solo(r, Receive(s, k, [], (k - 1) * FRAME_NS).stream) && r.sincePrune == k
  {
    hide Receive, Prune;
  }

  /** The first `k` packets, after whatever the device did. */
  lemma {:induction false} Packets(y: System, k: nat) returns (events: seq<Event>, e: Estimate)
    requires 0 < k <= JITTER_BUF_MAX && y.engine == Engines.FRESH && |y.device.ring| <= Output.RING_CAPACITY
    ensures Legal(y, events) && OnTime(e, k)
    ensures
      var z := RunFrom(y, events);
      Solo(z.engine, Lead.Idle(e, k, Some(0))) && z.engine.sincePrune == k && z.device == y.device
  {
    hide OnPacket, Receive, Observe, OnTime, Lead.Idle;
    if k == 1 {
      e := Observe(FRESH_ESTIMATE, 1, 0);
      FirstPacket(e);
      EnginePacket(y.engine, 1, Streams.FRESH);
      events := [PacketAt(1)];
      OneEvent(y, PacketAt(1));
    } else {
      var before;
      before, e := Packets(y, k - 1);
      var z := RunFrom(y, before);
      EnginePacket(z.engine, k, Lead.Idle(e, k - 1, Some(0)));
      NextPacket(e, k - 1);
      ObserveOnTime(e, k - 1);
      events := before + [PacketAt(k)];
      OneMore(y, before, PacketAt(k));
      e := Observe(e, k, (k - 1) * FRAME_NS);
    }
  }

  lemma OneEvent(y: System, event: Event)
    requires Possible(y, event)
    ensures Legal(y, [event]) && RunFrom(y, [event]) == Next(y, event)
  {
    hide Next, Possible;
    assert [event][1..] == [];
  }

  lemma {:induction false} OneMore(y: System, events: seq<Event>, event: Event)
    requires Legal(y, events) && Possible(RunFrom(y, events), event)
    ensures Legal(y, events + [event]) && RunFrom(y, events + [event]) == Next(RunFrom(y, events), event)
    decreases |events|
  {
    hide Next, Possible;
    var all := events + [event];
    if events == [] {
      assert all == [event];
      OneEvent(y, event);
    } else {
      assert all[1..] == events[1..] + [event];
      OneMore(Next(y, events[0]), events[1..], event);
    }
  }

  // ── the pumps ──

  const QUIETLY: nat -> Turn := k => Turn(n => Answer(true, false, seq(FRAME_SIZE, i => 0.0)), n => 1.0)
  const NOW: int := 12 * FRAME_NS

  /** One round of a pump whose sender plays. */
  lemma Round(e: Engine, d: Output.Device, k: nat, s: Stream)
    requires |d.ring| <= Output.RING_CAPACITY && Solo(e, s) && Output.WantsFrame(d)
    requires Render(s, Input(NOW, PullNow(d), true, false)).op.Some?
    ensures
      var p := PullFor(d, NOW, QUIETLY(k));
      var next := RenderFrame(e, p);
      var after := Output.PushCounted(d, MixOf(e.senders, p, QUIETLY(k).gains, NAMES));
      var r := PumpFrom(e, d, NOW, NAMES, QUIETLY, k);
      && Solo(next, Render(s, Input(NOW, PullNow(d), true, false)).stream)
      && |after.ring| <= Output.RING_CAPACITY
      && if FramesLeft(d) > 1 then
           && FramesLeft(after) == FramesLeft(d) - 1
           && r.engine == PumpFrom(next, after, NOW, NAMES, QUIETLY, k + 1).engine
           && |r.supply| == 1 + |PumpFrom(next, after, NOW, NAMES, QUIETLY, k + 1).supply|
         else r.engine == next && |r.supply| == 1
  {
    var p := PullFor(d, NOW, QUIETLY(k));
    FrameOf(e, p, NAME);
    KeepsNames(e, p);
    FrameUsesOne(d, MixOf(e.senders, p, QUIETLY(k).gains, NAMES));
    hide Render, RenderFrame, Plays, MixOf, Output.LowWater, Output.PullOf, FramesLeft;
    if FramesLeft(d) == 1 && Output.RING_CAPACITY - |d.ring| >= FRAME_SIZE {
      WantsNone(Output.PushCounted(d, MixOf(e.senders, p, QUIETLY(k).gains, NAMES)));
    }
  }

  lemma WantsNone(d: Output.Device)
    requires |d.ring| <= Output.RING_CAPACITY && FramesLeft(d) == 0
    ensures !Output.WantsFrame(d)
  {
    hide Output.LowWater;
  }

  /** A whole pump of a gapless stream too young to drop. */
  lemma {:induction false} YoungPump(e: Engine, d: Output.Device, k: nat, est: Estimate, a: int, n: nat, depths: seq<nat>)
    returns (later: seq<nat>)
    requires |d.ring| <= Output.RING_CAPACITY && Solo(e, Lead.Playing(est, a, n, depths))
    requires 0 < FramesLeft(d) <= n && 0 < a && a + n < HALF
    requires |depths| + FramesLeft(d) < PLAYOUT_ACCEL_MIN_OBSERVED && Lead.AllAbove(depths, n - FramesLeft(d))
    ensures
      var r := PumpFrom(e, d, NOW, NAMES, QUIETLY, k);
      && Solo(r.engine, Lead.Playing(est, a + FramesLeft(d), n - FramesLeft(d), later))
      && |r.supply| == FramesLeft(d)
      && |later| == |depths| + FramesLeft(d) && Lead.AllAbove(later, n - FramesLeft(d))
    decreases FramesLeft(d)
  {
    hide Render, RenderFrame, MixOf, PumpFrom, Lead.Playing, FramesLeft, PullNow, Lead.AllAbove, Output.PushCounted, Output.WantsFrame,
      PullFor;
    Lead.YoungFrame(est, a, n, depths, Input(NOW, PullNow(d), true, false));
    Lead.AboveAppend(depths, n, n - FramesLeft(d));
    StillWants(d);
    Round(e, d, k, Lead.Playing(est, a, n, depths));
    if FramesLeft(d) > 1 {
      var p := PullFor(d, NOW, QUIETLY(k));
      later := YoungPump(RenderFrame(e, p), Output.PushCounted(d, MixOf(e.senders, p, QUIETLY(k).gains, NAMES)), k + 1,
        est, a + 1, n - 1, depths + [n]);
    } else {
      later := depths + [n];
    }
  }

  lemma StillWants(d: Output.Device)
    requires |d.ring| <= Output.RING_CAPACITY && FramesLeft(d) > 0
    ensures Output.WantsFrame(d)
  {
  }

  /** What a pump does to the device, by how many frames it rendered. */
  lemma {:induction false} PumpLengths(e: Engine, d: Output.Device, k: nat)
    requires |d.ring| <= Output.RING_CAPACITY && NAME in e.senders
    ensures
      var r := PumpFrom(e, d, NOW, NAMES, QUIETLY, k);
      && r.device == d.(ring := r.device.ring, overflow := r.device.overflow)
      && |r.device.ring| == Playback.MinNat(Output.RING_CAPACITY, |d.ring| + FRAME_SIZE * |r.supply|)
    decreases Output.RING_CAPACITY - |d.ring|
  {
    hide RenderFrame, Plays, MixOf, Output.LowWater, Output.PullOf;
    if Output.WantsFrame(d) {
      var p := PullFor(d, NOW, QUIETLY(k));
      KeepsNames(e, p);
      if Plays(e, p) && Output.RING_CAPACITY - |d.ring| >= FRAME_SIZE {
        PumpLengths(RenderFrame(e, p), Output.PushCounted(d, MixOf(e.senders, p, QUIETLY(k).gains, NAMES)), k + 1);
      }
    }
  }

  /** The device: what the ring and the queue hold, and what it has asked for at most. */
  ghost predicate Holds(d: Output.Device, ring: nat, queue: nat, request: nat) {
    |d.ring| == ring && |d.queue| == queue && d.queued == queue && d.request == request
  }

  lemma FirstRequest()
    ensures Holds(Output.Callback(Output.FRESH, 9000, 1.0), 0, 0, 9000)
  {
  }

  lemma SmallRequest(d: Output.Device)
    requires Holds(d, Output.RING_CAPACITY, 0, 9000)
    ensures Holds(Output.Callback(d, 480, 1.0), 0, Output.RING_CAPACITY - 480, 9000)
  {
    hide Output.Scaled;
    assert Output.Whole(Output.RING_CAPACITY) == Output.RING_CAPACITY;
  }

  /** What two pumps and the callback between them leave of the sender. */
  lemma TwoPumps(y: System, est: Estimate) returns (events: seq<Event>)
    requires Solo(y.engine, Lead.Idle(est, 13, Some(0))) && est.jitterMs == 0.0 && Holds(y.device, 0, 0, 9000)
    ensures Legal(y, events)
    ensures
      var z := RunFrom(y, events);
      && Full(z.device)
      && NAME in z.engine.senders && z.engine.senders[NAME].stream.jitter.content == map[]
      && z.engine.senders[NAME].stream.jitter.estimate == est
  {
    hide EnginePump, PumpFrom, Output.Callback, Lead.Playing, Lead.Idle;
    var pump := Pump(NOW, NAMES, QUIETLY);
    var later := FirstPump(y, est);
    OneEvent(y, pump);
    var z1 := Next(y, pump);
    SmallRequest(z1.device);
    OneMore(y, [pump], Callback(480, 1.0));
    var z2 := Next(z1, Callback(480, 1.0));
    SecondPump(z2, est, later);
    events := [pump] + [Callback(480, 1.0)];
    OneMore(y, events, pump);
    events := events + [pump];
  }

  lemma FirstPump(y: System, est: Estimate) returns (later: seq<nat>)
    requires Solo(y.engine, Lead.Idle(est, 13, Some(0))) && est.jitterMs == 0.0 && Holds(y.device, 0, 0, 9000)
    ensures Possible(y, Pump(NOW, NAMES, QUIETLY))
    ensures
      var z := Next(y, Pump(NOW, NAMES, QUIETLY));
      && Solo(z.engine, Lead.Playing(est, 10, 4, later)) && Holds(z.device, Output.RING_CAPACITY, 0, 9000)
      && |later| == 9 && Lead.AllAbove(later, 4)
  {
    hide Render, RenderFrame, MixOf, PumpFrom, Lead.Playing, Lead.Idle, FramesLeft, PullNow, Output.PushCounted, Output.WantsFrame,
      PullFor, Lead.AllAbove, PlayoutEngines.Playing;
    var d := y.device;
    Deficit(d, 0, 9000);
    Lead.FirstGaplessFrame(est, 13, Some(0), Input(NOW, 11, true, false));
    Round(y.engine, d, 0, Lead.Idle(est, 13, Some(0)));
    PumpLengths(y.engine, d, 0);
    var p := PullFor(d, NOW, QUIETLY(0));
    Lead.AboveAppend([], 13, 4);
    NoneAbove();
    assert [] + [13] == [13];
    later := YoungPump(RenderFrame(y.engine, p), Output.PushCounted(d, MixOf(y.engine.senders, p, QUIETLY(0).gains, NAMES)), 1,
      est, 2, 12, [13]);
  }

  lemma NoneAbove()
    ensures Lead.AllAbove([], 4) && Lead.AllAbove([], 0)
  {
  }

  /** What the output still takes, with an empty ring. */
  lemma Deficit(d: Output.Device, queue: nat, request: nat)
    requires Holds(d, 0, queue, request) && request == 9000 && (queue == 0 || queue == Output.RING_CAPACITY - 480)
    ensures Output.WantsFrame(d)
    ensures queue == 0 ==> PullNow(d) == 11 && FramesLeft(d) == 9
    ensures queue != 0 ==> PullNow(d) == 3 && FramesLeft(d) == 3
  {
  }

  lemma Refilled(d: Output.Device)
    requires Holds(d, 3 * FRAME_SIZE, Output.RING_CAPACITY - 480, 9000)
    ensures Full(d)
  {
  }

  lemma SecondPump(y: System, est: Estimate, depths: seq<nat>)
    requires Solo(y.engine, Lead.Playing(est, 10, 4, depths)) && est.jitterMs == 0.0
    requires |depths| == 9 && Lead.AllAbove(depths, 4)
    requires Holds(y.device, 0, Output.RING_CAPACITY - 480, 9000)
    ensures Possible(y, Pump(NOW, NAMES, QUIETLY))
    ensures
      var z := Next(y, Pump(NOW, NAMES, QUIETLY));
      && Full(z.device) && NAME in z.engine.senders
      && z.engine.senders[NAME].stream.jitter.content == map[]
      && z.engine.senders[NAME].stream.jitter.estimate == est
  {
    hide Render, RenderFrame, MixOf, PumpFrom, Lead.Playing, FramesLeft, PullNow, Output.PushCounted, Output.WantsFrame,
      PullFor, Lead.AllAbove, PlayoutEngines.Playing, Lead.Gapless, Full;
    var d := y.device;
    Deficit(d, Output.RING_CAPACITY - 480, 9000);
    Lead.AboveWeaken(depths, 4, PLAYOUT_TARGET_MIN_FRAMES + 1);
    Lead.TenthFrame(est, 10, 4, depths, Input(NOW, 3, true, false));
    Round(y.engine, d, 0, Lead.Playing(est, 10, 4, depths));
    PumpLengths(y.engine, d, 0);
    var p := PullFor(d, NOW, QUIETLY(0));
    NoneAbove();
    var later := YoungPump(RenderFrame(y.engine, p), Output.PushCounted(d, MixOf(y.engine.senders, p, QUIETLY(0).gains, NAMES)), 1,
      est, 12, 2, []);
    Emptied(est, later);
    Refilled(Next(y, Pump(NOW, NAMES, QUIETLY)).device);
  }

  lemma Emptied(est: Estimate, depths: seq<nat>)
    ensures Lead.Playing(est, 14, 0, depths).jitter.content == map[] && Lead.Playing(est, 14, 0, depths).jitter.estimate == est
  {
  }

  /**
   From the start of the receiver: an idle sender holds exactly its target plus
   the pull, so a pump starts it by depth; when the output is full again, two
   pumps later, nothing of the target is left.
   */
  lemma LeadLostOverPumps() returns (before: seq<Event>, events: seq<Event>)
    ensures Legal(START, before) && Legal(RunFrom(START, before), events)
    ensures
      var y, z := RunFrom(START, before), RunFrom(RunFrom(START, before), events);
      && NAME in y.engine.senders && NAME in z.engine.senders
      && var s, t := y.engine.senders[NAME].stream, z.engine.senders[NAME].stream;
         && !s.playing && |s.jitter.content| == Target(s) + PullNow(y.device)
         && Full(z.device) && |t.jitter.content| < Target(t)
  {
    hide Legal, RunFrom, Output.Callback, Lead.Gapless;
    FirstRequest();
    OneEvent(START, Callback(9000, 1.0));
    var y0 := Next(START, Callback(9000, 1.0));
    var packets, est := Packets(y0, 13);
    Joined(START, [Callback(9000, 1.0)], packets);
    before := [Callback(9000, 1.0)] + packets;
    var y := RunFrom(START, before);
    assert PullNow(y.device) == 11;
    Lead.PerfectTarget(Lead.Idle(est, 13, Some(0)));
    events := TwoPumps(y, est);
    Lead.PerfectTarget(RunFrom(y, events).engine.senders[NAME].stream);
  }

  lemma {:induction false} Joined(y: System, a: seq<Event>, b: seq<Event>)
    requires Legal(y, a) && Legal(RunFrom(y, a), b)
    ensures Legal(y, a + b) && RunFrom(y, a + b) == RunFrom(RunFrom(y, a), b)
    decreases |a|
  {
    hide Next, Possible;
    if a == [] {
      assert a + b == b;
    } else {
      assert (a + b)[1..] == a[1..] + b;
      Joined(Next(y, a[0]), a[1..], b);
    }
  }
}
