/** The receiver as a whole: packets, pumps and callbacks in any order, from the jitter buffers to the device. */
module SystemRuns {
  import opened Engines = Engine
  import opened PlayoutEngines
  import opened EnginePumps
  import Jitter
  import Serial
  import Output
  import OutputRuns
  import Playback

  datatype System = System(engine: Engine, device: Output.Device)

  /** `names` is the order a pump happens to visit the engine's senders in. */
  datatype Event =
    | Packet(name: string, sn: Serial.u32, data: Jitter.Bytes, now: int, decoderOk: bool)
    | Pump(at: int, names: seq<string>, turns: nat -> Turn)
    | Callback(needed: nat, vol: real)

  const START := System(Engines.FRESH, Output.FRESH)

  ghost predicate Possible(y: System, event: Event) {
    && |y.device.ring| <= Output.RING_CAPACITY
    && (event.Pump? ==> Enumerates(event.names, y.engine.senders))
  }

  ghost function Next(y: System, event: Event): (z: System)
    requires Possible(y, event)
    ensures |z.device.ring| <= Output.RING_CAPACITY
  {
    match event
    case Packet(name, sn, data, now, decoderOk) => y.(engine := OnPacket(y.engine, name, sn, data, now, decoderOk).engine)
    case Pump(at, names, turns) =>
      var r := EnginePump(y.engine, y.device, at, names, turns);
      System(r.engine, r.device)
    case Callback(needed, vol) => y.(device := Output.Callback(y.device, needed, vol))
  }

  ghost predicate Legal(y: System, events: seq<Event>)
    decreases |events|
  {
    events != [] ==> Possible(y, events[0]) && Legal(Next(y, events[0]), events[1..])
  }

  ghost function RunFrom(y: System, events: seq<Event>): System
    requires Legal(y, events)
    decreases |events|
  {
    if events == [] then y else RunFrom(Next(y, events[0]), events[1..])
  }

  /** The device asks for no more than the ring is sized for. */
  ghost predicate Modest(events: seq<Event>) {
    forall e <- events :: e.Callback? ==> e.needed <= OutputRuns.MAX_REQUEST
  }

  lemma NextBounded(y: System, event: Event)
    requires Possible(y, event) && OutputRuns.Bounded(y.device)
    requires event.Callback? ==> event.needed <= OutputRuns.MAX_REQUEST
    ensures OutputRuns.Bounded(Next(y, event).device)
  {
    hide OutputRuns.Bounded, OnPacket, EnginePump, Output.Callback;
    match event
    case Packet(_, _, _, _, _) =>
    case Pump(at, names, turns) => PlayingPumpCompletes(y.engine, y.device, at, names, turns);
    case Callback(needed, vol) => OutputRuns.CallbackBounded(y.device, needed, vol);
  }

  /** Whatever arrives, and however pumps and callbacks interleave, the output stays within its bound. */
  lemma {:induction false} AlwaysBounded(y: System, events: seq<Event>)
    requires OutputRuns.Bounded(y.device) && Legal(y, events) && Modest(events)
    ensures OutputRuns.Bounded(RunFrom(y, events).device)
    decreases |events|
  {
    hide OutputRuns.Bounded, Next, Possible;
    if events != [] {
      NextBounded(y, events[0]);
      AlwaysBounded(Next(y, events[0]), events[1..]);
    }
  }

  /** Every callback asks for no more than has been published and comes after some pump since the callback before it. */
  ghost predicate Pumped(y: System, events: seq<Event>, ready: bool)
    requires Legal(y, events)
    decreases |events|
  {
    events != [] ==>
      match events[0]
      case Packet(_, _, _, _, _) => Pumped(Next(y, events[0]), events[1..], ready)
      case Pump(_, _, _) => Pumped(Next(y, events[0]), events[1..], true)
      case Callback(needed, _) => ready && needed <= y.device.request && Pumped(Next(y, events[0]), events[1..], false)
  }

  /** The same, and that pump published somebody as playing. */
  ghost predicate Fed(y: System, events: seq<Event>, ready: bool)
    requires Legal(y, events)
    decreases |events|
  {
    events != [] ==>
      match events[0]
      case Packet(_, _, _, _, _) => Fed(Next(y, events[0]), events[1..], ready)
      case Pump(_, _, _) => Fed(Next(y, events[0]), events[1..], ready || Next(y, events[0]).device.playing > 0)
      case Callback(needed, _) => ready && needed <= y.device.request && Fed(Next(y, events[0]), events[1..], false)
  }

  /** The output holds all it is kept at. */
  predicate Full(d: Output.Device) {
    !Output.WantsFrame(d)
  }

  lemma PumpStep(y: System, at: int, names: seq<string>, turns: nat -> Turn)
    requires Possible(y, Pump(at, names, turns)) && OutputRuns.Bounded(y.device)
    ensures
      var d := Next(y, Pump(at, names, turns)).device;
      && OutputRuns.Bounded(d) && d.dry == y.device.dry && d.starved == y.device.starved
      && (d.playing > 0 || Full(y.device) ==> Full(d))
  {
    var r := EnginePump(y.engine, y.device, at, names, turns);
    hide EnginePump, OutputRuns.Bounded, Output.LowWater, Output.PumpLoop, Playing;
    PlayingPumpCompletes(y.engine, y.device, at, names, turns);
    OutputRuns.PumpReady(y.device, r.supply, Playing(r.engine.senders));
  }

  lemma CallbackStep(y: System, needed: nat, vol: real)
    requires Possible(y, Callback(needed, vol)) && OutputRuns.Bounded(y.device) && needed <= y.device.request
    ensures
      var d := Next(y, Callback(needed, vol)).device;
      && OutputRuns.Bounded(d)
      && (Full(y.device) ==> d.dry == y.device.dry)
      && (Full(y.device) || y.device.playing == 0 ==> d.starved == y.device.starved)
  {
    assert y.device.request <= OutputRuns.MAX_REQUEST;
    OutputRuns.CallbackBounded(y.device, needed, vol);
    if Full(y.device) {
      OutputRuns.FullCallbackIsFed(y.device, needed, vol);
    } else {
      Unheard(y.device, needed, vol);
    }
    hide OutputRuns.Bounded, Output.Callback;
  }

  /** A dry read with nobody playing is the end of a phrase, not starvation. */
  lemma Unheard(d: Output.Device, needed: nat, vol: real)
    ensures d.playing == 0 ==> Output.Callback(d, needed, vol).starved == d.starved
  {
    hide Output.Scaled, Output.Whole, Playback.Trimmed;
  }

  /**
   No starvation, whatever arrives and whoever plays: if at least one pump runs
   between every two callbacks and the device has published its largest
   request, `output_starved` never moves.
   */
  lemma {:induction false} NeverStarves(y: System, events: seq<Event>, ready: bool)
    requires OutputRuns.Bounded(y.device) && Legal(y, events) && Pumped(y, events, ready)
    requires ready ==> Full(y.device) || y.device.playing == 0
    ensures RunFrom(y, events).device.starved == y.device.starved
    decreases |events|
  {
    hide OutputRuns.Bounded, Next, Possible, Full;
    if events != [] {
      match events[0]
      case Packet(_, _, _, _, _) =>
        PacketStep(y, events[0]);
        NeverStarves(Next(y, events[0]), events[1..], ready);
      case Pump(at, names, turns) =>
        PumpStep(y, at, names, turns);
        NeverStarves(Next(y, events[0]), events[1..], true);
      case Callback(needed, vol) =>
        CallbackStep(y, needed, vol);
        NeverStarves(Next(y, events[0]), events[1..], false);
    }
  }

  /** If moreover that pump publishes somebody as playing, no callback runs dry at all. */
  lemma {:induction false} NeverDry(y: System, events: seq<Event>, ready: bool)
    requires OutputRuns.Bounded(y.device) && Legal(y, events) && Fed(y, events, ready)
    requires ready ==> Full(y.device)
    ensures RunFrom(y, events).device.dry == y.device.dry && RunFrom(y, events).device.starved == y.device.starved
    decreases |events|
  {
    hide OutputRuns.Bounded, Next, Possible, Full;
    if events != [] {
      match events[0]
      case Packet(_, _, _, _, _) =>
        PacketStep(y, events[0]);
        NeverDry(Next(y, events[0]), events[1..], ready);
      case Pump(at, names, turns) =>
        PumpStep(y, at, names, turns);
        NeverDry(Next(y, events[0]), events[1..], ready || Next(y, events[0]).device.playing > 0);
      case Callback(needed, vol) =>
        CallbackStep(y, needed, vol);
        NeverDry(Next(y, events[0]), events[1..], false);
    }
  }

  lemma PacketStep(y: System, event: Event)
    requires Possible(y, event) && event.Packet?
    ensures Next(y, event).device == y.device
  {
    hide OnPacket;
  }

  /** From the start: any run of a modest device, and then one that is pumped between every two callbacks. */
  lemma ReceiverNeverStarves(before: seq<Event>, events: seq<Event>)
    requires Legal(START, before) && Modest(before)
    requires Legal(RunFrom(START, before), events) && Pumped(RunFrom(START, before), events, false)
    ensures RunFrom(RunFrom(START, before), events).device.starved == RunFrom(START, before).device.starved
  {
    AlwaysBounded(START, before);
    NeverStarves(RunFrom(START, before), events, false);
  }
}
