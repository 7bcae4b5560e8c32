/** Who the engine keeps: senders heard within the last ten seconds, at most sixteen of them. */
module EngineRuns {
  import opened Config
  import opened Wrappers
  import opened Engines = Engine
  import Serial
  import Jitter
  import Streams
  import Starts
  import Mixing

  /** Heard less than ten seconds ago. */
  predicate Live(senders: map<string, Sender>, name: string, now: int) {
    name in senders && now - senders[name].lastPacket < 10_000_000_000
  }

  /** The packet is the 150th since the last prune. */
  predicate Due(e: Engine) {
    e.sincePrune + 1 >= 150
  }

  /** Not removed by the periodic prune. */
  predicate Kept(e: Engine, name: string, now: int) {
    name in e.senders && (!Due(e) || Live(e.senders, name, now))
  }

  /** Fewer than sixteen are kept, or one of them is no longer heard. */
  predicate HasRoom(e: Engine, now: int) {
    |set n | n in e.senders && Kept(e, n, now)| < 16 || exists n <- e.senders :: Kept(e, n, now) && !Live(e.senders, n, now)
  }

  lemma TickKeeps(e: Engine, now: int)
    ensures
      var t := Tick(e, now);
      && (forall n :: n in t.senders <==> Kept(e, n, now))
      && (forall n <- t.senders :: t.senders[n] == e.senders[n])
      && t.senders.Keys == (set n | n in e.senders && Kept(e, n, now))
      && t.levelsEpoch == e.levelsEpoch
      && t.sincePrune == if Due(e) then 0 else e.sincePrune + 1
  {
    LiveIsElapsed(e, now);
    assert Tick(e, now).senders.Keys == (set n | n in e.senders && Kept(e, n, now));
  }

  lemma LiveIsElapsed(e: Engine, now: int)
    ensures forall n <- e.senders :: Live(e.senders, n, now) <==> Jitter.Elapsed(now, e.senders[n].lastPacket) < SENDER_STREAM_TTL_NS
  {
  }

  /** Some sender of a full engine is not live exactly when pruning makes room. */
  lemma PruneMakesRoom(senders: map<string, Sender>, now: int)
    requires |senders| <= MAX_SENDER_STREAMS
    ensures |Prune(senders, now)| < MAX_SENDER_STREAMS <==> |senders| < MAX_SENDER_STREAMS || exists n <- senders :: !Live(senders, n, now)
  {
    var pruned := Prune(senders, now);
    assert pruned.Keys <= senders.Keys;
    if n :| n in senders && !Live(senders, n, now) {
      assert pruned.Keys <= senders.Keys - {n};
      SubsetSize(pruned.Keys, senders.Keys - {n});
    } else {
      assert pruned == senders;
    }
  }

  /** The senders after a prune of those the tick leaves, if it comes to that. */
  lemma RoomIs(e: Engine, now: int)
    requires WellFormed(e)
    ensures var t := Tick(e, now).senders;
      && |t| <= MAX_SENDER_STREAMS
      && (HasRoom(e, now) <==> |t| < MAX_SENDER_STREAMS || |Prune(t, now)| < MAX_SENDER_STREAMS)
  {
    hide Tick, Prune, Streams.WellFormed, Due;
    var t := Tick(e, now).senders;
    TickKeeps(e, now);
    SubsetSize(t.Keys, e.senders.Keys);
    PruneMakesRoom(t, now);
    assert |t| == |t.Keys|;
    assert forall n <- t :: Live(t, n, now) <==> Live(e.senders, n, now);
  }

  /** The sender itself, after a packet. */
  ghost predicate Received(e: Engine, r: Accepted, name: string, sn: Serial.u32, data: Jitter.Bytes, now: int, decoderOk: bool) {
    var after := r.engine.senders;
    && (name in after <==> Kept(e, name, now) || (decoderOk && HasRoom(e, now)))
    && (name in after ==>
        var stream := if Kept(e, name, now) then e.senders[name].stream else Streams.FRESH;
        && after[name].lastPacket == now
        && after[name].level == (if Kept(e, name, now) then e.senders[name].level else 0.0)
        && after[name].stream == Streams.Receive(stream, sn, data, now).stream
        && r.late == Streams.Receive(stream, sn, data, now).late)
  }

  /** Everybody else, after a packet from `name`. */
  ghost predicate OthersKept(e: Engine, after: map<string, Sender>, name: string, now: int) {
    && (forall n <- after :: n != name ==> Kept(e, n, now) && after[n] == e.senders[n])
    && (forall n <- e.senders :: n != name && n !in after ==> !Live(e.senders, n, now))
  }

  /**
   One packet from `name`. A sender the periodic prune keeps has the packet
   buffered in its own stream; any other starts anew, if the decoder can be
   made and there is room. Its arrival is noted; everybody else is unchanged, or
   gone because it has not been heard for ten seconds.
   */
  lemma PacketExactly(e: Engine, name: string, sn: Serial.u32, data: Jitter.Bytes, now: int, decoderOk: bool)
    requires WellFormed(e)
    ensures
      var r := OnPacket(e, name, sn, data, now, decoderOk);
      && Received(e, r, name, sn, data, now, decoderOk) && OthersKept(e, r.engine.senders, name, now)
      && r.engine.sincePrune == (if Due(e) then 0 else e.sincePrune + 1) && r.engine.levelsEpoch == e.levelsEpoch
  {
    ReceivedExactly(e, name, sn, data, now, decoderOk);
    OthersExactly(e, name, sn, data, now, decoderOk);
    TickKeeps(e, now);
    hide Streams.Receive, Prune, Tick, Due, Kept, HasRoom, Live;
  }

  lemma ReceivedExactly(e: Engine, name: string, sn: Serial.u32, data: Jitter.Bytes, now: int, decoderOk: bool)
    requires WellFormed(e)
    ensures Received(e, OnPacket(e, name, sn, data, now, decoderOk), name, sn, data, now, decoderOk)
  {
    hide Streams.Receive, Prune, Tick, Due, Kept, HasRoom, Live, Streams.WellFormed;
    TickKeeps(e, now);
    RoomIs(e, now);
    PruneIs(Tick(e, now).senders, now);
    SubsetSize(Prune(Tick(e, now).senders, now).Keys, Tick(e, now).senders.Keys);
  }

  lemma OthersExactly(e: Engine, name: string, sn: Serial.u32, data: Jitter.Bytes, now: int, decoderOk: bool)
    ensures OthersKept(e, OnPacket(e, name, sn, data, now, decoderOk).engine.senders, name, now)
  {
    hide Streams.Receive, Prune, Tick, Due;
    TickKeeps(e, now);
    PruneIs(Tick(e, now).senders, now);
  }

  lemma PruneIs(senders: map<string, Sender>, now: int)
    ensures forall n :: n in Prune(senders, now) <==> n in senders && Live(senders, n, now)
    ensures forall n <- Prune(senders, now) :: Prune(senders, now)[n] == senders[n]
  {
  }

  // ── over runs ──

  datatype Event = Packet(name: string, sn: Serial.u32, data: Jitter.Bytes, now: int, decoderOk: bool) | Frame(p: Pull)

  function Step(e: Engine, event: Event): Engine {
    match event
    case Packet(name, sn, data, now, decoderOk) => OnPacket(e, name, sn, data, now, decoderOk).engine
    case Frame(p) => RenderFrame(e, p)
  }

  function RunFrom(e: Engine, events: seq<Event>): Engine
    decreases |events|
  {
    if events == [] then e else RunFrom(Step(e, events[0]), events[1..])
  }

  /** Packets of `name` come less than ten seconds apart, `last` being the latest so far; others come in between. */
  ghost predicate HeardOften(events: seq<Event>, name: string, last: int)
    decreases |events|
  {
    events != [] ==>
      match events[0]
      case Packet(n, _, _, now, _) =>
        now - last < 10_000_000_000 && HeardOften(events[1..], name, if n == name then now else last)
      case Frame(_) => HeardOften(events[1..], name, last)
  }

  lemma FrameKeepsSender(e: Engine, p: Pull, name: string)
    requires WellFormed(e) && name in e.senders
    ensures
      var f := RenderFrame(e, p);
      WellFormed(f) && name in f.senders && f.senders[name].lastPacket == e.senders[name].lastPacket
  {
    forall n | n in e.senders
      ensures Streams.WellFormed(Streams.Render(e.senders[n].stream, InputOf(p, n)).stream)
    {
      Streams.RenderWellFormed(e.senders[n].stream, InputOf(p, n));
    }
    assert RenderFrame(e, p).senders.Keys == e.senders.Keys;
    assert |RenderFrame(e, p).senders| == |RenderFrame(e, p).senders.Keys| && |e.senders| == |e.senders.Keys|;
    hide Streams.Render, Streams.WellFormed;
  }

  /** A sender heard at gaps below ten seconds is never pruned, whoever else sends: its stream is never started anew. */
  lemma {:induction false} NeverPruned(e: Engine, events: seq<Event>, name: string, last: int)
    requires WellFormed(e) && name in e.senders && e.senders[name].lastPacket == last && HeardOften(events, name, last)
    ensures name in RunFrom(e, events).senders
    decreases |events|
  {
    hide OnPacket, RenderFrame, WellFormed;
    if events != [] {
      match events[0]
      case Packet(n, sn, data, now, decoderOk) =>
        PacketExactly(e, n, sn, data, now, decoderOk);
        OnPacketWellFormed(e, n, sn, data, now, decoderOk);
        NeverPruned(Step(e, events[0]), events[1..], name, if n == name then now else last);
      case Frame(p) =>
        FrameKeepsSender(e, p, name);
        NeverPruned(Step(e, events[0]), events[1..], name, last);
    }
  }

  /** Every 150th packet leaves only senders heard within ten seconds. */
  lemma PrunedInTime(e: Engine, name: string, sn: Serial.u32, data: Jitter.Bytes, now: int, decoderOk: bool, other: string)
    requires WellFormed(e) && e.sincePrune >= 149 && other != name
    requires other in OnPacket(e, name, sn, data, now, decoderOk).engine.senders
    ensures other in e.senders && now - e.senders[other].lastPacket < 10_000_000_000
  {
    hide OnPacket, WellFormed;
    PacketExactly(e, name, sn, data, now, decoderOk);
  }

  // ── when the tick is needed ──

  /** Every idle sender with packets has its timer running, as it has in every run. */
  ghost predicate TimersRun(e: Engine) {
    forall n <- e.senders ::
      !e.senders[n].stream.playing && e.senders[n].stream.jitter.content != map[] ==> e.senders[n].stream.firstIdle.Some?
  }

  /** A pull late enough, and short enough, to start whoever waits. */
  function LatePull(s: Streams.Stream, answers: string -> Answer): Pull {
    Pull(s.firstIdle.GetOr(0) + FRAME_NS * Streams.Target(s), 0, answers)
  }

  lemma WaitingPlays(e: Engine, name: string, answers: string -> Answer)
    requires WellFormed(e) && name in e.senders && TimersRun(e)
    requires !e.senders[name].stream.playing && e.senders[name].stream.jitter.content != map[]
    ensures Plays(e, LatePull(e.senders[name].stream, answers))
  {
    var s := e.senders[name].stream;
    var p := LatePull(s, answers);
    Starts.OldestStarts(s, InputOf(p, name));
    assert Streams.Render(s, InputOf(p, name)).op.Some?;
    hide Streams.Render, Streams.WellFormed;
  }

  /** The next frame can play something or move a level, if it comes at the right time. */
  ghost predicate MayMatter(e: Engine, answers: string -> Answer) {
    exists at: int, frames: nat :: Matters(e, Pull(at, frames, answers))
  }

  predicate Matters(e: Engine, p: Pull) {
    Plays(e, p) || RenderFrame(e, p).levelsEpoch != e.levelsEpoch
  }

  /** The tick is needed exactly while some frame without further packets may play something or move a level. */
  lemma ActiveExactly(e: Engine, answers: string -> Answer)
    requires WellFormed(e) && TimersRun(e) && 0 <= e.levelsEpoch < 0x1_0000_0000_0000_0000
    ensures Active(e) <==> MayMatter(e, answers)
  {
    if n :| n in e.senders && e.senders[n].stream.playing {
      var p := Pull(0, 0, answers);
      Mixing.EpochTellsLevels(e, p);
      hide RenderFrame, Plays;
      assert Matters(e, Pull(0, 0, answers));
    } else if n :| n in e.senders && e.senders[n].stream.jitter.content != map[] {
      WaitingPlays(e, n, answers);
      var p := LatePull(e.senders[n].stream, answers);
      hide RenderFrame, Plays;
      assert Matters(e, Pull(p.now, p.frames, answers));
    } else {
      assert !Active(e);
      forall at: int, frames: nat
        ensures !Matters(e, Pull(at, frames, answers))
      {
        InactiveFrame(e, Pull(at, frames, answers));
      }
      hide RenderFrame, Plays;
    }
  }
}
