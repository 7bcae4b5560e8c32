/** All senders together: who is buffered, who is rendered, and when nothing needs to run. */
module Engine {
  import opened Config
  import opened Wrappers
  import opened Serial
  import opened Jitter
  import opened Streams
  import opened Audio

  /** A sender's stream, the arrival of its last packet, and the level its meter shows: the mean square of its last frame. */
  datatype Sender = Sender(stream: Stream, lastPacket: int, level: real)

  datatype Engine = Engine(senders: map<string, Sender>, sincePrune: nat, levelsEpoch: nat)

  const FRESH := Engine(map[], 0, 0)

  /** The decoder's answers for one sender's next frame, and the frame. */
  datatype Answer = Answer(quiet: bool, fecOk: bool, frame: Frame)

  /** One call of the output: when, how many frames it takes, and each sender's decoder. */
  datatype Pull = Pull(now: int, frames: nat, answers: string -> Answer)

  function InputOf(p: Pull, name: string): Input {
    Input(p.now, p.frames, p.answers(name).quiet, p.answers(name).fecOk)
  }

  function Prune(senders: map<string, Sender>, now: int): map<string, Sender> {
    map n | n in senders && Elapsed(now, senders[n].lastPacket) < SENDER_STREAM_TTL_NS :: senders[n]
  }

  /** The periodic prune, once per `STATS_WINDOW_PACKETS` packets. */
  function Tick(e: Engine, now: int): Engine {
    if e.sincePrune + 1 >= STATS_WINDOW_PACKETS then e.(sincePrune := 0, senders := Prune(e.senders, now))
    else e.(sincePrune := e.sincePrune + 1)
  }

  datatype Accepted = Accepted(engine: Engine, late: bool)

  /** Buffer one packet from `name`; a new sender needs a free stream and a decoder. */
  function OnPacket(e0: Engine, name: string, sn: u32, data: Bytes, now: int, decoderOk: bool): Accepted {
    var e := Tick(e0, now);
    var senders := if name !in e.senders && |e.senders| >= MAX_SENDER_STREAMS then Prune(e.senders, now) else e.senders;
    if name !in senders && (|senders| >= MAX_SENDER_STREAMS || !decoderOk) then
      Accepted(e.(senders := senders), false)
    else
      var sender := if name in senders then senders[name] else Sender(Streams.FRESH, now, 0.0);
      var received := Receive(sender.stream, sn, data, now);
      Accepted(e.(senders := senders[name := sender.(stream := received.stream, lastPacket := now)]), received.late)
  }

  /** Rendering touches a sender's level when it plays a frame or falls idle. */
  function Touches(x: Sender, i: Input): bool {
    Render(x.stream, i).op.Some? || x.stream.playing
  }

  function RenderSender(x: Sender, i: Input, level: real): Sender {
    var r := Render(x.stream, i);
    x.(stream := r.stream, level := if r.op.Some? then level else if x.stream.playing then 0.0 else x.level)
  }

  function RenderFrame(e: Engine, p: Pull): Engine {
    Engine(
      map n | n in e.senders :: RenderSender(e.senders[n], InputOf(p, n), MeanSquare(p.answers(n).frame)),
      e.sincePrune,
      if exists n <- e.senders :: Touches(e.senders[n], InputOf(p, n)) then (e.levelsEpoch + 1) % 0x1_0000_0000_0000_0000
      else e.levelsEpoch)
  }

  /** A frame comes out exactly when some sender plays one. */
  predicate Plays(e: Engine, p: Pull) {
    exists n <- e.senders :: Render(e.senders[n].stream, InputOf(p, n)).op.Some?
  }

  /** Whether the playout tick is needed. */
  predicate Active(e: Engine) {
    exists n <- e.senders :: e.senders[n].stream.playing || e.senders[n].stream.jitter.content != map[]
  }

  ghost predicate WellFormed(e: Engine) {
    |e.senders| <= MAX_SENDER_STREAMS && forall n <- e.senders :: Streams.WellFormed(e.senders[n].stream)
  }

  lemma PruneShrinks(senders: map<string, Sender>, now: int)
    ensures |Prune(senders, now)| <= |senders|
  {
    SubsetSize(Prune(senders, now).Keys, senders.Keys);
  }

  lemma {:induction false} SubsetSize<T>(a: set<T>, b: set<T>)
    requires a <= b
    ensures |a| <= |b|
  {
    if x :| x in a {
      SubsetSize(a - {x}, b - {x});
    }
  }

  /** Never more streams than allowed, whatever names arrive. */
  lemma OnPacketWellFormed(e: Engine, name: string, sn: u32, data: Bytes, now: int, decoderOk: bool)
    requires WellFormed(e)
    ensures WellFormed(OnPacket(e, name, sn, data, now, decoderOk).engine)
  {
    hide Streams.WellFormed, Receive;
    var t := Tick(e, now);
    PruneShrinks(e.senders, now);
    PruneShrinks(t.senders, now);
    forall s: Stream | Streams.WellFormed(s)
      ensures Streams.WellFormed(Receive(s, sn, data, now).stream)
    {
      ReceiveWellFormed(s, sn, data, now);
    }
    FreshWellFormed();
  }

  lemma FreshWellFormed()
    ensures Streams.WellFormed(Streams.FRESH)
  {
  }

  /** A packet touches its own sender only: every other is unchanged, or was silent for the whole TTL. */
  lemma SendersIndependent(e: Engine, name: string, sn: u32, data: Bytes, now: int, decoderOk: bool, other: string)
    requires other != name && other in e.senders
    ensures
      var after := OnPacket(e, name, sn, data, now, decoderOk).engine.senders;
      if other in after then after[other] == e.senders[other]
      else Elapsed(now, e.senders[other].lastPacket) >= SENDER_STREAM_TTL_NS
  {
    hide Receive;
  }

  function RenderFrames(e: Engine, pulls: seq<Pull>): Engine {
    if pulls == [] then e else RenderFrame(RenderFrames(e, pulls[..|pulls| - 1]), pulls[|pulls| - 1])
  }

  /** Two senders show the same level and are at the same point of the same stream. */
  ghost predicate SameSender(a: Sender, b: Sender) {
    a.level == b.level && a.stream.jitter == b.stream.jitter && a.stream.playing == b.stream.playing
  }

  ghost predicate Same(a: Engine, b: Engine) {
    && a.levelsEpoch == b.levelsEpoch && a.senders.Keys == b.senders.Keys
    && (forall n <- a.senders :: SameSender(a.senders[n], b.senders[n]))
  }

  lemma InactiveFrame(e: Engine, p: Pull)
    requires !Active(e)
    ensures !Plays(e, p) && Same(e, RenderFrame(e, p)) && !Active(RenderFrame(e, p))
  {
    forall n | n in e.senders
      ensures Render(e.senders[n].stream, InputOf(p, n)) ==
        Rendered(e.senders[n].stream.(firstIdle := None), None, [], [], 0)
    {
    }
    hide Render;
  }

  /**
   Quiescence: once the engine is inactive, any number of later frames play
   nothing, move no level and no epoch, and consume no sequence number, so the
   tick can be disarmed until a packet arrives.
   */
  lemma {:induction false} InactiveIsQuiet(e: Engine, pulls: seq<Pull>, next: Pull)
    requires !Active(e)
    ensures var later := RenderFrames(e, pulls);
      !Active(later) && Same(e, later) && !Plays(later, next)
  {
    hide RenderFrame, Plays, Active, SameSender;
    SameTransitive(e, e, e);
    if pulls == [] {
      InactiveFrame(e, next);
    } else {
      var n := |pulls| - 1;
      var before := RenderFrames(e, pulls[..n]);
      InactiveIsQuiet(e, pulls[..n], next);
      InactiveFrame(before, pulls[n]);
      InactiveFrame(RenderFrame(before, pulls[n]), next);
      SameTransitive(e, before, RenderFrame(before, pulls[n]));
    }
  }

  lemma SameTransitive(a: Engine, b: Engine, c: Engine)
    ensures Same(a, b) && Same(b, c) ==> Same(a, c)
    ensures Same(a, a)
  {
  }
}
