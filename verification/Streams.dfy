/**
 One sender's playout as a step function: `Idle` (buffering) or `Playing`.

 The decoder is not part of the model: whether a decoded frame is quiet and
 whether an FEC decode succeeds are inputs of each render.
 */
module Streams {
  import opened Config
  import opened Wrappers
  import opened Serial
  import opened Jitter
  import Depths

  /** `depths` is every buffered depth recorded since activation or the last drop. */
  datatype Stream = Stream(
    jitter: Buffer,
    playing: bool,
    firstIdle: Option<int>,
    hold: nat,
    pendingExpand: nat,
    depths: seq<nat>)

  const FRESH := Stream(Jitter.FRESH, false, None, 0, 0, [])

  datatype FrameOp =
    | Packet(sn: u32)
    | Accelerated(dropped: u32, played: u32)
    | Fec(next: u32)
    | Plc
    | Expand

  /** What one render is given: the time, the frames the output takes now, and the decoder's answers. */
  datatype Input = Input(now: int, pull: nat, quiet: bool, fecOk: bool)

  /**
   What one render does. `outcomes` are the losses (false) and packets (true)
   recorded, in order; `fed` the packets decoded (`None` for the phantom at
   sequence number 0); `expanded` the expand frames found to be an underrun.
   */
  datatype Rendered = Rendered(
    stream: Stream,
    op: Option<FrameOp>,
    outcomes: seq<bool>,
    fed: seq<Option<Bytes>>,
    expanded: nat)

  function Target(s: Stream): (t: nat)
    ensures PLAYOUT_TARGET_MIN_FRAMES <= t <= PLAYOUT_TARGET_MAX_FRAMES
  {
    TargetFrames(s.jitter.estimate.jitterMs)
  }

  function GoIdle(s: Stream): Stream {
    Stream(s.jitter.(estimate := EndTalkspurt(s.jitter.estimate)), false, None, 0, 0, [])
  }

  /** A frame may be dropped: deep all through the recorded window, and quiet or too deep to wait. */
  function ShouldAccelerate(depths: seq<nat>, target: nat, quiet: bool): bool {
    var recent := Depths.Recent(depths);
    var min := Depths.MinOf(recent);
    var force := if target + 1 + PLAYOUT_ACCEL_FORCE_EXCESS < JITTER_BUF_MAX - 2
                 then target + 1 + PLAYOUT_ACCEL_FORCE_EXCESS else JITTER_BUF_MAX - 2;
    |recent| >= PLAYOUT_ACCEL_MIN_OBSERVED && min > target + 1 && (min > force || quiet)
  }

  /** A packet whose first byte names a SILK or hybrid mode may carry FEC. */
  function CarriesFec(data: Bytes): bool {
    data != [] && (data[0] >> 3) < 16
  }

  /** The frame for a lost packet: FEC from the packet now next, if it is there and can carry it; else PLC. */
  function Conceal(b: Buffer, fecOk: bool): FrameOp {
    if b.pos in b.content && CarriesFec(b.content[b.pos]) && fecOk then Fec(Wrap(b.pos)) else Plc
  }

  /** The packet at the start of the window. */
  function Head(b: Buffer): Option<Bytes> {
    if b.pos in b.content then Some(b.content[b.pos]) else None
  }

  /**
   The packet `sn` (with bytes `head`) was popped off `s`: play it, or drop it
   and play the one behind it.
   */
  function PlayPacket(s: Stream, sn: u32, head: Option<Bytes>, target: nat, quiet: bool): Rendered {
    var b := s.jitter;
    var t := s.(hold := 0, pendingExpand := 0);
    if ShouldAccelerate(s.depths, target, quiet) && b.pos in b.content then
      Rendered(t.(jitter := Pop(b), depths := []), Some(Accelerated(sn, Wrap(b.pos))), [true, true],
               [head, Head(b)], s.pendingExpand)
    else
      Rendered(t, Some(FrameOp.Packet(sn)), [true], [head], s.pendingExpand)
  }

  /** Nothing buffered: bridge the gap for a few frames, then go idle. */
  function Underrun(s: Stream): Rendered {
    if s.hold + 1 > PLAYOUT_HOLD_FRAMES then
      Rendered(GoIdle(s), None, [], [], 0)
    else
      Rendered(s.(hold := s.hold + 1, pendingExpand := s.pendingExpand + 1), Some(Expand), [], [], 0)
  }

  function RenderPlaying(s: Stream, target: nat, i: Input): Rendered {
    var popped := Pop(s.jitter);
    var t := s.(jitter := popped, depths := s.depths + [|s.jitter.content|]);
    match PopKind(s.jitter)
    case Packet => PlayPacket(t, Wrap(s.jitter.pos), Head(s.jitter), target, i.quiet)
    case Missing => Rendered(t.(hold := 0), Some(Conceal(popped, i.fecOk)), [false], [], 0)
    case Empty => Underrun(t)
  }

  /** An idle stream starts once it holds its lead, or once its oldest packet has waited that long. */
  function Ready(s: Stream, i: Input): bool {
    var lead := Target(s) + i.pull;
    |s.jitter.content| >= lead || Elapsed(i.now, s.firstIdle.GetOr(i.now)) >= FRAME_NS * lead
  }

  function Activate(s: Stream): Stream {
    s.(jitter := Skip(s.jitter), playing := true, firstIdle := None, hold := 0, depths := [])
  }

  /** `n` losses in a row. */
  function Losses(n: nat): (r: seq<bool>)
    ensures |r| == n && forall k | 0 <= k < n :: !r[k]
  {
    seq(n, _ => false)
  }

  function Render(s: Stream, i: Input): Rendered {
    if s.playing then RenderPlaying(s, Target(s), i)
    else if s.jitter.content == map[] then Rendered(s.(firstIdle := None), None, [], [], 0)
    else if !Ready(s, i) then Rendered(s.(firstIdle := Some(s.firstIdle.GetOr(i.now))), None, [], [], 0)
    else
      var r := RenderPlaying(Activate(s), Target(s), i);
      r.(outcomes := Losses(SkipCount(s.jitter)) + r.outcomes)
  }

  datatype Received = Received(stream: Stream, late: bool)

  /** A packet arrives; the first one buffered while idle starts the activation timer. */
  function Receive(s: Stream, sn: u32, data: Bytes, now: int): Received {
    var pushed := Push(s.jitter, sn, data, now);
    var t := s.(jitter := pushed.buffer);
    Received(if !pushed.late && !s.playing then t.(firstIdle := Some(s.firstIdle.GetOr(now))) else t, pushed.late)
  }

  ghost predicate WellFormed(s: Stream) {
    && Jitter.WellFormed(s.jitter)
    && s.hold <= PLAYOUT_HOLD_FRAMES
    && (s.playing ==> s.jitter.started)
    && (!s.playing ==> s.hold == 0 && s.pendingExpand == 0)
  }

  lemma RenderWellFormed(s: Stream, i: Input)
    requires WellFormed(s)
    ensures WellFormed(Render(s, i).stream)
  {
    PopWellFormed(s.jitter);
    PopWellFormed(Pop(s.jitter));
    PopWellFormed(Skip(s.jitter));
    PopWellFormed(Pop(Skip(s.jitter)));
    hide Pop, Skip, InWindow;
  }

  lemma ReceiveWellFormed(s: Stream, sn: u32, data: Bytes, now: int)
    requires WellFormed(s)
    ensures WellFormed(Receive(s, sn, data, now).stream)
  {
    PushWellFormed(s.jitter, sn, data, now);
    hide Push, InWindow;
  }
}
