/** Which frame a playing stream makes, spelled out: played, dropped, recovered, concealed or bridged, and what is counted. */
module FrameOps {
  import opened Config
  import opened Wrappers
  import opened Serial
  import opened Jitter
  import opened Streams
  import opened StreamRuns
  import opened Talkspurts
  import SenderStreams
  import Depths

  // ── losses ──

  /** A SILK or hybrid packet: its first byte names one of the first sixteen modes. */
  predicate Redundant(data: Bytes) {
    data != [] && data[0] < 0x80
  }

  lemma RedundantCarriesFec(data: Bytes)
    ensures CarriesFec(data) <==> Redundant(data)
  {
    if data != [] {
      ModeOf(data[0]);
    }
  }

  lemma ModeOf(toc: bv8)
    ensures toc >> 3 < 16 <==> toc < 0x80
  {
  }

  /**
   A hole in a playing stream is one loss. It is recovered from redundancy if
   and only if the packet right behind it is there, may carry redundancy, and
   the decoder makes something of it; otherwise it is concealed.
   */
  lemma LossExactly(s: Stream, i: Input)
    requires Streams.WellFormed(s) && s.playing
    requires s.jitter.content != map[] && s.jitter.pos !in s.jitter.content && Wrap(s.jitter.pos) != 0
    ensures
      var (b, r) := (s.jitter, Render(s, i));
      && r.outcomes == [false] && r.fed == [] && r.stream.playing
      && r.op == if b.pos + 1 in b.content && Redundant(b.content[b.pos + 1]) && i.fecOk
                 then Some(Fec(Wrap(b.pos + 1))) else Some(Plc)
  {
    var b := s.jitter;
    assert b.started && PopKind(b) == PopResult.Missing;
    if b.pos + 1 in b.content {
      RedundantCarriesFec(b.content[b.pos + 1]);
    }
    hide Wrap, CarriesFec, Redundant, InWindow;
  }

  // ── drops ──

  /** Each of the last `w` depths is more than `x`. */
  ghost predicate LastAbove(depths: seq<nat>, w: nat, x: int)
    requires w <= |depths|
  {
    forall k | |depths| - w <= k < |depths| :: depths[k] > x
  }

  function AtMost(a: nat, b: nat): nat {
    if a < b then a else b
  }

  lemma LastAboveIsMin(depths: seq<nat>, x: int)
    requires depths != []
    ensures Depths.MinOf(Depths.Recent(depths)) > x <==> LastAbove(depths, AtMost(50, |depths|), x)
  {
    var recent, w := Depths.Recent(depths), AtMost(50, |depths|);
    assert |recent| == w && forall k | 0 <= k < w :: recent[k] == depths[|depths| - w + k];
    if LastAbove(depths, w, x) {
      assert forall d <- recent :: d > x;
    } else {
      var k :| |depths| - w <= k < |depths| && depths[k] <= x;
      assert recent[k - (|depths| - w)] == depths[k] && depths[k] in recent;
    }
  }

  /**
   With a packet to play, the frame drops it for the one behind it if and only
   if that one is there, at least ten depths were recorded since the stream
   started or last dropped, the last fifty of them all exceeded target + 1, and
   the frame is quiet or they all exceeded target + 4 (or 13, if that is less).
   Otherwise the packet is played.
   */
  lemma DropsExactly(s: Stream, i: Input)
    requires Streams.WellFormed(s) && s.playing && Plays(s.jitter.content, s.jitter.pos)
    ensures
      var (b, r, t) := (s.jitter, Render(s, i), Target(s));
      var depths := s.depths + [|b.content|];
      var w := AtMost(50, |depths|);
      if |depths| >= 10 && b.pos + 1 in b.content && LastAbove(depths, w, t + 1)
         && (i.quiet || LastAbove(depths, w, AtMost(t + 4, 13)))
      then r.op == Some(Accelerated(Wrap(b.pos), Wrap(b.pos + 1))) && r.stream.depths == []
      else r.op == Some(FrameOp.Packet(Wrap(b.pos))) && r.stream.depths == depths
  {
    var b, t := s.jitter, Target(s);
    var depths := s.depths + [|b.content|];
    assert b.started && PopKind(b) == PopResult.Packet;
    LastAboveIsMin(depths, t + 1);
    LastAboveIsMin(depths, AtMost(t + 4, 13));
    assert |Depths.Recent(depths)| == AtMost(50, |depths|);
    hide Wrap, Target, Depths.Recent, Depths.MinOf, LastAbove, InWindow, PopKind;
  }

  // ── expands ──

  /** What a frame does to the `pending` expands, not yet known to be an underrun. */
  ghost predicate Counts(pending: nat, r: Rendered) {
    match r.op
    case Some(Expand) => r.expanded == 0 && r.stream.pendingExpand == pending + 1
    case Some(Packet(_)) => r.expanded == pending && r.stream.pendingExpand == 0
    case Some(Accelerated(_, _)) => r.expanded == pending && r.stream.pendingExpand == 0
    case Some(_) => r.expanded == 0 && r.stream.pendingExpand == pending
    case None => r.expanded == 0 && r.stream.pendingExpand == 0 && !r.stream.playing
  }

  lemma PacketCounts(t: Stream, sn: u32, head: Option<Bytes>, target: nat, quiet: bool)
    ensures Counts(t.pendingExpand, PlayPacket(t, sn, head, target, quiet))
  {
    hide Pop, Wrap, ShouldAccelerate;
  }

  lemma PlayingCounts(s: Stream, target: nat, i: Input)
    ensures Counts(s.pendingExpand, RenderPlaying(s, target, i))
  {
    var t := s.(jitter := Pop(s.jitter), depths := s.depths + [|s.jitter.content|]);
    PacketCounts(t, Wrap(s.jitter.pos), Head(s.jitter), target, i.quiet);
    hide Pop, PopKind, Wrap, PlayPacket, CarriesFec;
  }

  lemma ExpandsExactly(s: Stream, i: Input)
    requires Streams.WellFormed(s)
    ensures Counts(s.pendingExpand, Render(s, i))
  {
    hide RenderPlaying, Target, Skip, SkipCount, Ready;
    PlayingCounts(s, Target(s), i);
    PlayingCounts(Activate(s), Target(s), i);
  }

  /** Nothing to play: nothing is buffered, nor is the phantom next. */
  predicate Dry(b: Buffer) {
    b.content == map[] && Wrap(b.pos) != 0
  }

  lemma PlayingBridges(s: Stream, target: nat, i: Input)
    requires s.playing && s.jitter.started && s.hold <= 3
    ensures
      var r := RenderPlaying(s, target, i);
      && (r.op == Some(Expand) <==> Dry(s.jitter) && s.hold < 3)
      && (!r.stream.playing <==> Dry(s.jitter) && s.hold == 3)
      && r.stream.hold == if r.op == Some(Expand) then s.hold + 1 else 0
  {
    hide Wrap, ShouldAccelerate, CarriesFec, Pop;
  }

  /**
   A gap is bridged while a playing stream has nothing to play, for three frames
   in a row; at the next such frame it falls idle, and at no other. Anything
   else it plays, losses included, starts the count anew.
   */
  lemma BridgesExactly(s: Stream, i: Input)
    requires Streams.WellFormed(s)
    ensures
      var (r, dry) := (Render(s, i), s.playing && Dry(s.jitter));
      && (r.op == Some(Expand) <==> dry && s.hold < 3)
      && (s.playing && !r.stream.playing <==> dry && s.hold == 3)
      && r.stream.hold == if r.op == Some(Expand) then s.hold + 1 else 0
  {
    hide RenderPlaying, Target, Skip, SkipCount, Ready, Wrap;
    if s.playing {
      PlayingBridges(s, Target(s), i);
    } else if s.jitter.content != map[] {
      SkipFindsOldest(s.jitter);
      PlayingBridges(Activate(s), Target(s), i);
    }
  }

  /** Expands reported over a run of frames, and those forgotten because the talkspurt ended. */
  function Reported(s: Stream, inputs: seq<Input>): nat
    decreases |inputs|
  {
    if inputs == [] then 0
    else Render(s, inputs[0]).expanded + Reported(Render(s, inputs[0]).stream, inputs[1..])
  }

  function Forgotten(s: Stream, inputs: seq<Input>): nat
    decreases |inputs|
  {
    if inputs == [] then 0
    else (if Render(s, inputs[0]).op == None then s.pendingExpand else 0) + Forgotten(Render(s, inputs[0]).stream, inputs[1..])
  }

  /** Every expand is reported once, when a packet shows that it bridged a gap; or forgotten, when the stream falls idle; or still pending. */
  lemma {:induction false} ExpandsConserved(s: Stream, inputs: seq<Input>)
    requires Streams.WellFormed(s)
    ensures var p := RenderAll(s, inputs);
      Reported(s, inputs) + Forgotten(s, inputs) + p.stream.pendingExpand == s.pendingExpand + CountExpands(p.ops)
    decreases |inputs|
  {
    hide Render, Streams.WellFormed;
    if inputs != [] {
      RenderWellFormed(s, inputs[0]);
      ExpandsExactly(s, inputs[0]);
      ExpandsConserved(Render(s, inputs[0]).stream, inputs[1..]);
    }
  }

  // ── the estimate ──

  /** Rendering leaves the estimate alone, but for a stream that falls idle: its next talkspurt starts without a reference. */
  lemma RenderedEstimate(s: Stream, i: Input)
    requires Streams.WellFormed(s)
    ensures
      var (e, f) := (s.jitter.estimate, Render(s, i).stream.jitter.estimate);
      && f.jitterMs == e.jitterMs
      && if s.playing && !Render(s, i).stream.playing then f.reference == None && f.spurtPackets == 0 else f == e
  {
    hide Wrap, ShouldAccelerate, CarriesFec, InWindow, PopKind;
  }

  // ── the counters ──

  function CountOps(ops: seq<Option<FrameOp>>, kind: FrameOp -> bool): nat {
    if ops == [] then 0
    else CountOps(ops[..|ops| - 1], kind) + if ops[|ops| - 1].Some? && kind(ops[|ops| - 1].value) then 1 else 0
  }

  function TallyAll(d: SenderStreams.Repairs, ops: seq<Option<FrameOp>>): SenderStreams.Repairs {
    if ops == [] then d else SenderStreams.Tally(TallyAll(d, ops[..|ops| - 1]), ops[|ops| - 1], 0)
  }

  /** The diagnostics count each kind of repair once. */
  lemma {:induction false} RepairsCounted(d: SenderStreams.Repairs, ops: seq<Option<FrameOp>>)
    ensures
      var r := TallyAll(d, ops);
      && r.dropped == d.dropped + CountOps(ops, (op: FrameOp) => op.Accelerated?)
      && r.fec == d.fec + CountOps(ops, (op: FrameOp) => op.Fec?)
      && r.plc == d.plc + CountOps(ops, (op: FrameOp) => op.Plc?)
      && r.expanded == d.expanded
  {
    if ops != [] {
      RepairsCounted(d, ops[..|ops| - 1]);
    }
  }
}
