/** Runs of frames with no arrivals in between: how a talkspurt starts, drains and falls silent. */
module Talkspurts {
  import opened Config
  import opened Wrappers
  import opened Serial
  import opened Jitter
  import opened Streams
  import opened StreamRuns

  /** A run of renders: the stream left, and what all of them did, in order. */
  datatype Playback = Playback(
    stream: Stream,
    ops: seq<Option<FrameOp>>,
    outcomes: seq<bool>,
    fed: seq<Option<Bytes>>)

  function RenderAll(s: Stream, inputs: seq<Input>): (p: Playback)
    ensures |p.ops| == |inputs|
    decreases |inputs|
  {
    if inputs == [] then Playback(s, [], [], [])
    else
      var r := Render(s, inputs[0]);
      var rest := RenderAll(r.stream, inputs[1..]);
      Playback(rest.stream, [r.op] + rest.ops, r.outcomes + rest.outcomes, r.fed + rest.fed)
  }

  /** `last` is just past the newest buffered packet; the start itself when nothing is buffered. */
  ghost predicate ReachesTo(b: Buffer, last: int) {
    if b.content == map[] then last == b.pos
    else b.pos < last && last - 1 in b.content && forall p <- b.content :: p < last
  }

  /** Where playing ends: past the newest packet, and past the phantom at number 0 if that comes next. */
  ghost predicate IsEnd(b: Buffer, end: int) {
    Wrap(end) != 0 && (ReachesTo(b, end) || (Wrap(end - 1) == 0 && ReachesTo(b, end - 1)))
  }

  /** The position plays as a packet: a buffered one, or the phantom at number 0. */
  predicate Plays(content: map<int, Bytes>, p: int) {
    p in content || Wrap(p) == 0
  }

  /** One entry per position: played or lost. */
  function Presence(content: map<int, Bytes>, a: int, b: int): (r: seq<bool>)
    requires a <= b
    ensures |r| == b - a && forall k | 0 <= k < b - a :: r[k] <==> Plays(content, a + k)
  {
    seq(b - a, k => Plays(content, a + k))
  }

  /** The packets played in [a, b), in stream order; `None` is the phantom. */
  function Packets(content: map<int, Bytes>, a: int, b: int): seq<Option<Bytes>>
    requires a <= b
    decreases b - a
  {
    if a == b then []
    else (if a in content then [Some(content[a])] else if Wrap(a) == 0 then [None] else []) + Packets(content, a + 1, b)
  }

  lemma {:induction false} PacketsSplit(content: map<int, Bytes>, a: int, m: int, b: int)
    requires a <= m <= b
    ensures Packets(content, a, b) == Packets(content, a, m) + Packets(Rest(content, m), m, b)
    decreases m - a
  {
    if a == m {
      PacketsOfRest(content, m, m, b);
    } else {
      PacketsSplit(content, a + 1, m, b);
    }
  }

  lemma {:induction false} PacketsOfRest(content: map<int, Bytes>, m: int, a: int, b: int)
    requires m <= a <= b
    ensures Packets(Rest(content, m), a, b) == Packets(content, a, b)
    decreases b - a
  {
    if a < b {
      PacketsOfRest(content, m, a + 1, b);
    }
  }

  function CountExpands(ops: seq<Option<FrameOp>>): nat {
    if ops == [] then 0 else (if ops[0] == Some(Expand) then 1 else 0) + CountExpands(ops[1..])
  }

  /** Every buffer has such an end. */
  lemma HasEnd(b: Buffer) returns (end: int)
    requires Jitter.WellFormed(b)
    ensures IsEnd(b, end)
  {
    var last := b.pos;
    if p: int :| p in b.content {
      last := b.pos + JITTER_BUF_MAX;
      while last - 1 !in b.content
        invariant b.pos <= p < last && forall q <- b.content :: q < last
        decreases last - b.pos
      {
        last := last - 1;
      }
    } else {
      assert b.content == map[];
    }
    end := if Wrap(last) == 0 then last + 1 else last;
  }

  /** A stream that is draining towards `end`. */
  ghost predicate Draining(s: Stream, end: int) {
    && Streams.WellFormed(s)
    && s.playing
    && IsEnd(s.jitter, end)
  }

  /** One frame of a draining stream that has not reached its end: it moves on, in order, and never past it. */
  lemma DrainPacket(s: Stream, end: int, i: Input)
    requires Draining(s, end) && s.jitter.pos != end
    ensures
      var r := Render(s, i);
      && Draining(r.stream, end) && r.stream.hold == 0
      && s.jitter.pos < r.stream.jitter.pos <= end
      && r.op != Some(Expand)
      && r.outcomes == Presence(s.jitter.content, s.jitter.pos, r.stream.jitter.pos)
      && r.fed == Packets(s.jitter.content, s.jitter.pos, r.stream.jitter.pos)
      && r.stream.jitter.content == Rest(s.jitter.content, r.stream.jitter.pos)
  {
    var b := s.jitter;
    RenderWellFormed(s, i);
    RenderConserves(s, i);
    FedByPlaying(s, i);
    var c := Render(s, i).stream.jitter;
    hide Render, Streams.WellFormed, Wrap, Packets, Presence, Accounts;
    StillEnds(b, c, end);
  }

  /** Consuming the first position, or the first two when the second is buffered, leaves the end where it was. */
  lemma StillEnds(b: Buffer, c: Buffer, end: int)
    requires IsEnd(b, end) && b.pos != end && b.pos < c.pos && c.content == Rest(b.content, c.pos)
    requires forall p <- b.content :: b.pos <= p
    requires forall p | b.pos < p < c.pos :: p in b.content
    ensures c.pos <= end && IsEnd(c, end)
  {
    hide Wrap;
    var last := if ReachesTo(b, end) then end else end - 1;
    if b.content != map[] {
      assert last - 1 in b.content;
      assert c.pos > last ==> last in b.content;
      assert c.pos <= last;
      if c.pos < last {
        assert last - 1 in c.content;
      } else {
        assert c.content == map[];
      }
    } else {
      assert forall p :: p !in c.content;
      assert c.content == map[];
      assert c.pos > b.pos + 1 ==> b.pos + 1 in b.content;
      assert c.pos == b.pos + 1;
    }
  }

  /** The first one and two positions of a window, as packets. */
  lemma FirstPackets(b: Buffer)
    ensures Packets(b.content, b.pos, b.pos + 1) ==
      if b.pos in b.content then [Head(b)] else if Wrap(b.pos) == 0 then [None] else []
    ensures Plays(b.content, b.pos) && b.started && b.pos + 1 in Pop(b).content ==>
      && Packets(b.content, b.pos, b.pos + 2) == [Head(b), Head(Pop(b))]
      && Pop(Pop(b)).pos == b.pos + 2
  {
    assert Packets(b.content, b.pos + 1, b.pos + 1) == [];
    assert Packets(b.content, b.pos + 2, b.pos + 2) == [];
  }

  lemma PresenceSplit(content: map<int, Bytes>, a: int, m: int, b: int)
    requires a <= m <= b
    ensures Presence(content, a, b) == Presence(content, a, m) + Presence(Rest(content, m), m, b)
  {
    hide Wrap;
  }

  lemma FirstPresence(content: map<int, Bytes>, a: int)
    ensures Presence(content, a, a + 1) == [Plays(content, a)]
    ensures Presence(content, a, a + 2) == [Plays(content, a), Plays(content, a + 1)]
  {
    hide Plays;
  }

  /** A frame that starts from buffer `b` plays its first position, or its first two when the second is buffered. */
  ghost predicate PlaysOn(r: Rendered, b: Buffer) {
    && b.pos < r.stream.jitter.pos
    && r.stream.playing && r.stream.hold == 0 && r.op != Some(Expand)
    && r.outcomes == Presence(b.content, b.pos, r.stream.jitter.pos)
    && r.fed == Packets(b.content, b.pos, r.stream.jitter.pos)
    && (forall p | b.pos < p < r.stream.jitter.pos :: p in b.content)
  }

  lemma PacketPlaysOn(b: Buffer, t: Stream, sn: u32, target: nat, quiet: bool)
    requires PopKind(b) == PopResult.Packet && Plays(b.content, b.pos) && b.started && t.playing && t.jitter == Pop(b)
    ensures PlaysOn(PlayPacket(t, sn, Head(b), target, quiet), b)
  {
    FirstPackets(b);
    FirstPresence(b.content, b.pos);
    hide Wrap, ShouldAccelerate, Packets, Presence;
  }

  lemma LossPlaysOn(b: Buffer, t: Stream, fecOk: bool)
    requires PopKind(b) == PopResult.Missing && t.playing && t.hold == 0 && t.jitter == Pop(b)
    ensures PlaysOn(Rendered(t, Some(Conceal(Pop(b), fecOk)), [false], [], 0), b)
  {
    FirstPackets(b);
    FirstPresence(b.content, b.pos);
    hide Wrap, Packets, Presence;
  }

  lemma FedByPlaying(s: Stream, i: Input)
    requires Streams.WellFormed(s) && s.playing && (s.jitter.content != map[] || Wrap(s.jitter.pos) == 0)
    ensures PlaysOn(Render(s, i), s.jitter)
  {
    var b := s.jitter;
    var t := s.(jitter := Pop(b), depths := s.depths + [|b.content|]);
    assert PopKind(b) != Empty && (PopKind(b) == PopResult.Packet ==> Plays(b.content, b.pos)) && b.started;
    hide Pop, PopKind, Wrap, Streams.WellFormed, PlaysOn, PlayPacket, Plays, Conceal;
    match PopKind(b)
    case Packet => PacketPlaysOn(b, t, Wrap(b.pos), Target(s), i.quiet);
    case Missing => LossPlaysOn(b, t.(hold := 0), i.fecOk);
  }

  /** One frame of a draining stream at its end: expand, or give up after the hold. */
  lemma DrainUnderrun(s: Stream, end: int, i: Input)
    requires Draining(s, end) && s.jitter.pos == end
    ensures
      var r := Render(s, i);
      && r.outcomes == [] && r.fed == [] && r.stream.jitter.content == map[] && r.stream.jitter.pos == end
      && if s.hold < PLAYOUT_HOLD_FRAMES
         then r.op == Some(Expand) && r.stream.hold == s.hold + 1 && Draining(r.stream, end)
         else r.op == None && !r.stream.playing
  {
    RenderWellFormed(s, i);
    NothingAtEnd(s.jitter, end);
    hide Wrap, Streams.WellFormed;
  }

  lemma NothingAtEnd(b: Buffer, end: int)
    requires Jitter.WellFormed(b) && IsEnd(b, end)
    ensures b.pos <= end
    ensures b.pos == end ==> b.content == map[] && Wrap(b.pos) != 0 && PopKind(b) == Empty && Pop(b) == b
    ensures b.pos != end ==> b.content != map[] || Wrap(b.pos) == 0
  {
    hide Wrap;
  }

  /** A stream with nothing playing and nothing buffered. */
  predicate Silent(s: Stream) {
    !s.playing && s.jitter.content == map[]
  }

  /** Quiescence: a silent stream renders nothing, records nothing and keeps its whole sequence state, for ever. */
  lemma {:induction false} SilentStaysSilent(s: Stream, inputs: seq<Input>)
    requires Silent(s)
    ensures
      var p := RenderAll(s, inputs);
      && p.stream == (if inputs == [] then s else s.(firstIdle := None))
      && p.outcomes == [] && p.fed == []
      && (forall k | 0 <= k < |inputs| :: p.ops[k] == None)
    decreases |inputs|
  {
    if inputs != [] {
      SilentStaysSilent(Render(s, inputs[0]).stream, inputs[1..]);
    }
  }

  lemma {:induction false} NoExpands(ops: seq<Option<FrameOp>>)
    requires forall k | 0 <= k < |ops| :: ops[k] == None
    ensures CountExpands(ops) == 0
  {
    if ops != [] {
      NoExpands(ops[1..]);
    }
  }

  /** Frames a draining stream may still take before it is silent. */
  ghost function DrainBudget(s: Stream, end: int): int {
    end - s.jitter.pos + Bridging(s, end) + 1
  }

  /** Expand frames a draining stream still plays. */
  ghost function Bridging(s: Stream, end: int): int {
    if s.jitter.pos == end then PLAYOUT_HOLD_FRAMES - s.hold else PLAYOUT_HOLD_FRAMES
  }

  /** What a stream that drains towards `end` plays. */
  ghost predicate Drained(p: Playback, s: Stream, end: int)
    requires s.jitter.pos <= end
  {
    && Silent(p.stream) && p.stream.jitter.pos == end
    && p.outcomes == Presence(s.jitter.content, s.jitter.pos, end)
    && p.fed == Packets(s.jitter.content, s.jitter.pos, end)
    && CountExpands(p.ops) == Bridging(s, end)
  }

  /**
   Drain: with no more arrivals, a playing stream decodes every buffered packet
   once and in order, records one loss for each hole, bridges with exactly the
   remaining hold of expand frames, and then is silent with everything
   consumed. A hole at number 0 plays as the phantom packet instead.
   */
  lemma {:induction false} StreamDrains(s: Stream, end: int, inputs: seq<Input>)
    requires Draining(s, end) && |inputs| >= DrainBudget(s, end)
    ensures s.jitter.pos <= end && Drained(RenderAll(s, inputs), s, end)
    decreases |inputs|, 1
  {
    NothingAtEnd(s.jitter, end);
    if s.jitter.pos != end {
      DrainFrame(s, end, inputs);
    } else {
      DrainEnd(s, end, inputs);
    }
  }

  lemma {:induction false} DrainEnd(s: Stream, end: int, inputs: seq<Input>)
    requires Draining(s, end) && |inputs| >= DrainBudget(s, end) && s.jitter.pos == end
    ensures Drained(RenderAll(s, inputs), s, end)
    decreases |inputs|, 0
  {
    var r := Render(s, inputs[0]);
    var rest := RenderAll(r.stream, inputs[1..]);
    DrainUnderrun(s, end, inputs[0]);
    hide Render, Draining, Wrap;
    if s.hold < PLAYOUT_HOLD_FRAMES {
      StreamDrains(r.stream, end, inputs[1..]);
    } else {
      SilentStaysSilent(r.stream, inputs[1..]);
      NoExpands(rest.ops);
    }
  }

  lemma {:induction false} DrainFrame(s: Stream, end: int, inputs: seq<Input>)
    requires Draining(s, end) && |inputs| >= DrainBudget(s, end) && s.jitter.pos != end
    ensures s.jitter.pos <= end && Drained(RenderAll(s, inputs), s, end)
    decreases |inputs|, 0
  {
    NothingAtEnd(s.jitter, end);
    var r := Render(s, inputs[0]);
    DrainPacket(s, end, inputs[0]);
    hide Render, Draining, IsEnd, Packets, Presence, Rest;
    StreamDrains(r.stream, end, inputs[1..]);
    PresenceSplit(s.jitter.content, s.jitter.pos, r.stream.jitter.pos, end);
    PacketsSplit(s.jitter.content, s.jitter.pos, r.stream.jitter.pos, end);
  }
}
