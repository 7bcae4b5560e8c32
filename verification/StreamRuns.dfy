/** What one sender's playout guarantees, over single renders and over whole runs. */
module StreamRuns {
  import opened Config
  import opened Wrappers
  import opened Serial
  import opened Jitter
  import opened Streams
  import Depths

  /** The packets from position `from` on. */
  function Rest(content: map<int, Bytes>, from: int): map<int, Bytes> {
    map p | p in content && p >= from :: content[p]
  }

  /** Outcome number `k` is a packet exactly when position `from + k` was buffered, away from sequence number 0. */
  ghost predicate Accounts(content: map<int, Bytes>, from: int, outcomes: seq<bool>) {
    forall k | 0 <= k < |outcomes| && Wrap(from + k) != 0 :: outcomes[k] <==> from + k in content
  }

  lemma RestOfWindow(b: Buffer)
    requires Jitter.WellFormed(b)
    ensures Rest(b.content, b.pos) == b.content
  {
  }

  lemma RestCompose(content: map<int, Bytes>, a: int, b: int)
    requires a <= b
    ensures Rest(Rest(content, a), b) == Rest(content, b)
    ensures forall p | p >= a :: p in Rest(content, a) <==> p in content
  {
  }

  function OutcomeOf(kind: PopResult): seq<bool> {
    match kind
    case Packet => [true]
    case Missing => [false]
    case Empty => []
  }

  /** One pop consumes what its outcome says. */
  lemma PopAccounts(b: Buffer)
    requires Jitter.WellFormed(b)
    ensures Jitter.WellFormed(Pop(b))
    ensures Pop(b).content == Rest(b.content, Pop(b).pos)
    ensures Accounts(b.content, b.pos, OutcomeOf(PopKind(b)))
    ensures Pop(b).pos == b.pos + |OutcomeOf(PopKind(b))|
  {
    PopWellFormed(b);
  }

  /** Passing over a hole at the head of a talkspurt: one loss per position, and no packet is passed over. */
  lemma SkipAccounts(b: Buffer)
    requires Jitter.WellFormed(b)
    ensures Accounts(b.content, b.pos, Losses(SkipCount(b)))
    ensures Skip(b).pos == b.pos + SkipCount(b)
  {
  }

  lemma AccountsConcat(content: map<int, Bytes>, from: int, a: seq<bool>, b: seq<bool>, rest: map<int, Bytes>)
    requires Accounts(content, from, a) && Accounts(rest, from + |a|, b)
    requires forall p | p >= from + |a| :: p in rest <==> p in content
    ensures Accounts(content, from, a + b)
  {
    forall k | 0 <= k < |a + b| && Wrap(from + k) != 0
      ensures (a + b)[k] <==> from + k in content
    {
      if k >= |a| {
        assert (a + b)[k] == b[k - |a|];
        assert from + k == from + |a| + (k - |a|);
      }
    }
  }

  /** Frames consumed by what was rendered. */
  function Advance(op: Option<FrameOp>): nat {
    match op
    case None => 0
    case Some(Expand) => 0
    case Some(Accelerated(_, _)) => 2
    case Some(_) => 1
  }

  /** A render that started from buffer `b` recorded exactly what it consumed. */
  ghost predicate Conserves(r: Rendered, b: Buffer) {
    && |r.outcomes| == r.stream.jitter.pos - b.pos
    && Accounts(b.content, b.pos, r.outcomes)
    && r.stream.jitter.content == Rest(b.content, r.stream.jitter.pos)
  }

  lemma PacketConserves(b: Buffer, t: Stream, sn: u32, target: nat, quiet: bool)
    requires Jitter.WellFormed(b) && PopKind(b) == PopResult.Packet && t.jitter == Pop(b)
    ensures var r := PlayPacket(t, sn, Head(b), target, quiet);
      Conserves(r, b) && |r.outcomes| == Advance(r.op)
  {
    var popped := Pop(b);
    PopAccounts(b);
    PopAccounts(popped);
    RestCompose(b.content, popped.pos, Pop(popped).pos);
    if popped.pos in popped.content {
      AccountsConcat(b.content, b.pos, [true], OutcomeOf(PopKind(popped)), popped.content);
      assert [true] + [true] == [true, true];
    }
    hide Pop, Wrap, Jitter.WellFormed, ShouldAccelerate, Accounts, Rest;
  }

  lemma UnderrunConsumesNothing(t: Stream)
    ensures var r := Underrun(t);
      r.outcomes == [] && Advance(r.op) == 0 && r.stream.jitter.pos == t.jitter.pos && r.stream.jitter.content == t.jitter.content
  {
  }

  /** A playing stream: what is recorded is what was consumed. */
  lemma PlayingConserves(s: Stream, target: nat, i: Input)
    requires Streams.WellFormed(s) && s.playing
    ensures var r := RenderPlaying(s, target, i);
      Conserves(r, s.jitter) && |r.outcomes| == Advance(r.op)
  {
    var b := s.jitter;
    assert Jitter.WellFormed(b);
    var t := s.(jitter := Pop(b), depths := s.depths + [|b.content|]);
    hide Pop, PopKind, Wrap, Streams.WellFormed, Jitter.WellFormed, PlayPacket, Underrun, Accounts, Rest, Conceal;
    PopAccounts(b);
    match PopKind(b)
    case Packet => PacketConserves(b, t, Wrap(b.pos), target, i.quiet);
    case Missing =>
    case Empty =>
      RestOfWindow(b);
      UnderrunConsumesNothing(t);
  }

  /**
   Conservation: every render records exactly one outcome for each sequence
   number it consumes: a packet where one was buffered, a loss where there was
   a hole. A drop consumes two, an expand none, a skipped hole one loss each.
   */
  lemma RenderConserves(s: Stream, i: Input)
    requires Streams.WellFormed(s)
    ensures
      var r := Render(s, i);
      var skipped := if s.playing || r.op == None then 0 else SkipCount(s.jitter);
      Conserves(r, s.jitter) && |r.outcomes| == skipped + Advance(r.op)
  {
    if s.playing {
      hide Accounts, Rest, Streams.WellFormed, RenderPlaying;
      PlayingConserves(s, Target(s), i);
    } else if s.jitter.content == map[] || !Ready(s, i) {
      RestOfWindow(s.jitter);
    } else {
      ActivationConserves(s, i);
      ActivationPlaysOldest(s, i);
      hide Streams.WellFormed, Accounts, Rest, RenderPlaying;
    }
  }

  lemma ActivationConserves(s: Stream, i: Input)
    requires Streams.WellFormed(s) && !s.playing && s.jitter.started
    ensures
      var r := RenderPlaying(Activate(s), Target(s), i);
      Conserves(r.(outcomes := Losses(SkipCount(s.jitter)) + r.outcomes), s.jitter)
  {
    var a := Activate(s);
    PopWellFormed(s.jitter);
    SkipAccounts(s.jitter);
    hide Accounts, Skip, SkipCount, Rest, Wrap, InWindow, RenderPlaying;
    PlayingConserves(a, Target(s), i);
    AccountsConcat(s.jitter.content, s.jitter.pos, Losses(SkipCount(s.jitter)),
      RenderPlaying(a, Target(s), i).outcomes, a.jitter.content);
  }

  /** What an operation says about the position `end` of the next packet to play. */
  ghost predicate Names(op: Option<FrameOp>, end: int, content: map<int, Bytes>) {
    match op
    case Some(Packet(sn)) => sn == Wrap(end - 1)
    case Some(Accelerated(d, p)) => d == Wrap(end - 2) && p == Wrap(end - 1)
    case Some(Fec(next)) => next == Wrap(end) && end in content
    case _ => true
  }

  lemma PopPosition(b: Buffer)
    ensures Pop(b).pos == b.pos + if PopKind(b) == Empty then 0 else 1
  {
  }

  lemma ConcealNames(b: Buffer, fecOk: bool)
    ensures Names(Some(Conceal(b, fecOk)), b.pos, b.content)
  {
  }

  lemma PlayingNames(s: Stream, target: nat, i: Input)
    requires Streams.WellFormed(s) && s.playing
    ensures var r := RenderPlaying(s, target, i); Names(r.op, r.stream.jitter.pos, r.stream.jitter.content)
  {
    PopPosition(s.jitter);
    PopPosition(Pop(s.jitter));
    ConcealNames(Pop(s.jitter), i.fecOk);
    hide Pop, Wrap, Streams.WellFormed, ShouldAccelerate, Conceal;
  }

  /** The operation names the sequence numbers it consumed, and FEC names the one still to come, which is buffered. */
  lemma OpNamesPositions(s: Stream, i: Input)
    requires Streams.WellFormed(s)
    ensures var r := Render(s, i); Names(r.op, r.stream.jitter.pos, r.stream.jitter.content)
  {
    if s.playing {
      PlayingNames(s, Target(s), i);
    } else if Render(s, i).op != None {
      RenderConserves(s, i);
      ActivationPlaysOldest(s, i);
      hide Render, Wrap, Streams.WellFormed, Accounts, Rest, Losses;
    }
  }

  /**
   Activation: the first frame of a talkspurt is the oldest buffered packet,
   never concealment, and everything before it is counted lost.
   */
  lemma ActivationPlaysOldest(s: Stream, i: Input)
    requires Streams.WellFormed(s) && !s.playing && Render(s, i).op != None
    ensures
      var r := Render(s, i);
      var oldest := s.jitter.pos + SkipCount(s.jitter);
      && oldest in s.jitter.content
      && (forall p <- s.jitter.content :: oldest <= p)
      && r.op == Some(FrameOp.Packet(Wrap(oldest)))
      && r.fed == [Some(s.jitter.content[oldest])]
      && r.outcomes == Losses(SkipCount(s.jitter)) + [true]
      && r.stream.playing
  {
    SkipFindsOldest(s.jitter);
    hide Wrap, InWindow;
    var depths := [|s.jitter.content|];
    assert |Depths.Recent(depths)| == 1;
  }

  /**
   Acceleration is safe: a drop happens only when all of the last (at least 10,
   at most 50) depths since activation or the previous drop exceeded
   target + 1, and leaves the target buffered.
   */
  lemma AccelerationSafe(s: Stream, i: Input)
    requires Streams.WellFormed(s)
    ensures
      var r := Render(s, i);
      var depths := s.depths + [|s.jitter.content|];
      r.op.Some? && r.op.value.Accelerated? ==>
        && s.playing
        && |Depths.Recent(depths)| >= PLAYOUT_ACCEL_MIN_OBSERVED
        && |Depths.Recent(depths)| <= PLAYOUT_ACCEL_WINDOW_FRAMES
        && (forall d <- Depths.Recent(depths) :: d > Target(s) + 1)
        && |r.stream.jitter.content| >= Target(s)
        && r.stream.depths == []
  {
    if !s.playing && Render(s, i).op != None {
      ActivationPlaysOldest(s, i);
    }
    var depths := s.depths + [|s.jitter.content|];
    DeepWindow(depths, Target(s), i.quiet);
    PopLosesAtMostOne(s.jitter);
    PopLosesAtMostOne(Pop(s.jitter));
    hide Wrap, Pop, ShouldAccelerate, Streams.WellFormed, Depths.Recent, Conceal;
  }

  /** What the acceleration test says about the recorded depths. */
  lemma DeepWindow(depths: seq<nat>, target: nat, quiet: bool)
    requires depths != []
    ensures |Depths.Recent(depths)| <= PLAYOUT_ACCEL_WINDOW_FRAMES
    ensures ShouldAccelerate(depths, target, quiet) ==>
      && |Depths.Recent(depths)| >= PLAYOUT_ACCEL_MIN_OBSERVED
      && (forall d <- Depths.Recent(depths) :: d > target + 1)
      && depths[|depths| - 1] > target + 1
  {
    var recent := Depths.Recent(depths);
    assert recent[|recent| - 1] == depths[|depths| - 1];
    assert depths[|depths| - 1] in recent;
  }

  lemma PopLosesAtMostOne(b: Buffer)
    ensures |b.content| - 1 <= |Pop(b).content| <= |b.content|
  {
    var c := b.content - {b.pos};
    assert c.Keys == b.content.Keys - {b.pos};
  }
}
