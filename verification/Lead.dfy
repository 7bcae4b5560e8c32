/**
 The lead an idle stream waits for, over bare lists of renders: does the target
 stay buffered once as many frames as were announced are taken? `PumpLead` asks
 the same of real pumps, which never render more than nine frames in a row.
 */
module Lead {
  import opened Config
  import opened Wrappers
  import opened Serial
  import opened Jitter
  import opened Streams
  import opened StreamRuns
  import opened Talkspurts
  import Depths
  import Output
  import OutputRuns

  /** After activation by depth, `pull` frames rendered back to back leave the target buffered. */
  ghost predicate LeadKept(pull: nat) {
    forall s: Stream, inputs: seq<Input> |
      && Streams.WellFormed(s) && !s.playing
      && |inputs| == pull && (inputs != [] ==> inputs[0].pull == pull)
      && |s.jitter.content| >= Target(s) + pull ::
      |RenderAll(s, inputs).stream.jitter.content| >= Target(s)
  }

  lemma RenderKeepsTarget(s: Stream, i: Input)
    ensures Target(Render(s, i).stream) == Target(s)
  {
    hide ShouldAccelerate, Conceal, TargetFrames, PopKind;
  }

  /** A playing stream with packets: one frame takes at most one, unless it drops. */
  lemma FrameTakesOne(s: Stream, i: Input)
    requires Streams.WellFormed(s) && s.playing && s.jitter.content != map[]
    ensures
      var r := Render(s, i);
      && r.stream.playing
      && ((r.op.Some? && r.op.value.Accelerated?)
          || (|r.stream.jitter.content| >= |s.jitter.content| - 1 && |r.stream.depths| == |s.depths| + 1))
  {
    PopLosesAtMostOne(s.jitter);
    assert PopKind(s.jitter) != Empty;
    hide ShouldAccelerate, Conceal, Wrap, Streams.WellFormed, PopKind;
  }

  lemma {:induction false} PlayingLead(s: Stream, inputs: seq<Input>)
    requires Streams.WellFormed(s) && s.playing
    requires |s.depths| + |inputs| <= PLAYOUT_ACCEL_MIN_OBSERVED
    requires |s.jitter.content| >= Target(s) + |inputs|
    ensures |RenderAll(s, inputs).stream.jitter.content| >= Target(s)
    decreases |inputs|
  {
    if inputs != [] {
      var i := inputs[0];
      var r := Render(s, i);
      RenderWellFormed(s, i);
      RenderKeepsTarget(s, i);
      FrameTakesOne(s, i);
      if r.op.Some? && r.op.value.Accelerated? {
        AccelerationSafe(s, i);
        hide Render, Target, Streams.WellFormed;
        PlayingLead(r.stream, inputs[1..]);
      } else {
        hide Render, Target, Streams.WellFormed;
        PlayingLead(r.stream, inputs[1..]);
      }
    }
  }

  /** Up to ten frames at a time the lead is kept, whatever holes the buffer has and whatever the frames are. */
  lemma ShortPullKeepsLead(s: Stream, inputs: seq<Input>)
    requires Streams.WellFormed(s) && !s.playing
    requires 0 < |inputs| <= PLAYOUT_ACCEL_MIN_OBSERVED && inputs[0].pull == |inputs|
    requires |s.jitter.content| >= Target(s) + |inputs|
    ensures |RenderAll(s, inputs).stream.jitter.content| >= Target(s)
  {
    var i := inputs[0];
    var r := Render(s, i);
    assert Ready(s, i);
    RenderWellFormed(s, i);
    RenderKeepsTarget(s, i);
    FirstFrameTakesOne(s, i);
    hide Render, Target, Streams.WellFormed;
    PlayingLead(r.stream, inputs[1..]);
  }

  lemma FirstFrameTakesOne(s: Stream, i: Input)
    requires Streams.WellFormed(s) && !s.playing && s.jitter.content != map[] && Ready(s, i)
    ensures
      var r := Render(s, i);
      && r.stream.playing && |r.stream.depths| == 1
      && |r.stream.jitter.content| >= |s.jitter.content| - 1
  {
    var a := Activate(s);
    SkipFindsOldest(s.jitter);
    PopLosesAtMostOne(a.jitter);
    assert |Depths.Recent([|s.jitter.content|])| == 1;
    hide Wrap, Streams.WellFormed, Ready, Target;
  }

  /** Empty packets at the `n` positions from `a`. */
  function Blanks(a: int, n: nat): (m: map<int, Bytes>)
    ensures forall p :: p in m <==> a <= p < a + n
    ensures forall p <- m :: m[p] == []
    ensures |m| == n
  {
    if n == 0 then map[] else Blanks(a, n - 1)[a + n - 1 := []]
  }

  /** A gapless buffer of `n` packets. */
  function Gapless(e: Estimate, a: int, n: nat): (b: Buffer)
    ensures |b.content| == n && b.estimate == e
  {
    Buffer(a, true, false, Blanks(a, n), 0, e)
  }

  /** Popping a gapless buffer leaves one packet less. */
  lemma GaplessPop(e: Estimate, a: int, n: nat)
    requires 0 < a && 0 < n && a + n < HALF
    ensures PopKind(Gapless(e, a, n)) == PopResult.Packet
    ensures Pop(Gapless(e, a, n)).(provisional := false) == Gapless(e, a + 1, n - 1)
  {
    assert Pop(Gapless(e, a, n)).content == Gapless(e, a + 1, n - 1).content;
  }

  const QUIET := Input(0, 0, true, false)

  function Playing(e: Estimate, a: int, n: nat, depths: seq<nat>): Stream {
    Stream(Gapless(e, a, n), true, None, 0, 0, depths)
  }

  lemma PerfectTarget(s: Stream)
    requires s.jitter.estimate.jitterMs == 0.0
    ensures Target(s) == PLAYOUT_TARGET_MIN_FRAMES
  {
    assert (2.0 * 0.0 + FRAME_MS) / FRAME_MS == 1.0;
  }

  /** One frame of a gapless stream too young to drop takes exactly one packet. */
  lemma YoungFrame(e: Estimate, a: int, n: nat, depths: seq<nat>, i: Input)
    requires 0 < a && 0 < n && a + n < HALF && |depths| + 1 < PLAYOUT_ACCEL_MIN_OBSERVED
    ensures Render(Playing(e, a, n, depths), i).stream == Playing(e, a + 1, n - 1, depths + [n])
    ensures Render(Playing(e, a, n, depths), i).op.Some?
  {
    GaplessPop(e, a, n);
    var s := Playing(e, a, n, depths);
    assert Depths.Recent(depths + [n]) == depths + [n];
    hide Gapless, Pop, PopKind, Wrap, Target, Depths.Recent;
  }

  /** The tenth quiet frame of a deep gapless stream drops one more. */
  lemma TenthFrame(e: Estimate, a: int, n: nat, depths: seq<nat>, i: Input)
    requires 0 < a && 2 <= n && a + n < HALF && i.quiet
    requires |depths| == PLAYOUT_ACCEL_MIN_OBSERVED - 1
    requires e.jitterMs == 0.0 && n > PLAYOUT_TARGET_MIN_FRAMES + 1 && AllAbove(depths, PLAYOUT_TARGET_MIN_FRAMES + 1)
    ensures Render(Playing(e, a, n, depths), i).stream == Playing(e, a + 2, n - 2, [])
    ensures Render(Playing(e, a, n, depths), i).op.Some?
  {
    GaplessPop(e, a, n);
    GaplessPop(e, a + 1, n - 1);
    var s := Playing(e, a, n, depths);
    PerfectTarget(s);
    assert Depths.Recent(depths + [n]) == depths + [n];
    assert a + 1 in Gapless(e, a + 1, n - 1).content;
    hide Gapless, Pop, PopKind, Wrap, Target, Depths.Recent;
  }

  ghost predicate AllAbove(depths: seq<nat>, x: int) {
    forall d <- depths :: d > x
  }

  lemma AboveAppend(depths: seq<nat>, d: nat, x: int)
    requires AllAbove(depths, x) && d > x
    ensures AllAbove(depths + [d], x)
  {
  }

  lemma AboveWeaken(depths: seq<nat>, x: int, y: int)
    requires AllAbove(depths, x) && y <= x
    ensures AllAbove(depths, y)
  {
  }

  lemma RenderAllStep(s: Stream, inputs: seq<Input>)
    ensures RenderAll(s, inputs).stream ==
      if inputs == [] then s else RenderAll(Render(s, inputs[0]).stream, inputs[1..]).stream
  {
  }

  /** `k` young frames of a gapless stream. */
  lemma {:induction false} YoungRun(e: Estimate, a: int, n: nat, depths: seq<nat>, inputs: seq<Input>) returns (later: seq<nat>)
    requires 0 < a && |inputs| <= n && a + n < HALF && |depths| + |inputs| < PLAYOUT_ACCEL_MIN_OBSERVED
    requires AllAbove(depths, n - |inputs|)
    ensures RenderAll(Playing(e, a, n, depths), inputs).stream == Playing(e, a + |inputs|, n - |inputs|, later)
    ensures |later| == |depths| + |inputs| && AllAbove(later, n - |inputs|)
    decreases |inputs|
  {
    hide Render, Gapless, RenderAll, AllAbove;
    RenderAllStep(Playing(e, a, n, depths), inputs);
    if inputs == [] {
      return depths;
    }
    AboveAppend(depths, n, n - |inputs|);
    YoungFrame(e, a, n, depths, inputs[0]);
    later := YoungRun(e, a + 1, n - 1, depths + [n], inputs[1..]);
  }

  lemma {:induction false} RenderAllConcat(s: Stream, x: seq<Input>, y: seq<Input>)
    ensures RenderAll(s, x + y).stream == RenderAll(RenderAll(s, x).stream, y).stream
    decreases |x|
  {
    if x == [] {
      assert x + y == y;
    } else {
      assert (x + y)[1..] == x[1..] + y;
      RenderAllConcat(Render(s, x[0]).stream, x[1..], y);
    }
  }

  /** A stream that holds its first `n` packets and has not started. */
  function Idle(e: Estimate, n: nat, firstIdle: Option<int>): Stream {
    Stream(Gapless(e, 1, n).(provisional := true), false, firstIdle, 0, 0, [])
  }

  /** Enough packets start it, on its oldest one. */
  lemma FirstGaplessFrame(e: Estimate, n: nat, firstIdle: Option<int>, i: Input)
    requires e.jitterMs == 0.0 && 0 < n <= JITTER_BUF_MAX && n >= PLAYOUT_TARGET_MIN_FRAMES + i.pull
    ensures Render(Idle(e, n, firstIdle), i).stream == Playing(e, 2, n - 1, [n])
    ensures Render(Idle(e, n, firstIdle), i).op.Some?
  {
    GaplessPop(e, 1, n);
    var s := Idle(e, n, firstIdle);
    PerfectTarget(s);
    assert Oldest(s.jitter.content, 1, 1 + JITTER_BUF_MAX) == 1;
    assert Activate(s) == Playing(e, 1, n, []).(jitter := Gapless(e, 1, n).(provisional := true));
    assert Pop(Gapless(e, 1, n).(provisional := true)) == Gapless(e, 2, n - 1);
    assert PopKind(Gapless(e, 1, n).(provisional := true)) == PopResult.Packet;
    assert Depths.Recent([n]) == [n];
    hide Gapless, Pop, PopKind, Wrap, Target, Depths.Recent;
  }

  /** The frames of a long pull: the first, eight young ones, the tenth, and the rest. */
  lemma LongPullRun(pull: nat) returns (inputs: seq<Input>, later: seq<nat>)
    requires PLAYOUT_ACCEL_MIN_OBSERVED < pull && PLAYOUT_TARGET_MIN_FRAMES + pull <= JITTER_BUF_MAX
    ensures |inputs| == pull && inputs[0].pull == pull
    ensures RenderAll(Idle(FRESH_ESTIMATE, PLAYOUT_TARGET_MIN_FRAMES + pull, None), inputs).stream == Playing(FRESH_ESTIMATE, 2 + pull, 1, later)
  {
    hide Gapless, Render, RenderAll, Playing, Idle;
    var n := PLAYOUT_TARGET_MIN_FRAMES + pull;
    var q := QUIET.(pull := pull);
    var young, rest := seq(8, _ => q), seq(pull - 10, _ => q);
    var e := FRESH_ESTIMATE;
    FirstGaplessFrame(e, n, None, q);
    var depths := YoungRun(e, 2, n - 1, [n], young);
    AboveWeaken(depths, n - 9, PLAYOUT_TARGET_MIN_FRAMES + 1);
    TenthFrame(e, 10, n - 9, depths, q);
    later := YoungRun(e, 12, n - 11, [], rest);
    inputs := [q] + young + [q] + rest;
    ThreeParts(Idle(e, n, None), q, young, rest);
  }

  lemma LongPullLosesLead(pull: nat)
    requires PLAYOUT_ACCEL_MIN_OBSERVED < pull && PLAYOUT_TARGET_MIN_FRAMES + pull <= JITTER_BUF_MAX
    ensures !LeadKept(pull)
  {
    var s := Idle(FRESH_ESTIMATE, PLAYOUT_TARGET_MIN_FRAMES + pull, None);
    GaplessWellFormed(PLAYOUT_TARGET_MIN_FRAMES + pull);
    PerfectTarget(s);
    hide Render, RenderAll, Target, Streams.WellFormed, Blanks;
    var inputs, later := LongPullRun(pull);
    assert |RenderAll(s, inputs).stream.jitter.content| < Target(s);
  }

  lemma GaplessWellFormed(n: nat)
    requires n <= JITTER_BUF_MAX
    ensures Streams.WellFormed(Idle(FRESH_ESTIMATE, n, None))
  {
  }

  lemma ThreeParts(s: Stream, q: Input, young: seq<Input>, rest: seq<Input>)
    ensures
      var t := RenderAll(Render(s, q).stream, young).stream;
      RenderAll(s, [q] + young + [q] + rest).stream == RenderAll(Render(t, q).stream, rest).stream
  {
    RenderAllConcat(s, [q] + young, [q] + rest);
    RenderAllConcat(s, [q], young);
    assert [q] + young + [q] + rest == ([q] + young) + ([q] + rest);
    RenderOne(s, q);
    var t := RenderAll(Render(s, q).stream, young).stream;
    RenderAllConcat(t, [q], rest);
    RenderOne(t, q);
    hide Render, RenderAll;
  }

  lemma RenderOne(s: Stream, q: Input)
    ensures RenderAll(s, [q]).stream == Render(s, q).stream
  {
    assert [q][1..] == [];
  }

  /**
   The lead is kept exactly for pulls of at most ten frames, or of so many that
   the ring can never hold the lead. In between, ten quiet frames of a deep
   buffer already allow a drop, which takes one packet too many. Such a list of
   renders spans several pumps of a device that asks for more than 8640 samples.
   */
  lemma LeadKeptExactly(pull: nat)
    requires 0 < pull
    ensures LeadKept(pull) <==>
      pull <= PLAYOUT_ACCEL_MIN_OBSERVED || PLAYOUT_TARGET_MIN_FRAMES + pull > JITTER_BUF_MAX
  {
    if PLAYOUT_ACCEL_MIN_OBSERVED < pull && PLAYOUT_TARGET_MIN_FRAMES + pull <= JITTER_BUF_MAX {
      LongPullLosesLead(pull);
    } else {
      forall s: Stream, inputs: seq<Input> |
        && Streams.WellFormed(s) && !s.playing
        && |inputs| == pull && (inputs != [] ==> inputs[0].pull == pull)
        && |s.jitter.content| >= Target(s) + pull
        ensures |RenderAll(s, inputs).stream.jitter.content| >= Target(s)
      {
        AtMostCapacity(s.jitter);
        ShortPullKeepsLead(s, inputs);
      }
    }
  }

  /** Every pull a served device can cause is short enough: the lead the pump asks for is really kept. */
  lemma ServedPullsKeepLead(level: nat, request: nat)
    requires request <= OutputRuns.MAX_REQUEST && level < Output.LowWater(request)
    ensures var pull := Output.PullOf(level, Output.LowWater(request)); 0 < pull <= RING_BUF_FRAMES && LeadKept(pull)
    ensures var pull := Output.PullOf(level, Output.LowWater(request));
      level + (pull - 1) * FRAME_SIZE < Output.LowWater(request) <= level + pull * FRAME_SIZE
  {
    hide LeadKept;
    LeadKeptExactly(Output.PullOf(level, Output.LowWater(request)));
  }
}
