/** When a waiting stream starts: exactly when, and that it never waits for ever. */
module Starts {
  import opened Config
  import opened Wrappers
  import opened Serial
  import opened Jitter
  import opened Streams
  import opened StreamRuns
  import opened StreamTraces
  import Depths

  /** The oldest packet buffered, at position `p`. */
  ghost predicate IsOldest(content: map<int, Bytes>, p: int) {
    p in content && forall q <- content :: p <= q
  }

  /**
   An idle stream with packets whose timer has run since `t` plays its oldest
   one, and nothing else, if and only if it holds its target and the frames the
   output takes now, or has waited 20 ms for each of them. Otherwise nothing
   about it changes.
   */
  lemma StartsExactly(s: Stream, i: Input, t: int, p: int)
    requires Streams.WellFormed(s) && !s.playing && IsOldest(s.jitter.content, p) && s.firstIdle == Some(t)
    ensures
      var (r, lead) := (Render(s, i), Target(s) + i.pull);
      if |s.jitter.content| >= lead || i.now - t >= 20_000_000 * lead
      then r.op == Some(FrameOp.Packet(Wrap(p))) && r.fed == [Some(s.jitter.content[p])] && r.stream.playing
      else r.op == None && r.stream == s
  {
    if |s.jitter.content| >= Target(s) + i.pull || i.now - t >= 20_000_000 * (Target(s) + i.pull) {
      SkipFindsOldest(s.jitter);
      SkipAccounts(s.jitter);
      OldestStarts(s, i);
      ActivationPlaysOldest(s, i);
      hide Render, Wrap, Streams.WellFormed, SkipCount;
    } else {
      WaitingIsPositive(Target(s), i.pull);
      hide Streams.WellFormed, Target;
    }
  }

  lemma WaitingIsPositive(target: nat, pull: nat)
    requires target > 0
    ensures 20_000_000 * (target + pull) > 0
  {
  }

  lemma OldestStarts(s: Stream, i: Input)
    requires Streams.WellFormed(s) && !s.playing && s.jitter.content != map[] && Ready(s, i)
    ensures Render(s, i).op != None
  {
    SkipFindsOldest(s.jitter);
    hide Wrap, InWindow, ShouldAccelerate;
    assert PopKind(Activate(s).jitter) == PopResult.Packet;
  }

  /** A nonempty window has an oldest packet. */
  lemma HasOldest(b: Buffer) returns (p: int)
    requires Jitter.WellFormed(b) && b.content != map[]
    ensures IsOldest(b.content, p)
  {
    SkipFindsOldest(b);
    p := Skip(b).pos;
  }

  // ── the timer ──

  /** A stream that waits: idle, with packets, its timer running since `t`. */
  ghost predicate WaitsSince(s: Stream, t: int) {
    Streams.WellFormed(s) && !s.playing && s.jitter.content != map[] && s.firstIdle == Some(t)
  }

  /** An arrival of a nonzero number, whatever it does, leaves a waiting stream waiting, and its timer running. */
  lemma ArrivalKeepsTimer(s: Stream, t: int, sn: u32, data: Bytes, now: int)
    requires WaitsSince(s, t) && sn != 0
    ensures WaitsSince(Receive(s, sn, data, now).stream, t)
  {
    ReceiveWellFormed(s, sn, data, now);
    assert s.jitter.started;
    PushFate(s.jitter, sn, data, now);
    PushKeepsSome(s.jitter, sn, data, now);
    hide Push, Streams.WellFormed, TooLate, OutOfReach, PlaceOf;
  }

  /** The timer starts with the first arrival that is not too late, on an idle stream, and nothing but a frame stops it. */
  lemma TimerExactly(s: Stream, sn: u32, data: Bytes, now: int)
    requires Streams.WellFormed(s) && sn != 0
    ensures
      var r := Receive(s, sn, data, now).stream;
      && r.firstIdle == (if s.playing || s.firstIdle.Some? || TooLate(s.jitter, sn) then s.firstIdle else Some(now))
      && r.playing == s.playing && r.hold == s.hold && r.pendingExpand == s.pendingExpand && r.depths == s.depths
  {
    hide Push, TooLate, OutOfReach, PlaceOf, InWindow;
    PushFate(s.jitter, sn, data, now);
  }

  lemma PushKeepsSome(b: Buffer, sn: u32, data: Bytes, now: int)
    requires Jitter.WellFormed(b) && b.content != map[] && sn != 0
    ensures Push(b, sn, data, now).buffer.content != map[]
  {
    PushFate(b, sn, data, now);
    hide Push, TooLate, OutOfReach, PlaceOf, Wrap;
  }

  /** An idle stream with packets has a timer, and it was set by an arrival no later than `now`. */
  ghost predicate Timed(s: Stream, now: int) {
    && Streams.WellFormed(s)
    && (!s.playing && s.jitter.content != map[] ==> s.firstIdle.Some?)
    && (s.firstIdle.Some? ==> s.firstIdle.value <= now)
  }

  function TimeOf(e: Event): int {
    if e.Arrival? then e.now else e.i.now
  }

  /** Times never go back, and end by `now`. */
  ghost predicate InTime(events: seq<Event>, now: int) {
    events != [] ==>
      TimeOf(events[|events| - 1]) <= now && InTime(events[..|events| - 1], TimeOf(events[|events| - 1]))
  }

  lemma TimedStep(s: Stream, e: Event, before: int)
    requires Timed(s, before) && before <= TimeOf(e)
    ensures Timed(Step(s, e), TimeOf(e))
  {
    match e
    case Arrival(sn, data, now) =>
      ReceiveWellFormed(s, sn, data, now);
      LateChangesNothing(s.jitter, sn, data, now);
      hide Push, Streams.WellFormed;
    case Frame(i) =>
      RenderWellFormed(s, i);
      IdleAfterFrame(s, i);
      hide Render, Streams.WellFormed;
  }

  lemma LateChangesNothing(b: Buffer, sn: u32, data: Bytes, now: int)
    ensures Push(b, sn, data, now).late ==> Push(b, sn, data, now).buffer.content == b.content
  {
    hide Observe, Wrap, FitsFrom;
  }

  /** After a frame an idle stream has its old packets and timer, or has just fallen idle with neither. */
  lemma IdleAfterFrame(s: Stream, i: Input)
    requires Streams.WellFormed(s)
    ensures var r := Render(s, i).stream;
      && (!r.playing ==> r.jitter.content == map[] || (!s.playing && r.jitter.content == s.jitter.content))
      && (!r.playing && r.jitter.content != map[] ==> r.firstIdle == Some(s.firstIdle.GetOr(i.now)))
      && (r.firstIdle.Some? ==> r.firstIdle == s.firstIdle || r.firstIdle == Some(i.now))
  {
    if s.jitter.content != map[] && !s.playing && Ready(s, i) {
      OldestStarts(s, i);
      ActivationPlaysOldest(s, i);
    }
    hide Pop, Skip, ShouldAccelerate, Conceal, Streams.WellFormed, Wrap;
  }

  /** In every run whose times never go back, an idle stream with packets has its timer running. */
  lemma {:induction false} TimerRuns(events: seq<Event>, now: int)
    requires InTime(events, now)
    ensures Timed(Run(FRESH_TRACE, events).stream, now)
  {
    if events != [] {
      hide Timed, Step;
      var init, e := events[..|events| - 1], events[|events| - 1];
      TimerRuns(init, TimeOf(e));
      TimedStep(Run(FRESH_TRACE, init).stream, e, TimeOf(e));
      TimedLater(Run(FRESH_TRACE, events).stream, TimeOf(e), now);
    }
  }

  lemma TimedLater(s: Stream, before: int, now: int)
    requires Timed(s, before) && before <= now
    ensures Timed(s, now)
  {
  }

  // ── nothing waits for ever ──

  /** Frames come at most 20 ms apart, from `last` on, and take at most `pull` frames each. */
  ghost predicate Cadenced(events: seq<Event>, last: int, pull: nat)
    decreases |events|
  {
    events != [] ==>
      match events[0]
      case Arrival(_, _, _) => Cadenced(events[1..], last, pull)
      case Frame(i) => last <= i.now <= last + FRAME_NS && i.pull <= pull && Cadenced(events[1..], i.now, pull)
  }

  /** The time of the first frame that plays anything. */
  ghost function FirstPlay(s: Stream, events: seq<Event>): Option<int>
    decreases |events|
  {
    if events == [] then None
    else if events[0].Frame? && Render(s, events[0].i).op.Some? then Some(events[0].i.now)
    else FirstPlay(Step(s, events[0]), events[1..])
  }

  /** The longest a stream that has waited since `t` can still wait. */
  function Deadline(t: int, pull: nat): int {
    t + FRAME_NS * (PLAYOUT_TARGET_MAX_FRAMES + pull)
  }

  function Later(a: int, b: int): int {
    if a < b then b else a
  }

  lemma WaitsLess(s: Stream, t: int, i: Input, pull: nat)
    requires WaitsSince(s, t) && i.pull <= pull
    ensures Render(s, i).op == None ==> Render(s, i).stream == s && i.now < Deadline(t, pull)
    ensures Render(s, i).op == None ==> |s.jitter.content| < Target(s) + i.pull && i.now - t < FRAME_NS * (Target(s) + i.pull)
  {
    var p := HasOldest(s.jitter);
    StartsExactly(s, i, t, p);
    LongerWait(Target(s) + i.pull, PLAYOUT_TARGET_MAX_FRAMES + pull);
    hide Render, Streams.WellFormed;
  }

  lemma LongerWait(a: nat, b: nat)
    requires a <= b
    ensures FRAME_NS * a <= FRAME_NS * b
  {
  }

  /**
   Nothing waits for ever: whatever else arrives, with frames at most 20 ms
   apart a waiting stream starts within 20 ms of its deadline, its target at
   its largest and the pull counted in full.
   */
  lemma {:induction false} StartsInTime(s: Stream, t: int, events: seq<Event>, last: int, pull: nat)
    requires WaitsSince(s, t) && NoneCarries(events, 0)
    requires Cadenced(events, last, pull)
    requires exists e <- events :: e.Frame? && e.i.now >= Deadline(t, pull)
    ensures FirstPlay(s, events).Some? && FirstPlay(s, events).value <= Later(last, Deadline(t, pull)) + FRAME_NS
    decreases |events|
  {
    var e := events[0];
    hide WaitsSince, Render, Receive, Deadline;
    assert forall f <- events[1..] :: f in events;
    if e.Arrival? {
      ArrivalKeepsTimer(s, t, e.sn, e.data, e.now);
      StartsInTime(Step(s, e), t, events[1..], last, pull);
    } else if Render(s, e.i).op == None {
      WaitsLess(s, t, e.i, pull);
      StartsInTime(s, t, events[1..], e.i.now, pull);
    }
  }

  /**
   From the start of the stream: after any run whose times never go back, what
   an idle stream has buffered at `now` starts playing by the deadline of `now`.
   */
  lemma HeardInTime(before: seq<Event>, now: int, events: seq<Event>, pull: nat)
    requires InTime(before, now) && NoneCarries(events, 0) && Cadenced(events, now, pull)
    requires exists e <- events :: e.Frame? && e.i.now >= Deadline(now, pull)
    ensures
      var s := Run(FRESH_TRACE, before).stream;
      !s.playing && s.jitter.content != map[] ==>
        FirstPlay(s, events).Some? && FirstPlay(s, events).value <= Deadline(now, pull) + FRAME_NS
  {
    TimerRuns(before, now);
    var s := Run(FRESH_TRACE, before).stream;
    hide Run, Streams.WellFormed;
    if !s.playing && s.jitter.content != map[] {
      StartsInTime(s, s.firstIdle.value, events, now, pull);
    }
  }
}
