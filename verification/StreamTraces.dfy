/** Whole runs of one sender: arrivals and frames in any order. */
module StreamTraces {
  import opened Config
  import opened Wrappers
  import opened Serial
  import opened Jitter
  import opened Streams
  import opened StreamRuns
  import Stats

  datatype Event = Arrival(sn: u32, data: Bytes, now: int) | Frame(i: Input)

  /** What became of one stream position: lost, or decoded under its number (`None`: the phantom's leftover bytes). */
  datatype Entry = Lost | Decoded(sn: u32, data: Option<Bytes>)

  /**
   A stream with what its renders reported since its last restart: one entry
   per position from `first` on. Of the same time are the packets that arrived,
   the positions ever buffered, with the bytes last buffered there, and those a
   push took out again.
   */
  datatype Trace = Trace(
    stream: Stream,
    first: int,
    log: seq<Entry>,
    arrived: set<(u32, Bytes)>,
    accepted: map<int, Bytes>,
    evicted: set<int>)

  /** The numbers an operation plays. */
  function Numbers(op: Option<FrameOp>): seq<u32> {
    match op
    case Some(Packet(sn)) => [sn]
    case Some(Accelerated(d, p)) => [d, p]
    case _ => []
  }

  /** What one render reports: the losses recorded, then the numbers played with the bytes fed to the decoder. */
  function Entries(r: Rendered): seq<Entry> {
    seq(Stats.CountLost(r.outcomes), _ => Lost) +
    seq(|Numbers(r.op)|, k requires 0 <= k < |Numbers(r.op)| =>
      Decoded(Numbers(r.op)[k], if k < |r.fed| then r.fed[k] else None))
  }

  ghost predicate Restarts(s: Stream, e: Event) {
    e.Arrival? && PushResets(s.jitter, e.sn)
  }

  function Step(s: Stream, e: Event): Stream {
    match e
    case Arrival(sn, data, now) => Receive(s, sn, data, now).stream
    case Frame(i) => Render(s, i).stream
  }

  ghost function Next(t: Trace, e: Event): Trace {
    var s := Step(t.stream, e);
    match e
    case Arrival(sn, data, _) =>
      if Restarts(t.stream, e) then Trace(s, s.jitter.pos, [], {(sn, data)}, s.jitter.content, {})
      else
        Trace(s, if t.log == [] then s.jitter.pos else t.first, t.log, t.arrived + {(sn, data)},
          t.accepted + s.jitter.content, t.evicted + (t.stream.jitter.content.Keys - s.jitter.content.Keys))
    case Frame(i) => t.(stream := s, log := t.log + Entries(Render(t.stream, i)))
  }

  ghost function Run(t: Trace, events: seq<Event>): Trace {
    if events == [] then t else Next(Run(t, events[..|events| - 1]), events[|events| - 1])
  }

  const FRESH_TRACE := Trace(Streams.FRESH, 0, [], {}, map[], {})

  /** The entry of position `p`: a decoded one carries the number of `p`, and bytes that arrived under it. */
  ghost predicate EntryOf(e: Entry, p: int, arrived: set<(u32, Bytes)>) {
    e.Decoded? ==>
      && e.sn == Wrap(p)
      && if e.data.Some? then (e.sn, e.data.value) in arrived else e.sn == 0
  }

  /** Every packet still buffered arrived under its number. */
  ghost predicate Sourced(content: map<int, Bytes>, arrived: set<(u32, Bytes)>) {
    forall p <- content :: (Wrap(p), content[p]) in arrived
  }

  /** The log says that `data` was decoded at position `p`. */
  predicate Played(t: Trace, p: int, data: Bytes) {
    t.first <= p < t.first + |t.log| && t.log[p - t.first] == Decoded(Wrap(p), Some(data))
  }

  /** `data` is still buffered at position `p`. */
  predicate Waiting(t: Trace, p: int, data: Bytes) {
    p in t.stream.jitter.content && t.stream.jitter.content[p] == data
  }

  /** No packet that was buffered has gone unplayed, but those a push took out. */
  ghost predicate Accounted(t: Trace) {
    forall p <- t.accepted :: Waiting(t, p, t.accepted[p]) || p in t.evicted || Played(t, p, t.accepted[p])
  }

  /** What is buffered is what was last buffered there. */
  ghost predicate LastBuffered(content: map<int, Bytes>, accepted: map<int, Bytes>) {
    forall p <- content :: p in accepted && accepted[p] == content[p]
  }

  /**
   The log has one entry for each position from the first to the next one to
   play, and every packet that was buffered is in it or still to come.
   */
  ghost predicate InOrder(t: Trace) {
    && Streams.WellFormed(t.stream)
    && t.stream.jitter.pos == t.first + |t.log|
    && (t.stream.jitter.provisional ==> t.log == [])
    && (forall k | 0 <= k < |t.log| :: EntryOf(t.log[k], t.first + k, t.arrived))
    && Sourced(t.stream.jitter.content, t.arrived)
    && LastBuffered(t.stream.jitter.content, t.accepted) && Accounted(t)
  }

  /** A push that does not restart a stream that has played moves nothing it still has to play. */
  lemma PushKeepsStart(b: Buffer, sn: u32, data: Bytes, now: int)
    requires Jitter.WellFormed(b) && !PushResets(b, sn)
    ensures var p := Push(b, sn, data, now).buffer;
      && p.provisional == b.provisional
      && (!b.provisional ==> p.pos == b.pos)
  {
  }

  lemma RenderSettlesStart(s: Stream, i: Input)
    requires Streams.WellFormed(s)
    ensures var r := Render(s, i).stream.jitter;
      r.pos >= s.jitter.pos && (r.provisional ==> s.jitter.provisional && r.pos == s.jitter.pos)
  {
    RenderConserves(s, i);
    PopSettles(s.jitter);
    PopSettles(Pop(s.jitter));
    SkipSettles(s.jitter);
    PopSettles(Skip(s.jitter));
    PopSettles(Pop(Skip(s.jitter)));
    hide Pop, Skip, Conserves, ShouldAccelerate, Conceal, Wrap, Streams.WellFormed;
  }

  lemma PopSettles(b: Buffer)
    ensures Pop(b).pos >= b.pos && (Pop(b).provisional ==> b.provisional && Pop(b).pos == b.pos)
  {
  }

  lemma SkipSettles(b: Buffer)
    ensures Skip(b).pos >= b.pos && (Skip(b).provisional ==> b.provisional && Skip(b).pos == b.pos)
  {
  }

  /** What a render reports, position by position, is what the buffer held there. */
  ghost predicate Reports(r: Rendered, b: Buffer) {
    && r.stream.jitter.pos == b.pos + |Entries(r)|
    && (forall k | 0 <= k < |Entries(r)| && Entries(r)[k].Decoded? ::
         && Entries(r)[k].sn == Wrap(b.pos + k)
         && if Entries(r)[k].data.Some? then b.pos + k in b.content && Entries(r)[k].data.value == b.content[b.pos + k]
            else Wrap(b.pos + k) == 0)
    && (forall k | 0 <= k < |Entries(r)| && Entries(r)[k].Lost? :: b.pos + k !in b.content)
  }

  lemma CountShort()
    ensures Stats.CountLost([]) == 0 && Stats.CountLost([true]) == 0 && Stats.CountLost([true, true]) == 0
    ensures Stats.CountLost([false]) == 1
  {
    Stats.CountLostAppend([], true);
    Stats.CountLostAppend([], false);
    Stats.CountLostAppend([true], true);
    assert [] + [true] == [true] && [] + [false] == [false] && [true] + [true] == [true, true];
  }

  lemma {:induction false} CountLosses(n: nat)
    ensures Stats.CountLost(Losses(n)) == n
  {
    if n > 0 {
      CountLosses(n - 1);
      assert Losses(n)[..n - 1] == Losses(n - 1);
    }
  }

  lemma PacketReports(b: Buffer, t: Stream, target: nat, quiet: bool)
    requires PopKind(b) == PopResult.Packet && t.jitter == Pop(b) && Pop(b).pos == b.pos + 1
    requires b.pos !in b.content ==> Wrap(b.pos) == 0
    requires Pop(b).content == b.content - {b.pos}
    requires Pop(b).pos in Pop(b).content ==> Pop(Pop(b)).pos == b.pos + 2
    ensures Reports(PlayPacket(t, Wrap(b.pos), Head(b), target, quiet), b)
  {
    CountShort();
    hide Pop, PopKind, Wrap, ShouldAccelerate, Stats.CountLost;
  }

  lemma UnderrunReports(b: Buffer, t: Stream)
    requires t.jitter.pos == b.pos
    ensures Reports(Underrun(t), b)
  {
    CountShort();
    hide Wrap, Stats.CountLost;
  }

  lemma LossReports(b: Buffer, t: Stream, op: FrameOp)
    requires t.jitter.pos == b.pos + 1 && b.pos !in b.content && (op.Fec? || op.Plc?)
    ensures Reports(Rendered(t, Some(op), [false], [], 0), b)
  {
    CountShort();
    hide Wrap, Stats.CountLost;
  }

  lemma PopHeads(b: Buffer)
    requires Jitter.WellFormed(b) && b.started
    ensures PopKind(b) != Empty ==> Pop(b).pos == b.pos + 1 && Pop(b).content == b.content - {b.pos}
    ensures PopKind(b) == Empty ==> Pop(b).pos == b.pos
    ensures PopKind(b) == PopResult.Packet && b.pos !in b.content ==> Wrap(b.pos) == 0
    ensures b.pos in b.content ==> PopKind(b) == PopResult.Packet
    ensures Pop(b).started
  {
  }

  lemma PlayingReports(s: Stream, target: nat, i: Input)
    requires Streams.WellFormed(s) && s.playing
    ensures Reports(RenderPlaying(s, target, i), s.jitter)
  {
    var b := s.jitter;
    var t := s.(jitter := Pop(b), depths := s.depths + [|b.content|]);
    PopWellFormed(b);
    PopHeads(b);
    PopHeads(Pop(b));
    hide Pop, PopKind, Wrap, Streams.WellFormed, Jitter.WellFormed, PlayPacket, Underrun, Reports;
    match PopKind(b)
    case Packet => PacketReports(b, t, target, i.quiet);
    case Missing => LossReports(b, t.(hold := 0), Conceal(Pop(b), i.fecOk));
    case Empty => UnderrunReports(b, t);
  }

  lemma ActivationReports(s: Stream, i: Input)
    requires Streams.WellFormed(s) && !s.playing && Render(s, i).op != None
    ensures Reports(Render(s, i), s.jitter)
  {
    hide Render, Wrap, Streams.WellFormed, Accounts, Rest, Losses, Stats.CountLost, SkipCount;
    ActivationPlaysOldest(s, i);
    RenderConserves(s, i);
    CountLosses(SkipCount(s.jitter));
    Stats.CountLostAppend(Losses(SkipCount(s.jitter)), true);
  }

  lemma RenderReports(s: Stream, i: Input)
    requires Streams.WellFormed(s)
    ensures Reports(Render(s, i), s.jitter)
  {
    hide RenderPlaying, Reports, Streams.WellFormed;
    if s.playing {
      PlayingReports(s, Target(s), i);
    } else if Render(s, i).op != None {
      ActivationReports(s, i);
    } else {
      IdleRender(s, i);
      NothingReported(Render(s, i), s.jitter);
    }
  }

  lemma NothingReported(r: Rendered, b: Buffer)
    requires r.op == None && r.outcomes == [] && r.stream.jitter.pos == b.pos
    ensures Reports(r, b)
  {
    CountShort();
    hide Wrap, Stats.CountLost;
  }

  /** An idle stream that stays idle reports nothing and keeps its buffer. */
  lemma IdleRender(s: Stream, i: Input)
    requires Streams.WellFormed(s) && !s.playing
    ensures var r := Render(s, i); r.op == None ==> r.outcomes == [] && r.stream.jitter == s.jitter
  {
    if s.jitter.content != map[] && Ready(s, i) {
      SkipFindsOldest(s.jitter);
      hide Wrap, InWindow, ShouldAccelerate;
      assert PopKind(Activate(s).jitter) == PopResult.Packet;
    }
  }

  /** Whatever a push leaves buffered was buffered before, or is the packet pushed; after a restart only that. */
  lemma PushSources(b: Buffer, sn: u32, data: Bytes, now: int)
    requires Jitter.WellFormed(b)
    ensures
      var p := Push(b, sn, data, now).buffer;
      forall q <- p.content ::
        || (!PushResets(b, sn) && q in b.content && p.content[q] == b.content[q])
        || (Wrap(q) == sn && p.content[q] == data)
  {
    var s := Start(b, sn);
    WrapPosOf(s.pos, sn);
    WrapPosOf(sn, sn);
    if IsBehind(s, sn) {
      ReanchorKeepsWindow(s, sn);
      WrapPosOf(s.pos - Behind(s, sn), sn);
    }
    hide Wrap, PosOf, FitsFrom, InWindow;
  }

  lemma NextInOrder(t: Trace, e: Event)
    requires InOrder(t)
    ensures InOrder(Next(t, e))
  {
    match e
    case Arrival(sn, data, now) =>
      ReceiveWellFormed(t.stream, sn, data, now);
      PushSources(t.stream.jitter, sn, data, now);
      if !PushResets(t.stream.jitter, sn) {
        PushKeepsStart(t.stream.jitter, sn, data, now);
      }
      hide Push, Streams.WellFormed, PushResets, Wrap, EntryOf;
      ArrivalAccounted(t, e);
      hide Accounted;
    case Frame(i) =>
      FrameInOrder(t, i);
  }

  lemma ArrivalAccounted(t: Trace, e: Event)
    requires InOrder(t) && e.Arrival?
    ensures Accounted(Next(t, e))
  {
    hide PushResets, Wrap, EntryOf, Sourced, Push;
    if !Restarts(t.stream, e) {
      PushKeepsStart(t.stream.jitter, e.sn, e.data, e.now);
    }
  }

  lemma FrameInOrder(t: Trace, i: Input)
    requires InOrder(t)
    ensures InOrder(Next(t, Frame(i)))
  {
    hide Render, Streams.WellFormed, Entries, Wrap, EntryOf, Sourced, Accounted, Reports;
    RenderWellFormed(t.stream, i);
    RenderSettlesStart(t.stream, i);
    RenderReports(t.stream, i);
    ReportsInOrder(t, Render(t.stream, i));
    RestSourced(t, i);
    RestAccounted(t, i);
  }

  /** What a render consumes and had buffered, it decodes. */
  lemma RestAccounted(t: Trace, i: Input)
    requires InOrder(t) && Reports(Render(t.stream, i), t.stream.jitter)
    ensures Accounted(Next(t, Frame(i))) && LastBuffered(Render(t.stream, i).stream.jitter.content, t.accepted)
  {
    hide Render, Wrap, Accounts, EntryOf, Sourced, Streams.WellFormed, Entries, Reports, Played, Rest;
    RenderConserves(t.stream, i);
    WindowOf(t.stream);
    var r := Render(t.stream, i);
    forall p | p in t.accepted
      ensures Waiting(Next(t, Frame(i)), p, t.accepted[p]) || p in t.evicted || Played(Next(t, Frame(i)), p, t.accepted[p])
    {
      OneAccounted(t, r, Next(t, Frame(i)), p, t.accepted[p]);
    }
    RestShrinks(t.stream.jitter.content, r.stream.jitter.pos);
  }

  lemma RestShrinks(content: map<int, Bytes>, from: int)
    ensures forall p <- Rest(content, from) :: p in content && Rest(content, from)[p] == content[p]
  {
  }

  lemma OneAccounted(t: Trace, r: Rendered, n: Trace, p: int, data: Bytes)
    requires t.stream.jitter.pos == t.first + |t.log| && InWindow(t.stream.jitter)
    requires Reports(r, t.stream.jitter) && r.stream.jitter.content == Rest(t.stream.jitter.content, r.stream.jitter.pos)
    requires n.stream == r.stream && n.first == t.first && n.log == t.log + Entries(r) && n.evicted == t.evicted
    requires Waiting(t, p, data) || p in t.evicted || Played(t, p, data)
    ensures Waiting(n, p, data) || p in n.evicted || Played(n, p, data)
  {
    hide Entries, Wrap;
    if Played(t, p, data) {
      assert n.log[p - n.first] == t.log[p - t.first];
    } else if Waiting(t, p, data) && p < r.stream.jitter.pos {
      assert n.log[p - n.first] == Entries(r)[p - t.stream.jitter.pos];
    }
  }

  lemma WindowOf(s: Stream)
    requires Streams.WellFormed(s)
    ensures InWindow(s.jitter)
  {
  }

  /** The entries of a render continue the log. */
  lemma ReportsInOrder(t: Trace, r: Rendered)
    requires InOrder(t) && Reports(r, t.stream.jitter)
    ensures
      var log := t.log + Entries(r);
      && r.stream.jitter.pos == t.first + |log|
      && forall k | 0 <= k < |log| :: EntryOf(log[k], t.first + k, t.arrived)
  {
    hide Streams.WellFormed, Entries;
    var more := Entries(r);
    forall k | 0 <= k < |t.log + more|
      ensures EntryOf((t.log + more)[k], t.first + k, t.arrived)
    {
      if k >= |t.log| {
        var j := k - |t.log|;
        assert (t.log + more)[k] == more[j] && t.first + k == t.stream.jitter.pos + j;
      }
    }
  }

  lemma RestSourced(t: Trace, i: Input)
    requires InOrder(t)
    ensures Sourced(Render(t.stream, i).stream.jitter.content, t.arrived)
  {
    RenderConserves(t.stream, i);
    hide Render, Wrap, Accounts, EntryOf, Streams.WellFormed;
  }

  /**
   Over any run, restarts included: what the renders since the last restart
   reported is one entry for every stream position in order, none left out;
   each decoded entry names its position's number and was fed bytes that
   arrived under it; and a provisional start means nothing was reported yet.
   */
  lemma {:induction false} PlayedInOrder(events: seq<Event>)
    ensures InOrder(Run(FRESH_TRACE, events))
  {
    if events != [] {
      hide InOrder, Next;
      var init := events[..|events| - 1];
      PlayedInOrder(init);
      NextInOrder(Run(FRESH_TRACE, init), events[|events| - 1]);
    }
  }

  /** Nothing is evicted in a run without number 0. */
  lemma {:induction false} NothingEvicted(events: seq<Event>)
    requires NoneCarries(events, 0)
    ensures Run(FRESH_TRACE, events).evicted == {}
  {
    if events != [] {
      var init, e := events[..|events| - 1], events[|events| - 1];
      NothingEvicted(init);
      PlayedInOrder(init);
      var t := Run(FRESH_TRACE, init);
      if e.Arrival? && !Restarts(t.stream, e) {
        PushLosesExactly(t.stream.jitter, e.sn, e.data, e.now);
        hide Push, PushResets, Wrap, PosOf;
        assert t.stream.jitter.content.Keys - Step(t.stream, e).jitter.content.Keys == {};
      }
    }
  }

  /**
   Every packet is played: in a run without number 0, each position ever
   buffered since the last restart still holds the bytes last buffered there,
   or they were decoded.
   */
  lemma EveryPacketPlays(events: seq<Event>, p: int)
    requires NoneCarries(events, 0) && p in Run(FRESH_TRACE, events).accepted
    ensures var t := Run(FRESH_TRACE, events);
      Waiting(t, p, t.accepted[p]) || Played(t, p, t.accepted[p])
  {
    hide Run;
    PlayedInOrder(events);
    NothingEvicted(events);
  }

  // ── the fate of an arrival ──

  /** Behind the start, too late to become it and not far enough to start over. */
  predicate TooLate(b: Buffer, sn: u32) {
    var d := Distance(b, sn);
    b.started && -30 <= d < 0 && !(b.provisional && -7 <= d && forall q <- b.content :: q < b.pos + d + 15)
  }

  /** Ahead of the window, and not the third in a row. */
  predicate OutOfReach(b: Buffer, sn: u32) {
    b.started && (Distance(b, sn) >= 15 || Distance(b, sn) == -HALF) && b.outOfWindow < 2
  }

  /** Where a packet goes that is neither: its place in the stream, or the start of a new one. */
  function PlaceOf(b: Buffer, sn: u32): int {
    if !b.started || Distance(b, sn) < -30 || Distance(b, sn) >= 15 then sn else b.pos + Distance(b, sn)
  }

  /** The packet is in its place. */
  ghost predicate Placed(r: Buffer, p: int, sn: u32, data: Bytes) {
    Wrap(p) == sn && r.pos <= p < r.pos + 15 && p in r.content && r.content[p] == data
  }

  /** Each push is exactly one of the three; and it is told late exactly when it is too late. */
  lemma PushFate(b: Buffer, sn: u32, data: Bytes, now: int)
    requires Jitter.WellFormed(b) && sn != 0
    ensures
      var r := Push(b, sn, data, now);
      && r.late == TooLate(b, sn)
      && (TooLate(b, sn) || OutOfReach(b, sn) ==> r.buffer.content == b.content)
      && (!TooLate(b, sn) && !OutOfReach(b, sn) ==> Placed(r.buffer, PlaceOf(b, sn), sn, data))
  {
    hide Push, Distance, Wrap, PosOf, Sub, Observe, InWindow, FitsFrom;
    DistanceMeans(b, sn);
    OwnNumber(sn);
    if !b.started {
      PushStarts(b, sn, data, now);
    } else if -HALF < Distance(b, sn) < 0 {
      PushBehindExactly(b, sn, data, now);
    } else {
      PushAheadExactly(b, sn, data, now);
    }
  }

  lemma OwnNumber(sn: u32)
    ensures Wrap(sn) == sn
  {
  }

  lemma ArrivalStored(t: Trace, e: Event)
    requires InOrder(t) && e.Arrival? && e.sn != 0
    ensures
      var (b, n, p) := (t.stream.jitter, Next(t, e), PlaceOf(t.stream.jitter, e.sn));
      && Receive(t.stream, e.sn, e.data, e.now).late == TooLate(b, e.sn)
      && (TooLate(b, e.sn) || OutOfReach(b, e.sn) ==> n.stream.jitter.content == b.content)
      && (!TooLate(b, e.sn) && !OutOfReach(b, e.sn) ==>
          && Placed(n.stream.jitter, p, e.sn, e.data)
          && Waiting(n, p, e.data) && p in n.accepted && n.accepted[p] == e.data)
  {
    hide Push, TooLate, OutOfReach, PlaceOf, Wrap, PushResets, Accounted, Sourced, EntryOf, LastBuffered, Jitter.WellFormed;
    WellFormedBuffer(t.stream);
    PushFate(t.stream.jitter, e.sn, e.data, e.now);
  }

  lemma WellFormedBuffer(s: Stream)
    requires Streams.WellFormed(s)
    ensures Jitter.WellFormed(s.jitter)
  {
  }

  /** Some arrival of `events` restarts the stream. */
  ghost predicate RestartsIn(t: Trace, events: seq<Event>) {
    events != [] && (RestartsIn(t, events[..|events| - 1]) || Restarts(Run(t, events[..|events| - 1]).stream, events[|events| - 1]))
  }

  lemma {:induction false} RunConcat(t: Trace, a: seq<Event>, b: seq<Event>)
    ensures Run(t, a + b) == Run(Run(t, a), b)
  {
    if b == [] {
      assert a + b == a;
    } else {
      assert (a + b)[..|a + b| - 1] == a + b[..|b| - 1];
      RunConcat(t, a, b[..|b| - 1]);
    }
  }

  lemma {:induction false} RunInOrder(t: Trace, events: seq<Event>)
    requires InOrder(t)
    ensures InOrder(Run(t, events))
  {
    hide InOrder, Next;
    if events != [] {
      RunInOrder(t, events[..|events| - 1]);
      NextInOrder(Run(t, events[..|events| - 1]), events[|events| - 1]);
    }
  }

  /** Until a restart an accepted position stays accepted, with its bytes until a duplicate replaces them. */
  lemma {:induction false} StaysAccepted(t: Trace, events: seq<Event>, p: int)
    requires InOrder(t) && p in t.accepted && !RestartsIn(t, events)
    ensures
      var z := Run(t, events);
      p in z.accepted && (NoneCarries(events, Wrap(p)) ==> z.accepted[p] == t.accepted[p])
  {
    if events != [] {
      var init, e := events[..|events| - 1], events[|events| - 1];
      StaysAccepted(t, init, p);
      RunInOrder(t, init);
      var y := Run(t, init);
      if e.Arrival? {
        PushSources(y.stream.jitter, e.sn, e.data, e.now);
      }
      hide Push, PushResets, Wrap, Accounted, Sourced, EntryOf;
    }
  }

  /**
   The fate of every arrival of a nonzero number, in a run without number 0:
   it is too late, or out of reach; or a later restart throws everything away;
   or its place in the stream is filled, and with its bytes unless a duplicate
   came after it: they are still waiting there, or were decoded.
   */
  lemma ArrivalFate(before: seq<Event>, e: Event, after: seq<Event>)
    requires e.Arrival? && NoneCarries(before + [e] + after, 0)
    ensures
      var t, z := Run(FRESH_TRACE, before), Run(FRESH_TRACE, before + [e] + after);
      var p := PlaceOf(t.stream.jitter, e.sn);
      || TooLate(t.stream.jitter, e.sn) || OutOfReach(t.stream.jitter, e.sn)
      || RestartsIn(Next(t, e), after)
      || (&& p in z.accepted && Wrap(p) == e.sn
          && (Waiting(z, p, z.accepted[p]) || Played(z, p, z.accepted[p]))
          && (NoneCarries(after, e.sn) ==> z.accepted[p] == e.data))
  {
    hide Run, RestartsIn, Next, TooLate, OutOfReach, PlaceOf, InOrder, Waiting, Played;
    var events := before + [e] + after;
    var t := Run(FRESH_TRACE, before);
    assert e in events;
    PlayedInOrder(before);
    NextInOrder(t, e);
    ArrivalStored(t, e);
    RunConcat(FRESH_TRACE, before + [e], after);
    RunConcat(FRESH_TRACE, before, [e]);
    RunOne(t, e);
    if !TooLate(t.stream.jitter, e.sn) && !OutOfReach(t.stream.jitter, e.sn) && !RestartsIn(Next(t, e), after) {
      var p := PlaceOf(t.stream.jitter, e.sn);
      StaysAccepted(Next(t, e), after, p);
      EveryPacketPlays(events, p);
    }
  }

  lemma RunOne(t: Trace, e: Event)
    ensures Run(t, [e]) == Next(t, e)
  {
    hide Next;
    assert [e][..0] == [];
  }

  /** Each number is played at most once per wrap: two entries under one number are at least 2^32 positions apart. */
  lemma PlayedOnce(events: seq<Event>, j: nat, k: nat)
    requires j < k < |Run(FRESH_TRACE, events).log|
    ensures
      var log := Run(FRESH_TRACE, events).log;
      log[j].Decoded? && log[k].Decoded? && log[j].sn == log[k].sn ==> k - j >= U32
  {
    PlayedInOrder(events);
    var t := Run(FRESH_TRACE, events);
    hide Run;
    assert EntryOf(t.log[j], t.first + j, t.arrived) && EntryOf(t.log[k], t.first + k, t.arrived);
    if k - j < U32 {
      PosOfWrap(t.first + j, t.first + k);
      PosOfWrap(t.first + j, t.first + j);
    }
  }

  /** Once anything has been consumed, only a restart or a rendered frame moves the start of the window. */
  lemma StartFixedOncePlayed(events: seq<Event>, e: Event)
    requires e.Arrival? && Run(FRESH_TRACE, events).log != []
    requires !Restarts(Run(FRESH_TRACE, events).stream, e)
    ensures Step(Run(FRESH_TRACE, events).stream, e).jitter.pos == Run(FRESH_TRACE, events).stream.jitter.pos
  {
    PlayedInOrder(events);
    PushKeepsStart(Run(FRESH_TRACE, events).stream.jitter, e.sn, e.data, e.now);
    hide Push, PushResets;
  }

  /**
   The packet shares its slot with a head numbered 2^32 - 1, right in front of
   number 0.
   */
  predicate HitsHead(b: Buffer, sn: u32) {
    sn == 0 && Wrap(b.pos) == U32 - 1
  }

  /** Packets that arrive between two frames, none of which restarts the stream or hits its head. */
  ghost predicate Between(s: Stream, events: seq<Event>)
    decreases |events|
  {
    events != [] ==>
      && events[0].Arrival? && !HitsHead(s.jitter, events[0].sn) && !Restarts(s, events[0])
      && Between(Step(s, events[0]), events[1..])
  }

  ghost function StepAll(s: Stream, events: seq<Event>): Stream
    decreases |events|
  {
    if events == [] then s else StepAll(Step(s, events[0]), events[1..])
  }

  ghost predicate NoneCarries(events: seq<Event>, sn: u32) {
    forall e <- events :: e.Arrival? ==> e.sn != sn
  }

  /** The packet `next` is decoded first in this frame. */
  ghost predicate Decodes(r: Rendered, next: u32) {
    && r.op.Some?
    && (r.op.value == FrameOp.Packet(next) || (r.op.value.Accelerated? && r.op.value.dropped == next))
    && r.fed != []
  }

  /** An arrival leaves the packet at the start of a stream that has played where it is, if and only if it does not hit it. */
  lemma PushKeepsHead(b: Buffer, sn: u32, data: Bytes, now: int)
    requires Jitter.WellFormed(b) && !PushResets(b, sn)
    requires !b.provisional && b.started && b.pos in b.content
    ensures var p := Push(b, sn, data, now).buffer;
      && p.pos == b.pos && !p.provisional
      && (p.pos in p.content <==> !HitsHead(b, sn))
      && (p.pos in p.content && sn != Wrap(b.pos) ==> p.content[p.pos] == b.content[b.pos])
  {
    WrapPosOf(b.pos, sn);
    AddIsNext(b.pos, 1);
  }

  /** Streams that agree on what the next frame decodes: the packet at position `p`. */
  ghost predicate Waits(s: Stream, p: int) {
    && Streams.WellFormed(s) && s.playing
    && !s.jitter.provisional && s.jitter.started && s.jitter.pos == p && p in s.jitter.content
  }

  lemma {:induction false} ArrivalsKeepHead(s: Stream, events: seq<Event>)
    requires Waits(s, s.jitter.pos) && Between(s, events)
    ensures var t := StepAll(s, events);
      && Waits(t, s.jitter.pos)
      && (NoneCarries(events, Wrap(s.jitter.pos)) ==> Head(t.jitter) == Head(s.jitter))
    decreases |events|
  {
    if events != [] {
      var e := events[0];
      ReceiveWellFormed(s, e.sn, e.data, e.now);
      PushKeepsHead(s.jitter, e.sn, e.data, e.now);
      hide Push, PushResets, Streams.WellFormed, Jitter.WellFormed;
      ArrivalsKeepHead(Step(s, e), events[1..]);
    }
  }

  /**
   The packet peeked for FEC is the next one decoded: whatever else arrives
   before the next frame, short of a restart or of number 0 right behind a
   packet numbered 2^32 - 1, that frame decodes it, and its bytes are those
   that were peeked unless a duplicate replaced them.
   */
  lemma FecPacketIsDecodedNext(s: Stream, i: Input, events: seq<Event>, j: Input)
    requires Streams.WellFormed(s)
    requires Render(s, i).op.Some? && Render(s, i).op.value.Fec?
    requires Between(Render(s, i).stream, events)
    ensures
      var t := Render(s, i).stream;
      var next := Render(s, i).op.value.next;
      var r := Render(StepAll(t, events), j);
      && Decodes(r, next)
      && (NoneCarries(events, next) ==> r.fed[0] == Head(t.jitter))
  {
    hide Render, StepAll, Between, Waits, NoneCarries, Wrap, Streams.WellFormed;
    FecWaits(s, i);
    var t := Render(s, i).stream;
    ArrivalsKeepHead(t, events);
    WaitingIsDecoded(StepAll(t, events), t.jitter.pos, j);
  }

  lemma FecWaits(s: Stream, i: Input)
    requires Streams.WellFormed(s)
    requires Render(s, i).op.Some? && Render(s, i).op.value.Fec?
    ensures var t := Render(s, i).stream;
      Waits(t, t.jitter.pos) && Render(s, i).op.value.next == Wrap(t.jitter.pos)
  {
    RenderWellFormed(s, i);
    OpNamesPositions(s, i);
    if !s.playing {
      ActivationPlaysOldest(s, i);
    }
    hide ShouldAccelerate, CarriesFec, Wrap;
  }

  lemma WaitingIsDecoded(t: Stream, p: int, j: Input)
    requires Waits(t, p)
    ensures
      var r := Render(t, j);
      var next := Wrap(p);
      && Decodes(r, next) && r.fed[0] == Head(t.jitter)
  {
    hide ShouldAccelerate, Wrap;
  }
}
