/**
 The engine as the receive task keeps it: a map of senders pruned, extended and
 rendered in place, and the frame their contributions are mixed into. A
 sender's stream is held as a value; `SenderStreams` is its in-place form.
 */
module PlayoutEngines {
  import opened Config
  import opened Wrappers
  import opened Serial
  import opened Jitter
  import opened Streams
  import opened Audio
  import opened Spec = Engine

  const EPSILON: real := 1.0 / 8388608.0

  /** The listener's gain for each sender. */
  type Gains = string -> real

  /** A gain within an `f32` step of 1 leaves the frame as it is. */
  function Gain(s: Gains, name: string): real {
    if Abs(s(name) - 1.0) < EPSILON then 1.0 else s(name)
  }

  predicate Contributes(senders: map<string, Sender>, p: Pull, name: string)
    requires name in senders
  {
    Render(senders[name].stream, InputOf(p, name)).op.Some?
  }

  /** Sample `k` of what one sender adds to the mix. */
  function Share(senders: map<string, Sender>, p: Pull, s: Gains, name: string, k: nat): real
    requires k < FRAME_SIZE && name in senders
  {
    if Contributes(senders, p, name) then p.answers(name).frame[k] * Gain(s, name) else 0.0
  }

  function MixedAt(senders: map<string, Sender>, p: Pull, s: Gains, names: seq<string>, k: nat): real
    requires k < FRAME_SIZE && forall n <- names :: n in senders
  {
    if names == [] then 0.0
    else MixedAt(senders, p, s, names[..|names| - 1], k) + Share(senders, p, s, names[|names| - 1], k)
  }

  /** The senders each named once, in some order. */
  ghost predicate Enumerates(names: seq<string>, senders: map<string, Sender>) {
    && (forall n :: n in names <==> n in senders)
    && (forall i, j :: 0 <= i < j < |names| ==> names[i] != names[j])
  }

  lemma MixedLast(senders: map<string, Sender>, p: Pull, s: Gains, names: seq<string>, name: string, k: nat)
    requires k < FRAME_SIZE && name in senders && forall n <- names :: n in senders
    ensures MixedAt(senders, p, s, names + [name], k) == MixedAt(senders, p, s, names, k) + Share(senders, p, s, name, k)
  {
    hide Share;
    assert (names + [name])[..|names|] == names;
  }

  lemma {:induction false} MixedWithout(senders: map<string, Sender>, p: Pull, s: Gains, names: seq<string>, i: nat, k: nat)
    requires k < FRAME_SIZE && i < |names| && forall n <- names :: n in senders
    ensures MixedAt(senders, p, s, names, k) ==
            MixedAt(senders, p, s, names[..i] + names[i + 1..], k) + Share(senders, p, s, names[i], k)
  {
    hide Share, MixedAt;
    var m := |names| - 1;
    var init, last := names[..m], names[m];
    assert names == init + [last];
    MixedLast(senders, p, s, init, last, k);
    if i < m {
      MixedWithout(senders, p, s, init, i, k);
      MixedLast(senders, p, s, init[..i] + init[i + 1..], last, k);
      assert names[..i] + names[i + 1..] == init[..i] + init[i + 1..] + [last];
    } else {
      assert names[..i] + names[i + 1..] == init;
    }
  }

  lemma TakeOut(b: seq<string>, i: nat)
    requires i < |b|
    ensures multiset(b[..i] + b[i + 1..]) == multiset(b) - multiset{b[i]}
  {
    var front, back := b[..i], b[i + 1..];
    assert b == front + ([b[i]] + back);
    assert multiset(b) == multiset(front) + multiset([b[i]] + back);
    assert multiset([b[i]] + back) == multiset{b[i]} + multiset(back);
    assert multiset(front + back) == multiset(front) + multiset(back);
  }

  lemma RemoveOne(a: seq<string>, b: seq<string>, i: nat)
    requires a != [] && multiset(a) == multiset(b) && i < |b| && b[i] == a[|a| - 1]
    ensures multiset(a[..|a| - 1]) == multiset(b[..i] + b[i + 1..])
  {
    TakeOut(b, i);
    TakeOut(a, |a| - 1);
    assert a[..|a| - 1] + a[|a|..] == a[..|a| - 1];
  }

  lemma {:induction false} SameMix(senders: map<string, Sender>, p: Pull, s: Gains, a: seq<string>, b: seq<string>, k: nat)
    requires k < FRAME_SIZE && (forall n <- a :: n in senders) && forall n <- b :: n in senders
    requires multiset(a) == multiset(b)
    ensures MixedAt(senders, p, s, a, k) == MixedAt(senders, p, s, b, k)
    decreases |a|
  {
    hide Share;
    assert |multiset(a)| == |multiset(b)|;
    if a != [] {
      var m := |a| - 1;
      assert a[m] in multiset(b);
      var i :| 0 <= i < |b| && b[i] == a[m];
      RemoveOne(a, b, i);
      MixedWithout(senders, p, s, b, i, k);
      SameMix(senders, p, s, a[..m], b[..i] + b[i + 1..], k);
    }
  }

  lemma {:induction false} OnceEach(names: seq<string>, x: string)
    requires forall i, j :: 0 <= i < j < |names| ==> names[i] != names[j]
    ensures multiset(names)[x] == if x in names then 1 else 0
  {
    if names != [] {
      var m := |names| - 1;
      assert names == names[..m] + [names[m]];
      OnceEach(names[..m], x);
    }
  }

  /** The mix is the same in whatever order the map is visited. */
  lemma MixOrderFree(senders: map<string, Sender>, p: Pull, s: Gains, a: seq<string>, b: seq<string>, k: nat)
    requires k < FRAME_SIZE && Enumerates(a, senders) && Enumerates(b, senders)
    ensures MixedAt(senders, p, s, a, k) == MixedAt(senders, p, s, b, k)
  {
    forall x: string
      ensures multiset(a)[x] == multiset(b)[x]
    {
      OnceEach(a, x);
      OnceEach(b, x);
    }
    SameMix(senders, p, s, a, b, k);
  }

  ghost function PlayingAmong(senders: map<string, Sender>, names: set<string>): nat {
    |set n | n in names && n in senders && senders[n].stream.playing|
  }

  ghost function Playing(senders: map<string, Sender>): nat {
    PlayingAmong(senders, senders.Keys)
  }

  lemma NonePlaying(senders: map<string, Sender>)
    ensures PlayingAmong(senders, {}) == 0
  {
  }

  lemma OneMorePlaying(senders: map<string, Sender>, names: set<string>, n: string)
    requires n in senders && n !in names
    ensures PlayingAmong(senders, names + {n}) == PlayingAmong(senders, names) + if senders[n].stream.playing then 1 else 0
  {
    var was := set m | m in names && m in senders && senders[m].stream.playing;
    var now := set m | m in names + {n} && m in senders && senders[m].stream.playing;
    assert now == was + if senders[n].stream.playing then {n} else {};
  }

  class PlayoutEngine {
    var streams: map<string, Sender>
    var packetsSincePrune: nat
    var levelsEpoch: nat

    ghost function View(): Engine
      reads this
    {
      Engine(streams, packetsSincePrune, levelsEpoch)
    }

    constructor ()
      ensures View() == Spec.FRESH
    {
      streams, packetsSincePrune, levelsEpoch := map[], 0, 0;
    }

    method Prune(now: int)
      modifies `streams
      ensures streams == Spec.Prune(old(streams), now)
    {
      var todo := streams.Keys;
      while todo != {}
        invariant todo <= streams.Keys <= old(streams).Keys
        invariant forall n <- streams :: streams[n] == old(streams)[n]
        invariant forall n <- old(streams) ::
          n in streams <==> n in todo || Elapsed(now, old(streams)[n].lastPacket) < SENDER_STREAM_TTL_NS
      {
        var n :| n in todo;
        if Elapsed(now, streams[n].lastPacket) >= SENDER_STREAM_TTL_NS {
          streams := streams - {n};
        }
        todo := todo - {n};
      }
    }

    /** The periodic prune. */
    method CountPacket(now: int)
      modifies `streams, `packetsSincePrune
      ensures View() == Tick(old(View()), now)
    {
      packetsSincePrune := packetsSincePrune + 1;
      if packetsSincePrune >= STATS_WINDOW_PACKETS {
        packetsSincePrune := 0;
        Prune(now);
      }
    }

    /** Buffer one packet; true when it arrived too late to play. */
    method OnPacket(name: string, sn: u32, data: Bytes, now: int, decoderOk: bool) returns (late: bool)
      modifies this
      ensures Accepted(View(), late) == Spec.OnPacket(old(View()), name, sn, data, now, decoderOk)
    {
      hide Tick, Receive;
      CountPacket(now);
      if name !in streams {
        if |streams| >= MAX_SENDER_STREAMS {
          Prune(now);
        }
        if |streams| >= MAX_SENDER_STREAMS || !decoderOk {
          return false;
        }
        streams := streams[name := Sender(Streams.FRESH, now, 0.0)];
      }
      var received := Receive(streams[name].stream, sn, data, now);
      streams := streams[name := streams[name].(stream := received.stream, lastPacket := now)];
      late := received.late;
    }

    method Active() returns (active: bool)
      ensures active == Spec.Active(View())
    {
      active := false;
      var todo := streams.Keys;
      while todo != {}
        invariant todo <= streams.Keys
        invariant active <==> exists n <- streams :: n !in todo && (streams[n].stream.playing || streams[n].stream.jitter.content != map[])
      {
        var n :| n in todo;
        if streams[n].stream.playing || streams[n].stream.jitter.content != map[] {
          active := true;
        }
        todo := todo - {n};
      }
    }

    /** How many senders the callback is told of. */
    method CountPlaying() returns (count: nat)
      ensures count == Playing(streams)
    {
      hide PlayingAmong;
      count := 0;
      var todo := streams.Keys;
      ghost var done: set<string> := {};
      NonePlaying(streams);
      while todo != {}
        invariant done + todo == streams.Keys && done !! todo
        invariant count == PlayingAmong(streams, done)
      {
        var n :| n in todo;
        OneMorePlaying(streams, done, n);
        todo := todo - {n};
        done := done + {n};
        if streams[n].stream.playing {
          count := count + 1;
        }
      }
      assert done == streams.Keys;
    }

    /**
     Render one frame: every playing sender's next frame, scaled and summed
     into `out`. `names` is the order the map happens to be visited in.
     */
    method RenderFrame(p: Pull, s: Gains, names: seq<string>, out: array<real>) returns (n: Option<nat>)
      requires Enumerates(names, streams)
      modifies `streams, `levelsEpoch, out
      ensures View() == Spec.RenderFrame(old(View()), p)
      ensures n == if Plays(old(View()), p) then Some(FrameLength(out.Length)) else None
      ensures forall k | 0 <= k < out.Length ::
        out[k] == if n.Some? && k < FRAME_SIZE then MixedAt(old(streams), p, s, names, k) else old(out[k])
    {
      hide Render, RenderSender, MixedAt, Share, Visited, AnyTouched, AnyPlayed, Mixed, Added;
      ghost var before, blank := streams, out[..];
      var contributors, levelsWritten := 0, false;
      NoneVisited(before, p, s, names, blank);
      for i := 0 to |names|
        modifies `streams, out
        invariant Visited(streams, before, p, names, i)
        invariant levelsWritten == AnyTouched(before, p, names, i)
        invariant (contributors > 0) == AnyPlayed(before, p, names, i)
        invariant Mixed(out[..], blank, contributors > 0, before, p, s, names[..i])
      {
        var name := names[i];
        VisitNext(streams, before, p, names, i);
        MixNext(out[..], blank, contributors > 0, before, p, s, names[..i], name);
        assert names[..i + 1] == names[..i] + [name];
        var touched, played := RenderOne(name, p);
        levelsWritten := levelsWritten || touched;
        if played {
          MixIn(out, p.answers(name).frame, Gain(s, name), contributors == 0);
          contributors := contributors + 1;
        }
      }
      if levelsWritten {
        levelsEpoch := (levelsEpoch + 1) % 0x1_0000_0000_0000_0000;
      }
      AllVisited(streams, before, p, names);
      assert names[..|names|] == names;
      MixedIs(out[..], blank, contributors > 0, before, p, s, names);
      n := if contributors == 0 then None else Some(FrameLength(out.Length));
    }

    /** One sender's frame: its stream moves on, and its level when it plays or falls idle. */
    method RenderOne(name: string, p: Pull) returns (touched: bool, played: bool)
      requires name in streams
      modifies `streams
      ensures streams == old(streams)[name := RenderSender(old(streams)[name], InputOf(p, name), MeanSquare(p.answers(name).frame))]
      ensures touched == Touches(old(streams)[name], InputOf(p, name))
      ensures played == Contributes(old(streams), p, name)
    {
      hide Render;
      var was := streams[name];
      var r := Render(was.stream, InputOf(p, name));
      played := r.op.Some?;
      touched := played || was.stream.playing;
      var level := was.level;
      if played {
        level := Measure(p.answers(name).frame);
      } else if was.stream.playing {
        level := 0.0;
      }
      streams := streams[name := was.(stream := r.stream, level := level)];
    }

    /** The first contribution overwrites the frame, later ones are added. */
    method MixIn(out: array<real>, frame: Frame, gain: real, first: bool)
      modifies out
      ensures out[..] == Added(old(out[..]), frame, gain, first)
    {
      for i := 0 to FrameLength(out.Length)
        invariant forall k | 0 <= k < out.Length ::
          out[k] == if k >= i then old(out[k]) else if first then frame[k] * gain else old(out[k]) + frame[k] * gain
      {
        out[i] := if first then frame[i] * gain else out[i] + frame[i] * gain;
      }
      assert forall k | 0 <= k < out.Length :: out[..][k] == Added(old(out[..]), frame, gain, first)[k];
    }
  }

  function Added(out: seq<real>, frame: Frame, gain: real, first: bool): (r: seq<real>)
    ensures |r| == |out|
  {
    seq(|out|, k requires 0 <= k < |out| =>
      if k >= FRAME_SIZE then out[k] else if first then frame[k] * gain else out[k] + frame[k] * gain)
  }

  // ── the first `i` senders of an order, visited ──

  ghost predicate Visited(now: map<string, Sender>, before: map<string, Sender>, p: Pull, names: seq<string>, i: nat) {
    && i <= |names| && now.Keys == before.Keys && Enumerates(names, before)
    && (forall j | 0 <= j < i :: now[names[j]] == RenderSender(before[names[j]], InputOf(p, names[j]), MeanSquare(p.answers(names[j]).frame)))
    && (forall j | i <= j < |names| :: now[names[j]] == before[names[j]])
  }

  ghost predicate AnyTouched(before: map<string, Sender>, p: Pull, names: seq<string>, i: nat)
    requires i <= |names| && Enumerates(names, before)
  {
    exists j :: 0 <= j < i && Touches(before[names[j]], InputOf(p, names[j]))
  }

  ghost predicate AnyPlayed(before: map<string, Sender>, p: Pull, names: seq<string>, i: nat)
    requires i <= |names| && Enumerates(names, before)
  {
    exists j :: 0 <= j < i && Contributes(before, p, names[j])
  }

  /** The frame holds the mix of the senders visited, once one of them played. */
  ghost predicate Mixed(out: seq<real>, blank: seq<real>, any: bool, before: map<string, Sender>, p: Pull, s: Gains, visited: seq<string>) {
    && |out| == |blank| && (forall n <- visited :: n in before)
    && (forall k | 0 <= k < |out| ::
         out[k] == if any && k < FRAME_SIZE then MixedAt(before, p, s, visited, k) else blank[k])
    && (!any ==> forall k | 0 <= k < FRAME_SIZE :: MixedAt(before, p, s, visited, k) == 0.0)
  }

  lemma NoneVisited(before: map<string, Sender>, p: Pull, s: Gains, names: seq<string>, blank: seq<real>)
    requires Enumerates(names, before)
    ensures Visited(before, before, p, names, 0)
    ensures !AnyTouched(before, p, names, 0) && !AnyPlayed(before, p, names, 0)
    ensures Mixed(blank, blank, false, before, p, s, names[..0])
  {
  }

  lemma VisitNext(now: map<string, Sender>, before: map<string, Sender>, p: Pull, names: seq<string>, i: nat)
    requires Visited(now, before, p, names, i) && i < |names|
    ensures names[i] in now && now[names[i]] == before[names[i]] && Contributes(now, p, names[i]) == Contributes(before, p, names[i])
    ensures Visited(now[names[i] := RenderSender(now[names[i]], InputOf(p, names[i]), MeanSquare(p.answers(names[i]).frame))], before, p, names, i + 1)
    ensures AnyTouched(before, p, names, i + 1) == (AnyTouched(before, p, names, i) || Touches(before[names[i]], InputOf(p, names[i])))
    ensures AnyPlayed(before, p, names, i + 1) == (AnyPlayed(before, p, names, i) || Contributes(before, p, names[i]))
  {
    hide RenderSender, Touches, Render;
  }

  lemma MixNext(out: seq<real>, blank: seq<real>, any: bool, before: map<string, Sender>, p: Pull, s: Gains,
    visited: seq<string>, name: string)
    requires Mixed(out, blank, any, before, p, s, visited) && name in before
    ensures
      if Contributes(before, p, name)
      then Mixed(Added(out, p.answers(name).frame, Gain(s, name), !any), blank, true, before, p, s, visited + [name])
      else Mixed(out, blank, any, before, p, s, visited + [name])
  {
    hide MixedAt, Contributes, Gain;
    MixedNext(before, p, s, visited, name);
  }

  lemma MixedIs(out: seq<real>, blank: seq<real>, any: bool, before: map<string, Sender>, p: Pull, s: Gains, visited: seq<string>)
    requires Mixed(out, blank, any, before, p, s, visited)
    ensures |out| == |blank| && forall n <- visited :: n in before
    ensures forall k | 0 <= k < |out| ::
      out[k] == if any && k < FRAME_SIZE then MixedAt(before, p, s, visited, k) else blank[k]
  {
  }

  lemma AllVisited(now: map<string, Sender>, before: map<string, Sender>, p: Pull, names: seq<string>)
    requires Visited(now, before, p, names, |names|)
    ensures now == map n | n in before :: RenderSender(before[n], InputOf(p, n), MeanSquare(p.answers(n).frame))
    ensures AnyTouched(before, p, names, |names|) <==> exists n <- before :: Touches(before[n], InputOf(p, n))
    ensures AnyPlayed(before, p, names, |names|) <==> exists n <- before :: Render(before[n].stream, InputOf(p, n)).op.Some?
  {
    hide RenderSender, Touches, Render;
  }

  function FrameLength(room: nat): nat {
    if room < FRAME_SIZE then room else FRAME_SIZE
  }

  lemma MixedNext(senders: map<string, Sender>, p: Pull, s: Gains, visited: seq<string>, name: string)
    requires name in senders && forall n <- visited :: n in senders
    ensures forall k | 0 <= k < FRAME_SIZE ::
      MixedAt(senders, p, s, visited + [name], k) == MixedAt(senders, p, s, visited, k) +
        if Contributes(senders, p, name) then p.answers(name).frame[k] * Gain(s, name) else 0.0
  {
    hide Contributes, Gain;
    assert (visited + [name])[..|visited|] == visited;
  }
}
