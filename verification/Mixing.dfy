/** What the mix sounds like: every playing sender's frame at the listener's gain, and nobody else. */
module Mixing {
  import opened Config
  import opened Audio
  import opened Engines = Engine
  import opened PlayoutEngines
  import Jitter
  import Serial
  import Streams

  /** Within one step of 32-bit precision of 1. */
  predicate NearOne(gain: real) {
    -1.0 / 8388608.0 < gain - 1.0 < 1.0 / 8388608.0
  }

  /** The sender plays a frame. */
  predicate Heard(senders: map<string, Sender>, p: Pull, name: string) {
    name in senders && Streams.Render(senders[name].stream, InputOf(p, name)).op.Some?
  }

  function AtGain(x: real, gain: real): real {
    x * gain
  }

  /** The sum of what the senders who play contribute to sample `k`, each at its own gain. */
  function PlainMix(senders: map<string, Sender>, p: Pull, gains: Gains, names: seq<string>, k: nat): real
    requires k < FRAME_SIZE
  {
    if names == [] then 0.0
    else
      var n := names[|names| - 1];
      PlainMix(senders, p, gains, names[..|names| - 1], k) + if Heard(senders, p, n) then AtGain(p.answers(n).frame[k], gains(n)) else 0.0
  }

  /** How loud those contributions are before any gain, signs aside. */
  function Loudness(senders: map<string, Sender>, p: Pull, names: seq<string>, k: nat): real
    requires k < FRAME_SIZE
  {
    if names == [] then 0.0
    else
      var n := names[|names| - 1];
      Loudness(senders, p, names[..|names| - 1], k) + if Heard(senders, p, n) then Jitter.Abs(p.answers(n).frame[k]) else 0.0
  }

  /** One 2^-23rd. */
  function Sliver(x: real): real {
    x / 8388608.0
  }

  lemma SliverAdds(x: real, y: real)
    ensures Sliver(x) + Sliver(y) == Sliver(x + y)
  {
  }

  lemma Nonnegative(a: real, b: real)
    requires a >= 0.0 && b >= 0.0
    ensures a * b >= 0.0
  {
  }

  /** A product with a factor of size at most `limit`. */
  lemma Scaled(x: real, e: real, limit: real)
    requires -limit <= e <= limit
    ensures Jitter.Abs(AtGain(x, e)) <= AtGain(Jitter.Abs(x), limit)
  {
    if x >= 0.0 {
      Nonnegative(x, limit - e);
      Nonnegative(x, limit + e);
    } else {
      Nonnegative(-x, limit - e);
      Nonnegative(-x, limit + e);
    }
  }

  lemma GainSplits(x: real, gain: real)
    ensures x - AtGain(x, gain) == AtGain(x, 1.0 - gain)
    ensures AtGain(x, 1.0 / 8388608.0) == Sliver(x)
  {
  }

  /** A gain near 1 changes a sample by less than that nearness. */
  lemma NearGain(x: real, gain: real)
    requires NearOne(gain)
    ensures Jitter.Abs(x - AtGain(x, gain)) <= Sliver(Jitter.Abs(x))
  {
    hide AtGain, Sliver, Jitter.Abs;
    GainSplits(x, gain);
    GainSplits(Jitter.Abs(x), gain);
    Scaled(x, 1.0 - gain, 1.0 / 8388608.0);
  }

  lemma GainIs(gains: Gains, name: string)
    ensures Gain(gains, name) == if NearOne(gains(name)) then 1.0 else gains(name)
  {
  }

  lemma AbsBasics(x: real)
    ensures Jitter.Abs(x) >= 0.0 && Sliver(Jitter.Abs(x)) >= 0.0 && Jitter.Abs(0.0) == 0.0 && Sliver(0.0) == 0.0 && x * 1.0 == x && x - x == 0.0
  {
  }

  /** What one sender adds, against its frame at its gain. */
  lemma ShareFollowsGain(senders: map<string, Sender>, p: Pull, gains: Gains, name: string, k: nat)
    requires k < FRAME_SIZE && name in senders
    ensures
      var (share, x) := (Share(senders, p, gains, name, k), p.answers(name).frame[k]);
      if !Heard(senders, p, name) then share == 0.0
      else
        && (!NearOne(gains(name)) ==> share == AtGain(x, gains(name)))
        && Jitter.Abs(share - AtGain(x, gains(name))) <= Sliver(Jitter.Abs(x))
  {
    hide Streams.Render, Gain, NearOne, Sliver, Jitter.Abs, AtGain, Share;
    var x := p.answers(name).frame[k];
    GainIs(gains, name);
    ShareIs(senders, p, gains, name, k);
    AbsBasics(x);
    AbsBasics(AtGain(x, gains(name)));
    if NearOne(gains(name)) {
      NearGain(x, gains(name));
      ByOne(x);
    }
  }

  lemma ByOne(x: real)
    ensures AtGain(x, 1.0) == x
  {
  }

  lemma ShareIs(senders: map<string, Sender>, p: Pull, gains: Gains, name: string, k: nat)
    requires k < FRAME_SIZE && name in senders
    ensures Share(senders, p, gains, name, k) ==
      if Heard(senders, p, name) then AtGain(p.answers(name).frame[k], Gain(gains, name)) else 0.0
  {
    hide Streams.Render, Gain;
  }

  lemma ShareClose(share: real, x: real, loud: real, heard: bool)
    requires if heard then Jitter.Abs(share - x) <= Sliver(loud) else share == 0.0 && x == 0.0 && loud == 0.0
    ensures Jitter.Abs(share - x) <= Sliver(loud)
  {
  }

  lemma Triangle(a: real, b: real, c: real, d: real)
    ensures Jitter.Abs((a + b) - (c + d)) <= Jitter.Abs(a - c) + Jitter.Abs(b - d)
  {
  }

  /**
   Every sample of the mix is the sum of the playing senders' frames at the
   listener's gains, but for gains within 2^-23 of 1, which count as 1: what
   that changes is at most 2^-23 of the loudness.
   */
  lemma {:induction false} MixFollowsGains(senders: map<string, Sender>, p: Pull, gains: Gains, names: seq<string>, k: nat)
    requires k < FRAME_SIZE && forall n <- names :: n in senders
    ensures
      var (mix, plain) := (MixedAt(senders, p, gains, names, k), PlainMix(senders, p, gains, names, k));
      && ((forall n <- names :: !NearOne(gains(n))) ==> mix == plain)
      && Jitter.Abs(mix - plain) <= Sliver(Loudness(senders, p, names, k))
  {
    hide Heard, Share, NearOne, Sliver, Jitter.Abs, AtGain;
    AbsBasics(0.0);
    if names != [] {
      var m := |names| - 1;
      var init, n := names[..m], names[m];
      MixFollowsGains(senders, p, gains, init, k);
      ShareFollowsGain(senders, p, gains, n, k);
      var x := if Heard(senders, p, n) then AtGain(p.answers(n).frame[k], gains(n)) else 0.0;
      var loud := if Heard(senders, p, n) then Jitter.Abs(p.answers(n).frame[k]) else 0.0;
      ShareClose(Share(senders, p, gains, n, k), x, loud, Heard(senders, p, n));
      Triangle(MixedAt(senders, p, gains, init, k), Share(senders, p, gains, n, k), PlainMix(senders, p, gains, init, k), x);
      SliverAdds(Loudness(senders, p, init, k), loud);
    }
  }

  /** A sender at gain 0 leaves the mix as if it did not play. */
  lemma MutedIsAbsent(senders: map<string, Sender>, p: Pull, gains: Gains, names: seq<string>, i: nat, k: nat)
    requires k < FRAME_SIZE && i < |names| && gains(names[i]) == 0.0 && forall n <- names :: n in senders
    ensures MixedAt(senders, p, gains, names, k) == MixedAt(senders, p, gains, names[..i] + names[i + 1..], k)
  {
    MixedWithout(senders, p, gains, names, i, k);
    ShareFollowsGain(senders, p, gains, names[i], k);
  }

  // ── what the meters show ──

  /**
   A frame moves every stream on by the answers of its own decoder. A sender
   who played shows the loudness of the frame it put into the mix, one who fell
   idle shows 0, and nobody else's level moves. Nobody comes or goes.
   */
  lemma LevelsFollowFrames(e: Engine, p: Pull, name: string)
    requires name in e.senders
    ensures
      var (before, after) := (e.senders[name], RenderFrame(e, p).senders);
      var own := Streams.Input(p.now, p.frames, p.answers(name).quiet, p.answers(name).fecOk);
      && after.Keys == e.senders.Keys && RenderFrame(e, p).sincePrune == e.sincePrune
      && name in after && after[name].lastPacket == before.lastPacket
      && after[name].stream == Streams.Render(before.stream, own).stream
      && after[name].level ==
           if Heard(e.senders, p, name) then SumSquares(p.answers(name).frame) / 960.0
           else if before.stream.playing then 0.0
           else before.level
  {
    hide Streams.Render, SumSquares;
  }

  /** An idle sender shows nothing. */
  ghost predicate IdleIsSilent(e: Engine) {
    forall n <- e.senders :: !e.senders[n].stream.playing ==> e.senders[n].level == 0.0
  }

  lemma FrameKeepsIdleSilent(e: Engine, p: Pull)
    requires WellFormed(e) && IdleIsSilent(e)
    ensures IdleIsSilent(RenderFrame(e, p))
  {
    forall n | n in e.senders
      ensures Heard(e.senders, p, n) ==> RenderFrame(e, p).senders[n].stream.playing
      ensures RenderFrame(e, p).senders[n].stream.playing ==> e.senders[n].stream.playing || Heard(e.senders, p, n)
    {
      PlaysOrIdles(e.senders[n].stream, InputOf(p, n));
    }
    forall n | n in e.senders
      ensures var x := RenderFrame(e, p).senders[n]; !x.stream.playing ==> x.level == 0.0
    {
      LevelsFollowFrames(e, p, n);
    }
    hide Streams.Render, SumSquares;
  }

  lemma PlaysOrIdles(s: Streams.Stream, i: Streams.Input)
    requires Streams.WellFormed(s)
    ensures Streams.Render(s, i).op.Some? <==> Streams.Render(s, i).stream.playing
  {
    hide Jitter.Pop, Jitter.Skip, Jitter.PopKind, Streams.ShouldAccelerate, Streams.Conceal, Streams.WellFormed;
  }

  lemma PacketKeepsIdleSilent(e: Engine, name: string, sn: Serial.u32, data: Jitter.Bytes, now: int, decoderOk: bool)
    requires IdleIsSilent(e)
    ensures IdleIsSilent(OnPacket(e, name, sn, data, now, decoderOk).engine)
  {
    hide Jitter.Push;
  }

  /** The epoch stands still only if no level moved, and moves by one otherwise. */
  lemma EpochTellsLevels(e: Engine, p: Pull)
    requires 0 <= e.levelsEpoch < 0x1_0000_0000_0000_0000
    ensures
      var r := RenderFrame(e, p);
      && (r.levelsEpoch == e.levelsEpoch <==> forall n <- e.senders :: !Heard(e.senders, p, n) && !e.senders[n].stream.playing)
      && (r.levelsEpoch == e.levelsEpoch ==> forall n <- e.senders :: r.senders[n].level == e.senders[n].level)
  {
    hide Streams.Render, SumSquares;
  }
}
