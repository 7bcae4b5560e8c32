/** What a pump renders: every frame is the engine's next one, told how many the output still takes. */
module PumpFrames {
  import opened Config
  import opened Engines = Engine
  import opened PlayoutEngines
  import opened EnginePumps
  import opened VirtualOutput
  import opened Audio
  import Output
  import Jitter

  /** The pull is the least number of frames that lifts the output to two frames, or to one request and a frame. */
  lemma PullIsLeast(level: nat, request: nat)
    ensures
      var (p, goal) := (Output.PullOf(level, Output.LowWater(request)), if request < 960 then 1920 else request + 960);
      && level + 960 * p >= goal
      && (p > 0 ==> level + 960 * (p - 1) < goal)
  {
  }

  /** Call number `j` of a pump of an output that held `level`. */
  function Call(level: nat, request: nat, now: int, turns: nat -> Turn, j: nat): Pull {
    Pull(now, Output.PullOf(level + FRAME_SIZE * j, Output.LowWater(request)), turns(j).answers)
  }

  /** The engine after the first `n` calls of a pump. */
  function After(e: Engine, level: nat, request: nat, now: int, turns: nat -> Turn, n: nat): Engine {
    RenderFrames(e, seq(n, j requires 0 <= j < n => Call(level, request, now, turns, j)))
  }

  /** `frame` is the mix of the senders who play at that call. */
  ghost predicate IsMix(frame: Frame, e: Engine, p: Pull, gains: Gains, names: seq<string>) {
    && (forall n <- names :: n in e.senders) && Plays(e, p)
    && (forall i | 0 <= i < FRAME_SIZE :: frame[i] == MixedAt(e.senders, p, gains, names, i))
  }

  lemma AfterNext(e: Engine, level: nat, request: nat, now: int, turns: nat -> Turn, n: nat)
    ensures After(e, level, request, now, turns, 0) == e
    ensures After(e, level, request, now, turns, n + 1) ==
      RenderFrame(After(e, level, request, now, turns, n), Call(level, request, now, turns, n))
  {
    hide RenderFrame, Call;
    var calls := seq(n + 1, j requires 0 <= j < n + 1 => Call(level, request, now, turns, j));
    assert calls[..n] == seq(n, j requires 0 <= j < n => Call(level, request, now, turns, j));
  }

  /** An output that took `k` whole frames. */
  ghost predicate TookFrames(d: Output.Device, level: nat, request: nat, k: nat) {
    |d.ring| <= Output.RING_CAPACITY && Output.Level(d) == level + FRAME_SIZE * k && d.request == request
  }

  /**
   The frames pushed from call number `k` on are the mixes of the calls to come,
   in order and with nothing left out; and unless the last call is one nobody
   plays in, these are all the calls there were.
   */
  ghost predicate Mixes(r: Pumped, e: Engine, level: nat, request: nat, now: int, names: seq<string>, turns: nat -> Turn, k: nat) {
    var end := k + |r.supply|;
    var last := After(e, level, request, now, turns, end);
    && (forall j | k <= j < end ::
         IsMix(r.supply[j - k], After(e, level, request, now, turns, j), Call(level, request, now, turns, j), turns(j).gains, names))
    && (|| r.engine == last
        || (!Plays(last, Call(level, request, now, turns, end)) && r.engine == After(e, level, request, now, turns, end + 1)))
  }

  /** The pump stops at once: the output is full, or nobody plays. */
  lemma MixesNone(r: Pumped, e: Engine, level: nat, request: nat, now: int, names: seq<string>, turns: nat -> Turn, k: nat)
    requires r.supply == []
    requires
      var last := After(e, level, request, now, turns, k);
      r.engine == last || (!Plays(last, Call(level, request, now, turns, k)) && r.engine == After(e, level, request, now, turns, k + 1))
    ensures Mixes(r, e, level, request, now, names, turns, k)
  {
    hide After, Call, Plays, IsMix;
  }

  /** One call and what the pump does after it. */
  lemma MixesFirst(frame: Frame, rest: Pumped, e: Engine, level: nat, request: nat, now: int, names: seq<string>, turns: nat -> Turn, k: nat)
    requires IsMix(frame, After(e, level, request, now, turns, k), Call(level, request, now, turns, k), turns(k).gains, names)
    requires Mixes(rest, e, level, request, now, names, turns, k + 1)
    ensures Mixes(rest.(supply := [frame] + rest.supply), e, level, request, now, names, turns, k)
  {
    hide After, Call, Plays, IsMix;
    var all := [frame] + rest.supply;
    forall j | k <= j < k + |all|
      ensures IsMix(all[j - k], After(e, level, request, now, turns, j), Call(level, request, now, turns, j), turns(j).gains, names)
    {
      assert j > k ==> all[j - k] == rest.supply[j - (k + 1)];
    }
  }

  lemma FrameIsMix(e: Engine, p: Pull, gains: Gains, names: seq<string>)
    requires Plays(e, p) && forall n <- names :: n in e.senders
    ensures IsMix(MixOf(e.senders, p, gains, names), e, p, gains, names)
  {
    hide Plays, MixedAt;
  }

  lemma {:induction false} PumpPlaysOn(e: Engine, d: Output.Device, now: int, names: seq<string>, turns: nat -> Turn,
    k: nat, start: Engine, level: nat)
    requires (forall n <- names :: n in e.senders) && TookFrames(d, level, d.request, k)
    requires e == After(start, level, d.request, now, turns, k)
    ensures Mixes(PumpFrom(e, d, now, names, turns, k), start, level, d.request, now, names, turns, k)
    decreases Output.RING_CAPACITY - |d.ring|
  {
    hide RenderFrame, Plays, MixOf, Output.LowWater, Output.PullOf, After, Mixes, IsMix;
    var r := PumpFrom(e, d, now, names, turns, k);
    if !Output.WantsFrame(d) {
      MixesNone(r, start, level, d.request, now, names, turns, k);
    } else {
      var p := PullFor(d, now, turns(k));
      AfterNext(start, level, d.request, now, turns, k);
      assert p == Call(level, d.request, now, turns, k);
      if !Plays(e, p) {
        MixesNone(r, start, level, d.request, now, names, turns, k);
      } else {
        var next, frame := RenderFrame(e, p), MixOf(e.senders, p, turns(k).gains, names);
        var pushed := Output.PushCounted(d, frame);
        FrameIsMix(e, p, turns(k).gains, names);
        if Output.RING_CAPACITY - |d.ring| < FRAME_SIZE {
          var stopped := Pumped(next, pushed, []);
          MixesNone(stopped, start, level, d.request, now, names, turns, k + 1);
          MixesFirst(frame, stopped, start, level, d.request, now, names, turns, k);
          assert r == stopped.(supply := [frame] + stopped.supply);
        } else {
          KeepsNames(e, p);
          PumpPlaysOn(next, pushed, now, names, turns, k + 1, start, level);
          MixesFirst(frame, PumpFrom(next, pushed, now, names, turns, k + 1), start, level, d.request, now, names, turns, k);
        }
      }
    }
  }

  /** A pump pushes the mixes of its calls, each made of the engine the one before left. */
  lemma PumpPlaysMix(e: Engine, d: Output.Device, now: int, names: seq<string>, turns: nat -> Turn)
    requires |d.ring| <= Output.RING_CAPACITY && forall n <- names :: n in e.senders
    ensures Mixes(EnginePump(e, d, now, names, turns), e, Output.Level(d), d.request, now, names, turns, 0)
  {
    var r := PumpFrom(e, d, now, names, turns, 0);
    hide PumpFrom, After, IsMix, Call, Mixes;
    AfterNext(e, Output.Level(d), d.request, now, turns, 0);
    PumpPlaysOn(e, d, now, names, turns, 0, e, Output.Level(d));
    SameMixes(r, EnginePump(e, d, now, names, turns), e, Output.Level(d), d.request, now, names, turns);
  }

  lemma SameMixes(a: Pumped, b: Pumped, e: Engine, level: nat, request: nat, now: int, names: seq<string>, turns: nat -> Turn)
    requires Mixes(a, e, level, request, now, names, turns, 0) && a.engine == b.engine && a.supply == b.supply
    ensures Mixes(b, e, level, request, now, names, turns, 0)
  {
    hide After, IsMix, Call, Plays;
  }

  // ── without a device ──

  /** The engine after the first `n` calls of a pump that covers the clock from `until` on. */
  function Covering(e: Engine, until: int, now: int, turns: nat -> Turn, n: nat): Engine {
    RenderFrames(e, seq(n, j requires 0 <= j < n => VirtualPull(until + FRAME_NS * j, now, turns(j))))
  }

  lemma CoveringNext(e: Engine, until: int, now: int, turns: nat -> Turn, n: nat)
    ensures Covering(e, until, now, turns, 0) == e
    ensures Covering(e, until, now, turns, n + 1) ==
      RenderFrame(Covering(e, until, now, turns, n), VirtualPull(until + FRAME_NS * n, now, turns(n)))
  {
    hide RenderFrame, VirtualPull;
    var calls := seq(n + 1, j requires 0 <= j < n + 1 => VirtualPull(until + FRAME_NS * j, now, turns(j)));
    assert calls[..n] == seq(n, j requires 0 <= j < n => VirtualPull(until + FRAME_NS * j, now, turns(j)));
  }

  /** After `n` calls in which somebody played the engine has moved on `n` frames, or one more in which nobody did. */
  ghost predicate Moved(start: Engine, until: int, now: int, turns: nat -> Turn, n: nat, end: Engine) {
    var last := Covering(start, until, now, turns, n);
    || end == last
    || (!Plays(last, VirtualPull(until + FRAME_NS * n, now, turns(n))) && end == Covering(start, until, now, turns, n + 1))
  }

  lemma {:induction false} VirtualMovesOn(v: Virtual, now: int, turns: nat -> Turn, k: nat, start: Engine, until: int)
    requires v.until == until + FRAME_NS * k && v.engine == Covering(start, until, now, turns, k)
    ensures var (r, n) := VirtualFrom(v, now, turns, k); Moved(start, until, now, turns, k + n, r.engine)
    ensures var (r, n) := VirtualFrom(v, now, turns, k);
      forall j | k <= j < k + n :: Plays(Covering(start, until, now, turns, j), VirtualPull(until + FRAME_NS * j, now, turns(j)))
    decreases now + 2 * FRAME_NS - v.until
  {
    hide RenderFrame, Plays, LevelAt, Output.LowWater, Output.PullOf, Covering;
    CoveredInTime(v.until, now);
    if LevelAt(v.until, now) < Output.LowWater(0) {
      var p := VirtualPull(v.until, now, turns(k));
      CoveringNext(start, until, now, turns, k);
      if Plays(v.engine, p) {
        VirtualMovesOn(Virtual(RenderFrame(v.engine, p), v.until + FRAME_NS), now, turns, k + 1, start, until);
      }
    }
  }

  /** A pump without a device moves the engine on by the frames it counts: nothing is played twice or passed over. */
  lemma VirtualPumpMoves(v: Virtual, now: int, turns: nat -> Turn)
    ensures
      var (r, n) := VirtualPump(v, now, turns);
      var until := if now - v.until > 300_000_000 then now else v.until;
      && Moved(v.engine, until, now, turns, n, r.engine)
      && (forall j | 0 <= j < n :: Plays(Covering(v.engine, until, now, turns, j), VirtualPull(until + FRAME_NS * j, now, turns(j))))
  {
    hide VirtualFrom, Moved, Covering, Plays, VirtualPull;
    var c := CaughtUp(v, now);
    CoveringNext(v.engine, c.until, now, turns, 0);
    VirtualMovesOn(c, now, turns, 0, v.engine, c.until);
  }
}
