/**
 The sender's voice gate: hangover, pre-roll and sequence numbers. Encoding,
 encryption and sending are taken to succeed; RMS is compared through squares.
 */
module Vad {
  import opened Config
  import opened Audio

  const U32: nat := 0x1_0000_0000

  datatype Packet = Packet(sn: nat, frame: Frame)

  /** RMS at or above a positive threshold, with both sides squared; a threshold of 0 or less disables the gate. */
  function Loud(pcm: Frame, threshold: real): bool {
    threshold <= 0.0 || MeanSquare(pcm) >= threshold * threshold
  }

  /** The gate: its hangover, the gated frames held back, and the packets sent. */
  datatype Gate = Gate(hangover: nat, preroll: seq<Frame>, sequence: nat, sent: seq<Packet>)

  const CLOSED := Gate(0, [], 1, [])

  /** The newest `VAD_PREROLL_FRAMES` of a sequence of gated frames. */
  function Newest<T>(frames: seq<T>): seq<T> {
    if |frames| <= VAD_PREROLL_FRAMES then frames else frames[|frames| - VAD_PREROLL_FRAMES..]
  }

  /** Consecutive sequence numbers, wrapping at 2^32. */
  function Numbered(frames: seq<Frame>, from: nat): (p: seq<Packet>)
    ensures |p| == |frames|
  {
    seq(|frames|, k requires 0 <= k < |frames| => Packet((from + k) % U32, frames[k]))
  }

  /** Whether the frame passes, and the hangover it leaves. */
  function PassVad(loud: bool, disabled: bool, hangover: nat): (bool, nat) {
    if disabled then (true, hangover)
    else if loud then (true, VAD_HANGOVER_FRAMES)
    else if hangover > 0 then (true, hangover - 1)
    else (false, 0)
  }

  function Capture(g: Gate, pcm: Frame, threshold: real): Gate {
    var (pass, hangover) := PassVad(Loud(pcm, threshold), threshold <= 0.0, g.hangover);
    if !pass then g.(hangover := hangover, preroll := Newest(g.preroll + [pcm]))
    else
      var out := g.preroll + [pcm];
      Gate(hangover, [], (g.sequence + |out|) % U32, g.sent + Numbered(out, g.sequence))
  }

  /** `len` slots of a ring from `start` on. */
  function Rotated<T>(slots: seq<T>, start: nat, len: nat): (r: seq<T>)
    requires |slots| == VAD_PREROLL_FRAMES
    ensures |r| == len
  {
    seq(len, k requires 0 <= k < len => slots[(start + k) % VAD_PREROLL_FRAMES])
  }

  lemma RotatedAt<T>(slots: seq<T>, start: nat, len: nat, k: nat)
    requires |slots| == VAD_PREROLL_FRAMES && k < len
    ensures Rotated(slots, start, len)[k] == slots[(start + k) % VAD_PREROLL_FRAMES]
  {
  }

  /** Inside a ring, only the slot itself is the slot `d` places on, for d short of a lap. */
  lemma OtherSlot(start: nat, a: nat, b: nat)
    requires a < b < a + VAD_PREROLL_FRAMES
    ensures (start + a) % VAD_PREROLL_FRAMES != (start + b) % VAD_PREROLL_FRAMES
  {
  }

  lemma NextSlot(start: nat, k: nat)
    ensures ((start + 1) % VAD_PREROLL_FRAMES + k) % VAD_PREROLL_FRAMES == (start + (k + 1)) % VAD_PREROLL_FRAMES
  {
  }

  lemma RotatedPush<T>(slots: seq<T>, start: nat, len: nat, frame: T)
    requires |slots| == VAD_PREROLL_FRAMES && start < VAD_PREROLL_FRAMES && len <= VAD_PREROLL_FRAMES
    ensures
      var after := slots[(start + len) % VAD_PREROLL_FRAMES := frame];
      Newest(Rotated(slots, start, len) + [frame]) ==
        if len == VAD_PREROLL_FRAMES then Rotated(after, (start + 1) % VAD_PREROLL_FRAMES, len) else Rotated(after, start, len + 1)
  {
    hide Rotated;
    var after := slots[(start + len) % VAD_PREROLL_FRAMES := frame];
    var was := Rotated(slots, start, len) + [frame];
    var full := len == VAD_PREROLL_FRAMES;
    var now := if full then Rotated(after, (start + 1) % VAD_PREROLL_FRAMES, len) else Rotated(after, start, len + 1);
    forall k | 0 <= k < |now|
      ensures now[k] == was[if full then k + 1 else k]
    {
      var from := if full then k + 1 else k;
      if full {
        RotatedAt(after, (start + 1) % VAD_PREROLL_FRAMES, len, k);
        NextSlot(start, k);
      } else {
        RotatedAt(after, start, len + 1, k);
      }
      if from < len {
        RotatedAt(slots, start, len, from);
        OtherSlot(start, from, len);
      }
    }
    assert Newest(was) == now;
  }

  class VadPreroll {
    var slots: array<Frame>
    var start: nat
    var len: nat

    ghost predicate Valid()
      reads this, slots
    {
      slots.Length == VAD_PREROLL_FRAMES && start < VAD_PREROLL_FRAMES && len <= VAD_PREROLL_FRAMES
    }

    /** The buffered frames, oldest first. */
    ghost function Contents(): (s: seq<Frame>)
      requires Valid()
      reads this, slots
    {
      Rotated(slots[..], start, len)
    }

    constructor ()
      ensures Valid() && fresh(slots) && Contents() == []
    {
      slots := new Frame[VAD_PREROLL_FRAMES](_ => seq(FRAME_SIZE, _ => 0.0));
      start, len := 0, 0;
    }

    method Push(frame: Frame)
      requires Valid()
      modifies this, slots
      ensures Valid() && slots == old(slots)
      ensures Contents() == Newest(old(Contents()) + [frame])
    {
      hide Rotated, Newest;
      var cap := slots.Length;
      var idx := (start + len) % cap;
      RotatedPush(slots[..], start, len, frame);
      slots[idx] := frame;
      assert slots[..] == old(slots[..])[idx := frame];
      if len == cap {
        start := (start + 1) % cap;
      } else {
        len := len + 1;
      }
    }

    /** The buffered frames oldest first, then empty. */
    method Drain() returns (frames: seq<Frame>)
      requires Valid()
      modifies this
      ensures Valid() && slots == old(slots)
      ensures frames == old(Contents()) && Contents() == []
    {
      frames := [];
      for i := 0 to len
        invariant Valid() && start == old(start) && len == old(len)
        invariant frames == old(Contents())[..i]
      {
        frames := frames + [slots[(start + i) % slots.Length]];
      }
      start, len := 0, 0;
    }
  }

  class CaptureLoop {
    const preroll: VadPreroll
    var hangover: nat
    var sequence: nat
    var sent: seq<Packet>

    ghost predicate Valid()
      reads this, preroll, preroll.slots
    {
      preroll.Valid()
    }

    ghost function View(): Gate
      requires Valid()
      reads this, preroll, preroll.slots
    {
      Gate(hangover, preroll.Contents(), sequence, sent)
    }

    constructor ()
      ensures Valid() && fresh(preroll) && fresh(preroll.slots) && View() == CLOSED
    {
      preroll := new VadPreroll();
      hangover, sequence, sent := 0, 1, [];
    }

    method IsLoud(pcm: Frame, threshold: real) returns (loud: bool)
      ensures loud == Loud(pcm, threshold)
    {
      if threshold <= 0.0 {
        return true;
      }
      var sum := 0.0;
      for i := 0 to |pcm|
        invariant sum == SumSquares(pcm[..i])
      {
        assert pcm[..i + 1][..i] == pcm[..i];
        sum := sum + pcm[i] * pcm[i];
      }
      assert pcm[..|pcm|] == pcm;
      return sum / FRAME_SIZE as real >= threshold * threshold;
    }

    /** Returns whether the frame should be sent. */
    method PassGate(pcm: Frame, threshold: real) returns (pass: bool)
      modifies `hangover
      ensures (pass, hangover) == PassVad(Loud(pcm, threshold), threshold <= 0.0, old(hangover))
    {
      if threshold <= 0.0 {
        return true;
      }
      var loud := IsLoud(pcm, threshold);
      if loud {
        hangover := VAD_HANGOVER_FRAMES;
        return true;
      }
      if hangover > 0 {
        hangover := hangover - 1;
        return true;
      }
      return false;
    }

    method Send(frame: Frame)
      modifies `sequence, `sent
      ensures sent == old(sent) + [Packet(old(sequence) % U32, frame)]
      ensures sequence == (old(sequence) + 1) % U32
    {
      sent := sent + [Packet(sequence % U32, frame)];
      sequence := (sequence + 1) % U32;
    }

    /** One captured frame: gate it, or flush the pre-roll and send it. */
    method OnFrame(pcm: Frame, threshold: real)
      requires Valid()
      modifies this, preroll, preroll.slots
      ensures Valid() && preroll.slots == old(preroll.slots)
      ensures View() == Capture(old(View()), pcm, threshold)
    {
      hide Loud, Newest;
      var pass := PassGate(pcm, threshold);
      if !pass {
        preroll.Push(pcm);
        return;
      }
      var held := preroll.Drain();
      SendAll(held + [pcm]);
    }

    method SendAll(frames: seq<Frame>)
      modifies `sequence, `sent
      ensures sent == old(sent) + Numbered(frames, old(sequence))
      ensures frames != [] ==> sequence == (old(sequence) + |frames|) % U32
    {
      ghost var from := sequence;
      for k := 0 to |frames|
        invariant sent == old(sent) + Numbered(frames[..k], from)
        invariant if k == 0 then sequence == from else sequence == (from + k) % U32
      {
        NumberedAppend(frames, k, from);
        Send(frames[k]);
      }
      assert frames[..|frames|] == frames;
    }
  }

  lemma NumberedAppend(frames: seq<Frame>, k: nat, from: nat)
    requires k < |frames|
    ensures Numbered(frames[..k + 1], from) == Numbered(frames[..k], from) + [Packet((from + k) % U32, frames[k])]
    ensures (if k == 0 then from % U32 else (from + k) % U32 % U32) == (from + k) % U32
    ensures ((from + k) % U32 + 1) % U32 == (from + k + 1) % U32
  {
  }

  /**
   With a positive threshold a frame whose every sample reaches it is loud, and
   one whose every sample stays below it is not; without one every frame is.
   */
  lemma LoudExtremes(pcm: Frame, threshold: real)
    ensures threshold <= 0.0 || AllReach(pcm, threshold) ==> Loud(pcm, threshold)
    ensures threshold > 0.0 && AllBelow(pcm, threshold) ==> !Loud(pcm, threshold)
  {
    if threshold > 0.0 {
      MeanReaches(pcm, threshold);
    }
    hide MeanSquare;
  }
}
