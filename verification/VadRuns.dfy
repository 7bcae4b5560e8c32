/**
 What the voice gate sends over a whole capture: with a fixed threshold, exactly
 the frames near a loud one, once each, in capture order, numbered from 1.
 */
module VadRuns {
  import opened Config
  import opened Audio
  import opened Vad

  /** The gate after capturing `frames` from a cold start. */
  function CaptureAll(frames: seq<Frame>, threshold: real): Gate {
    if frames == [] then CLOSED
    else Capture(CaptureAll(frames[..|frames| - 1], threshold), frames[|frames| - 1], threshold)
  }

  function Louds(frames: seq<Frame>, threshold: real): (b: seq<bool>)
    ensures |b| == |frames|
  {
    seq(|frames|, k requires 0 <= k < |frames| => Loud(frames[k], threshold))
  }

  /** Some loud frame lies at most a hangover before, or a pre-roll after, frame `i`. */
  ghost predicate Wanted(louds: seq<bool>, i: int) {
    exists l :: 0 <= l < |louds| && louds[l] && i - VAD_HANGOVER_FRAMES <= l <= i + VAD_PREROLL_FRAMES
  }

  /** The wanted ones among the first `n` frames, in order. */
  ghost function Chosen<T>(frames: seq<T>, louds: seq<bool>, n: nat): (r: seq<T>)
    requires n <= |frames|
  {
    if n == 0 then []
    else Chosen(frames, louds, n - 1) + if Wanted(louds, n - 1) then [frames[n - 1]] else []
  }

  /** Frames captured since the last loud one; as if one had ended just before the hangover the capture starts without. */
  function Since(louds: seq<bool>): nat {
    if louds == [] then VAD_HANGOVER_FRAMES
    else if louds[|louds| - 1] then 0
    else Since(louds[..|louds| - 1]) + 1
  }

  /** Trailing frames the gate holds back. */
  function Gated(louds: seq<bool>): nat {
    if Since(louds) < VAD_HANGOVER_FRAMES then 0 else Since(louds) - VAD_HANGOVER_FRAMES
  }

  function Held(louds: seq<bool>): nat {
    if Gated(louds) < VAD_PREROLL_FRAMES then Gated(louds) else VAD_PREROLL_FRAMES
  }

  lemma {:induction false} SinceMeans(louds: seq<bool>)
    ensures var s, n := Since(louds), |louds|;
            && ((s < n && louds[n - 1 - s]) || s == n + VAD_HANGOVER_FRAMES)
            && (forall l :: 0 <= l < n && n - 1 - s < l ==> !louds[l])
  {
    if louds != [] && !louds[|louds| - 1] {
      SinceMeans(louds[..|louds| - 1]);
    }
  }

  /** What one more frame changes about the frames before it. */
  lemma WantedStep(louds: seq<bool>, loud: bool, i: nat)
    requires i < |louds|
    ensures Wanted(louds + [loud], i) == (Wanted(louds, i) || (loud && |louds| <= i + VAD_PREROLL_FRAMES))
  {
    var more := louds + [loud];
    if Wanted(louds, i) {
      var l :| 0 <= l < |louds| && louds[l] && i - VAD_HANGOVER_FRAMES <= l <= i + VAD_PREROLL_FRAMES;
      assert more[l];
    }
    if loud {
      assert more[|louds|];
    }
  }

  lemma WantedNow(louds: seq<bool>, loud: bool)
    ensures Wanted(louds + [loud], |louds|) == (loud || Since(louds) < VAD_HANGOVER_FRAMES)
  {
    hide Since;
    var n, s, more := |louds|, Since(louds), louds + [loud];
    SinceMeans(louds);
    if loud {
      assert more[n];
    } else if s < VAD_HANGOVER_FRAMES {
      assert more[n - 1 - s];
    } else {
      assert forall l :: 0 <= l < n && n - 1 - s < l ==> !louds[l];
    }
  }

  /** The frames held back are unwanted so far; the ones before them within reach of a new loud frame are wanted already. */
  lemma HeldBack(louds: seq<bool>, i: nat)
    requires i < |louds|
    ensures |louds| - Gated(louds) <= i ==> !Wanted(louds, i)
    ensures |louds| - VAD_PREROLL_FRAMES <= i < |louds| - Gated(louds) ==> Wanted(louds, i)
  {
    hide Since;
    var n, s := |louds|, Since(louds);
    SinceMeans(louds);
    if n - VAD_PREROLL_FRAMES <= i < n - Gated(louds) {
      assert s < n;
      assert louds[n - 1 - s];
    }
  }

  lemma GatedStep(louds: seq<bool>, loud: bool)
    ensures Since(louds + [loud]) == if loud then 0 else Since(louds) + 1
    ensures Gated(louds) <= |louds|
  {
    assert (louds + [loud])[..|louds|] == louds;
    SinceMeans(louds);
  }

  lemma {:induction false} ChosenSame<T>(frames: seq<T>, more: seq<T>, a: seq<bool>, b: seq<bool>, n: nat)
    requires n <= |frames| <= |more| && more[..|frames|] == frames
    requires forall i :: 0 <= i < n ==> Wanted(a, i) == Wanted(b, i)
    ensures Chosen(frames, a, n) == Chosen(more, b, n)
  {
    if n > 0 {
      ChosenSame(frames, more, a, b, n - 1);
      assert more[..|frames|][n - 1] == frames[n - 1];
    }
  }

  lemma {:induction false} ChosenNone<T>(frames: seq<T>, louds: seq<bool>, j: nat, k: nat)
    requires j <= k <= |frames|
    requires forall i :: j <= i < k ==> !Wanted(louds, i)
    ensures Chosen(frames, louds, k) == Chosen(frames, louds, j)
  {
    if j < k {
      ChosenNone(frames, louds, j, k - 1);
    }
  }

  lemma {:induction false} ChosenEach<T>(frames: seq<T>, louds: seq<bool>, j: nat, k: nat)
    requires j <= k <= |frames|
    requires forall i :: j <= i < k ==> Wanted(louds, i)
    ensures Chosen(frames, louds, k) == Chosen(frames, louds, j) + frames[j..k]
  {
    if j < k {
      ChosenEach(frames, louds, j, k - 1);
    }
  }

  /** A frame that stays quiet changes nothing about those before it. */
  lemma ChosenQuiet<T>(frames: seq<T>, frame: T, louds: seq<bool>)
    requires |louds| == |frames|
    ensures Chosen(frames + [frame], louds + [false], |frames| + 1) ==
            Chosen(frames, louds, |frames|) + if Since(louds) < VAD_HANGOVER_FRAMES then [frame] else []
  {
    hide Wanted, Since;
    var n := |frames|;
    forall i | 0 <= i < n
      ensures Wanted(louds, i) == Wanted(louds + [false], i)
    {
      WantedStep(louds, false, i);
    }
    ChosenSame(frames, frames + [frame], louds, louds + [false], n);
    WantedNow(louds, false);
  }

  /** A loud frame makes exactly the held frames newly wanted. */
  lemma NewlyWanted(louds: seq<bool>, i: nat)
    requires i < |louds|
    ensures i < |louds| - Held(louds) ==> Wanted(louds + [true], i) == Wanted(louds, i)
    ensures |louds| - Held(louds) <= i ==> Wanted(louds + [true], i) && !Wanted(louds, i)
  {
    hide Wanted, Since, Gated;
    WantedStep(louds, true, i);
    HeldBack(louds, i);
  }

  lemma HeldFits(louds: seq<bool>)
    ensures Held(louds) <= |louds|
  {
    GatedStep(louds, true);
  }

  lemma ChosenLoud<T>(frames: seq<T>, frame: T, louds: seq<bool>)
    requires |louds| == |frames|
    ensures Held(louds) <= |frames|
    ensures Chosen(frames + [frame], louds + [true], |frames| + 1) ==
            Chosen(frames, louds, |frames|) + frames[|frames| - Held(louds)..] + [frame]
  {
    hide Wanted, Since, Chosen, Held;
    var n, more, after := |frames|, frames + [frame], louds + [true];
    HeldFits(louds);
    var j := n - Held(louds);
    forall i | 0 <= i < n
      ensures i < j ==> Wanted(louds, i) == Wanted(after, i)
      ensures j <= i ==> Wanted(after, i) && !Wanted(louds, i)
    {
      NewlyWanted(louds, i);
    }
    WantedNow(louds, true);
    ChosenSame(frames, more, louds, after, j);
    ChosenNone(frames, louds, j, n);
    ChosenEach(more, after, j, n + 1);
    assert more[j..n + 1] == frames[j..] + [frame];
  }

  lemma ModAdd(a: nat, b: nat)
    ensures (a % U32 + b) % U32 == (a + b) % U32
  {
  }

  lemma NumberedAt(frames: seq<Frame>, from: nat, k: nat)
    requires k < |frames|
    ensures Numbered(frames, from)[k] == Packet((from + k) % U32, frames[k])
  {
  }

  lemma NumberedConcat(a: seq<Frame>, b: seq<Frame>, from: nat)
    ensures Numbered(a + b, from) == Numbered(a, from) + Numbered(b, (from + |a|) % U32)
    ensures ((from + |a|) % U32 + |b|) % U32 == (from + |a + b|) % U32
  {
    hide Numbered;
    var whole, parts := Numbered(a + b, from), Numbered(a, from) + Numbered(b, (from + |a|) % U32);
    forall k | 0 <= k < |whole|
      ensures whole[k] == parts[k]
    {
      NumberedAt(a + b, from, k);
      if k < |a| {
        NumberedAt(a, from, k);
      } else {
        NumberedAt(b, (from + |a|) % U32, k - |a|);
        ModAdd(from + |a|, k - |a|);
      }
    }
    ModAdd(from + |a|, |b|);
  }

  /** The gate's counters and ring, told from the loudness of the frames captured. */
  ghost predicate Tracks(g: Gate, frames: seq<Frame>, threshold: real) {
    var louds := Louds(frames, threshold);
    && Held(louds) <= |frames|
    && g.preroll == frames[|frames| - Held(louds)..]
    && g.hangover == (if threshold <= 0.0 || Since(louds) > VAD_HANGOVER_FRAMES then 0 else VAD_HANGOVER_FRAMES - Since(louds))
    && g.sent == Numbered(Chosen(frames, louds, |frames|), 1)
    && g.sequence == (1 + |Chosen(frames, louds, |frames|)|) % U32
  }

  lemma NewestHeld<T>(frames: seq<T>, frame: T, p: nat)
    requires p <= |frames| && p <= VAD_PREROLL_FRAMES
    ensures var q := if p < VAD_PREROLL_FRAMES then p + 1 else p;
            Newest(frames[|frames| - p..] + [frame]) == (frames + [frame])[|frames| + 1 - q..]
  {
  }

  lemma DisabledIsLoud(pcm: Frame, threshold: real)
    ensures threshold <= 0.0 ==> Loud(pcm, threshold)
  {
  }

  lemma LoudsStep(frames: seq<Frame>, pcm: Frame, threshold: real)
    ensures Louds(frames + [pcm], threshold) == Louds(frames, threshold) + [Loud(pcm, threshold)]
  {
    hide Loud;
  }

  /** One captured frame keeps the gate on track. */
  lemma TracksStep(g: Gate, frames: seq<Frame>, pcm: Frame, threshold: real)
    requires Tracks(g, frames, threshold)
    ensures Tracks(Capture(g, pcm, threshold), frames + [pcm], threshold)
  {
    hide *;
    if Loud(pcm, threshold) {
      LoudStep(g, frames, pcm, threshold);
    } else {
      QuietStep(g, frames, pcm, threshold);
    }
  }

  lemma LoudStep(g: Gate, frames: seq<Frame>, pcm: Frame, threshold: real)
    requires Tracks(g, frames, threshold) && Loud(pcm, threshold)
    ensures Tracks(Capture(g, pcm, threshold), frames + [pcm], threshold)
  {
    hide Loud, Louds, Since, Chosen, Numbered, Newest;
    var louds := Louds(frames, threshold);
    LoudsStep(frames, pcm, threshold);
    GatedStep(louds, true);
    ChosenLoud(frames, pcm, louds);
    var sent := Chosen(frames, louds, |frames|);
    NumberedConcat(sent, g.preroll + [pcm], 1);
    assert sent + frames[|frames| - Held(louds)..] + [pcm] == sent + (g.preroll + [pcm]);
  }

  lemma QuietStep(g: Gate, frames: seq<Frame>, pcm: Frame, threshold: real)
    requires Tracks(g, frames, threshold) && !Loud(pcm, threshold)
    ensures Tracks(Capture(g, pcm, threshold), frames + [pcm], threshold)
  {
    hide Loud, Louds, Since, Chosen, Numbered, Newest;
    var louds := Louds(frames, threshold);
    LoudsStep(frames, pcm, threshold);
    GatedStep(louds, false);
    DisabledIsLoud(pcm, threshold);
    ChosenQuiet(frames, pcm, louds);
    if g.hangover > 0 {
      assert g.preroll == [] && g.preroll + [pcm] == [pcm];
      NumberedConcat(Chosen(frames, louds, |frames|), [pcm], 1);
    } else {
      NewestHeld(frames, pcm, Held(louds));
      assert Chosen(frames, louds, |frames|) + [] == Chosen(frames, louds, |frames|);
    }
  }

  lemma {:induction false} TracksRun(frames: seq<Frame>, threshold: real)
    ensures Tracks(CaptureAll(frames, threshold), frames, threshold)
  {
    hide Capture;
    if frames != [] {
      var n := |frames| - 1;
      TracksRun(frames[..n], threshold);
      TracksStep(CaptureAll(frames[..n], threshold), frames[..n], frames[n], threshold);
      assert frames[..n] + [frames[n]] == frames;
    }
  }

  /** Frame `i` is sent iff a loud frame lies in [i - hangover, i + pre-roll]: once, in order, numbered from 1. */
  lemma SentExactlyWanted(frames: seq<Frame>, threshold: real)
    ensures CaptureAll(frames, threshold).sent == Numbered(Chosen(frames, Louds(frames, threshold), |frames|), 1)
  {
    TracksRun(frames, threshold);
  }
}
