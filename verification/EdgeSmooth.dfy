/** What the silence ramps do: a read starts from silence and ends in it without a click, and where two reads join. */
module EdgeSmooth {
  import opened Playback
  import opened TrimSmooth

  /** Samples of size at most `m`. */
  ghost predicate Within(s: seq<real>, m: real) {
    forall k | 0 <= k < |s| :: -m <= s[k] <= m
  }

  lemma Nonnegative(a: real, b: real)
    requires 0.0 <= a && 0.0 <= b
    ensures a * b >= 0.0
  {
  }

  /** One step of a ramp. */
  function Notch(fade: nat): (n: real)
    ensures 0.0 < n <= 1.0
  {
    1.0 / (fade + 1) as real
  }

  /** The rise and the fall at sample `i`, each at 1 away from its edge. */
  function Rise(i: nat, fade: nat, fadeIn: bool): real {
    if fadeIn && i < fade then Ramp(i, fade) else 1.0
  }

  lemma RiseStep(i: nat, fade: nat, fadeIn: bool)
    ensures 0.0 < Rise(i, fade, fadeIn) <= Rise(i + 1, fade, fadeIn) <= 1.0
    ensures Rise(i + 1, fade, fadeIn) - Rise(i, fade, fadeIn) <= Notch(fade)
  {
    if i < fade {
      RampStep(i, fade);
    }
  }

  /** A gain is a rise from the start times a fall towards the end. */
  lemma GainIsRiseTimesFall(i: nat, available: nat, fade: nat, fadeIn: bool, fadeOut: bool)
    requires i < available
    ensures EdgeGain(i, available, fade, fadeIn, fadeOut) == Times(Rise(i, fade, fadeIn), Rise(available - 1 - i, fade, fadeOut))
  {
  }

  lemma ProductStep(r0: real, r1: real, l0: real, l1: real, n: real)
    requires 0.0 < r0 <= r1 <= 1.0 && 0.0 < l1 <= l0 <= 1.0 && r1 - r0 <= n && l0 - l1 <= n
    ensures -n <= Times(r1, l1) - Times(r0, l0) <= n
  {
    assert Times(r1, l1) - Times(r0, l0) == (r1 - r0) * l1 - r0 * (l0 - l1);
    UpTo(r1 - r0, l1, n);
    UpTo(l0 - l1, r0, n);
  }

  lemma UpTo(x: real, g: real, n: real)
    requires 0.0 <= x <= n && 0.0 < g <= 1.0
    ensures 0.0 <= x * g <= n && 0.0 <= g * x <= n
  {
    assert x * g + x * (1.0 - g) == x;
    Nonnegative(x, 1.0 - g);
  }

  /** From one sample to the next, the gain moves by at most one notch. */
  lemma GainStep(i: nat, available: nat, fade: nat, fadeIn: bool, fadeOut: bool)
    requires i + 1 < available
    ensures -Notch(fade) <=
      EdgeGain(i + 1, available, fade, fadeIn, fadeOut) - EdgeGain(i, available, fade, fadeIn, fadeOut) <= Notch(fade)
  {
    hide EdgeGain, Rise, Notch, Times;
    GainIsRiseTimesFall(i, available, fade, fadeIn, fadeOut);
    GainIsRiseTimesFall(i + 1, available, fade, fadeIn, fadeOut);
    RiseStep(i, fade, fadeIn);
    RiseStep(available - 2 - i, fade, fadeOut);
    ProductStep(Rise(i, fade, fadeIn), Rise(i + 1, fade, fadeIn),
      Rise(available - 1 - i, fade, fadeOut), Rise(available - 2 - i, fade, fadeOut), Notch(fade));
  }

  lemma StepSplits(b0: real, b1: real, g0: real, g1: real)
    ensures Times(b1, g1) - Times(b0, g0) == Times(b1 - b0, g1) + Times(b0, g1 - g0)
  {
  }

  lemma ShrunkBound(x: real, d: real, g: real)
    requires -d <= x <= d && 0.0 <= g <= 1.0
    ensures -d <= Times(x, g) <= d
  {
    ScaledBound(x, d, g);
    Nonnegative(d, 1.0 - g);
  }

  lemma SignedBound(b: real, m: real, h: real, n: real)
    requires -m <= b <= m && -n <= h <= n
    ensures -Times(m, n) <= Times(b, h) <= Times(m, n)
  {
    if h >= 0.0 {
      ScaledBound(b, m, h);
      Nonnegative(m, n - h);
    } else {
      ScaledBound(b, m, -h);
      Nonnegative(m, n + h);
    }
  }

  /** Scaled samples move by at most the signal's step and the gain's share of its size. */
  lemma SampleStep(b0: real, b1: real, g0: real, g1: real, d: real, m: real, n: real)
    requires Dist(b0, b1) <= d && -m <= b0 <= m && 0.0 <= g1 <= 1.0 && -n <= g1 - g0 <= n
    ensures Dist(Times(b0, g0), Times(b1, g1)) <= d + Times(m, n)
  {
    hide Times;
    StepSplits(b0, b1, g0, g1);
    ShrunkBound(b1 - b0, d, g1);
    SignedBound(b0, m, g1 - g0, n);
    Combine(Times(b0, g0), Times(b1, g1), Times(b1 - b0, g1), Times(b0, g1 - g0), 0.0, d, Times(m, n), 0.0);
  }

  /** A sample scaled by at most a notch. */
  lemma SmallSample(b: real, g: real, m: real, n: real)
    requires -m <= b <= m && 0.0 <= g <= n
    ensures Dist(0.0, Times(b, g)) <= Times(m, n) && Dist(Times(b, g), 0.0) <= Times(m, n)
  {
    ScaledBound(b, m, g);
    Nonnegative(m, n - g);
  }

  /** The first gain after silence and the last before it are at most a notch. */
  lemma EdgeNotch(available: nat, fade: nat, fadeIn: bool, fadeOut: bool)
    requires 0 < available && 0 < fade
    ensures fadeIn ==> EdgeGain(0, available, fade, fadeIn, fadeOut) <= Notch(fade)
    ensures fadeOut ==> EdgeGain(available - 1, available, fade, fadeIn, fadeOut) <= Notch(fade)
  {
    hide EdgeGain, Times;
    GainIsRiseTimesFall(0, available, fade, fadeIn, fadeOut);
    GainIsRiseTimesFall(available - 1, available, fade, fadeIn, fadeOut);
    RiseStep(0, fade, fadeIn);
    RiseStep(0, fade, fadeOut);
    RiseStep(available - 1, fade, fadeOut);
    RiseStep(available - 1, fade, fadeIn);
    AtMostFirst(Rise(0, fade, fadeIn), Rise(available - 1, fade, fadeOut));
    AtMostFirst(Rise(0, fade, fadeOut), Rise(available - 1, fade, fadeIn));
  }

  lemma AtMostFirst(a: real, b: real)
    requires 0.0 < a <= 1.0 && 0.0 < b <= 1.0
    ensures Times(a, b) <= a && Times(b, a) <= a
  {
    UpTo(a, b, a);
  }

  /** What is heard around one read: the silence before it, if it follows one, what it takes, and the padding, if it is short. */
  function Around(buf: seq<real>, needed: nat, fade: nat, silent: bool): seq<real> {
    (if silent then [0.0] else []) + Ramped(buf, needed, fade, silent) + if |buf| < needed then [0.0] else []
  }

  lemma RampedAt(buf: seq<real>, needed: nat, fade: nat, silent: bool, i: nat)
    requires i < MinNat(|buf|, needed)
    ensures Ramped(buf, needed, fade, silent)[i] ==
      Times(buf[i], EdgeGain(i, MinNat(|buf|, needed), fade, silent, |buf| < needed))
  {
  }

  /** One step between two samples a read takes. */
  lemma InnerStep(buf: seq<real>, needed: nat, fade: nat, silent: bool, i: nat, d: real, m: real)
    requires i + 1 < MinNat(|buf|, needed) && Smooth(buf, d) && Within(buf, m) && 0.0 <= d && 0.0 <= m
    ensures var r := Ramped(buf, needed, fade, silent); Dist(r[i], r[i + 1]) <= d + m / (fade + 1) as real
  {
    hide EdgeGain, Times, Ramped;
    var a, short := MinNat(|buf|, needed), |buf| < needed;
    RampedAt(buf, needed, fade, silent, i);
    RampedAt(buf, needed, fade, silent, i + 1);
    GainStep(i, a, fade, silent, short);
    assert Dist(buf[i], buf[i + 1]) <= d;
    SampleStep(buf[i], buf[i + 1], EdgeGain(i, a, fade, silent, short), EdgeGain(i + 1, a, fade, silent, short), d, m, Notch(fade));
    DivIsScale(m, fade);
  }

  /**
   A read does not click. If neighbouring samples of the queue differ by at most
   `d` and none is larger than `m`, then every step of what is heard is at most
   d + m / (fade + 1): from the silence in front, inside, and into the padding.
   */
  lemma ReadIsSmooth(buf: seq<real>, needed: nat, fade: nat, silent: bool, d: real, m: real)
    requires 0 < fade && Smooth(buf, d) && Within(buf, m) && 0.0 <= d && 0.0 <= m
    ensures Smooth(Around(buf, needed, fade, silent), d + m / (fade + 1) as real)
  {
    hide EdgeGain, Times, Ramped;
    var a := MinNat(|buf|, needed);
    var r, all := Ramped(buf, needed, fade, silent), Around(buf, needed, fade, silent);
    var lead := if silent then 1 else 0;
    PositiveShare(m, fade);
    DivIsScale(m, fade);
    if a > 0 {
      EdgeNotch(a, fade, silent, |buf| < needed);
      RampedAt(buf, needed, fade, silent, 0);
      RampedAt(buf, needed, fade, silent, a - 1);
    }
    forall k | 0 <= k < |all| - 1
      ensures Dist(all[k], all[k + 1]) <= d + m / (fade + 1) as real
    {
      if a == 0 {
      } else if k < lead {
        SmallSample(buf[0], EdgeGain(0, a, fade, silent, |buf| < needed), m, Notch(fade));
      } else if k - lead + 1 < a {
        InnerStep(buf, needed, fade, silent, k - lead, d, m);
      } else {
        SmallSample(buf[a - 1], EdgeGain(a - 1, a, fade, silent, |buf| < needed), m, Notch(fade));
      }
    }
  }

  /** Further than the fade from any silence a read delivers the queue's own samples. */
  lemma ReadUnchanged(buf: seq<real>, needed: nat, fade: nat, silent: bool, i: nat)
    requires i < MinNat(|buf|, needed)
    requires silent ==> i >= fade
    requires |buf| < needed ==> |buf| - 1 - i >= fade
    ensures Ramped(buf, needed, fade, silent)[i] == buf[i]
  {
    assert EdgeGain(i, MinNat(|buf|, needed), fade, silent, |buf| < needed) == 1.0;
    RampedAt(buf, needed, fade, silent, i);
  }

  /** Within the fade, sample `i` after silence is scaled by (i + 1) / (fade + 1); and sample `i` before padding likewise. */
  lemma ReadRamps(buf: seq<real>, needed: nat, fade: nat, i: nat)
    requires i < fade
    ensures i < needed <= |buf| ==> Ramped(buf, needed, fade, true)[i] == Times(buf[i], (i + 1) as real / (fade + 1) as real)
    ensures i < |buf| < needed ==>
      Ramped(buf, needed, fade, false)[|buf| - 1 - i] == Times(buf[|buf| - 1 - i], (i + 1) as real / (fade + 1) as real)
  {
    if i < needed <= |buf| {
      RampedAt(buf, needed, fade, true, i);
      assert EdgeGain(i, needed, fade, true, false) == Ramp(i, fade);
    }
    if i < |buf| < needed {
      RampedAt(buf, needed, fade, false, |buf| - 1 - i);
      assert EdgeGain(|buf| - 1 - i, |buf|, fade, false, true) == Ramp(i, fade);
    }
    hide EdgeGain, Times, Ramped;
  }

  // ── where two reads join ──

  /** Notches up to full gain that a read of `n` samples reaches from silence, or has left to it. */
  function Reached(n: nat, fade: nat, edge: bool): nat {
    if edge && n < fade + 1 then n else fade + 1
  }

  function Notches(a: nat, fade: nat): real {
    a as real / (fade + 1) as real
  }

  lemma RiseNotches(i: nat, fade: nat, edge: bool)
    ensures Rise(i, fade, edge) == Notches(Reached(i + 1, fade, edge), fade)
  {
  }

  lemma ByOne(x: real)
    ensures Times(x, 1.0) == x && Times(1.0, x) == x
  {
  }

  /** The last sample of a satisfied read, and the first of the one after it. */
  lemma JoinGains(buf: seq<real>, needed: nat, silent: bool, more: seq<real>, next: nat, fade: nat)
    requires 0 < needed <= |buf| && 0 < MinNat(|more|, next)
    ensures Ramped(buf, needed, fade, silent)[needed - 1] == Times(buf[needed - 1], Notches(Reached(needed, fade, silent), fade))
    ensures Ramped(more, next, fade, false)[0] == Times(more[0], Notches(Reached(|more|, fade, |more| < next), fade))
  {
    hide EdgeGain, Times, Ramped, Notches, Reached;
    RampedAt(buf, needed, fade, silent, needed - 1);
    GainIsRiseTimesFall(needed - 1, needed, fade, silent, false);
    RiseNotches(needed - 1, fade, silent);
    ByOne(Rise(needed - 1, fade, silent));
    var a := MinNat(|more|, next);
    RampedAt(more, next, fade, false, 0);
    GainIsRiseTimesFall(0, a, fade, false, |more| < next);
    RiseNotches(a - 1, fade, |more| < next);
    ByOne(Rise(a - 1, fade, |more| < next));
    FullReach(a, |more|, fade);
  }

  lemma FullReach(a: nat, b: nat, fade: nat)
    ensures Reached(a, fade, false) == Reached(b, fade, false)
  {
  }

  /** Samples `x` and `y`, `a` and `b` notches up, are a step apart that the signal's step and one notch of its size allow. */
  ghost predicate Joins(x: real, y: real, d: real, m: real, a: nat, b: nat, fade: nat) {
    Dist(Times(x, Notches(a, fade)), Times(y, Notches(b, fade))) <= d + m / (fade + 1) as real
  }

  /** Whatever the signal, samples at `a` and `b` notches in a row do not click. */
  ghost predicate JoinsSmoothly(a: nat, b: nat, fade: nat) {
    forall x, y, d, m | Dist(x, y) <= d && -m <= x <= m && -m <= y <= m :: Joins(x, y, d, m, a, b, fade)
  }

  /**
   Two reads join without a click, for every signal, if and only if the gain
   moves by at most one notch between them. So a read right after silence must
   take at least a fade, and a last short read must find one; otherwise the
   ramp is cut.
   */
  lemma JoinExactly(a: nat, b: nat, fade: nat)
    requires a <= fade + 1 && b <= fade + 1
    ensures JoinsSmoothly(a, b, fade) <==> -1 <= a - b <= 1
  {
    if -1 <= a - b <= 1 {
      forall x, y, d, m | Dist(x, y) <= d && -m <= x <= m && -m <= y <= m
        ensures Joins(x, y, d, m, a, b, fade)
      {
        NotchesJoin(x, y, d, m, a, b, fade);
      }
    } else {
      ConstantClicks(a, b, fade);
      hide Joins;
      assert Dist(1.0, 1.0) <= 0.0 && -1.0 <= 1.0;
      assert !Joins(1.0, 1.0, 0.0, 1.0, a, b, fade);
    }
  }

  lemma NotchesApart(a: nat, b: nat, fade: nat)
    requires a <= fade + 1 && b <= fade + 1
    ensures -1 <= a - b <= 1 ==> -Notch(fade) <= Notches(b, fade) - Notches(a, fade) <= Notch(fade)
    ensures !(-1 <= a - b <= 1) ==> Dist(Notches(a, fade), Notches(b, fade)) > Notch(fade)
    ensures 0.0 <= Notches(b, fade) <= 1.0
  {
    hide Notch, Notches;
    AllNotches(fade);
    NotchesGrow(0, b, fade);
    NotchesGrow(b, fade + 1, fade);
    if a <= b {
      NotchesGrow(a, b, fade);
    } else {
      NotchesGrow(b, a, fade);
    }
  }

  lemma AllNotches(fade: nat)
    ensures Notches(0, fade) == 0.0 && Notches(fade + 1, fade) == 1.0
  {
    DivSelf((fade + 1) as real);
  }

  lemma DivSelf(x: real)
    requires x > 0.0
    ensures x / x == 1.0 && 0.0 / x == 0.0
  {
  }

  lemma NotchesGrow(a: nat, b: nat, fade: nat)
    requires a <= b
    ensures Notches(b, fade) >= Notches(a, fade)
    ensures b == a + 1 ==> Notches(b, fade) - Notches(a, fade) == Notch(fade)
    ensures b >= a + 2 ==> Notches(b, fade) - Notches(a, fade) > Notch(fade)
  {
    var k := (b - a) as real;
    assert Notches(b, fade) - Notches(a, fade) == k * Notch(fade);
    Nonnegative(k, Notch(fade));
    if b >= a + 2 {
      Nonnegative(k - 2.0, Notch(fade));
      assert (k - 2.0) * Notch(fade) == k * Notch(fade) - 2.0 * Notch(fade);
    }
  }

  lemma NotchesJoin(x: real, y: real, d: real, m: real, a: nat, b: nat, fade: nat)
    requires a <= fade + 1 && b <= fade + 1 && -1 <= a - b <= 1
    requires Dist(x, y) <= d && -m <= x <= m
    ensures Joins(x, y, d, m, a, b, fade)
  {
    NotchesApart(a, b, fade);
    SampleStep(x, y, Notches(a, fade), Notches(b, fade), d, m, Notch(fade));
    DivIsScale(m, fade);
    hide Times, Dist;
  }

  lemma ConstantClicks(a: nat, b: nat, fade: nat)
    requires a <= fade + 1 && b <= fade + 1 && !(-1 <= a - b <= 1)
    ensures !Joins(1.0, 1.0, 0.0, 1.0, a, b, fade)
  {
    NotchesApart(a, b, fade);
    assert Times(1.0, Notches(a, fade)) == Notches(a, fade) && Times(1.0, Notches(b, fade)) == Notches(b, fade);
    hide Dist, Times;
  }
}
