/** Why a trim does not click: the crossfade bounds every step of the signal. */
module TrimSmooth {
  import opened Playback

  function Dist(a: real, b: real): real {
    if a < b then b - a else a - b
  }

  function Times(a: real, b: real): real {
    a * b
  }

  lemma ScaledBound(x: real, d: real, c: real)
    requires -d <= x <= d && 0.0 <= c
    ensures -Times(d, c) <= Times(x, c) <= Times(d, c)
  {
    assert (d - x) * c >= 0.0;
    assert (d + x) * c >= 0.0;
  }

  /** One step along a crossfade moves by at most the signals' own step plus the fade's share of their difference. */
  lemma BlendStep(o0: real, n0: real, o1: real, n1: real, t: real, dt: real, d: real, m: real)
    requires Dist(o0, o1) <= d && Dist(n0, n1) <= d && Dist(o0, n0) <= m
    requires 0.0 <= t && 0.0 <= dt && t + dt <= 1.0
    ensures Dist(Blend(o0, n0, t), Blend(o1, n1, t + dt)) <= d + Times(m, dt)
  {
    hide Blend, Times;
    var u := t + dt;
    ScaledBound(o1 - o0, d, 1.0 - u);
    ScaledBound(n1 - n0, d, u);
    ScaledBound(n0 - o0, m, dt);
    StepIdentity(o0, n0, o1, n1, t, dt);
    SplitScale(d, u);
    Combine(Blend(o0, n0, t), Blend(o1, n1, u), Times(o1 - o0, 1.0 - u), Times(n1 - n0, u),
      Times(n0 - o0, dt), Times(d, 1.0 - u), Times(d, u), Times(m, dt));
  }

  lemma SplitScale(d: real, u: real)
    ensures Times(d, 1.0 - u) + Times(d, u) == d
  {
  }

  lemma Combine(x: real, y: real, p: real, q: real, w: real, pMax: real, qMax: real, wMax: real)
    requires y - x == p + q + w
    requires -pMax <= p <= pMax && -qMax <= q <= qMax && -wMax <= w <= wMax
    ensures Dist(x, y) <= pMax + qMax + wMax
  {
  }

  lemma StepIdentity(o0: real, n0: real, o1: real, n1: real, t: real, dt: real)
    ensures Blend(o1, n1, t + dt) - Blend(o0, n0, t) ==
      Times(o1 - o0, 1.0 - (t + dt)) + Times(n1 - n0, t + dt) + Times(n0 - o0, dt)
  {
  }

  /** Consecutive samples of `s` differ by at most `d`. */
  ghost predicate Smooth(s: seq<real>, d: real) {
    forall k | 0 <= k < |s| - 1 :: Dist(s[k], s[k + 1]) <= d
  }

  /** The dropped head and the head that replaces it differ by at most `m` over the fade. */
  ghost predicate Apart(buf: seq<real>, excess: nat, f: nat, m: real)
    requires excess + f <= |buf|
  {
    forall k | 0 <= k < f :: Dist(buf[k], buf[excess + k]) <= m
  }

  lemma RampStep(i: nat, f: nat)
    requires i < f
    ensures Ramp(i, f) + 1.0 / (f + 1) as real == if i + 1 < f then Ramp(i + 1, f) else 1.0
  {
  }

  lemma DivIsScale(m: real, f: nat)
    ensures Times(m, 1.0 / (f + 1) as real) == m / (f + 1) as real
  {
  }

  /** One step inside the trimmed queue. */
  lemma TrimmedStep(buf: seq<real>, excess: nat, f: nat, i: nat, d: real, m: real)
    requires f <= excess && excess + f <= |buf| && i + 1 < |buf| - excess
    requires Smooth(buf, d) && Apart(buf, excess, f, m) && 0.0 <= d && 0.0 <= m
    ensures var r := Crossfaded(buf, excess, f, f); Dist(r[i], r[i + 1]) <= d + m / (f + 1) as real
  {
    hide Blend, Ramp, Crossfaded, Times;
    CrossfadedAt(buf, excess, f, i);
    CrossfadedAt(buf, excess, f, i + 1);
    assert Dist(buf[excess + i], buf[excess + i + 1]) <= d;
    PositiveShare(m, f);
    if i < f {
      RampStep(i, f);
      DivIsScale(m, f);
      var o1 := if i + 1 < f then buf[i + 1] else buf[i];
      BlendStep(buf[i], buf[excess + i], o1, buf[excess + i + 1], Ramp(i, f), 1.0 / (f + 1) as real, d, m);
      FullBlend(o1, buf[excess + i + 1]);
    }
  }

  lemma FullBlend(outgoing: real, incoming: real)
    ensures Blend(outgoing, incoming, 1.0) == incoming
  {
  }

  lemma PositiveShare(m: real, f: nat)
    requires 0.0 <= m
    ensures 0.0 <= m / (f + 1) as real
    ensures 0.0 < 1.0 / (f + 1) as real
  {
  }

  lemma CrossfadedAt(buf: seq<real>, excess: nat, f: nat, i: nat)
    requires f <= excess && excess + f <= |buf| && i < |buf| - excess
    ensures Crossfaded(buf, excess, f, f)[i] ==
      if i < f then Blend(buf[i], buf[excess + i], Ramp(i, f)) else buf[excess + i]
  {
  }

  /**
   A trim keeps the signal continuous. If neighbouring samples differed by at
   most `d`, the sample played last included, and the two heads by at most
   `m`, then every step of the trimmed queue, the splice itself included, is
   at most d + m / (f + 1) for a fade of f samples.
   */
  lemma TrimIsSmooth(buf: seq<real>, cap: nat, fade: nat, last: real, d: real, m: real)
    requires 0 < cap < |buf| && 0 < fade && 0.0 <= d && 0.0 <= m
    requires Smooth([last] + buf, d)
    requires Apart(buf, |buf| - cap, FadeLength(fade, |buf| - cap, cap), m)
    ensures
      var f := FadeLength(fade, |buf| - cap, cap);
      Smooth([last] + Trimmed(buf, cap, fade), d + m / (f + 1) as real)
  {
    hide Blend, Ramp, Crossfaded;
    var excess := |buf| - cap;
    var f := FadeLength(fade, excess, cap);
    var r := Crossfaded(buf, excess, f, f);
    SmoothTail(last, buf, d);
    FirstStep(last, buf[0], buf[excess], f, d, m);
    CrossfadedAt(buf, excess, f, 0);
    forall k | 0 <= k < |[last] + r| - 1
      ensures Dist(([last] + r)[k], ([last] + r)[k + 1]) <= d + m / (f + 1) as real
    {
      if k > 0 {
        TrimmedStep(buf, excess, f, k - 1, d, m);
      }
    }
  }

  lemma SmoothTail(last: real, buf: seq<real>, d: real)
    requires Smooth([last] + buf, d) && buf != []
    ensures Smooth(buf, d) && Dist(last, buf[0]) <= d
  {
    forall k | 0 <= k < |buf| - 1
      ensures Dist(buf[k], buf[k + 1]) <= d
    {
      assert ([last] + buf)[k + 1] == buf[k] && ([last] + buf)[k + 2] == buf[k + 1];
    }
    assert ([last] + buf)[0] == last && ([last] + buf)[1] == buf[0];
  }

  /** The splice itself: the first sample continues whatever was played last. */
  lemma FirstStep(last: real, outgoing: real, incoming: real, f: nat, d: real, m: real)
    requires 0 < f && Dist(last, outgoing) <= d && Dist(outgoing, incoming) <= m
    ensures Dist(last, Blend(outgoing, incoming, Ramp(0, f))) <= d + m / (f + 1) as real
  {
    hide Blend, Times;
    var t := 1.0 / (f + 1) as real;
    assert t == Ramp(0, f);
    PositiveShare(m, f);
    DivIsScale(m, f);
    ScaledBound(incoming - outgoing, m, t);
    BlendOffset(outgoing, incoming, t);
    Combine(last, Blend(outgoing, incoming, t), outgoing - last, 0.0, Times(incoming - outgoing, t),
      d, 0.0, Times(m, t));
  }

  lemma BlendOffset(outgoing: real, incoming: real, t: real)
    ensures Blend(outgoing, incoming, t) == outgoing + Times(incoming - outgoing, t)
  {
  }

  /** Behind the crossfade a trimmed queue is the newest of the old one, sample for sample. */
  lemma TrimKeepsNewest(buf: seq<real>, cap: nat, fade: nat, k: nat)
    requires k < cap && |buf| > cap && k >= fade
    ensures |Trimmed(buf, cap, fade)| == cap && Trimmed(buf, cap, fade)[k] == buf[|buf| - cap + k]
  {
  }
}
