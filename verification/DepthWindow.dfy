/** The circular history of buffered depths that acceleration looks at. */
module Depths {
  import opened Config

  const WINDOW: nat := PLAYOUT_ACCEL_WINDOW_FRAMES

  /** The last `WINDOW` entries of a history. */
  function Recent(history: seq<nat>): (r: seq<nat>)
  {
    if |history| <= WINDOW then history else history[|history| - WINDOW..]
  }

  ghost predicate IsMin(s: seq<nat>, m: nat) {
    m in s && forall x <- s :: m <= x
  }

  /** Minimum of a nonempty sequence; 0 for an empty one. */
  function MinOf(s: seq<nat>): (m: nat)
    ensures s != [] ==> IsMin(s, m)
  {
    if s == [] then 0
    else if |s| == 1 then s[0]
    else
      var m := MinOf(s[1..]);
      assert s == [s[0]] + s[1..];
      if s[0] < m then s[0] else m
  }

  lemma MinUnique(s: seq<nat>, m: nat)
    requires s != [] && IsMin(s, m)
    ensures m == MinOf(s)
  {
  }

  lemma SwapKeepsMin(a: seq<nat>, b: seq<nat>, m: nat)
    requires IsMin(a + b, m)
    ensures IsMin(b + a, m)
  {
    assert forall x :: x in a + b <==> x in b + a;
  }

  class DepthWindow {
    var ring: array<nat>
    var next: nat
    var len: nat
    /** Every depth recorded since the last reset. */
    ghost var history: seq<nat>
    /** Index into the history of what `ring[0]` last received in the current lap. */
    ghost var lap: nat

    ghost predicate Valid()
      reads this, ring
    {
      && ring.Length == WINDOW
      && (lap == 0 || lap >= WINDOW)
      && lap <= |history| < lap + WINDOW
      && next == |history| - lap
      && len == (if lap == 0 then next else WINDOW)
      && (forall i | 0 <= i < next :: ring[i] == history[lap + i])
      && (forall i | next <= i < len :: ring[i] == history[lap - WINDOW + i])
    }

    constructor ()
      ensures Valid() && fresh(ring) && history == []
    {
      ring := new nat[WINDOW](_ => 0);
      next, len, history, lap := 0, 0, [], 0;
    }

    method Push(depth: nat)
      requires Valid()
      modifies this, ring
      ensures Valid() && ring == old(ring)
      ensures history == old(history) + [if depth > 255 then 255 else depth]
    {
      var d := if depth > 255 then 255 else depth;
      ring[next] := d;
      next := (next + 1) % ring.Length;
      len := if len + 1 > ring.Length then ring.Length else len + 1;
      history := history + [d];
      if next == 0 {
        lap := lap + WINDOW;
      }
    }

    /** The circular minimum is the minimum of the sliding window of the last `WINDOW` depths. */
    method Min() returns (m: nat)
      requires Valid()
      ensures m == MinOf(Recent(history))
    {
      if len == 0 {
        return 0;
      }
      m := ring[0];
      for i := 1 to len
        invariant IsMin(ring[..i], m)
      {
        assert ring[..i + 1] == ring[..i] + [ring[i]];
        if ring[i] < m {
          m := ring[i];
        }
      }
      RingIsRotatedWindow();
      assert ring[..len] == ring[..next] + ring[next..len];
      SwapKeepsMin(ring[..next], ring[next..len], m);
      MinUnique(Recent(history), m);
    }

    /** The recorded ring entries are the recent depths, rotated. */
    lemma RingIsRotatedWindow()
      requires Valid()
      ensures Recent(history) == ring[next..len] + ring[..next]
    {
    }

    method Reset()
      requires Valid()
      modifies this
      ensures Valid() && ring == old(ring) && history == []
    {
      next, len, history, lap := 0, 0, [], 0;
    }
  }
}
