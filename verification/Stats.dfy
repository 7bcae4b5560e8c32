/** Loss statistics: fixed windows of packet outcomes (true = received, false = lost). */
module Stats {
  import opened Config

  datatype Window = Window(received: nat, lost: nat, lossPercent: nat)

  const FRESH := Window(0, 0, 0)

  /** One outcome recorded, then the window finalized if it is full. */
  function Record(w: Window, received: bool): Window {
    var r := if received then w.received + 1 else w.received;
    var l := if received then w.lost else w.lost + 1;
    if r + l >= STATS_WINDOW_PACKETS then Window(0, 0, l * 100 / (r + l))
    else w.(received := r, lost := l)
  }

  function RecordAll(w: Window, outcomes: seq<bool>): Window {
    if outcomes == [] then w
    else Record(RecordAll(w, outcomes[..|outcomes| - 1]), outcomes[|outcomes| - 1])
  }

  lemma RecordShort(w: Window, x: bool, y: bool)
    ensures RecordAll(w, []) == w
    ensures RecordAll(w, [x]) == Record(w, x)
    ensures RecordAll(w, [x, y]) == Record(Record(w, x), y)
  {
    assert [x][..0] == [];
    assert [x, y][..1] == [x];
  }

  function CountLost(outcomes: seq<bool>): (n: nat)
    ensures n <= |outcomes|
  {
    if outcomes == [] then 0
    else CountLost(outcomes[..|outcomes| - 1]) + if outcomes[|outcomes| - 1] then 0 else 1
  }

  lemma {:induction false} RecordAllConcat(w: Window, a: seq<bool>, b: seq<bool>)
    ensures RecordAll(w, a + b) == RecordAll(RecordAll(w, a), b)
  {
    if b == [] {
      assert a + b == a;
    } else {
      RecordAllConcat(w, a, b[..|b| - 1]);
      assert (a + b)[..|a + b| - 1] == a + b[..|b| - 1];
    }
  }

  lemma CountLostAppend(s: seq<bool>, x: bool)
    ensures CountLost(s + [x]) == CountLost(s) + if x then 0 else 1
  {
    assert (s + [x])[..|s|] == s;
  }

  /** What the statistics hold when the open window began at outcome `start`. */
  ghost predicate Blocks(w: Window, outcomes: seq<bool>, start: nat) {
    && (start == 0 || start >= STATS_WINDOW_PACKETS)
    && start <= |outcomes| < start + STATS_WINDOW_PACKETS
    && w.received + w.lost == |outcomes| - start
    && w.lost == CountLost(outcomes[start..])
    && w.lossPercent == (if start == 0 then 0
                         else CountLost(outcomes[start - STATS_WINDOW_PACKETS..start]) * 100 / STATS_WINDOW_PACKETS)
  }

  /** The largest multiple of the window length up to `n`. */
  function OpenStart(n: nat): nat {
    n / STATS_WINDOW_PACKETS * STATS_WINDOW_PACKETS
  }

  lemma OpenStartStep(n: nat)
    ensures OpenStart(n + 1) ==
      if n + 1 == OpenStart(n) + STATS_WINDOW_PACKETS then OpenStart(n) + STATS_WINDOW_PACKETS else OpenStart(n)
  {
  }

  /**
   After any run of outcomes the open window holds exactly those since the last
   multiple of `STATS_WINDOW_PACKETS`, so it never sums to a full window, and
   the published loss is that of the last full window.
   */
  lemma {:induction false} WindowsAreBlocks(outcomes: seq<bool>)
    ensures Blocks(RecordAll(FRESH, outcomes), outcomes, OpenStart(|outcomes|))
  {
    if outcomes != [] {
      hide Blocks, Record, OpenStart;
      var n := |outcomes| - 1;
      var init, last := outcomes[..n], outcomes[n];
      assert outcomes == init + [last];
      WindowsAreBlocks(init);
      BlocksStep(RecordAll(FRESH, init), init, last, OpenStart(n));
      OpenStartStep(n);
    }
  }

  lemma BlocksStep(w: Window, init: seq<bool>, last: bool, start: nat)
    requires Blocks(w, init, start)
    ensures
      var full := |init| + 1 == start + STATS_WINDOW_PACKETS;
      Blocks(Record(w, last), init + [last], if full then start + STATS_WINDOW_PACKETS else start)
  {
    CountLostAppend(init[start..], last);
    hide CountLost;
    var outcomes := init + [last];
    assert outcomes[start..] == init[start..] + [last];
    if |init| + 1 == start + STATS_WINDOW_PACKETS {
      assert outcomes[start..|outcomes|] == init[start..] + [last];
      assert outcomes[|outcomes|..] == [];
      NoneLost();
    } else if start >= STATS_WINDOW_PACKETS {
      assert outcomes[start - STATS_WINDOW_PACKETS..start] == init[start - STATS_WINDOW_PACKETS..start];
    }
  }

  lemma NoneLost()
    ensures CountLost([]) == 0
  {
  }

  class NetworkStats {
    var received: nat
    var lost: nat
    var lossPercent: nat

    ghost function View(): Window
      reads this
    {
      Window(received, lost, lossPercent)
    }

    constructor ()
      ensures View() == FRESH
    {
      received, lost, lossPercent := 0, 0, 0;
    }

    method RecordReceived()
      modifies this
      ensures View() == old(View()).(received := old(received) + 1)
    {
      received := received + 1;
    }

    method RecordLost()
      modifies this
      ensures View() == old(View()).(lost := old(lost) + 1)
    {
      lost := lost + 1;
    }

    method MaybeFinalizeWindow()
      modifies this
      ensures View() ==
        var w := old(View());
        if w.received + w.lost >= STATS_WINDOW_PACKETS then Window(0, 0, w.lost * 100 / (w.received + w.lost)) else w
    {
      var total := received + lost;
      if total >= STATS_WINDOW_PACKETS {
        lossPercent := lost * 100 / total;
        received, lost := 0, 0;
      }
    }

    /** One outcome, as the playout records it: count, then finalize. */
    method Outcome(wasReceived: bool)
      modifies this
      ensures View() == Record(old(View()), wasReceived)
    {
      if wasReceived {
        RecordReceived();
      } else {
        RecordLost();
      }
      MaybeFinalizeWindow();
    }
  }
}
