/** Runs of the server, judged step by step: what holds throughout, and which operation ends it. */
module ServerExact {
  import opened Server
  import opened ServerInvariants
  import opened ServerRuns

  // ── who the example runs are about ──

  const ALICE := Addr(V4(1), 1)
  const BOB := Addr(V4(1), 2)
  const UNLIMITED := Limits(0, 0)

  function User(n: nat): string {
    "user"
  }

  /** At every instant of the run. */
  ghost predicate Always(limits: Limits, ops: seq<Op>, good: World -> bool) {
    forall k :: 0 <= k <= |ops| ==> good(Run(limits, ops[..k]))
  }

  /** At no operation of the run. */
  ghost predicate Never(limits: Limits, ops: seq<Op>, breaks: (World, Op) -> bool) {
    forall k :: 0 <= k < |ops| ==> !breaks(Run(limits, ops[..k]), ops[k])
  }

  lemma Extend(limits: Limits, ops: seq<Op>, op: Op) returns (longer: seq<Op>)
    requires Legal(limits, ops) && Enabled(Run(limits, ops).server, op)
    ensures longer == ops + [op] && Legal(limits, longer)
    ensures Run(limits, longer).server == Apply(Run(limits, ops).server, op)
  {
    hide Apply, Enabled;
    longer := ops + [op];
    assert longer[..|ops|] == ops;
  }

  lemma AlwaysStep(limits: Limits, ops: seq<Op>, op: Op, good: World -> bool)
    ensures Always(limits, ops + [op], good) <==> Always(limits, ops, good) && good(Run(limits, ops + [op]))
    ensures Always(limits, ops, good) ==> good(Run(limits, ops))
  {
    hide Run;
    var all, n := ops + [op], |ops|;
    assert all[..n + 1] == all && ops[..n] == ops;
    assert forall k | 0 <= k <= n :: all[..k] == ops[..k];
    if Always(limits, all, good) {
      forall k | 0 <= k <= n
        ensures good(Run(limits, ops[..k]))
      {
        assert good(Run(limits, all[..k]));
      }
    }
  }

  lemma NeverStep(limits: Limits, ops: seq<Op>, op: Op, breaks: (World, Op) -> bool)
    ensures Never(limits, ops + [op], breaks) <==> Never(limits, ops, breaks) && !breaks(Run(limits, ops), op)
  {
    hide Run;
    var all, n := ops + [op], |ops|;
    assert all[..n] == ops && all[n] == op;
    assert forall k | 0 <= k < n :: all[..k] == ops[..k] && all[k] == ops[k];
    if Never(limits, all, breaks) {
      assert !breaks(Run(limits, all[..n]), all[n]);
      forall k | 0 <= k < n
        ensures !breaks(Run(limits, ops[..k]), ops[k])
      {
        assert !breaks(Run(limits, all[..k]), all[k]);
      }
    }
  }

  /**
   If each operation keeps a property exactly when it is not of a certain kind,
   then over any run the property always holds exactly when no operation is.
   */
  lemma {:induction false} RunExactly(limits: Limits, ops: seq<Op>, good: World -> bool, breaks: (World, Op) -> bool)
    requires Legal(limits, ops) && good(World(Empty(limits), map[], map[]))
    requires forall w: World, op: Op | Invariant(w) && Enabled(w.server, op) && good(w) ::
      good(Next(w, op)) <==> !breaks(w, op)
    ensures Always(limits, ops, good) <==> Never(limits, ops, breaks)
  {
    hide Run, Legal, Always, Never, Enabled, Next, Invariant;
    if ops == [] {
      NoOps(limits, good, breaks);
    } else {
      var init, op := ops[..|ops| - 1], ops[|ops| - 1];
      assert init + [op] == ops;
      LastOp(limits, ops);
      RunExactly(limits, init, good, breaks);
      AlwaysStep(limits, init, op, good);
      NeverStep(limits, init, op, breaks);
    }
  }

  lemma NoOps(limits: Limits, good: World -> bool, breaks: (World, Op) -> bool)
    ensures Always(limits, [], good) <==> good(World(Empty(limits), map[], map[]))
    ensures Never(limits, [], breaks)
  {
    var none: seq<Op> := [];
    assert none[..0] == none;
    assert Run(limits, none[..0]) == World(Empty(limits), map[], map[]);
  }

  /** The last operation of a legal run starts in a state that satisfies the invariant. */
  lemma LastOp(limits: Limits, ops: seq<Op>)
    requires ops != [] && Legal(limits, ops)
    ensures
      var (init, op) := (ops[..|ops| - 1], ops[|ops| - 1]);
      && Legal(limits, init) && Invariant(Run(limits, init)) && Enabled(Run(limits, init).server, op)
      && Run(limits, ops) == Next(Run(limits, init), op)
  {
    hide Invariant, Enabled, Next;
    ReachableInvariant(limits, ops[..|ops| - 1]);
  }
}
