/** What the limiter guarantees over whole runs: sweeping is unobservable, and a window admits a bounded number. */
module RateLimitRuns {
  import opened Config
  import opened Wrappers
  import opened RateLimit

  /** An operation and the time it happens. */
  datatype Event = Event(op: Op, at: real)

  ghost predicate Sane(p: Policy) {
    p.rate >= 0.0 && p.burst >= 0.0
  }

  /** Times never go back. */
  ghost predicate Ordered(start: real, events: seq<Event>)
    decreases |events|
  {
    events != [] ==> start <= events[0].at && Ordered(events[0].at, events[1..])
  }

  /** Idle entries are only reclaimed after the bucket has certainly refilled. */
  ghost predicate SweepsLate(p: Policy, op: Op) {
    op.Sweep? ==> Earned(p, op.ttl) >= p.burst
  }

  lemma EarnedMonotone(p: Policy, a: real, b: real)
    requires p.rate >= 0.0 && a <= b
    ensures Earned(p, a) <= Earned(p, b)
  {
    assert (b - a) * p.rate >= 0.0;
    assert b * p.rate == a * p.rate + (b - a) * p.rate;
  }

  lemma EarnedAdds(p: Policy, a: real, b: real)
    ensures Earned(p, a + b) == Earned(p, a) + Earned(p, b)
    ensures Earned(p, 0.0) == 0.0
  {
  }

  /** A bucket in a run: between empty and full, refilled in the past. */
  ghost predicate GoodBucket(p: Policy, b: Bucket, now: real) {
    0.0 <= b.tokens <= p.burst && b.lastRefill <= now
  }

  ghost predicate GoodRegistry(p: Policy, m: Registry, now: real) {
    forall ip <- m :: GoodBucket(p, m[ip].bucket, now) && m[ip].bucket.lastRefill <= m[ip].lastActive <= now
  }

  lemma CheckGood(p: Policy, b: Bucket, at: real, now: real)
    requires Sane(p) && GoodBucket(p, b, at) && at <= now
    ensures GoodBucket(p, Check(p, b, now).0, now)
  {
    EarnedMonotone(p, 0.0, now - b.lastRefill);
    EarnedAdds(p, 0.0, 0.0);
    hide Earned;
  }

  lemma ApplyGood(p: Policy, m: Registry, op: Op, at: real, now: real)
    requires Sane(p) && GoodRegistry(p, m, at) && at <= now
    ensures GoodRegistry(p, Apply(p, m, op, now).0, now)
  {
    if op.CheckIp? && op.ip in m {
      CheckGood(p, m[op.ip].bucket, at, now);
    }
    hide Check;
  }

  // ── sweeping is unobservable ──

  /** Two buckets answer alike from `now` on: the same bucket, or both certainly full. */
  ghost predicate Alike(p: Policy, a: Bucket, b: Bucket, now: real) {
    a == b || (FullFrom(p, a, now) && FullFrom(p, b, now))
  }

  ghost predicate FullFrom(p: Policy, b: Bucket, now: real) {
    b.tokens + Earned(p, now - b.lastRefill) >= p.burst
  }

  /**
   The real registry against the one that never forgets: the same entries with
   buckets that answer alike, except that idle full ones may be missing.
   */
  ghost predicate Simulates(p: Policy, real_: Registry, ideal: Registry, now: real) {
    && (forall ip <- real_ :: ip in ideal
         && real_[ip].refcount == ideal[ip].refcount && real_[ip].lastActive == ideal[ip].lastActive
         && Alike(p, real_[ip].bucket, ideal[ip].bucket, now))
    && (forall ip <- ideal :: ip !in real_ ==> ideal[ip].refcount == 0 && FullFrom(p, ideal[ip].bucket, now))
  }

  lemma FullLater(p: Policy, b: Bucket, at: real, now: real)
    requires Sane(p) && at <= now && FullFrom(p, b, at)
    ensures FullFrom(p, b, now) && TokensAt(p, b, now) == p.burst
  {
    EarnedMonotone(p, at - b.lastRefill, now - b.lastRefill);
    hide Earned;
  }

  lemma AlikeLater(p: Policy, a: Bucket, b: Bucket, at: real, now: real)
    requires Sane(p) && at <= now && Alike(p, a, b, at)
    ensures Alike(p, a, b, now) && Check(p, a, now) == Check(p, b, now)
  {
    hide TokensAt, FullFrom;
    if a != b {
      FullLater(p, a, at, now);
      FullLater(p, b, at, now);
    }
  }

  lemma SimulatesLater(p: Policy, m: Registry, ideal: Registry, at: real, now: real)
    requires Sane(p) && at <= now && Simulates(p, m, ideal, at)
    ensures Simulates(p, m, ideal, now)
  {
    hide Alike, FullFrom;
    forall ip | ip in m
      ensures Alike(p, m[ip].bucket, ideal[ip].bucket, now)
    {
      AlikeLater(p, m[ip].bucket, ideal[ip].bucket, at, now);
    }
    forall ip | ip in ideal && ip !in m
      ensures FullFrom(p, ideal[ip].bucket, now)
    {
      FullLater(p, ideal[ip].bucket, at, now);
    }
  }

  /** Checks are made only while the IP has a connection. */
  ghost predicate TrackedOnly(ideal: Registry, op: Op) {
    op.CheckIp? ==> op.ip in ideal && ideal[op.ip].refcount > 0
  }

  /** A swept entry's bucket has refilled. */
  lemma SweptIsFull(p: Policy, e: Entry, ideal: Bucket, ttl: real, now: real)
    requires Sane(p) && Earned(p, ttl) >= p.burst && now - e.lastActive >= ttl
    requires GoodBucket(p, e.bucket, now) && e.bucket.lastRefill <= e.lastActive
    requires Alike(p, e.bucket, ideal, now)
    ensures FullFrom(p, ideal, now)
  {
    EarnedMonotone(p, ttl, now - e.bucket.lastRefill);
    hide Earned;
  }

  lemma SweepSimulates(p: Policy, m: Registry, ideal: Registry, ttl: real, now: real)
    requires Sane(p) && Simulates(p, m, ideal, now) && GoodRegistry(p, m, now) && Earned(p, ttl) >= p.burst
    ensures Simulates(p, Apply(p, m, Sweep(ttl), now).0, ideal, now)
  {
    hide Alike, FullFrom, Earned, GoodBucket;
    var swept := Apply(p, m, Sweep(ttl), now).0;
    forall ip | ip in ideal && ip !in swept
      ensures ideal[ip].refcount == 0 && FullFrom(p, ideal[ip].bucket, now)
    {
      if ip in m {
        SweptIsFull(p, m[ip], ideal[ip].bucket, ttl, now);
      }
    }
  }

  lemma FreshIsFull(p: Policy, now: real)
    ensures FullFrom(p, Bucket(p.burst, now), now)
  {
  }

  lemma StepSimulates(p: Policy, m: Registry, ideal: Registry, op: Op, now: real)
    requires Sane(p) && Simulates(p, m, ideal, now) && GoodRegistry(p, m, now)
    requires SweepsLate(p, op) && TrackedOnly(ideal, op)
    ensures Apply(p, m, op, now).1 == ApplyIdeal(p, ideal, op, now).1
    ensures Simulates(p, Apply(p, m, op, now).0, ApplyIdeal(p, ideal, op, now).0, now)
  {
    match op
    case Track(ip) =>
      FreshIsFull(p, now);
      hide FullFrom, GoodRegistry;
    case Untrack(ip) =>
      hide FullFrom, Alike, GoodRegistry;
    case CheckIp(ip) =>
      hide FullFrom, GoodRegistry, Check;
      AlikeLater(p, m[ip].bucket, ideal[ip].bucket, now, now);
    case Sweep(ttl) =>
      SweepSimulates(p, m, ideal, ttl, now);
  }

  /** Answers of a run, from a registry that really sweeps or from one that never forgets. */
  function Answers(p: Policy, m: Registry, events: seq<Event>, sweeping: bool): (r: seq<bool>)
    ensures |r| == |events|
    decreases |events|
  {
    if events == [] then []
    else
      var e := events[0];
      var (after, answer) := if sweeping then Apply(p, m, e.op, e.at) else ApplyIdeal(p, m, e.op, e.at);
      [answer] + Answers(p, after, events[1..], sweeping)
  }

  /** All along a run, sweeps are late and checks are of tracked IPs. */
  ghost predicate Regular(p: Policy, ideal: Registry, events: seq<Event>)
    decreases |events|
  {
    events != [] ==>
      && SweepsLate(p, events[0].op) && TrackedOnly(ideal, events[0].op)
      && Regular(p, ApplyIdeal(p, ideal, events[0].op, events[0].at).0, events[1..])
  }

  /**
   Sweeping is unobservable: for IPs checked while they have a connection, and
   sweeps with ttl x rate >= burst, every answer of every run is the answer of
   a limiter that never forgets anyone.
   */
  lemma {:induction false} SweepingUnobservable(p: Policy, m: Registry, ideal: Registry, start: real, events: seq<Event>)
    requires Sane(p) && Ordered(start, events) && Regular(p, ideal, events)
    requires Simulates(p, m, ideal, start) && GoodRegistry(p, m, start)
    ensures Answers(p, m, events, true) == Answers(p, ideal, events, false)
    decreases |events|
  {
    if events != [] {
      var e := events[0];
      hide Apply, ApplyIdeal, Simulates, GoodRegistry, SweepsLate, TrackedOnly;
      SimulatesLater(p, m, ideal, start, e.at);
      LaterGood(p, m, start, e.at);
      StepSimulates(p, m, ideal, e.op, e.at);
      ApplyGood(p, m, e.op, start, e.at);
      SweepingUnobservable(p, Apply(p, m, e.op, e.at).0, ApplyIdeal(p, ideal, e.op, e.at).0, e.at, events[1..]);
    }
  }

  lemma LaterGood(p: Policy, m: Registry, at: real, now: real)
    requires GoodRegistry(p, m, at) && at <= now
    ensures GoodRegistry(p, m, now)
  {
  }

  /** The server's own limiter sweeps late, whatever multiplier it runs with. */
  lemma ServerSweepsLate(multiplier: real)
    requires multiplier >= 0.0
    ensures
      var p := Policy(RATE_LIMIT_IP_CMD_PER_SEC * multiplier, RATE_LIMIT_IP_CMD_BURST * multiplier);
      Sane(p) && SweepsLate(p, Sweep(IP_LIMITER_IDLE_TTL_SECS))
  {
  }

  // ── how many checks a window admits ──

  /** Checks of `ip` that were allowed, given every answer. */
  function Admitted(events: seq<Event>, answers: seq<bool>, ip: Ip): nat
    requires |answers| == |events|
  {
    if events == [] then 0
    else (if events[0].op == CheckIp(ip) && answers[0] then 1 else 0) + Admitted(events[1..], answers[1..], ip)
  }

  /** Tokens at hand for `ip` at `now`; full if it has never been seen. */
  function Credit(p: Policy, m: Registry, ip: Ip, now: real): real {
    if ip in m then TokensAt(p, m[ip].bucket, now) else p.burst
  }

  /** Each step spends a token per admitted check, and otherwise earns at most the refill. */
  lemma StepSpends(p: Policy, m: Registry, op: Op, ip: Ip, at: real, now: real)
    requires Sane(p) && GoodRegistry(p, m, at) && at <= now && TrackedOnly(m, op)
    ensures
      var (after, answer) := ApplyIdeal(p, m, op, now);
      var spent := if op == CheckIp(ip) && answer then 1.0 else 0.0;
      && Credit(p, after, ip, now) + spent <= Credit(p, m, ip, at) + Earned(p, now - at)
      && 0.0 <= Credit(p, after, ip, now)
      && GoodRegistry(p, after, now)
  {
    EarnedAdds(p, 0.0, 0.0);
    EarnedMonotone(p, 0.0, now - at);
    if op.Sweep? {
      LaterGood(p, m, at, now);
    } else {
      ApplyGood(p, m, op, at, now);
    }
    if ip in m {
      var b := m[ip].bucket;
      EarnedAdds(p, at - b.lastRefill, now - at);
      EarnedMonotone(p, 0.0, at - b.lastRefill);
    }
    hide Earned, GoodRegistry;
  }

  lemma {:induction false} AdmittedBounded(p: Policy, m: Registry, events: seq<Event>, ip: Ip, start: real, end: real)
    requires Sane(p) && GoodRegistry(p, m, start) && Ordered(start, events) && Regular(p, m, events)
    requires start <= end && forall e <- events :: e.at <= end
    requires 0.0 <= Credit(p, m, ip, start)
    ensures Admitted(events, Answers(p, m, events, false), ip) as real <= Credit(p, m, ip, start) + Earned(p, end - start)
    decreases |events|
  {
    hide ApplyIdeal, GoodRegistry, Credit, Earned, TrackedOnly, SweepsLate;
    EarnedMonotone(p, 0.0, end - start);
    EarnedAdds(p, 0.0, 0.0);
    if events != [] {
      var e := events[0];
      StepSpends(p, m, e.op, ip, start, e.at);
      AdmittedBounded(p, ApplyIdeal(p, m, e.op, e.at).0, events[1..], ip, e.at, end);
      EarnedAdds(p, e.at - start, end - e.at);
      assert e.at - start + (end - e.at) == end - start;
    }
  }

  lemma CreditRange(p: Policy, m: Registry, ip: Ip, now: real)
    requires Sane(p) && GoodRegistry(p, m, now)
    ensures 0.0 <= Credit(p, m, ip, now) <= p.burst
  {
    if ip in m {
      EarnedMonotone(p, 0.0, now - m[ip].bucket.lastRefill);
      EarnedAdds(p, 0.0, 0.0);
    }
    hide Earned;
  }

  lemma IdealWindow(p: Policy, m: Registry, events: seq<Event>, ip: Ip, start: real, end: real)
    requires Sane(p) && GoodRegistry(p, m, start) && Ordered(start, events) && Regular(p, m, events)
    requires start <= end && forall e <- events :: e.at <= end
    ensures Admitted(events, Answers(p, m, events, false), ip) as real <= p.burst + p.rate * (end - start)
  {
    hide Admitted, Answers, Credit, Earned, Regular, GoodRegistry;
    CreditRange(p, m, ip, start);
    AdmittedBounded(p, m, events, ip, start, end);
    EarnedIs(p, end - start);
  }

  lemma EarnedIs(p: Policy, dt: real)
    ensures Earned(p, dt) == p.rate * dt
  {
  }

  /** The registry a run leaves. */
  function After(p: Policy, m: Registry, events: seq<Event>, sweeping: bool): Registry
    decreases |events|
  {
    if events == [] then m
    else
      var e := events[0];
      After(p, if sweeping then Apply(p, m, e.op, e.at).0 else ApplyIdeal(p, m, e.op, e.at).0, events[1..], sweeping)
  }

  /** After any run the two registries still correspond, at any later time. */
  lemma {:induction false} RunSimulates(p: Policy, m: Registry, ideal: Registry, start: real, before: seq<Event>, rest: seq<Event>, end: real)
    requires Sane(p) && Ordered(start, before) && Regular(p, ideal, before + rest)
    requires Simulates(p, m, ideal, start) && GoodRegistry(p, m, start) && GoodRegistry(p, ideal, start)
    requires start <= end && forall e <- before :: e.at <= end
    ensures
      var real_, never := After(p, m, before, true), After(p, ideal, before, false);
      && Simulates(p, real_, never, end) && GoodRegistry(p, real_, end) && GoodRegistry(p, never, end)
      && Regular(p, never, rest)
    decreases |before|
  {
    hide Apply, Simulates, GoodRegistry, SweepsLate, TrackedOnly;
    if before == [] {
      assert before + rest == rest;
      SimulatesLater(p, m, ideal, start, end);
      LaterGood(p, m, start, end);
      LaterGood(p, ideal, start, end);
    } else {
      var e := before[0];
      assert (before + rest)[1..] == before[1..] + rest;
      SimulatesLater(p, m, ideal, start, e.at);
      LaterGood(p, m, start, e.at);
      LaterGood(p, ideal, start, e.at);
      StepSimulates(p, m, ideal, e.op, e.at);
      ApplyGood(p, m, e.op, start, e.at);
      ApplyGood(p, ideal, e.op, start, e.at);
      RunSimulates(p, Apply(p, m, e.op, e.at).0, ApplyIdeal(p, ideal, e.op, e.at).0, e.at, before[1..], rest, end);
    }
  }

  /**
   Rate bound: in any run of the real limiter that checks tracked IPs only and
   sweeps with ttl x rate >= burst, and in any window [start, end] of it, at
   most burst + rate x (end - start) checks of one IP are allowed, over all its
   connections.
   */
  lemma WindowBound(p: Policy, first: real, before: seq<Event>, window: seq<Event>, ip: Ip, start: real, end: real)
    requires Sane(p) && Ordered(first, before) && Ordered(start, window) && Regular(p, map[], before + window)
    requires first <= start <= end && (forall e <- before :: e.at <= start) && (forall e <- window :: e.at <= end)
    ensures Admitted(window, Answers(p, After(p, map[], before, true), window, true), ip) as real
      <= p.burst + p.rate * (end - start)
  {
    hide Regular, Answers, Admitted;
    RunSimulates(p, map[], map[], first, before, window, start);
    var m, ideal := After(p, map[], before, true), After(p, map[], before, false);
    SweepingUnobservable(p, m, ideal, start, window);
    IdealWindow(p, ideal, window, ip, start, end);
  }

  /** An IP the limiter does not know is never refused, and is not noted. */
  lemma UnknownIsAllowed(p: Policy, m: Registry, ip: Ip, now: real)
    requires ip !in m
    ensures Apply(p, m, CheckIp(ip), now) == (m, true)
  {
  }

  /** Open connections of `ip` after a run that starts with `open`: a 32-bit count that saturates at both ends. */
  function Connections(open: nat, events: seq<Event>, ip: Ip): nat
    decreases |events|
  {
    if events == [] then open
    else
      var now := match events[0].op
        case Track(other) => if other == ip && open < 4_294_967_295 then open + 1 else open
        case Untrack(other) => if other == ip && open > 0 then open - 1 else open
        case _ => open;
      Connections(now, events[1..], ip)
  }

  function Count(m: Registry, ip: Ip): nat {
    if ip in m then m[ip].refcount else 0
  }

  /**
   Whatever is checked and swept in between, an IP is counted as often as it is
   connected; so nobody who is connected is ever forgotten.
   */
  lemma {:induction false} ConnectionsCounted(p: Policy, m: Registry, events: seq<Event>, ip: Ip)
    requires Count(m, ip) <= 4_294_967_295
    ensures
      var after := After(p, m, events, true);
      && Count(after, ip) == Connections(Count(m, ip), events, ip) <= 4_294_967_295
      && (Connections(Count(m, ip), events, ip) > 0 ==> ip in after)
    decreases |events|
  {
    hide Check, TokensAt;
    if events != [] {
      var next := Apply(p, m, events[0].op, events[0].at).0;
      CountStep(p, m, events[0].op, events[0].at, ip);
      ConnectionsCounted(p, next, events[1..], ip);
    }
  }

  lemma CountStep(p: Policy, m: Registry, op: Op, now: real, ip: Ip)
    requires Count(m, ip) <= 4_294_967_295
    ensures
      var (open, count) := (Count(m, ip), Count(Apply(p, m, op, now).0, ip));
      count ==
        if op == Track(ip) && open < 4_294_967_295 then open + 1
        else if op == Untrack(ip) && open > 0 then open - 1
        else open
  {
    hide Check;
  }
}
