/** Exactly when sweeping is unobservable: the ttl refills a bucket, or no check is ever allowed. */
module RateLimitSweeps {
  import opened Config
  import opened RateLimit
  import opened RateLimitRuns

  /** Every check is of a tracked IP and every sweep uses `ttl`. */
  ghost predicate Fair(p: Policy, ttl: real, ideal: Registry, events: seq<Event>)
    decreases |events|
  {
    events != [] ==>
      && TrackedOnly(ideal, events[0].op) && (events[0].op.Sweep? ==> events[0].op.ttl == ttl)
      && Fair(p, ttl, ApplyIdeal(p, ideal, events[0].op, events[0].at).0, events[1..])
  }

  /** No fair run can tell a limiter that sweeps at `ttl` from one that never forgets. */
  ghost predicate Unobservable(p: Policy, ttl: real) {
    forall start: real, events: seq<Event> | Ordered(start, events) && Fair(p, ttl, map[], events) ::
      Answers(p, map[], events, true) == Answers(p, map[], events, false)
  }

  /** A fair run that tells them apart. */
  ghost predicate Parts(p: Policy, ttl: real, m: Registry, ideal: Registry, now: real, events: seq<Event>) {
    && Ordered(now, events) && Fair(p, ttl, ideal, events)
    && Answers(p, m, events, true) != Answers(p, ideal, events, false)
  }

  lemma {:induction false} FairIsRegular(p: Policy, ttl: real, ideal: Registry, events: seq<Event>)
    requires Fair(p, ttl, ideal, events) && Earned(p, ttl) >= p.burst
    ensures Regular(p, ideal, events)
    decreases |events|
  {
    hide ApplyIdeal, TrackedOnly, Earned;
    if events != [] {
      FairIsRegular(p, ttl, ApplyIdeal(p, ideal, events[0].op, events[0].at).0, events[1..]);
    }
  }

  // ── a burst below one: nobody is ever allowed anything ──

  /** The sweeping registry knows every connection the other one knows. */
  ghost predicate Covers(m: Registry, ideal: Registry) {
    && (forall ip <- m :: ip in ideal && m[ip].refcount == ideal[ip].refcount)
    && (forall ip <- ideal :: ip in m || ideal[ip].refcount == 0)
  }

  lemma CoversStep(p: Policy, m: Registry, ideal: Registry, op: Op, now: real)
    requires p.burst < 1.0 && Covers(m, ideal) && TrackedOnly(ideal, op)
    ensures Covers(Apply(p, m, op, now).0, ApplyIdeal(p, ideal, op, now).0)
    ensures Apply(p, m, op, now).1 == ApplyIdeal(p, ideal, op, now).1
  {
    hide Earned;
  }

  lemma {:induction false} NobodyAllowed(p: Policy, ttl: real, m: Registry, ideal: Registry, events: seq<Event>)
    requires p.burst < 1.0 && Covers(m, ideal) && Fair(p, ttl, ideal, events)
    ensures Answers(p, m, events, true) == Answers(p, ideal, events, false)
    decreases |events|
  {
    hide Apply, ApplyIdeal, Covers, TrackedOnly;
    if events != [] {
      var e := events[0];
      CoversStep(p, m, ideal, e.op, e.at);
      NobodyAllowed(p, ttl, Apply(p, m, e.op, e.at).0, ApplyIdeal(p, ideal, e.op, e.at).0, events[1..]);
    }
  }

  // ── a ttl that is too short: a run that shows it ──

  /** A registry with the one IP 0. */
  function One(b: Bucket, refcount: nat, active: real): Registry {
    map[0 := Entry(b, refcount, active)]
  }

  lemma PartsCons(p: Policy, ttl: real, m: Registry, ideal: Registry, now: real, e: Event, events: seq<Event>)
    requires now <= e.at && TrackedOnly(ideal, e.op) && (e.op.Sweep? ==> e.op.ttl == ttl)
    requires Parts(p, ttl, Apply(p, m, e.op, e.at).0, ApplyIdeal(p, ideal, e.op, e.at).0, e.at, events)
    ensures Parts(p, ttl, m, ideal, now, [e] + events)
  {
    hide Apply, ApplyIdeal, TrackedOnly;
    var all := [e] + events;
    assert all[1..] == events;
    assert Answers(p, m, all, true)[1..] == Answers(p, Apply(p, m, e.op, e.at).0, events, true);
    assert Answers(p, ideal, all, false)[1..] == Answers(p, ApplyIdeal(p, ideal, e.op, e.at).0, events, false);
  }

  lemma CheckOne(p: Policy, b: Bucket, active: real, now: real)
    ensures Apply(p, One(b, 1, active), CheckIp(0), now) == (One(Check(p, b, now).0, 1, now), Check(p, b, now).1)
    ensures ApplyIdeal(p, One(b, 1, active), CheckIp(0), now) == Apply(p, One(b, 1, active), CheckIp(0), now)
    ensures TrackedOnly(One(b, 1, active), CheckIp(0))
  {
    hide Check;
    assert One(b, 1, active)[0].bucket == b;
    assert Apply(p, One(b, 1, active), CheckIp(0), now).0 == One(Check(p, b, now).0, 1, now);
  }

  /** One check tells a bucket with a token from one without. */
  lemma OneCheckParts(p: Policy, ttl: real, a: Bucket, b: Bucket, ra: real, rb: real, now: real, at: real)
    requires now <= at && TokensAt(p, b, at) < 1.0 <= TokensAt(p, a, at)
    ensures Parts(p, ttl, One(a, 1, ra), One(b, 1, rb), now, [Event(CheckIp(0), at)])
  {
    var e := Event(CheckIp(0), at);
    CheckOne(p, a, ra, at);
    CheckOne(p, b, rb, at);
    hide Apply, ApplyIdeal, One, TokensAt, TrackedOnly;
    assert [e][1..] == [];
    assert Ordered(at, [e][1..]) && Fair(p, ttl, ApplyIdeal(p, One(b, 1, rb), e.op, e.at).0, [e][1..]);
    assert Answers(p, One(a, 1, ra), [e], true)[0];
    assert !Answers(p, One(b, 1, rb), [e], false)[0];
  }

  /** A check that both allow. */
  lemma BothSpend(p: Policy, ttl: real, a: Bucket, b: Bucket, ra: real, rb: real, now: real, at: real, rest: seq<Event>)
    requires now <= at && 1.0 <= TokensAt(p, a, at) && 1.0 <= TokensAt(p, b, at)
    requires Parts(p, ttl, One(Bucket(TokensAt(p, a, at) - 1.0, at), 1, at), One(Bucket(TokensAt(p, b, at) - 1.0, at), 1, at), at, rest)
    ensures Parts(p, ttl, One(a, 1, ra), One(b, 1, rb), now, [Event(CheckIp(0), at)] + rest)
  {
    CheckOne(p, a, ra, at);
    CheckOne(p, b, rb, at);
    hide Apply, ApplyIdeal, One, TokensAt, TrackedOnly, Parts;
    PartsCons(p, ttl, One(a, 1, ra), One(b, 1, rb), now, Event(CheckIp(0), at), rest);
  }

  lemma EarnNothing(p: Policy, b: Bucket)
    requires b.tokens <= p.burst
    ensures TokensAt(p, b, b.lastRefill) == b.tokens
  {
  }

  /** How long a bucket below one token needs to hold exactly one. */
  function WaitForOne(p: Policy, x: real): (t: real)
    requires p.rate > 0.0 && x < 1.0
    ensures t > 0.0 && Earned(p, t) == 1.0 - x
  {
    (1.0 - x) / p.rate
  }

  /** A bucket that is not full keeps earning. */
  lemma EarnsMore(p: Policy, b: Bucket, now: real, t: real)
    requires Sane(p) && t >= 0.0 && TokensAt(p, b, now) + Earned(p, t) <= p.burst && TokensAt(p, b, now) < p.burst
    ensures TokensAt(p, b, now + t) == TokensAt(p, b, now) + Earned(p, t)
  {
    EarnedAdds(p, now - b.lastRefill, t);
    assert now + t - b.lastRefill == now - b.lastRefill + t;
    hide Earned;
  }

  /** Buckets that hold different amounts are told apart by checks: spend down to the difference, then wait for one token. */
  lemma {:induction false} TellApart(p: Policy, ttl: real, a: Bucket, b: Bucket, ra: real, rb: real, now: real)
    returns (events: seq<Event>)
    requires Sane(p) && p.burst >= 1.0 && 0.0 <= TokensAt(p, b, now) < TokensAt(p, a, now)
    requires p.rate > 0.0 || TokensAt(p, b, now) < 1.0 <= TokensAt(p, a, now)
    ensures Parts(p, ttl, One(a, 1, ra), One(b, 1, rb), now, events)
    decreases TokensAt(p, b, now).Floor
  {
    var x, y := TokensAt(p, a, now), TokensAt(p, b, now);
    AtMostBurst(p, a, now);
    hide One, Parts, TokensAt, Earned;
    if y < 1.0 <= x {
      OneCheckParts(p, ttl, a, b, ra, rb, now, now);
      events := [Event(CheckIp(0), now)];
    } else if x < 1.0 {
      var t := WaitForOne(p, x);
      EarnsMore(p, a, now, t);
      EarnsMore(p, b, now, t);
      OneCheckParts(p, ttl, a, b, ra, rb, now, now + t);
      events := [Event(CheckIp(0), now + t)];
    } else {
      var c, d := Bucket(x - 1.0, now), Bucket(y - 1.0, now);
      EarnNothing(p, c);
      EarnNothing(p, d);
      var rest := TellApart(p, ttl, c, d, now, now, now);
      BothSpend(p, ttl, a, b, ra, rb, now, now, rest);
      events := [Event(CheckIp(0), now)] + rest;
    }
  }

  lemma AtMostBurst(p: Policy, b: Bucket, now: real)
    ensures TokensAt(p, b, now) <= p.burst
  {
  }

  /** What leaving, being swept and coming back do: the sweeping registry hands out a fresh bucket. */
  lemma LeaveAndReturn(p: Policy, ttl: real, b: Bucket, active: real, now: real)
    ensures
      var later := now + ttl;
      && Apply(p, One(b, 1, active), Untrack(0), now).0 == One(b, 0, now)
      && ApplyIdeal(p, One(b, 1, active), Untrack(0), now).0 == One(b, 0, now)
      && Apply(p, One(b, 0, now), Sweep(ttl), later).0 == map[]
      && ApplyIdeal(p, One(b, 0, now), Sweep(ttl), later).0 == One(b, 0, now)
      && Apply(p, map[], Track(0), later).0 == One(Bucket(p.burst, later), 1, later)
      && ApplyIdeal(p, One(b, 0, now), Track(0), later).0 == One(b, 1, later)
  {
  }

  /** A client leaves with `b`, is swept, and comes back before its bucket is full. */
  lemma SweepParts(p: Policy, ttl: real, b: Bucket, active: real, now: real) returns (events: seq<Event>)
    requires Sane(p) && p.burst >= 1.0 && ttl >= 0.0
    requires 0.0 <= TokensAt(p, b, now + ttl) < p.burst && (p.rate > 0.0 || TokensAt(p, b, now + ttl) < 1.0)
    ensures Parts(p, ttl, One(b, 1, active), One(b, 1, active), now, events)
  {
    var later := now + ttl;
    LeaveAndReturn(p, ttl, b, active, now);
    EarnNothing(p, Bucket(p.burst, later));
    hide Apply, ApplyIdeal, One, Parts, TokensAt;
    var back := Bucket(p.burst, later);
    events := TellApart(p, ttl, back, b, later, later, later);
    PartsCons(p, ttl, map[], One(b, 0, now), later, Event(Track(0), later), events);
    events := [Event(Track(0), later)] + events;
    PartsCons(p, ttl, One(b, 0, now), One(b, 0, now), now, Event(Sweep(ttl), later), events);
    events := [Event(Sweep(ttl), later)] + events;
    PartsCons(p, ttl, One(b, 1, active), One(b, 1, active), now, Event(Untrack(0), now), events);
    events := [Event(Untrack(0), now)] + events;
  }

  /** Empty the bucket to the last token, then let the client leave and come back. */
  lemma {:induction false} DrainParts(p: Policy, ttl: real, b: Bucket, active: real, now: real) returns (events: seq<Event>)
    requires Sane(p) && p.burst >= 1.0 && ttl >= 0.0 && Earned(p, ttl) < p.burst && 0.0 <= TokensAt(p, b, now)
    ensures Parts(p, ttl, One(b, 1, active), One(b, 1, active), now, events)
    decreases TokensAt(p, b, now).Floor
  {
    var x := TokensAt(p, b, now);
    AtMostBurst(p, b, now);
    EarnedMonotone(p, 0.0, ttl);
    EarnedAdds(p, 0.0, 0.0);
    hide One, Parts, TokensAt;
    if x >= 1.0 {
      EarnNothing(p, Bucket(x - 1.0, now));
      var rest := DrainParts(p, ttl, Bucket(x - 1.0, now), now, now);
      BothSpend(p, ttl, b, b, active, active, now, now, rest);
      events := [Event(CheckIp(0), now)] + rest;
    } else if p.rate > 0.0 {
      var at := now + WaitForOne(p, x);
      EarnsMore(p, b, now, WaitForOne(p, x));
      var empty := Bucket(0.0, at);
      EarnNothing(p, empty);
      EarnsMore(p, empty, at, ttl);
      var rest := SweepParts(p, ttl, empty, at, at);
      BothSpend(p, ttl, b, b, active, active, now, at, rest);
      events := [Event(CheckIp(0), at)] + rest;
    } else {
      assert Earned(p, ttl) == 0.0;
      EarnsMore(p, b, now, ttl);
      events := SweepParts(p, ttl, b, active, now);
    }
  }

  /**
   A ttl that does not refill the bucket shows: for every policy that allows
   anything, some run with checks of tracked IPs only gets other answers than
   from a limiter that never forgets.
   */
  lemma EarlySweepShows(p: Policy, ttl: real) returns (events: seq<Event>)
    requires Sane(p) && p.burst >= 1.0 && ttl >= 0.0 && Earned(p, ttl) < p.burst
    ensures Parts(p, ttl, map[], map[], 0.0, events)
  {
    var full := Bucket(p.burst, 0.0);
    FirstConnection(p);
    EarnNothing(p, full);
    hide Apply, ApplyIdeal, One, Parts, TokensAt, Earned;
    events := DrainParts(p, ttl, full, 0.0, 0.0);
    PartsCons(p, ttl, map[], map[], 0.0, Event(Track(0), 0.0), events);
    events := [Event(Track(0), 0.0)] + events;
  }

  lemma FirstConnection(p: Policy)
    ensures Apply(p, map[], Track(0), 0.0).0 == One(Bucket(p.burst, 0.0), 1, 0.0)
    ensures ApplyIdeal(p, map[], Track(0), 0.0).0 == One(Bucket(p.burst, 0.0), 1, 0.0)
  {
  }

  /** Sweeping is unobservable if and only if the ttl refills any bucket, or the burst never allows a check. */
  lemma UnobservableExactly(p: Policy, ttl: real)
    requires Sane(p) && ttl >= 0.0
    ensures Unobservable(p, ttl) <==> p.burst < 1.0 || Earned(p, ttl) >= p.burst
  {
    hide Fair, Earned, Ordered, Answers;
    if p.burst < 1.0 || Earned(p, ttl) >= p.burst {
      forall start: real, events: seq<Event> | Ordered(start, events) && Fair(p, ttl, map[], events)
        ensures Answers(p, map[], events, true) == Answers(p, map[], events, false)
      {
        if p.burst < 1.0 {
          NobodyAllowed(p, ttl, map[], map[], events);
        } else {
          FairIsRegular(p, ttl, map[], events);
          SweepingUnobservable(p, map[], map[], start, events);
        }
      }
    } else {
      var events := EarlySweepShows(p, ttl);
    }
  }
}
