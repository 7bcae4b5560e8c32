/** Token buckets, per connection and per source IP, over real-valued time in seconds. */
module RateLimit {
  import opened Config
  import opened Wrappers

  /** `ip` addresses are opaque. */
  type Ip = nat

  const U32_MAX: nat := 0xFFFF_FFFF

  datatype Bucket = Bucket(tokens: real, lastRefill: real)
  datatype Policy = Policy(rate: real, burst: real)

  function MinReal(a: real, b: real): real {
    if a < b then a else b
  }

  function Earned(p: Policy, dt: real): real {
    dt * p.rate
  }

  /** Tokens a bucket would hold at `now`. */
  function TokensAt(p: Policy, b: Bucket, now: real): real {
    MinReal(b.tokens + Earned(p, now - b.lastRefill), p.burst)
  }

  function Check(p: Policy, b: Bucket, now: real): (Bucket, bool) {
    var tokens := TokensAt(p, b, now);
    if tokens >= 1.0 then (Bucket(tokens - 1.0, now), true) else (Bucket(tokens, now), false)
  }

  class RateLimiter {
    var tokens: real
    const maxTokens: real
    const refillRate: real
    var lastRefill: real

    ghost function View(): Bucket
      reads this
    {
      Bucket(tokens, lastRefill)
    }

    constructor (ratePerSec: real, burst: real, now: real)
      ensures View() == Bucket(burst, now) && maxTokens == burst && refillRate == ratePerSec
    {
      tokens, maxTokens, refillRate, lastRefill := burst, burst, ratePerSec, now;
    }

    method CheckNow(now: real) returns (allowed: bool)
      modifies this
      ensures (View(), allowed) == Check(Policy(refillRate, maxTokens), old(View()), now)
    {
      Refill(now);
      if tokens >= 1.0 {
        tokens := tokens - 1.0;
        return true;
      }
      return false;
    }

    method Refill(now: real)
      modifies this
      ensures View() == Bucket(TokensAt(Policy(refillRate, maxTokens), old(View()), now), now)
    {
      var elapsed := now - lastRefill;
      tokens := MinReal(tokens + elapsed * refillRate, maxTokens);
      lastRefill := now;
    }
  }

  // ── the per-IP registry ──

  datatype Entry = Entry(bucket: Bucket, refcount: nat, lastActive: real)
  type Registry = map<Ip, Entry>

  datatype Op = Track(ip: Ip) | Untrack(ip: Ip) | CheckIp(ip: Ip) | Sweep(ttl: real)

  function Connected(e: Entry, now: real): Entry {
    Entry(e.bucket, if e.refcount + 1 > U32_MAX then U32_MAX else e.refcount + 1, now)
  }

  function Disconnected(e: Entry, now: real): Entry {
    Entry(e.bucket, if e.refcount == 0 then 0 else e.refcount - 1, now)
  }

  function TrackEntry(p: Policy, m: Registry, ip: Ip, now: real): Entry {
    Connected(if ip in m then m[ip] else Entry(Bucket(p.burst, now), 0, now), now)
  }

  /** The registry after one operation, and what a check answered: an unknown IP is allowed. */
  function Apply(p: Policy, m: Registry, op: Op, now: real): (Registry, bool) {
    match op
    case Track(ip) => (m[ip := TrackEntry(p, m, ip, now)], true)
    case Untrack(ip) =>
      if ip !in m then (m, true)
      else (m[ip := Disconnected(m[ip], now)], true)
    case CheckIp(ip) =>
      if ip !in m then (m, true)
      else
        var (b, allowed) := Check(p, m[ip].bucket, now);
        (m[ip := Entry(b, m[ip].refcount, now)], allowed)
    case Sweep(ttl) => (map ip | ip in m && (m[ip].refcount > 0 || now - m[ip].lastActive < ttl) :: m[ip], true)
  }

  /** A limiter that never forgets. */
  function ApplyIdeal(p: Policy, m: Registry, op: Op, now: real): (Registry, bool) {
    if op.Sweep? then (m, true) else Apply(p, m, op, now)
  }

  /** One IP's limiter, which checks update in place, and its connections. */
  datatype IpEntry = IpEntry(limiter: RateLimiter, refcount: nat, lastActive: real)
  {
    ghost function View(): Entry
      reads limiter
    {
      Entry(limiter.View(), refcount, lastActive)
    }

    predicate Active(ttl: real, now: real) {
      refcount > 0 || now - lastActive < ttl
    }
  }

  class IpRateLimiter {
    const policy: Policy
    var entries: map<Ip, IpEntry>

    /** No two IPs share a limiter, and every limiter has the registry's policy. */
    ghost predicate Valid()
      reads this
    {
      && (forall ip <- entries ::
           entries[ip].limiter.maxTokens == policy.burst && entries[ip].limiter.refillRate == policy.rate)
      && (forall a, b | a in entries && b in entries && a != b :: entries[a].limiter != entries[b].limiter)
    }

    ghost function Limiters(): set<RateLimiter>
      reads this
    {
      set ip | ip in entries :: entries[ip].limiter
    }

    ghost function View(): Registry
      reads this, Limiters()
    {
      map ip | ip in entries :: entries[ip].View()
    }

    constructor (ratePerSec: real, burst: real)
      ensures Valid() && policy == Policy(ratePerSec, burst) && View() == map[]
    {
      policy, entries := Policy(ratePerSec, burst), map[];
    }

    /** Store an entry that keeps the IP's limiter, or brings one nobody else has. */
    method Put(ip: Ip, e: IpEntry)
      requires Valid() && e.limiter.maxTokens == policy.burst && e.limiter.refillRate == policy.rate
      requires if ip in entries then e.limiter == entries[ip].limiter else e.limiter !in Limiters()
      modifies `entries
      ensures entries == old(entries)[ip := e]
      ensures Valid() && Limiters() == old(Limiters()) + {e.limiter}
      ensures View() == old(View())[ip := e.View()]
    {
      entries := entries[ip := e];
      forall l | l in old(Limiters())
        ensures l in Limiters()
      {
        var other :| other in old(entries) && old(entries)[other].limiter == l;
        assert other in entries && entries[other].limiter == l;
      }
      assert entries[ip].limiter in Limiters();
    }

    method TrackIp(ip: Ip, now: real)
      requires Valid()
      modifies `entries
      ensures Valid() && fresh(Limiters() - old(Limiters()))
      ensures View() == Apply(policy, old(View()), Track(ip), now).0
    {
      hide IpRateLimiter.Valid;
      if ip in entries {
        Reconnect(ip, now);
      } else {
        AddUnknown(ip, now);
      }
    }

    /** One more connection of a known IP. */
    method Reconnect(ip: Ip, now: real)
      requires Valid() && ip in entries
      modifies `entries
      ensures Valid() && Limiters() == old(Limiters())
      ensures View() == old(View())[ip := Connected(old(View())[ip], now)]
    {
      hide IpRateLimiter.Valid;
      var e := entries[ip];
      SharedPolicy(ip);
      Put(ip, e.(refcount := if e.refcount < U32_MAX then e.refcount + 1 else U32_MAX, lastActive := now));
    }

    /** The first connection of an IP: a fresh, full bucket. */
    method AddUnknown(ip: Ip, now: real)
      requires Valid() && ip !in entries
      modifies `entries
      ensures Valid() && fresh(Limiters() - old(Limiters()))
      ensures View() == old(View())[ip := Connected(Entry(Bucket(policy.burst, now), 0, now), now)]
    {
      hide IpRateLimiter.Valid;
      ghost var was := View();
      var limiter := new RateLimiter(policy.rate, policy.burst, now);
      assert View() == was;
      Put(ip, IpEntry(limiter, 1, now));
    }

    lemma SharedPolicy(ip: Ip)
      requires Valid() && ip in entries
      ensures entries[ip].limiter in Limiters()
      ensures Policy(entries[ip].limiter.refillRate, entries[ip].limiter.maxTokens) == policy
      ensures forall other <- entries | other != ip :: entries[other].limiter != entries[ip].limiter
    {
    }

    method UntrackIp(ip: Ip, now: real)
      requires Valid()
      modifies `entries
      ensures Valid() && Limiters() == old(Limiters())
      ensures View() == Apply(policy, old(View()), Untrack(ip), now).0
    {
      hide IpRateLimiter.Valid;
      if ip in entries {
        var e := entries[ip];
        SharedPolicy(ip);
        Put(ip, e.(refcount := if e.refcount > 0 then e.refcount - 1 else 0, lastActive := now));
      }
    }

    method CheckNow(ip: Ip, now: real) returns (allowed: bool)
      requires Valid()
      modifies `entries, Limiters()
      ensures Valid() && Limiters() == old(Limiters())
      ensures (View(), allowed) == Apply(policy, old(View()), CheckIp(ip), now)
    {
      hide IpRateLimiter.Valid, Check;
      if ip !in entries {
        return true;
      }
      var e := entries[ip];
      SharedPolicy(ip);
      Put(ip, e.(lastActive := now));
      SharedPolicy(ip);
      ghost var was := View();
      allowed := e.limiter.CheckNow(now);
      assert View() == was[ip := Entry(e.limiter.View(), e.refcount, now)];
      assert View() == old(View())[ip := Entry(e.limiter.View(), e.refcount, now)];
      assert old(View())[ip] == Entry(old(e.limiter.View()), e.refcount, e.lastActive);
      assert (e.limiter.View(), allowed) == Check(policy, old(View())[ip].bucket, now);
    }

    /** Drop the idle entries; how many they were. */
    method SweepIdle(ttl: real, now: real) returns (removed: nat)
      requires Valid()
      modifies `entries
      ensures Valid() && Limiters() <= old(Limiters())
      ensures View() == Apply(policy, old(View()), Sweep(ttl), now).0
      ensures removed == |old(entries)| - |entries|
    {
      hide IpEntry.Active;
      var before := |entries|;
      RetainActive(ttl, now);
      removed := before - |entries|;
      SweptView(old(entries), ttl, now);
    }

    method RetainActive(ttl: real, now: real)
      modifies `entries
      ensures |entries| <= |old(entries)|
      ensures Retained(old(entries), entries, ttl, now)
    {
      hide IpEntry.Active;
      var todo := entries.Keys;
      while todo != {}
        modifies `entries
        invariant todo <= entries.Keys && |entries| <= |old(entries)|
        invariant forall ip <- entries :: ip in old(entries) && entries[ip] == old(entries)[ip]
        invariant forall ip <- old(entries) :: ip in entries <==> ip in todo || old(entries)[ip].Active(ttl, now)
      {
        var ip :| ip in todo;
        if !entries[ip].Active(ttl, now) {
          entries := entries - {ip};
        }
        todo := todo - {ip};
      }
    }

    /** What the registry shows once only the active entries are left. */
    lemma SweptView(was: map<Ip, IpEntry>, ttl: real, now: real)
      requires Retained(was, entries, ttl, now)
      ensures View() == map ip | ip in was && (was[ip].refcount > 0 || now - was[ip].lastActive < ttl) :: was[ip].View()
    {
    }
  }

  /** The active ones of `was`, unchanged. */
  ghost predicate Retained(was: map<Ip, IpEntry>, left: map<Ip, IpEntry>, ttl: real, now: real) {
    && (forall ip <- left :: ip in was && left[ip] == was[ip])
    && (forall ip <- was :: ip in left <==> was[ip].Active(ttl, now))
  }
}
