/** The remaining invariants, and the theorems about every reachable server state. */
module ServerRuns {
  import opened Wrappers
  import opened Server
  import opened ServerInvariants
  import opened ServerSteps

  lemma ApplySource(w: World, op: Op)
    requires SameSource(w.server.inner) && TokensMatch(w.server.inner, w.issued) && Enabled(w.server, op)
    ensures SameSource(Apply(w.server, op).inner)
  {
    var s := w.server;
    match op
    case OpLeave(tcp) =>
      if tcp in s.inner.clients && s.inner.clients[tcp].channel.Some? {
        hide Leave, TokensMatch;
        LeaveKeeps(s, tcp);
      }
    case OpRemove(tcp) =>
      if tcp in s.inner.clients {
        hide Remove, TokensMatch;
        RemoveKeeps(s, tcp);
      }
    case OpHello(token, udp, now) => hide Publish, Peers;
    case _ => hide TokensMatch;
  }

  lemma VacateKeyed(s: Server, ch: ChannelId, udp: Option<Addr>)
    requires ChannelsKeyed(s.inner)
    ensures ChannelsKeyed(Vacate(s, ch, udp).inner)
    ensures var i := Vacate(s, ch, udp).inner;
      i.persistent == s.inner.persistent && forall p <- i.persistent :: i.keys[p] == s.inner.keys[p]
  {
  }

  lemma ApplyKeyed(s: Server, op: Op)
    requires ChannelsKeyed(s.inner) && Enabled(s, op)
    ensures ChannelsKeyed(Apply(s, op).inner)
  {
    hide Publish, Vacate, WithoutTokensOf;
    match op
    case OpLeave(tcp) =>
      var i := s.inner;
      if tcp in i.clients && i.clients[tcp].channel.Some? {
        var c := i.clients[tcp];
        VacateKeyed(s.(inner := i.(
          clients := i.clients[tcp := c.(channel := None, udp := None)], tokens := WithoutTokensOf(i.tokens, tcp))),
          c.channel.value, c.udp);
      }
    case OpRemove(tcp) =>
      var i := s.inner;
      if tcp in i.clients && i.clients[tcp].channel.Some? {
        var c := i.clients[tcp];
        var index := if c.pubkey.Some? then i.pubkeyIndex - {c.pubkey.value} else i.pubkeyIndex;
        VacateKeyed(s.(inner := i.(
          clients := i.clients - {tcp}, pubkeyIndex := index, tokens := WithoutTokensOf(i.tokens, tcp))),
          c.channel.value, c.udp);
      }
    case _ =>
  }

  /**
   A persistent channel is never reaped, and its key changes only when a client
   joins it while nobody is in it.
   */
  lemma PersistentStep(s: Server, op: Op, p: ChannelId)
    requires ChannelsKeyed(s.inner) && Enabled(s, op) && p in s.inner.persistent
    ensures
      var i := Apply(s, op).inner;
      && p in i.persistent && p in i.channels && p in i.keys
      && (i.keys[p] != s.inner.keys[p] ==>
          && op.OpJoin? && op.ch == p && !Occupied(s.inner, p) && i.keys[p] == op.key && Answer(s, op) == Ok(Joined(op.token, op.key))
          && op.tcp in i.clients && InChannel(i.clients[op.tcp], p))
  {
    ApplyKeyed(s, op);
    hide Publish, Vacate, WithoutTokensOf, ChannelsKeyed;
    match op
    case OpLeave(tcp) => LeavePersistent(s, tcp, p);
    case OpRemove(tcp) => RemovePersistent(s, tcp, p);
    case OpJoin(_, _, _, _, _) => JoinPersistent(s, op, p);
    case _ => OtherPersistent(s, op, p);
  }

  lemma LeavePersistent(s: Server, tcp: Addr, p: ChannelId)
    requires ChannelsKeyed(s.inner) && p in s.inner.persistent
    ensures var i := Leave(s, tcp).inner;
      i.persistent == s.inner.persistent && p in i.channels && p in i.keys && i.keys[p] == s.inner.keys[p]
  {
    hide Publish, Vacate, WithoutTokensOf;
    var i := s.inner;
    if tcp in i.clients && i.clients[tcp].channel.Some? {
      var c := i.clients[tcp];
      VacateKeyed(s.(inner := i.(
        clients := i.clients[tcp := c.(channel := None, udp := None)], tokens := WithoutTokensOf(i.tokens, tcp))),
        c.channel.value, c.udp);
    }
  }

  lemma RemovePersistent(s: Server, tcp: Addr, p: ChannelId)
    requires ChannelsKeyed(s.inner) && p in s.inner.persistent
    ensures var i := Remove(s, tcp).inner;
      i.persistent == s.inner.persistent && p in i.channels && p in i.keys && i.keys[p] == s.inner.keys[p]
  {
    hide Publish, Vacate, WithoutTokensOf;
    var i := s.inner;
    if tcp in i.clients && i.clients[tcp].channel.Some? {
      var c := i.clients[tcp];
      var index := if c.pubkey.Some? then i.pubkeyIndex - {c.pubkey.value} else i.pubkeyIndex;
      VacateKeyed(s.(inner := i.(
        clients := i.clients - {tcp}, pubkeyIndex := index, tokens := WithoutTokensOf(i.tokens, tcp))),
        c.channel.value, c.udp);
    }
  }

  lemma JoinPersistent(s: Server, op: Op, p: ChannelId)
    requires ChannelsKeyed(s.inner) && p in s.inner.persistent && op.OpJoin?
    ensures
      var i := Apply(s, op).inner;
      && i.persistent == s.inner.persistent && p in i.channels && p in i.keys
      && (i.keys[p] != s.inner.keys[p] ==>
          && op.ch == p && !Occupied(s.inner, p) && i.keys[p] == op.key && Answer(s, op) == Ok(Joined(op.token, op.key))
          && op.tcp in i.clients && InChannel(i.clients[op.tcp], p))
  {
  }

  lemma OtherPersistent(s: Server, op: Op, p: ChannelId)
    requires ChannelsKeyed(s.inner) && p in s.inner.persistent && Enabled(s, op)
    requires !op.OpLeave? && !op.OpRemove? && !op.OpJoin?
    ensures
      var i := Apply(s, op).inner;
      && s.inner.persistent <= i.persistent && p in i.channels && p in i.keys && i.keys[p] == s.inner.keys[p]
      && i.persistent <= s.inner.persistent + (if op.OpCreatePersistent? then {op.id} else {})
  {
    hide Create, CreatePersistent, StartEcho, Hello, Cleanup, Full;
    match op
    case OpCleanup(now, grace, ttl) => CleanupPersistent(s, now, grace, ttl, p);
    case OpHello(token, udp, now) => HelloPersistent(s, token, udp, now, p);
    case OpCreate(id, key, now) => CreatedPersistent(s, id, key, now, p);
    case OpCreatePersistent(id, key, now) => CreatedPersistent(s, id, key, now, p);
    case OpEcho(tcp, id, token, key, now) => EchoPersistent(s, op, p);
    case _ =>
  }

  lemma CreatedPersistent(s: Server, id: ChannelId, key: Bytes, now: int, p: ChannelId)
    requires ChannelsKeyed(s.inner) && p in s.inner.persistent
    ensures
      var (i, j) := (Create(s, id, key, now).0.inner, CreatePersistent(s, id, key, now).0.inner);
      && i.persistent == s.inner.persistent && p in i.channels && p in i.keys && i.keys[p] == s.inner.keys[p]
      && s.inner.persistent <= j.persistent <= s.inner.persistent + {id}
      && p in j.channels && p in j.keys && j.keys[p] == s.inner.keys[p]
  {
  }

  lemma EchoPersistent(s: Server, op: Op, p: ChannelId)
    requires ChannelsKeyed(s.inner) && p in s.inner.persistent && Enabled(s, op) && op.OpEcho?
    ensures
      var i := Apply(s, op).inner;
      i.persistent == s.inner.persistent && p in i.channels && p in i.keys && i.keys[p] == s.inner.keys[p]
  {
    hide Full;
  }

  lemma CleanupPersistent(s: Server, now: int, grace: int, ttl: int, p: ChannelId)
    requires ChannelsKeyed(s.inner) && p in s.inner.persistent
    ensures
      var i := Cleanup(s, now, grace, ttl).inner;
      i.persistent == s.inner.persistent && p in i.channels && p in i.keys && i.keys[p] == s.inner.keys[p]
  {
    hide Occupied, Survives;
  }

  lemma HelloPersistent(s: Server, token: nat, udp: Addr, now: int, p: ChannelId)
    requires ChannelsKeyed(s.inner) && p in s.inner.persistent
    ensures
      var i := Hello(s, token, udp, now).0.inner;
      i.persistent == s.inner.persistent && p in i.channels && p in i.keys && i.keys[p] == s.inner.keys[p]
  {
    hide Publish, Canonical, Peers;
  }

  /** The clients of a persistent channel were handed its key: kept when clients leave and keys stay. */
  lemma CurrentKept(i: Inner, j: Inner, handed: map<Addr, Bytes>)
    requires KeysCurrent(i, handed) && ChannelsKeyed(i)
    requires forall ch <- j.persistent :: ch in i.persistent && ch in j.keys && j.keys[ch] == i.keys[ch]
    requires forall a <- j.clients :: j.clients[a].channel.Some? ==> a in i.clients && i.clients[a].channel == j.clients[a].channel
    ensures KeysCurrent(j, handed)
  {
  }

  /** What an operation that is not a join or an echo test does to the channels clients are in. */
  lemma ChannelsShrink(s: Server, op: Op)
    requires Enabled(s, op) && !op.OpJoin? && !op.OpEcho?
    ensures forall a <- Apply(s, op).inner.clients :: Apply(s, op).inner.clients[a].channel.Some? ==>
      a in s.inner.clients && s.inner.clients[a].channel == Apply(s, op).inner.clients[a].channel
  {
    match op
    case OpLeave(tcp) =>
      if tcp in s.inner.clients && s.inner.clients[tcp].channel.Some? {
        hide Leave;
        LeaveKeeps(s, tcp);
      }
    case OpRemove(tcp) =>
      if tcp in s.inner.clients {
        hide Remove;
        RemoveKeeps(s, tcp);
      }
    case _ => hide Publish, Peers;
  }

  lemma ApplyCurrent(w: World, op: Op)
    requires KeysCurrent(w.server.inner, w.handed) && ChannelsKeyed(w.server.inner) && Enabled(w.server, op)
    ensures KeysCurrent(Next(w, op).server.inner, Next(w, op).handed)
  {
    var s, i, j := w.server, w.server.inner, Apply(w.server, op).inner;
    if op.OpJoin? || op.OpEcho? {
      EnterCurrent(w, op);
    } else {
      ChannelsShrink(s, op);
      if op.OpCreatePersistent? {
        CreatedCurrent(s, w.handed, op);
      } else {
        forall ch | ch in j.persistent
          ensures ch in i.persistent && ch in j.keys && j.keys[ch] == i.keys[ch]
        {
          SamePersistent(s, op);
          PersistentStep(s, op, ch);
        }
        hide Apply, KeysCurrent;
        CurrentKept(i, j, w.handed);
      }
    }
  }

  /** Only the creation of a persistent channel makes a channel persistent. */
  lemma SamePersistent(s: Server, op: Op)
    requires !op.OpCreatePersistent?
    ensures Apply(s, op).inner.persistent == s.inner.persistent
  {
    match op
    case OpLeave(tcp) =>
      if tcp in s.inner.clients && s.inner.clients[tcp].channel.Some? {
        hide Leave;
        LeaveKeeps(s, tcp);
      }
    case OpRemove(tcp) =>
      if tcp in s.inner.clients {
        hide Remove;
        RemoveKeeps(s, tcp);
      }
    case _ =>
  }

  lemma CreatedCurrent(s: Server, handed: map<Addr, Bytes>, op: Op)
    requires op.OpCreatePersistent? && KeysCurrent(s.inner, handed) && ChannelsKeyed(s.inner) && Enabled(s, op)
    ensures KeysCurrent(Apply(s, op).inner, handed)
  {
  }

  lemma EnterCurrent(w: World, op: Op)
    requires op.OpJoin? || op.OpEcho?
    requires KeysCurrent(w.server.inner, w.handed) && ChannelsKeyed(w.server.inner) && Enabled(w.server, op)
    ensures KeysCurrent(Next(w, op).server.inner, Next(w, op).handed)
  {
    if Answer(w.server, op).Ok? {
      var i, j := w.server.inner, Apply(w.server, op).inner;
      var handed := Next(w, op).handed;
      forall a, ch | a in j.clients && InChannel(j.clients[a], ch) && ch in j.persistent && ch in j.keys
        ensures a in handed && handed[a] == j.keys[ch]
      {
        if a != op.tcp {
          assert InChannel(i.clients[a], ch);
          assert j.keys[ch] == i.keys[ch];
        }
      }
    }
  }

  lemma ApplyIndex(s: Server, op: Op)
    requires IndexSound(s.inner) && Enabled(s, op)
    ensures IndexSound(Apply(s, op).inner)
  {
    hide IndexSound, Publish, Unpublish, Peers, Canonical, Occupied, Reaped, Survives, Full, WithoutTokensOf, Vacate,
      Leave, Remove, SetPubkey, Join, StartEcho, Create, CreatePersistent, Hello;
    match op
    case OpLeave(tcp) => LeaveIndex(s, tcp);
    case OpRemove(tcp) => RemoveIndex(s, tcp);
    case OpSetPubkey(tcp, pk) => PubkeyIndex(s, tcp, pk);
    case OpJoin(tcp, ch, token, key, now) => JoinIndex(s, tcp, ch, token, key, now);
    case OpEcho(tcp, id, token, key, now) => EchoIndex(s, tcp, id, token, key, now);
    case OpCreate(id, key, now) => CreateIndex(s, id, key, now);
    case OpCreatePersistent(id, key, now) => CreateIndex(s, id, key, now);
    case OpHello(token, udp, now) => HelloIndex(s, token, udp, now);
    case _ => SameIndex(s.inner, Apply(s, op).inner);
  }

  /** An operation that takes no client, no key and no entry of the index. */
  lemma SameIndex(i: Inner, j: Inner)
    requires IndexSound(i) && j.pubkeyIndex == i.pubkeyIndex
    requires forall a <- i.clients :: a in j.clients && j.clients[a].pubkey == i.clients[a].pubkey
    ensures IndexSound(j)
  {
  }

  lemma LeaveIndex(s: Server, tcp: Addr)
    requires IndexSound(s.inner)
    ensures IndexSound(Leave(s, tcp).inner)
  {
    if tcp in s.inner.clients && s.inner.clients[tcp].channel.Some? {
      hide Leave, IndexSound;
      LeaveKeeps(s, tcp);
      SameIndex(s.inner, Leave(s, tcp).inner);
    }
  }

  lemma PubkeyIndex(s: Server, tcp: Addr, pk: Bytes)
    requires IndexSound(s.inner)
    ensures IndexSound(SetPubkey(s, tcp, pk).inner)
  {
  }

  lemma JoinIndex(s: Server, tcp: Addr, ch: ChannelId, token: nat, key: Bytes, now: int)
    requires IndexSound(s.inner)
    ensures IndexSound(Join(s, tcp, ch, token, key, now).0.inner)
  {
    hide IndexSound, Occupied;
    SameIndex(s.inner, Join(s, tcp, ch, token, key, now).0.inner);
  }

  lemma EchoIndex(s: Server, tcp: Addr, id: ChannelId, token: nat, key: Bytes, now: int)
    requires IndexSound(s.inner)
    ensures IndexSound(StartEcho(s, tcp, id, token, key, now).0.inner)
  {
    hide IndexSound, Full;
    SameIndex(s.inner, StartEcho(s, tcp, id, token, key, now).0.inner);
  }

  lemma CreateIndex(s: Server, id: ChannelId, key: Bytes, now: int)
    requires IndexSound(s.inner)
    ensures IndexSound(Create(s, id, key, now).0.inner) && IndexSound(CreatePersistent(s, id, key, now).0.inner)
  {
    hide IndexSound, Full;
    SameIndex(s.inner, Create(s, id, key, now).0.inner);
    SameIndex(s.inner, CreatePersistent(s, id, key, now).0.inner);
  }

  lemma HelloIndex(s: Server, token: nat, udp: Addr, now: int)
    requires IndexSound(s.inner)
    ensures IndexSound(Hello(s, token, udp, now).0.inner)
  {
    hide IndexSound, Publish, Canonical, Peers;
    SameIndex(s.inner, Hello(s, token, udp, now).0.inner);
  }

  lemma RemoveIndex(s: Server, tcp: Addr)
    requires IndexSound(s.inner)
    ensures IndexSound(Remove(s, tcp).inner)
  {
    hide Vacate;
    var i := s.inner;
    if tcp in i.clients && i.clients[tcp].channel.Some? {
      var c := i.clients[tcp];
      var index := if c.pubkey.Some? then i.pubkeyIndex - {c.pubkey.value} else i.pubkeyIndex;
      VacateKeeps(s.(inner := i.(
        clients := i.clients - {tcp}, pubkeyIndex := index, tokens := WithoutTokensOf(i.tokens, tcp))),
        c.channel.value, c.udp);
    }
  }

  /** Every operation keeps the whole invariant. */
  lemma NextKeepsInvariant(w: World, op: Op)
    requires Invariant(w) && Enabled(w.server, op)
    ensures Invariant(Next(w, op))
  {
    hide Apply, Enabled, CacheCoherent, TokensMatch, PeersAreMembers, SameSource, ChannelsKeyed, KeysCurrent, IndexSound, Answer;
    ApplyCoherent(w.server, op);
    ApplyTokens(w, op);
    ApplyPeers(w, op);
    ApplySource(w, op);
    ApplyKeyed(w.server, op);
    ApplyCurrent(w, op);
    ApplyIndex(w.server, op);
  }

  function Run(limits: Limits, ops: seq<Op>): World {
    if ops == [] then World(Empty(limits), map[], map[])
    else Next(Run(limits, ops[..|ops| - 1]), ops[|ops| - 1])
  }

  ghost predicate Legal(limits: Limits, ops: seq<Op>) {
    ops != [] ==>
      && Legal(limits, ops[..|ops| - 1])
      && Enabled(Run(limits, ops[..|ops| - 1]).server, ops[|ops| - 1])
  }

  /**
   In every reachable state: the cache equals the peer sets; each client in a
   channel owns exactly the token it was issued, and no other token exists;
   every peer is the address of a client now in that channel, with the IP of
   its TCP session; and everyone in a persistent channel was handed the key
   the channel has now.
   */
  lemma {:induction false} ReachableInvariant(limits: Limits, ops: seq<Op>)
    requires Legal(limits, ops)
    ensures Invariant(Run(limits, ops))
  {
    if ops == [] {
      assert Invariant(World(Empty(limits), map[], map[]));
    } else {
      hide Invariant, Next, Enabled;
      ReachableInvariant(limits, ops[..|ops| - 1]);
      NextKeepsInvariant(Run(limits, ops[..|ops| - 1]), ops[|ops| - 1]);
    }
  }

  /** In every reachable state a cleanup, however late, revokes no token. */
  lemma CleanupRevokesNothing(limits: Limits, ops: seq<Op>, now: int, grace: int, ttl: int)
    requires Legal(limits, ops)
    ensures Cleanup(Run(limits, ops).server, now, grace, ttl).inner.tokens == Run(limits, ops).server.inner.tokens
  {
    ReachableInvariant(limits, ops);
    CleanupKeepsTokens(Run(limits, ops).server, Run(limits, ops).issued, now, grace, ttl);
  }

  /** In every reachable state a hello with a client's own token from its own IP is accepted and puts it among the peers. */
  lemma HelloReaches(limits: Limits, ops: seq<Op>, tcp: Addr, udp: Addr, now: int)
    requires Legal(limits, ops)
    requires
      var w := Run(limits, ops);
      && tcp in w.server.inner.clients && w.server.inner.clients[tcp].channel.Some?
      && Canonical(udp.ip) == Canonical(tcp.ip)
    ensures
      var w := Run(limits, ops);
      var ch := w.server.inner.clients[tcp].channel.value;
      && tcp in w.issued
      && Hello(w.server, w.issued[tcp], udp, now).1
      && (ch in w.server.inner.channels ==> forall other | other != udp ::
           udp in FillPeers(Hello(w.server, w.issued[tcp], udp, now).0.cache, ch, other))
  {
    ReachableInvariant(limits, ops);
    var w := Run(limits, ops);
    HelloCoherent(w.server, w.issued[tcp], udp, now);
    var t := Hello(w.server, w.issued[tcp], udp, now).0;
    var ch := w.server.inner.clients[tcp].channel.value;
    assert LoadCell(t.cache, LoadOuter(t.cache, ch)) == Peers(t.inner, ch);
    hide Run, Legal, Publish, Canonical;
  }
}
