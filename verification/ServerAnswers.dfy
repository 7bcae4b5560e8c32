/** What each operation answers and does, spelled out by its guards: the outside view of the server. */
module ServerAnswers {
  import opened Wrappers
  import opened Server
  import opened ServerInvariants
  import opened ServerSteps
  import opened ServerRuns

  /** There is no limit, or room below it. */
  predicate Room(count: nat, max: nat) {
    max == 0 || count < max
  }

  /** The client at `tcp` may enter a channel. */
  predicate Free(i: Inner, tcp: Addr) {
    tcp in i.clients && i.clients[tcp].channel == None
  }

  /** A client registers exactly while there is room, under the next number's name, in no channel and with no key. */
  lemma RegisterExactly(s: Server, tcp: Addr, name: nat -> string)
    requires tcp !in s.inner.clients
    ensures
      var ((t, r), i) := (Register(s, tcp, name), s.inner);
      if Room(|i.clients|, i.limits.maxClients)
      then r == Ok(name(i.nameCounter + 1)) && t.cache == s.cache
        && t.inner == i.(clients := i.clients[tcp := Client(name(i.nameCounter + 1), None, None, None)], nameCounter := i.nameCounter + 1)
      else r == Err(ServerFull) && t == s
  {
  }

  /** A channel is created exactly while there is room and its name is free; then it is empty and has the key drawn. */
  lemma CreateExactly(s: Server, id: ChannelId, key: Bytes, now: int)
    ensures
      var ((t, r), i) := (Create(s, id, key, now), s.inner);
      if !Room(|i.channels|, i.limits.maxChannels) then r == Err(ChannelLimit) && t == s
      else if id in i.channels then r == Err(ChannelExists) && t == s
      else r == Ok(id) && t.cache == s.cache && t.inner == i.(
        channels := i.channels[id := {}], keys := i.keys[id := key], createdAt := i.createdAt[id := now])
    ensures
      var ((t, r), (u, q)) := (Create(s, id, key, now), CreatePersistent(s, id, key, now));
      q == r && u == if r.Ok? then t.(inner := t.inner.(persistent := t.inner.persistent + {id})) else t
  {
  }

  /**
   A join succeeds exactly for a channel that exists and a client that is
   registered and in none, and the first of these that fails is the answer.
   The client is then in the channel with the token issued, and was handed the
   key the channel has now: the one it had, or for a persistent channel nobody
   was in the one just drawn. Nobody else's key, and nothing else, changes.
   */
  lemma JoinExactly(s: Server, tcp: Addr, ch: ChannelId, token: nat, key: Bytes, now: int)
    requires ChannelsKeyed(s.inner)
    ensures
      var ((t, r), i) := (Join(s, tcp, ch, token, key, now), s.inner);
      if ch !in i.channels then r == Err(NotFound) && t == s
      else if tcp !in i.clients then r == Err(NotRegistered) && t == s
      else if i.clients[tcp].channel.Some? then r == Err(AlreadyInChannel) && t == s
      else
        var drawn := ch in i.persistent && forall a <- i.clients :: i.clients[a].channel != Some(ch);
        && ch in t.inner.keys && r == Ok(Joined(token, t.inner.keys[ch]))
        && t.cache == s.cache && t.inner == i.(
             clients := i.clients[tcp := i.clients[tcp].(channel := Some(ch))],
             tokens := i.tokens[token := Token(tcp, ch, now)],
             keys := if drawn then i.keys[ch := key] else i.keys)
  {
  }

  /** An echo test succeeds exactly while there is room, for a client that is registered and in no channel; it is then alone in a new channel. */
  lemma EchoExactly(s: Server, tcp: Addr, id: ChannelId, token: nat, key: Bytes, now: int)
    ensures
      var ((t, r), i) := (StartEcho(s, tcp, id, token, key, now), s.inner);
      if !Room(|i.channels|, i.limits.maxChannels) then r == Err(ChannelLimit) && t == s
      else if tcp !in i.clients then r == Err(NotRegistered) && t == s
      else if i.clients[tcp].channel.Some? then r == Err(AlreadyInChannel) && t == s
      else r == Ok(Joined(token, key)) && t.cache == s.cache && t.inner == i.(
        channels := i.channels[id := {}], keys := i.keys[id := key], createdAt := i.createdAt[id := now],
        clients := i.clients[tcp := i.clients[tcp].(channel := Some(id))],
        tokens := i.tokens[token := Token(tcp, id, now)])
  {
  }

  /** A v4-mapped v6 address counts as the v4 address it maps, and every other address as itself. */
  lemma SameSourceExactly(bits: nat)
    ensures Canonical(V4(bits)) == V4(bits)
    ensures bits < 0x1_0000_0000 ==> Canonical(V6(0xFFFF_0000_0000 + bits)) == V4(bits)
    ensures !(0xFFFF_0000_0000 <= bits <= 0xFFFF_FFFF_FFFF) ==> Canonical(V6(bits)) == V6(bits)
  {
  }

  /**
   A hello is accepted exactly for a known token, from the IP of its client's
   TCP session, while that client is registered; the address is then the
   client's, and in the token's channel, if that exists, in place of the old one.
   The token stays valid, and young again.
   */
  lemma HelloExactly(s: Server, token: nat, udp: Addr, now: int)
    ensures
      var ((t, ok), i) := (Hello(s, token, udp, now), s.inner);
      && (ok <==> token in i.tokens && Canonical(i.tokens[token].tcp.ip) == Canonical(udp.ip) && i.tokens[token].tcp in i.clients)
      && (!ok ==> t.inner.clients == i.clients && t.inner.channels == i.channels && t.cache == s.cache)
      && t.inner.tokens == (if token in i.tokens && Canonical(i.tokens[token].tcp.ip) == Canonical(udp.ip)
                            then i.tokens[token := i.tokens[token].(created := now)] else i.tokens)
      && (ok ==>
          var (tcp, ch) := (i.tokens[token].tcp, i.tokens[token].channel);
          && t.inner.clients == i.clients[tcp := i.clients[tcp].(udp := Some(udp))]
          && (ch in i.channels ==> t.inner.channels == i.channels[ch :=
               (if i.clients[tcp].udp.Some? then i.channels[ch] - {i.clients[tcp].udp.value} else i.channels[ch]) + {udp}])
          && (ch !in i.channels ==> t.inner.channels == i.channels))
  {
    hide Canonical, Publish;
    var i := s.inner;
    if Hello(s, token, udp, now).1 && i.tokens[token].channel in i.channels {
      var peers := i.channels[i.tokens[token].channel];
      assert peers - {udp} + {udp} == peers + {udp};
    }
  }

  /**
   A cleanup leaves a channel exactly if somebody hears in it or is in it, it
   is persistent, or it is no older than the grace; and nothing else about the
   channels that stay, or the clients, changes.
   */
  lemma CleanupExactly(s: Server, now: int, grace: int, ttl: int, ch: ChannelId)
    requires ChannelsKeyed(s.inner) && ch in s.inner.channels
    ensures
      var (i, j) := (s.inner, Cleanup(s, now, grace, ttl).inner);
      && (ch in j.channels <==>
          || i.channels[ch] != {} || (exists a <- i.clients :: i.clients[a].channel == Some(ch))
          || ch in i.persistent || now - i.createdAt[ch] <= grace)
      && (ch in j.channels ==> j.channels[ch] == i.channels[ch] && ch in j.keys && j.keys[ch] == i.keys[ch])
      && j.clients == i.clients && j.persistent == i.persistent
  {
    hide Survives;
    if ch in s.inner.channels && Occupied(s.inner, ch) {
      var a :| a in s.inner.clients && InChannel(s.inner.clients[a], ch);
      assert s.inner.clients[a].channel == Some(ch);
    }
  }

  /** A token outlives a cleanup exactly if its channel does and its client is still in there, or it is younger than the ttl. */
  lemma TokenOutlivesExactly(s: Server, now: int, grace: int, ttl: int, token: nat)
    requires token in s.inner.tokens
    ensures
      var (i, j, t) := (s.inner, Cleanup(s, now, grace, ttl).inner, s.inner.tokens[token]);
      && (token in j.tokens <==>
          && (t.channel in i.channels ==> t.channel in j.channels)
          && ((t.tcp in i.clients && i.clients[t.tcp].channel == Some(t.channel)) || now - t.created < ttl))
      && (token in j.tokens ==> j.tokens[token] == t)
  {
    hide Occupied;
  }

  /** After a registered client binds a key, the key resolves to it; its old key, if another, resolves to nobody, and other keys as before. */
  lemma SetPubkeyExactly(s: Server, tcp: Addr, pk: Bytes, other: Bytes)
    ensures
      var (i, j) := (s.inner, SetPubkey(s, tcp, pk).inner);
      if tcp !in i.clients then SetPubkey(s, tcp, pk) == s
      else
        && pk in j.pubkeyIndex && j.pubkeyIndex[pk] == tcp && j.clients[tcp].pubkey == Some(pk)
        && (other != pk && i.clients[tcp].pubkey == Some(other) ==> other !in j.pubkeyIndex)
        && (other != pk && i.clients[tcp].pubkey != Some(other) ==>
            (other in j.pubkeyIndex <==> other in i.pubkeyIndex)
            && (other in i.pubkeyIndex ==> j.pubkeyIndex[other] == i.pubkeyIndex[other]))
  {
  }

  /** A rename changes one name. */
  lemma RenameExactly(s: Server, tcp: Addr, name: string)
    ensures
      Rename(s, tcp, name) == if tcp !in s.inner.clients then s
        else s.(inner := s.inner.(clients := s.inner.clients[tcp := s.inner.clients[tcp].(name := name)]))
  {
  }

  /** A client who leaves is in no channel and has no token and no address; its name and key stay. */
  lemma LeaveExactly(s: Server, tcp: Addr)
    ensures
      var (i, j) := (s.inner, Leave(s, tcp).inner);
      if Free(i, tcp) || tcp !in i.clients then Leave(s, tcp) == s
      else
        && j.clients == i.clients[tcp := i.clients[tcp].(channel := None, udp := None)]
        && (forall t :: t in j.tokens <==> t in i.tokens && i.tokens[t].tcp != tcp)
        && j.pubkeyIndex == i.pubkeyIndex && j.persistent == i.persistent
  {
    if tcp in s.inner.clients && s.inner.clients[tcp].channel.Some? {
      hide Leave;
      LeaveKeeps(s, tcp);
    }
  }

  /** A client who disconnects is gone with its tokens, and its key resolves to nobody; other keys resolve as before. */
  lemma RemoveExactly(s: Server, tcp: Addr, pk: Bytes)
    ensures
      var (i, j) := (s.inner, Remove(s, tcp).inner);
      if tcp !in i.clients then Remove(s, tcp) == s
      else
        && j.clients == i.clients - {tcp} && j.persistent == i.persistent
        && (forall t :: t in j.tokens <==> t in i.tokens && i.tokens[t].tcp != tcp)
        && (pk in j.pubkeyIndex <==> pk in i.pubkeyIndex && i.clients[tcp].pubkey != Some(pk))
        && (pk in j.pubkeyIndex ==> j.pubkeyIndex[pk] == i.pubkeyIndex[pk])
  {
    hide Vacate;
    var i := s.inner;
    if tcp in i.clients && i.clients[tcp].channel.Some? {
      var c := i.clients[tcp];
      var index := if c.pubkey.Some? then i.pubkeyIndex - {c.pubkey.value} else i.pubkeyIndex;
      VacateKeeps(s.(inner := i.(
        clients := i.clients - {tcp}, pubkeyIndex := index, tokens := WithoutTokensOf(i.tokens, tcp))), c.channel.value, c.udp);
    }
  }

  // ── limits and names, over runs ──

  /** Never more clients or channels than allowed. */
  ghost predicate WithinLimits(i: Inner) {
    && (i.limits.maxClients > 0 ==> |i.clients| <= i.limits.maxClients)
    && (i.limits.maxChannels > 0 ==> |i.channels| <= i.limits.maxChannels)
  }

  lemma VacateShrinks(s: Server, ch: ChannelId, udp: Option<Addr>)
    ensures var j := Vacate(s, ch, udp).inner;
      |j.channels| <= |s.inner.channels| && j.clients == s.inner.clients && j.limits == s.inner.limits
  {
    hide Publish, Unpublish, Peers;
    if ch in s.inner.channels {
      assert |s.inner.channels - {ch}| <= |s.inner.channels|;
    }
  }

  lemma DepartureWithinLimits(s: Server, tcp: Addr)
    requires WithinLimits(s.inner)
    ensures WithinLimits(Leave(s, tcp).inner) && WithinLimits(Remove(s, tcp).inner)
  {
    hide Vacate, WithoutTokensOf;
    var i := s.inner;
    if tcp in i.clients {
      var c := i.clients[tcp];
      var index := if c.pubkey.Some? then i.pubkeyIndex - {c.pubkey.value} else i.pubkeyIndex;
      assert |i.clients[tcp := c.(channel := None, udp := None)]| == |i.clients|;
      assert |i.clients - {tcp}| <= |i.clients|;
      if c.channel.Some? {
        VacateShrinks(s.(inner := i.(
          clients := i.clients[tcp := c.(channel := None, udp := None)], tokens := WithoutTokensOf(i.tokens, tcp))), c.channel.value, c.udp);
        VacateShrinks(s.(inner := i.(
          clients := i.clients - {tcp}, pubkeyIndex := index, tokens := WithoutTokensOf(i.tokens, tcp))), c.channel.value, c.udp);
      }
    }
  }

  lemma ApplyWithinLimits(s: Server, op: Op)
    requires WithinLimits(s.inner) && Enabled(s, op)
    ensures WithinLimits(Apply(s, op).inner) && Apply(s, op).inner.limits == s.inner.limits
  {
    hide Publish, Vacate, Leave, Remove, Hello, WithoutTokensOf, Occupied, Survives, Peers;
    match op
    case OpLeave(tcp) =>
      LimitsKept(s, tcp);
      DepartureWithinLimits(s, tcp);
    case OpRemove(tcp) =>
      LimitsKept(s, tcp);
      DepartureWithinLimits(s, tcp);
    case OpHello(token, udp, now) => HelloWithinLimits(s, token, udp, now);
    case OpCleanup(now, grace, _) => assert |s.inner.channels - Reaped(s.inner, now, grace)| <= |s.inner.channels|;
    case _ =>
  }

  lemma LimitsKept(s: Server, tcp: Addr)
    ensures Leave(s, tcp).inner.limits == s.inner.limits && Remove(s, tcp).inner.limits == s.inner.limits
  {
    hide Publish, Unpublish, Peers, WithoutTokensOf;
  }

  lemma HelloWithinLimits(s: Server, token: nat, udp: Addr, now: int)
    requires WithinLimits(s.inner)
    ensures var j := Hello(s, token, udp, now).0.inner; WithinLimits(j) && j.limits == s.inner.limits
  {
    hide Publish, Peers, Canonical;
    var i, j := s.inner, Hello(s, token, udp, now).0.inner;
    assert j.clients.Keys == i.clients.Keys && j.channels.Keys == i.channels.Keys;
    assert |j.clients| == |j.clients.Keys| && |i.clients| == |i.clients.Keys|;
    assert |j.channels| == |j.channels.Keys| && |i.channels| == |i.channels.Keys|;
  }

  /** In every reachable state there are no more clients and no more channels than the limits allow. */
  lemma {:induction false} RunWithinLimits(limits: Limits, ops: seq<Op>)
    requires Legal(limits, ops)
    ensures WithinLimits(Run(limits, ops).server.inner) && Run(limits, ops).server.inner.limits == limits
  {
    if ops != [] {
      hide WithinLimits, Apply, Enabled, Answer;
      RunWithinLimits(limits, ops[..|ops| - 1]);
      ApplyWithinLimits(Run(limits, ops[..|ops| - 1]).server, ops[|ops| - 1]);
    }
  }

  /** The number behind a name grows with every registration that succeeds and never falls: no two clients are given one name number. */
  lemma CounterExactly(s: Server, op: Op)
    ensures Apply(s, op).inner.nameCounter ==
      s.inner.nameCounter + if op.OpRegister? && Room(|s.inner.clients|, s.inner.limits.maxClients) then 1 else 0
  {
    hide Publish, Unpublish, Peers, WithoutTokensOf, Occupied, Survives, Canonical;
  }
}
