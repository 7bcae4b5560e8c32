/** Every operation keeps every invariant; so all of them hold in every reachable state. */
module ServerSteps {
  import opened Wrappers
  import opened Server
  import opened ServerInvariants

  // ── tokens ──

  lemma EnterTokens(i: Inner, issued: map<Addr, nat>, tcp: Addr, ch: ChannelId, token: nat, now: int)
    requires TokensMatch(i, issued) && tcp in i.clients && i.clients[tcp].channel == None && token !in i.tokens
    ensures TokensMatch(Enter(i, tcp, ch, token, now), issued[tcp := token])
  {
  }

  /** Dropping a client, or its channel, together with its tokens leaves the rest matched. */
  lemma DropTokens(i: Inner, issued: map<Addr, nat>, tcp: Addr, clients: map<Addr, Client>)
    requires TokensMatch(i, issued)
    requires forall a | a != tcp :: (a in clients <==> a in i.clients) && (a in clients ==> clients[a] == i.clients[a])
    requires tcp in clients ==> clients[tcp].channel == None
    ensures TokensMatch(i.(clients := clients, tokens := WithoutTokensOf(i.tokens, tcp)), issued)
  {
  }

  /** Vacating a channel touches neither clients nor tokens. */
  lemma VacateKeeps(s: Server, ch: ChannelId, udp: Option<Addr>)
    ensures var i := Vacate(s, ch, udp).inner;
      && i.clients == s.inner.clients && i.tokens == s.inner.tokens
      && i.persistent == s.inner.persistent && i.pubkeyIndex == s.inner.pubkeyIndex
  {
  }

  lemma OtherTokens(i: Inner, j: Inner, issued: map<Addr, nat>)
    requires TokensMatch(i, issued) && j.clients == i.clients && j.tokens == i.tokens
    ensures TokensMatch(j, issued)
  {
  }

  /** A cleanup never revokes a token: every token belongs to a client that is in its channel. */
  lemma CleanupKeepsTokens(s: Server, issued: map<Addr, nat>, now: int, grace: int, ttl: int)
    requires TokensMatch(s.inner, issued)
    ensures Cleanup(s, now, grace, ttl).inner.tokens == s.inner.tokens
  {
    forall t | t in s.inner.tokens
      ensures s.inner.tokens[t].channel !in Reaped(s.inner, now, grace) && Survives(s.inner, s.inner.tokens[t], now, ttl)
    {
      var tcp := s.inner.tokens[t].tcp;
      assert InChannel(s.inner.clients[tcp], s.inner.tokens[t].channel);
    }
  }

  lemma JoinTokens(w: World, op: Op)
    requires op.OpJoin? && TokensMatch(w.server.inner, w.issued) && Enabled(w.server, op)
    ensures TokensMatch(Next(w, op).server.inner, Next(w, op).issued)
  {
    hide TokensMatch, Enter;
    var i := w.server.inner;
    if Answer(w.server, op).Ok? {
      OtherTokens(i, RotateKey(i, op.ch, op.key), w.issued);
      EnterTokens(RotateKey(i, op.ch, op.key), w.issued, op.tcp, op.ch, op.token, op.now);
    }
  }

  lemma EchoTokens(w: World, op: Op)
    requires op.OpEcho? && TokensMatch(w.server.inner, w.issued) && Enabled(w.server, op)
    ensures TokensMatch(Next(w, op).server.inner, Next(w, op).issued)
  {
    hide TokensMatch, Enter;
    var i := w.server.inner;
    if Answer(w.server, op).Ok? {
      OtherTokens(i, AddChannel(i, op.id, op.key, op.now), w.issued);
      EnterTokens(AddChannel(i, op.id, op.key, op.now), w.issued, op.tcp, op.id, op.token, op.now);
    }
  }

  lemma LeaveTokens(s: Server, issued: map<Addr, nat>, tcp: Addr)
    requires TokensMatch(s.inner, issued)
    ensures TokensMatch(Leave(s, tcp).inner, issued)
  {
    var i := s.inner;
    if tcp in i.clients && i.clients[tcp].channel.Some? {
      hide TokensMatch, Leave, WithoutTokensOf;
      var clients := i.clients[tcp := i.clients[tcp].(channel := None, udp := None)];
      DropTokens(i, issued, tcp, clients);
      LeaveKeeps(s, tcp);
      OtherTokens(i.(clients := clients, tokens := WithoutTokensOf(i.tokens, tcp)), Leave(s, tcp).inner, issued);
    }
  }

  lemma RemoveTokens(s: Server, issued: map<Addr, nat>, tcp: Addr)
    requires TokensMatch(s.inner, issued)
    ensures TokensMatch(Remove(s, tcp).inner, issued)
  {
    var i := s.inner;
    if tcp in i.clients {
      hide TokensMatch, Remove, WithoutTokensOf;
      DropTokens(i, issued, tcp, i.clients - {tcp});
      RemoveKeeps(s, tcp);
      OtherTokens(i.(clients := i.clients - {tcp}, tokens := WithoutTokensOf(i.tokens, tcp)), Remove(s, tcp).inner, issued);
    }
  }

  lemma HelloTokens(s: Server, issued: map<Addr, nat>, token: nat, udp: Addr, now: int)
    requires TokensMatch(s.inner, issued)
    ensures TokensMatch(Hello(s, token, udp, now).0.inner, issued)
  {
    hide Canonical, Publish, Peers;
  }

  /** Clients keep their channels; a new one has none. */
  lemma TweakTokens(i: Inner, j: Inner, issued: map<Addr, nat>)
    requires TokensMatch(i, issued) && j.tokens == i.tokens && i.clients.Keys <= j.clients.Keys
    requires forall a <- j.clients :: j.clients[a].channel == if a in i.clients then i.clients[a].channel else None
    ensures TokensMatch(j, issued)
  {
  }

  lemma ApplyTokens(w: World, op: Op)
    requires TokensMatch(w.server.inner, w.issued) && Enabled(w.server, op)
    ensures TokensMatch(Next(w, op).server.inner, Next(w, op).issued)
  {
    hide TokensMatch;
    var s, i, j := w.server, w.server.inner, Apply(w.server, op).inner;
    match op
    case OpJoin(_, _, _, _, _) =>
      hide *;
      JoinTokens(w, op);
    case OpEcho(_, _, _, _, _) =>
      hide *;
      EchoTokens(w, op);
    case OpLeave(tcp) =>
      hide Leave;
      LeaveTokens(s, w.issued, tcp);
    case OpRemove(tcp) =>
      hide Remove;
      RemoveTokens(s, w.issued, tcp);
    case OpHello(token, udp, now) =>
      hide Hello;
      HelloTokens(s, w.issued, token, udp, now);
    case OpCleanup(now, grace, ttl) =>
      CleanupKeepsTokens(s, w.issued, now, grace, ttl);
      OtherTokens(i, j, w.issued);
    case OpRegister(_, _) => TweakTokens(i, j, w.issued);
    case OpSetPubkey(_, _) => TweakTokens(i, j, w.issued);
    case OpRename(_, _) => TweakTokens(i, j, w.issued);
    case OpCreate(_, _, _) => OtherTokens(i, j, w.issued);
    case OpCreatePersistent(_, _, _) => OtherTokens(i, j, w.issued);
  }

  /** What leaving does to clients and tokens. */
  lemma LeaveKeeps(s: Server, tcp: Addr)
    requires tcp in s.inner.clients && s.inner.clients[tcp].channel.Some?
    ensures var i := Leave(s, tcp).inner;
      && i.clients == s.inner.clients[tcp := s.inner.clients[tcp].(channel := None, udp := None)]
      && i.tokens == WithoutTokensOf(s.inner.tokens, tcp)
      && i.persistent == s.inner.persistent && i.pubkeyIndex == s.inner.pubkeyIndex
  {
  }

  lemma RemoveKeeps(s: Server, tcp: Addr)
    requires tcp in s.inner.clients
    ensures var i := Remove(s, tcp).inner;
      && i.clients == s.inner.clients - {tcp}
      && i.tokens == WithoutTokensOf(s.inner.tokens, tcp)
      && i.persistent == s.inner.persistent
  {
  }

  // ── peers ──

  /** Clients other than `tcp` are unchanged. */
  ghost predicate SameOthers(clients: map<Addr, Client>, after: map<Addr, Client>, tcp: Addr) {
    forall a | a in clients && a != tcp :: a in after && after[a] == clients[a]
  }

  /** A member stays one unless it is the client that changed. */
  lemma MemberKept(clients: map<Addr, Client>, after: map<Addr, Client>, tcp: Addr, ch: ChannelId, u: Addr)
    requires Member(clients, ch, u) && SameOthers(clients, after, tcp)
    requires tcp in clients && InChannel(clients[tcp], ch) && clients[tcp].udp == Some(u) ==>
      tcp in after && InChannel(after[tcp], ch) && after[tcp].udp == Some(u)
    ensures Member(after, ch, u)
  {
    var a :| a in clients && InChannel(clients[a], ch) && clients[a].udp == Some(u);
    assert a in after && InChannel(after[a], ch) && after[a].udp == Some(u);
  }

  /** An operation that moves no client between channels and adds no peer. */
  lemma PeersKept(i: Inner, j: Inner, tcp: Addr)
    requires PeersAreMembers(i) && SameOthers(i.clients, j.clients, tcp)
    requires forall ch :: Peers(j, ch) <= Peers(i, ch)
    requires tcp in i.clients ==> forall ch | InChannel(i.clients[tcp], ch) ::
      (i.clients[tcp].udp.Some? ==> i.clients[tcp].udp.value !in Peers(j, ch))
      || (tcp in j.clients && j.clients[tcp].channel == i.clients[tcp].channel && j.clients[tcp].udp == i.clients[tcp].udp)
    ensures PeersAreMembers(j)
  {
    forall ch, u | ch in j.channels && u in j.channels[ch]
      ensures Member(j.clients, ch, u)
    {
      assert u in Peers(j, ch) && u in Peers(i, ch);
      MemberKept(i.clients, j.clients, tcp, ch, u);
    }
  }

  lemma VacatedPeers(s: Server, ch: ChannelId, udp: Option<Addr>)
    ensures var i := Vacate(s, ch, udp).inner;
      && (forall other | other != ch :: Peers(i, other) == Peers(s.inner, other))
      && Peers(i, ch) == (if udp.Some? then Peers(s.inner, ch) - {udp.value} else Peers(s.inner, ch))
  {
  }

  lemma LeavePeers(s: Server, tcp: Addr)
    requires PeersAreMembers(s.inner)
    ensures PeersAreMembers(Leave(s, tcp).inner)
  {
    hide PeersAreMembers, Vacate, WithoutTokensOf;
    var i := s.inner;
    if tcp in i.clients && i.clients[tcp].channel.Some? {
      var c := i.clients[tcp];
      var t := s.(inner := i.(
        clients := i.clients[tcp := c.(channel := None, udp := None)], tokens := WithoutTokensOf(i.tokens, tcp)));
      VacatedPeers(t, c.channel.value, c.udp);
      VacateKeeps(t, c.channel.value, c.udp);
      PeersKept(i, Leave(s, tcp).inner, tcp);
    }
  }

  lemma RemovePeers(s: Server, tcp: Addr)
    requires PeersAreMembers(s.inner)
    ensures PeersAreMembers(Remove(s, tcp).inner)
  {
    hide PeersAreMembers, Vacate, WithoutTokensOf;
    var i := s.inner;
    if tcp in i.clients {
      var c := i.clients[tcp];
      var index := if c.pubkey.Some? then i.pubkeyIndex - {c.pubkey.value} else i.pubkeyIndex;
      var t := s.(inner := i.(
        clients := i.clients - {tcp}, pubkeyIndex := index, tokens := WithoutTokensOf(i.tokens, tcp)));
      if c.channel.Some? {
        VacatedPeers(t, c.channel.value, c.udp);
        VacateKeeps(t, c.channel.value, c.udp);
      }
      PeersKept(i, Remove(s, tcp).inner, tcp);
    }
  }

  lemma HelloPeers(s: Server, issued: map<Addr, nat>, token: nat, udp: Addr, now: int)
    requires PeersAreMembers(s.inner) && TokensMatch(s.inner, issued)
    ensures PeersAreMembers(Hello(s, token, udp, now).0.inner)
  {
    var i, j := s.inner, Hello(s, token, udp, now).0.inner;
    if Hello(s, token, udp, now).1 {
      var t := i.tokens[token];
      hide TokensMatch;
      forall ch, u | ch in j.channels && u in j.channels[ch]
        ensures Member(j.clients, ch, u)
      {
        if ch == t.channel && u == udp {
          assert InChannel(j.clients[t.tcp], ch) && j.clients[t.tcp].udp == Some(u);
        } else {
          assert u in i.channels[ch];
          MemberKept(i.clients, j.clients, t.tcp, ch, u);
        }
      }
    }
  }

  lemma ApplyPeers(w: World, op: Op)
    requires Enabled(w.server, op) && PeersAreMembers(w.server.inner) && TokensMatch(w.server.inner, w.issued)
    ensures PeersAreMembers(Apply(w.server, op).inner)
  {
    var s, i, j := w.server, w.server.inner, Apply(w.server, op).inner;
    hide PeersAreMembers, TokensMatch, Publish, Unpublish, Canonical, Occupied, Survives, Full, WithoutTokensOf, Vacate,
      Leave, Remove, Hello, Join, StartEcho, Create, CreatePersistent;
    match op
    case OpLeave(tcp) => LeavePeers(s, tcp);
    case OpRemove(tcp) => RemovePeers(s, tcp);
    case OpHello(token, udp, now) => HelloPeers(s, w.issued, token, udp, now);
    case OpRegister(tcp, _) => PeersKept(i, j, tcp);
    case OpSetPubkey(tcp, _) => PeersKept(i, j, tcp);
    case OpRename(tcp, _) => PeersKept(i, j, tcp);
    case OpJoin(tcp, ch, token, key, now) => JoinPeers(s, tcp, ch, token, key, now);
    case OpEcho(tcp, id, token, key, now) => EchoPeers(s, tcp, id, token, key, now);
    case OpCreate(id, key, now) => CreatePeers(s, id, key, now);
    case OpCreatePersistent(id, key, now) => CreatePeers(s, id, key, now);
    case OpCleanup(_, _, _) => AddedPeers(i, j);
  }

  lemma JoinPeers(s: Server, tcp: Addr, ch: ChannelId, token: nat, key: Bytes, now: int)
    requires PeersAreMembers(s.inner)
    ensures PeersAreMembers(Join(s, tcp, ch, token, key, now).0.inner)
  {
    hide PeersAreMembers, Occupied;
    EnteredPeers(s.inner, Join(s, tcp, ch, token, key, now).0.inner, tcp);
  }

  lemma EchoPeers(s: Server, tcp: Addr, id: ChannelId, token: nat, key: Bytes, now: int)
    requires PeersAreMembers(s.inner)
    ensures PeersAreMembers(StartEcho(s, tcp, id, token, key, now).0.inner)
  {
    hide PeersAreMembers, Full;
    EnteredPeers(s.inner, StartEcho(s, tcp, id, token, key, now).0.inner, tcp);
  }

  lemma CreatePeers(s: Server, id: ChannelId, key: Bytes, now: int)
    requires PeersAreMembers(s.inner)
    ensures PeersAreMembers(Create(s, id, key, now).0.inner) && PeersAreMembers(CreatePersistent(s, id, key, now).0.inner)
  {
    hide PeersAreMembers, Full;
    AddedPeers(s.inner, Create(s, id, key, now).0.inner);
    AddedPeers(s.inner, CreatePersistent(s, id, key, now).0.inner);
  }

  /** A client that was in no channel enters one; no peer set grows. */
  lemma EnteredPeers(i: Inner, j: Inner, tcp: Addr)
    requires PeersAreMembers(i) && SameOthers(i.clients, j.clients, tcp)
    requires tcp in i.clients && i.clients != j.clients ==> i.clients[tcp].channel == None
    requires forall ch :: Peers(j, ch) <= Peers(i, ch)
    ensures PeersAreMembers(j)
  {
    hide PeersAreMembers;
    PeersKept(i, j, tcp);
  }

  lemma AddedPeers(i: Inner, j: Inner)
    requires PeersAreMembers(i) && j.clients == i.clients && forall ch :: Peers(j, ch) <= Peers(i, ch)
    ensures PeersAreMembers(j)
  {
    forall ch, u | ch in j.channels && u in j.channels[ch]
      ensures Member(j.clients, ch, u)
    {
      assert u in Peers(j, ch) && u in Peers(i, ch);
    }
  }
}
