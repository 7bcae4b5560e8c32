/** Which members are heard: the peer set against the registered addresses, in both directions. */
module Hearing {
  import opened Wrappers
  import opened Server
  import opened ServerInvariants
  import opened ServerSteps
  import opened ServerRuns
  import opened ServerExact

  /** Every registered member is among the peers of its channel, if that exists. */
  ghost predicate Heard(i: Inner) {
    forall a | a in i.clients && i.clients[a].channel.Some? && i.clients[a].udp.Some? ::
      i.clients[a].channel.value in i.channels ==> i.clients[a].udp.value in i.channels[i.clients[a].channel.value]
  }

  ghost predicate EveryoneHeard(w: World) {
    Heard(w.server.inner)
  }

  /** Someone other than `tcp` is in `ch` with the UDP address `u`. */
  ghost predicate Shared(i: Inner, tcp: Addr, ch: ChannelId, u: Addr) {
    exists a <- i.clients :: a != tcp && InChannel(i.clients[a], ch) && i.clients[a].udp == Some(u)
  }

  /** Someone is in `ch`, which does not exist, with a registered address. */
  ghost predicate LeftBehind(i: Inner, ch: ChannelId) {
    exists a <- i.clients :: InChannel(i.clients[a], ch) && i.clients[a].udp.Some?
  }

  /** The address of `tcp` is taken out of a channel that lives on, though someone else there uses it too. */
  ghost predicate TakesShared(i: Inner, tcp: Addr) {
    && tcp in i.clients && i.clients[tcp].channel.Some? && i.clients[tcp].udp.Some?
    && var (ch, u) := (i.clients[tcp].channel.value, i.clients[tcp].udp.value);
       ch in i.channels && (Peers(i, ch) - {u} != {} || ch in i.persistent) && Shared(i, tcp, ch, u)
  }

  /** A hello with a known token from its client's IP rebinds an address someone else in the channel uses too. */
  ghost predicate RebindsShared(i: Inner, token: nat, udp: Addr) {
    && token in i.tokens
    && var t := i.tokens[token];
       && Canonical(t.tcp.ip) == Canonical(udp.ip) && t.tcp in i.clients && t.channel in i.channels
       && i.clients[t.tcp].udp.Some? && i.clients[t.tcp].udp.value != udp
       && Shared(i, t.tcp, t.channel, i.clients[t.tcp].udp.value)
  }

  /** There is room for a channel `id`, none exists, and someone registered is still in it. */
  ghost predicate Recreates(i: Inner, id: ChannelId) {
    !Full(|i.channels|, i.limits.maxChannels) && id !in i.channels && LeftBehind(i, id)
  }

  /** The operation silences someone: it takes out a shared address, or re-creates a channel under its members. */
  ghost predicate Mutes(s: Server, op: Op) {
    match op
    case OpLeave(tcp) => TakesShared(s.inner, tcp)
    case OpRemove(tcp) => TakesShared(s.inner, tcp)
    case OpHello(token, udp, _) => RebindsShared(s.inner, token, udp)
    case OpCreate(id, _, _) => Recreates(s.inner, id)
    case OpEcho(tcp, id, _, _, _) => tcp in s.inner.clients && s.inner.clients[tcp].channel == None && Recreates(s.inner, id)
    case _ => false
  }

  /** The client at `tcp` is out of its channel, or gone; nothing else has changed yet. */
  ghost predicate Departed(i: Inner, tcp: Addr, j: Inner) {
    && tcp in i.clients && i.clients[tcp].channel.Some?
    && j.channels == i.channels && j.persistent == i.persistent
    && SameOthers(i.clients, j.clients, tcp) && j.clients.Keys <= i.clients.Keys
    && (tcp in j.clients ==> j.clients[tcp].channel == None)
  }

  lemma VacatedChannels(t: Server, ch: ChannelId, udp: Option<Addr>)
    ensures
      var i, j := t.inner, Vacate(t, ch, udp).inner;
      var peers := if udp.Some? then Peers(i, ch) - {udp.value} else Peers(i, ch);
      && j.clients == i.clients
      && j.channels == if ch !in i.channels then i.channels
                       else if peers == {} && ch !in i.persistent then i.channels - {ch} else i.channels[ch := peers]
  {
    hide Publish, Unpublish;
  }

  lemma VacateMutes(s: Server, tcp: Addr, t: Server)
    requires Departed(s.inner, tcp, t.inner) && TakesShared(s.inner, tcp)
    ensures !Heard(Vacate(t, s.inner.clients[tcp].channel.value, s.inner.clients[tcp].udp).inner)
  {
    var ch, udp := s.inner.clients[tcp].channel.value, s.inner.clients[tcp].udp;
    VacatedChannels(t, ch, udp);
    hide Vacate;
    var a :| a in s.inner.clients && a != tcp && InChannel(s.inner.clients[a], ch) && s.inner.clients[a].udp == udp;
    assert Vacate(t, ch, udp).inner.clients[a] == s.inner.clients[a];
  }

  lemma VacateMutesNobody(s: Server, tcp: Addr, t: Server)
    requires Heard(s.inner) && Departed(s.inner, tcp, t.inner) && !TakesShared(s.inner, tcp)
    ensures Heard(Vacate(t, s.inner.clients[tcp].channel.value, s.inner.clients[tcp].udp).inner)
  {
    var ch, udp := s.inner.clients[tcp].channel.value, s.inner.clients[tcp].udp;
    VacatedChannels(t, ch, udp);
    hide Vacate;
  }

  lemma VacateHeard(s: Server, tcp: Addr, t: Server)
    requires Heard(s.inner) && Departed(s.inner, tcp, t.inner)
    ensures Heard(Vacate(t, s.inner.clients[tcp].channel.value, s.inner.clients[tcp].udp).inner) <==> !TakesShared(s.inner, tcp)
  {
    hide Heard, Vacate, TakesShared, Departed;
    if TakesShared(s.inner, tcp) {
      VacateMutes(s, tcp, t);
    } else {
      VacateMutesNobody(s, tcp, t);
    }
  }

  lemma LeaveHeard(s: Server, tcp: Addr)
    requires Heard(s.inner)
    ensures Heard(Leave(s, tcp).inner) <==> !TakesShared(s.inner, tcp)
  {
    hide Heard, TakesShared, Vacate, WithoutTokensOf;
    var i := s.inner;
    if tcp in i.clients && i.clients[tcp].channel.Some? {
      VacateHeard(s, tcp, s.(inner := i.(
        clients := i.clients[tcp := i.clients[tcp].(channel := None, udp := None)], tokens := WithoutTokensOf(i.tokens, tcp))));
    } else {
      NothingTaken(i, tcp);
    }
  }

  lemma NothingTaken(i: Inner, tcp: Addr)
    requires tcp in i.clients ==> i.clients[tcp].channel == None
    ensures !TakesShared(i, tcp)
  {
  }

  lemma RemoveHeard(s: Server, tcp: Addr)
    requires Heard(s.inner)
    ensures Heard(Remove(s, tcp).inner) <==> !TakesShared(s.inner, tcp)
  {
    hide Heard, TakesShared, Vacate, WithoutTokensOf;
    var i := s.inner;
    if tcp in i.clients {
      var c := i.clients[tcp];
      var index := if c.pubkey.Some? then i.pubkeyIndex - {c.pubkey.value} else i.pubkeyIndex;
      var t := s.(inner := i.(
        clients := i.clients - {tcp}, pubkeyIndex := index, tokens := WithoutTokensOf(i.tokens, tcp)));
      if c.channel.Some? {
        VacateHeard(s, tcp, t);
      } else {
        NothingTaken(i, tcp);
        SameHeard(i, t.inner);
      }
    } else {
      NothingTaken(i, tcp);
    }
  }

  /** No client gains an address or a channel, and no channel changes. */
  lemma SameHeard(i: Inner, j: Inner)
    requires Heard(i) && j.channels == i.channels
    requires forall a | a in j.clients && j.clients[a].channel.Some? && j.clients[a].udp.Some? ::
      a in i.clients && i.clients[a].channel == j.clients[a].channel && i.clients[a].udp == j.clients[a].udp
    ensures Heard(j)
  {
  }

  lemma HelloHeard(s: Server, issued: map<Addr, nat>, token: nat, udp: Addr, now: int)
    requires Heard(s.inner) && TokensMatch(s.inner, issued)
    ensures Heard(Hello(s, token, udp, now).0.inner) <==> !RebindsShared(s.inner, token, udp)
  {
    hide Publish, Canonical;
    var i, j := s.inner, Hello(s, token, udp, now).0.inner;
    if RebindsShared(i, token, udp) {
      var t := i.tokens[token];
      var a :| a in i.clients && a != t.tcp && InChannel(i.clients[a], t.channel) && i.clients[a].udp == i.clients[t.tcp].udp;
      assert j.clients[a] == i.clients[a];
    } else if Hello(s, token, udp, now).1 {
      var t := i.tokens[token];
      assert InChannel(i.clients[t.tcp], t.channel);
      hide TokensMatch;
    }
  }

  lemma CreateHeard(i: Inner, id: ChannelId, key: Bytes, now: int)
    requires Heard(i) && id !in i.channels
    ensures Heard(AddChannel(i, id, key, now)) <==> !LeftBehind(i, id)
  {
  }

  /** A client that was in no channel, and so has no address, enters one. */
  lemma EnterHeard(i: Inner, tcp: Addr, ch: ChannelId, token: nat, now: int)
    requires tcp in i.clients && i.clients[tcp].udp == None
    ensures Heard(Enter(i, tcp, ch, token, now)) <==> Heard(i)
  {
    var j := Enter(i, tcp, ch, token, now);
    assert forall a | a in i.clients && a != tcp :: j.clients[a] == i.clients[a];
  }

  /** After any operation every registered member is heard if and only if the operation mutes nobody. */
  lemma ApplyHeardExactly(w: World, op: Op)
    requires Invariant(w) && Enabled(w.server, op) && Heard(w.server.inner)
    ensures Heard(Apply(w.server, op).inner) <==> !Mutes(w.server, op)
  {
    var s, i := w.server, w.server.inner;
    hide Heard, TakesShared, RebindsShared, LeftBehind, Leave, Remove, Hello, Publish, CacheCoherent, PeersAreMembers,
      ChannelsKeyed, KeysCurrent, IndexSound, Enter, AddChannel;
    match op
    case OpLeave(tcp) => LeaveHeard(s, tcp);
    case OpRemove(tcp) => RemoveHeard(s, tcp);
    case OpHello(token, udp, now) => HelloHeard(s, w.issued, token, udp, now);
    case OpCreate(id, key, now) =>
      if id !in i.channels {
        CreateHeard(i, id, key, now);
      }
    case OpEcho(tcp, id, token, key, now) =>
      hide TokensMatch;
      CreateHeard(i, id, key, now);
      if tcp in i.clients && i.clients[tcp].channel == None {
        AddKeeps(i, id, key, now);
        EnterHeard(AddChannel(i, id, key, now), tcp, id, token, now);
      }
    case _ =>
      hide TokensMatch, SameSource, Apply;
      OthersHeard(w, op);
  }

  lemma AddKeeps(i: Inner, id: ChannelId, key: Bytes, now: int)
    ensures AddChannel(i, id, key, now).clients == i.clients
  {
  }

  lemma OthersHeard(w: World, op: Op)
    requires SameSource(w.server.inner) && Enabled(w.server, op) && Heard(w.server.inner)
    requires !op.OpLeave? && !op.OpRemove? && !op.OpHello? && !op.OpCreate? && !op.OpEcho?
    ensures Heard(Apply(w.server, op).inner)
  {
    hide Survives, Canonical, Full;
  }

  lemma EmptyHeard(limits: Limits)
    ensures Heard(Empty(limits).inner)
  {
  }

  ghost predicate MutesIn(w: World, op: Op) {
    Mutes(w.server, op)
  }

  /** Over any run: every registered member of an existing channel is always among its peers if and only if no operation mutes anyone. */
  lemma RunHeardExactly(limits: Limits, ops: seq<Op>)
    requires Legal(limits, ops)
    ensures Always(limits, ops, EveryoneHeard) <==> Never(limits, ops, MutesIn)
  {
    hide Heard, Mutes, Enabled, Apply, Invariant;
    forall w: World, op: Op | Invariant(w) && Enabled(w.server, op) && EveryoneHeard(w)
      ensures EveryoneHeard(Next(w, op)) <==> !MutesIn(w, op)
    {
      ApplyHeardExactly(w, op);
    }
    EmptyHeard(limits);
    RunExactly(limits, ops, EveryoneHeard, MutesIn);
  }

  /** After a run that mutes nobody, a relay finds exactly the registered members of an existing channel, minus the sender. */
  lemma RelayFindsMembers(limits: Limits, ops: seq<Op>, ch: ChannelId, exclude: Addr, u: Addr)
    requires Legal(limits, ops) && Never(limits, ops, MutesIn)
    requires ch in Run(limits, ops).server.inner.channels
    ensures
      var s := Run(limits, ops).server;
      u in FillPeers(s.cache, ch, exclude) <==> u != exclude && Member(s.inner.clients, ch, u)
  {
    ReachableInvariant(limits, ops);
    RunHeardExactly(limits, ops);
    var s := Run(limits, ops).server;
    assert ops[..|ops|] == ops;
    assert EveryoneHeard(Run(limits, ops));
    assert LoadCell(s.cache, LoadOuter(s.cache, ch)) == Peers(s.inner, ch);
    hide Run, Legal, Never, Always;
  }

  // ── a run that silences someone ──

  const SOCKET := Addr(V4(1), 9)

  /** A server whose one channel is a persistent lobby. */
  ghost predicate Lobby(i: Inner, clients: map<Addr, Client>, peers: set<Addr>, tokens: map<nat, Addr>) {
    && i.limits == UNLIMITED && i.clients == clients
    && i.channels == map["lobby" := peers] && i.persistent == {"lobby"}
    && i.tokens.Keys == tokens.Keys
    && (forall t <- tokens :: i.tokens[t].tcp == tokens[t] && i.tokens[t].channel == "lobby")
  }

  function In(udp: Option<Addr>): Client {
    Client("user", Some("lobby"), udp, None)
  }

  const OUTSIDE := Client("user", None, None, None)

  lemma LobbyCreate()
    ensures Enabled(Empty(UNLIMITED), OpCreatePersistent("lobby", [], 0))
    ensures Lobby(Apply(Empty(UNLIMITED), OpCreatePersistent("lobby", [], 0)).inner, map[], {}, map[])
  {
  }

  lemma LobbyRegister(s: Server, tcp: Addr, clients: map<Addr, Client>, tokens: map<nat, Addr>)
    requires Lobby(s.inner, clients, {}, tokens) && tcp !in clients
    ensures Enabled(s, OpRegister(tcp, User))
    ensures Lobby(Apply(s, OpRegister(tcp, User)).inner, clients[tcp := OUTSIDE], {}, tokens)
  {
  }

  lemma LobbyEnter(s: Server, tcp: Addr, token: nat, clients: map<Addr, Client>, tokens: map<nat, Addr>)
    requires Lobby(s.inner, clients, {}, tokens) && tcp in clients && clients[tcp] == OUTSIDE
    requires token != 0 && token !in tokens
    ensures Enabled(s, OpJoin(tcp, "lobby", token, [], 0))
    ensures Lobby(Apply(s, OpJoin(tcp, "lobby", token, [], 0)).inner, clients[tcp := In(None)], {}, tokens[token := tcp])
  {
    hide Occupied;
  }

  lemma LobbyJoin(s: Server, tcp: Addr, token: nat, clients: map<Addr, Client>, tokens: map<nat, Addr>)
    requires Lobby(s.inner, clients, {}, tokens) && tcp !in clients && token != 0 && token !in tokens
    ensures
      var t := Apply(s, OpRegister(tcp, User));
      && Enabled(s, OpRegister(tcp, User)) && Enabled(t, OpJoin(tcp, "lobby", token, [], 0))
      && Lobby(Apply(t, OpJoin(tcp, "lobby", token, [], 0)).inner, clients[tcp := In(None)], {}, tokens[token := tcp])
  {
    hide Apply, Enabled, Lobby;
    LobbyRegister(s, tcp, clients, tokens);
    LobbyEnter(Apply(s, OpRegister(tcp, User)), tcp, token, clients[tcp := OUTSIDE], tokens);
    assert clients[tcp := OUTSIDE][tcp := In(None)] == clients[tcp := In(None)];
  }

  lemma LobbyHello(s: Server, token: nat, clients: map<Addr, Client>, peers: set<Addr>, tokens: map<nat, Addr>)
    requires Lobby(s.inner, clients, peers, tokens) && token in tokens && tokens[token] in clients
    requires clients[tokens[token]] == In(None) && Canonical(tokens[token].ip) == Canonical(SOCKET.ip)
    ensures Enabled(s, OpHello(token, SOCKET, 0))
    ensures Lobby(Apply(s, OpHello(token, SOCKET, 0)).inner, clients[tokens[token] := In(Some(SOCKET))], peers + {SOCKET}, tokens)
  {
    hide Canonical, Publish;
  }

  lemma LobbyLeave(s: Server, clients: map<Addr, Client>, tokens: map<nat, Addr>)
    requires Lobby(s.inner, clients, {SOCKET}, tokens) && ALICE in clients && BOB in clients
    requires clients[ALICE] == In(Some(SOCKET)) && clients[BOB] == In(Some(SOCKET))
    ensures Enabled(s, OpLeave(ALICE)) && !Heard(Apply(s, OpLeave(ALICE)).inner)
  {
    hide Publish, Unpublish, WithoutTokensOf;
    var j := Leave(s, ALICE).inner;
    assert j.clients[BOB] == In(Some(SOCKET)) && SOCKET !in j.channels["lobby"];
  }

  /**
   Two clients of one IP say hello from the same UDP address, and one of them
   leaves a lobby: the other stays a registered member nobody sends to.
   */
  lemma SomeoneMuted() returns (ops: seq<Op>)
    ensures Legal(UNLIMITED, ops) && !EveryoneHeard(Run(UNLIMITED, ops))
  {
    hide Run, Legal, Apply, Lobby, Enabled, Heard;
    var alice, both := map[ALICE := In(None)], map[ALICE := In(None), BOB := In(None)];
    var one := map[ALICE := In(Some(SOCKET)), BOB := In(None)];
    var tokens := map[1 := ALICE, 2 := BOB];
    ops := [];
    LobbyStart();
    LobbyCreate();
    ops := Extend(UNLIMITED, ops, OpCreatePersistent("lobby", [], 0));
    LobbyJoin(Run(UNLIMITED, ops).server, ALICE, 1, map[], map[]);
    ops := Extend(UNLIMITED, ops, OpRegister(ALICE, User));
    ops := Extend(UNLIMITED, ops, OpJoin(ALICE, "lobby", 1, [], 0));
    LobbyJoin(Run(UNLIMITED, ops).server, BOB, 2, alice, map[1 := ALICE]);
    ops := Extend(UNLIMITED, ops, OpRegister(BOB, User));
    ops := Extend(UNLIMITED, ops, OpJoin(BOB, "lobby", 2, [], 0));
    assert alice[BOB := In(None)] == both && map[1 := ALICE][2 := BOB] == tokens;
    LobbyHello(Run(UNLIMITED, ops).server, 1, both, {}, tokens);
    ops := Extend(UNLIMITED, ops, OpHello(1, SOCKET, 0));
    assert both[ALICE := In(Some(SOCKET))] == one && {} + {SOCKET} == {SOCKET};
    LobbyHello(Run(UNLIMITED, ops).server, 2, one, {SOCKET}, tokens);
    ops := Extend(UNLIMITED, ops, OpHello(2, SOCKET, 0));
    assert {SOCKET} + {SOCKET} == {SOCKET};
    LobbyLeave(Run(UNLIMITED, ops).server, one[BOB := In(Some(SOCKET))], tokens);
    ops := Extend(UNLIMITED, ops, OpLeave(ALICE));
  }

  lemma LobbyStart()
    ensures Legal(UNLIMITED, []) && Run(UNLIMITED, []).server == Empty(UNLIMITED)
  {
  }
}
