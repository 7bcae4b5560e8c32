/** What every server operation keeps, and what therefore holds in every reachable state. */
module ServerInvariants {
  import opened Wrappers
  import opened Server

  /** Every operation, with what it draws and reads from the clock. */
  datatype Op =
    | OpRegister(tcp: Addr, name: nat -> string)
    | OpSetPubkey(tcp: Addr, pk: Bytes)
    | OpRename(tcp: Addr, newName: string)
    | OpCreate(id: ChannelId, key: Bytes, now: int)
    | OpCreatePersistent(id: ChannelId, key: Bytes, now: int)
    | OpJoin(tcp: Addr, ch: ChannelId, token: nat, key: Bytes, now: int)
    | OpEcho(tcp: Addr, id: ChannelId, token: nat, key: Bytes, now: int)
    | OpLeave(tcp: Addr)
    | OpRemove(tcp: Addr)
    | OpHello(hello: nat, udp: Addr, now: int)
    | OpCleanup(now: int, grace: int, ttl: int)

  /**
   The server with what it has told its clients: the token and the voice key
   each client was last handed.
   */
  datatype World = World(server: Server, issued: map<Addr, nat>, handed: map<Addr, Bytes>)

  /**
   What the callers and the random draws guarantee: a TCP address registers
   once, persistent channels are created before anyone is in them, and drawn
   tokens and echo ids are not in use.
   */
  ghost predicate Enabled(s: Server, op: Op) {
    match op
    case OpRegister(tcp, _) => tcp !in s.inner.clients
    case OpCreatePersistent(id, _, _) => !Occupied(s.inner, id)
    case OpJoin(_, _, token, _, _) => token != 0 && token !in s.inner.tokens
    case OpEcho(_, id, token, _, _) => token != 0 && token !in s.inner.tokens && id !in s.inner.channels
    case _ => true
  }

  function Apply(s: Server, op: Op): Server {
    match op
    case OpRegister(tcp, name) => Register(s, tcp, name).0
    case OpSetPubkey(tcp, pk) => SetPubkey(s, tcp, pk)
    case OpRename(tcp, newName) => Rename(s, tcp, newName)
    case OpCreate(id, key, now) => Create(s, id, key, now).0
    case OpCreatePersistent(id, key, now) => CreatePersistent(s, id, key, now).0
    case OpJoin(tcp, ch, token, key, now) => Join(s, tcp, ch, token, key, now).0
    case OpEcho(tcp, id, token, key, now) => StartEcho(s, tcp, id, token, key, now).0
    case OpLeave(tcp) => Leave(s, tcp)
    case OpRemove(tcp) => Remove(s, tcp)
    case OpHello(token, udp, now) => Hello(s, token, udp, now).0
    case OpCleanup(now, grace, ttl) => Cleanup(s, now, grace, ttl)
  }

  /** What the client of `op` is told. */
  function Answer(s: Server, op: Op): Result<Joined> {
    match op
    case OpJoin(tcp, ch, token, key, now) => Join(s, tcp, ch, token, key, now).1
    case OpEcho(tcp, id, token, key, now) => StartEcho(s, tcp, id, token, key, now).1
    case _ => Err(NotFound)
  }

  function Next(w: World, op: Op): World {
    var r := Answer(w.server, op);
    if r.Ok? then World(Apply(w.server, op), w.issued[op.tcp := r.value.token], w.handed[op.tcp := r.value.key])
    else w.(server := Apply(w.server, op))
  }

  // ── the invariants ──

  /** The cache agrees with the authoritative sets; its cells are distinct and in use. */
  ghost predicate CacheCoherent(s: Server) {
    && (forall ch :: LoadCell(s.cache, LoadOuter(s.cache, ch)) == Peers(s.inner, ch))
    && CellsSound(s.cache)
  }

  ghost predicate CellsSound(c: Cache) {
    && (forall ch <- c.outer :: c.outer[ch] in c.cells)
    && (forall cell <- c.cells :: cell < c.nextCell)
    && (forall a, b | a in c.outer && b in c.outer && a != b :: c.outer[a] != c.outer[b])
  }

  /** Tokens and in-channel clients match one to one: each such client owns the token it was issued, which names its channel. */
  ghost predicate TokensMatch(i: Inner, issued: map<Addr, nat>) {
    && (forall a | a in i.clients && i.clients[a].channel.Some? ::
         a in issued && issued[a] in i.tokens && i.tokens[issued[a]].tcp == a)
    && (forall t <- i.tokens ::
         var tcp := i.tokens[t].tcp;
         tcp in i.clients && InChannel(i.clients[tcp], i.tokens[t].channel) && tcp in issued && issued[tcp] == t)
  }

  /** `u` is the UDP address of a client that is now in `ch`. */
  ghost predicate Member(clients: map<Addr, Client>, ch: ChannelId, u: Addr) {
    exists a <- clients :: InChannel(clients[a], ch) && clients[a].udp == Some(u)
  }

  ghost predicate PeersAreMembers(i: Inner) {
    forall ch, u | ch in i.channels && u in i.channels[ch] :: Member(i.clients, ch, u)
  }

  /** A registered UDP address belongs to a client in a channel and has the IP of its TCP session. */
  ghost predicate SameSource(i: Inner) {
    forall a | a in i.clients && i.clients[a].udp.Some? ::
      i.clients[a].channel.Some? && Canonical(i.clients[a].udp.value.ip) == Canonical(a.ip)
  }

  /** Every channel has a key and a creation time; persistent channels exist. */
  ghost predicate ChannelsKeyed(i: Inner) {
    i.keys.Keys == i.channels.Keys && i.createdAt.Keys == i.channels.Keys && i.persistent <= i.channels.Keys
  }

  /** Every client in a persistent channel was handed the key the channel has now. */
  ghost predicate KeysCurrent(i: Inner, handed: map<Addr, Bytes>) {
    forall a, ch | a in i.clients && InChannel(i.clients[a], ch) && ch in i.persistent && ch in i.keys ::
      a in handed && handed[a] == i.keys[ch]
  }

  /** The key index never points at a client without that key. */
  ghost predicate IndexSound(i: Inner) {
    forall pk <- i.pubkeyIndex :: i.pubkeyIndex[pk] in i.clients && i.clients[i.pubkeyIndex[pk]].pubkey == Some(pk)
  }

  ghost predicate Invariant(w: World) {
    var i := w.server.inner;
    && CacheCoherent(w.server)
    && TokensMatch(i, w.issued)
    && PeersAreMembers(i)
    && SameSource(i)
    && ChannelsKeyed(i)
    && KeysCurrent(i, w.handed)
    && IndexSound(i)
  }

  // ── the cache ──

  lemma PublishCoherent(s: Server, t: Server, ch: ChannelId, peers: set<Addr>)
    requires CacheCoherent(s) && t.cache == Publish(s.cache, ch, peers)
    requires Peers(t.inner, ch) == peers
    requires forall other | other != ch :: Peers(t.inner, other) == Peers(s.inner, other)
    ensures CacheCoherent(t)
  {
    forall other
      ensures LoadCell(t.cache, LoadOuter(t.cache, other)) == Peers(t.inner, other)
    {
      assert LoadCell(s.cache, LoadOuter(s.cache, other)) == Peers(s.inner, other);
    }
  }

  lemma UnpublishCoherent(s: Server, t: Server, ch: ChannelId)
    requires CacheCoherent(s) && t.cache == Unpublish(s.cache, ch)
    requires Peers(t.inner, ch) == {}
    requires forall other | other != ch :: Peers(t.inner, other) == Peers(s.inner, other)
    ensures CacheCoherent(t)
  {
    forall other
      ensures LoadCell(t.cache, LoadOuter(t.cache, other)) == Peers(t.inner, other)
    {
      assert LoadCell(s.cache, LoadOuter(s.cache, other)) == Peers(s.inner, other);
    }
  }

  /** An operation that leaves the cache alone leaves every peer set alone. */
  lemma UntouchedCoherent(s: Server, t: Server)
    requires CacheCoherent(s) && t.cache == s.cache
    requires forall ch :: Peers(t.inner, ch) == Peers(s.inner, ch)
    ensures CacheCoherent(t)
  {
    forall ch
      ensures LoadCell(t.cache, LoadOuter(t.cache, ch)) == Peers(t.inner, ch)
    {
      assert LoadCell(s.cache, LoadOuter(s.cache, ch)) == Peers(s.inner, ch);
    }
  }

  lemma VacateCoherent(s: Server, ch: ChannelId, udp: Option<Addr>)
    requires CacheCoherent(s)
    ensures CacheCoherent(Vacate(s, ch, udp))
  {
    hide CacheCoherent, Publish, Unpublish;
    var t := Vacate(s, ch, udp);
    var peers := Peers(t.inner, ch);
    assert forall other | other != ch :: Peers(t.inner, other) == Peers(s.inner, other);
    if t.cache == Unpublish(s.cache, ch) && ch !in t.inner.channels {
      UnpublishCoherent(s, t, ch);
    } else {
      PublishCoherent(s, t, ch, peers);
    }
  }

  /** After every operation the cache equals the authoritative peer sets. */
  lemma ApplyCoherent(s: Server, op: Op)
    requires CacheCoherent(s) && Enabled(s, op)
    ensures CacheCoherent(Apply(s, op))
  {
    hide CacheCoherent, Publish, Unpublish;
    var t := Apply(s, op);
    match op
    case OpLeave(tcp) =>
      LeaveCoherent(s, tcp);
    case OpRemove(tcp) =>
      RemoveCoherent(s, tcp);
    case OpHello(token, udp, now) =>
      HelloCoherent(s, token, udp, now);
    case _ =>
      UntouchedCoherent(s, t);
  }

  lemma LeaveCoherent(s: Server, tcp: Addr)
    requires CacheCoherent(s)
    ensures CacheCoherent(Leave(s, tcp))
  {
    hide CacheCoherent, Publish, Unpublish, Vacate;
    var i := s.inner;
    if tcp in i.clients && i.clients[tcp].channel.Some? {
      var c := i.clients[tcp];
      var t := s.(inner := i.(
        clients := i.clients[tcp := c.(channel := None, udp := None)], tokens := WithoutTokensOf(i.tokens, tcp)));
      UntouchedCoherent(s, t);
      VacateCoherent(t, c.channel.value, c.udp);
    }
  }

  lemma RemoveCoherent(s: Server, tcp: Addr)
    requires CacheCoherent(s)
    ensures CacheCoherent(Remove(s, tcp))
  {
    hide CacheCoherent, Publish, Unpublish, Vacate;
    var i := s.inner;
    if tcp in i.clients {
      var c := i.clients[tcp];
      var index := if c.pubkey.Some? then i.pubkeyIndex - {c.pubkey.value} else i.pubkeyIndex;
      var t := s.(inner := i.(
        clients := i.clients - {tcp}, pubkeyIndex := index, tokens := WithoutTokensOf(i.tokens, tcp)));
      UntouchedCoherent(s, t);
      if c.channel.Some? {
        VacateCoherent(t, c.channel.value, c.udp);
      }
    }
  }

  lemma HelloCoherent(s: Server, token: nat, udp: Addr, now: int)
    requires CacheCoherent(s)
    ensures CacheCoherent(Hello(s, token, udp, now).0)
  {
    hide CacheCoherent, Publish, Unpublish, Canonical;
    var (t, ok) := Hello(s, token, udp, now);
    if ok {
      var ch := s.inner.tokens[token].channel;
      PublishCoherent(s, t, ch, Peers(t.inner, ch));
    } else {
      UntouchedCoherent(s, t);
    }
  }
}
