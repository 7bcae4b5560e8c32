/**
 The server's session state as step functions: clients, channels, hello
 tokens, voice keys, and the peer cache the relay reads without a lock.
 Random draws (ids, tokens, keys) and the clock are parameters.
 */
module Server {
  import opened Wrappers

  datatype Ip = V4(bits: nat) | V6(bits: nat)
  datatype Addr = Addr(ip: Ip, port: nat)
  type ChannelId = string
  type Bytes = seq<bv8>

  /** A v4-mapped v6 address is the v4 address it maps. */
  function Canonical(ip: Ip): Ip {
    match ip
    case V4(_) => ip
    case V6(bits) => if bits / 0x1_0000_0000 == 0xFFFF then V4(bits % 0x1_0000_0000) else ip
  }

  datatype Client = Client(name: string, channel: Option<ChannelId>, udp: Option<Addr>, pubkey: Option<Bytes>)
  datatype Token = Token(tcp: Addr, channel: ChannelId, created: int)
  datatype Limits = Limits(maxChannels: nat, maxClients: nat)

  datatype Inner = Inner(
    channels: map<ChannelId, set<Addr>>,
    clients: map<Addr, Client>,
    pubkeyIndex: map<Bytes, Addr>,
    keys: map<ChannelId, Bytes>,
    createdAt: map<ChannelId, int>,
    persistent: set<ChannelId>,
    tokens: map<nat, Token>,
    nameCounter: nat,
    limits: Limits)

  /**
   The two-level cache: the outer map names a cell for each channel, a cell
   holds the channel's peers. A replaced or removed outer map lives on for the
   readers that loaded it, and so do its cells; `nextCell` is unused so far.
   */
  datatype Cache = Cache(outer: map<ChannelId, nat>, cells: map<nat, set<Addr>>, nextCell: nat)

  datatype Server = Server(inner: Inner, cache: Cache)

  function Empty(limits: Limits): Server {
    Server(Inner(map[], map[], map[], map[], map[], {}, map[], 0, limits), Cache(map[], map[], 0))
  }

  /** The authoritative peers of a channel; a missing channel has none. */
  function Peers(i: Inner, ch: ChannelId): set<Addr> {
    if ch in i.channels then i.channels[ch] else {}
  }

  predicate InChannel(c: Client, ch: ChannelId) {
    c.channel == Some(ch)
  }

  predicate Occupied(i: Inner, ch: ChannelId) {
    exists a <- i.clients :: InChannel(i.clients[a], ch)
  }

  /** Swap a channel's cell, or add one to a copy of the outer map. */
  function Publish(c: Cache, ch: ChannelId, peers: set<Addr>): Cache {
    if ch in c.outer then c.(cells := c.cells[c.outer[ch] := peers])
    else Cache(c.outer[ch := c.nextCell], c.cells[c.nextCell := peers], c.nextCell + 1)
  }

  /** Drop a channel from a copy of the outer map; its cell keeps its last peers. */
  function Unpublish(c: Cache, ch: ChannelId): Cache {
    c.(outer := c.outer - {ch})
  }

  function WithoutTokensOf(tokens: map<nat, Token>, tcp: Addr): map<nat, Token> {
    map t | t in tokens && tokens[t].tcp != tcp :: tokens[t]
  }

  function Full(count: nat, max: nat): bool {
    max > 0 && count >= max
  }

  datatype Error = ServerFull | ChannelLimit | ChannelExists | NotFound | NotRegistered | AlreadyInChannel
  datatype Result<T> = Ok(value: T) | Err(error: Error)

  function Register(s: Server, tcp: Addr, name: nat -> string): (Server, Result<string>) {
    var i := s.inner;
    if Full(|i.clients|, i.limits.maxClients) then (s, Err(ServerFull))
    else
      var n := name(i.nameCounter + 1);
      (s.(inner := i.(nameCounter := i.nameCounter + 1, clients := i.clients[tcp := Client(n, None, None, None)])), Ok(n))
  }

  function SetPubkey(s: Server, tcp: Addr, pk: Bytes): Server {
    var i := s.inner;
    if tcp !in i.clients then s
    else
      var previous := i.clients[tcp].pubkey;
      var index := if previous.Some? && previous.value != pk then i.pubkeyIndex - {previous.value} else i.pubkeyIndex;
      s.(inner := i.(clients := i.clients[tcp := i.clients[tcp].(pubkey := Some(pk))], pubkeyIndex := index[pk := tcp]))
  }

  function Rename(s: Server, tcp: Addr, name: string): Server {
    if tcp !in s.inner.clients then s
    else s.(inner := s.inner.(clients := s.inner.clients[tcp := s.inner.clients[tcp].(name := name)]))
  }

  /** A new channel `id` with a fresh key. */
  function AddChannel(i: Inner, id: ChannelId, key: Bytes, now: int): Inner {
    i.(channels := i.channels[id := {}], keys := i.keys[id := key], createdAt := i.createdAt[id := now])
  }

  /** Create `id`: a name that is taken is refused (a drawn id never is). */
  function Create(s: Server, id: ChannelId, key: Bytes, now: int): (Server, Result<ChannelId>) {
    if Full(|s.inner.channels|, s.inner.limits.maxChannels) then (s, Err(ChannelLimit))
    else if id in s.inner.channels then (s, Err(ChannelExists))
    else (s.(inner := AddChannel(s.inner, id, key, now)), Ok(id))
  }

  function CreatePersistent(s: Server, id: ChannelId, key: Bytes, now: int): (Server, Result<ChannelId>) {
    var (t, r) := Create(s, id, key, now);
    if r.Ok? then (t.(inner := t.inner.(persistent := t.inner.persistent + {id})), r) else (t, r)
  }

  /** The client enters the channel and is issued a token for it. */
  function Enter(i: Inner, tcp: Addr, ch: ChannelId, token: nat, now: int): Inner
    requires tcp in i.clients
  {
    i.(clients := i.clients[tcp := i.clients[tcp].(channel := Some(ch))], tokens := i.tokens[token := Token(tcp, ch, now)])
  }

  datatype Joined = Joined(token: nat, key: Bytes)

  /** The first client into an empty persistent channel rotates its key. */
  function RotateKey(i: Inner, ch: ChannelId, key: Bytes): Inner {
    if !Occupied(i, ch) && ch in i.persistent then i.(keys := i.keys[ch := key]) else i
  }

  function Join(s: Server, tcp: Addr, ch: ChannelId, token: nat, key: Bytes, now: int): (Server, Result<Joined>) {
    var i := s.inner;
    if ch !in i.channels then (s, Err(NotFound))
    else if tcp !in i.clients then (s, Err(NotRegistered))
    else if i.clients[tcp].channel.Some? then (s, Err(AlreadyInChannel))
    else
      var rotated := RotateKey(i, ch, key);
      var handed := if ch in rotated.keys then rotated.keys[ch] else [];
      (s.(inner := Enter(rotated, tcp, ch, token, now)), Ok(Joined(token, handed)))
  }

  /** An ephemeral channel of one's own; `id` is a drawn id that is not taken. */
  function StartEcho(s: Server, tcp: Addr, id: ChannelId, token: nat, key: Bytes, now: int): (Server, Result<Joined>) {
    var i := s.inner;
    if Full(|i.channels|, i.limits.maxChannels) then (s, Err(ChannelLimit))
    else if tcp !in i.clients then (s, Err(NotRegistered))
    else if i.clients[tcp].channel.Some? then (s, Err(AlreadyInChannel))
    else (s.(inner := Enter(AddChannel(i, id, key, now), tcp, id, token, now)), Ok(Joined(token, key)))
  }

  /**
   A client with UDP address `udp` has left `ch`: an emptied channel that is
   not persistent is destroyed, otherwise its peers are published.
   */
  function Vacate(s: Server, ch: ChannelId, udp: Option<Addr>): Server {
    var i := s.inner;
    var peers := if udp.Some? then Peers(i, ch) - {udp.value} else Peers(i, ch);
    if ch !in i.channels then s.(cache := Publish(s.cache, ch, {}))
    else if peers == {} && ch !in i.persistent then
      Server(i.(channels := i.channels - {ch}, keys := i.keys - {ch}, createdAt := i.createdAt - {ch}), Unpublish(s.cache, ch))
    else
      Server(i.(channels := i.channels[ch := peers]), Publish(s.cache, ch, peers))
  }

  function Remove(s: Server, tcp: Addr): Server {
    var i := s.inner;
    if tcp !in i.clients then s
    else
      var c := i.clients[tcp];
      var index := if c.pubkey.Some? then i.pubkeyIndex - {c.pubkey.value} else i.pubkeyIndex;
      var t := s.(inner := i.(clients := i.clients - {tcp}, pubkeyIndex := index, tokens := WithoutTokensOf(i.tokens, tcp)));
      if c.channel.Some? then Vacate(t, c.channel.value, c.udp) else t
  }

  function Leave(s: Server, tcp: Addr): Server {
    var i := s.inner;
    if tcp !in i.clients || i.clients[tcp].channel == None then s
    else
      var c := i.clients[tcp];
      var t := s.(inner := i.(
        clients := i.clients[tcp := c.(channel := None, udp := None)],
        tokens := WithoutTokensOf(i.tokens, tcp)));
      Vacate(t, c.channel.value, c.udp)
  }

  /** A UDP hello: accepted for a live token from the IP of its TCP session; it replaces the previous address. */
  function Hello(s: Server, token: nat, udp: Addr, now: int): (Server, bool) {
    var i := s.inner;
    if token !in i.tokens then (s, false)
    else
      var t := i.tokens[token];
      if Canonical(t.tcp.ip) != Canonical(udp.ip) then (s, false)
      else
        var refreshed := i.(tokens := i.tokens[token := t.(created := now)]);
        if t.tcp !in i.clients then (s.(inner := refreshed), false)
        else
          var prev := i.clients[t.tcp].udp;
          var clients := i.clients[t.tcp := i.clients[t.tcp].(udp := Some(udp))];
          var kept := if prev.Some? && prev.value != udp then Peers(i, t.channel) - {prev.value} else Peers(i, t.channel);
          var channels := if t.channel in i.channels then i.channels[t.channel := kept + {udp}] else i.channels;
          var after := refreshed.(clients := clients, channels := channels);
          (Server(after, Publish(s.cache, t.channel, Peers(after, t.channel))), true)
  }

  /** The channels a cleanup at `now` reaps. */
  function Reaped(i: Inner, now: int, grace: int): set<ChannelId> {
    set ch | ch in i.channels && i.channels[ch] == {} && !Occupied(i, ch) && ch !in i.persistent
      && (ch in i.createdAt ==> now - i.createdAt[ch] > grace)
  }

  /** A token survives a cleanup while its client is in its channel, or while it is young. */
  predicate Survives(i: Inner, t: Token, now: int, ttl: int) {
    (t.tcp in i.clients && InChannel(i.clients[t.tcp], t.channel)) || now - t.created < ttl
  }

  function Cleanup(s: Server, now: int, grace: int, ttl: int): Server {
    var i := s.inner;
    var reaped := Reaped(i, now, grace);
    s.(inner := i.(
      channels := i.channels - reaped, keys := i.keys - reaped, createdAt := i.createdAt - reaped,
      tokens := map t | t in i.tokens && i.tokens[t].channel !in reaped && Survives(i, i.tokens[t], now, ttl) :: i.tokens[t]))
  }

  /** What a relay worker reads: the cell of a channel in the outer map, then that cell. */
  function LoadOuter(c: Cache, ch: ChannelId): Option<nat> {
    if ch in c.outer then Some(c.outer[ch]) else None
  }

  function LoadCell(c: Cache, cell: Option<nat>): set<Addr> {
    if cell.Some? && cell.value in c.cells then c.cells[cell.value] else {}
  }

  /** The relay's peer list when nothing else runs. */
  function FillPeers(c: Cache, ch: ChannelId, exclude: Addr): set<Addr> {
    LoadCell(c, LoadOuter(c, ch)) - {exclude}
  }
}
