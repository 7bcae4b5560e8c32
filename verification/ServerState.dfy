/**
 The server state as it is kept: maps updated in place under the write lock,
 and a cache whose cells are swapped. Every operation is proved against `Server`.
 */
module ServerStates {
  import opened Wrappers
  import opened Server
  import Spec = Server

  class ServerState {
    var channels: map<ChannelId, set<Addr>>
    var clients: map<Addr, Client>
    var pubkeyIndex: map<Bytes, Addr>
    var channelKeys: map<ChannelId, Bytes>
    var createdAt: map<ChannelId, int>
    var persistent: set<ChannelId>
    var udpTokens: map<nat, Token>
    var nameCounter: nat
    const limits: Limits
    /** The peer cache: the outer map, and every cell ever allocated. */
    var outer: map<ChannelId, nat>
    var cells: map<nat, set<Addr>>
    var nextCell: nat

    ghost function View(): Server
      reads this
    {
      Server(
        Inner(channels, clients, pubkeyIndex, channelKeys, createdAt, persistent, udpTokens, nameCounter, limits),
        Cache(outer, cells, nextCell))
    }

    constructor (limits: Limits)
      ensures View() == Empty(limits)
    {
      this.limits := limits;
      channels, clients, pubkeyIndex, channelKeys, createdAt := map[], map[], map[], map[], map[];
      persistent, udpTokens, nameCounter := {}, map[], 0;
      outer, cells, nextCell := map[], map[], 0;
    }

    method RegisterClient(tcp: Addr, format: nat -> string) returns (r: Result<string>)
      modifies this
      ensures (View(), r) == Register(old(View()), tcp, format)
    {
      if limits.maxClients > 0 && |clients| >= limits.maxClients {
        return Err(ServerFull);
      }
      nameCounter := nameCounter + 1;
      var name := format(nameCounter);
      clients := clients[tcp := Client(name, None, None, None)];
      return Ok(name);
    }

    method SetPubkey(tcp: Addr, pk: Bytes)
      modifies this
      ensures View() == Spec.SetPubkey(old(View()), tcp, pk)
    {
      if tcp in clients {
        var previous := clients[tcp].pubkey;
        clients := clients[tcp := clients[tcp].(pubkey := Some(pk))];
        if previous.Some? && previous.value != pk {
          pubkeyIndex := pubkeyIndex - {previous.value};
        }
        pubkeyIndex := pubkeyIndex[pk := tcp];
      }
    }

    method RenameClient(tcp: Addr, name: string)
      modifies this
      ensures View() == Rename(old(View()), tcp, name)
    {
      if tcp in clients {
        clients := clients[tcp := clients[tcp].(name := name)];
      }
    }

    method CreateChannel(id: ChannelId, key: Bytes, now: int) returns (r: Result<ChannelId>)
      modifies this
      ensures (View(), r) == Create(old(View()), id, key, now)
    {
      if limits.maxChannels > 0 && |channels| >= limits.maxChannels {
        return Err(ChannelLimit);
      }
      if id in channels {
        return Err(ChannelExists);
      }
      channels := channels[id := {}];
      channelKeys := channelKeys[id := key];
      createdAt := createdAt[id := now];
      return Ok(id);
    }

    method CreatePersistentChannel(id: ChannelId, key: Bytes, now: int) returns (r: Result<ChannelId>)
      modifies this
      ensures (View(), r) == CreatePersistent(old(View()), id, key, now)
    {
      r := CreateChannel(id, key, now);
      if r.Ok? {
        persistent := persistent + {id};
      }
    }

    method JoinChannel(tcp: Addr, ch: ChannelId, token: nat, key: Bytes, now: int) returns (r: Result<Joined>)
      modifies this
      ensures (View(), r) == Join(old(View()), tcp, ch, token, key, now)
    {
      if ch !in channels {
        return Err(NotFound);
      }
      if tcp !in clients {
        return Err(NotRegistered);
      }
      if clients[tcp].channel.Some? {
        return Err(AlreadyInChannel);
      }
      var occupied := exists a <- clients :: InChannel(clients[a], ch);
      if !occupied && ch in persistent {
        channelKeys := channelKeys[ch := key];
      }
      clients := clients[tcp := clients[tcp].(channel := Some(ch))];
      udpTokens := udpTokens[token := Token(tcp, ch, now)];
      var handed := if ch in channelKeys then channelKeys[ch] else [];
      return Ok(Joined(token, handed));
    }

    method StartEchoTest(tcp: Addr, id: ChannelId, token: nat, key: Bytes, now: int) returns (r: Result<Joined>)
      modifies this
      ensures (View(), r) == StartEcho(old(View()), tcp, id, token, key, now)
    {
      if limits.maxChannels > 0 && |channels| >= limits.maxChannels {
        return Err(ChannelLimit);
      }
      if tcp !in clients {
        return Err(NotRegistered);
      }
      if clients[tcp].channel.Some? {
        return Err(AlreadyInChannel);
      }
      channels := channels[id := {}];
      channelKeys := channelKeys[id := key];
      createdAt := createdAt[id := now];
      udpTokens := udpTokens[token := Token(tcp, id, now)];
      clients := clients[tcp := clients[tcp].(channel := Some(id))];
      return Ok(Joined(token, key));
    }

    /** Store a channel's peers: swap its cell, or add one to a copy of the outer map. */
    method UpdateChannelPeers(ch: ChannelId)
      modifies `outer, `cells, `nextCell
      ensures View() == Server(old(View()).inner, Publish(old(View()).cache, ch, Peers(View().inner, ch)))
    {
      var peers := if ch in channels then channels[ch] else {};
      if ch in outer {
        cells := cells[outer[ch] := peers];
        return;
      }
      cells := cells[nextCell := peers];
      outer := outer[ch := nextCell];
      nextCell := nextCell + 1;
    }

    method RemoveChannelFromCache(ch: ChannelId)
      modifies `outer
      ensures View() == Server(old(View()).inner, Unpublish(old(View()).cache, ch))
    {
      if ch in outer {
        outer := outer - {ch};
      }
    }

    /** What leaving and disconnecting share: take the address out, destroy the channel if it emptied, refresh the cache. */
    method VacateChannel(ch: ChannelId, udp: Option<Addr>)
      modifies this
      ensures View() == Vacate(old(View()), ch, udp)
    {
      var destroyed := false;
      if ch in channels {
        if udp.Some? {
          channels := channels[ch := channels[ch] - {udp.value}];
        }
        if channels[ch] == {} && ch !in persistent {
          channels := channels - {ch};
          channelKeys := channelKeys - {ch};
          createdAt := createdAt - {ch};
          destroyed := true;
        }
      }
      if destroyed {
        RemoveChannelFromCache(ch);
      } else {
        UpdateChannelPeers(ch);
      }
    }

    method RemoveClient(tcp: Addr) returns (info: Option<Client>)
      modifies this
      ensures View() == Remove(old(View()), tcp)
      ensures info == if tcp in old(clients) then Some(old(clients)[tcp]) else None
    {
      if tcp !in clients {
        return None;
      }
      var c := clients[tcp];
      clients := clients - {tcp};
      if c.pubkey.Some? {
        pubkeyIndex := pubkeyIndex - {c.pubkey.value};
      }
      udpTokens := WithoutTokensOf(udpTokens, tcp);
      if c.channel.Some? {
        VacateChannel(c.channel.value, c.udp);
      }
      return Some(c);
    }

    method LeaveChannel(tcp: Addr) returns (left: Option<ChannelId>)
      modifies this
      ensures View() == Leave(old(View()), tcp)
      ensures left == if tcp in old(clients) then old(clients)[tcp].channel else None
    {
      if tcp !in clients || clients[tcp].channel == None {
        return None;
      }
      var c := clients[tcp];
      clients := clients[tcp := c.(channel := None, udp := None)];
      udpTokens := WithoutTokensOf(udpTokens, tcp);
      VacateChannel(c.channel.value, c.udp);
      return c.channel;
    }

    method RegisterUdpByToken(token: nat, udp: Addr, now: int) returns (ok: bool)
      modifies this
      ensures (View(), ok) == Hello(old(View()), token, udp, now)
    {
      if token !in udpTokens {
        return false;
      }
      var t := udpTokens[token];
      if Canonical(t.tcp.ip) != Canonical(udp.ip) {
        return false;
      }
      udpTokens := udpTokens[token := t.(created := now)];
      if t.tcp !in clients {
        return false;
      }
      var prev := clients[t.tcp].udp;
      clients := clients[t.tcp := clients[t.tcp].(udp := Some(udp))];
      if t.channel in channels {
        var participants := channels[t.channel];
        if prev.Some? && prev.value != udp {
          participants := participants - {prev.value};
        }
        channels := channels[t.channel := participants + {udp}];
      }
      UpdateChannelPeers(t.channel);
      return true;
    }

    /** A relay worker's read when nothing else runs. */
    method FillChannelPeers(ch: ChannelId, exclude: Addr) returns (peers: set<Addr>)
      ensures peers == FillPeers(View().cache, ch, exclude)
    {
      peers := {};
      if ch in outer {
        var cell := outer[ch];
        if cell in cells {
          peers := cells[cell] - {exclude};
        }
      }
    }

    /** Reap the empty channels one by one, then the dead tokens. */
    method CleanupWith(now: int, grace: int, ttl: int) returns (empty: set<ChannelId>)
      modifies this
      ensures View() == Cleanup(old(View()), now, grace, ttl)
      ensures empty == Reaped(old(View()).inner, now, grace)
    {
      hide Reaped, Survives, Occupied;
      var i := Inner(channels, clients, pubkeyIndex, channelKeys, createdAt, persistent, udpTokens, nameCounter, limits);
      empty := Reaped(i, now, grace);
      ReapChannels(empty);
      CleanupInTwoPasses(View().inner, i, empty, now, ttl);
      udpTokens := map t | t in udpTokens && Survives(i, udpTokens[t], now, ttl) :: udpTokens[t];
    }

    method ReapChannels(empty: set<ChannelId>)
      modifies this
      ensures View() == old(View()).(inner := ReapedSoFar(old(View()).inner, empty))
    {
      hide ReapedSoFar;
      ghost var was := View().inner;
      ghost var gone: set<ChannelId> := {};
      var pending := empty;
      ReapNone(was);
      while pending != {}
        invariant gone + pending == empty
        invariant View() == old(View()).(inner := ReapedSoFar(was, gone))
      {
        var id :| id in pending;
        ReapStep(was, gone, id);
        pending := pending - {id};
        gone := gone + {id};
        channels := channels - {id};
        channelKeys := channelKeys - {id};
        createdAt := createdAt - {id};
        udpTokens := map t | t in udpTokens && udpTokens[t].channel != id :: udpTokens[t];
      }
      assert gone == empty;
    }
  }

  /** The state once the channels in `gone` and their tokens are removed. */
  ghost function ReapedSoFar(i: Inner, gone: set<ChannelId>): Inner {
    i.(channels := i.channels - gone, keys := i.keys - gone, createdAt := i.createdAt - gone,
       tokens := map t | t in i.tokens && i.tokens[t].channel !in gone :: i.tokens[t])
  }

  lemma ReapNone(i: Inner)
    ensures ReapedSoFar(i, {}) == i
  {
    assert i.channels - {} == i.channels && i.keys - {} == i.keys && i.createdAt - {} == i.createdAt;
    assert ReapedSoFar(i, {}).tokens == i.tokens;
  }

  lemma ReapStep(i: Inner, gone: set<ChannelId>, id: ChannelId)
    ensures
      var j := ReapedSoFar(i, gone);
      ReapedSoFar(i, gone + {id}) == j.(channels := j.channels - {id}, keys := j.keys - {id}, createdAt := j.createdAt - {id},
        tokens := map t | t in j.tokens && j.tokens[t].channel != id :: j.tokens[t])
  {
    var j, k := ReapedSoFar(i, gone), ReapedSoFar(i, gone + {id});
    assert k.channels == j.channels - {id} && k.keys == j.keys - {id} && k.createdAt == j.createdAt - {id};
    assert k.tokens == map t | t in j.tokens && j.tokens[t].channel != id :: j.tokens[t];
  }

  /** Removing the tokens of reaped channels and then the dead ones is one filter. */
  lemma CleanupInTwoPasses(j: Inner, i: Inner, gone: set<ChannelId>, now: int, ttl: int)
    requires j == ReapedSoFar(i, gone)
    ensures (map t | t in j.tokens && Survives(i, j.tokens[t], now, ttl) :: j.tokens[t])
      == (map t | t in i.tokens && i.tokens[t].channel !in gone && Survives(i, i.tokens[t], now, ttl) :: i.tokens[t])
  {
    hide Survives;
  }
}
