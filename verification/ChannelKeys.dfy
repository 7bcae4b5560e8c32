/** Whether the members of a channel can understand each other: everyone was handed the key the channel has. */
module ChannelKeys {
  import opened Wrappers
  import opened Server
  import opened ServerInvariants
  import opened ServerSteps
  import opened ServerRuns
  import opened ServerExact
  import opened ServerAnswers
  import Stranded

  /** Every client in an existing channel was handed the key it has now. */
  ghost predicate Understand(w: World) {
    forall a, ch | a in w.server.inner.clients && InChannel(w.server.inner.clients[a], ch) && ch in w.server.inner.channels ::
      Handed(w, a, ch)
  }

  ghost predicate Handed(w: World, a: Addr, ch: ChannelId) {
    ch in w.server.inner.keys && a in w.handed && w.handed[a] == w.server.inner.keys[ch]
  }

  /** Someone is in `id` with a key other than `key`. */
  ghost predicate Foreign(w: World, id: ChannelId, key: Bytes) {
    exists a <- w.server.inner.clients :: InChannel(w.server.inner.clients[a], id) && (a !in w.handed || w.handed[a] != key)
  }

  /** There is room for a channel `id`, none exists, and someone is still in it with another key. */
  ghost predicate Rekeys(w: World, id: ChannelId, key: Bytes) {
    Room(|w.server.inner.channels|, w.server.inner.limits.maxChannels) && id !in w.server.inner.channels && Foreign(w, id, key)
  }

  /** The operation creates a channel anew under its members, with another key. */
  ghost predicate Divides(w: World, op: Op) {
    match op
    case OpCreate(id, key, _) => Rekeys(w, id, key)
    case OpEcho(tcp, id, _, key, _) => Free(w.server.inner, tcp) && Rekeys(w, id, key)
    case _ => false
  }

  /** No client gains a channel, and channels that stay keep their keys: everyone still understands. */
  lemma SameKeys(w: World, v: World)
    requires Understand(w) && v.handed == w.handed
    requires forall a <- v.server.inner.clients :: v.server.inner.clients[a].channel.Some? ==>
      a in w.server.inner.clients && w.server.inner.clients[a].channel == v.server.inner.clients[a].channel
    requires forall ch <- v.server.inner.channels ::
      && ch in w.server.inner.channels && ch in v.server.inner.keys
      && ch in w.server.inner.keys && v.server.inner.keys[ch] == w.server.inner.keys[ch]
    ensures Understand(v)
  {
    forall a, ch | a in v.server.inner.clients && InChannel(v.server.inner.clients[a], ch) && ch in v.server.inner.channels
      ensures Handed(v, a, ch)
    {
      assert Handed(w, a, ch);
    }
  }

  /** Vacating a channel destroys at most that one, and changes no key of the others. */
  lemma VacateKeepsKeys(s: Server, ch: ChannelId, udp: Option<Addr>)
    requires ChannelsKeyed(s.inner)
    ensures var j := Vacate(s, ch, udp).inner;
      forall c <- j.channels :: c in s.inner.channels && c in j.keys && j.keys[c] == s.inner.keys[c]
  {
    hide Publish, Unpublish, Peers;
  }

  lemma DepartureKeepsKeys(s: Server, tcp: Addr)
    requires ChannelsKeyed(s.inner)
    ensures var (j, k) := (Leave(s, tcp).inner, Remove(s, tcp).inner);
      && (forall c <- j.channels :: c in s.inner.channels && c in j.keys && j.keys[c] == s.inner.keys[c])
      && (forall c <- k.channels :: c in s.inner.channels && c in k.keys && k.keys[c] == s.inner.keys[c])
  {
    hide Vacate, WithoutTokensOf;
    var i := s.inner;
    if tcp in i.clients && i.clients[tcp].channel.Some? {
      var c := i.clients[tcp];
      var index := if c.pubkey.Some? then i.pubkeyIndex - {c.pubkey.value} else i.pubkeyIndex;
      VacateKeepsKeys(s.(inner := i.(
        clients := i.clients[tcp := c.(channel := None, udp := None)], tokens := WithoutTokensOf(i.tokens, tcp))), c.channel.value, c.udp);
      VacateKeepsKeys(s.(inner := i.(
        clients := i.clients - {tcp}, pubkeyIndex := index, tokens := WithoutTokensOf(i.tokens, tcp))), c.channel.value, c.udp);
    }
  }

  lemma JoinUnderstands(w: World, op: Op)
    requires op.OpJoin? && Understand(w) && ChannelsKeyed(w.server.inner)
    ensures Understand(Next(w, op))
  {
    hide Join;
    JoinExactly(w.server, op.tcp, op.ch, op.token, op.key, op.now);
    var i, v := w.server.inner, Next(w, op);
    if Answer(w.server, op).Ok? {
      forall a, ch | a in v.server.inner.clients && InChannel(v.server.inner.clients[a], ch) && ch in v.server.inner.channels
        ensures Handed(v, a, ch)
      {
        if a != op.tcp {
          assert InChannel(i.clients[a], ch) && Handed(w, a, ch);
        }
      }
    }
  }

  lemma CreateUnderstands(w: World, v: World, id: ChannelId, key: Bytes, now: int)
    requires Understand(w) && ChannelsKeyed(w.server.inner) && id !in w.server.inner.channels
    requires v.server.inner.channels == w.server.inner.channels[id := {}] && v.server.inner.keys == w.server.inner.keys[id := key]
    requires v.server.inner.clients == w.server.inner.clients && v.handed == w.handed
    ensures Understand(v) <==> !Foreign(w, id, key)
  {
    if Foreign(w, id, key) {
      var a :| a in w.server.inner.clients && InChannel(w.server.inner.clients[a], id) && (a !in w.handed || w.handed[a] != key);
      assert !Handed(v, a, id);
    } else {
      forall a, ch | a in v.server.inner.clients && InChannel(v.server.inner.clients[a], ch) && ch in v.server.inner.channels
        ensures Handed(v, a, ch)
      {
        assert ch != id ==> Handed(w, a, ch);
      }
    }
  }

  /** A client alone to enter, with the key of the channel in hand. */
  lemma EchoUnderstands(w: World, v: World, tcp: Addr, id: ChannelId, key: Bytes)
    requires Free(w.server.inner, tcp)
    requires v.server.inner.clients == w.server.inner.clients[tcp := w.server.inner.clients[tcp].(channel := Some(id))]
    requires v.server.inner.channels == w.server.inner.channels && v.server.inner.keys == w.server.inner.keys
    requires id in v.server.inner.keys && v.server.inner.keys[id] == key && v.handed == w.handed[tcp := key]
    ensures Understand(v) <==> Understand(w)
  {
    var i, j := w.server.inner, v.server.inner;
    if Understand(w) {
      forall a, ch | a in j.clients && InChannel(j.clients[a], ch) && ch in j.channels
        ensures Handed(v, a, ch)
      {
        assert a != tcp ==> Handed(w, a, ch);
      }
    }
    if Understand(v) {
      forall a, ch | a in i.clients && InChannel(i.clients[a], ch) && ch in i.channels
        ensures Handed(w, a, ch)
      {
        assert a != tcp && j.clients[a] == i.clients[a];
        assert Handed(v, a, ch);
      }
    }
  }

  lemma EchoDivides(w: World, op: Op)
    requires op.OpEcho? && Understand(w) && ChannelsKeyed(w.server.inner) && Enabled(w.server, op)
    ensures Understand(Next(w, op)) <==> !Divides(w, op)
  {
    hide StartEcho, Understand, Foreign;
    EchoExactly(w.server, op.tcp, op.id, op.token, op.key, op.now);
    if Answer(w.server, op).Ok? {
      var i := w.server.inner;
      var created := w.(server := w.server.(inner := i.(
        channels := i.channels[op.id := {}], keys := i.keys[op.id := op.key], createdAt := i.createdAt[op.id := op.now])));
      CreateUnderstands(w, created, op.id, op.key, op.now);
      EchoUnderstands(created, Next(w, op), op.tcp, op.id, op.key);
    }
  }

  lemma CreateDivides(w: World, op: Op)
    requires op.OpCreate? && Understand(w) && ChannelsKeyed(w.server.inner)
    ensures Understand(Next(w, op)) <==> !Divides(w, op)
  {
    hide Create, Understand, Foreign;
    CreateExactly(w.server, op.id, op.key, op.now);
    if Create(w.server, op.id, op.key, op.now).1.Ok? {
      CreateUnderstands(w, Next(w, op), op.id, op.key, op.now);
    }
  }

  lemma PersistentDivides(w: World, op: Op)
    requires op.OpCreatePersistent? && Understand(w) && ChannelsKeyed(w.server.inner) && Enabled(w.server, op)
    ensures Understand(Next(w, op))
  {
    hide Create, CreatePersistent, Understand;
    CreateExactly(w.server, op.id, op.key, op.now);
    if Create(w.server, op.id, op.key, op.now).1.Ok? {
      CreateUnderstands(w, Next(w, op), op.id, op.key, op.now);
    }
  }

  /** After any operation everyone in an existing channel holds its key if and only if the operation divides no channel. */
  lemma ApplyKeysExactly(w: World, op: Op)
    requires Invariant(w) && Enabled(w.server, op) && Understand(w)
    ensures Understand(Next(w, op)) <==> !Divides(w, op)
  {
    hide Understand, CacheCoherent, TokensMatch, PeersAreMembers, SameSource, KeysCurrent, IndexSound, Leave, Remove, Join, StartEcho, Create,
      CreatePersistent, Hello, Cleanup, Rekeys, ChannelsKeyed;
    var s, v := w.server, Next(w, op);
    match op
    case OpJoin(_, _, _, _, _) => JoinUnderstands(w, op);
    case OpEcho(_, _, _, _, _) => EchoDivides(w, op);
    case OpCreate(_, _, _) => CreateDivides(w, op);
    case OpCreatePersistent(_, _, _) => PersistentDivides(w, op);
    case _ => OthersUnderstand(w, op);
  }

  lemma OthersUnderstand(w: World, op: Op)
    requires Understand(w) && ChannelsKeyed(w.server.inner) && Enabled(w.server, op)
    requires !op.OpJoin? && !op.OpEcho? && !op.OpCreate? && !op.OpCreatePersistent?
    ensures Understand(Next(w, op))
  {
    hide Understand, Leave, Remove, Hello, Cleanup, Occupied, Canonical;
    var s := w.server;
    match op
    case OpLeave(tcp) =>
      LeaveExactly(s, tcp);
      DepartureKeepsKeys(s, tcp);
      SameKeys(w, Next(w, op));
    case OpRemove(tcp) =>
      RemoveExactly(s, tcp, []);
      DepartureKeepsKeys(s, tcp);
      SameKeys(w, Next(w, op));
    case OpHello(token, udp, now) =>
      HelloKeepsKeys(s, token, udp, now);
      SameKeys(w, Next(w, op));
    case OpCleanup(now, grace, ttl) =>
      CleanupKeepsKeys(s, now, grace, ttl);
      SameKeys(w, Next(w, op));
    case _ => SameKeys(w, Next(w, op));
  }

  lemma HelloKeepsKeys(s: Server, token: nat, udp: Addr, now: int)
    requires ChannelsKeyed(s.inner)
    ensures var (i, j) := (s.inner, Hello(s, token, udp, now).0.inner);
      && j.keys == i.keys && j.channels.Keys == i.channels.Keys
      && j.clients.Keys == i.clients.Keys && forall a <- i.clients :: j.clients[a].channel == i.clients[a].channel
  {
    hide Canonical, Publish, Peers;
  }

  lemma CleanupKeepsKeys(s: Server, now: int, grace: int, ttl: int)
    requires ChannelsKeyed(s.inner)
    ensures var (i, j) := (s.inner, Cleanup(s, now, grace, ttl).inner);
      && j.clients == i.clients
      && forall ch <- j.channels :: ch in i.channels && ch in j.keys && j.keys[ch] == i.keys[ch]
  {
    hide Survives, Occupied;
  }

  lemma NobodyYet(limits: Limits)
    ensures Understand(World(Empty(limits), map[], map[]))
  {
  }

  /**
   Over any run: everyone in an existing channel always holds its key, if and
   only if no operation creates a channel anew, with another key, under members
   who stayed when it was destroyed.
   */
  lemma RunKeysExactly(limits: Limits, ops: seq<Op>)
    requires Legal(limits, ops)
    ensures Always(limits, ops, Understand) <==> Never(limits, ops, Divides)
  {
    hide Understand, Divides, Enabled, Next, Invariant;
    forall w: World, op: Op | Invariant(w) && Enabled(w.server, op) && Understand(w)
      ensures Understand(Next(w, op)) <==> !Divides(w, op)
    {
      ApplyKeysExactly(w, op);
    }
    NobodyYet(limits);
    RunExactly(limits, ops, Understand, Divides);
  }

  // ── the key of an ordinary channel ──

  /** While a channel that is not persistent exists, no operation changes its key. */
  lemma OrdinaryKeyStays(s: Server, op: Op, ch: ChannelId)
    requires ChannelsKeyed(s.inner) && Enabled(s, op) && ch in s.inner.channels && ch !in s.inner.persistent
    requires ch in Apply(s, op).inner.channels
    ensures ch in s.inner.keys && ch in Apply(s, op).inner.keys && Apply(s, op).inner.keys[ch] == s.inner.keys[ch]
  {
    hide Leave, Remove, Hello, Cleanup, Join, StartEcho, Create, CreatePersistent, Enabled;
    match op
    case OpLeave(tcp) => DepartureKeepsKeys(s, tcp);
    case OpRemove(tcp) => DepartureKeepsKeys(s, tcp);
    case OpHello(token, udp, now) => HelloKeepsKeys(s, token, udp, now);
    case OpCleanup(now, grace, ttl) => CleanupKeepsKeys(s, now, grace, ttl);
    case OpJoin(tcp, c, token, key, now) => JoinKeepsKey(s, tcp, c, token, key, now, ch);
    case OpEcho(tcp, id, token, key, now) => EchoKeepsKey(s, op, ch);
    case OpCreate(id, key, now) => CreateKeepsKey(s, id, key, now, ch);
    case OpCreatePersistent(id, key, now) => CreateKeepsKey(s, id, key, now, ch);
    case _ =>
  }

  lemma JoinKeepsKey(s: Server, tcp: Addr, c: ChannelId, token: nat, key: Bytes, now: int, ch: ChannelId)
    requires ChannelsKeyed(s.inner) && ch in s.inner.channels && ch !in s.inner.persistent
    ensures var j := Join(s, tcp, c, token, key, now).0.inner;
      ch in s.inner.keys && ch in j.keys && j.keys[ch] == s.inner.keys[ch]
  {
    hide Join;
    JoinExactly(s, tcp, c, token, key, now);
  }

  lemma EchoKeepsKey(s: Server, op: Op, ch: ChannelId)
    requires ChannelsKeyed(s.inner) && ch in s.inner.channels && op.OpEcho? && Enabled(s, op)
    ensures var j := StartEcho(s, op.tcp, op.id, op.token, op.key, op.now).0.inner;
      ch in s.inner.keys && ch in j.keys && j.keys[ch] == s.inner.keys[ch]
  {
    hide StartEcho;
    EchoExactly(s, op.tcp, op.id, op.token, op.key, op.now);
  }

  lemma CreateKeepsKey(s: Server, id: ChannelId, key: Bytes, now: int, ch: ChannelId)
    requires ChannelsKeyed(s.inner) && ch in s.inner.channels
    ensures var (j, k) := (Create(s, id, key, now).0.inner, CreatePersistent(s, id, key, now).0.inner);
      ch in s.inner.keys && ch in j.keys && j.keys[ch] == s.inner.keys[ch] && k.keys == j.keys
  {
    hide Create, CreatePersistent;
    CreateExactly(s, id, key, now);
  }

  /** At every instant after the first `k` operations the channel exists and is not persistent. */
  ghost predicate Ordinary(limits: Limits, ops: seq<Op>, k: nat, ch: ChannelId) {
    forall j :: k <= j <= |ops| ==>
      ch in Run(limits, ops[..j]).server.inner.channels && ch !in Run(limits, ops[..j]).server.inner.persistent
  }

  /** So from the operation that created it on, an ordinary channel has the key drawn then. */
  lemma {:induction false} OrdinaryKeyIsDrawnOnce(limits: Limits, ops: seq<Op>, k: nat, ch: ChannelId)
    requires Legal(limits, ops) && k <= |ops| && Ordinary(limits, ops, k, ch)
    ensures
      var (i, j) := (Run(limits, ops[..k]).server.inner, Run(limits, ops).server.inner);
      ch in i.keys && ch in j.keys && j.keys[ch] == i.keys[ch]
    decreases |ops|
  {
    hide Run, Legal, Enabled, Apply, Invariant;
    assert ops[..|ops|] == ops;
    if k == |ops| {
      KeyedAt(limits, ops);
    } else {
      var n := |ops| - 1;
      var init := ops[..n];
      assert forall j | 0 <= j <= n :: init[..j] == ops[..j];
      LastOp(limits, ops);
      OrdinaryKeyIsDrawnOnce(limits, init, k, ch);
      KeyedAt(limits, init);
      LastServer(limits, ops);
      assert ch in Run(limits, ops[..n]).server.inner.channels && ch in Run(limits, ops[..|ops|]).server.inner.channels;
      OrdinaryKeyStays(Run(limits, init).server, ops[n], ch);
    }
  }

  lemma KeyedAt(limits: Limits, ops: seq<Op>)
    requires Legal(limits, ops)
    ensures ChannelsKeyed(Run(limits, ops).server.inner)
  {
    ReachableInvariant(limits, ops);
  }

  lemma LastServer(limits: Limits, ops: seq<Op>)
    requires ops != []
    ensures Run(limits, ops).server == Apply(Run(limits, ops[..|ops| - 1]).server, ops[|ops| - 1])
  {
    hide Apply, Answer;
  }

  /** A run that divides a channel: one of its members stays behind when it is destroyed, and it is created anew with another key. */
  lemma SomeoneDivided() returns (ops: seq<Op>)
    ensures Legal(UNLIMITED, ops) && !Understand(Run(UNLIMITED, ops))
  {
    var before := Stranded.SomeoneStranded();
    var w := Run(UNLIMITED, before);
    var a :| a in w.server.inner.clients && w.server.inner.clients[a].channel.Some?
      && w.server.inner.clients[a].channel.value !in w.server.inner.channels;
    var id := w.server.inner.clients[a].channel.value;
    var key := if a in w.handed && w.handed[a] == [] then [1] else [];
    RunWithinLimits(UNLIMITED, before);
    CreateExactly(w.server, id, key, 0);
    hide Legal, Create, Run, WithinLimits;
    ops := Extend(UNLIMITED, before, OpCreate(id, key, 0));
    LastWorld(UNLIMITED, before, OpCreate(id, key, 0));
    assert InChannel(Run(UNLIMITED, ops).server.inner.clients[a], id);
    assert !Handed(Run(UNLIMITED, ops), a, id);
  }

  lemma LastWorld(limits: Limits, ops: seq<Op>, op: Op)
    ensures Run(limits, ops + [op]) == Next(Run(limits, ops), op)
  {
    hide Next;
    assert (ops + [op])[..|ops|] == ops;
  }
}
