/** A limit of the server: a channel may be destroyed under a client that is still in it, and exactly when, over whole runs. */
module Stranded {
  import opened Wrappers
  import opened Server
  import opened ServerInvariants
  import opened ServerRuns
  import opened ServerExact

  /** Every client's channel exists. */
  ghost predicate ChannelsExist(i: Inner) {
    forall a | a in i.clients && i.clients[a].channel.Some? :: i.clients[a].channel.value in i.channels
  }

  /** Someone other than `tcp` is in `ch`. */
  ghost predicate SomeoneElse(i: Inner, tcp: Addr, ch: ChannelId) {
    exists a <- i.clients :: a != tcp && InChannel(i.clients[a], ch)
  }

  /**
   Nobody can be heard in `ch` but the client at `tcp`: the others have said no
   hello since the channel exists, or share its UDP address.
   */
  predicate LastToHear(i: Inner, tcp: Addr, ch: ChannelId)
    requires tcp in i.clients
  {
    Peers(i, ch) - (if i.clients[tcp].udp.Some? then {i.clients[tcp].udp.value} else {}) == {}
  }

  /**
   Leaving keeps every other client's channel in existence if and only if it
   does not take the last UDP address out of a channel that is not persistent
   and that someone else is in.
   */
  lemma LeaveStrandsExactly(s: Server, tcp: Addr, ch: ChannelId)
    requires tcp in s.inner.clients && InChannel(s.inner.clients[tcp], ch)
    requires ChannelsExist(s.inner)
    ensures ChannelsExist(Leave(s, tcp).inner) <==>
      !(LastToHear(s.inner, tcp, ch) && ch !in s.inner.persistent && SomeoneElse(s.inner, tcp, ch))
  {
    hide Publish, Unpublish, WithoutTokensOf;
    var i, j := s.inner, Leave(s, tcp).inner;
    assert j.clients == i.clients[tcp := i.clients[tcp].(channel := None, udp := None)];
    if SomeoneElse(i, tcp, ch) {
      var a :| a in i.clients && a != tcp && InChannel(i.clients[a], ch);
      assert j.clients[a].channel == Some(ch);
    }
  }

  /** The same for a disconnect. */
  lemma RemoveStrandsExactly(s: Server, tcp: Addr, ch: ChannelId)
    requires tcp in s.inner.clients && InChannel(s.inner.clients[tcp], ch)
    requires ChannelsExist(s.inner)
    ensures ChannelsExist(Remove(s, tcp).inner) <==>
      !(LastToHear(s.inner, tcp, ch) && ch !in s.inner.persistent && SomeoneElse(s.inner, tcp, ch))
  {
    hide Publish, Unpublish, WithoutTokensOf;
    var i, j := s.inner, Remove(s, tcp).inner;
    assert j.clients == i.clients - {tcp};
    if SomeoneElse(i, tcp, ch) {
      var a :| a in i.clients && a != tcp && InChannel(i.clients[a], ch);
      assert j.clients[a].channel == Some(ch);
    }
  }

  /** The operation takes the last UDP address out of a channel that is not persistent and that someone else is in. */
  ghost predicate Strands(s: Server, op: Op) {
    && (op.OpLeave? || op.OpRemove?)
    && op.tcp in s.inner.clients && s.inner.clients[op.tcp].channel.Some?
    && var ch := s.inner.clients[op.tcp].channel.value;
       LastToHear(s.inner, op.tcp, ch) && ch !in s.inner.persistent && SomeoneElse(s.inner, op.tcp, ch)
  }

  /** No other operation destroys a channel someone is in. */
  lemma OthersStrandNobody(s: Server, op: Op)
    requires Enabled(s, op) && ChannelsExist(s.inner) && !op.OpLeave? && !op.OpRemove?
    ensures ChannelsExist(Apply(s, op).inner)
  {
    hide Publish, WithoutTokensOf, Canonical, Full;
  }

  /** Whichever the operation: every client's channel still exists afterwards if and only if the operation strands nobody. */
  lemma ApplyStrandsExactly(s: Server, op: Op)
    requires Enabled(s, op) && ChannelsExist(s.inner)
    ensures ChannelsExist(Apply(s, op).inner) <==> !Strands(s, op)
  {
    hide Leave, Remove, LastToHear, SomeoneElse, ChannelsExist;
    match op
    case OpLeave(tcp) =>
      if tcp in s.inner.clients && s.inner.clients[tcp].channel.Some? {
        LeaveStrandsExactly(s, tcp, s.inner.clients[tcp].channel.value);
      } else {
        LeaveNothing(s, tcp);
      }
    case OpRemove(tcp) =>
      if tcp in s.inner.clients && s.inner.clients[tcp].channel.Some? {
        RemoveStrandsExactly(s, tcp, s.inner.clients[tcp].channel.value);
      } else {
        LeaveNothing(s, tcp);
      }
    case _ =>
      hide Apply;
      OthersStrandNobody(s, op);
  }

  /** A client in no channel leaves none. */
  lemma LeaveNothing(s: Server, tcp: Addr)
    requires ChannelsExist(s.inner) && (tcp in s.inner.clients ==> s.inner.clients[tcp].channel == None)
    ensures ChannelsExist(Leave(s, tcp).inner) && ChannelsExist(Remove(s, tcp).inner)
  {
    hide WithoutTokensOf;
  }

  ghost predicate NobodyStranded(w: World) {
    ChannelsExist(w.server.inner)
  }

  ghost predicate StrandsIn(w: World, op: Op) {
    Strands(w.server, op)
  }

  /** Over any run: every client's channel exists at every instant if and only if no operation of the run strands anyone. */
  lemma RunStrandsExactly(limits: Limits, ops: seq<Op>)
    requires Legal(limits, ops)
    ensures Always(limits, ops, NobodyStranded) <==> Never(limits, ops, StrandsIn)
  {
    hide ChannelsExist, Strands, Enabled, Apply, Invariant;
    forall w: World, op: Op | Invariant(w) && Enabled(w.server, op) && NobodyStranded(w)
      ensures NobodyStranded(Next(w, op)) <==> !StrandsIn(w, op)
    {
      ApplyStrandsExactly(w.server, op);
    }
    EmptyExists(limits);
    RunExactly(limits, ops, NobodyStranded, StrandsIn);
  }

  lemma EmptyExists(limits: Limits)
    ensures ChannelsExist(Empty(limits).inner)
  {
  }

  /** A server without limits or lobbies whose clients are all called the same and have no address yet. */
  ghost predicate Plain(i: Inner, clients: map<Addr, Client>, channels: map<ChannelId, set<Addr>>, tokens: set<nat>) {
    i.clients == clients && i.channels == channels && i.tokens.Keys == tokens && i.persistent == {} && i.limits == UNLIMITED
  }

  function In(ch: Option<ChannelId>): Client {
    Client("user", ch, None, None)
  }

  const ROOM: map<ChannelId, set<Addr>> := map["room" := {}]

  lemma PlainRegister(s: Server, tcp: Addr, clients: map<Addr, Client>)
    requires Plain(s.inner, clients, map[], {}) && tcp !in clients
    ensures Enabled(s, OpRegister(tcp, User))
    ensures Plain(Apply(s, OpRegister(tcp, User)).inner, clients[tcp := In(None)], map[], {})
  {
  }

  lemma PlainCreate(s: Server, clients: map<Addr, Client>)
    requires Plain(s.inner, clients, map[], {})
    ensures Enabled(s, OpCreate("room", [], 0))
    ensures Plain(Apply(s, OpCreate("room", [], 0)).inner, clients, ROOM, {})
  {
  }

  lemma PlainJoin(s: Server, tcp: Addr, token: nat, clients: map<Addr, Client>, tokens: set<nat>)
    requires Plain(s.inner, clients, ROOM, tokens) && tcp in clients && clients[tcp] == In(None)
    requires token != 0 && token !in tokens
    ensures Enabled(s, OpJoin(tcp, "room", token, [], 0))
    ensures Plain(Apply(s, OpJoin(tcp, "room", token, [], 0)).inner, clients[tcp := In(Some("room"))], ROOM, tokens + {token})
  {
  }

  lemma PlainLeave(s: Server, clients: map<Addr, Client>, tokens: set<nat>)
    requires Plain(s.inner, clients, ROOM, tokens) && ALICE in clients && BOB in clients
    requires clients[ALICE] == In(Some("room")) && clients[BOB] == In(Some("room"))
    ensures Enabled(s, OpLeave(ALICE)) && !ChannelsExist(Apply(s, OpLeave(ALICE)).inner)
  {
    hide Publish, Unpublish, WithoutTokensOf;
    assert BOB in Leave(s, ALICE).inner.clients;
  }

  lemma PlainStart()
    ensures Legal(UNLIMITED, []) && Plain(Run(UNLIMITED, []).server.inner, map[], map[], {})
  {
  }

  /** A short run that strands someone: two clients join, neither has said hello, and one of them leaves. */
  lemma SomeoneStranded() returns (ops: seq<Op>)
    ensures Legal(UNLIMITED, ops) && !ChannelsExist(Run(UNLIMITED, ops).server.inner)
  {
    hide Run, Legal, Apply, Plain, Enabled, ChannelsExist;
    var alice, both := map[ALICE := In(None)], map[ALICE := In(None), BOB := In(None)];
    var inside := map[ALICE := In(Some("room")), BOB := In(None)];
    ops := [];
    PlainStart();
    PlainRegister(Run(UNLIMITED, ops).server, ALICE, map[]);
    ops := Extend(UNLIMITED, ops, OpRegister(ALICE, User));
    PlainRegister(Run(UNLIMITED, ops).server, BOB, alice);
    ops := Extend(UNLIMITED, ops, OpRegister(BOB, User));
    assert alice[BOB := In(None)] == both;
    PlainCreate(Run(UNLIMITED, ops).server, both);
    ops := Extend(UNLIMITED, ops, OpCreate("room", [], 0));
    PlainJoin(Run(UNLIMITED, ops).server, ALICE, 1, both, {});
    ops := Extend(UNLIMITED, ops, OpJoin(ALICE, "room", 1, [], 0));
    assert both[ALICE := In(Some("room"))] == inside;
    assert {} + {1} == {1} && {1} + {2} == {1, 2};
    PlainJoin(Run(UNLIMITED, ops).server, BOB, 2, inside, {1});
    ops := Extend(UNLIMITED, ops, OpJoin(BOB, "room", 2, [], 0));
    PlainLeave(Run(UNLIMITED, ops).server, inside[BOB := In(Some("room"))], {1, 2});
    ops := Extend(UNLIMITED, ops, OpLeave(ALICE));
  }
}
