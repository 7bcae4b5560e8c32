/**
 The relay's wait-free read: it loads the outer map, later the cell it found
 there, while any number of server operations run in between.
 */
module Relay {
  import opened Wrappers
  import opened Server
  import opened ServerInvariants
  import opened ServerRuns

  /** No channel of the current outer map uses `cell`: only readers that loaded an older map still hold it. */
  ghost predicate Orphan(c: Cache, cell: nat) {
    cell in c.cells && forall ch <- c.outer :: c.outer[ch] != cell
  }

  /** `ch` is served by `cell`. */
  ghost predicate Serves(c: Cache, ch: ChannelId, cell: nat) {
    ch in c.outer && c.outer[ch] == cell && cell in c.cells
  }

  /** One store to the cache never writes an orphan, and never takes a cell away from its channel without orphaning it as it is. */
  ghost predicate CellStable(c: Cache, d: Cache, ch: ChannelId, cell: nat) {
    && (Orphan(c, cell) ==> Orphan(d, cell) && d.cells[cell] == c.cells[cell])
    && (Serves(c, ch, cell) ==> Serves(d, ch, cell) || (Orphan(d, cell) && d.cells[cell] == c.cells[cell]))
  }

  lemma PublishStable(c: Cache, other: ChannelId, peers: set<Addr>, ch: ChannelId, cell: nat)
    requires CellsSound(c)
    ensures CellStable(c, Publish(c, other, peers), ch, cell)
  {
  }

  lemma UnpublishStable(c: Cache, other: ChannelId, ch: ChannelId, cell: nat)
    requires CellsSound(c)
    ensures CellStable(c, Unpublish(c, other), ch, cell)
  {
  }

  lemma VacateStable(s: Server, other: ChannelId, udp: Option<Addr>, ch: ChannelId, cell: nat)
    requires CellsSound(s.cache)
    ensures CellStable(s.cache, Vacate(s, other, udp).cache, ch, cell)
  {
    hide CellStable, Publish, Unpublish, CellsSound;
    var i := s.inner;
    UnpublishStable(s.cache, other, ch, cell);
    PublishStable(s.cache, other, {}, ch, cell);
    PublishStable(s.cache, other, if udp.Some? then Peers(i, other) - {udp.value} else Peers(i, other), ch, cell);
  }

  lemma SameStable(c: Cache, ch: ChannelId, cell: nat)
    ensures CellStable(c, c, ch, cell)
  {
  }

  lemma ApplyStable(s: Server, op: Op, ch: ChannelId, cell: nat)
    requires CellsSound(s.cache)
    ensures CellStable(s.cache, Apply(s, op).cache, ch, cell)
  {
    hide CellStable, Publish, Vacate, WithoutTokensOf, CellsSound;
    var i := s.inner;
    SameStable(s.cache, ch, cell);
    match op
    case OpLeave(tcp) =>
      if tcp in i.clients && i.clients[tcp].channel.Some? {
        var c := i.clients[tcp];
        VacateStable(s.(inner := i.(
          clients := i.clients[tcp := c.(channel := None, udp := None)], tokens := WithoutTokensOf(i.tokens, tcp))),
          c.channel.value, c.udp, ch, cell);
      }
    case OpRemove(tcp) =>
      if tcp in i.clients && i.clients[tcp].channel.Some? {
        var c := i.clients[tcp];
        var index := if c.pubkey.Some? then i.pubkeyIndex - {c.pubkey.value} else i.pubkeyIndex;
        VacateStable(s.(inner := i.(
          clients := i.clients - {tcp}, pubkeyIndex := index, tokens := WithoutTokensOf(i.tokens, tcp))),
          c.channel.value, c.udp, ch, cell);
      }
    case OpHello(token, udp, now) =>
      HelloStable(s, token, udp, now, ch, cell);
    case _ =>
  }

  lemma HelloStable(s: Server, token: nat, udp: Addr, now: int, ch: ChannelId, cell: nat)
    requires CellsSound(s.cache)
    ensures CellStable(s.cache, Hello(s, token, udp, now).0.cache, ch, cell)
  {
    hide CellStable, Publish, CellsSound, Canonical;
    SameStable(s.cache, ch, cell);
    if Hello(s, token, udp, now).1 {
      var other := s.inner.tokens[token].channel;
      PublishStable(s.cache, other, Peers(Hello(s, token, udp, now).0.inner, other), ch, cell);
    }
  }

  /** The state after the first `k` operations. */
  function At(limits: Limits, ops: seq<Op>, k: nat): Server
    requires k <= |ops|
  {
    Run(limits, ops[..k]).server
  }

  lemma {:induction false} LegalPrefix(limits: Limits, ops: seq<Op>, k: nat)
    requires Legal(limits, ops) && k <= |ops|
    ensures Legal(limits, ops[..k])
  {
    if k == |ops| {
      assert ops[..k] == ops;
    } else {
      LegalPrefix(limits, ops[..|ops| - 1], k);
      assert ops[..|ops| - 1][..k] == ops[..k];
    }
  }

  lemma AtCoherent(limits: Limits, ops: seq<Op>, k: nat)
    requires Legal(limits, ops) && k <= |ops|
    ensures CacheCoherent(At(limits, ops, k))
  {
    LegalPrefix(limits, ops, k);
    ReachableInvariant(limits, ops[..k]);
    hide Run, Legal, CacheCoherent, TokensMatch, PeersAreMembers, SameSource, ChannelsKeyed, KeysCurrent, IndexSound;
  }

  lemma AtStep(limits: Limits, ops: seq<Op>, k: nat)
    requires k < |ops|
    ensures At(limits, ops, k + 1) == Apply(At(limits, ops, k), ops[k])
  {
    assert ops[..k + 1][..k] == ops[..k];
    hide Apply, Answer;
  }

  /** The cell a reader loaded at `i` holds, at `j`, the peers the channel had at `k`; and serves it still, or never will be written again. */
  ghost predicate HoldsSince(limits: Limits, ops: seq<Op>, k: nat, j: nat, ch: ChannelId, cell: nat)
    requires k <= j <= |ops|
  {
    var c := At(limits, ops, j).cache;
    && cell in c.cells && c.cells[cell] == Peers(At(limits, ops, k).inner, ch)
    && (Serves(c, ch, cell) || Orphan(c, cell))
  }

  lemma {:induction false} CellHolds(limits: Limits, ops: seq<Op>, i: nat, j: nat, ch: ChannelId, cell: nat) returns (k: nat)
    requires Legal(limits, ops) && i <= j <= |ops|
    requires LoadOuter(At(limits, ops, i).cache, ch) == Some(cell)
    ensures i <= k <= j && HoldsSince(limits, ops, k, j, ch, cell)
    decreases j
  {
    hide Run, At, Apply, Legal, CacheCoherent, CellsSound, Orphan;
    ServedIsCurrent(limits, ops, j, ch, cell);
    if i == j {
      return j;
    }
    k := CellHolds(limits, ops, i, j - 1, ch, cell);
    ServedIsCurrent(limits, ops, j - 1, ch, cell);
    AtStep(limits, ops, j - 1);
    ApplyStable(At(limits, ops, j - 1), ops[j - 1], ch, cell);
    OrphanHasCell(At(limits, ops, j - 1).cache, cell);
    OrphanHasCell(At(limits, ops, j).cache, cell);
    if Serves(At(limits, ops, j).cache, ch, cell) {
      return j;
    }
    if Serves(At(limits, ops, j - 1).cache, ch, cell) {
      return j - 1;
    }
  }

  lemma OrphanHasCell(c: Cache, cell: nat)
    ensures Orphan(c, cell) ==> cell in c.cells
  {
  }

  /** At every instant the cell that serves a channel holds its current peers. */
  lemma ServedIsCurrent(limits: Limits, ops: seq<Op>, k: nat, ch: ChannelId, cell: nat)
    requires Legal(limits, ops) && k <= |ops|
    ensures var s := At(limits, ops, k);
      && CellsSound(s.cache)
      && (LoadOuter(s.cache, ch) == Some(cell) <==> Serves(s.cache, ch, cell))
      && (Serves(s.cache, ch, cell) ==> s.cache.cells[cell] == Peers(s.inner, ch))
  {
    AtCoherent(limits, ops, k);
    hide At;
    var s := At(limits, ops, k);
    assert LoadCell(s.cache, LoadOuter(s.cache, ch)) == Peers(s.inner, ch);
  }

  /**
   A relay's read is atomic in effect: whatever runs between its two loads,
   joins, leaves, hellos, destruction and re-creation of the channel included,
   it returns the peers the channel had at one instant between them, minus the
   sender.
   */
  lemma RelayReadsOneInstant(limits: Limits, ops: seq<Op>, i: nat, j: nat, ch: ChannelId, exclude: Addr)
    requires Legal(limits, ops) && i <= j <= |ops|
    ensures exists k | i <= k <= j ::
      LoadCell(At(limits, ops, j).cache, LoadOuter(At(limits, ops, i).cache, ch)) - {exclude}
        == Peers(At(limits, ops, k).inner, ch) - {exclude}
  {
    var loaded := LoadOuter(At(limits, ops, i).cache, ch);
    if loaded == None {
      AtCoherent(limits, ops, i);
      hide At;
      assert LoadCell(At(limits, ops, i).cache, loaded) == Peers(At(limits, ops, i).inner, ch);
      assert LoadCell(At(limits, ops, j).cache, loaded) == {};
    } else {
      var k := CellHolds(limits, ops, i, j, ch, loaded.value);
      hide At;
    }
  }
}
