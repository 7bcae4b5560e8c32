/**
 The jitter buffer as the receiver keeps it: a fixed ring of (number, data)
 slots updated in place. Every method is proved against the map of `Jitter`.
 */
module JitterRing {
  import opened Config
  import opened Wrappers
  import opened Serial
  import opened Jitter

  /** `sn == 0` marks an empty slot; its bytes are left over. */
  datatype Slot = Slot(sn: u32, data: Bytes)

  ghost function KeysBelow(content: map<int, Bytes>, bound: int): set<int> {
    set p | p in content && p < bound
  }

  lemma KeysBelowStep(content: map<int, Bytes>, bound: int)
    ensures |KeysBelow(content, bound + 1)| == |KeysBelow(content, bound)| + if bound in content then 1 else 0
  {
    assert KeysBelow(content, bound + 1) == KeysBelow(content, bound) + if bound in content then {bound} else {};
  }

  lemma KeysBelowBounds(b: Buffer)
    requires InWindow(b)
    ensures KeysBelow(b.content, b.pos) == {}
    ensures KeysBelow(b.content, b.pos + JITTER_BUF_MAX) == b.content.Keys
  {
  }

  /** No buffered packet other than the one at `p` uses the slot of `p`, except that 0 shares with its predecessor. */
  lemma OthersElsewhere(b: Buffer, p: int)
    requires InWindow(b) && b.pos <= p < b.pos + JITTER_BUF_MAX
    ensures forall q <- b.content | q != p && (q != p - 1 || Wrap(p) != 0) :: SlotOf(Wrap(q)) != SlotOf(Wrap(p))
  {
    forall q | q in b.content && q != p && (q != p - 1 || Wrap(p) != 0)
      ensures SlotOf(Wrap(q)) != SlotOf(Wrap(p))
    {
      if Wrap(p) == 0 {
        ZeroSharesWithPredecessor(b.pos, q, p);
      } else {
        WindowSlotsDistinct(b.pos, q, p);
      }
    }
  }

  class JitterBuffer {
    var slots: array<Slot>
    var nextSeq: u32
    var started: bool
    var provisional: bool
    var outOfWindow: nat
    var estimate: Estimate
    /** The unbounded position of `nextSeq`, and the packets the ring stands for. */
    ghost var pos: int
    ghost var content: map<int, Bytes>

    ghost predicate Valid()
      reads this, slots
      ensures Valid() ==> slots.Length == JITTER_BUF_MAX && nextSeq == Wrap(pos) && WellFormed(View())
    {
      && slots.Length == JITTER_BUF_MAX
      && nextSeq == Wrap(pos)
      && WellFormed(View())
      && Stored()
      && NoStaleSlot()
    }

    /** Every buffered packet is in the slot of its number. */
    ghost predicate Stored()
      requires slots.Length == JITTER_BUF_MAX
      reads `slots, `content, slots
    {
      forall p <- content :: slots[SlotOf(Wrap(p))] == Slot(Wrap(p), content[p])
    }

    /** Every nonzero slot is that of a buffered packet. */
    ghost predicate NoStaleSlot()
      requires slots.Length == JITTER_BUF_MAX
      reads `slots, `pos, `content, slots
    {
      forall i | 0 <= i < JITTER_BUF_MAX && slots[i].sn != 0 :: Holds(i)
    }

    /** Slot `i` is not stale: its number belongs to a buffered position and to this slot. */
    ghost predicate Holds(i: nat)
      requires i < slots.Length
      reads `slots, `pos, `content, slots
    {
      PosOf(pos, slots[i].sn) in content && SlotOf(slots[i].sn) == i
    }

    /** The slot of `sn` holds `sn` itself. */
    predicate Occupied(sn: u32)
      requires slots.Length == JITTER_BUF_MAX
      reads this, slots
    {
      slots[SlotOf(sn)].sn == sn && sn != 0
    }

    ghost function View(): Buffer
      reads this
    {
      Buffer(pos, started, provisional, content, outOfWindow, estimate)
    }

    constructor ()
      ensures Valid() && fresh(slots) && View() == FRESH
    {
      slots := new Slot[JITTER_BUF_MAX](_ => Slot(0, []));
      nextSeq, started, provisional, outOfWindow, estimate := 0, false, true, 0, FRESH_ESTIMATE;
      pos, content := 0, map[];
    }

    /** A slot answers for a number exactly when the map has the position. */
    lemma SlotMeansBuffered(sn: u32)
      requires Valid()
      ensures Occupied(sn) <==> PosOf(pos, sn) in content
      ensures PosOf(pos, sn) in content ==> slots[SlotOf(sn)].data == content[PosOf(pos, sn)]
    {
      WrapPosOf(pos, sn);
      if Occupied(sn) {
        assert Holds(SlotOf(sn));
      }
    }

    /** The same for the k-th position of the window. */
    lemma WindowSlot(k: nat)
      requires Valid() && k < JITTER_BUF_MAX
      ensures Add(nextSeq, k) == Wrap(pos + k) && PosOf(pos, Add(nextSeq, k)) == pos + k
      ensures Occupied(Add(nextSeq, k)) <==> pos + k in content
    {
      AddIsNext(pos, k);
      PosOfWrap(pos, pos + k);
      SlotMeansBuffered(Add(nextSeq, k));
    }

    method Peek(sn: u32) returns (r: Option<Bytes>)
      requires Valid()
      ensures r == if PosOf(pos, sn) in content then Some(content[PosOf(pos, sn)]) else None
    {
      SlotMeansBuffered(sn);
      var slot := slots[SlotOf(sn)];
      r := if Occupied(sn) then Some(slot.data) else None;
    }

    method CountBuffered() returns (n: nat)
      requires Valid()
      ensures n == |content|
    {
      hide Valid, Wrap, PosOf, Add, SlotOf, Holds, KeysBelow, Occupied;
      KeysBelowBounds(View());
      n := 0;
      for offset := 0 to JITTER_BUF_MAX
        invariant n == |KeysBelow(content, pos + offset)|
      {
        WindowSlot(offset);
        KeysBelowStep(content, pos + offset);
        if Occupied(Add(nextSeq, offset)) {
          n := n + 1;
        }
      }
    }

    method Fits(start: u32) returns (fits: bool)
      requires Valid()
      ensures fits == FitsFrom(View(), start)
    {
      for offset := 0 to JITTER_BUF_MAX
        invariant forall p <- content | p < pos + offset :: Sub(Wrap(p), start) < JITTER_BUF_MAX
      {
        WindowSlot(offset);
        var sn := Add(nextSeq, offset);
        if Occupied(sn) && Sub(sn, start) >= JITTER_BUF_MAX {
          return false;
        }
      }
      return true;
    }

    /** Offset of the first buffered packet, 0 when there is none. */
    method OldestOffset() returns (skipped: nat)
      requires Valid()
      ensures skipped == SkipCount(View())
    {
      hide Wrap, Add, SlotOf, PosOf, NoStaleSlot, Stored;
      skipped := 0;
      while skipped < JITTER_BUF_MAX
        invariant skipped <= JITTER_BUF_MAX
        invariant forall q :: pos <= q < pos + skipped ==> q !in content
      {
        WindowSlot(skipped);
        var found := Peek(Add(nextSeq, skipped));
        if found.Some? {
          return;
        }
        skipped := skipped + 1;
      }
      skipped := 0;
    }

    method SkipToOldest() returns (skipped: nat)
      requires Valid()
      modifies this
      ensures Valid() && slots == old(slots)
      ensures skipped == SkipCount(old(View())) && View() == Skip(old(View()))
    {
      hide Wrap, Add, SlotOf, PosOf, NoStaleSlot, SkipCount;
      skipped := OldestOffset();
      AddIsNext(pos, skipped);
      PopWellFormed(View());
      MoveStart(pos + skipped);
      nextSeq := Add(nextSeq, skipped);
      if skipped > 0 {
        provisional := false;
      }
    }

    /** Moving the start keeps every slot in place as long as the packets stay inside the window. */
    ghost method MoveStart(start: int)
      requires slots.Length == JITTER_BUF_MAX
      requires InWindow(View()) && NoStaleSlot()
      requires InWindow(View().(pos := start))
      modifies this`pos
      ensures pos == start && NoStaleSlot()
    {
      forall i | 0 <= i < JITTER_BUF_MAX && slots[i].sn != 0
        ensures PosOf(start, slots[i].sn) == PosOf(pos, slots[i].sn)
      {
        assert Holds(i);
        var p := PosOf(pos, slots[i].sn);
        WrapPosOf(pos, slots[i].sn);
        PosOfWrap(start, p);
      }
      pos := start;
    }

    method ResetTo(sn: u32)
      requires Valid()
      modifies this, slots
      ensures Valid() && slots == old(slots)
      ensures View() == Jitter.ResetTo(old(View()), sn) && nextSeq == sn
    {
      nextSeq, provisional := sn, true;
      pos, content := sn, map[];
      for i := 0 to JITTER_BUF_MAX
        modifies slots
        invariant forall k | 0 <= k < i :: slots[k].sn == 0
      {
        slots[i] := slots[i].(sn := 0);
      }
      estimate, outOfWindow := FRESH_ESTIMATE, 0;
    }

    /**
     Pop the next packet; `out` is swapped into its slot. Away from sequence
     number 0 a packet's bytes are those the map holds.
     */
    method Pop(out: Bytes) returns (r: PopResult, data: Bytes)
      requires Valid()
      modifies this, slots
      ensures Valid() && slots == old(slots)
      ensures r == PopKind(old(View())) && View() == Jitter.Pop(old(View()))
      ensures r == Packet && old(pos in content) ==> data == old(content)[old(pos)]
      ensures r != Packet ==> data == out
    {
      data := out;
      if !started {
        return Empty, data;
      }
      WindowSlot(0);
      NextSlot();
      var idx := SlotOf(nextSeq);
      if slots[idx].sn == nextSeq {
        data := slots[idx].data;
        Consume(out);
        return Packet, data;
      }
      var hasFuture := HasFuture();
      if hasFuture {
        Consume(slots[idx].data);
        return Missing, data;
      }
      return Empty, data;
    }

    /** The slot of `nextSeq` is free or its own: clearing it loses no other packet. */
    lemma NextSlot()
      requires Valid()
      ensures slots[SlotOf(nextSeq)].sn == nextSeq <==> Wrap(pos) == 0 || pos in content
      ensures slots[SlotOf(nextSeq)].sn == nextSeq || slots[SlotOf(nextSeq)].sn == 0
    {
      var sn := slots[SlotOf(nextSeq)].sn;
      WindowSlot(0);
      if sn != 0 {
        assert Holds(SlotOf(nextSeq));
        var q := PosOf(pos, sn);
        WrapPosOf(pos, sn);
        OthersElsewhere(View(), pos);
      }
    }

    /** A packet after the next one is buffered. */
    method HasFuture() returns (found: bool)
      requires Valid() && pos !in content
      ensures found <==> content != map[]
    {
      hide Wrap, Add, SlotOf, PosOf, NoStaleSlot, Stored;
      found := false;
      for offset := 1 to JITTER_BUF_MAX
        invariant !found && forall q :: pos <= q < pos + offset ==> q !in content
      {
        WindowSlot(offset);
        if Occupied(Add(nextSeq, offset)) {
          return true;
        }
      }
    }

    /** Mark the next slot empty and step past it, leaving `left` in the slot. */
    method Consume(left: Bytes)
      requires Valid() && started
      requires Wrap(pos) == 0 || pos in content || content != map[]
      modifies this, slots
      ensures Valid() && slots == old(slots) && View() == Jitter.Pop(old(View()))
    {
      hide Wrap, Add, SlotOf, PosOf, NoStaleSlot, Stored;
      PopWellFormed(View());
      ClearNext(left);
      AddIsNext(pos, 1);
      MoveStart(pos + 1);
      nextSeq := Add(nextSeq, 1);
      provisional := false;
    }

    /** Empty the slot of `nextSeq` and drop its position from the map. */
    method ClearNext(left: Bytes)
      requires Valid()
      modifies `content, slots
      ensures slots.Length == JITTER_BUF_MAX && Stored() && NoStaleSlot()
      ensures content == old(content) - {pos}
    {
      hide Wrap, SlotOf, PosOf;
      OthersElsewhere(View(), pos);
      OtherSlots();
      var idx := SlotOf(nextSeq);
      slots[idx] := Slot(0, left);
      content := content - {pos};
      forall i | 0 <= i < JITTER_BUF_MAX && slots[i].sn != 0
        ensures Holds(i)
      {
        assert old(Holds(i));
      }
    }

    /** Slots other than that of `nextSeq` hold packets other than the next one. */
    lemma OtherSlots()
      requires Valid()
      ensures forall i | 0 <= i < JITTER_BUF_MAX && slots[i].sn != 0 && i != SlotOf(nextSeq) :: PosOf(pos, slots[i].sn) != pos
    {
      forall i | 0 <= i < JITTER_BUF_MAX && slots[i].sn != 0 && i != SlotOf(nextSeq)
        ensures PosOf(pos, slots[i].sn) != pos
      {
        assert Holds(i);
        WrapPosOf(pos, slots[i].sn);
      }
    }

    method ObserveArrival(sn: u32, now: int)
      modifies `estimate
      ensures estimate == Observe(old(estimate), sn, now)
    {
      estimate := Observe(estimate, sn, now);
    }

    /** Storing `sn` leaves every other slot the slot of a buffered packet. */
    lemma StoreKeepsOthers(sn: u32, data: Bytes)
      requires Valid() && Sub(sn, nextSeq) < JITTER_BUF_MAX
      ensures forall i | 0 <= i < JITTER_BUF_MAX && slots[i].sn != 0 && i != SlotOf(sn) ::
        PosOf(pos, slots[i].sn) in Store(content, PosOf(pos, sn), sn, data) && SlotOf(slots[i].sn) == i
      ensures sn != 0 ==> PosOf(pos, sn) in Store(content, PosOf(pos, sn), sn, data)
      ensures forall q <- Store(content, PosOf(pos, sn), sn, data) | q != PosOf(pos, sn) :: SlotOf(Wrap(q)) != SlotOf(sn)
    {
      var p := PosOf(pos, sn);
      WrapPosOf(pos, sn);
      OthersElsewhere(View(), p);
      forall i | 0 <= i < JITTER_BUF_MAX && slots[i].sn != 0 && i != SlotOf(sn)
        ensures PosOf(pos, slots[i].sn) in Store(content, p, sn, data) && SlotOf(slots[i].sn) == i
      {
        assert Holds(i);
        WrapPosOf(pos, slots[i].sn);
        if sn == 0 && PosOf(pos, slots[i].sn) == p - 1 {
          ZeroSharesWithPredecessor(pos, p - 1, p);
        }
      }
    }

    /** Copy a packet that lies inside the window into the slot of its number. */
    method StoreSlot(sn: u32, data: Bytes)
      requires Valid() && started && Sub(sn, nextSeq) < JITTER_BUF_MAX
      modifies `content, slots
      ensures Valid()
      ensures content == Store(old(content), PosOf(pos, sn), sn, data)
    {
      ghost var p := PosOf(pos, sn);
      WrapPosOf(pos, sn);
      StorePreservesWindow(View(), p, sn, data);
      StoreKeepsOthers(sn, data);
      hide Wrap, SlotOf, PosOf, Store;
      slots[SlotOf(sn)] := Slot(sn, data);
      content := Store(content, p, sn, data);
    }

    /**
     Push a packet into the buffer; true when it was dropped as late. Proved
     for every number, 0 included, and every state of the stream.
     */
    method Push(sn: u32, data: Bytes, now: int) returns (late: bool)
      requires Valid()
      modifies this, slots
      ensures Valid() && slots == old(slots)
      ensures Pushed(View(), late) == Jitter.Push(old(View()), sn, data, now)
    {
      hide Wrap, SlotOf, PosOf, Stored, NoStaleSlot, FitsFrom, Store, Observe;
      if !started {
        Begin(sn);
      }
      if SeqBefore(sn, nextSeq) {
        late := PushBehind(sn, now);
        if late {
          return;
        }
      }
      PushAhead(sn, data, now);
      late := false;
    }

    /** A number behind the window restarts the stream, moves its start back, or is late. */
    method PushBehind(sn: u32, now: int) returns (late: bool)
      requires Valid() && started && IsBehind(View(), sn)
      modifies this, slots
      ensures Valid() && slots == old(slots)
      ensures
        var b := old(View());
        if Behind(b, sn) > JITTER_BUF_MAX * 2 then !late && View() == Jitter.ResetTo(b, sn)
        else if b.provisional && Behind(b, sn) <= REANCHOR_MAX && FitsFrom(b, sn) then
          !late && View() == b.(pos := b.pos - Behind(b, sn))
        else late && View() == b.(estimate := Observe(b.estimate, sn, now))
      ensures !late ==> nextSeq == sn
    {
      hide Wrap, SlotOf, PosOf, Stored, NoStaleSlot, FitsFrom, Observe;
      var gap := Sub(nextSeq, sn);
      var fits := Fits(sn);
      if gap > JITTER_BUF_MAX * 2 {
        ResetTo(sn);
      } else if provisional && gap <= REANCHOR_MAX && fits {
        Reanchor(sn);
      } else {
        ObserveArrival(sn, now);
        return true;
      }
      return false;
    }

    /** A number at or ahead of the start is stored, or counted as out of window until the stream resyncs onto it. */
    method PushAhead(sn: u32, data: Bytes, now: int)
      requires Valid() && started
      modifies this, slots
      ensures Valid() && slots == old(slots)
      ensures
        var b := old(View());
        View() == if Sub(sn, old(nextSeq)) < JITTER_BUF_MAX then Accept(b.(outOfWindow := 0), sn, data, now)
                  else if b.outOfWindow + 1 >= JITTER_RESYNC_AFTER then Accept(Jitter.ResetTo(b, sn), sn, data, now)
                  else b.(outOfWindow := b.outOfWindow + 1)
    {
      hide Wrap, SlotOf, PosOf, Stored, NoStaleSlot, Store, Observe;
      var ahead := Sub(sn, nextSeq);
      if ahead >= JITTER_BUF_MAX {
        if outOfWindow + 1 >= JITTER_RESYNC_AFTER {
          ResetTo(sn);
        } else {
          outOfWindow := outOfWindow + 1;
          return;
        }
      } else {
        outOfWindow := 0;
      }
      ObserveArrival(sn, now);
      StoreSlot(sn, data);
    }

    method Begin(sn: u32)
      requires Valid() && !started
      modifies this
      ensures Valid() && slots == old(slots) && View() == Start(old(View()), sn)
    {
      nextSeq, started := sn, true;
      pos := sn;
    }

    /** The late packet `sn` becomes the start of the stream. */
    method Reanchor(sn: u32)
      requires Valid() && IsBehind(View(), sn) && Behind(View(), sn) <= REANCHOR_MAX && FitsFrom(View(), sn)
      modifies `pos, `nextSeq
      ensures Valid() && View() == old(View()).(pos := old(pos) - Behind(old(View()), sn))
      ensures nextSeq == sn
    {
      ReanchorKeepsWindow(View(), sn);
      MoveStart(pos - Behind(View(), sn));
      nextSeq := sn;
    }

    method EndOfTalkspurt()
      requires Valid()
      modifies `estimate
      ensures Valid() && estimate == EndTalkspurt(old(estimate))
    {
      estimate := EndTalkspurt(estimate);
    }
  }
}
