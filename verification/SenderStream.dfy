/** One sender's receive state as the engine keeps it, updated in place and proved against `Streams`. */
module SenderStreams {
  import opened Config
  import opened Wrappers
  import opened Serial
  import opened Jitter
  import opened JitterRing
  import opened Streams
  import Depths
  import Stats

  /** Counters of audible repairs. */
  datatype Repairs = Repairs(expanded: nat, dropped: nat, fec: nat, plc: nat)

  function Tally(d: Repairs, op: Option<FrameOp>, expanded: nat): Repairs {
    Repairs(
      d.expanded + expanded,
      d.dropped + if op.Some? && op.value.Accelerated? then 1 else 0,
      d.fec + if op.Some? && op.value.Fec? then 1 else 0,
      d.plc + if op.Some? && op.value.Plc? then 1 else 0)
  }

  class AudioDiagnostics {
    var repairs: Repairs

    constructor ()
      ensures repairs == Repairs(0, 0, 0, 0)
    {
      repairs := Repairs(0, 0, 0, 0);
    }
  }

  /** The packets really fed to the decoder are those of the model; the phantom packet's bytes are unknown. */
  ghost predicate FedAs(fed: seq<Bytes>, model: seq<Option<Bytes>>) {
    |fed| == |model| && forall k | 0 <= k < |fed| && model[k].Some? :: fed[k] == model[k].value
  }

  /** The stream and its frame are what the model renders. */
  ghost predicate Performed(r: Rendered, s: Stream, op: Option<FrameOp>, fed: seq<Bytes>) {
    s == r.stream && op == r.op && FedAs(fed, r.fed)
  }

  /** The statistics and counters moved by what the model records. */
  ghost predicate Recorded(r: Rendered, op: Option<FrameOp>,
    w0: Stats.Window, w1: Stats.Window, d0: Repairs, d1: Repairs)
  {
    w1 == Stats.RecordAll(w0, r.outcomes) && d1 == Tally(d0, op, r.expanded)
  }

  class SenderStream {
    const jitter: JitterBuffer
    const depths: Depths.DepthWindow
    var playing: bool
    var firstIdle: Option<int>
    var hold: nat
    var pendingExpand: nat
    /** The shared decode buffer that packets are swapped through. */
    var scratch: Bytes

    ghost predicate Valid()
      reads this, jitter, jitter.slots, depths, depths.ring
    {
      && jitter.Valid()
      && depths.Valid()
      && depths.ring as object != jitter.slots
      && Streams.WellFormed(View())
    }

    ghost function View(): Stream
      reads this, jitter, depths
    {
      Stream(jitter.View(), playing, firstIdle, hold, pendingExpand, depths.history)
    }

    constructor ()
      ensures Valid() && fresh(jitter) && fresh(jitter.slots) && fresh(depths) && fresh(depths.ring)
      ensures View() == Streams.FRESH
    {
      jitter := new JitterBuffer();
      depths := new Depths.DepthWindow();
      playing, firstIdle, hold, pendingExpand, scratch := false, None, 0, 0, [];
    }

    method Receive(sn: u32, data: Bytes, now: int) returns (late: bool)
      requires Valid()
      modifies this, jitter, jitter.slots
      ensures Valid() && jitter.slots == old(jitter.slots)
      ensures Received(View(), late) == Streams.Receive(old(View()), sn, data, now)
    {
      ReceiveWellFormed(View(), sn, data, now);
      late := jitter.Push(sn, data, now);
      if !late && !playing && firstIdle == None {
        firstIdle := Some(now);
      }
    }

    method GoIdle()
      requires jitter.Valid() && depths.Valid() && depths.ring as object != jitter.slots
      modifies this, jitter, depths
      ensures Valid() && jitter.slots == old(jitter.slots) && depths.ring == old(depths.ring)
      ensures View() == Streams.GoIdle(old(View()))
    {
      playing, hold, pendingExpand, firstIdle := false, 0, 0, None;
      depths.Reset();
      jitter.EndOfTalkspurt();
    }

    method ShouldAccelerate(target: nat, quiet: bool) returns (r: bool)
      requires Valid()
      ensures r == Streams.ShouldAccelerate(depths.history, target, quiet)
    {
      if depths.len < PLAYOUT_ACCEL_MIN_OBSERVED {
        return false;
      }
      var min := depths.Min();
      if min <= target + 1 {
        return false;
      }
      var force := target + 1 + PLAYOUT_ACCEL_FORCE_EXCESS;
      if JITTER_BUF_MAX - 2 < force {
        force := JITTER_BUF_MAX - 2;
      }
      return min > force || quiet;
    }

    /**
     Take the next packet out of the jitter buffer and count it. The bytes in
     `scratch` are the packet's, unless it is the phantom at number 0.
     */
    method TakePacket(stats: Stats.NetworkStats)
      requires Valid() && PopKind(jitter.View()) == PopResult.Packet
      modifies this`scratch, jitter, jitter.slots, stats
      ensures jitter.slots == old(jitter.slots) && jitter.Valid() && depths.Valid()
      ensures jitter.View() == Jitter.Pop(old(jitter.View()))
      ensures stats.View() == Stats.Record(old(stats.View()), true)
      ensures FedAs([scratch], [Head(old(jitter.View()))])
    {
      hide Jitter.Pop, PopKind, Wrap, Jitter.WellFormed, Stats.Record;
      var r, data := jitter.Pop(scratch);
      scratch := data;
      stats.Outcome(true);
    }

    /**
     The packet `sn` was just popped: play it, or drop it and play the one
     behind it when the buffer has been too deep for long enough.
     */
    method PlayPacket(sn: u32, ghost head: Option<Bytes>, target: nat, quiet: bool,
      stats: Stats.NetworkStats, diag: AudioDiagnostics)
      returns (op: Option<FrameOp>, fed: seq<Bytes>)
      requires Valid() && playing && jitter.started && FedAs([scratch], [head])
      modifies this, jitter, jitter.slots, depths, stats, diag
      ensures Valid() && jitter.slots == old(jitter.slots) && depths.ring == old(depths.ring)
      ensures Performed(Streams.PlayPacket(old(View()), sn, head, target, quiet), View(), op, fed)
      ensures Recorded(Streams.PlayPacket(old(View()), sn, head, target, quiet), op,
        old(stats.View()), stats.View(), old(diag.repairs), diag.repairs)
    {
      hide Jitter.Pop, Wrap, PosOf, Jitter.WellFormed, Stats.Record, Stats.RecordAll, Streams.ShouldAccelerate,
        JitterBuffer.Valid, Depths.DepthWindow.Valid;
      Stats.RecordShort(stats.View(), true, true);
      stats.Outcome(true);
      EndUnderrun(diag);
      fed := [scratch];
      var drop := ShouldAccelerate(target, quiet);
      var played := jitter.nextSeq;
      PosOfWrap(jitter.pos, jitter.pos);
      var next := jitter.Peek(played);
      if drop && next.Some? {
        TakePacket(stats);
        fed := fed + [scratch];
        diag.repairs := diag.repairs.(dropped := diag.repairs.dropped + 1);
        depths.Reset();
        return Some(Accelerated(sn, played)), fed;
      }
      return Some(FrameOp.Packet(sn)), fed;
    }

    /** A packet arrived in time after all: the frames held back were expansions. */
    method EndUnderrun(diag: AudioDiagnostics)
      modifies `hold, `pendingExpand, diag
      ensures hold == 0 && pendingExpand == 0
      ensures diag.repairs == old(diag.repairs).(expanded := old(diag.repairs).expanded + old(pendingExpand))
    {
      hold := 0;
      if pendingExpand > 0 {
        diag.repairs := diag.repairs.(expanded := diag.repairs.expanded + pendingExpand);
        pendingExpand := 0;
      }
    }

    method ObserveDepth()
      requires jitter.Valid() && depths.Valid() && depths.ring as object != jitter.slots
      modifies depths, depths.ring
      ensures depths.Valid() && depths.ring == old(depths.ring)
      ensures depths.history == old(depths.history) + [|jitter.View().content|]
    {
      AtMostCapacity(jitter.View());
      var depth := jitter.CountBuffered();
      depths.Push(depth);
    }

    /** A lost packet: FEC from the packet now at the start, or PLC. */
    method ConcealLoss(fecOk: bool, diag: AudioDiagnostics) returns (op: FrameOp)
      requires Valid()
      modifies diag
      ensures op == Conceal(jitter.View(), fecOk)
      ensures diag.repairs == Tally(old(diag.repairs), Some(op), 0)
    {
      PosOfWrap(jitter.pos, jitter.pos);
      var next := jitter.nextSeq;
      var packet := jitter.Peek(next);
      if packet.Some? && packet.value != [] && packet.value[0] >> 3 < 16 && fecOk {
        diag.repairs := diag.repairs.(fec := diag.repairs.fec + 1);
        return Fec(next);
      }
      diag.repairs := diag.repairs.(plc := diag.repairs.plc + 1);
      return Plc;
    }

    /** Nothing buffered: bridge the gap for a few frames, then go idle. */
    method Underrun() returns (op: Option<FrameOp>)
      requires Valid() && playing
      modifies this, jitter, depths
      ensures Valid() && jitter.slots == old(jitter.slots) && depths.ring == old(depths.ring)
      ensures
        Performed(Streams.Underrun(old(View())), View(), op, [])
    {
      hide JitterBuffer.Valid, Depths.DepthWindow.Valid;
      hold := hold + 1;
      if hold > PLAYOUT_HOLD_FRAMES {
        GoIdle();
        return None;
      }
      pendingExpand := pendingExpand + 1;
      return Some(Expand);
    }

    /** One playing frame: decode, conceal, expand, or go idle. */
    method RenderPlaying(target: nat, i: Input, stats: Stats.NetworkStats, diag: AudioDiagnostics)
      returns (op: Option<FrameOp>, fed: seq<Bytes>)
      requires Valid() && playing
      modifies this, jitter, jitter.slots, depths, depths.ring, stats, diag
      ensures Valid() && jitter.slots == old(jitter.slots) && depths.ring == old(depths.ring)
      ensures Performed(Streams.RenderPlaying(old(View()), target, i), View(), op, fed)
      ensures Recorded(Streams.RenderPlaying(old(View()), target, i), op,
        old(stats.View()), stats.View(), old(diag.repairs), diag.repairs)
    {
      hide Jitter.Pop, Wrap, PosOf, Jitter.InWindow, Stats.Record, Stats.RecordAll, Streams.PlayPacket, Conceal, JitterBuffer.Valid,
        Depths.DepthWindow.Valid, Streams.ShouldAccelerate;
      Stats.RecordShort(stats.View(), true, true);
      Stats.RecordShort(stats.View(), false, true);
      ObserveDepth();
      var sn := jitter.nextSeq;
      ghost var head := Head(jitter.View());
      var popped, data := jitter.Pop(scratch);
      scratch := data;
      match popped
      case Packet =>
        op, fed := PlayPacket(sn, head, target, i.quiet, stats, diag);
      case Missing =>
        stats.Outcome(false);
        hold := 0;
        var o := ConcealLoss(i.fecOk, diag);
        op, fed := Some(o), [];
      case Empty =>
        op := Underrun();
        fed := [];
    }

    /** Leave idle: skip a hole at the head, counting its losses. */
    method Activate(stats: Stats.NetworkStats)
      requires Valid() && !playing && jitter.started
      modifies this, jitter, depths, stats
      ensures Valid() && jitter.slots == old(jitter.slots) && depths.ring == old(depths.ring)
      ensures View() == Streams.Activate(old(View()))
      ensures stats.View() == Stats.RecordAll(old(stats.View()), Losses(SkipCount(old(jitter.View()))))
    {
      hide Skip, SkipCount, Stats.Record, JitterBuffer.Valid;
      playing, firstIdle, hold := true, None, 0;
      depths.Reset();
      var skipped := jitter.SkipToOldest();
      ghost var w := stats.View();
      assert Losses(0) == [];
      for k := 0 to skipped
        modifies stats
        invariant stats.View() == Stats.RecordAll(w, Losses(k))
      {
        stats.Outcome(false);
        assert Losses(k + 1)[..k] == Losses(k);
      }
    }

    /** Produce this stream's next frame, or `None` while idle. */
    method Render(i: Input, stats: Stats.NetworkStats, diag: AudioDiagnostics)
      returns (op: Option<FrameOp>, fed: seq<Bytes>)
      requires Valid()
      modifies this, jitter, jitter.slots, depths, depths.ring, stats, diag
      ensures Valid() && jitter.slots == old(jitter.slots) && depths.ring == old(depths.ring)
      ensures Performed(Streams.Render(old(View()), i), View(), op, fed)
      ensures Recorded(Streams.Render(old(View()), i), op,
        old(stats.View()), stats.View(), old(diag.repairs), diag.repairs)
    {
      hide Streams.RenderPlaying, JitterBuffer.Valid, Depths.DepthWindow.Valid, TargetFrames, Stats.RecordAll, Skip, SkipCount;
      var target := TargetFrames(jitter.estimate.jitterMs);
      Stats.RecordShort(stats.View(), true, true);
      Stats.RecordAllConcat(stats.View(), Losses(SkipCount(jitter.View())),
        Streams.RenderPlaying(Streams.Activate(View()), target, i).outcomes);
      if !playing {
        var buffered := jitter.CountBuffered();
        if buffered == 0 {
          firstIdle := None;
          return None, [];
        }
        var arrived := firstIdle.GetOr(i.now);
        firstIdle := Some(arrived);
        var lead := target + i.pull;
        var waited := Elapsed(i.now, arrived) >= FRAME_NS * lead;
        if buffered < lead && !waited {
          return None, [];
        }
        Activate(stats);
      }
      op, fed := RenderPlaying(target, i, stats, diag);
    }
  }
}
