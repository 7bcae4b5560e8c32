/**
 What the jitter buffer means: a map from stream positions to packets.

 The window is [pos, pos + JITTER_BUF_MAX); `pos` is the unbounded position of
 the next sequence number to play.
 */
module Jitter {
  import opened Config
  import opened Wrappers
  import opened Serial

  type Bytes = seq<bv8>

  /** How far before a provisional start a packet may still become the start. */
  const REANCHOR_MAX: nat := JITTER_BUF_MAX / 2
  const TALKSPURT_ONSET_PACKETS: nat := VAD_PREROLL_FRAMES + 1
  const FRAME_MS: real := 20.0

  /** The arrival-jitter estimate (section 6.4.1 of RFC 3550); times are nanoseconds. */
  datatype Estimate = Estimate(jitterMs: real, reference: Option<(int, u32)>, spurtPackets: u32)

  const FRESH_ESTIMATE := Estimate(0.0, None, 0)

  datatype Buffer = Buffer(
    pos: int,
    started: bool,
    provisional: bool,
    content: map<int, Bytes>,
    outOfWindow: nat,
    estimate: Estimate)

  datatype PopResult = Packet | Missing | Empty

  function Abs(x: real): real {
    if x < 0.0 then -x else x
  }

  function Elapsed(now: int, since: int): nat {
    if now > since then now - since else 0
  }

  function Observe(e: Estimate, sn: u32, now: int): Estimate {
    var packets := if e.spurtPackets + 1 < U32 then e.spurtPackets + 1 else e.spurtPackets;
    if packets < TALKSPURT_ONSET_PACKETS then
      e.(spurtPackets := packets)
    else
      var jitterMs :=
        match e.reference
        case None => e.jitterMs
        case Some((at, refSeq)) =>
          var d := Elapsed(now, at) as real / 1_000_000.0 - Signed(Sub(sn, refSeq)) as real * FRAME_MS;
          e.jitterMs + (Abs(d) - e.jitterMs) / 16.0;
      Estimate(jitterMs, Some((now, sn)), packets)
  }

  function EndTalkspurt(e: Estimate): Estimate {
    e.(reference := None, spurtPackets := 0)
  }

  function Ceil(x: real): int {
    -((-x).Floor)
  }

  /** How deep to buffer, in frames: one frame and twice the jitter, within its bounds. */
  function TargetFrames(jitterMs: real): (t: nat)
    ensures PLAYOUT_TARGET_MIN_FRAMES <= t <= PLAYOUT_TARGET_MAX_FRAMES
  {
    var raw := Ceil((2.0 * jitterMs + FRAME_MS) / FRAME_MS);
    if raw < PLAYOUT_TARGET_MIN_FRAMES then PLAYOUT_TARGET_MIN_FRAMES
    else if raw > PLAYOUT_TARGET_MAX_FRAMES then PLAYOUT_TARGET_MAX_FRAMES
    else raw
  }

  /** The target is the least number of frames, two at least, that covers one frame and twice the jitter; or it is ten. */
  lemma TargetIsLeast(jitterMs: real)
    ensures
      var t := TargetFrames(jitterMs);
      && 2 <= t <= 10
      && (t == 10 || 20.0 * t as real >= 20.0 + 2.0 * jitterMs)
      && (t == 2 || 20.0 * (t - 1) as real < 20.0 + 2.0 * jitterMs)
  {
  }

  /** Every buffered position lies in the window and carries a nonzero sequence number. */
  ghost predicate InWindow(b: Buffer) {
    forall p <- b.content :: b.pos <= p < b.pos + JITTER_BUF_MAX && Wrap(p) != 0
  }

  ghost predicate WellFormed(b: Buffer) {
    && InWindow(b)
    && (!b.started ==> b.content == map[] && b.provisional)
    && b.outOfWindow < JITTER_RESYNC_AFTER
  }

  const FRESH := Buffer(0, false, true, map[], 0, FRESH_ESTIMATE)

  /** The buffer emptied for a new stream that starts at `sn`. */
  function ResetTo(b: Buffer, sn: u32): Buffer {
    Buffer(sn, b.started, true, map[], 0, FRESH_ESTIMATE)
  }

  function Start(b: Buffer, sn: u32): Buffer {
    if b.started then b else b.(pos := sn, started := true)
  }

  predicate FitsFrom(b: Buffer, start: u32) {
    forall p <- b.content :: Sub(Wrap(p), start) < JITTER_BUF_MAX
  }

  /** Storing a packet: sequence number 0 is never readable and evicts the predecessor that shares its slot. */
  function Store(content: map<int, Bytes>, p: int, sn: u32, data: Bytes): map<int, Bytes> {
    if sn == 0 then content - {p - 1} else content[p := data]
  }

  datatype Pushed = Pushed(buffer: Buffer, late: bool)

  /** The sequence number lies behind the window by this much. */
  function Behind(b: Buffer, sn: u32): u32 {
    Sub(Wrap(b.pos), sn)
  }

  predicate IsBehind(b: Buffer, sn: u32) {
    SeqBefore(sn, Wrap(b.pos))
  }

  /** The push of `sn` restarts the stream: a large backward jump, or the last straw of a forward gap. */
  predicate PushResets(b: Buffer, sn: u32) {
    var s := Start(b, sn);
    if IsBehind(s, sn) then Behind(s, sn) > JITTER_BUF_MAX * 2
    else Sub(sn, Wrap(s.pos)) >= JITTER_BUF_MAX && s.outOfWindow + 1 >= JITTER_RESYNC_AFTER
  }

  /** Store `sn` at its place in the window of `b`. */
  function Accept(b: Buffer, sn: u32, data: Bytes, now: int): Buffer {
    b.(content := Store(b.content, PosOf(b.pos, sn), sn, data),
       estimate := Observe(b.estimate, sn, now))
  }

  function Push(b0: Buffer, sn: u32, data: Bytes, now: int): Pushed {
    var b := Start(b0, sn);
    if PushResets(b0, sn) then
      Pushed(Accept(ResetTo(b, sn), sn, data, now), false)
    else if IsBehind(b, sn) then
      var gap := Behind(b, sn);
      if b.provisional && gap <= REANCHOR_MAX && FitsFrom(b, sn) then
        Pushed(Accept(b.(pos := b.pos - gap, outOfWindow := 0), sn, data, now), false)
      else
        Pushed(b.(estimate := Observe(b.estimate, sn, now)), true)
    else if Sub(sn, Wrap(b.pos)) >= JITTER_BUF_MAX then
      Pushed(b.(outOfWindow := b.outOfWindow + 1), false)
    else
      Pushed(Accept(b.(outOfWindow := 0), sn, data, now), false)
  }

  /** The first buffered position in [from, upto), or `upto`. */
  function Oldest(content: map<int, Bytes>, from: int, upto: int): (p: int)
    requires from <= upto
    ensures from <= p <= upto
    ensures forall q :: from <= q < p ==> q !in content
    ensures p < upto ==> p in content
    decreases upto - from
  {
    if from == upto || from in content then from else Oldest(content, from + 1, upto)
  }

  /** Positions passed over to reach the oldest buffered packet (0 when nothing is buffered). */
  function SkipCount(b: Buffer): (n: nat)
    ensures n < JITTER_BUF_MAX
  {
    var p := Oldest(b.content, b.pos, b.pos + JITTER_BUF_MAX);
    if p == b.pos + JITTER_BUF_MAX then 0 else p - b.pos
  }

  function Skip(b: Buffer): (r: Buffer)
    ensures r.started == b.started && r.estimate == b.estimate && r.content == b.content
  {
    var n := SkipCount(b);
    b.(pos := b.pos + n, provisional := b.provisional && n == 0)
  }

  /** What popping does to the buffer; at sequence number 0 an empty slot reads as a packet. */
  function PopKind(b: Buffer): PopResult {
    if !b.started then Empty
    else if Wrap(b.pos) == 0 || b.pos in b.content then Packet
    else if b.content != map[] then Missing
    else Empty
  }

  function Pop(b: Buffer): (r: Buffer)
    ensures r.started == b.started && r.estimate == b.estimate
    ensures PopKind(b) == Empty ==> r == b
  {
    if PopKind(b) == Empty then b
    else b.(pos := b.pos + 1, provisional := false, content := b.content - {b.pos})
  }

  lemma StorePreservesWindow(b: Buffer, p: int, sn: u32, data: Bytes)
    requires InWindow(b) && b.pos <= p < b.pos + JITTER_BUF_MAX && Wrap(p) == sn
    ensures InWindow(b.(content := Store(b.content, p, sn, data)))
  {
  }

  /** Every push keeps the buffer well formed, whatever the sequence number and whether it restarts the stream. */
  lemma PushWellFormed(b: Buffer, sn: u32, data: Bytes, now: int)
    requires WellFormed(b)
    ensures WellFormed(Push(b, sn, data, now).buffer)
    ensures Push(b, sn, data, now).buffer.started
  {
    var s := Start(b, sn);
    WrapPosOf(s.pos, sn);
    WrapPosOf(sn, sn);
    if !PushResets(b, sn) && IsBehind(s, sn) {
      ReanchorKeepsWindow(s, sn);
    }
  }

  /** Moving the start back by `gap` puts it exactly on the late packet and keeps every buffered packet in the ring. */
  lemma ReanchorKeepsWindow(b: Buffer, sn: u32)
    requires InWindow(b) && IsBehind(b, sn)
    ensures var start := b.pos - Behind(b, sn);
      Wrap(start) == sn && (Behind(b, sn) <= JITTER_BUF_MAX && FitsFrom(b, sn) ==> InWindow(b.(pos := start)))
      && PosOf(start, sn) == start
  {
    var gap := Behind(b, sn);
    var start := b.pos - gap;
    SubOfPositions(b.pos, sn);
    assert Wrap(sn) == sn;
    assert gap == (b.pos - sn) % U32;
    ModShift(sn, (b.pos - sn) / U32);
    assert start == sn + U32 * ((b.pos - sn) / U32);
    PosOfWrap(start, start);
    if gap <= JITTER_BUF_MAX && FitsFrom(b, sn) {
      forall p | p in b.content
        ensures start <= p < start + JITTER_BUF_MAX
      {
        SubOfPositions(p, start);
        assert Sub(Wrap(p), sn) < JITTER_BUF_MAX;
      }
    }
  }

  /** The push of number 0 lands behind a buffered packet, whose slot it shares. */
  predicate Evicts(b: Buffer, sn: u32) {
    && sn == 0 && !IsBehind(b, sn)
    && Sub(sn, Wrap(b.pos)) < JITTER_BUF_MAX && PosOf(b.pos, sn) - 1 in b.content
  }

  /**
   A push that restarts nothing loses no buffered packet if and only if it is
   not of number 0 landing right behind one; and then it loses that one. A
   packet that stays keeps its bytes, unless the push is its duplicate.
   */
  lemma PushLosesExactly(b: Buffer, sn: u32, data: Bytes, now: int)
    requires WellFormed(b) && !PushResets(b, sn)
    ensures
      var p := Push(b, sn, data, now).buffer;
      && ((forall q <- b.content :: q in p.content) <==> !Evicts(Start(b, sn), sn))
      && (forall q <- b.content :: q in p.content || (Evicts(Start(b, sn), sn) && q == PosOf(Start(b, sn).pos, sn) - 1))
      && (forall q <- b.content :: q in p.content && Wrap(q) != sn ==> p.content[q] == b.content[q])
  {
    var s := Start(b, sn);
    WrapPosOf(s.pos, sn);
    if IsBehind(s, sn) {
      ReanchorKeepsWindow(s, sn);
      WrapPosOf(s.pos - Behind(s, sn), sn);
    }
    hide Observe, FitsFrom;
  }

  /** How far ahead of the start `sn` lies, read as a signed 32-bit distance. */
  function Distance(b: Buffer, sn: u32): int {
    Signed(Sub(sn, Wrap(b.pos)))
  }

  /** The position at that distance carries `sn`. */
  lemma DistanceMeans(b: Buffer, sn: u32)
    ensures -HALF <= Distance(b, sn) < HALF && Wrap(b.pos + Distance(b, sn)) == sn
  {
  }

  /** No other position that near does. */
  lemma DistanceUnique(b: Buffer, sn: u32, p: int)
    requires -HALF <= p - b.pos < HALF && Wrap(p) == sn
    ensures p == b.pos + Distance(b, sn)
  {
    SubOfPositions(p, b.pos);
    hide Wrap, Sub;
  }

  /** The buffer of a stream that starts over with one packet, just observed. */
  ghost predicate StartsOver(b: Buffer, sn: u32, data: Bytes, now: int) {
    && b.started && b.provisional && b.pos == sn
    && b.content == map[b.pos := data] && b.outOfWindow == 0
    && b.estimate == Observe(FRESH_ESTIMATE, sn, now)
  }

  /** `b` with the packet of position `p` added, and its arrival observed. */
  ghost predicate Gains(b: Buffer, r: Buffer, p: int, sn: u32, data: Bytes, now: int) {
    && r.content == b.content[p := data] && r.outOfWindow == 0
    && r.estimate == Observe(b.estimate, sn, now) && r.started && r.provisional == b.provisional
  }

  /**
   What a push of a nonzero number does to a stream that has started, by the
   number's signed distance `d` from the start. Behind by more than two rings:
   the stream starts over. Behind by at most half a ring, before anything was
   consumed and with room for what is buffered: it becomes the start. Otherwise
   behind: late. Inside the window: buffered. Ahead of it: counted, and at the
   third in a row the stream starts over. Late it is in the one case only.
   */
  lemma PushExactly(b: Buffer, sn: u32, data: Bytes, now: int)
    requires WellFormed(b) && b.started && sn != 0
    ensures
      var (d, r) := (Distance(b, sn), Push(b, sn, data, now));
      var p := b.pos + d;
      if -HALF < d < -30 then !r.late && StartsOver(r.buffer, sn, data, now)
      else if -HALF < d < 0 then
        if b.provisional && -7 <= d && forall q <- b.content :: q < p + 15
        then !r.late && Gains(b, r.buffer, p, sn, data, now) && r.buffer.pos == p
        else r.late && r.buffer == b.(estimate := Observe(b.estimate, sn, now))
      else if 0 <= d < 15 then !r.late && Gains(b, r.buffer, p, sn, data, now) && r.buffer.pos == b.pos
      else if b.outOfWindow < 2 then !r.late && r.buffer == b.(outOfWindow := b.outOfWindow + 1)
      else !r.late && StartsOver(r.buffer, sn, data, now)
  {
    hide Wrap, Sub, Signed, SeqBefore, PosOf, FitsFrom, Observe, Distance, Push;
    DistanceMeans(b, sn);
    if -HALF < Distance(b, sn) < 0 {
      PushBehindExactly(b, sn, data, now);
    } else {
      PushAheadExactly(b, sn, data, now);
    }
  }

  lemma PushBehindExactly(b: Buffer, sn: u32, data: Bytes, now: int)
    requires WellFormed(b) && b.started && sn != 0 && -HALF < Distance(b, sn) < 0
    ensures
      var (d, r) := (Distance(b, sn), Push(b, sn, data, now));
      var p := b.pos + d;
      if d < -30 then !r.late && StartsOver(r.buffer, sn, data, now)
      else if b.provisional && -7 <= d && forall q <- b.content :: q < p + 15
      then !r.late && Gains(b, r.buffer, p, sn, data, now) && r.buffer.pos == p
      else r.late && r.buffer == b.(estimate := Observe(b.estimate, sn, now))
  {
    DistanceCases(b, sn);
    FitsByPosition(b, sn);
    hide Wrap, Sub, Signed, SeqBefore, PosOf, FitsFrom, Observe, Distance;
    assert ResetTo(b, sn).content[sn := data] == map[sn := data];
  }

  lemma PushAheadExactly(b: Buffer, sn: u32, data: Bytes, now: int)
    requires WellFormed(b) && b.started && sn != 0 && !(-HALF < Distance(b, sn) < 0)
    ensures
      var (d, r) := (Distance(b, sn), Push(b, sn, data, now));
      if 0 <= d < 15 then !r.late && Gains(b, r.buffer, b.pos + d, sn, data, now) && r.buffer.pos == b.pos
      else if b.outOfWindow < 2 then !r.late && r.buffer == b.(outOfWindow := b.outOfWindow + 1)
      else !r.late && StartsOver(r.buffer, sn, data, now)
  {
    DistanceCases(b, sn);
    hide Wrap, Sub, Signed, SeqBefore, PosOf, FitsFrom, Observe, Distance;
    assert ResetTo(b, sn).content[sn := data] == map[sn := data];
  }

  /** The first packet a stream ever sees starts it. */
  lemma PushStarts(b: Buffer, sn: u32, data: Bytes, now: int)
    requires WellFormed(b) && !b.started && sn != 0
    ensures
      var r := Push(b, sn, data, now);
      !r.late && r.buffer.pos == sn && r.buffer.started && Gains(b, r.buffer, sn, sn, data, now)
  {
    hide Observe, Wrap, Sub, SeqBefore, PosOf, FitsFrom, InWindow;
    OwnPlace(sn);
  }

  /** A stream that starts at `sn` has it at its start. */
  lemma OwnPlace(sn: u32)
    ensures !SeqBefore(sn, Wrap(sn)) && Sub(sn, Wrap(sn)) == 0 && PosOf(sn, sn) == sn
  {
  }

  /** The source's unsigned comparisons, told by the signed distance. */
  lemma DistanceCases(b: Buffer, sn: u32)
    ensures IsBehind(b, sn) <==> -HALF < Distance(b, sn) < 0
    ensures IsBehind(b, sn) ==> Behind(b, sn) == -Distance(b, sn)
    ensures !IsBehind(b, sn) ==> (Sub(sn, Wrap(b.pos)) < JITTER_BUF_MAX <==> 0 <= Distance(b, sn) < JITTER_BUF_MAX)
    ensures 0 <= Distance(b, sn) ==> PosOf(b.pos, sn) == b.pos + Distance(b, sn)
    ensures PosOf(sn, sn) == sn && Wrap(sn) == sn
    ensures PosOf(b.pos + Distance(b, sn), sn) == b.pos + Distance(b, sn)
  {
    DistanceMeans(b, sn);
    PosOfWrap(b.pos + Distance(b, sn), b.pos + Distance(b, sn));
  }

  lemma FitsByPosition(b: Buffer, sn: u32)
    requires InWindow(b) && -HALF < Distance(b, sn) < 0
    ensures -7 <= Distance(b, sn) ==>
      (FitsFrom(b, sn) <==> forall q <- b.content :: q < b.pos + Distance(b, sn) + 15)
  {
    var p := b.pos + Distance(b, sn);
    DistanceMeans(b, sn);
    if -7 <= Distance(b, sn) {
      forall q | q in b.content
        ensures Sub(Wrap(q), sn) == q - p
      {
        SubOfPositions(q, p);
      }
    }
    hide Wrap, Sub, Signed;
  }

  /** A stream whose first packet carries number 0 plays a packet it never buffered. */
  lemma PhantomStart(data: Bytes, now: int)
    ensures
      var p := Push(FRESH, 0, data, now).buffer;
      p.content == map[] && PopKind(p) == Packet && Wrap(p.pos) == 0
  {
    hide Observe;
  }

  lemma PopWellFormed(b: Buffer)
    requires WellFormed(b)
    ensures WellFormed(Pop(b))
    ensures WellFormed(Skip(b))
  {
  }

  /**
   Popping agrees with the map, away from one number: the result is `Packet`
   exactly when the next position is buffered, if and only if the next
   sequence number is not 0.
   */
  lemma PopAgreesIffNonzero(b: Buffer)
    requires WellFormed(b) && b.started
    ensures (PopKind(b) == Packet <==> b.pos in b.content) <==> Wrap(b.pos) != 0
  {
  }

  /** Skipping lands on a buffered packet with nothing buffered before it, and loses nothing. */
  lemma SkipFindsOldest(b: Buffer)
    requires WellFormed(b) && b.content != map[]
    ensures Skip(b).pos in b.content && Skip(b).content == b.content
    ensures forall p <- b.content :: Skip(b).pos <= p
    ensures PopKind(Skip(b)) == Packet && Wrap(Skip(b).pos) != 0
  {
    var p :| p in b.content;
    assert b.pos <= p < b.pos + JITTER_BUF_MAX;
  }

  /** The window holds at most as many packets as the ring has slots. */
  lemma AtMostCapacity(b: Buffer)
    requires InWindow(b)
    ensures |b.content| <= JITTER_BUF_MAX
  {
    Bounded(b.content.Keys, b.pos, JITTER_BUF_MAX);
  }

  lemma {:induction false} Bounded(keys: set<int>, from: int, n: nat)
    requires forall p <- keys :: from <= p < from + n
    ensures |keys| <= n
  {
    if n == 0 {
      assert forall p :: p !in keys;
      assert keys == {};
    } else {
      Bounded(keys - {from + n - 1}, from, n - 1);
    }
  }
}
