/** Length-prefixed TCP framing, and the reader's accumulate-check-extract loop. */
module Framing {
  import opened Config
  import opened Wrappers

  type byte = x: int | 0 <= x < 256
  type Bytes = seq<byte>

  const U32: nat := 0x1_0000_0000

  /** Four bytes, most significant first. */
  function ToBe(n: nat): (b: Bytes)
    requires n < U32
    ensures |b| == 4 && FromBe(b) == n
  {
    var c := n / 0x100;
    var b := c / 0x100;
    [b / 0x100, b % 0x100, c % 0x100, n % 0x100]
  }

  function FromBe(b: Bytes): nat
    requires |b| >= 4
  {
    (b[0] as int) * 0x100_0000 + (b[1] as int) * 0x1_0000 + (b[2] as int) * 0x100 + (b[3] as int)
  }

  /** The payload with its length in front; a length that does not fit 32 bits is truncated. */
  function Encode(payload: Bytes): (frame: Bytes)
    ensures |frame| == 4 + |payload|
  {
    ToBe(|payload| % U32) + payload
  }

  datatype Decoded = Complete(payload: Bytes, consumed: nat) | Incomplete | TooLarge(len: nat)

  function TryDecode(buf: Bytes): (d: Decoded)
    ensures d.Complete? ==> 4 <= d.consumed <= |buf| && |d.payload| == d.consumed - 4 <= MAX_FRAME_SIZE
  {
    if |buf| < 4 then Incomplete
    else
      var len := FromBe(buf);
      if len > MAX_FRAME_SIZE then TooLarge(len)
      else if |buf| < 4 + len then Incomplete
      else Complete(buf[4..4 + len], 4 + len)
  }

  /** All complete frames at the front of a buffer, and what is left. `ok` is false when a header is too large. */
  datatype Extracted = Extracted(frames: seq<Bytes>, rest: Bytes, ok: bool)

  function Extract(buf: Bytes): (e: Extracted)
    ensures |e.rest| <= |buf|
    decreases |buf|
  {
    match TryDecode(buf)
    case Incomplete => Extracted([], buf, true)
    case TooLarge(_) => Extracted([], buf, false)
    case Complete(payload, consumed) =>
      var e := Extract(buf[consumed..]);
      e.(frames := [payload] + e.frames)
  }

  /** Extract all complete frames, advancing `pending`; the frames of a rejected buffer are dropped with it. */
  method ExtractFrames(pending: Bytes) returns (frames: Option<seq<Bytes>>, rest: Bytes)
    ensures
      var e := Extract(pending);
      rest == e.rest && frames == if e.ok then Some(e.frames) else None
  {
    var got: seq<Bytes> := [];
    rest := pending;
    while true
      invariant Extract(pending) == Extract(rest).(frames := got + Extract(rest).frames)
      decreases |rest|
    {
      match TryDecode(rest)
      case Complete(payload, consumed) =>
        assert got + ([payload] + Extract(rest[consumed..]).frames) == got + [payload] + Extract(rest[consumed..]).frames;
        got := got + [payload];
        rest := rest[consumed..];
      case Incomplete =>
        assert got + [] == got;
        return Some(got), rest;
      case TooLarge(_) => return None, rest;
    }
  }

  datatype ReaderError = Overflow | Protocol

  /** The reader's connection: what it has not parsed yet, what it has delivered, and why it closed. */
  class Reader {
    var pending: Bytes
    var delivered: seq<Bytes>
    var closed: Option<ReaderError>

    ghost function View(): Connection
      reads this
    {
      Connection(pending, delivered, closed)
    }

    constructor ()
      ensures View() == OPEN
    {
      pending, delivered, closed := [], [], None;
    }

    /** One read of the socket: accumulate, check for overflow, extract. */
    method OnRead(chunk: Bytes)
      requires closed == None
      modifies this
      ensures View() == Read(old(View()), chunk)
    {
      pending := pending + chunk;
      if |pending| > MAX_PENDING_BUF {
        closed := Some(Overflow);
        return;
      }
      var frames, rest := ExtractFrames(pending);
      pending := rest;
      if frames == None {
        closed := Some(Protocol);
        return;
      }
      delivered := delivered + frames.value;
    }
  }

  datatype Connection = Connection(pending: Bytes, delivered: seq<Bytes>, closed: Option<ReaderError>)

  const OPEN := Connection([], [], None)

  function Read(c: Connection, chunk: Bytes): Connection {
    var pending := c.pending + chunk;
    if c.closed.Some? then c
    else if |pending| > MAX_PENDING_BUF then c.(pending := pending, closed := Some(Overflow))
    else
      var e := Extract(pending);
      if e.ok then Connection(e.rest, c.delivered + e.frames, None) else c.(pending := e.rest, closed := Some(Protocol))
  }

  function ReadAll(c: Connection, chunks: seq<Bytes>): Connection {
    if chunks == [] then c
    else Read(ReadAll(c, chunks[..|chunks| - 1]), chunks[|chunks| - 1])
  }

  function Concat(parts: seq<Bytes>): Bytes {
    if parts == [] then []
    else Concat(parts[..|parts| - 1]) + parts[|parts| - 1]
  }

  /** The stream a sender writes for these payloads. */
  function EncodeAll(payloads: seq<Bytes>): Bytes {
    if payloads == [] then [] else Encode(payloads[0]) + EncodeAll(payloads[1..])
  }

  ghost predicate AtMost(chunks: seq<Bytes>, n: nat) {
    forall chunk <- chunks :: |chunk| <= n
  }

  /** What fits the socket buffer of one read. */
  ghost predicate Readable(chunks: seq<Bytes>) {
    AtMost(chunks, TCP_READ_BUF)
  }

  /** The most one read may bring on top of a partial frame. */
  const LARGEST_READ: nat := 65_533

  // ── round trip ──

  lemma FromBePrefix(a: Bytes, b: Bytes)
    requires |a| >= 4 && |b| >= 4 && a[..4] == b[..4]
    ensures FromBe(a) == FromBe(b)
  {
    assert forall k | 0 <= k < 4 :: a[..4][k] == a[k] && b[..4][k] == b[k];
  }

  lemma DecodeEncoded(payload: Bytes, more: Bytes)
    requires |payload| <= MAX_FRAME_SIZE
    ensures TryDecode(Encode(payload) + more) == Complete(payload, |Encode(payload)|)
    ensures (Encode(payload) + more)[|Encode(payload)|..] == more
  {
    hide ToBe, FromBe;
    var frame := Encode(payload);
    FromBePrefix(ToBe(|payload|), frame + more);
    assert (frame + more)[4..4 + |payload|] == payload;
  }

  /** An encoded payload decodes to itself exactly when it is within the frame limit. */
  lemma RoundTripExact(payload: Bytes)
    ensures TryDecode(Encode(payload)) == Complete(payload, 4 + |payload|) <==> |payload| <= MAX_FRAME_SIZE
  {
    if |payload| <= MAX_FRAME_SIZE {
      DecodeEncoded(payload, []);
      assert Encode(payload) + [] == Encode(payload);
    }
  }

  lemma {:induction false} ExtractEncoded(payloads: seq<Bytes>)
    requires forall p <- payloads :: |p| <= MAX_FRAME_SIZE
    ensures Extract(EncodeAll(payloads)) == Extracted(payloads, [], true)
  {
    if payloads != [] {
      hide TryDecode, Encode;
      DecodeEncoded(payloads[0], EncodeAll(payloads[1..]));
      ExtractEncoded(payloads[1..]);
    }
  }

  // ── chunking ──

  /** A frame that is complete, or a header that is too large, stays so whatever follows. */
  lemma DecodeStable(buf: Bytes, more: Bytes)
    requires TryDecode(buf) != Incomplete
    ensures TryDecode(buf + more) == TryDecode(buf)
  {
    FromBePrefix(buf, buf + more);
    hide FromBe;
    if TryDecode(buf).Complete? {
      var n := TryDecode(buf).consumed;
      assert (buf + more)[4..n] == buf[4..n];
    }
  }

  /** Extracting, then extracting again with more bytes, is extracting everything at once. */
  lemma {:induction false} ExtractResumes(buf: Bytes, more: Bytes)
    ensures
      var first := Extract(buf);
      var all := Extract(buf + more);
      if first.ok then all == Extract(first.rest + more).(frames := first.frames + Extract(first.rest + more).frames)
      else !all.ok && all.frames == first.frames
    decreases |buf|
  {
    hide TryDecode;
    match TryDecode(buf)
    case Incomplete =>
      assert [] + Extract(buf + more).frames == Extract(buf + more).frames;
    case TooLarge(_) =>
      DecodeStable(buf, more);
    case Complete(payload, consumed) =>
      DecodeStable(buf, more);
      assert (buf + more)[consumed..] == buf[consumed..] + more;
      ExtractResumes(buf[consumed..], more);
      var tail := Extract(buf[consumed..]);
      var later := Extract(tail.rest + more);
      assert [payload] + (tail.frames + later.frames) == [payload] + tail.frames + later.frames;
  }

  /** What stays pending is less than one frame, header included. */
  lemma {:induction false} RestIsShort(buf: Bytes)
    requires Extract(buf).ok
    ensures |Extract(buf).rest| <= MAX_FRAME_SIZE + 3
    decreases |buf|
  {
    match TryDecode(buf)
    case Complete(_, consumed) =>
      hide TryDecode;
      RestIsShort(buf[consumed..]);
    case _ =>
  }

  /** A connection that has read the stream so far. */
  ghost predicate ReadSoFar(c: Connection, stream: Bytes) {
    var e := Extract(stream);
    if e.ok then c == Connection(e.rest, e.frames, None) && |c.pending| <= MAX_FRAME_SIZE + 3
    else c.closed == Some(Protocol) && c.delivered <= e.frames
  }

  lemma ReadStep(c: Connection, stream: Bytes, chunk: Bytes)
    requires ReadSoFar(c, stream) && |chunk| <= LARGEST_READ
    ensures ReadSoFar(Read(c, chunk), stream + chunk)
  {
    hide TryDecode, Extract;
    ExtractResumes(stream, chunk);
    if Extract(stream).ok {
      var e := Extract(c.pending + chunk);
      if e.ok {
        RestIsShort(c.pending + chunk);
      }
    }
  }

  /**
   Chunking independence: a stream with no oversized header leaves the
   connection where one read of everything would, however the reads split it.
   With an oversized header the connection is closed for it, and has delivered
   a prefix of the frames in front; which one, the split decides (see
   `DeliveredExactly`). Overflow is never the reason, because the pending bytes
   stay below one frame between reads; that takes reads of at most LARGEST_READ
   bytes (see `OverflowExactly`), eight times what the server reads at once.
   */
  lemma {:induction false} ChunkingIndependent(chunks: seq<Bytes>)
    requires AtMost(chunks, LARGEST_READ)
    ensures ReadSoFar(ReadAll(OPEN, chunks), Concat(chunks))
    ensures ReadAll(OPEN, chunks).closed != Some(Overflow)
  {
    if chunks != [] {
      hide ReadSoFar, Read;
      var init := chunks[..|chunks| - 1];
      ChunkingIndependent(init);
      ReadStep(ReadAll(OPEN, init), Concat(init), chunks[|chunks| - 1]);
      NeverOverflows(ReadAll(OPEN, chunks), Concat(chunks));
    } else {
      assert ReadSoFar(OPEN, []);
    }
  }

  /** The bytes of the longest prefix of the reads in which no oversized header is complete. */
  function GoodStream(chunks: seq<Bytes>): Bytes {
    if chunks == [] || Extract(Concat(chunks)).ok then Concat(chunks) else GoodStream(chunks[..|chunks| - 1])
  }

  lemma NothingRead()
    ensures Extract(Concat([])) == Extracted([], [], true) && GoodStream([]) == []
  {
  }

  lemma AppendRead(chunks: seq<Bytes>, chunk: Bytes)
    ensures Concat(chunks + [chunk]) == Concat(chunks) + chunk
    ensures GoodStream(chunks + [chunk]) == if Extract(Concat(chunks) + chunk).ok then Concat(chunks) + chunk else GoodStream(chunks)
    ensures forall c :: ReadAll(c, chunks + [chunk]) == Read(ReadAll(c, chunks), chunk)
  {
    hide Extract, Read;
    assert (chunks + [chunk])[..|chunks|] == chunks;
  }

  /** How many reads that is. */
  function GoodReads(chunks: seq<Bytes>): (k: nat)
    ensures k <= |chunks|
  {
    if chunks == [] || Extract(Concat(chunks)).ok then |chunks| else GoodReads(chunks[..|chunks| - 1])
  }

  /** A prefix of the reads extracts well exactly when it is no longer than that. */
  lemma {:induction false} GoodReadsIsLongest(chunks: seq<Bytes>, j: nat)
    requires j <= |chunks|
    ensures Extract(Concat(chunks[..j])).ok <==> j <= GoodReads(chunks)
    ensures GoodStream(chunks) == Concat(chunks[..GoodReads(chunks)])
    decreases |chunks|
  {
    hide Extract;
    var n := |chunks|;
    assert chunks[..n] == chunks;
    if chunks == [] {
      NothingRead();
    } else {
      var init := chunks[..n - 1];
      assert init[..n - 1] == init && init + [chunks[n - 1]] == chunks;
      assert forall i | 0 <= i < n :: chunks[..i] == init[..i];
      AppendRead(init, chunks[n - 1]);
      ExtractResumes(Concat(init), chunks[n - 1]);
      GoodReadsIsLongest(init, if j < n then j else n - 1);
      GoodReadsIsLongest(init, n - 1);
    }
  }

  /** The connection has delivered the frames of the good reads, and is open exactly when all of them were. */
  ghost predicate ReadExactly(c: Connection, chunks: seq<Bytes>) {
    var e := Extract(GoodStream(chunks));
    && c.delivered == e.frames
    && c.closed == (if Extract(Concat(chunks)).ok then None else Some(Protocol))
    && (c.closed == None ==> c.pending == e.rest)
  }

  /**
   Exactly what is delivered: the frames of all the reads before the one that
   completes an oversized header. That read delivers nothing, the frames in
   front of the header included.
   */
  lemma {:induction false} DeliveredExactly(chunks: seq<Bytes>)
    requires Readable(chunks)
    ensures ReadExactly(ReadAll(OPEN, chunks), chunks)
  {
    hide Extract, Concat, ReadExactly, ReadSoFar, Read, GoodStream;
    if chunks == [] {
      NothingReadExactly();
    } else {
      var n := |chunks| - 1;
      var init := chunks[..n];
      assert init + [chunks[n]] == chunks;
      DeliveredExactly(init);
      ChunkingIndependent(init);
      ReadOn(ReadAll(OPEN, init), init, chunks[n]);
    }
  }

  lemma NothingReadExactly()
    ensures ReadExactly(OPEN, [])
  {
    NothingRead();
  }

  lemma ReadOn(c: Connection, chunks: seq<Bytes>, chunk: Bytes)
    requires ReadExactly(c, chunks) && ReadSoFar(c, Concat(chunks)) && |chunk| <= TCP_READ_BUF
    ensures ReadExactly(Read(c, chunk), chunks + [chunk])
  {
    hide Extract, Concat, GoodStream;
    AppendRead(chunks, chunk);
    ExtractResumes(Concat(chunks), chunk);
  }

  /** The same eight bytes in one read deliver nothing, in two reads the empty frame in front of the oversized header. */
  lemma SplitDecides()
    ensures
      var (frame, oversized) := (Encode([]), [255, 255, 255, 255]);
      && Concat([frame + oversized]) == Concat([frame, oversized])
      && ReadAll(OPEN, [frame + oversized]).delivered == []
      && ReadAll(OPEN, [frame, oversized]).delivered == [[]]
  {
    hide Extract, Encode, Read, ReadAll, Concat;
    var frame, oversized: Bytes := Encode([]), [255, 255, 255, 255];
    FrameAndHeader(oversized);
    var none: seq<Bytes> := [];
    assert none + [frame + oversized] == [frame + oversized] && none + [frame] == [frame] && [frame] + [oversized] == [frame, oversized];
    NothingRead();
    AppendRead(none, frame + oversized);
    AppendRead(none, frame);
    AppendRead([frame], oversized);
    ReadThree(frame, oversized);
  }

  lemma ReadThree(frame: Bytes, oversized: Bytes)
    requires |frame| == 4 && |oversized| == 4
    requires Extract(frame) == Extracted([[]], [], true) && !Extract(frame + oversized).ok && !Extract(oversized).ok
    ensures Read(ReadAll(OPEN, []), frame + oversized).delivered == []
    ensures Read(Read(ReadAll(OPEN, []), frame), oversized).delivered == [[]]
    ensures Concat([]) + (frame + oversized) == Concat([]) + frame + oversized
  {
    hide Extract;
    assert [] + frame == frame && [] + (frame + oversized) == frame + oversized && [] + oversized == oversized;
  }

  lemma FrameAndHeader(oversized: Bytes)
    requires oversized == [255, 255, 255, 255]
    ensures !Extract(oversized).ok && !Extract(Encode([]) + oversized).ok
    ensures Extract(Encode([])) == Extracted([[]], [], true) && |Encode([])| == 4
  {
    DecodeEncoded([], oversized);
    DecodeEncoded([], []);
    assert Encode([]) + [] == Encode([]);
    assert TryDecode(oversized).TooLarge?;
    hide TryDecode, Encode;
    assert Extract([]) == Extracted([], [], true) by { NothingRead(); }
  }

  lemma NeverOverflows(c: Connection, stream: Bytes)
    requires ReadSoFar(c, stream)
    ensures c.closed != Some(Overflow)
  {
  }

  /** Any way of cutting up the encodings of allowed payloads delivers exactly those payloads, in order, and keeps nothing. */
  lemma PayloadsDelivered(payloads: seq<Bytes>, chunks: seq<Bytes>)
    requires forall p <- payloads :: |p| <= MAX_FRAME_SIZE
    requires Readable(chunks) && Concat(chunks) == EncodeAll(payloads)
    ensures ReadAll(OPEN, chunks) == Connection([], payloads, None)
  {
    ChunkingIndependent(chunks);
    ExtractEncoded(payloads);
    hide Extract, ReadAll, Concat, EncodeAll;
  }

  /** The overflow check has room to spare: before extraction at most a partial frame and one read are pending. */
  lemma PendingBound(chunks: seq<Bytes>, chunk: Bytes)
    requires Readable(chunks) && |chunk| <= TCP_READ_BUF
    requires ReadAll(OPEN, chunks).closed == None
    ensures |ReadAll(OPEN, chunks).pending + chunk| <= MAX_FRAME_SIZE + 3 + TCP_READ_BUF <= MAX_PENDING_BUF
  {
    ChunkingIndependent(chunks);
    hide Extract, ReadAll;
  }

  /** The reader can overflow if and only if it may be handed more than LARGEST_READ bytes at a time. */
  lemma OverflowExactly(n: nat)
    ensures (forall chunks | AtMost(chunks, n) :: ReadAll(OPEN, chunks).closed != Some(Overflow)) <==> n <= LARGEST_READ
  {
    hide ReadAll;
    if n <= LARGEST_READ {
      forall chunks | AtMost(chunks, n)
        ensures ReadAll(OPEN, chunks).closed != Some(Overflow)
      {
        ChunkingIndependent(chunks);
      }
    } else {
      var chunks := OverflowingReads();
      assert AtMost(chunks, n);
      OneTooMany();
    }
  }

  /** All but the last byte of the largest frame in two reads, and one read more. */
  function OverflowingReads(): (chunks: seq<Bytes>)
    ensures |chunks| == 3 && AtMost(chunks, LARGEST_READ + 1)
  {
    [[0, 1, 0, 0] + seq(65_530, _ => 0), seq(5, _ => 0), seq(65_534, _ => 0)]
  }

  lemma OneTooMany()
    ensures ReadAll(OPEN, OverflowingReads()).closed == Some(Overflow)
  {
    var chunks := OverflowingReads();
    var a, b := chunks[0], chunks[1];
    assert FromBe(a) == 65_536 && FromBe(a + b) == 65_536;
    hide FromBe, OverflowingReads, ReadAll;
    ReadThird(a, b, chunks[2]);
    assert chunks == [a, b, chunks[2]];
  }

  lemma ReadThird(a: Bytes, b: Bytes, c: Bytes)
    requires TryDecode(a) == Incomplete && TryDecode(a + b) == Incomplete
    requires |a + b| <= MAX_PENDING_BUF < |a + b + c|
    ensures ReadAll(OPEN, [a, b, c]).closed == Some(Overflow)
  {
    hide TryDecode, Extract, Read;
    var none: seq<Bytes> := [];
    assert none + [a] == [a] && [a] + [b] == [a, b] && [a, b] + [c] == [a, b, c];
    assert ReadAll(OPEN, none) == OPEN;
    AppendRead(none, a);
    AppendRead([a], b);
    AppendRead([a, b], c);
    hide ReadAll;
    assert [] + a == a;
    ReadPartial([], [], a);
    ReadPartial(a, [], b);
    ReadTooMuch(a + b, c);
  }

  lemma ReadTooMuch(pending: Bytes, chunk: Bytes)
    requires |pending + chunk| > MAX_PENDING_BUF
    ensures Read(Connection(pending, [], None), chunk).closed == Some(Overflow)
  {
  }

  /** A read that completes no frame is only kept. */
  lemma ReadPartial(pending: Bytes, delivered: seq<Bytes>, chunk: Bytes)
    requires TryDecode(pending + chunk) == Incomplete && |pending + chunk| <= MAX_PENDING_BUF
    ensures Read(Connection(pending, delivered, None), chunk) == Connection(pending + chunk, delivered, None)
  {
    assert delivered + [] == delivered;
  }
}
