/** What the arrival-jitter estimate measures, told in unbounded positions and send times. */
module Estimates {
  import opened Config
  import opened Wrappers
  import opened Serial
  import opened Jitter

  /** A packet's arrival, in milliseconds, less the time its position was due. */
  function Transit(p: int, at: int): real {
    at as real / 1_000_000.0 - p as real * FRAME_MS
  }

  /**
   Past the onset, an arrival moves the estimate a sixteenth of the way towards
   the difference of the two transit times (section 6.4.1 of RFC 3550). The
   sequence numbers may have wrapped in between, or be out of order.
   */
  lemma ObserveMeasuresTransit(e: Estimate, q: int, at: int, p: int, now: int)
    requires e.reference == Some((at, Wrap(q))) && at <= now && -HALF < p - q < HALF
    requires e.spurtPackets + 1 >= TALKSPURT_ONSET_PACKETS
    ensures
      var r := Observe(e, Wrap(p), now);
      && r.jitterMs == e.jitterMs + (Abs(Transit(p, now) - Transit(q, at)) - e.jitterMs) / 16.0
      && r.reference == Some((now, Wrap(p)))
  {
    SubOfPositions(p, q);
    SignedDifference(p, q);
    hide Wrap, Sub, Signed;
  }

  lemma SignedDifference(p: int, q: int)
    requires -HALF < p - q < HALF
    ensures Signed(Sub(Wrap(p), Wrap(q))) == p - q
  {
    SubOfPositions(p, q);
  }

  datatype Arrival = Arrival(sn: u32, at: int)

  function ObserveAll(e: Estimate, arrivals: seq<Arrival>): Estimate {
    if arrivals == [] then e
    else
      var last := arrivals[|arrivals| - 1];
      Observe(ObserveAll(e, arrivals[..|arrivals| - 1]), last.sn, last.at)
  }

  /**
   After a talkspurt ends, neither the silence nor the burst the next one opens
   with reads as jitter: whenever and in whatever order the onset packets
   arrive, the estimate stays what it was.
   */
  lemma {:induction false} OnsetIsNotJitter(e: Estimate, arrivals: seq<Arrival>)
    requires |arrivals| <= TALKSPURT_ONSET_PACKETS
    ensures
      var r := ObserveAll(EndTalkspurt(e), arrivals);
      && r.jitterMs == e.jitterMs && r.spurtPackets == |arrivals|
      && (|arrivals| < TALKSPURT_ONSET_PACKETS ==> r.reference == None)
      && (|arrivals| == TALKSPURT_ONSET_PACKETS ==>
          r.reference == Some((arrivals[|arrivals| - 1].at, arrivals[|arrivals| - 1].sn)))
  {
    if arrivals != [] {
      OnsetIsNotJitter(e, arrivals[..|arrivals| - 1]);
    }
  }

  /** What an estimate sees: packets of stream positions, the ends of talkspurts, and restarts of the stream. */
  datatype Signal = Heard(p: int, at: int) | Over | Restart

  function ObserveSignal(e: Estimate, s: Signal): Estimate {
    match s
    case Heard(p, at) => Observe(e, Wrap(p), at)
    case Over => EndTalkspurt(e)
    case Restart => FRESH_ESTIMATE
  }

  function ObserveSignals(e: Estimate, signals: seq<Signal>): Estimate {
    if signals == [] then e
    else ObserveSignal(ObserveSignals(e, signals[..|signals| - 1]), signals[|signals| - 1])
  }

  /** Two arrivals in a row, their transit times at most `m` milliseconds apart. */
  ghost predicate Close(a: Signal, b: Signal, m: real) {
    a.Heard? && b.Heard? ==>
      -HALF < b.p - a.p < HALF && a.at <= b.at && Abs(Transit(b.p, b.at) - Transit(a.p, a.at)) <= m
  }

  /** Within every talkspurt neighbouring arrivals are close; silences may last as they like. */
  ghost predicate Steady(signals: seq<Signal>, m: real) {
    forall k | 0 < k < |signals| :: Close(signals[k - 1], signals[k], m)
  }

  /** The estimate is within [0, m], and its reference, if it has one, is the arrival just seen. */
  ghost predicate Follows(e: Estimate, signals: seq<Signal>, m: real) {
    && 0.0 <= e.jitterMs <= m
    && (e.reference.Some? ==>
        && signals != [] && signals[|signals| - 1].Heard? && e.spurtPackets >= TALKSPURT_ONSET_PACKETS
        && e.reference == Some((signals[|signals| - 1].at, Wrap(signals[|signals| - 1].p))))
  }

  /**
   Over any number of talkspurts, silences and restarts, the estimate never
   leaves [0, m] while neighbouring packets of a talkspurt have transit times
   at most m apart, however many are lost, reordered or wrapped in between.
   */
  lemma {:induction false} EstimateBounded(e: Estimate, signals: seq<Signal>, m: real)
    requires 0.0 <= e.jitterMs <= m && e.reference == None && Steady(signals, m)
    ensures Follows(ObserveSignals(e, signals), signals, m)
  {
    if signals != [] {
      hide ObserveSignal, Follows, Close;
      var n := |signals| - 1;
      EstimateBounded(e, signals[..n], m);
      SignalFollows(ObserveSignals(e, signals[..n]), signals, m);
    } else {
      assert ObserveSignals(e, signals) == e;
    }
  }

  lemma SignalFollows(e: Estimate, signals: seq<Signal>, m: real)
    requires signals != [] && Steady(signals, m) && Follows(e, signals[..|signals| - 1], m)
    ensures Follows(ObserveSignal(e, signals[|signals| - 1]), signals, m)
  {
    var n := |signals| - 1;
    var last := signals[n];
    if last.Heard? {
      if e.reference.Some? {
        var previous := signals[n - 1];
        assert signals[..n][n - 1] == previous;
        assert Close(previous, last, m);
        hide Steady, Abs, Transit, Wrap;
        ObserveMeasuresTransit(e, previous.p, previous.at, last.p, last.at);
        PastOnset(e, Wrap(last.p), last.at);
        hide Observe;
        AbsPositive(Transit(last.p, last.at) - Transit(previous.p, previous.at));
      } else {
        NoReference(e, Wrap(last.p), last.at);
        hide Observe, Steady, Wrap;
      }
    }
  }

  lemma AbsPositive(x: real)
    ensures Abs(x) >= 0.0
  {
  }

  lemma PastOnset(e: Estimate, sn: u32, at: int)
    requires e.spurtPackets >= TALKSPURT_ONSET_PACKETS
    ensures Observe(e, sn, at).spurtPackets >= TALKSPURT_ONSET_PACKETS
  {
  }

  lemma NoReference(e: Estimate, sn: u32, at: int)
    requires e.reference == None
    ensures
      var r := Observe(e, sn, at);
      && r.jitterMs == e.jitterMs
      && (r.reference == None || (r.reference == Some((at, sn)) && r.spurtPackets >= TALKSPURT_ONSET_PACKETS))
  {
  }
}
