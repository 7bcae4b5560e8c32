/** Frames of samples and how loud they are. */
module Audio {
  import opened Config

  /** One 20 ms frame. */
  type Frame = f: seq<real> | |f| == FRAME_SIZE witness seq(FRAME_SIZE, _ => 0.0)

  function SumSquares(pcm: seq<real>): (sum: real)
    ensures sum >= 0.0
  {
    if pcm == [] then 0.0
    else
      var last := pcm[|pcm| - 1];
      SquareNonnegative(last);
      SumSquares(pcm[..|pcm| - 1]) + last * last
  }

  lemma SquareNonnegative(x: real)
    ensures x * x >= 0.0
  {
  }

  /** The square of a frame's RMS. */
  function MeanSquare(pcm: Frame): real {
    SumSquares(pcm) / FRAME_SIZE as real
  }

  /** Sums a frame's squares sample by sample. */
  method Measure(pcm: Frame) returns (mean: real)
    ensures mean == MeanSquare(pcm)
  {
    var sum := 0.0;
    for i := 0 to |pcm|
      invariant sum == SumSquares(pcm[..i])
    {
      assert pcm[..i + 1][..i] == pcm[..i];
      sum := sum + pcm[i] * pcm[i];
    }
    assert pcm[..|pcm|] == pcm;
    return sum / FRAME_SIZE as real;
  }

  /** Every sample is at least `t` in size. */
  ghost predicate AllReach(pcm: seq<real>, t: real) {
    forall k | 0 <= k < |pcm| :: pcm[k] >= t || pcm[k] <= -t
  }

  /** Every sample is less than `t` in size. */
  ghost predicate AllBelow(pcm: seq<real>, t: real) {
    forall k | 0 <= k < |pcm| :: -t < pcm[k] < t
  }

  lemma SquareReaches(x: real, t: real)
    requires t >= 0.0
    ensures x >= t || x <= -t ==> x * x >= t * t
    ensures -t < x < t ==> x * x < t * t
  {
    if x >= t {
      SquareNonnegative(x - t);
      assert (x - t) * t >= 0.0;
    } else if x <= -t {
      SquareNonnegative(x + t);
      assert (-x - t) * t >= 0.0;
    } else {
      assert (t - x) * (t + x) > 0.0;
    }
  }

  /** The sum of squares of `n` samples against n times a level. */
  lemma {:induction false} SumReaches(pcm: seq<real>, t: real)
    requires t >= 0.0
    ensures AllReach(pcm, t) ==> SumSquares(pcm) >= Times(|pcm|, t * t)
    ensures AllBelow(pcm, t) && pcm != [] ==> SumSquares(pcm) < Times(|pcm|, t * t)
  {
    hide Times;
    TimesNext(if pcm == [] then 0 else |pcm| - 1, t * t);
    if pcm != [] {
      SumReaches(pcm[..|pcm| - 1], t);
      SquareReaches(pcm[|pcm| - 1], t);
    }
  }

  function Times(n: nat, x: real): real {
    n as real * x
  }

  lemma TimesNext(n: nat, x: real)
    ensures Times(n + 1, x) == Times(n, x) + x && Times(0, x) == 0.0
  {
  }

  /** A frame all of whose samples reach a level has at least its square on average; one that stays below it has less. */
  lemma MeanReaches(pcm: Frame, t: real)
    requires t >= 0.0
    ensures AllReach(pcm, t) ==> MeanSquare(pcm) >= t * t
    ensures AllBelow(pcm, t) ==> MeanSquare(pcm) < t * t
  {
    SumReaches(pcm, t);
    MeanOfTimes(SumSquares(pcm), t * t);
    hide SumSquares;
  }

  lemma MeanOfTimes(sum: real, x: real)
    ensures sum >= Times(FRAME_SIZE, x) ==> sum / FRAME_SIZE as real >= x
    ensures sum < Times(FRAME_SIZE, x) ==> sum / FRAME_SIZE as real < x
  {
  }
}
