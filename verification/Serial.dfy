/**
 Wrapping 32-bit sequence numbers and the ring slots they select.

 The model keeps an unbounded stream *position* beside every sequence number;
 `Wrap` is the number a position carries on the wire.
 */
module Serial {
  import opened Config

  const U32: int := 0x1_0000_0000
  const HALF: int := 0x8000_0000

  type u32 = x: int | 0 <= x < U32

  /** The sequence number carried by stream position `p`. */
  function Wrap(p: int): u32 {
    p % U32
  }

  /** `a.wrapping_sub(b)`. */
  function Sub(a: u32, b: u32): u32 {
    (a - b) % U32
  }

  /** `a.wrapping_add(b)`. */
  function Add(a: u32, b: nat): u32 {
    (a + b) % U32
  }

  /** A wrapped difference read as `i32`. */
  function Signed(d: u32): int {
    if d < HALF then d else d - U32
  }

  predicate SeqBefore(a: u32, b: u32) {
    var diff := Sub(b, a);
    0 < diff < HALF
  }

  /** The ring slot of a sequence number. */
  function SlotOf(s: u32): (slot: nat)
    ensures slot < JITTER_BUF_MAX
  {
    s % JITTER_BUF_MAX
  }

  /** The position at or after `base` that carries `s`. */
  function PosOf(base: int, s: u32): int {
    base + Sub(s, Wrap(base))
  }

  /** Serial comparison (section 3.2 of RFC 1982) orders any two positions less than 2^31 apart as integers do. */
  lemma SeqBeforeIsOrder(p: int, q: int)
    requires -HALF < p - q < HALF
    ensures SeqBefore(Wrap(p), Wrap(q)) <==> p < q
  {
  }

  lemma SubOfPositions(p: int, q: int)
    ensures Sub(Wrap(p), Wrap(q)) == (p - q) % U32
  {
  }

  lemma ModShift(a: int, k: int)
    ensures (a + U32 * k) % U32 == a % U32
  {
  }

  /** `PosOf` inverts `Wrap` over one wrap length. */
  lemma PosOfWrap(base: int, p: int)
    requires base <= p < base + U32
    ensures PosOf(base, Wrap(p)) == p
  {
  }

  lemma WrapPosOf(base: int, s: u32)
    ensures Wrap(PosOf(base, s)) == s
    ensures base <= PosOf(base, s) < base + U32
  {
  }

  lemma AddIsNext(p: int, k: nat)
    ensures Add(Wrap(p), k) == Wrap(p + k)
  {
  }

  /**
   15 does not divide 2^32, yet nonzero sequence numbers inside one window of
   15 positions select different slots, also across the wrap.
   */
  lemma WindowSlotsDistinct(base: int, p: int, q: int)
    requires base <= p < base + JITTER_BUF_MAX && base <= q < base + JITTER_BUF_MAX
    requires Wrap(p) != 0 && Wrap(q) != 0 && p != q
    ensures SlotOf(Wrap(p)) != SlotOf(Wrap(q))
  {
    var (a, b) := if p < q then (p, q) else (q, p);
    var d := b - a;
    AddIsNext(a, d);
    if Wrap(a) + d < U32 {
      ShiftMovesSlot(Wrap(a), d);
    } else {
      // 2^32 == 1 (mod 15): past the wrap the slots are one place behind.
      assert Wrap(b) == Wrap(a) + (d - 1) - 15 * 286_331_153;
      ShiftMovesSlot(Wrap(a), d - 1);
    }
  }

  lemma ShiftMovesSlot(a: nat, d: nat)
    requires 0 < d < 15
    ensures (a + d) % 15 != a % 15
  {
  }

  /** Sequence number 0 shares its slot with exactly one window neighbour: the position just before it. */
  lemma ZeroSharesWithPredecessor(base: int, p: int, q: int)
    requires base <= p < base + JITTER_BUF_MAX && base <= q < base + JITTER_BUF_MAX
    requires Wrap(q) == 0 && p != q
    ensures SlotOf(Wrap(p)) == SlotOf(Wrap(q)) <==> p == q - 1
  {
  }
}
