/** The `(gen, counter)` tuples that order replication, and how a worker packs its incarnation `gen`. */
module Positions {

  /** `gen` is the writer's incarnation, `counter` its per-channel sequence within that incarnation. */
  datatype Pos = Pos(gen: nat, counter: nat)

  const ORIGIN := Pos(0, 0)

  /** The comparator of the wire protocol: -1, 0 or 1. */
  function CompareGenCounter(a: Pos, b: Pos): int {
    if a.gen < b.gen then -1
    else if a.gen > b.gen then 1
    else if a.counter < b.counter then -1
    else if a.counter > b.counter then 1
    else 0
  }

  /** Strict lexicographic order: the reading every proof uses. */
  predicate Before(a: Pos, b: Pos) {
    a.gen < b.gen || (a.gen == b.gen && a.counter < b.counter)
  }

  predicate AtMost(a: Pos, b: Pos) {
    !Before(b, a)
  }

  /** The comparator decides exactly this strict total order. */
  lemma CompareIsTotalOrder(a: Pos, b: Pos)
    ensures CompareGenCounter(a, b) > 0 <==> Before(b, a)
    ensures CompareGenCounter(a, b) == 0 <==> a == b
    ensures CompareGenCounter(a, b) == -CompareGenCounter(b, a)
  {
    if a.gen == b.gen && a.counter == b.counter {
      assert a == b;
    }
  }
}

module EpochCounter {

  /** A JavaScript number as these helpers see it: NaN and the infinities fail `Number.isFinite`. */
  datatype JsNumber = NotFinite | Finite(value: real)

  const GEN_RESTART_MULTIPLIER: nat := 281_474_976_710_656  // 2^48
  const MAX_SAFE_INTEGER: nat := 9_007_199_254_740_991      // 2^53 - 1

  /** Non-finite and non-positive inputs clamp to zero, the rest is floored. */
  function Clamp(n: JsNumber): nat {
    if n.Finite? && n.value > 0.0 then n.value.Floor else 0
  }

  function PackGen(restartCount: JsNumber, unixMillisAtBoot: JsNumber): nat {
    var ms := Clamp(unixMillisAtBoot);
    Clamp(restartCount) * GEN_RESTART_MULTIPLIER + (ms - (ms / GEN_RESTART_MULTIPLIER) * GEN_RESTART_MULTIPLIER)
  }

  datatype Unpacked = Unpacked(restartCount: nat, unixMillisAtBoot: nat)

  function UnpackGen(gen: nat): Unpacked {
    Unpacked(gen / GEN_RESTART_MULTIPLIER, gen - (gen / GEN_RESTART_MULTIPLIER) * GEN_RESTART_MULTIPLIER)
  }

  /** Unpacking recovers the restart count exactly and the boot time modulo 2^48. */
  lemma UnpackPack(restartCount: JsNumber, unixMillisAtBoot: JsNumber)
    ensures UnpackGen(PackGen(restartCount, unixMillisAtBoot))
         == Unpacked(Clamp(restartCount), Clamp(unixMillisAtBoot) % GEN_RESTART_MULTIPLIER)
  {
    var rc, ms := Clamp(restartCount), Clamp(unixMillisAtBoot);
    var low := ms % GEN_RESTART_MULTIPLIER;
    assert PackGen(restartCount, unixMillisAtBoot) == rc * GEN_RESTART_MULTIPLIER + low;
    assert (rc * GEN_RESTART_MULTIPLIER + low) / GEN_RESTART_MULTIPLIER == rc;
  }

  /** Gens order by restart count first and boot time second, for boot times that fit in 48 bits. */
  lemma PackGenOrders(rc1: JsNumber, ms1: JsNumber, rc2: JsNumber, ms2: JsNumber)
    requires Clamp(ms1) < GEN_RESTART_MULTIPLIER && Clamp(ms2) < GEN_RESTART_MULTIPLIER
    ensures PackGen(rc1, ms1) < PackGen(rc2, ms2)
       <==> Clamp(rc1) < Clamp(rc2) || (Clamp(rc1) == Clamp(rc2) && Clamp(ms1) < Clamp(ms2))
    ensures PackGen(rc1, ms1) == PackGen(rc2, ms2) <==> Clamp(rc1) == Clamp(rc2) && Clamp(ms1) == Clamp(ms2)
  {
    assert Clamp(ms1) / GEN_RESTART_MULTIPLIER == 0 && Clamp(ms2) / GEN_RESTART_MULTIPLIER == 0;
  }

  /**
   * A gen is an exactly representable integer precisely up to 31 restarts. The source's comment
   * promises thousands: 2^53 / 2^48 is 32.
   */
  lemma PackGenExactness(restartCount: JsNumber, unixMillisAtBoot: JsNumber)
    ensures PackGen(restartCount, unixMillisAtBoot) <= MAX_SAFE_INTEGER <==> Clamp(restartCount) < 32
  {
    var rc, ms := Clamp(restartCount), Clamp(unixMillisAtBoot);
    var low := ms % GEN_RESTART_MULTIPLIER;
    assert PackGen(restartCount, unixMillisAtBoot) == rc * GEN_RESTART_MULTIPLIER + low;
    assert 32 * GEN_RESTART_MULTIPLIER == MAX_SAFE_INTEGER + 1;
  }

  // ---- On raw inputs ------------------------------------------------------------------------

  /** A whole number as the caller passes it. */
  function Whole(n: nat): JsNumber {
    Finite(n as real)
  }

  lemma ClampWhole(n: nat)
    ensures Clamp(Whole(n)) == n
  {
  }

  /** Restart counts and boot times in range come back as they went in. */
  lemma PackedComesBack(rc: nat, ms: nat)
    requires ms < 0x1_0000_0000_0000
    ensures UnpackGen(PackGen(Whole(rc), Whole(ms))) == Unpacked(rc, ms)
  {
    ClampWhole(rc);
    ClampWhole(ms);
    UnpackPack(Whole(rc), Whole(ms));
  }

  /** A fraction is cut off; what is not a number, or not above zero, counts as zero. */
  lemma PackOfOddNumbers(n: JsNumber, other: JsNumber)
    ensures n.NotFinite? || n.value <= 0.0 ==>
              PackGen(n, other) == PackGen(Whole(0), other) && PackGen(other, n) == PackGen(other, Whole(0))
    ensures forall w: nat :: n.Finite? && w as real <= n.value < w as real + 1.0 ==>
              PackGen(n, other) == PackGen(Whole(w), other) && PackGen(other, n) == PackGen(other, Whole(w))
  {
    ClampWhole(0);
    forall w: nat | n.Finite? && w as real <= n.value < w as real + 1.0
      ensures Clamp(n) == Clamp(Whole(w))
    {
      assert n.value.Floor == w;
      ClampWhole(w);
    }
  }

  /** A later boot, by its restart count or else by its clock, has the greater generation. */
  lemma LaterBootIsGreater(rc1: nat, ms1: nat, rc2: nat, ms2: nat)
    requires ms1 < 0x1_0000_0000_0000 && ms2 < 0x1_0000_0000_0000
    ensures PackGen(Whole(rc1), Whole(ms1)) < PackGen(Whole(rc2), Whole(ms2))
       <==> rc1 < rc2 || (rc1 == rc2 && ms1 < ms2)
  {
    ClampWhole(rc1);
    ClampWhole(ms1);
    ClampWhole(rc2);
    ClampWhole(ms2);
    PackGenOrders(Whole(rc1), Whole(ms1), Whole(rc2), Whole(ms2));
  }

  /** A whole gen in plain arithmetic; past 31 restarts a double no longer holds every such number. */
  lemma PackedValue(rc: nat, ms: nat)
    requires ms < 0x1_0000_0000_0000
    ensures PackGen(Whole(rc), Whole(ms)) == rc * 0x1_0000_0000_0000 + ms
    ensures PackGen(Whole(rc), Whole(ms)) < 0x20_0000_0000_0000 <==> rc < 32
  {
    ClampWhole(rc);
    ClampWhole(ms);
    PackGenExactness(Whole(rc), Whole(ms));
    assert ms / GEN_RESTART_MULTIPLIER == 0;
  }
}
