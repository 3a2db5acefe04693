/**
 * Mathematical definitions of the bit helpers the CHM code calls but whose
 * bodies are outside this model: RoundUpPowerOf2, RoundUpNextPowerOf2,
 * TrailingZeros, PopulationCount32, ALIGN_UP and 32-bit rotations.
 */
module Bits {
  import opened Common

  function Pow2(n: nat): (r: nat)
    ensures r >= 1
  {
    if n == 0 then 1 else 2 * Pow2(n - 1)
  }

  predicate IsPowerOf2(x: nat)
  {
    x == 1 || (x >= 2 && x % 2 == 0 && IsPowerOf2(x / 2))
  }

  /** The exponent of a power of two. */
  function Log2(x: nat): (k: nat)
    requires IsPowerOf2(x)
    ensures Pow2(k) == x
  {
    if x == 1 then 0 else 1 + Log2(x / 2)
  }

  lemma {:induction false} Pow2IsPowerOf2(k: nat)
    ensures IsPowerOf2(Pow2(k))
  {
    if k > 0 {
      Pow2IsPowerOf2(k - 1);
    }
  }

  lemma {:induction false} Pow2Monotonic(i: nat, j: nat)
    requires i < j
    ensures Pow2(i) < Pow2(j)
  {
    if i < j - 1 {
      Pow2Monotonic(i, j - 1);
    }
  }

  lemma {:induction false} Log2OfPow2(k: nat)
    ensures IsPowerOf2(Pow2(k)) && Log2(Pow2(k)) == k
  {
    Pow2IsPowerOf2(k);
    if k > 0 {
      Log2OfPow2(k - 1);
    }
  }

  /** Smallest power of two that is at least x, searched upward from p. */
  function RoundUpFrom(x: nat, p: nat): (r: nat)
    requires IsPowerOf2(p)
    requires p == 1 || p / 2 < x
    ensures IsPowerOf2(r) && x <= r && p <= r
    ensures r == 1 || r / 2 < x
    decreases x - p
  {
    if x <= p then p else RoundUpFrom(x, 2 * p)
  }

  /** RoundUpPowerOf2: the smallest power of two that is at least x. */
  function RoundUpPowerOf2(x: nat): (r: nat)
    ensures IsPowerOf2(r) && x <= r
    ensures r == 1 || r / 2 < x
  {
    RoundUpFrom(x, 1)
  }

  /** RoundUpNextPowerOf2: the smallest power of two strictly above x. */
  function RoundUpNextPowerOf2(x: nat): (r: nat)
    ensures IsPowerOf2(r) && x < r
    ensures r / 2 <= x
  {
    RoundUpPowerOf2(x + 1)
  }

  /** A power of two is its own round-up. */
  lemma {:induction false} RoundUpPowerOf2OfPowerOf2(x: nat)
    requires IsPowerOf2(x)
    ensures RoundUpPowerOf2(x) == x
  {
    var r := RoundUpPowerOf2(x);
    PowersOfTwoOrdered(r, x);
  }

  /** Two powers of two with r/2 < x <= r and x a power of two: r == x. */
  lemma {:induction false} PowersOfTwoOrdered(r: nat, x: nat)
    requires IsPowerOf2(r) && IsPowerOf2(x)
    requires x <= r && (r == 1 || r / 2 < x)
    ensures r == x
  {
    if r != 1 && x != 1 {
      PowersOfTwoOrdered(r / 2, x / 2);
    }
  }

  /** The next power of two above a power of two is its double. */
  lemma RoundUpNextPowerOf2OfPowerOf2(x: nat)
    requires IsPowerOf2(x)
    ensures RoundUpNextPowerOf2(x) == 2 * x
  {
    var r := RoundUpNextPowerOf2(x);
    assert (2 * x) / 2 == x;
    assert IsPowerOf2(2 * x);
    PowerOf2Gap(x, r);
    PowersOfTwoOrdered(r, 2 * x);
  }

  /** Distinct powers of two are at least a factor of two apart. */
  lemma {:induction false} PowerOf2Gap(p: nat, q: nat)
    requires IsPowerOf2(p) && IsPowerOf2(q) && p < q
    ensures 2 * p <= q
  {
    if p != 1 {
      PowerOf2Gap(p / 2, q / 2);
    }
  }

  /** The trailing zeros of a power of two's round-up are its exponent. */
  lemma ExponentOfPowerOf2(x: nat)
    ensures IsPowerOf2(x) ==> Pow2(TrailingZerosOf(RoundUpPowerOf2(x))) == x
  {
    if IsPowerOf2(x) {
      RoundUpPowerOf2OfPowerOf2(x);
      TrailingZerosOfPow2(Log2(x));
    }
  }

  /** Trailing zero bits of a non-zero value (tzcnt). */
  function TrailingZerosOf(x: nat): (r: nat)
    requires x > 0
    decreases x
  {
    if x % 2 == 1 then 0 else 1 + TrailingZerosOf(x / 2)
  }

  /** TrailingZeros of a ULONG: 32 for zero, as tzcnt defines it. */
  function TrailingZeros32(x: uint32): nat
  {
    if x == 0 then 32 else TrailingZerosOf(x)
  }

  lemma {:induction false} TrailingZerosOfPow2(k: nat)
    ensures TrailingZerosOf(Pow2(k)) == k
  {
    if k > 0 {
      TrailingZerosOfPow2(k - 1);
    }
  }

  /** PopulationCount: the number of one bits. */
  function PopulationCount(x: nat): nat
  {
    if x == 0 then 0 else x % 2 + PopulationCount(x / 2)
  }

  /** A mask of k low one bits has population count k. */
  lemma {:induction false} PopulationCountOfMask(k: nat)
    ensures PopulationCount(Pow2(k) - 1) == k
  {
    if k > 0 {
      PopulationCountOfMask(k - 1);
      assert (Pow2(k) - 1) / 2 == Pow2(k - 1) - 1;
    }
  }

  /**
   * ALIGN_UP(x, a): x rounded up to a multiple of a.  The CHM sizing code
   * aligns only to 8 and 16 bytes.
   */
  function AlignUp(x: nat, a: nat): (r: nat)
    requires a == 8 || a == 16
    ensures r % a == 0 && x <= r < x + a
  {
    if a == 8 then ((x + 7) / 8) * 8 else ((x + 15) / 16) * 16
  }

  /** 32-bit rotations; the rotation count is taken modulo 32. */
  function RotateRight32(x: bv32, n: nat): bv32
  {
    x.RotateRight(n % 32)
  }

  function RotateLeft32(x: bv32, n: nat): bv32
  {
    x.RotateLeft(n % 32)
  }

  lemma Pow2Value30()
    ensures Pow2(30) == 0x4000_0000
  {
    assert Pow2(10) == 1024;
    assert Pow2(20) == 1024 * 1024 by { Pow2Add(10, 10); }
    Pow2Add(20, 10);
  }

  lemma {:induction false} Pow2Add(i: nat, j: nat)
    ensures Pow2(i + j) == Pow2(i) * Pow2(j)
  {
    if j > 0 {
      Pow2Add(i, j - 1);
    }
  }

  lemma Pow2Value32()
    ensures Pow2(32) == 0x1_0000_0000
  {
    Pow2Value30();
    Pow2Add(30, 2);
  }
}
