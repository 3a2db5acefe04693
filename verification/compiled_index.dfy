/**
 * The two Index routines emitted into compiled perfect hash tables for the
 * CHM01 algorithm with AND masking.  Each hashes the (downsized) 32-bit key
 * twice with rotations and multiplications by seeds, masks both hashes with
 * the hash mask, reads the two table data slots, adds them with 32-bit
 * wrap-around and masks the sum with the index mask.  Unlike the routines a
 * table uses while it is being built, these have no failure path: two equal
 * hashes are not detected.
 *
 * A masked bit pattern is turned into an array position by `Number`, the
 * unsigned value of its bits, defined bit by bit so that its bounds can be
 * proved by induction.
 */
module CompiledIndex {
  import opened Bits
  import Chm01Index

  /** A seed byte, used as a rotation count (taken modulo 32 by the rotation). */
  type byte = x: int | 0 <= x < 256

  /**
   * The seed constants a generated table carries: the full 32-bit seeds and
   * the bytes of seed 3 and seed 6 that serve as rotation counts.
   */
  datatype Seeds = Seeds(seed1: bv32, seed2: bv32, seed4: bv32, seed5: bv32,
                         seed3Byte1: byte, seed3Byte2: byte, seed3Byte3: byte, seed3Byte4: byte,
                         seed6Byte1: byte, seed6Byte2: byte, seed6Byte3: byte)

  // ---------------------------------------------------------------------------
  // The unsigned value of a bit pattern
  // ---------------------------------------------------------------------------

  /** The unsigned value of the low `n` bits of `x`. */
  function LowBitsValue(x: bv32, n: nat): nat
    requires n <= 32
  {
    if n == 0 then 0
    else 2 * LowBitsValue(x >> 1, n - 1) + (if x & 1 == 1 then 1 else 0)
  }

  /** The unsigned value of a 32-bit pattern. */
  function Number(x: bv32): nat
  {
    LowBitsValue(x, 32)
  }

  lemma {:induction false} LowBitsValueBound(x: bv32, n: nat)
    requires n <= 32
    ensures LowBitsValue(x, n) < Pow2(n)
  {
    if n > 0 {
      LowBitsValueBound(x >> 1, n - 1);
    }
  }

  /** A pattern whose set bits are all set in `m` is worth at most `m`. */
  lemma {:induction false} SubsetBitsValueAtMost(x: bv32, m: bv32, n: nat)
    requires n <= 32 && x & !m == 0
    ensures LowBitsValue(x, n) <= LowBitsValue(m, n)
  {
    if n > 0 {
      assert (x >> 1) & !(m >> 1) == 0;
      SubsetBitsValueAtMost(x >> 1, m >> 1, n - 1);
      assert x & 1 == 1 ==> m & 1 == 1;
    }
  }

  /** Masking never yields more than the mask. */
  lemma MaskedAtMostMask(v: bv32, m: bv32)
    ensures Number(v & m) <= Number(m)
  {
    assert (v & m) & !m == 0;
    SubsetBitsValueAtMost(v & m, m, 32);
  }

  lemma NumberBound(x: bv32)
    ensures Number(x) < 0x1_0000_0000
  {
    LowBitsValueBound(x, 32);
    Pow2Value32();
  }

  // ---------------------------------------------------------------------------
  // RotateMultiplyXorRotate2, AND masks
  // ---------------------------------------------------------------------------

  /**
   * One vertex of the RotateMultiplyXorRotate2 hash: rotate the key right,
   * multiply by a seed, fold in a rotation of itself, multiply by a second
   * seed and fold in another rotation of itself, all modulo 2^32.
   */
  function MultiplyXorRotateVertex(key: bv32, rotate1: byte, seedA: bv32, rotate2: byte,
                                   seedB: bv32, rotate3: byte): bv32
  {
    var v1 := RotateRight32(key, rotate1) * seedA;
    var v2 := v1 ^ RotateRight32(v1, rotate2);
    var v3 := v2 * seedB;
    v3 ^ RotateRight32(v3, rotate3)
  }

  /** The first vertex uses seed 1, seed 2 and the bytes of seed 3. */
  function Rotate2Vertex1(seeds: Seeds, key: bv32): bv32
  {
    MultiplyXorRotateVertex(key, seeds.seed3Byte1, seeds.seed1, seeds.seed3Byte2, seeds.seed2, seeds.seed3Byte3)
  }

  /** The second vertex uses seed 4, seed 5 and the bytes of seed 6. */
  function Rotate2Vertex2(seeds: Seeds, key: bv32): bv32
  {
    MultiplyXorRotateVertex(key, seeds.seed6Byte1, seeds.seed4, seeds.seed6Byte2, seeds.seed5, seeds.seed6Byte3)
  }

  /**
   * The shared tail of both generated routines: mask both vertices with the
   * hash mask, read the two data slots, add them modulo 2^32 and mask the sum
   * with the index mask.
   */
  function MaskAndCombine(vertex1: bv32, vertex2: bv32, hashMask: bv32, indexMask: bv32,
                          data: seq<bv32>): (index: nat)
    requires Number(hashMask) < |data|
    ensures index <= Number(indexMask)
  {
    MaskedAtMostMask(vertex1, hashMask);
    MaskedAtMostMask(vertex2, hashMask);
    var maskedLow := Number(vertex1 & hashMask);
    var maskedHigh := Number(vertex2 & hashMask);
    MaskedAtMostMask(data[maskedLow] + data[maskedHigh], indexMask);
    Number((data[maskedLow] + data[maskedHigh]) & indexMask)
  }

  /** The generated RotateMultiplyXorRotate2/AND Index routine. */
  function IndexRotateMultiplyXorRotate2And(seeds: Seeds, hashMask: bv32, indexMask: bv32,
                                           data: seq<bv32>, key: bv32): (index: nat)
    requires Number(hashMask) < |data|
    ensures index <= Number(indexMask)
  {
    MaskAndCombine(Rotate2Vertex1(seeds, key), Rotate2Vertex2(seeds, key), hashMask, indexMask, data)
  }

  // ---------------------------------------------------------------------------
  // RotateRMultiplyRotateR, AND masks
  // ---------------------------------------------------------------------------

  /** One vertex of the RotateRMultiplyRotateR hash: rotate right, multiply, rotate right. */
  function MultiplyRotateVertex(key: bv32, rotate1: byte, seed: bv32, rotate2: byte): bv32
  {
    RotateRight32(RotateRight32(key, rotate1) * seed, rotate2)
  }

  /** The generated RotateRMultiplyRotateR/AND Index routine. */
  function IndexRotateRMultiplyRotateRAnd(seeds: Seeds, hashMask: bv32, indexMask: bv32,
                                         data: seq<bv32>, key: bv32): (index: nat)
    requires Number(hashMask) < |data|
    ensures index <= Number(indexMask)
  {
    var vertex1 := MultiplyRotateVertex(key, seeds.seed3Byte1, seeds.seed1, seeds.seed3Byte3);
    var vertex2 := MultiplyRotateVertex(key, seeds.seed3Byte2, seeds.seed2, seeds.seed3Byte4);
    MaskAndCombine(vertex1, vertex2, hashMask, indexMask, data)
  }

  /**
   * The generated routines add the two data values in 32 bits, while the
   * routines used during creation add them in 64 bits.  Under a 32-bit index
   * mask the carry out of bit 31 is discarded either way, so both give the
   * same index.
   */
  lemma WrappedSumAgreesWithWideSum(value1: bv32, value2: bv32, indexMask: bv32)
    ensures Chm01Index.AndMaskedIndex(indexMask, Chm01Index.Combine(value1, value2)) as bv32
         == (value1 + value2) & indexMask
  {
    assert ((value1 as bv64 + value2 as bv64) & indexMask as bv64) as bv32 == (value1 + value2) & indexMask;
  }
}
