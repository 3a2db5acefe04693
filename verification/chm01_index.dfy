/**
 * Index routines of the CHM01 algorithm: given a key of a loaded table,
 * compute the key's slot in the table.
 *
 * The generic routine goes through the table's routine table: hash the key
 * into two 32-bit halves, mask each half into vertex space, read the two
 * vertex values from the table's data array (the "assigned" array built
 * during creation), add them in 64 bits and mask the sum into index space.
 * The fast routines inline one particular hash and mask combination; each is
 * proved equal to the generic routine run with the routines it inlines.
 *
 * Hash values are `bv32` bit patterns; masked values, indexes into the data
 * array and the final index are ULONG numbers (`uint32`).  The data array is
 * a map from the indexes it has entries at to the ULONG stored there.
 */
module Chm01Index {
  import opened Common

  /** What an index routine hands back: its status and the index it stored. */
  datatype IndexResult = IndexResult(status: HResult, index: uint32)

  /** The error exit shared by every index routine: index cleared to 0, E_FAIL. */
  const IndexError := IndexResult(Fail, 0)

  /** The ULONG number a 32-bit pattern denotes. */
  function ToNumber(b: bv32): (n: uint32)
    ensures n as bv32 == b
  {
    b as int
  }

  /** A hash routine's 64-bit result as its low and high 32-bit halves. */
  datatype HashPair = HashPair(low: bv32, high: bv32)

  /** Every value a hash-masking routine can produce addresses the data array. */
  ghost predicate MaskHashInBounds(maskHash: bv32 -> Option<uint32>, data: map<uint32, bv32>)
  {
    forall v :: maskHash(v).Some? ==> maskHash(v).value in data
  }

  /** The two 32-bit vertex values added in 64 bits, so the carry is kept. */
  function Combine(vertex1: bv32, vertex2: bv32): bv64
  {
    vertex1 as bv64 + vertex2 as bv64
  }

  /**
   * The generic index routine.  The table's hash, hash-masking and
   * index-masking routines are parameters, and each may fail (None).
   */
  function GenericIndex(hash: bv32 -> Option<HashPair>, maskHash: bv32 -> Option<uint32>,
                        maskIndex: bv64 -> Option<uint32>, data: map<uint32, bv32>,
                        key: bv32): (r: IndexResult)
    requires MaskHashInBounds(maskHash, data)
    ensures r.status == Ok || r == IndexError
    ensures r.status == Ok <==>
      (hash(key).Some? && maskHash(hash(key).value.low).Some? && maskHash(hash(key).value.high).Some?
       && maskIndex(Combine(data[maskHash(hash(key).value.low).value],
                            data[maskHash(hash(key).value.high).value])).Some?)
    ensures r.status == Ok ==> Some(r.index) == maskIndex(Combine(data[maskHash(hash(key).value.low).value],
                                                                  data[maskHash(hash(key).value.high).value]))
  {
    match hash(key)
    case None => IndexError
    case Some(h) =>
      match maskHash(h.low)
      case None => IndexError
      case Some(maskedLow) =>
        match maskHash(h.high)
        case None => IndexError
        case Some(maskedHigh) =>
          var combined := Combine(data[maskedLow], data[maskedHigh]);
          match maskIndex(combined)
          case None => IndexError
          case Some(masked) => IndexResult(Ok, masked)
  }

  // ---------------------------------------------------------------------------
  // AND masking and modulus masking, the two routine families the fast paths inline
  // ---------------------------------------------------------------------------

  /** AND masking of a hash half with the table's hash mask. */
  function AndMasked(hashMask: bv32, v: bv32): (m: bv32)
    ensures m <= hashMask
  {
    v & hashMask
  }

  /** AND masking of a combined vertex sum with the table's index mask. */
  function AndMaskedIndex(indexMask: bv32, c: bv64): (m: uint32)
    ensures m as bv32 <= indexMask
  {
    ToNumber((c & indexMask as bv64) as bv32)
  }

  /** Modulus masking of a hash half with the table's hash modulus. */
  function ModMasked(hashModulus: uint32, v: bv32): (m: uint32)
    requires hashModulus > 0
    ensures m < hashModulus
  {
    v as int % hashModulus
  }

  /** Modulus masking of a combined vertex sum with the table's index modulus. */
  function ModMaskedIndex(indexModulus: uint32, c: bv64): (m: uint32)
    requires indexModulus > 0
    ensures m < indexModulus
  {
    c as int % indexModulus
  }

  /** The AND hash-masking routine as a table routine; it never fails. */
  function AndMaskHash(hashMask: bv32): bv32 -> Option<uint32>
  {
    v => Some(ToNumber(AndMasked(hashMask, v)))
  }

  /** The AND index-masking routine as a table routine; it never fails. */
  function AndMaskIndex(indexMask: bv32): bv64 -> Option<uint32>
  {
    c => Some(AndMaskedIndex(indexMask, c))
  }

  /** The modulus hash-masking routine as a table routine; it never fails. */
  function ModMaskHash(hashModulus: uint32): bv32 -> Option<uint32>
    requires hashModulus > 0
  {
    v => Some(ModMasked(hashModulus, v))
  }

  /** The modulus index-masking routine as a table routine; it never fails. */
  function ModMaskIndex(indexModulus: uint32): bv64 -> Option<uint32>
    requires indexModulus > 0
  {
    c => Some(ModMaskedIndex(indexModulus, c))
  }

  /** The data array has an entry at every bit pattern up to and including the hash mask. */
  ghost predicate CoversThroughMask(data: map<uint32, bv32>, hashMask: bv32)
  {
    forall i: bv32 :: i <= hashMask ==> ToNumber(i) in data
  }

  /** The data array has an entry at every number below the hash modulus. */
  ghost predicate CoversBelowModulus(data: map<uint32, bv32>, hashModulus: uint32)
  {
    forall i: uint32 :: i < hashModulus ==> i in data
  }

  lemma AndMaskHashInBounds(hashMask: bv32, data: map<uint32, bv32>)
    requires CoversThroughMask(data, hashMask)
    ensures MaskHashInBounds(AndMaskHash(hashMask), data)
  {
  }

  lemma ModMaskHashInBounds(hashModulus: uint32, data: map<uint32, bv32>)
    requires hashModulus > 0 && CoversBelowModulus(data, hashModulus)
    ensures MaskHashInBounds(ModMaskHash(hashModulus), data)
  {
  }

  /** The rest of an index computation with AND masks, once the hash pair (or its failure) is known. */
  function AndIndexOf(pair: Option<HashPair>, hashMask: bv32, indexMask: bv32, data: map<uint32, bv32>): IndexResult
    requires CoversThroughMask(data, hashMask)
  {
    match pair
    case None => IndexError
    case Some(h) =>
      IndexResult(Ok, AndMaskedIndex(indexMask, Combine(data[ToNumber(AndMasked(hashMask, h.low))],
                                                        data[ToNumber(AndMasked(hashMask, h.high))])))
  }

  /** With AND masking on both sides only the hash can fail the generic routine. */
  lemma GenericIndexWithAndMasks(hash: bv32 -> Option<HashPair>, hashMask: bv32, indexMask: bv32,
                                 data: map<uint32, bv32>, key: bv32)
    requires CoversThroughMask(data, hashMask)
    ensures MaskHashInBounds(AndMaskHash(hashMask), data)
    ensures GenericIndex(hash, AndMaskHash(hashMask), AndMaskIndex(indexMask), data, key)
         == AndIndexOf(hash(key), hashMask, indexMask, data)
  {
    AndMaskHashInBounds(hashMask, data);
    match hash(key)
    case None =>
    case Some(h) =>
      AndMaskHashApplies(hashMask, h.low);
      AndMaskHashApplies(hashMask, h.high);
      var combined := Combine(data[ToNumber(AndMasked(hashMask, h.low))], data[ToNumber(AndMasked(hashMask, h.high))]);
      assert AndMaskIndex(indexMask)(combined) == Some(AndMaskedIndex(indexMask, combined));
  }

  /** Applying the AND hash-masking routine is AND masking. */
  lemma AndMaskHashApplies(hashMask: bv32, v: bv32)
    ensures AndMaskHash(hashMask)(v) == Some(ToNumber(AndMasked(hashMask, v)))
  {
  }

  // ---------------------------------------------------------------------------
  // CRC32 rotate hash, AND masking
  // ---------------------------------------------------------------------------

  /**
   * The Crc32Rotate hash pair the fast routine inlines, with the CRC32C step
   * as a parameter.  Equal halves are the hash's failure.
   */
  function Crc32RotatePair(crc: (bv32, bv32) -> bv32, seed1: bv32, seed2: bv32, seed3: bv32,
                           key: bv32): Option<HashPair>
  {
    var a := crc(seed1, key);
    var b := crc(seed2, key.RotateLeft(15));
    var c := seed3 ^ key;
    var d := crc(b, c);
    if a == d then None else Some(HashPair(a, d))
  }

  /** The Crc32Rotate hash as a table routine. */
  function Crc32RotateHash(crc: (bv32, bv32) -> bv32, seed1: bv32, seed2: bv32, seed3: bv32): bv32 -> Option<HashPair>
  {
    key => Crc32RotatePair(crc, seed1, seed2, seed3, key)
  }

  /** The fast index routine for the Crc32Rotate hash with AND masking. */
  function FastIndexCrc32RotateAnd(crc: (bv32, bv32) -> bv32, seed1: bv32, seed2: bv32, seed3: bv32,
                                  hashMask: bv32, indexMask: bv32, data: map<uint32, bv32>,
                                  key: bv32): (r: IndexResult)
    requires CoversThroughMask(data, hashMask)
    ensures r.index as bv32 <= indexMask
    ensures r.status == Ok <==> crc(seed1, key) != crc(crc(seed2, key.RotateLeft(15)), seed3 ^ key)
    ensures r.status != Ok ==> r == IndexError
  {
    var a := crc(seed1, key);
    var b := crc(seed2, key.RotateLeft(15));
    var c := seed3 ^ key;
    var d := crc(b, c);
    if a == d then IndexError
    else
      var maskedLow := ToNumber(AndMasked(hashMask, a));
      var maskedHigh := ToNumber(AndMasked(hashMask, d));
      var combined := Combine(data[maskedLow], data[maskedHigh]);
      IndexResult(Ok, AndMaskedIndex(indexMask, combined))
  }

  /** The CRC fast path computes exactly what the generic routine computes. */
  lemma FastCrc32RotateAndIsGeneric(crc: (bv32, bv32) -> bv32, seed1: bv32, seed2: bv32, seed3: bv32,
                                     hashMask: bv32, indexMask: bv32, data: map<uint32, bv32>, key: bv32)
    requires CoversThroughMask(data, hashMask)
    ensures MaskHashInBounds(AndMaskHash(hashMask), data)
    ensures FastIndexCrc32RotateAnd(crc, seed1, seed2, seed3, hashMask, indexMask, data, key)
         == GenericIndex(Crc32RotateHash(crc, seed1, seed2, seed3), AndMaskHash(hashMask),
                         AndMaskIndex(indexMask), data, key)
  {
    GenericIndexWithAndMasks(Crc32RotateHash(crc, seed1, seed2, seed3), hashMask, indexMask, data, key);
    assert Crc32RotateHash(crc, seed1, seed2, seed3)(key) == Crc32RotatePair(crc, seed1, seed2, seed3, key);
    FastCrc32RotateAndSplits(crc, seed1, seed2, seed3, hashMask, indexMask, data, key);
  }

  lemma FastCrc32RotateAndSplits(crc: (bv32, bv32) -> bv32, seed1: bv32, seed2: bv32, seed3: bv32,
                                 hashMask: bv32, indexMask: bv32, data: map<uint32, bv32>, key: bv32)
    requires CoversThroughMask(data, hashMask)
    ensures FastIndexCrc32RotateAnd(crc, seed1, seed2, seed3, hashMask, indexMask, data, key)
         == AndIndexOf(Crc32RotatePair(crc, seed1, seed2, seed3, key), hashMask, indexMask, data)
  {
  }

  // ---------------------------------------------------------------------------
  // Jenkins hash
  // ---------------------------------------------------------------------------

  /** The golden-ratio constant the Jenkins hash starts two of its registers with. */
  const GoldenRatio: bv32 := 0x9e3779b9

  /** The key's four bytes, as they lie in memory (little-endian), added into a register highest byte first. */
  function AbsorbKey(a: bv32, key: bv32): bv32
  {
    var byte0 := key & 0xFF;
    var byte1 := (key >> 8) & 0xFF;
    var byte2 := (key >> 16) & 0xFF;
    var byte3 := (key >> 24) & 0xFF;
    a + (byte3 << 24) + (byte2 << 16) + (byte1 << 8) + byte0
  }

  /** Adding the four bytes one by one adds the key itself, modulo 2^32. */
  lemma AbsorbKeyAddsKey(a: bv32, key: bv32)
    ensures AbsorbKey(a, key) == a + key
  {
    var byte0 := key & 0xFF;
    var byte1 := (key >> 8) & 0xFF;
    var byte2 := (key >> 16) & 0xFF;
    var byte3 := (key >> 24) & 0xFF;
    BytesRebuildKey(key);
    DisjointBytesAddAsOr(byte3, byte2, byte1, byte0);
  }

  lemma BytesRebuildKey(key: bv32)
    ensures (((key >> 24) & 0xFF) << 24) | (((key >> 16) & 0xFF) << 16) | (((key >> 8) & 0xFF) << 8) | (key & 0xFF) == key
  {
  }

  lemma DisjointBytesAddAsOr(byte3: bv32, byte2: bv32, byte1: bv32, byte0: bv32)
    requires byte3 <= 0xFF && byte2 <= 0xFF && byte1 <= 0xFF && byte0 <= 0xFF
    ensures (byte3 << 24) + (byte2 << 16) + (byte1 << 8) + byte0 == (byte3 << 24) | (byte2 << 16) | (byte1 << 8) | byte0
  {
  }

  /** The three Jenkins registers. */
  datatype Registers = Registers(a: bv32, b: bv32, c: bv32)

  /**
   * One round of the Jenkins mix: each register loses the other two and
   * takes in a shifted copy of the register updated just before it.  The
   * three rounds differ only in their shift counts.
   */
  function MixRound(r: Registers, shiftA: nat, shiftB: nat, shiftC: nat): Registers
    requires shiftA < 32 && shiftB < 32 && shiftC < 32
  {
    var a := (r.a - r.b - r.c) ^ (r.c >> shiftA);
    var b := (r.b - r.c - a) ^ (a << shiftB);
    var c := (r.c - a - b) ^ (b >> shiftC);
    Registers(a, b, c)
  }

  /** The rounds of the mix from `round` on (there are three: 0, 1 and 2). */
  function MixRounds(r: Registers, round: nat): Registers
    requires round <= 3
    decreases 3 - round
  {
    if round == 3 then r
    else if round == 0 then MixRounds(MixRound(r, 13, 8, 13), 1)
    else if round == 1 then MixRounds(MixRound(r, 12, 16, 5), 2)
    else MixRounds(MixRound(r, 3, 10, 15), 3)
  }

  /** The nine-step mix of the three Jenkins registers; the result is the last register. */
  function JenkinsMix(a0: bv32, b0: bv32, c0: bv32): bv32
  {
    MixRounds(Registers(a0, b0, c0), 0).c
  }

  /** One Jenkins hash of a 32-bit key under one seed. */
  function JenkinsHash(seed: bv32, key: bv32): bv32
  {
    JenkinsMix(AbsorbKey(GoldenRatio, key), GoldenRatio, seed)
  }

  /** The first register enters the mix as the golden ratio plus the key. */
  lemma JenkinsHashMixesKeyPlusGoldenRatio(seed: bv32, key: bv32)
    ensures JenkinsHash(seed, key) == JenkinsMix(GoldenRatio + key, GoldenRatio, seed)
  {
    AbsorbKeyAddsKey(GoldenRatio, key);
  }

  /** The Jenkins hash pair the fast routines inline; equal halves are its failure. */
  function JenkinsPair(seed1: bv32, seed2: bv32, key: bv32): Option<HashPair>
  {
    var v1 := JenkinsHash(seed1, key);
    var v2 := JenkinsHash(seed2, key);
    if v1 == v2 then None else Some(HashPair(v1, v2))
  }

  /** The Jenkins hash pair as a table routine. */
  function JenkinsPairHash(seed1: bv32, seed2: bv32): bv32 -> Option<HashPair>
  {
    key => JenkinsPair(seed1, seed2, key)
  }

  /** The fast index routine for the Jenkins hash with AND masking. */
  function FastIndexJenkinsAnd(seed1: bv32, seed2: bv32, hashMask: bv32, indexMask: bv32,
                              data: map<uint32, bv32>, key: bv32): (r: IndexResult)
    requires CoversThroughMask(data, hashMask)
    ensures r.index as bv32 <= indexMask
    ensures r.status == Ok <==> JenkinsHash(seed1, key) != JenkinsHash(seed2, key)
    ensures r.status != Ok ==> r == IndexError
  {
    var vertex1 := JenkinsHash(seed1, key);
    var vertex2 := JenkinsHash(seed2, key);
    if vertex1 == vertex2 then IndexError
    else
      var maskedLow := ToNumber(AndMasked(hashMask, vertex1));
      var maskedHigh := ToNumber(AndMasked(hashMask, vertex2));
      var combined := Combine(data[maskedLow], data[maskedHigh]);
      IndexResult(Ok, AndMaskedIndex(indexMask, combined))
  }

  /** The Jenkins/AND fast path computes exactly what the generic routine computes. */
  lemma FastJenkinsAndIsGeneric(seed1: bv32, seed2: bv32, hashMask: bv32, indexMask: bv32,
                                data: map<uint32, bv32>, key: bv32)
    requires CoversThroughMask(data, hashMask)
    ensures MaskHashInBounds(AndMaskHash(hashMask), data)
    ensures FastIndexJenkinsAnd(seed1, seed2, hashMask, indexMask, data, key)
         == GenericIndex(JenkinsPairHash(seed1, seed2), AndMaskHash(hashMask),
                         AndMaskIndex(indexMask), data, key)
  {
    GenericIndexWithAndMasks(JenkinsPairHash(seed1, seed2), hashMask, indexMask, data, key);
    assert JenkinsPairHash(seed1, seed2)(key) == JenkinsPair(seed1, seed2, key);
    FastJenkinsAndSplits(seed1, seed2, hashMask, indexMask, data, key);
  }

  lemma FastJenkinsAndSplits(seed1: bv32, seed2: bv32, hashMask: bv32, indexMask: bv32,
                             data: map<uint32, bv32>, key: bv32)
    requires CoversThroughMask(data, hashMask)
    ensures FastIndexJenkinsAnd(seed1, seed2, hashMask, indexMask, data, key)
         == AndIndexOf(JenkinsPair(seed1, seed2, key), hashMask, indexMask, data)
  {
  }

  /** The fast index routine for the Jenkins hash with modulus masking. */
  function FastIndexJenkinsMod(seed1: bv32, seed2: bv32, hashModulus: uint32, indexModulus: uint32,
                              data: map<uint32, bv32>, key: bv32): (r: IndexResult)
    requires hashModulus > 0 && indexModulus > 0 && CoversBelowModulus(data, hashModulus)
    ensures r.index < indexModulus
    ensures r.status == Ok <==> JenkinsHash(seed1, key) != JenkinsHash(seed2, key)
    ensures r.status != Ok ==> r == IndexError
  {
    var vertex1 := JenkinsHash(seed1, key);
    var vertex2 := JenkinsHash(seed2, key);
    if vertex1 == vertex2 then IndexError
    else IndexResult(Ok, ModMaskAndCombine(vertex1, vertex2, hashModulus, indexModulus, data))
  }

  /**
   * The tail of the modulus fast path: reduce both vertices modulo the hash
   * modulus, read the two data slots, add them in 64 bits and reduce the sum
   * modulo the index modulus.
   */
  function ModMaskAndCombine(vertex1: bv32, vertex2: bv32, hashModulus: uint32, indexModulus: uint32,
                             data: map<uint32, bv32>): (index: uint32)
    requires hashModulus > 0 && indexModulus > 0 && CoversBelowModulus(data, hashModulus)
    ensures index < indexModulus
  {
    var maskedLow := ModMasked(hashModulus, vertex1);
    var maskedHigh := ModMasked(hashModulus, vertex2);
    ModMaskedIndex(indexModulus, Combine(data[maskedLow], data[maskedHigh]))
  }

  /** The Jenkins/modulus fast path computes exactly what the generic routine computes. */
  lemma FastJenkinsModIsGeneric(seed1: bv32, seed2: bv32, hashModulus: uint32, indexModulus: uint32,
                                data: map<uint32, bv32>, key: bv32)
    requires hashModulus > 0 && indexModulus > 0 && CoversBelowModulus(data, hashModulus)
    ensures MaskHashInBounds(ModMaskHash(hashModulus), data)
    ensures FastIndexJenkinsMod(seed1, seed2, hashModulus, indexModulus, data, key)
         == GenericIndex(JenkinsPairHash(seed1, seed2), ModMaskHash(hashModulus),
                         ModMaskIndex(indexModulus), data, key)
  {
    ModMaskHashInBounds(hashModulus, data);
  }
}
