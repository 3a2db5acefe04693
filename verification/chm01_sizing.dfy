/**
 * The CHM algorithm's table-sizing arithmetic: the number of edges and
 * vertices of the 2-graph, the bitmap buffer sizes, and the Hash/Index
 * size, shift, mask, fold and modulus fields derived from them.
 */
module Chm01Sizing {
  import opened Common
  import opened Bits

  /** The graph dimensions captured before the graph buffers are sized. */
  datatype Dimensions = Dimensions(
    edges: nat,
    totalEdges: nat,
    vertices: nat,
    edgesPowerOf2Exponent: nat,
    edgesNextPowerOf2Exponent: nat,
    verticesPowerOf2Exponent: nat,
    verticesNextPowerOf2Exponent: nat)

  /**
   * Edge and vertex counts for a key set.  A non-zero `requested` size (set
   * by a previous resize) takes precedence over the heuristic.  Modulus
   * masking uses the key count as the edge count; every other masking type
   * needs power-of-two edge and vertex counts, and rounds up only the low
   * 32 bits of the requested size.
   */
  function ComputeDimensions(numberOfKeys: uint32, requested: nat, modulus: bool): (d: Dimensions)
    ensures d.totalEdges == 2 * d.edges
    ensures modulus ==> d.edges == numberOfKeys
    ensures modulus && requested == 0 ==> d.vertices == (9 * d.edges) / 4
    ensures modulus && requested != 0 ==> d.vertices == requested
    ensures !modulus ==>
      IsPowerOf2(d.edges) && IsPowerOf2(d.vertices) &&
      numberOfKeys <= d.edges && (d.edges == 1 || d.edges / 2 < numberOfKeys)
    ensures !modulus && requested == 0 ==> d.vertices == 2 * d.edges
    ensures !modulus && requested != 0 ==>
      Wrap32(requested) <= d.vertices && (d.vertices == 1 || d.vertices / 2 < Wrap32(requested))
    ensures !modulus ==>
      Pow2(d.edgesPowerOf2Exponent) == d.edges && Pow2(d.verticesPowerOf2Exponent) == d.vertices
    ensures requested < TwoTo32 ==> d.vertices >= requested
  {
    if requested != 0 then
      if modulus then MakeDimensions(numberOfKeys, requested)
      else MakeDimensions(RoundUpPowerOf2(numberOfKeys), RoundUpPowerOf2(Wrap32(requested)))
    else if modulus then
      MakeDimensions(numberOfKeys, numberOfKeys * 2 + numberOfKeys / 4)
    else
      var edges := RoundUpPowerOf2(numberOfKeys);
      RoundUpNextPowerOf2OfPowerOf2(edges);
      MakeDimensions(edges, RoundUpNextPowerOf2(edges))
  }

  /** The dimensions record for given edge and vertex counts. */
  function MakeDimensions(edges: nat, vertices: nat): (d: Dimensions)
    ensures d.edges == edges && d.vertices == vertices && d.totalEdges == 2 * edges
    ensures IsPowerOf2(edges) ==> Pow2(d.edgesPowerOf2Exponent) == edges
    ensures IsPowerOf2(vertices) ==> Pow2(d.verticesPowerOf2Exponent) == vertices
  {
    ExponentOfPowerOf2(edges);
    ExponentOfPowerOf2(vertices);
    Dimensions(
      edges, 2 * edges, vertices,
      TrailingZerosOf(RoundUpPowerOf2(edges)),
      TrailingZerosOf(RoundUpNextPowerOf2(edges)),
      TrailingZerosOf(RoundUpPowerOf2(vertices)),
      TrailingZerosOf(RoundUpNextPowerOf2(vertices)))
  }

  /** The popcount assertion on the edge and vertex masks: popcount(size - 1) is the recorded exponent. */
  predicate MaskPopulationsMatch(d: Dimensions)
  {
    d.edges >= 1 && d.vertices >= 1 &&
    PopulationCount(d.edges - 1) == d.edgesPowerOf2Exponent &&
    PopulationCount(d.vertices - 1) == d.verticesPowerOf2Exponent
  }

  /** For power-of-two masking the popcount assertion holds for every key count and requested size. */
  lemma MaskPopulationMatchesExponents(numberOfKeys: uint32, requested: nat)
    ensures MaskPopulationsMatch(ComputeDimensions(numberOfKeys, requested, false))
  {
    ExponentMasks(ComputeDimensions(numberOfKeys, requested, false));
  }

  /** Counts that are the powers of two of their recorded exponents pass the popcount assertion. */
  lemma ExponentMasks(d: Dimensions)
    requires Pow2(d.edgesPowerOf2Exponent) == d.edges && Pow2(d.verticesPowerOf2Exponent) == d.vertices
    ensures MaskPopulationsMatch(d)
  {
    PopulationCountOfMask(d.edgesPowerOf2Exponent);
    PopulationCountOfMask(d.verticesPowerOf2Exponent);
  }

  /**
   * The sanity checks the creation routine asserts on the dimensions: every
   * count fits in a ULONG and there are more vertices than edges.
   */
  predicate SizingAssertionsHold(d: Dimensions)
  {
    d.edges < TwoTo32 && d.totalEdges < TwoTo32 && d.vertices < TwoTo32 &&
    d.vertices > d.edges
  }

  /**
   * The heuristic sizes (no requested size) satisfy every sizing assertion
   * for any non-empty key set of at most 2^30 keys.
   */
  lemma HeuristicSizingIsSound(numberOfKeys: uint32, modulus: bool)
    requires 0 < numberOfKeys <= 0x4000_0000
    ensures SizingAssertionsHold(ComputeDimensions(numberOfKeys, 0, modulus))
  {
    var d := ComputeDimensions(numberOfKeys, 0, modulus);
    if !modulus {
      Pow2IsPowerOf2(30);
      assert Pow2(30) == 0x4000_0000 by { Pow2Value30(); }
      PowerOf2AtMost(d.edges, Pow2(30));
    }
  }

  /** The least power of two at least x is at most any power of two at least x. */
  lemma PowerOf2AtMost(r: nat, p: nat)
    requires IsPowerOf2(r) && IsPowerOf2(p)
    requires r == 1 || r / 2 < p
    ensures r <= p
  {
    if r > p {
      PowerOf2Gap(p, r);
    }
  }

  /**
   * Without modulus masking and without a requested size, the header's
   * documented rule holds: the table has the next power of two above the
   * key count rounded up to a power of two.
   */
  lemma PowerOf2TableElements(numberOfKeys: uint32)
    ensures ComputeDimensions(numberOfKeys, 0, false).vertices ==
            RoundUpNextPowerOf2(RoundUpPowerOf2(numberOfKeys))
  {
  }

  /**
   * The creation routine sizes every bitmap buffer as
   * ALIGN_UP(ALIGN_UP(n + 1, 8) >> 3, 16) bytes for n tracked items.
   */
  function BitmapBufferSize(n: nat): (bytes: nat)
    ensures bytes % 16 == 0
    ensures 8 * bytes >= n + 1
    ensures bytes < (n + 1) / 8 + 17
  {
    AlignUp(AlignUp(n + 1, 8) / 8, 16)
  }

  /** The four bitmaps: deleted edges, visited vertices, assigned, index. */
  const NumberOfBitmaps: nat := 4

  datatype BitmapSizes = BitmapSizes(deletedEdges: nat, visitedVertices: nat, assignedVertices: nat, indexBitmap: nat)

  /**
   * One bit per edge slot (both directions) for the deleted-edges bitmap,
   * one bit per vertex for the other three.
   */
  function ComputeBitmapSizes(d: Dimensions): (b: BitmapSizes)
    ensures 8 * b.deletedEdges > d.totalEdges && b.deletedEdges % 16 == 0
    ensures b.visitedVertices == b.assignedVertices == b.indexBitmap
    ensures 8 * b.assignedVertices > d.vertices && b.assignedVertices % 16 == 0
  {
    var v := BitmapBufferSize(d.vertices);
    BitmapSizes(BitmapBufferSize(d.totalEdges), v, v, v)
  }

  /** The ten Hash and Index fields of a table, also stored in the on-disk header. */
  datatype TableFields = TableFields(
    hashSize: uint32,
    indexSize: uint32,
    hashShift: nat,
    indexShift: nat,
    hashMask: uint32,
    indexMask: uint32,
    hashFold: nat,
    indexFold: nat,
    hashModulus: uint32,
    indexModulus: uint32)

  /**
   * The fields the Hash and Mask routines read: the hash space is the
   * vertex count and the index space the edge count.  Masks are ULONG
   * subtractions, so a zero size wraps to 0xFFFFFFFF.
   */
  function DeriveTableFields(vertices: uint32, edges: uint32): (f: TableFields)
    ensures f.hashSize == f.hashModulus == vertices
    ensures f.indexSize == f.indexModulus == edges
    ensures vertices > 0 ==> f.hashMask == vertices - 1
    ensures edges > 0 ==> f.indexMask == edges - 1
    ensures f.hashFold == f.hashShift / 8 && f.indexFold == f.indexShift / 8
    ensures f.hashShift <= 32 && f.indexShift <= 32
  {
    var hashShift := TrailingZeros32(vertices);
    var indexShift := TrailingZeros32(edges);
    assert hashShift <= 32 && indexShift <= 32 by {
      TrailingZerosBound(vertices);
      TrailingZerosBound(edges);
    }
    TableFields(
      vertices, edges,
      hashShift, indexShift,
      Wrap32(vertices - 1), Wrap32(edges - 1),
      hashShift / 8, indexShift / 8,
      vertices, edges)
  }

  lemma TrailingZerosBound(x: uint32)
    ensures TrailingZeros32(x) <= 32
  {
    if x > 0 {
      Pow2Value30();
      Pow2Add(30, 2);
      TrailingZerosBelow(x, 32);
    }
  }

  /** A non-zero value below 2^k has fewer than k trailing zero bits. */
  lemma {:induction false} TrailingZerosBelow(x: nat, k: nat)
    requires 0 < x < Pow2(k)
    ensures TrailingZerosOf(x) < k
  {
    if x % 2 == 0 {
      TrailingZerosBelow(x / 2, k - 1);
    }
  }

  /**
   * Under power-of-two sizes the derived fields are consistent: the shift
   * is the size's exponent, the mask is size - 1 and has exactly `shift`
   * one bits (the condition the creation routine asserts on its edge and
   * vertex masks), and a mask keeps exactly the residue modulo the size.
   */
  lemma {:induction false} PowerOf2FieldsConsistent(vertices: uint32, edges: uint32)
    requires IsPowerOf2(vertices) && IsPowerOf2(edges)
    ensures var f := DeriveTableFields(vertices, edges);
      Pow2(f.hashShift) == f.hashSize && Pow2(f.indexShift) == f.indexSize &&
      f.hashMask + 1 == f.hashSize && f.indexMask + 1 == f.indexSize &&
      PopulationCount(f.hashMask) == f.hashShift &&
      PopulationCount(f.indexMask) == f.indexShift
  {
    var f := DeriveTableFields(vertices, edges);
    var hk, ik := Log2(vertices), Log2(edges);
    TrailingZerosOfPow2(hk);
    TrailingZerosOfPow2(ik);
    PopulationCountOfMask(hk);
    PopulationCountOfMask(ik);
  }

}
