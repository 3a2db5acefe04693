/**
 * The perfect hash table object's routine selection: the vtbl is filled
 * from the ID-indexed routine tables, and the Index slot takes the first
 * fast-index tuple matching all three IDs, falling back to the algorithm's
 * generic index routine.
 */
module Vtbl {
  import opened Common
  import opened Constants
  import opened Chm01Sizing

  /** The routine slots of a table's vtbl; NULL is `None`. */
  class TableVtbl {
    var hash: Option<HashRoutine>
    var seededHash: Option<SeededHashRoutine>
    var maskHash: Option<MaskRoutine>
    var maskIndex: Option<MaskRoutine>
    var slowIndex: Option<IndexRoutine>
    var fastIndex: Option<IndexRoutine>
    var index: Option<IndexRoutine>

    constructor ()
      ensures hash == None && seededHash == None && maskHash == None && maskIndex == None
      ensures slowIndex == None && fastIndex == None && index == None
    {
      hash, seededHash, maskHash, maskIndex := None, None, None, None;
      slowIndex, fastIndex, index := None, None, None;
    }
  }

  /**
   * The parts of a perfect hash table the modelled routines read and write:
   * its IDs, its vtbl, the size a resize requested, and the Hash/Index
   * fields the mask routines use.
   */
  class Table {
    var algorithmId: nat
    var hashFunctionId: nat
    var maskFunctionId: nat
    var vtbl: TableVtbl?
    var requestedNumberOfTableElements: nat
    var fields: TableFields

    constructor (algorithmId: nat, hashFunctionId: nat, maskFunctionId: nat)
      ensures this.algorithmId == algorithmId && this.hashFunctionId == hashFunctionId
      ensures this.maskFunctionId == maskFunctionId
      ensures vtbl == null && requestedNumberOfTableElements == 0
    {
      this.algorithmId, this.hashFunctionId, this.maskFunctionId := algorithmId, hashFunctionId, maskFunctionId;
      vtbl := null;
      requestedNumberOfTableElements := 0;
      fields := DeriveTableFields(0, 0);
    }
  }

  predicate Matches(t: FastIndexTuple, algorithmId: nat, hashFunctionId: nat, maskFunctionId: nat)
  {
    t.algorithmId == algorithmId && t.hashFunctionId == hashFunctionId && t.maskFunctionId == maskFunctionId
  }

  /** The position of the first tuple matching all three IDs, or |tuples| when none does. */
  function FirstMatch(tuples: seq<FastIndexTuple>, algorithmId: nat, hashFunctionId: nat, maskFunctionId: nat): (i: nat)
    ensures i <= |tuples|
    ensures forall j :: 0 <= j < i ==> !Matches(tuples[j], algorithmId, hashFunctionId, maskFunctionId)
    ensures i < |tuples| ==> Matches(tuples[i], algorithmId, hashFunctionId, maskFunctionId)
  {
    if tuples == [] then 0
    else if Matches(tuples[0], algorithmId, hashFunctionId, maskFunctionId) then 0
    else 1 + FirstMatch(tuples[1..], algorithmId, hashFunctionId, maskFunctionId)
  }

  /** The FastIndex slot the initialisation selects for an ID triple. */
  function SelectFastIndex(algorithmId: nat, hashFunctionId: nat, maskFunctionId: nat): Option<IndexRoutine>
  {
    var i := FirstMatch(FastIndexRoutines, algorithmId, hashFunctionId, maskFunctionId);
    if i < |FastIndexRoutines| then Some(FastIndexRoutines[i].fastIndex) else None
  }

  /**
   * A fast path is selected exactly for CHM01 with AND masking and either
   * the CRC32-rotate or the Jenkins hash; every other triple keeps NULL.
   */
  lemma FastIndexSelection(algorithmId: nat, hashFunctionId: nat, maskFunctionId: nat)
    ensures SelectFastIndex(algorithmId, hashFunctionId, maskFunctionId) ==
      if algorithmId == Chm01AlgorithmId && maskFunctionId == AndMaskId then
        if hashFunctionId == Crc32RotateHashId then Some(FastIndexChm01Crc32RotateHashAndMask)
        else if hashFunctionId == JenkinsHashId then Some(FastIndexChm01JenkinsHashAndMask)
        else None
      else None
  {
    var i := FirstMatch(FastIndexRoutines, algorithmId, hashFunctionId, maskFunctionId);
    if algorithmId == Chm01AlgorithmId && maskFunctionId == AndMaskId && hashFunctionId == Crc32RotateHashId {
      assert Matches(FastIndexRoutines[0], algorithmId, hashFunctionId, maskFunctionId);
    } else if algorithmId == Chm01AlgorithmId && maskFunctionId == AndMaskId && hashFunctionId == JenkinsHashId {
      assert !Matches(FastIndexRoutines[0], algorithmId, hashFunctionId, maskFunctionId);
      assert Matches(FastIndexRoutines[1], algorithmId, hashFunctionId, maskFunctionId);
    } else {
      assert i == |FastIndexRoutines|;
    }
  }

  /**
   * InitializePerfectHashTableVtbl: wire the table to the vtbl, fill the
   * hash, mask and slow-index slots from the ID tables, search the
   * fast-index tuples for the first full match, and let Index be the fast
   * path when one matched and the slow index otherwise.
   */
  method InitializeTableVtbl(table: Table, v: TableVtbl)
    requires table.algorithmId < |IndexRoutines|
    requires table.hashFunctionId < |HashRoutines|
    requires table.maskFunctionId < |MaskHashRoutines|
    modifies table`vtbl, v
    ensures table.vtbl == v
    ensures v.hash == HashRoutines[table.hashFunctionId]
    ensures v.seededHash == SeededHashRoutines[table.hashFunctionId]
    ensures v.maskHash == MaskHashRoutines[table.maskFunctionId]
    ensures v.maskIndex == MaskIndexRoutines[table.maskFunctionId]
    ensures v.slowIndex == IndexRoutines[table.algorithmId]
    ensures v.fastIndex == SelectFastIndex(table.algorithmId, table.hashFunctionId, table.maskFunctionId)
    ensures v.index == if v.fastIndex.Some? then v.fastIndex else v.slowIndex
  {
    var algorithmId, hashFunctionId, maskFunctionId := table.algorithmId, table.hashFunctionId, table.maskFunctionId;
    table.vtbl := v;
    v.hash := HashRoutines[hashFunctionId];
    v.maskHash := MaskHashRoutines[maskFunctionId];
    v.maskIndex := MaskIndexRoutines[maskFunctionId];
    v.seededHash := SeededHashRoutines[hashFunctionId];
    v.slowIndex := IndexRoutines[algorithmId];
    v.fastIndex := None;
    var index := 0;
    while index < |FastIndexRoutines|
      invariant 0 <= index <= |FastIndexRoutines|
      invariant forall j :: 0 <= j < index ==> !Matches(FastIndexRoutines[j], algorithmId, hashFunctionId, maskFunctionId)
      invariant v.fastIndex == None
    {
      var tuple := FastIndexRoutines[index];
      if Matches(tuple, algorithmId, hashFunctionId, maskFunctionId) {
        v.fastIndex := Some(tuple.fastIndex);
        break;
      }
      index := index + 1;
    }
    FirstMatchIsUnique(FastIndexRoutines, algorithmId, hashFunctionId, maskFunctionId, index);
    v.index := if v.fastIndex.Some? then v.fastIndex else v.slowIndex;
  }

  /** Any position with the first-match property is the one FirstMatch finds. */
  lemma FirstMatchIsUnique(tuples: seq<FastIndexTuple>, algorithmId: nat, hashFunctionId: nat, maskFunctionId: nat, i: nat)
    requires i <= |tuples|
    requires forall j :: 0 <= j < i ==> !Matches(tuples[j], algorithmId, hashFunctionId, maskFunctionId)
    requires i < |tuples| ==> Matches(tuples[i], algorithmId, hashFunctionId, maskFunctionId)
    ensures FirstMatch(tuples, algorithmId, hashFunctionId, maskFunctionId) == i
  {
  }
}
