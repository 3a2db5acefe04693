/**
 * The ID-indexed constant tables of the perfect hash table library: the
 * algorithm, hash-function and mask-function enumerations, the routine
 * tables indexed by them, the fast-index tuples, the name tables and the
 * context's event-name prefixes.  A NULL table slot is `None`.
 */
module Constants {
  import opened Common

  // PERFECT_HASH_TABLE_ALGORITHM_ID: Null, Chm01, then the invalid sentinel.
  const NullAlgorithmId: nat := 0
  const Chm01AlgorithmId: nat := 1
  const InvalidAlgorithmId: nat := 2

  // PERFECT_HASH_TABLE_HASH_FUNCTION_ID.
  const NullHashFunctionId: nat := 0
  const Crc32RotateHashId: nat := 1
  const JenkinsHashId: nat := 2
  const RotateXorHashId: nat := 3
  const AddSubXorHashId: nat := 4
  const XorHashId: nat := 5
  const InvalidHashFunctionId: nat := 6

  // PERFECT_HASH_TABLE_MASK_FUNCTION_ID.  FoldAuto is a pseudo ID.
  const NullMaskFunctionId: nat := 0
  const ModulusMaskId: nat := 1
  const AndMaskId: nat := 2
  const XorAndMaskId: nat := 3
  const FoldAutoMaskId: nat := 4
  const FoldOnceMaskId: nat := 5
  const FoldTwiceMaskId: nat := 6
  const FoldThriceMaskId: nat := 7
  const InvalidMaskFunctionId: nat := 8

  /** An ID is valid when it lies strictly between the Null and Invalid sentinels. */
  predicate IsValidAlgorithmId(id: nat) { NullAlgorithmId < id < InvalidAlgorithmId }
  predicate IsValidHashFunctionId(id: nat) { NullHashFunctionId < id < InvalidHashFunctionId }
  predicate IsValidMaskFunctionId(id: nat) { NullMaskFunctionId < id < InvalidMaskFunctionId }

  /** Modulus masking is the one mask type that does not need power-of-two sizes. */
  predicate IsModulusMasking(maskFunctionId: nat) { maskFunctionId == ModulusMaskId }

  datatype CreationRoutine = CreateChm01
  datatype LoaderRoutine = LoadChm01
  datatype HashRoutine = HashCrc32Rotate | HashJenkins | HashRotateXor | HashAddSubXor | HashXor
  datatype SeededHashRoutine =
    SeededHashCrc32Rotate | SeededHashJenkins | SeededHashRotateXor | SeededHashAddSubXor | SeededHashXor
  datatype MaskRoutine = MaskModulus | MaskAnd | MaskXorAnd | MaskFoldOnce | MaskFoldTwice | MaskFoldThrice
  /** The Index vtbl slot holds either the generic routine or a fast path. */
  datatype IndexRoutine =
    | IndexImplChm01
    | FastIndexChm01Crc32RotateHashAndMask
    | FastIndexChm01JenkinsHashAndMask

  const CreationRoutines: seq<Option<CreationRoutine>> := [None, Some(CreateChm01), None]
  const LoaderRoutines: seq<Option<LoaderRoutine>> := [None, Some(LoadChm01), None]
  const IndexRoutines: seq<Option<IndexRoutine>> := [None, Some(IndexImplChm01), None]

  const HashRoutines: seq<Option<HashRoutine>> :=
    [None, Some(HashCrc32Rotate), Some(HashJenkins), Some(HashRotateXor),
     Some(HashAddSubXor), Some(HashXor), None]

  const SeededHashRoutines: seq<Option<SeededHashRoutine>> :=
    [None, Some(SeededHashCrc32Rotate), Some(SeededHashJenkins), Some(SeededHashRotateXor),
     Some(SeededHashAddSubXor), Some(SeededHashXor), None]

  /** The FoldAuto slot is NULL: the algorithm must swap in a fold routine first. */
  const MaskHashRoutines: seq<Option<MaskRoutine>> :=
    [None, Some(MaskModulus), Some(MaskAnd), Some(MaskXorAnd), None,
     Some(MaskFoldOnce), Some(MaskFoldTwice), Some(MaskFoldThrice), None]

  const MaskIndexRoutines: seq<Option<MaskRoutine>> :=
    [None, Some(MaskModulus), Some(MaskAnd), Some(MaskXorAnd), None,
     Some(MaskFoldOnce), Some(MaskFoldTwice), Some(MaskFoldThrice), None]

  datatype FastIndexTuple = FastIndexTuple(
    algorithmId: nat, hashFunctionId: nat, maskFunctionId: nat, fastIndex: IndexRoutine)

  const FastIndexRoutines: seq<FastIndexTuple> := [
    FastIndexTuple(Chm01AlgorithmId, Crc32RotateHashId, AndMaskId, FastIndexChm01Crc32RotateHashAndMask),
    FastIndexTuple(Chm01AlgorithmId, JenkinsHashId, AndMaskId, FastIndexChm01JenkinsHashAndMask)
  ]

  const AlgorithmNames: seq<Option<string>> := [None, Some("Chm01"), None]

  const HashFunctionNames: seq<Option<string>> :=
    [None, Some("Crc32Rotate"), Some("Jenkins"), Some("RotateXor"), Some("AddSubXor"), Some("Xor"), None]

  const MaskFunctionNames: seq<Option<string>> :=
    [None, Some("Modulus"), Some("And"), Some("XorAnd"), Some("FoldAuto"),
     Some("FoldOnce"), Some("FoldTwice"), Some("FoldThrice"), None]

  /** The context's events, in the order of its event-handle fields. */
  datatype ContextEvent =
    Shutdown | Succeeded | Failed | Completed | TryLargerTableSize | PreparedFile | Verified | SavedFile

  const ContextEvents: seq<ContextEvent> :=
    [Shutdown, Succeeded, Failed, Completed, TryLargerTableSize, PreparedFile, Verified, SavedFile]

  const ContextObjectPrefixes: seq<string> := [
    "PerfectHashTableContext_ShutdownEvent_",
    "PerfectHashTableContext_SucceededEvent_",
    "PerfectHashTableContext_FailedEvent_",
    "PerfectHashTableContext_CompletedEvent_",
    "PerfectHashTableContext_TryLargerTableSizeEvent_",
    "PerfectHashTableContext_PreparedFileEvent_",
    "PerfectHashTableContext_VerifiedEvent_",
    "PerfectHashTableContext_SavedFileEvent_"
  ]

  /** Only events exist, so both prefix counts are the length of one array. */
  const NumberOfContextEventPrefixes: nat := |ContextObjectPrefixes|
  const NumberOfContextObjectPrefixes: nat := |ContextObjectPrefixes|

  const KeysWildcardSuffix: string := "*.keys"

  /** The name a valid hash-function ID denotes, as its routine table spells it. */
  function HashRoutineName(h: HashRoutine): string
  {
    match h
    case HashCrc32Rotate => "Crc32Rotate"
    case HashJenkins => "Jenkins"
    case HashRotateXor => "RotateXor"
    case HashAddSubXor => "AddSubXor"
    case HashXor => "Xor"
  }

  function MaskRoutineName(m: MaskRoutine): string
  {
    match m
    case MaskModulus => "Modulus"
    case MaskAnd => "And"
    case MaskXorAnd => "XorAnd"
    case MaskFoldOnce => "FoldOnce"
    case MaskFoldTwice => "FoldTwice"
    case MaskFoldThrice => "FoldThrice"
  }

  /**
   * Every ID-indexed routine table has one slot per ID up to and including
   * the invalid sentinel, and both the Null slot and the sentinel slot are
   * NULL; the slots in between are exactly the valid IDs (except FoldAuto).
   */
  lemma RoutineTablesShape()
    ensures |CreationRoutines| == |LoaderRoutines| == |IndexRoutines| == InvalidAlgorithmId + 1
    ensures |HashRoutines| == |SeededHashRoutines| == InvalidHashFunctionId + 1
    ensures |MaskHashRoutines| == |MaskIndexRoutines| == InvalidMaskFunctionId + 1
    ensures forall id :: 0 <= id <= InvalidAlgorithmId ==>
      (CreationRoutines[id].Some? <==> IsValidAlgorithmId(id)) &&
      (LoaderRoutines[id].Some? <==> IsValidAlgorithmId(id)) &&
      (IndexRoutines[id].Some? <==> IsValidAlgorithmId(id))
    ensures forall id :: 0 <= id <= InvalidHashFunctionId ==>
      (HashRoutines[id].Some? <==> IsValidHashFunctionId(id)) &&
      (SeededHashRoutines[id].Some? <==> IsValidHashFunctionId(id))
    ensures forall id :: 0 <= id <= InvalidMaskFunctionId ==>
      (MaskHashRoutines[id].Some? <==> IsValidMaskFunctionId(id) && id != FoldAutoMaskId) &&
      (MaskIndexRoutines[id].Some? <==> IsValidMaskFunctionId(id) && id != FoldAutoMaskId)
  {
  }

  /**
   * The name tables line up with the routine tables: a slot has a name
   * exactly when its ID is valid, and that name is the routine's name;
   * FoldAuto has a name but no routine.
   */
  lemma NameTablesLineUp()
    ensures |AlgorithmNames| == |IndexRoutines|
    ensures |HashFunctionNames| == |HashRoutines|
    ensures |MaskFunctionNames| == |MaskHashRoutines|
    ensures forall id :: 0 <= id < |HashRoutines| ==>
      (HashFunctionNames[id].Some? <==> HashRoutines[id].Some?) &&
      (HashRoutines[id].Some? ==> HashFunctionNames[id].value == HashRoutineName(HashRoutines[id].value))
    ensures forall id :: 0 <= id < |MaskHashRoutines| ==>
      (MaskFunctionNames[id].Some? <==> IsValidMaskFunctionId(id)) &&
      (MaskHashRoutines[id].Some? ==> MaskFunctionNames[id].value == MaskRoutineName(MaskHashRoutines[id].value))
    ensures MaskFunctionNames[FoldAutoMaskId] == Some("FoldAuto")
    ensures AlgorithmNames[Chm01AlgorithmId] == Some("Chm01")
  {
  }

  /**
   * There are exactly two fast-index tuples, both for CHM01 with AND
   * masking, and no two tuples share an ID triple.
   */
  lemma FastIndexTuplesShape()
    ensures |FastIndexRoutines| == 2
    ensures forall t :: t in FastIndexRoutines ==>
      t.algorithmId == Chm01AlgorithmId && t.maskFunctionId == AndMaskId
    ensures FastIndexRoutines[0].hashFunctionId == Crc32RotateHashId
    ensures FastIndexRoutines[1].hashFunctionId == JenkinsHashId
  {
  }

  /**
   * Eight events, named in the context's event order, with the event- and
   * object-prefix counts equal.
   */
  lemma EventPrefixesShape()
    ensures NumberOfContextEventPrefixes == NumberOfContextObjectPrefixes == |ContextEvents| == 8
    ensures ContextEvents[4] == TryLargerTableSize && ContextObjectPrefixes[4] == "PerfectHashTableContext_TryLargerTableSizeEvent_"
  {
  }

  /** sizeof(HANDLE) on the 64-bit targets the library builds for. */
  const HandleSize: nat := 8

  /**
   * GetNumberOfContextEvents: the handles from FirstEvent to LastEvent are
   * contiguous pointer-sized fields, so the count is the byte distance
   * between them divided by the handle size, plus one.
   */
  function NumberOfContextEvents(firstEventOffset: nat, lastEventOffset: nat): (n: nat)
    requires firstEventOffset <= lastEventOffset
    requires (lastEventOffset - firstEventOffset) % HandleSize == 0
    ensures n >= 1
    ensures firstEventOffset + (n - 1) * HandleSize == lastEventOffset
  {
    (HandleSize + (lastEventOffset - firstEventOffset)) / HandleSize
  }

  /**
   * The context lays out one handle per event prefix, so the count derived
   * from the field offsets agrees with the prefix table (the function's
   * sanity assertion).
   */
  lemma ContextEventCountMatchesPrefixes(firstEventOffset: nat)
    ensures NumberOfContextEvents(firstEventOffset,
              firstEventOffset + (|ContextEvents| - 1) * HandleSize) ==
            NumberOfContextEventPrefixes
  {
  }
}
