/**
 * The CHM creation routine's sequential bookkeeping: applying the default
 * resize settings, sizing an attempt and writing the table fields and the
 * on-disk header, the resize step after a "try larger table size" signal,
 * the retry loop that ties them together, and the loader that restores the
 * table fields from the header.
 */
module Chm01Create {
  import opened Common
  import opened Bits
  import opened Constants
  import opened Chm01Sizing
  import opened Chm01Solve
  import opened Vtbl
  import opened PerfectHashContext

  const TableInfoOnDiskMagicLowPart: uint32 := 0x25101981
  const TableInfoOnDiskMagicHighPart: uint32 := 0x17071953

  /** The on-disk header of a table's info stream. */
  class TableInfoOnDisk {
    var magicLowPart: uint32
    var magicHighPart: uint32
    var keySizeInBytes: nat
    var concurrency: nat
    var algorithmId: nat
    var maskFunctionId: nat
    var hashFunctionId: nat
    var fields: TableFields
    var numberOfKeys: nat
    var numberOfTableElements: nat
    var numberOfTableResizeEvents: nat
    var totalNumberOfAttemptsWithSmallerTableSizes: nat
    var closestWeCameToSolvingGraphWithSmallerTableSizes: uint32
    var initialTableSize: nat

    constructor ()
      ensures numberOfTableResizeEvents == 0 && totalNumberOfAttemptsWithSmallerTableSizes == 0
      ensures closestWeCameToSolvingGraphWithSmallerTableSizes == 0 && initialTableSize == 0
    {
      magicLowPart, magicHighPart, keySizeInBytes, concurrency := 0, 0, 0, 0;
      algorithmId, maskFunctionId, hashFunctionId := 0, 0, 0;
      fields := DeriveTableFields(0, 0);
      numberOfKeys, numberOfTableElements := 0, 0;
      numberOfTableResizeEvents, totalNumberOfAttemptsWithSmallerTableSizes := 0, 0;
      closestWeCameToSolvingGraphWithSmallerTableSizes, initialTableSize := 0, 0;
    }
  }

  /**
   * When no resize threshold is configured, install the defaults for both
   * the threshold and the resize limit; otherwise leave both alone.
   */
  method ApplyDefaultResizeSettings(context: Context, defaultThreshold: nat, defaultLimit: nat)
    modifies context`resizeTableThreshold, context`resizeLimit
    ensures old(context.resizeTableThreshold) == 0 ==>
      context.resizeTableThreshold == defaultThreshold && context.resizeLimit == defaultLimit
    ensures old(context.resizeTableThreshold) != 0 ==>
      context.resizeTableThreshold == old(context.resizeTableThreshold) &&
      context.resizeLimit == old(context.resizeLimit)
  {
    if context.resizeTableThreshold == 0 {
      context.resizeTableThreshold := defaultThreshold;
      context.resizeLimit := defaultLimit;
    }
  }

  /**
   * One sizing pass of the creation routine: the dimensions for this
   * attempt, the ten Hash/Index fields of the table (from the low 32 bits
   * of the counts), and the on-disk header written from them.  The resize
   * counters of the header are left as they are.
   */
  method PrepareAttempt(table: Table, header: TableInfoOnDisk, context: Context, numberOfKeys: uint32)
    returns (d: Dimensions)
    modifies table`fields, header`magicLowPart, header`magicHighPart, header`keySizeInBytes,
      header`concurrency, header`algorithmId, header`maskFunctionId, header`hashFunctionId,
      header`fields, header`numberOfKeys, header`numberOfTableElements
    ensures d == ComputeDimensions(numberOfKeys, table.requestedNumberOfTableElements,
                                   IsModulusMasking(context.maskFunctionId))
    ensures table.fields == DeriveTableFields(Wrap32(d.vertices), Wrap32(d.edges))
    ensures header.fields == table.fields
    ensures header.magicLowPart == TableInfoOnDiskMagicLowPart
    ensures header.magicHighPart == TableInfoOnDiskMagicHighPart
    ensures header.keySizeInBytes == 4
    ensures header.concurrency == context.maximumConcurrency
    ensures header.algorithmId == context.algorithmId
    ensures header.maskFunctionId == context.maskFunctionId
    ensures header.hashFunctionId == context.hashFunctionId
    ensures header.numberOfKeys == numberOfKeys
    ensures header.numberOfTableElements == d.vertices
  {
    d := ComputeDimensions(numberOfKeys, table.requestedNumberOfTableElements,
                           IsModulusMasking(context.maskFunctionId));
    var fields := DeriveTableFields(Wrap32(d.vertices), Wrap32(d.edges));
    table.fields := fields;
    WriteHeader(header, context, fields, numberOfKeys, d.vertices);
  }

  /** The header written for a sizing pass: the magic, the context's identifiers and the table fields. */
  method WriteHeader(header: TableInfoOnDisk, context: Context, fields: TableFields, numberOfKeys: uint32,
                     vertices: nat)
    modifies header`magicLowPart, header`magicHighPart, header`keySizeInBytes,
      header`concurrency, header`algorithmId, header`maskFunctionId, header`hashFunctionId,
      header`fields, header`numberOfKeys, header`numberOfTableElements
    ensures header.fields == fields
    ensures header.magicLowPart == TableInfoOnDiskMagicLowPart
    ensures header.magicHighPart == TableInfoOnDiskMagicHighPart
    ensures header.keySizeInBytes == 4
    ensures header.concurrency == context.maximumConcurrency
    ensures header.algorithmId == context.algorithmId
    ensures header.maskFunctionId == context.maskFunctionId
    ensures header.hashFunctionId == context.hashFunctionId
    ensures header.numberOfKeys == numberOfKeys
    ensures header.numberOfTableElements == vertices
  {
    header.magicLowPart := TableInfoOnDiskMagicLowPart;
    header.magicHighPart := TableInfoOnDiskMagicHighPart;
    header.concurrency := context.maximumConcurrency;
    header.algorithmId := context.algorithmId;
    header.maskFunctionId := context.maskFunctionId;
    header.hashFunctionId := context.hashFunctionId;
    header.keySizeInBytes := 4;
    header.fields := fields;
    header.numberOfKeys := numberOfKeys;
    header.numberOfTableElements := vertices;
  }

  /**
   * How close an attempt came: the edges minus the most edges any graph
   * managed to delete, as a ULONG subtraction.
   */
  function Closest(d: Dimensions, highestDeletedEdgesCount: nat): uint32
  {
    Wrap32(Wrap32(d.edges) - highestDeletedEdgesCount)
  }

  /**
   * The resize step: count the resize and the attempts spent, keep the
   * smallest non-zero "closest" value, remember the first table size, reset
   * the attempt counters and request twice the vertices.  The retry happens
   * only when the doubled size fits in 32 bits; no other limit is checked.
   */
  method ApplyResize(table: Table, header: TableInfoOnDisk, context: Context, d: Dimensions)
    returns (retry: bool)
    modifies table`requestedNumberOfTableElements
    modifies header`numberOfTableResizeEvents, header`totalNumberOfAttemptsWithSmallerTableSizes,
      header`closestWeCameToSolvingGraphWithSmallerTableSizes, header`initialTableSize
    modifies context`attempts, context`failedAttempts, context`highestDeletedEdgesCount
    ensures header.numberOfTableResizeEvents == old(header.numberOfTableResizeEvents) + 1
    ensures header.totalNumberOfAttemptsWithSmallerTableSizes ==
      old(header.totalNumberOfAttemptsWithSmallerTableSizes) + old(context.attempts)
    ensures var closest := Closest(d, old(context.highestDeletedEdgesCount));
      var last := old(header.closestWeCameToSolvingGraphWithSmallerTableSizes);
      header.closestWeCameToSolvingGraphWithSmallerTableSizes ==
        if last == 0 || closest < last then closest else last
    ensures header.initialTableSize ==
      if old(header.initialTableSize) == 0 then d.vertices else old(header.initialTableSize)
    ensures context.attempts == 0 && context.failedAttempts == 0 && context.highestDeletedEdgesCount == 0
    ensures table.requestedNumberOfTableElements == 2 * d.vertices
    ensures retry <==> 2 * d.vertices < TwoTo32
  {
    header.numberOfTableResizeEvents := header.numberOfTableResizeEvents + 1;
    header.totalNumberOfAttemptsWithSmallerTableSizes :=
      header.totalNumberOfAttemptsWithSmallerTableSizes + context.attempts;
    var closest := Closest(d, context.highestDeletedEdgesCount);
    var lastClosest := header.closestWeCameToSolvingGraphWithSmallerTableSizes;
    if lastClosest == 0 || closest < lastClosest {
      header.closestWeCameToSolvingGraphWithSmallerTableSizes := closest;
    }
    if header.initialTableSize == 0 {
      header.initialTableSize := d.vertices;
    }
    context.attempts := 0;
    context.failedAttempts := 0;
    context.highestDeletedEdgesCount := 0;
    table.requestedNumberOfTableElements := d.vertices * 2;
    retry := table.requestedNumberOfTableElements < TwoTo32;
  }

  /**
   * What the solving threads left behind for one attempt, as the main
   * thread sees it once its wait returns.
   */
  datatype Round = Round(
    attempts: nat,
    failedAttempts: nat,
    highestDeletedEdgesCount: nat,
    finishedCount: nat,
    signalled: set<ContextEvent>)

  predicate WaitReturned(r: Round)
  {
    exists e :: e in MainWaitOrder && e in r.signalled
  }

  datatype CreateOutcome =
    | Solved(d: Dimensions)      // proceed to verify and save the solved graph
    | NotSolved                  // solving ended without a solution
    | CreateFailed               // no solution and the shutdown event was not set
    | SizeOverflow               // the doubled table size does not fit in 32 bits
    | StillSolving               // the modelled rounds ran out after a resize

  /** Each vertex count is at least twice the one before it. */
  predicate AtLeastDoubling(vertices: seq<nat>)
  {
    forall i, j :: 0 <= i < |vertices| && j == i + 1 && j < |vertices| ==> vertices[j] >= 2 * vertices[i]
  }

  lemma AppendKeepsDoubling(vertices: seq<nat>, next: nat)
    requires AtLeastDoubling(vertices)
    requires vertices != [] ==> next >= 2 * vertices[|vertices| - 1]
    ensures AtLeastDoubling(vertices + [next])
  {
  }

  /** The total attempts of the first n rounds. */
  function AttemptsOf(rounds: seq<Round>, n: nat): nat
    requires n <= |rounds|
  {
    if n == 0 then 0 else AttemptsOf(rounds, n - 1) + rounds[n - 1].attempts
  }

  /**
   * One round of the creation routine: install the default resize settings
   * if none are configured, size the attempt, take over what the solving
   * threads left in the context, decide on the main wait's result and, for
   * a resize, perform the resize step.
   */
  method AttemptRound(table: Table, header: TableInfoOnDisk, context: Context,
                      numberOfKeys: uint32, round: Round, defaultThreshold: nat, defaultLimit: nat)
    returns (d: Dimensions, action: PostWaitAction, retry: bool)
    requires WaitReturned(round)
    modifies table`fields, table`requestedNumberOfTableElements, header, context
    ensures context.maskFunctionId == old(context.maskFunctionId)
    ensures old(context.resizeTableThreshold) == 0 ==>
      context.resizeTableThreshold == defaultThreshold && context.resizeLimit == defaultLimit
    ensures old(context.resizeTableThreshold) != 0 ==>
      context.resizeTableThreshold == old(context.resizeTableThreshold) &&
      context.resizeLimit == old(context.resizeLimit)
    ensures d == ComputeDimensions(numberOfKeys, old(table.requestedNumberOfTableElements),
                                   IsModulusMasking(context.maskFunctionId))
    ensures old(table.requestedNumberOfTableElements) < TwoTo32 ==>
      d.vertices >= old(table.requestedNumberOfTableElements)
    ensures action == PostWaitDecision(round.signalled, round.finishedCount)
    ensures retry <==> action == ResizeTable && 2 * d.vertices < TwoTo32
    ensures action == ResizeTable ==>
      header.numberOfTableResizeEvents == old(header.numberOfTableResizeEvents) + 1 &&
      header.totalNumberOfAttemptsWithSmallerTableSizes ==
        old(header.totalNumberOfAttemptsWithSmallerTableSizes) + round.attempts &&
      table.requestedNumberOfTableElements == 2 * d.vertices
    ensures action != ResizeTable ==>
      header.numberOfTableResizeEvents == old(header.numberOfTableResizeEvents) &&
      header.totalNumberOfAttemptsWithSmallerTableSizes ==
        old(header.totalNumberOfAttemptsWithSmallerTableSizes)
  {
    ApplyDefaultResizeSettings(context, defaultThreshold, defaultLimit);
    d := PrepareAttempt(table, header, context, numberOfKeys);
    context.RecordRound(round.attempts, round.failedAttempts, round.highestDeletedEdgesCount, round.finishedCount);
    action := PostWaitDecision(round.signalled, round.finishedCount);
    retry := false;
    if action == ResizeTable {
      retry := ApplyResize(table, header, context, d);
    }
  }

  /**
   * One pass of the retry loop: AttemptRound, with what the loop keeps about
   * the vertex counts of the earlier rounds.  The first round sizes the
   * table as requested; a later one starts from the doubled count of the
   * round before it.
   */
  method RetryRound(table: Table, header: TableInfoOnDisk, context: Context,
                    numberOfKeys: uint32, round: Round, defaultThreshold: nat, defaultLimit: nat,
                    ghost vertices: seq<nat>, ghost firstVertices: nat)
    returns (d: Dimensions, action: PostWaitAction, retry: bool)
    requires WaitReturned(round)
    requires AtLeastDoubling(vertices)
    requires vertices == [] ==> (firstVertices ==
      ComputeDimensions(numberOfKeys, table.requestedNumberOfTableElements,
                        IsModulusMasking(context.maskFunctionId)).vertices)
    requires vertices != [] ==>
      table.requestedNumberOfTableElements == 2 * vertices[|vertices| - 1] < TwoTo32
    modifies table`fields, table`requestedNumberOfTableElements, header, context
    ensures context.maskFunctionId == old(context.maskFunctionId)
    ensures AtLeastDoubling(vertices + [d.vertices])
    ensures vertices == [] ==> d.vertices == firstVertices
    ensures action == PostWaitDecision(round.signalled, round.finishedCount)
    ensures retry <==> action == ResizeTable && 2 * d.vertices < TwoTo32
    ensures action == ResizeTable ==>
      header.numberOfTableResizeEvents == old(header.numberOfTableResizeEvents) + 1 &&
      header.totalNumberOfAttemptsWithSmallerTableSizes ==
        old(header.totalNumberOfAttemptsWithSmallerTableSizes) + round.attempts &&
      table.requestedNumberOfTableElements == 2 * d.vertices
    ensures action != ResizeTable ==>
      header.numberOfTableResizeEvents == old(header.numberOfTableResizeEvents) &&
      header.totalNumberOfAttemptsWithSmallerTableSizes ==
        old(header.totalNumberOfAttemptsWithSmallerTableSizes)
  {
    d, action, retry := AttemptRound(table, header, context, numberOfKeys, round, defaultThreshold, defaultLimit);
    AppendKeepsDoubling(vertices, d.vertices);
  }

  /**
   * The creation routine's retry loop (the goto back to the sizing code):
   * each round sizes the table, lets the solving threads run, and acts on
   * the main wait.  `vertices` lists the vertex count of every attempt and
   * `resizes` counts the rounds that ended in a retry.  Every retry at
   * least doubles the vertex count and needed the doubled count to fit in
   * 32 bits; the header counts every resize and every attempt spent on a
   * table that was then resized.
   */
  method CreateTableImpl(table: Table, header: TableInfoOnDisk, context: Context,
                         numberOfKeys: uint32, rounds: seq<Round>, defaultThreshold: nat, defaultLimit: nat)
    returns (outcome: CreateOutcome, vertices: seq<nat>, resizes: nat)
    requires forall r :: r in rounds ==> WaitReturned(r)
    modifies table`fields, table`requestedNumberOfTableElements, header, context
    ensures resizes <= |vertices| <= |rounds|
    ensures |vertices| == resizes || |vertices| == resizes + 1
    ensures var counted := if outcome.SizeOverflow? then resizes + 1 else resizes;
      counted <= |rounds| &&
      header.numberOfTableResizeEvents == old(header.numberOfTableResizeEvents) + counted &&
      header.totalNumberOfAttemptsWithSmallerTableSizes ==
        old(header.totalNumberOfAttemptsWithSmallerTableSizes) + AttemptsOf(rounds, counted)
    ensures outcome.SizeOverflow? ==> |vertices| == resizes + 1 && 2 * vertices[resizes] >= TwoTo32
    ensures forall j :: 0 <= j < resizes ==> 2 * vertices[j] < TwoTo32
    ensures AtLeastDoubling(vertices)
    ensures outcome.Solved? ==> |vertices| == resizes + 1 && outcome.d.vertices == vertices[resizes]
    ensures outcome.StillSolving? ==> resizes == |vertices| == |rounds|
    ensures |vertices| > 0 ==>
      vertices[0] == ComputeDimensions(numberOfKeys, old(table.requestedNumberOfTableElements),
                                       IsModulusMasking(context.maskFunctionId)).vertices
  {
    vertices, resizes := [], 0;
    ghost var modulus := IsModulusMasking(context.maskFunctionId);
    ghost var initial := table.requestedNumberOfTableElements;
    ghost var firstVertices := ComputeDimensions(numberOfKeys, initial, modulus).vertices;
    while resizes < |rounds|
      invariant |vertices| == resizes <= |rounds|
      invariant context.maskFunctionId == old(context.maskFunctionId)
      invariant header.numberOfTableResizeEvents == old(header.numberOfTableResizeEvents) + resizes
      invariant header.totalNumberOfAttemptsWithSmallerTableSizes ==
        old(header.totalNumberOfAttemptsWithSmallerTableSizes) + AttemptsOf(rounds, resizes)
      invariant forall j :: 0 <= j < resizes ==> 2 * vertices[j] < TwoTo32
      invariant AtLeastDoubling(vertices)
      invariant table.requestedNumberOfTableElements ==
        if resizes == 0 then initial else 2 * vertices[resizes - 1]
      invariant resizes > 0 ==> vertices[0] == firstVertices
    {
      var d, action, retry := RetryRound(table, header, context, numberOfKeys, rounds[resizes],
                                            defaultThreshold, defaultLimit, vertices, firstVertices);
      assert AttemptsOf(rounds, resizes + 1) == AttemptsOf(rounds, resizes) + rounds[resizes].attempts;
      vertices := vertices + [d.vertices];
      if retry {
        resizes := resizes + 1;
      } else {
        if action.ResizeTable? {
          outcome := SizeOverflow;
        } else if action.FinishedSolution? {
          outcome := Solved(d);
        } else if action.EndWithoutSolution? {
          outcome := NotSolved;
        } else {
          outcome := CreateFailed;
        }
        return;
      }
    }
    outcome := StillSolving;
  }

  /**
   * However the rounds go, a table whose first attempt has at least one
   * vertex is resized at most 31 times: each retry doubles a count that
   * must still fit in 32 bits afterwards.  No configured limit is needed.
   */
  lemma {:induction false} ResizesAreBounded(vertices: seq<nat>, resizes: nat)
    requires resizes <= |vertices| && |vertices| > 0 && vertices[0] >= 1
    requires forall j :: 0 <= j < resizes ==> 2 * vertices[j] < TwoTo32
    requires AtLeastDoubling(vertices)
    ensures resizes <= 31
  {
    if resizes > 0 {
      VerticesAtLeastPow2(vertices, resizes - 1);
      Pow2Value30();
      Pow2Add(30, 2);
      assert Pow2(resizes) == 2 * Pow2(resizes - 1) < Pow2(32);
      if resizes > 32 {
        Pow2Monotonic(32, resizes);
      }
    }
  }

  lemma {:induction false} VerticesAtLeastPow2(vertices: seq<nat>, k: nat)
    requires k < |vertices| && vertices[0] >= 1
    requires AtLeastDoubling(vertices)
    ensures vertices[k] >= Pow2(k)
  {
    if k > 0 {
      VerticesAtLeastPow2(vertices, k - 1);
    }
  }

  /**
   * LoadPerfectHashTableImplChm01: copy the ten Hash/Index fields from the
   * on-disk header back into the table; loading always succeeds.
   */
  method LoadTableImpl(table: Table, header: TableInfoOnDisk) returns (ok: bool)
    modifies table`fields
    ensures table.fields == header.fields
    ensures ok
  {
    table.fields := header.fields;
    ok := true;
  }

  /**
   * A table loaded from the header written by a sizing pass gets back
   * exactly the fields the sizing pass derived.
   */
  method CreateThenLoad(table: Table, loaded: Table, header: TableInfoOnDisk, context: Context, numberOfKeys: uint32)
    requires table != loaded
    modifies table`fields, loaded`fields, header
    ensures loaded.fields == table.fields
    ensures table.fields == DeriveTableFields(
      Wrap32(ComputeDimensions(numberOfKeys, table.requestedNumberOfTableElements,
                               IsModulusMasking(context.maskFunctionId)).vertices),
      Wrap32(ComputeDimensions(numberOfKeys, table.requestedNumberOfTableElements,
                               IsModulusMasking(context.maskFunctionId)).edges))
  {
    var d := PrepareAttempt(table, header, context, numberOfKeys);
    var ok := LoadTableImpl(loaded, header);
  }
}
