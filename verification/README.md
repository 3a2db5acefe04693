# CHM perfect hash tables: sizing, indexing and argument handling

This project models the sequential core of the CHM (Czech, Havas, Majewski)
perfect hash table generator in Dafny and proves properties of the model. The
graph solving itself is not part of it. The modelled parts are:

- **Table sizing, derivation and resize bookkeeping** (`chm01_sizing.dfy`,
  `chm01_create.dfy`):
  - the number of edges and vertices for modulus and power-of-two masking,
    with or without a requested table size;
  - the four bitmap buffer sizes;
  - the Hash/Index Size, Shift, Mask, Fold and Modulus fields, and the
    on-disk header the creation routine writes and the load routine reads back;
  - the resize step and the retry loop that drives it, as methods on
    `Table`, `TableInfoOnDisk` and `Context` objects.
- **The orchestrator's decisions** (`chm01_solve.dfy`): whether a solving
  thread keeps trying, the solving loop, and the branch the main thread takes
  once its wait returns. Events are a set of signalled names and counters are
  naturals.
- **Index routines**:
  - `chm01_index.dfy` holds the generic vtbl Index routine (with Hash,
    MaskHash and MaskIndex as function parameters) and the three fast paths:
    CRC32-Rotate with AND masks, and Jenkins with AND or modulus masks. Each
    fast path is proved equal to the generic routine instantiated with its
    own hash and masks.
  - `compiled_index.dfy` holds the two Index routines emitted into compiled
    tables.
  - `compiled_table.dfy` holds the compiled table's Index, Lookup, Insert and
    Delete, as a class over its data and values arrays.
- **Routine selection and constant tables** (`constants.dfy`, `vtbl.dfy`):
  - the ID-indexed routine and name tables, the fast-index tuples and the
    context event prefixes;
  - `InitializePerfectHashTableVtbl`'s first-match selection;
  - the context event count.
- **Context state bits and timers** (`context.dfy`): the solve-mode toggles,
  the stop-solving and bulk-create bits, and the start and end timer
  arithmetic.
- **Argument parsing**:
  - `extract_arg.dfy` holds the `TryExtractArg*Flags` matchers,
    `TryExtractValueArray` (a two-state scanner writing into an array),
    `TryExtractArgTableCreateParameters` (updating the caller's parameter
    array in place) and `DestroyTableCreateParameters`.
  - `bulk_create.dfy` holds the bulk-create argument-vector extractor, and the
    wildcard and keys-file paths the bulk-create routine composes.

Three behaviours of the code are modelled as written:

- A value list whose last field is a single character is rejected with
  PH_E_INVARIANT_CHECK_FAILED (`ExtractArg.ShortLastValueIsRejected`).
- A parameter only replaces an existing one when it has the same Id as the
  *first* entry; a repeat of any later Id is appended again
  (`ExtractArg.RepeatedParameterIsAppended`).
- The resize limit is stored but never consulted: the only bound on resizing
  is the 32-bit overflow of the requested size (`Chm01Create.ResizesAreBounded`).

Opaque routines are parameters of the model:

- the CRC32C instruction, which computes the CRC-32C (Castagnoli) of section
  12.1 of RFC 3720;
- the vtbl Hash, MaskHash and MaskIndex bodies;
- `RtlUnicodeStringToInteger`;
- case-insensitive string equality and prefix tests;
- allocation success;
- counter and cycle readings.

## Model

| member | source | states |
|---|---|---|
| Bits.RoundUpPowerOf2 | src/PerfectHash/Chm_01.c:209-215 | the result is the least power of two that is at least the input: a power of two, at least x, and its half is below x |
| Bits.RoundUpNextPowerOf2 | src/PerfectHash/Chm_01.c:261-263 | the result is the least power of two strictly above the input: a power of two, above x, and its half is at most x |
| Bits.RoundUpPowerOf2OfPowerOf2 | src/PerfectHash/Chm_01.c:248 | rounding up a power of two leaves it unchanged |
| Bits.RoundUpNextPowerOf2OfPowerOf2 | src/PerfectHash/Chm_01.c:261-263 | the next power of two above a power of two is its double |
| Bits.TrailingZerosOfPow2 | src/PerfectHash/Chm_01.c:611-625 | the trailing-zero count of 2^k is k, so the stored exponents are the exponents of the sizes |
| Bits.ExponentOfPowerOf2 | src/PerfectHash/Chm_01.c:611-613 | for a power of two, 2 raised to the trailing zeros of its round-up is the number itself |
| Bits.PopulationCountOfMask | src/PerfectHash/Chm_01.c:642-646 | the mask 2^k - 1 has exactly k bits set |
| Bits.AlignUp | src/PerfectHash/Chm_01.c:302-304 | ALIGN_UP to 8 or 16 yields the least multiple of the alignment not below the input |
| Chm01Sizing.ComputeDimensions | src/PerfectHash/Chm_01.c:170-293 | total edges are twice the edges. Modulus masking: edges are the keys, and vertices are the requested size or floor(9·edges/4). Power-of-two masking: edges are the keys rounded up to a power of two, and vertices are that doubled or the requested size rounded up. Both exponents match. The vertices never fall below a 32-bit request |
| Chm01Sizing.MakeDimensions | src/PerfectHash/Chm_01.c:606-625 | the dimension record carries the counts it was given, twice the edges as total, and exponents whose powers are the counts when those are powers of two |
| Chm01Sizing.MaskPopulationMatchesExponents | src/PerfectHash/Chm_01.c:631-647 | under power-of-two masking, popcount(edges − 1) and popcount(vertices − 1) equal the stored exponents, so the two assertions hold |
| Chm01Sizing.ExponentMasks | src/PerfectHash/Chm_01.c:633-646 | any dimensions whose exponents are those of their counts satisfy the mask population assertions |
| Chm01Sizing.HeuristicSizingIsSound | src/PerfectHash/Chm_01.c:219-293 | without a requested size, for 1 to 2^30 keys, vertices, edges and total edges fit in 32 bits and vertices > edges, the assertions at lines 272-293 |
| Chm01Sizing.PowerOf2AtMost | src/PerfectHash/Chm_01.c:242-265 | a power of two whose half is below another power of two is at most that power, so the doubled edges exceed the edges |
| Chm01Sizing.PowerOf2TableElements | include/CompiledPerfectHashTable.h:246-255 | with power-of-two masking and no requested size, the table has RoundUpNextPowerOf2(RoundUpPowerOf2(keys)) elements |
| Chm01Sizing.BitmapBufferSize | src/PerfectHash/Chm_01.c:302-304 | ALIGN_UP(ALIGN_UP(n + 1, 8) / 8, 16) is a multiple of 16 that holds at least n + 1 bits, and wastes fewer than 17 bytes |
| Chm01Sizing.ComputeBitmapSizes | src/PerfectHash/Chm_01.c:302-345 | the deleted-edges bitmap holds more bits than total edges; the visited, assigned and index bitmaps are equal and hold more bits than vertices; all are multiples of 16 bytes |
| Chm01Sizing.DeriveTableFields | src/PerfectHash/Chm_01.c:660-669 | Hash size and modulus are the vertices and Index size and modulus the edges; each mask is size − 1; each fold is shift / 8; shifts are at most 32 |
| Chm01Sizing.TrailingZerosBound | src/PerfectHash/Chm_01.c:664-665 | the trailing-zero count of a 32-bit value is at most 32 |
| Chm01Sizing.TrailingZerosBelow | src/PerfectHash/Chm_01.c:664-665 | a positive number below 2^k has fewer than k trailing zeros |
| Chm01Sizing.PowerOf2FieldsConsistent | src/PerfectHash/Chm_01.c:660-669 | for power-of-two sizes, 2^shift is the size, mask + 1 is the size, and popcount(mask) is the shift, for both Hash and Index |
| Chm01Create.TableInfoOnDisk.constructor | src/PerfectHash/Chm_01.c:926-948 | a fresh header has zero resize events, attempts, closest value and initial size, which the resize bookkeeping tests for |
| Chm01Create.ApplyDefaultResizeSettings | src/PerfectHash/Chm_01.c:141-145 | a zero resize threshold is replaced by the defaults for threshold and limit; a non-zero one leaves both as they were |
| Chm01Create.PrepareAttempt | src/PerfectHash/Chm_01.c:170-720 | one pass from the retry label: the dimensions are those of the key count and requested size; the table fields are derived from them; the header carries magic, key size, IDs, concurrency, key count, the same ten fields and the vertices as table elements |
| Chm01Create.WriteHeader | src/PerfectHash/Chm_01.c:679-719 | the on-disk header receives the magic, key size 4, the context's IDs and concurrency, the given fields, key count and number of table elements |
| Chm01Create.ApplyResize | src/PerfectHash/Chm_01.c:926-970 | one more resize event; the attempts are added to the total; closest is replaced only when none is stored or it is smaller; the initial size is set only once; the three counters are zeroed; the request becomes twice the vertices; a retry happens exactly when that fits in 32 bits |
| Chm01Create.AppendKeepsDoubling | src/PerfectHash/Chm_01.c:962-966 | a size at least twice the last keeps the sequence of table sizes at least doubling |
| Chm01Create.AttemptRound | src/PerfectHash/Chm_01.c:125-1050 | one attempt: a zero resize threshold is replaced by the defaults for threshold and limit, and a configured one is kept; the dimensions are those of the current request and cover it; the decision is the post-wait rule; a resize updates the header counters and doubles the request, and any other outcome leaves the counters alone |
| Chm01Create.RetryRound | src/PerfectHash/Chm_01.c:125-994 | an attempt made after a resize works on at least twice the previous vertices, so the size sequence keeps doubling |
| Chm01Create.CreateTableImpl | src/PerfectHash/Chm_01.c:30-1195 | the retry loop: the first size is that of the initial request; each later size is at least double the previous one; every resize but an overflowing last one stayed below 2^32; resize events and attempts are counted exactly; a solved outcome carries the last dimensions |
| Chm01Create.ResizesAreBounded | src/PerfectHash/Chm_01.c:962-970 | since sizes double and each retried one stays below 2^32, at most 31 resizes happen, with no limit beyond the overflow check |
| Chm01Create.VerticesAtLeastPow2 | src/PerfectHash/Chm_01.c:962-966 | after k resizes the vertex count is at least 2^k |
| Chm01Create.LoadTableImpl | src/PerfectHash/Chm_01.c:1199-1235 | loading copies the ten Hash/Index fields from the header into the table and always succeeds |
| Chm01Create.CreateThenLoad | src/PerfectHash/Chm_01.c:660-700 | a table loaded from the header that creation wrote has exactly the fields creation derived (round trip) |
| Chm01Solve.FirstSignalled | src/PerfectHash/Chm_01.c:857-866 | the index of the first signalled event in wait order, or the length when none is signalled |
| Chm01Solve.ShouldWeContinueExactly | src/PerfectHash/Chm_01.c:1699-1740 | a thread keeps trying exactly when no graph has finished and none of Shutdown, Succeeded, Failed and Completed is signalled |
| Chm01Solve.SolvingLoop | src/PerfectHash/Chm_01.c:1310-1330 | each attempt made was allowed by the continue predicate; every attempt but the last failed; the loop reports a solution exactly when the last attempt solved; otherwise it stopped at the end or where the predicate said stop |
| Chm01Solve.SolutionWinsExactly | src/PerfectHash/Chm_01.c:873-1048 | whatever was signalled, the main thread goes to the solution handler exactly when the finished count is non-zero, even when a resize was requested |
| Chm01Solve.ResizeExactly | src/PerfectHash/Chm_01.c:873-906 | the table is resized exactly when nothing finished and TryLargerTableSize is the only one of the five wait events signalled |
| Chm01Solve.UnsolvedEndNeedsShutdown | src/PerfectHash/Chm_01.c:1004-1029 | without a solution or resize, solving ends cleanly exactly when the shutdown event is set, and is an error otherwise |
| Chm01Index.ToNumber | src/PerfectHash/Chm_01.c:1954-1955 | a masked 32-bit pattern read as an unsigned array index keeps its bits |
| Chm01Index.GenericIndex | src/PerfectHash/Chm_01.c:1744-1858 | the generic Index succeeds exactly when Hash, both MaskHash calls and MaskIndex succeed, and then returns MaskIndex of the 64-bit sum of the two Assigned slots; on any failure it returns index 0 with E_FAIL |
| Chm01Index.AndMasked | src/PerfectHash/Chm_01.c:1954-1955 | an AND-masked hash never exceeds the hash mask |
| Chm01Index.AndMaskedIndex | src/PerfectHash/Chm_01.c:1975 | the AND-masked 64-bit sum never exceeds the index mask |
| Chm01Index.ModMasked | src/PerfectHash/Chm_01.c:2318-2319 | a hash reduced modulo the hash modulus is below it |
| Chm01Index.ModMaskedIndex | src/PerfectHash/Chm_01.c:2339-2341 | the sum reduced modulo the index modulus is below it |
| Chm01Index.AndMaskHashInBounds | src/PerfectHash/Chm_01.c:1963-1964 | when Assigned covers every slot up to the hash mask, both reads after AND masking are in bounds |
| Chm01Index.ModMaskHashInBounds | src/PerfectHash/Chm_01.c:2329-2330 | when Assigned covers every slot below the hash modulus, both reads after modulus masking are in bounds |
| Chm01Index.GenericIndexWithAndMasks | src/PerfectHash/Chm_01.c:1744-1858 | the generic routine with AND masks fails only on a hash failure and otherwise reads Assigned at the two masked hashes and masks their sum |
| Chm01Index.AndMaskHashApplies | src/PerfectHash/Chm_01.c:1954-1955 | the AND MaskHash routine never fails and yields the masked hash |
| Chm01Index.FastIndexCrc32RotateAnd | src/PerfectHash/Chm_01.c:1862-2001 | the result never exceeds the index mask. It succeeds exactly when CRC(seed1, key) differs from CRC(CRC(seed2, rotl(key, 15)), seed3 ^ key). Otherwise it is index 0 with E_FAIL |
| Chm01Index.FastCrc32RotateAndIsGeneric | src/PerfectHash/Chm_01.c:1862-2001 | the CRC fast path equals the generic Index routine with the Crc32Rotate hash and AND masks, for every key |
| Chm01Index.AbsorbKeyAddsKey | src/PerfectHash/Chm_01.c:2080-2086 | adding the four key bytes, each shifted into place, to a 32-bit accumulator adds the key itself, modulo 2^32 |
| Chm01Index.BytesRebuildKey | src/PerfectHash/Chm_01.c:2083-2086 | the four bytes of the key, shifted back into place, rebuild the key |
| Chm01Index.JenkinsHashMixesKeyPlusGoldenRatio | src/PerfectHash/Chm_01.c:2080-2098 | each Jenkins vertex is the mix of (golden ratio + key, golden ratio, seed) |
| Chm01Index.FastIndexJenkinsAnd | src/PerfectHash/Chm_01.c:2005-2184 | the result never exceeds the index mask. It succeeds exactly when the two raw Jenkins hashes differ. Otherwise it is index 0 with E_FAIL |
| Chm01Index.FastJenkinsAndIsGeneric | src/PerfectHash/Chm_01.c:2005-2184 | the Jenkins/AND fast path equals the generic Index routine with the Jenkins hash and AND masks, for every key |
| Chm01Index.FastIndexJenkinsMod | src/PerfectHash/Chm_01.c:2190-2367 | the result is below the index modulus. It succeeds exactly when the two raw Jenkins hashes differ. Otherwise it is index 0 with E_FAIL |
| Chm01Index.ModMaskAndCombine | src/PerfectHash/Chm_01.c:2318-2341 | the modulus-masked reads and sum yield an index below the index modulus |
| Chm01Index.FastJenkinsModIsGeneric | src/PerfectHash/Chm_01.c:2190-2367 | the Jenkins/modulus fast path equals the generic Index routine with the Jenkins hash and modulus masks, for every key |
| CompiledIndex.MaskedAtMostMask | src/CompiledPerfectHashTable/CompiledPerfectHashTableChm01IndexRotateMultiplyXorRotate2And.c:27-28 | a masked vertex, read as an unsigned number, is at most HASH_MASK, so the TABLE_DATA reads are in bounds |
| CompiledIndex.NumberBound | src/CompiledPerfectHashTable/CompiledPerfectHashTableChm01IndexRotateMultiplyXorRotate2And.c:33 | the unsigned value of a 32-bit pattern is below 2^32 |
| CompiledIndex.MaskAndCombine | src/CompiledPerfectHashTable/CompiledPerfectHashTableChm01IndexRotateMultiplyXorRotate2And.c:27-33 | with HASH_MASK + 1 data entries, both reads are in bounds and the index is at most INDEX_MASK |
| CompiledIndex.IndexRotateMultiplyXorRotate2And | src/CompiledPerfectHashTable/CompiledPerfectHashTableChm01IndexRotateMultiplyXorRotate2And.c:2-38 | given HASH_MASK + 1 data entries, both reads are in bounds and the index is at most INDEX_MASK; the routine has no failure result |
| CompiledIndex.IndexRotateRMultiplyRotateRAnd | src/CompiledPerfectHashTable/CompiledPerfectHashTableChm01IndexRotateRMultiplyRotateRAnd.c:2-32 | given HASH_MASK + 1 data entries, both reads are in bounds and the index is at most INDEX_MASK; the routine has no failure result |
| CompiledIndex.WrappedSumAgreesWithWideSum | src/CompiledPerfectHashTable/CompiledPerfectHashTableChm01IndexRotateRMultiplyRotateRAnd.c:29 | the compiled routines' 32-bit sum gives the same masked index as the 64-bit sum of the routines used during creation |
| CompiledTable.GeneratedIndex | include/CompiledPerfectHashTable.h:58-83 | Index with the table's generated routine yields a slot at most the index mask |
| CompiledTable.CompiledPerfectHashTable.constructor | include/CompiledPerfectHashTable.h:86-114 | a fresh table has one zeroed value per index slot, so Lookup returns 0 for every key before any insert |
| CompiledTable.CompiledPerfectHashTable.Index | include/CompiledPerfectHashTable.h:58-83 | the key's slot lies within the values array, for any key; there is no membership check |
| CompiledTable.CompiledPerfectHashTable.Insert | include/CompiledPerfectHashTable.h:117-147 | returns the value previously at the key's slot and stores the new one there. Every key sharing the slot now looks up the new value; every other slot is unchanged |
| CompiledTable.CompiledPerfectHashTable.Delete | include/CompiledPerfectHashTable.h:150-183 | returns the previous value and clears the key's slot. Keys sharing the slot now look up 0, and other slots are unchanged. Deleting a never-inserted key returns 0 |
| CompiledTable.GetCompiledPerfectHashTable | include/CompiledPerfectHashTable.h:303-329 | fails exactly when the caller's size differs from the structure's size, and otherwise hands back the table unchanged |
| Constants.RoutineTablesShape | src/PerfectHashTable/PerfectHashTableConstants.c:21-123 | every ID-indexed routine table has one slot per ID from null to invalid; a slot is filled exactly when its ID is valid, except that FoldAuto is empty in both mask tables |
| Constants.NameTablesLineUp | src/PerfectHashTable/PerfectHashTableConstants.c:163-243 | the name tables have the lengths of the ID tables and name the same routine at each ID; MaskFunctionNames[4] is "FoldAuto" and AlgorithmNames[1] is "Chm01" |
| Constants.FastIndexTuplesShape | src/PerfectHashTable/PerfectHashTableConstants.c:129-149 | there are exactly two fast-index tuples, both Chm01 with AND masking, for Crc32Rotate and Jenkins in that order |
| Constants.EventPrefixesShape | src/PerfectHashTable/PerfectHashTableConstants.c:273-290 | there are 8 event prefixes, one per context event, so the event- and object-prefix counts are both 8; the fifth event and prefix are TryLargerTableSize |
| Constants.NumberOfContextEvents | src/PerfectHashTable/PerfectHashTableConstants.h:205-239 | the count is the number of handles from the first event field to the last, inclusive |
| Constants.ContextEventCountMatchesPrefixes | src/PerfectHashTable/PerfectHashTableConstants.h:218-236 | with the 8 event handles laid out consecutively, the event count equals the number of event prefixes, as asserted |
| Vtbl.FirstMatch | src/PerfectHashTable/PerfectHashTableConstants.h:144-162 | the index of the first tuple matching all three IDs, with no earlier match, or the length when none matches |
| Vtbl.FastIndexSelection | src/PerfectHashTable/PerfectHashTableConstants.h:144-162 | a fast Index exists exactly for Chm01 with AND masking and the Crc32Rotate or Jenkins hash, and is the matching routine |
| Vtbl.InitializeTableVtbl | src/PerfectHashTable/PerfectHashTableConstants.h:99-165 | the table points at the vtbl. Hash, SeededHash, MaskHash, MaskIndex and SlowIndex come from the ID tables. FastIndex is the first matching tuple's routine, and Index is FastIndex when there is one, else SlowIndex |
| Vtbl.FirstMatchIsUnique | src/PerfectHashTable/PerfectHashTableConstants.h:144-162 | any index with no earlier match and a match at it is the first match |
| PerfectHashContext.StateWordLayout | src/PerfectHash/PerfectHashContext.h:61-123 | the named bits together with the unused bits make up the 32-bit word; the named mask is the union of the seven flag bits; each flag is a single bit and no two flags share a bit |
| PerfectHashContext.UpdateBits | src/PerfectHash/PerfectHashContext.h:129-144 | a bit-field update sets the requested bits, clears the requested bits and leaves every other bit of the state as it was |
| PerfectHashContext.ElapsedMicroseconds | src/PerfectHash/PerfectHashContext.h:764-771 | for a non-negative counter difference whose scaling fits 64 bits, the result is the floor of difference·1000000 / frequency |
| PerfectHashContext.Context.constructor | src/PerfectHash/PerfectHashContext.h:61-123 | a fresh context has a zero state word, zero counters and no resize threshold |
| PerfectHashContext.Context.SetFirstSolvedGraphWins | src/PerfectHash/PerfectHashContext.h:129-131 | afterwards first-solved-graph-wins is set and find-best-memory-coverage clear; no other bit changes |
| PerfectHashContext.Context.SetFindBestMemoryCoverage | src/PerfectHash/PerfectHashContext.h:133-135 | afterwards find-best-memory-coverage is set and first-solved-graph-wins clear; no other bit changes |
| PerfectHashContext.Context.SetStopSolving | src/PerfectHash/PerfectHashContext.h:139 | sets the stop-solving bit and no other |
| PerfectHashContext.Context.ClearStopSolving | src/PerfectHash/PerfectHashContext.h:140 | clears the stop-solving bit and no other |
| PerfectHashContext.Context.SetContextBulkCreate | src/PerfectHash/PerfectHashContext.h:143 | sets the bulk-create bit and no other |
| PerfectHashContext.Context.ClearContextBulkCreate | src/PerfectHash/PerfectHashContext.h:144 | clears the bulk-create bit and no other |
| PerfectHashContext.Context.StartTimers | src/PerfectHash/PerfectHashContext.h:753-755 | records the start counter and cycles of the named timer and changes no other timer |
| PerfectHashContext.Context.EndTimers | src/PerfectHash/PerfectHashContext.h:757-771 | records the end cycles and counter. Elapsed cycles is end − start as a 64-bit signed value, and elapsed microseconds is the scaled counter difference divided by the frequency. Other timers are unchanged |
| ExtractArg.FirstEqualIndex | src/PerfectHash/ExtractArg.c:47-51 | the first flag name equal to the argument, with no earlier match, or none |
| ExtractArg.SetFlagIfEqual | src/PerfectHash/ExtractArg.c:47-51 | S_FALSE with flags unchanged exactly when no name matches; otherwise S_OK with exactly the first matching flag added |
| ExtractArg.ContextBulkCreateFlags | src/PerfectHash/ExtractArg.c:61-77 | SkipTestAfterCreate or Compile sets exactly that flag with S_OK; anything else is S_FALSE with no change |
| ExtractArg.ContextTableCreateFlags | src/PerfectHash/ExtractArg.c:84-100 | SkipTestAfterCreate or Compile sets exactly that flag with S_OK; anything else is S_FALSE with no change |
| ExtractArg.KeysLoadFlags | src/PerfectHash/ExtractArg.c:107-123 | TryLargePagesForKeysData or SkipKeysVerification sets exactly that flag with S_OK; anything else is S_FALSE with no change |
| ExtractArg.TableCreateFlags | src/PerfectHash/ExtractArg.c:130-185 | FirstGraphWins is S_OK without setting anything; one of the fourteen table create flags sets exactly that flag; anything else is S_FALSE with no change |
| ExtractArg.TableLoadFlags | src/PerfectHash/ExtractArg.c:192-208 | TryLargePagesForTableData or TryLargePagesForValuesArray sets exactly that flag with S_OK; anything else is S_FALSE with no change |
| ExtractArg.TableCompileFlags | src/PerfectHash/ExtractArg.c:215-228 | always S_FALSE with the flags unchanged |
| ExtractArg.Fields | src/PerfectHash/ExtractArg.c:277-292 | a value list has one field more than it has commas |
| ExtractArg.FieldsJoin | src/PerfectHash/ExtractArg.c:306-371 | joining the fields with commas gives back the input (round trip) |
| ExtractArg.FieldsAreCommaFree | src/PerfectHash/ExtractArg.c:306-371 | no field contains a comma |
| ExtractArg.NonEmptyKeepsAll | src/PerfectHash/ExtractArg.c:316-367 | dropping empty fields keeps them all exactly when none is empty |
| ExtractArg.ConvertFields | src/PerfectHash/ExtractArg.c:338-361 | a successful conversion has one value per field; a failure is E_FAIL, or, when sorting is enforced, PH_E_NOT_SORTED or PH_E_DUPLICATE_DETECTED |
| ExtractArg.ConvertedValues | src/PerfectHash/ExtractArg.c:338-361 | each value is the conversion of its field, in input order, and with sorting enforced the values are strictly ascending |
| ExtractArg.RejectionPersists | src/PerfectHash/ExtractArg.c:343-361 | once a field is rejected, later fields do not change the outcome: the first error is the result |
| ExtractArg.ValueArrayResult | src/PerfectHash/ExtractArg.c:239-410 | S_FALSE exactly when there is no comma. On success there are commas + 1 values, and on any error no values are kept |
| ExtractArg.ValueArraySucceeds | src/PerfectHash/ExtractArg.c:277-401 | success exactly when there is a comma, allocation succeeds, no field but the last is empty, the last has at least two characters and every field converts; the values are then those conversions |
| ExtractArg.ValueArrayContents | src/PerfectHash/ExtractArg.c:338-389 | on success each value is the conversion of the field at its position, strictly ascending when sorting is enforced |
| ExtractArg.ShortLastValueIsRejected | src/PerfectHash/ExtractArg.c:308-380 | "1,2" is rejected with PH_E_INVARIANT_CHECK_FAILED, because a one-character last field is never converted |
| ExtractArg.DescendingValuesAreRejected | src/PerfectHash/ExtractArg.c:348-361 | "30,12", whose fields are both parsed, fails the ordering check with PH_E_NOT_SORTED, which a keys subset reports as PH_E_KEYS_SUBSET_NOT_SORTED |
| ExtractArg.TwoFields | src/PerfectHash/ExtractArg.c:306-371 | two comma-free strings joined by one comma split back into exactly those two fields |
| ExtractArg.DescendingListFields | src/PerfectHash/ExtractArg.c:306-371 | "30,12" has the fields "30" and "12", and the scan keeps both |
| ExtractArg.ScannedFieldsArePrefix | src/PerfectHash/ExtractArg.c:306-371 | the fields the scanner has completed so far are a prefix of the fields it completes on the whole input |
| ExtractArg.ScannedFieldsBound | src/PerfectHash/ExtractArg.c:306-371 | the scanner never completes more than commas + 1 fields, so every store lands within the allocated array |
| ExtractArg.CountCommas | src/PerfectHash/ExtractArg.c:277-281 | the counting loop returns the number of commas in the input |
| ExtractArg.StoreValue | src/PerfectHash/ExtractArg.c:338-367 | converts one field into the next array slot. The conversion of the fields so far extends by that value, or is rejected with the status returned |
| ExtractArg.AdvanceScan | src/PerfectHash/ExtractArg.c:306-370 | one step of the two-state scanner completes a field exactly where the model of the scan says, with that field's text, and keeps the scan state in step |
| ExtractArg.ScanValues | src/PerfectHash/ExtractArg.c:300-371 | the scanning loop stores exactly the conversion of the fields it completes, or returns the rejection that conversion ends in |
| ExtractArg.ScanCharacter | src/PerfectHash/ExtractArg.c:306-370 | one loop iteration keeps the array equal to the conversion of the fields completed so far, or returns the whole scan's rejection |
| ExtractArg.TryExtractValueArray | src/PerfectHash/ExtractArg.c:239-410 | the status and values returned are the value-array result of the input |
| ExtractArg.EqualsSign | src/PerfectHash/ExtractArg.c:498-512 | none exactly when the argument has no '='; otherwise the position of its first '=' |
| ExtractArg.KeysSubsetError | src/PerfectHash/ExtractArg.c:583-589 | NOT_SORTED maps to PH_E_KEYS_SUBSET_NOT_SORTED and DUPLICATE_DETECTED to PH_E_DUPLICATE_VALUE_DETECTED_IN_KEYS_SUBSET. E_OUTOFMEMORY passes through, and any other status becomes PH_E_INVALID_KEYS_SUBSET |
| ExtractArg.PriorityParameter | src/PerfectHash/ExtractArg.c:597-615 | High, Normal or Low gives that threadpool priority for the parameter; any other value is the branch's error |
| ExtractArg.ExtractParameter | src/PerfectHash/ExtractArg.c:494-624 | no '=' is S_FALSE. A BestCoverageType parameter names a position in the coverage table, and a keys subset is the sorted value array of the text after '='. Failures are only the subset and priority errors. What each name adds is stated by the lemmas below |
| ExtractArg.IntegerParameterOutcome | src/PerfectHash/ExtractArg.c:531-552 | with no earlier name prefixing the argument, AttemptsBeforeTableResize, MaxNumberOfTableResizes or BestCoverageAttempts adds its own Id with the base-10 value when that value converts |
| ExtractArg.BestCoverageTypeOutcome | src/PerfectHash/ExtractArg.c:554-568 | with no integer name prefixing the argument, BestCoverageType adds the position of the first coverage type the value equals; a value naming none adds no BestCoverageType parameter |
| ExtractArg.PriorityParameterOutcome | src/PerfectHash/ExtractArg.c:597-618 | with no earlier name prefixing the argument, a threadpool priority name adds High, Normal or Low, tested in that order; any other value fails with PH_E_INVALID_MAIN_WORK_THREADPOOL_PRIORITY or PH_E_INVALID_FILE_WORK_THREADPOOL_PRIORITY |
| ExtractArg.KeysSubsetOutcome | src/PerfectHash/ExtractArg.c:570-595 | a KeysSubset argument adds the parsed list when parsing succeeds and otherwise fails with the mapped error; a list without a comma is PH_E_INVALID_KEYS_SUBSET |
| ExtractArg.UnknownNameIsIgnored | src/PerfectHash/ExtractArg.c:533-624 | an argument with '=' whose name is no known prefix adds nothing; its status is that of the integer conversion of the value |
| ExtractArg.AddParameterKeepsEntries | src/PerfectHash/ExtractArg.c:635-694 | a parameter whose Id matches the first entry overwrites it and keeps the count. Any other is appended at the end, the count grows by one, and all earlier entries are kept |
| ExtractArg.RepeatedParameterIsAppended | src/PerfectHash/ExtractArg.c:635-649 | repeating the Id of the second entry appends a second entry with that Id instead of replacing it |
| ExtractArg.OwnedValuesAreTheKeysSubsets | src/PerfectHash/ExtractArg.c:414-423 | the values freed on destruction are exactly those of the KeysSubset entries |
| ExtractArg.ExtractInto | src/PerfectHash/ExtractArg.c:435-709 | S_FALSE exactly when there is no '='. Any non-S_OK result leaves the entries as they were and frees nothing. On S_OK at most one entry is added, only the first may change, and at most one keys subset is freed |
| ExtractArg.TableCreateParameters.constructor | src/PerfectHash/ExtractArg.c:476-492 | an empty parameter array: count zero and a null pointer, which is consistent |
| ExtractArg.TableCreateParameters.FindEqualsSign | src/PerfectHash/ExtractArg.c:498-512 | the search loop finds the first '=' or reports none |
| ExtractArg.TableCreateParameters.TryExtract | src/PerfectHash/ExtractArg.c:435-709 | a count and pointer that disagree (zero count with an array, or non-zero count without one) give PH_E_INVARIANT_CHECK_FAILED with nothing changed. Otherwise the caller's array and count are updated in place exactly as the extraction result says, and stay consistent |
| ExtractArg.TableCreateParameters.Recognize | src/PerfectHash/ExtractArg.c:522-624 | the chain of name tests yields the extraction the parameter rules define |
| ExtractArg.TableCreateParameters.AddParam | src/PerfectHash/ExtractArg.c:635-694 | same Id as the first entry: overwrite it, keep the count and free its keys subset if it had one. Otherwise append and add one to the count, or, if the array cannot grow, return E_OUTOFMEMORY with nothing changed |
| ExtractArg.TableCreateParameters.Destroy | src/PerfectHash/ExtractArg.c:716-735 | frees the keys subset of each of the first count entries, then the array, and returns S_OK; the count itself is left as it was |
| BulkCreate.Wrap16 | src/PerfectHash/PerfectHashContextBulkCreate.c:695-696 | truncation to a USHORT is below 2^16 and is the identity on values that fit |
| BulkCreate.ArgumentString | src/PerfectHash/PerfectHashContextBulkCreate.c:695-696 | an argument's counted string keeps its buffer and has 16-bit lengths |
| BulkCreate.ArgumentStringLength | src/PerfectHash/PerfectHashContextBulkCreate.c:695-696 | GET_LENGTH counts characters modulo 32768, so the counted text is the whole argument exactly when it is shorter than 32768 characters. The maximum length is two bytes more, wrapping to 0 at 32767 characters |
| BulkCreate.OptionTextStripsDashes | src/PerfectHash/PerfectHashContextBulkCreate.c:975-993 | an argument is offered exactly when it is "--" followed by at least one character, and what is offered is the argument without the two dashes |
| BulkCreate.ClaimFlag | src/PerfectHash/PerfectHashContextBulkCreate.c:1003-1017 | the flag extractors in order context bulk create, keys load, table create, table compile: none claims the argument exactly when no flag name matches it. A claim keeps every flag already set, and all flags stay known |
| BulkCreate.ClaimFlagOrder | src/PerfectHash/PerfectHashContextBulkCreate.c:1003-1017 | exactly one word changes on a claim: the first word in chain order with a matching name gains its first matching flag, the other words are unchanged, and FirstGraphWins changes nothing |
| BulkCreate.OfferOption | src/PerfectHash/PerfectHashContextBulkCreate.c:1003-1044 | an option goes to the flag extractors, then to the parameter extractor. A failure changes nothing, at most one parameter is added, and freed subsets only accumulate |
| BulkCreate.ProcessOptionsStep | src/PerfectHash/PerfectHashContextBulkCreate.c:968-1045 | one more argument is skipped when the loop has already failed or it is not an option, and otherwise offered with the options so far |
| BulkCreate.OptionsAreWellFormed | src/PerfectHash/PerfectHashContextBulkCreate.c:968-1045 | the loop only sets known flags, and adds at most one parameter per optional argument |
| BulkCreate.FailureEndsTheLoop | src/PerfectHash/PerfectHashContextBulkCreate.c:1005-1035 | after a failing argument the later arguments are not looked at |
| BulkCreate.LoopExit | src/PerfectHash/PerfectHashContextBulkCreate.c:968-1045 | where the loop stops, at the end or at a failure, its outcome is that of the whole argument vector |
| BulkCreate.OptionsStatus | src/PerfectHash/PerfectHashContextBulkCreate.c:968-1058 | the loop ends with S_OK, S_FALSE or one of the extractors' failures, and with no other status |
| BulkCreate.FailureKeepsParameters | src/PerfectHash/PerfectHashContextBulkCreate.c:1032-1035 | the failing argument leaves the parameters added before it in place |
| BulkCreate.PositionalStatus | src/PerfectHash/PerfectHashContextBulkCreate.c:913-955 | the IDs and the concurrency are checked in order, and the first failure gives its PH_E_INVALID_* error. S_OK exactly when all three IDs convert and are valid and the concurrency converts |
| BulkCreate.FailureCleanupAsWritten | src/PerfectHash/PerfectHashContextBulkCreate.c:1052-1056 | the cleanup as written only zeroes the count and leaves the array in place, which breaks count/pointer consistency whenever an array exists |
| BulkCreate.FailureCleanup | src/PerfectHash/PerfectHashContextBulkCreate.c:1048-1056 | the intended cleanup destroys the parameters, freeing every keys subset, and zeroes the count, leaving a consistent empty array |
| BulkCreate.ExtractAfterCleanupAsWritten | src/PerfectHash/ExtractArg.c:484-492 | after the cleanup as written, any further parameter extraction on the same variables fails the invariant check with PH_E_INVARIANT_CHECK_FAILED |
| BulkCreate.ExtractAfterCleanup | src/PerfectHash/ExtractArg.c:484-492 | after the intended cleanup, the next extraction behaves as on an empty array and leaves the pair consistent |
| BulkCreate.BulkCreateArguments.ExtractFromArgv | src/PerfectHash/PerfectHashContextBulkCreate.c:714-1059 | a null pointer is E_POINTER and fewer than seven arguments is an invalid count, both with nothing written. Otherwise positions 1-6 fill the outputs and a positional error is returned. Then the options' outcome is returned with the flags and parameter entries it built and the subsets it freed. On failure only the count is cleared, so the pair is left inconsistent exactly when parameters had been added |
| BulkCreate.BulkCreateArguments.ExtractPositional | src/PerfectHash/PerfectHashContextBulkCreate.c:890-955 | the directories are stored, each ID is stored once it converts and then validated, and the status is the positional status |
| BulkCreate.BulkCreateArguments.ExtractOptions | src/PerfectHash/PerfectHashContextBulkCreate.c:958-1058 | the result, flags, parameter entries and freed subsets are the options' outcome. On failure the count is zero while the array stays, so count and pointer disagree exactly when parameters had been added; nothing more is freed |
| BulkCreate.BulkCreateArguments.OfferAllOptions | src/PerfectHash/PerfectHashContextBulkCreate.c:958-1045 | zeroes the flags, count and pointer, then offers every later argument: the result, flags, entries and freed subsets are the options' outcome, with count and pointer consistent |
| BulkCreate.BulkCreateArguments.ExtractOptionsIntended | src/PerfectHash/PerfectHashContextBulkCreate.c:1047-1056 | the options' outcome with the cleanup the comment describes: on failure the array is destroyed, every keys subset is freed, and the pair is consistent and empty |
| BulkCreate.BulkCreateArguments.OfferArguments | src/PerfectHash/PerfectHashContextBulkCreate.c:968-1045 | the argument loop's status and options are those of the whole argument vector |
| BulkCreate.BulkCreateArguments.OfferArgument | src/PerfectHash/PerfectHashContextBulkCreate.c:968-993 | one iteration moves the outputs from the outcome before the argument to the outcome after it |
| BulkCreate.BulkCreateArguments.OfferToExtractors | src/PerfectHash/PerfectHashContextBulkCreate.c:1003-1044 | the flag chain then the parameter extractor, applied to the output variables in place, do what offering the option does |
| BulkCreate.WildcardPath | src/PerfectHash/PerfectHashContextBulkCreate.c:312-357 | the overflow error exactly when the allocation size needs more than 16 bits. Otherwise the path is dir + '\' + "*.keys", its length counts exactly those characters, its maximum length is two bytes more, and the terminator follows it |
| BulkCreate.NulIndex | src/PerfectHash/PerfectHashContextBulkCreate.c:466-468 | the position of the first terminator of a found file name |
| BulkCreate.ComposeKeysPath | src/PerfectHash/PerfectHashContextBulkCreate.c:404-475 | from its start position the buffer holds dir + '\' + the file name up to its terminator, then a terminator, and what precedes the start is unchanged. Length is its byte length as a USHORT and MaximumLength two more. When that fits, the terminator sits at Length / 2 |
| BulkCreate.WriteKeysBase | src/PerfectHash/PerfectHashContextBulkCreate.c:404-421 | the directory and a slash are written from the start position, their length is returned as the base, and what precedes the start is unchanged |
| BulkCreate.CopyFileName | src/PerfectHash/PerfectHashContextBulkCreate.c:463-469 | the file name up to its terminator and then a terminator are written from the base, the terminator's position is returned, and what precedes the base is unchanged |
| BulkCreate.KeysPathStart | src/PerfectHash/PerfectHashContextBulkCreate.c:364-369 | the keys path starts after the whole wildcard allocation and less than 16 bytes past it |
| BulkCreate.WildcardCheckAdmitsOverrun | src/PerfectHash/PerfectHashContextBulkCreate.c:265-323 | a directory of 32,760 bytes or more passes the wildcard size check, yet its keys path ends past the 64 KB buffer for any file name |
| BulkCreate.PathsFitExactly | src/PerfectHash/PerfectHashContextBulkCreate.c:312-323 | the corrected check admits exactly the directories of at most 32,496 bytes |
| BulkCreate.ComposePathsChecked | src/PerfectHash/PerfectHashContextBulkCreate.c:265-475 | with the corrected check, the overflow error exactly when the paths do not fit; otherwise the keys path lies inside the shared buffer with its exact text and an unwrapped length |

## Left out

- Threads, events, the thread pool and interlocked lists are not modelled. Their purpose is concurrency. The model states the decision rules over a snapshot of signalled events and counters instead (`Chm01Solve`).
- The thread-pool worker loop is modelled only as `Chm01Solve.SolvingLoop`, over a given sequence of attempts.
- File and memory-mapping I/O is not modelled: FileWorkCallbackChm01, VirtualAlloc buffers, guard pages, unmapping and handle closing. These are operating-system effects.
- Graph construction, peeling, assignment and verification are outside the model; `InitializeGraph`, `SolveGraph` and `VerifySolvedGraph` are not part of this model. The Assigned data array is an input, and whether an attempt solves is part of each attempt's input.
- The CRC-32C instruction, and the vtbl Hash, MaskHash and MaskIndex bodies, are function parameters, because their bodies are not part of this model. So are `RtlUnicodeStringToInteger`, case-insensitive equality and prefix tests.
- Allocation and reallocation are booleans saying whether they succeed; a freed keys subset is recorded in a ghost `freed` list instead of memory being released.
- Counters are unbounded naturals wherever the width of their C type is not part of this model: header resize counters, context attempt counters, the finished count and the requested size. The "closest" value uses the ULONG subtraction of the source.
- GRAPH_SOLVING_ATTEMPTS_THRESHOLD and GRAPH_SOLVING_RESIZE_TABLE_LIMIT are parameters, because their values are defined in a header that is not part of this model.
- The bulk-create driver loop is not modelled beyond its two path computations: directory enumeration, keys and table creation, and progress output are I/O. The overwriting of its final result by the buffer teardown is not modelled either.
- The CUDA loader, the TLS glue and the Python command-line tools are not modelled; they are foreign libraries and I/O.
- The generated raw-string header is text. The Rotate2 routine's SEED5 and SEED6 are fields of `CompiledIndex.Seeds`, because that header defines only SEED1 to SEED4.
- Timer readings (`__rdtsc`, `QueryPerformanceCounter`) are parameters; only the arithmetic on them is modelled.
- The PERFECT_HASH_TABLE_CREATE_PARAMETER union is modelled as a tagged value, because its layout is not part of this model. An overwrite replaces the whole value.
- Debug-only ASSERTs are not checks in the model. The sizing assertions are a predicate, and `Chm01Sizing.HeuristicSizingIsSound` proves it for the heuristic sizes. A requested size may violate it, as in the source, where vertices > edges is asserted and not established.
- Chm01Create.CreateTableImpl: each attempt's events, counters and solution are given as a sequence of rounds, because the solving threads produce them.
- Chm01Create.LoadTableImpl: the header's remaining fields (seeds, sizes of the table data) are not copied, because the load routine does not read them.
- CompiledIndex.IndexRotateMultiplyXorRotate2And and CompiledIndex.IndexRotateRMultiplyRotateRAnd: their contracts state the bounds and the absence of a failure path, and are not tied to a second definition of the hash; the 32-bit and 64-bit sums are related by `CompiledIndex.WrappedSumAgreesWithWideSum`.
- ExtractArg.TableCreateParameters.TryExtract: a non-zero count is required to be the length of the array it points to, because the model's array carries its own length while the C array does not. The PH_RAISE of the invariant check is modelled as a returned PH_E_INVARIANT_CHECK_FAILED, because structured exceptions are not modelled.
- BulkCreate.BulkCreateArguments.ExtractFromArgv: on failure, `FreePointer` releasing the caller's own variable is not modelled, because that memory is no allocation the model tracks. Only the effect on the count and the array is stated.
- BulkCreate.ComposePathsChecked: the wildcard path is a value (`BulkCreate.WildcardPath`) rather than characters written into the shared buffer; `BulkCreate.ComposeKeysPath` states instead that the keys path leaves everything before its start, where the wildcard lies, unchanged.
- DOWNSIZE_KEY is the identity, because compiled keys here are 32 bits wide.

## Findings

| source | as written | input that shows it | evidently intended | confidence | as-written member | corrected member |
|---|---|---|---|---|---|---|
| src/PerfectHash/PerfectHashContextBulkCreate.c:1052-1056 | on failure, `FreePointer` receives `&TableCreateParameters`, the address of the routine's own argument. So it releases the caller's variable rather than the array that variable points to, and nulls only the local copy; then the count is zeroed. The array and the keys subsets it owns stay allocated, and the caller's pointer stays non-null. The model keeps the observable part: only the count changes (`BulkCreate.BulkCreateArguments.ExtractOptions` uses this cleanup, `ExtractOptionsIntended` the corrected one) | the seven positional arguments followed by `--AttemptsBeforeTableResize=5 --KeysSubset=30,12`: the first option adds a parameter, and the second fails with PH_E_KEYS_SUBSET_NOT_SORTED (`ExtractArg.DescendingValuesAreRejected`). The caller is left with a non-null one-entry array and a count of 0, a state TryExtractArgTableCreateParameters rejects at src/PerfectHash/ExtractArg.c:484-492 (`BulkCreate.ExtractAfterCleanupAsWritten`) | destroy the parameters (free each keys subset and the array), null the pointer and zero the count | not executed | BulkCreate.FailureCleanupAsWritten | BulkCreate.FailureCleanup |
| src/PerfectHash/PerfectHashContextBulkCreate.c:265-468 | the wildcard path and every keys path are built in one buffer of (1 << 16) bytes. The keys path starts at the wildcard allocation aligned up to 16 bytes, and then takes the directory, a slash, the file name and a terminator. The only size check is that the wildcard allocation fits in 16 bits, which admits directories of up to 65,518 bytes | a keys directory of 16,380 characters (32,760 bytes): the allocation check passes, the keys path starts at byte 32,784, and the directory copy alone ends at byte 65,544, past the buffer, whatever the file name (`BulkCreate.WildcardCheckAdmitsOverrun`) | reject with PH_E_STRING_BUFFER_OVERFLOW any directory for which the keys path of a MAX_PATH file name would not end inside the buffer (at most 32,496 bytes) | not executed | BulkCreate.WildcardCheckAdmitsOverrun | BulkCreate.ComposePathsChecked |
