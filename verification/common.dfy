/**
 * Shared vocabulary: optional values, the 32-bit unsigned integer type of
 * the Windows API (ULONG), and the HRESULT codes the modelled routines return.
 */
module Common {

  datatype Option<T> = None | Some(value: T)

  const TwoTo32: int := 0x1_0000_0000
  const TwoTo16: int := 0x1_0000

  /** A ULONG: an unsigned 32-bit integer. */
  type uint32 = x: int | 0 <= x < 0x1_0000_0000

  /** Unsigned 32-bit wrap-around of an arbitrary integer. */
  function Wrap32(x: int): (r: uint32)
    ensures 0 <= x < TwoTo32 ==> r == x
  {
    x % TwoTo32
  }

  const TwoTo63: int := 0x8000_0000_0000_0000
  const TwoTo64: int := 0x1_0000_0000_0000_0000

  /** A LONGLONG (the QuadPart of a LARGE_INTEGER): a signed 64-bit integer. */
  type int64 = x: int | -0x8000_0000_0000_0000 <= x < 0x8000_0000_0000_0000

  /** Two's-complement 64-bit wrap-around of an arbitrary integer. */
  function WrapS64(x: int): (r: int64)
    ensures -TwoTo63 <= x < TwoTo63 ==> r == x
  {
    var u := x % TwoTo64;
    if u < TwoTo63 then u else u - TwoTo64
  }

  /** C's signed division, which truncates toward zero. */
  function TruncDiv(a: int, b: int): (q: int)
    requires b != 0
    ensures a >= 0 && b > 0 ==> q == a / b
  {
    if (a >= 0) == (b > 0) then (if a >= 0 then a / b else (-a) / (-b))
    else -((if a >= 0 then a else -a) / (if b > 0 then b else -b))
  }

  /**
   * The HRESULT values the modelled routines produce.  `Ok` is S_OK,
   * `False` is S_FALSE; every other code is a failure code.
   */
  datatype HResult =
    | Ok
    | False
    | Fail                        // E_FAIL
    | Pointer                     // E_POINTER
    | OutOfMemory                 // E_OUTOFMEMORY
    | Unexpected                  // E_UNEXPECTED
    | NotSorted                   // PH_E_NOT_SORTED
    | DuplicateDetected           // PH_E_DUPLICATE_DETECTED
    | InvariantCheckFailed        // PH_E_INVARIANT_CHECK_FAILED
    | KeysSubsetNotSorted         // PH_E_KEYS_SUBSET_NOT_SORTED
    | DuplicateValueInKeysSubset  // PH_E_DUPLICATE_VALUE_DETECTED_IN_KEYS_SUBSET
    | InvalidKeysSubset           // PH_E_INVALID_KEYS_SUBSET
    | InvalidMainWorkPriority     // PH_E_INVALID_MAIN_WORK_THREADPOOL_PRIORITY
    | InvalidFileWorkPriority     // PH_E_INVALID_FILE_WORK_THREADPOOL_PRIORITY
    | InvalidNumArgs              // PH_E_CONTEXT_BULK_CREATE_INVALID_NUM_ARGS
    | InvalidAlgorithmId          // PH_E_INVALID_ALGORITHM_ID
    | InvalidHashFunctionId       // PH_E_INVALID_HASH_FUNCTION_ID
    | InvalidMaskFunctionId       // PH_E_INVALID_MASK_FUNCTION_ID
    | InvalidMaximumConcurrency   // PH_E_INVALID_MAXIMUM_CONCURRENCY
    | StringBufferOverflow        // PH_E_STRING_BUFFER_OVERFLOW
    | ConversionFailed            // the NTSTATUS of a failed integer conversion

  /** The FAILED() macro: every code other than S_OK and S_FALSE. */
  predicate Failed(h: HResult)
  {
    !(h.Ok? || h.False?)
  }
}
