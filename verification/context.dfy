/**
 * The parts of the perfect hash context that the modelled routines touch:
 * the 32-bit state word with its mode bits, the solving counters, and the
 * start/end timer fields with their elapsed-time arithmetic.
 */
module PerfectHashContext {
  import opened Common

  // Bit positions of the named fields of the 32-bit state word; the
  // remaining 25 bits are unused.
  const NeedsResetBit: bv32 := 0x01
  const FirstSolvedGraphWinsBit: bv32 := 0x02
  const FindBestMemoryCoverageBit: bv32 := 0x04
  const StopSolvingBit: bv32 := 0x08
  const IsBulkCreateBit: bv32 := 0x10
  const AllGraphsFailedMemoryAllocationBit: bv32 := 0x20
  const LowMemoryObservedBit: bv32 := 0x40
  const NamedBits: bv32 := 0x7F
  const NumberOfNamedBits: nat := 7
  const NumberOfUnusedBits: nat := 25

  /** The named bits, lowest first. */
  const NamedBitList: seq<bv32> := [NeedsResetBit, FirstSolvedGraphWinsBit, FindBestMemoryCoverageBit,
    StopSolvingBit, IsBulkCreateBit, AllGraphsFailedMemoryAllocationBit, LowMemoryObservedBit]

  /** Exactly one bit of `b` is set. */
  predicate SingleBit(b: bv32)
  {
    b != 0 && b & (b - 1) == 0
  }

  /** The named bits are seven distinct single bits; with the unused ones they fill the word. */
  lemma StateWordLayout()
    ensures |NamedBitList| == NumberOfNamedBits && NumberOfNamedBits + NumberOfUnusedBits == 32
    ensures NamedBits == NeedsResetBit | FirstSolvedGraphWinsBit | FindBestMemoryCoverageBit |
      StopSolvingBit | IsBulkCreateBit | AllGraphsFailedMemoryAllocationBit | LowMemoryObservedBit
    ensures forall i :: 0 <= i < |NamedBitList| ==> SingleBit(NamedBitList[i])
    ensures forall i, j :: 0 <= i < j < |NamedBitList| ==> NamedBitList[i] & NamedBitList[j] == 0
  {
  }

  /** Set `on` and clear `off`, leaving every other bit of the word alone. */
  function UpdateBits(state: bv32, on: bv32, off: bv32): (r: bv32)
    requires on & off == 0
    ensures r & on == on
    ensures r & off == 0
    ensures r & !(on | off) == state & !(on | off)
  {
    (state | on) & !off
  }

  /** The elapsed-time fields one CONTEXT_START/END_TIMERS pair maintains. */
  datatype Timer = Timer(
    startCycles: int64, startCounter: int64,
    endCycles: int64, endCounter: int64,
    elapsedCycles: int64, elapsedMicroseconds: int64)

  datatype TimerName = PrepareFile | Solve | Verify | SaveFile

  /**
   * The end-timer arithmetic on 64-bit signed LARGE_INTEGERs: the counter
   * difference is scaled to microseconds and divided (truncating) by the
   * counter frequency.
   */
  function ElapsedMicroseconds(startCounter: int64, endCounter: int64, frequency: int64): (r: int64)
    requires frequency > 0
    ensures 0 <= endCounter - startCounter && (endCounter - startCounter) * 1000000 < TwoTo63 ==>
      r * frequency <= (endCounter - startCounter) * 1000000 < (r + 1) * frequency
  {
    var elapsed := WrapS64(endCounter - startCounter);
    var scaled := WrapS64(elapsed * 1000000);
    assert 0 <= endCounter - startCounter && (endCounter - startCounter) * 1000000 < TwoTo63 ==>
      scaled == (endCounter - startCounter) * 1000000;
    TruncDiv(scaled, frequency)
  }

  class Context {
    var state: bv32
    var frequency: int64
    var timers: map<TimerName, Timer>
    var attempts: nat
    var failedAttempts: nat
    var highestDeletedEdgesCount: nat
    var finishedCount: nat
    var resizeTableThreshold: nat
    var resizeLimit: nat
    var algorithmId: nat
    var hashFunctionId: nat
    var maskFunctionId: nat
    var maximumConcurrency: nat

    ghost predicate Valid()
      reads this
    {
      PrepareFile in timers && Solve in timers && Verify in timers && SaveFile in timers
    }

    constructor (maskFunctionId: nat, frequency: int64)
      ensures Valid()
      ensures state == 0 && this.frequency == frequency && this.maskFunctionId == maskFunctionId
      ensures attempts == failedAttempts == highestDeletedEdgesCount == finishedCount == 0
      ensures resizeTableThreshold == resizeLimit == 0
    {
      state := 0;
      this.frequency := frequency;
      var zero := Timer(0, 0, 0, 0, 0, 0);
      timers := map[PrepareFile := zero, Solve := zero, Verify := zero, SaveFile := zero];
      attempts, failedAttempts, highestDeletedEdgesCount, finishedCount := 0, 0, 0, 0;
      resizeTableThreshold, resizeLimit := 0, 0;
      this.maskFunctionId := maskFunctionId;
      algorithmId, hashFunctionId, maximumConcurrency := 0, 0, 0;
    }

    /** The solving threads' counters, as the main thread finds them after the wait. */
    method RecordRound(attempts: nat, failedAttempts: nat, highestDeletedEdgesCount: nat, finishedCount: nat)
      modifies this`attempts, this`failedAttempts, this`highestDeletedEdgesCount, this`finishedCount
      ensures this.attempts == attempts && this.failedAttempts == failedAttempts
      ensures this.highestDeletedEdgesCount == highestDeletedEdgesCount && this.finishedCount == finishedCount
    {
      this.attempts := attempts;
      this.failedAttempts := failedAttempts;
      this.highestDeletedEdgesCount := highestDeletedEdgesCount;
      this.finishedCount := finishedCount;
    }

    predicate FirstSolvedGraphWins() reads this { state & FirstSolvedGraphWinsBit != 0 }
    predicate FindBestMemoryCoverage() reads this { state & FindBestMemoryCoverageBit != 0 }
    predicate StopSolving() reads this { state & StopSolvingBit != 0 }
    predicate IsContextBulkCreate() reads this { state & IsBulkCreateBit != 0 }

    /** SetFirstSolvedGraphWins: exactly one of the two solve modes is set afterwards. */
    method SetFirstSolvedGraphWins()
      modifies this`state
      ensures FirstSolvedGraphWins() && !FindBestMemoryCoverage()
      ensures state & !(FirstSolvedGraphWinsBit | FindBestMemoryCoverageBit) ==
              old(state) & !(FirstSolvedGraphWinsBit | FindBestMemoryCoverageBit)
    {
      state := UpdateBits(state, FirstSolvedGraphWinsBit, FindBestMemoryCoverageBit);
    }

    /** SetFindBestMemoryCoverage: the reverse toggle. */
    method SetFindBestMemoryCoverage()
      modifies this`state
      ensures FindBestMemoryCoverage() && !FirstSolvedGraphWins()
      ensures state & !(FirstSolvedGraphWinsBit | FindBestMemoryCoverageBit) ==
              old(state) & !(FirstSolvedGraphWinsBit | FindBestMemoryCoverageBit)
    {
      state := UpdateBits(state, FindBestMemoryCoverageBit, FirstSolvedGraphWinsBit);
    }

    method SetStopSolving()
      modifies this`state
      ensures StopSolving()
      ensures state & !StopSolvingBit == old(state) & !StopSolvingBit
    {
      state := UpdateBits(state, StopSolvingBit, 0);
    }

    method ClearStopSolving()
      modifies this`state
      ensures !StopSolving()
      ensures state & !StopSolvingBit == old(state) & !StopSolvingBit
    {
      state := UpdateBits(state, 0, StopSolvingBit);
    }

    method SetContextBulkCreate()
      modifies this`state
      ensures IsContextBulkCreate()
      ensures state & !IsBulkCreateBit == old(state) & !IsBulkCreateBit
    {
      state := UpdateBits(state, IsBulkCreateBit, 0);
    }

    method ClearContextBulkCreate()
      modifies this`state
      ensures !IsContextBulkCreate()
      ensures state & !IsBulkCreateBit == old(state) & !IsBulkCreateBit
    {
      state := UpdateBits(state, 0, IsBulkCreateBit);
    }

    /** CONTEXT_START_TIMERS: record the counter and the cycle count. */
    method StartTimers(name: TimerName, counter: int64, cycles: int64)
      requires Valid()
      modifies this`timers
      ensures Valid()
      ensures name in old(timers)
      ensures timers == old(timers)[name := old(timers)[name].(startCounter := counter, startCycles := cycles)]
    {
      assert name in timers by { assert name.PrepareFile? || name.Solve? || name.Verify? || name.SaveFile?; }
      timers := timers[name := timers[name].(startCounter := counter, startCycles := cycles)];
    }

    /**
     * CONTEXT_END_TIMERS: record the end values, the elapsed cycles and the
     * elapsed microseconds; no other timer changes.
     */
    method EndTimers(name: TimerName, cycles: int64, counter: int64)
      requires Valid() && frequency > 0
      modifies this`timers
      ensures Valid()
      ensures name in old(timers)
      ensures timers.Keys == old(timers).Keys
      ensures forall other :: other in timers && other != name ==> timers[other] == old(timers)[other]
      ensures var t := timers[name];
        t.startCycles == old(timers)[name].startCycles && t.startCounter == old(timers)[name].startCounter &&
        t.endCycles == cycles && t.endCounter == counter &&
        t.elapsedCycles == WrapS64(cycles - t.startCycles) &&
        t.elapsedMicroseconds == ElapsedMicroseconds(t.startCounter, counter, frequency)
    {
      assert name in timers by { assert name.PrepareFile? || name.Solve? || name.Verify? || name.SaveFile?; }
      var t := timers[name];
      var elapsedCycles := WrapS64(cycles - t.startCycles);
      var micro := ElapsedMicroseconds(t.startCounter, counter, frequency);
      timers := timers[name := t.(endCycles := cycles, endCounter := counter,
                                  elapsedCycles := elapsedCycles, elapsedMicroseconds := micro)];
    }
  }
}
