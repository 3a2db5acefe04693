/**
 * The bulk-create command line: the argument-vector extractor, which fills
 * the caller's output variables from positions 1 to 6 and then offers every
 * later `--Option` to the flag extractors and the table create parameter
 * extractor, and the two paths bulk create composes from the keys
 * directory: the `<dir>\*.keys` search pattern and the path of each keys
 * file found.
 *
 * Wide strings are sequences of characters; a UNICODE_STRING carries its
 * byte lengths in 16 bits, and those truncations are written out.
 */
module BulkCreate {
  import opened Common
  import Constants
  import Bits
  import opened ExtractArg

  // ---------------------------------------------------------------------------
  // Counted strings
  // ---------------------------------------------------------------------------

  /** A UNICODE_STRING: a character buffer and two USHORT byte lengths. */
  datatype UnicodeString = UnicodeString(buffer: string, length: nat, maximumLength: nat)

  /** Truncation to a USHORT. */
  function Wrap16(x: int): (r: nat)
    ensures r < TwoTo16
    ensures 0 <= x < TwoTo16 ==> r == x
  {
    x % TwoTo16
  }

  /** The characters a counted string's Length covers. */
  function Text(u: UnicodeString): string
    requires u.length / 2 <= |u.buffer|
  {
    u.buffer[..u.length / 2]
  }

  /**
   * GET_LENGTH and GET_MAX_LENGTH: the character count is truncated to a
   * USHORT and doubled into a USHORT, and the maximum length is two bytes
   * more, again as a USHORT.
   */
  function ArgumentString(argument: string): (u: UnicodeString)
    ensures u.buffer == argument && u.length < TwoTo16 && u.maximumLength < TwoTo16
  {
    var length := Wrap16(2 * Wrap16(|argument|));
    UnicodeString(argument, length, Wrap16(length + 2))
  }

  /**
   * The length of an argument string counts its characters modulo 32768:
   * it describes the whole argument exactly when that is shorter than
   * 32768 characters.  The maximum length leaves room for the terminator,
   * except at 32767 characters, where it wraps to zero.
   */
  lemma ArgumentStringLength(argument: string)
    ensures ArgumentString(argument).length == 2 * (|argument| % 32768)
    ensures Text(ArgumentString(argument)) == argument[..|argument| % 32768]
    ensures Text(ArgumentString(argument)) == argument <==> |argument| < 32768
    ensures |argument| < 32767 ==> ArgumentString(argument).maximumLength == 2 * |argument| + 2
    ensures |argument| % 32768 == 32767 ==> ArgumentString(argument).maximumLength == 0
  {
    DoubledCount(|argument|);
  }

  /** Doubling a count truncated to a USHORT, and truncating again, keeps the count modulo 32768. */
  lemma DoubledCount(m: nat)
    ensures Wrap16(2 * Wrap16(m)) == 2 * (m % 32768)
  {
    var n := m % TwoTo16;
    assert m % 32768 == n % 32768;
    if n >= 32768 {
      assert 2 * n - TwoTo16 == 2 * (n - 32768);
    }
  }

  // ---------------------------------------------------------------------------
  // Optional arguments
  // ---------------------------------------------------------------------------

  /**
   * The text an optional argument offers the extractors: its counted
   * characters after a leading "--", or nothing when it is at most two
   * characters long (a Length of at most 4 bytes) or does not start with
   * two dashes.
   */
  function OptionText(argument: string): (text: Option<string>)
  {
    var u := ArgumentString(argument);
    ArgumentStringLength(argument);
    if u.length <= 4 then None
    else if argument[0] == '-' && argument[1] == '-' then Some(argument[2..u.length / 2])
    else None
  }

  /** An argument shorter than 32768 characters is offered exactly when it is "--" followed by a non-empty text. */
  lemma OptionTextStripsDashes(argument: string)
    requires |argument| < 32768
    ensures OptionText(argument).Some? <==> |argument| > 2 && argument[..2] == "--"
    ensures OptionText(argument).Some? ==> "--" + OptionText(argument).value == argument
  {
    ArgumentStringLength(argument);
    if |argument| > 2 && argument[..2] == "--" {
      assert argument[0] == '-' && argument[1] == '-';
      assert argument == argument[..2] + argument[2..];
    }
  }

  /**
   * What the environment decides for the extractors: the Rtl routines, the
   * best coverage type table, and, by argument position, whether the value
   * array of a keys subset and the grown parameter array can be allocated.
   */
  datatype Environment = Environment(
    rtl: Rtl,
    coverageTypeNames: seq<string>,
    subsetAllocationSucceeds: nat -> bool,
    arrayAllocationSucceeds: nat -> bool)

  /** The four flag words, each as the set of its flags that are TRUE. */
  datatype FlagWords = FlagWords(
    contextBulkCreate: set<string>,
    keysLoad: set<string>,
    tableCreate: set<string>,
    tableCompile: set<string>)

  /** The flag words and the table create parameters, as the optional arguments build them. */
  datatype Options = Options(flags: FlagWords, parameters: seq<Parameter>, freed: seq<ParameterValue>)

  /** Every flag word zero and no table create parameters. */
  const NoOptions: Options := Options(FlagWords({}, {}, {}, {}), [], [])

  /** The flags that are TRUE are among the flags of their word. */
  predicate KnownFlags(f: FlagWords)
  {
    && (forall name :: name in f.contextBulkCreate ==> name in ContextBulkCreateFlagNames)
    && (forall name :: name in f.keysLoad ==> name in KeysLoadFlagNames)
    && (forall name :: name in f.tableCreate ==> name in TableCreateFlagNames)
    && f.tableCompile == {}
  }

  /**
   * The TRY_EXTRACT_ARG chain: the flag extractors in their fixed order,
   * context bulk create, keys load, table create, table compile.  The first
   * to return S_OK claims the argument with the flags it set; None when all
   * return S_FALSE.
   */
  function ClaimFlag(rtl: Rtl, text: string, f: FlagWords): (r: Option<FlagWords>)
    ensures KnownFlags(f) && r.Some? ==> KnownFlags(r.value)
    ensures r.Some? ==>
              && f.contextBulkCreate <= r.value.contextBulkCreate && f.keysLoad <= r.value.keysLoad
              && f.tableCreate <= r.value.tableCreate && f.tableCompile == r.value.tableCompile
    ensures r.None? <==>
              && (forall k :: 0 <= k < |ContextBulkCreateFlagNames| ==> !rtl.equal(text, ContextBulkCreateFlagNames[k]))
              && (forall k :: 0 <= k < |KeysLoadFlagNames| ==> !rtl.equal(text, KeysLoadFlagNames[k]))
              && !rtl.equal(text, "FirstGraphWins")
              && (forall k :: 0 <= k < |TableCreateFlagNames| ==> !rtl.equal(text, TableCreateFlagNames[k]))
  {
    var bulk := ContextBulkCreateFlags(rtl, text, f.contextBulkCreate);
    var keys := KeysLoadFlags(rtl, text, f.keysLoad);
    var create := TableCreateFlags(rtl, text, f.tableCreate);
    var compile := TableCompileFlags(rtl, text, f.tableCompile);
    assert ContextBulkCreateFlagNames == ["SkipTestAfterCreate", "Compile"];
    assert KeysLoadFlagNames == ["TryLargePagesForKeysData", "SkipKeysVerification"];
    if bulk.status == Ok then Some(f.(contextBulkCreate := bulk.flags))
    else if keys.status == Ok then Some(f.(keysLoad := keys.flags))
    else if create.status == Ok then Some(f.(tableCreate := create.flags))
    else if compile.status == Ok then Some(f.(tableCompile := compile.flags))
    else None
  }

  /**
   * The chain's order decides a claim: exactly one word changes, by the
   * first flag of the first word in chain order that names the argument;
   * FirstGraphWins is claimed by the table create word and changes nothing.
   */
  lemma ClaimFlagOrder(rtl: Rtl, text: string, f: FlagWords)
    ensures var b := FirstEqualIndex(rtl, text, ContextBulkCreateFlagNames);
            b < |ContextBulkCreateFlagNames| ==>
              ClaimFlag(rtl, text, f) == Some(f.(contextBulkCreate := f.contextBulkCreate + {ContextBulkCreateFlagNames[b]}))
    ensures var b := FirstEqualIndex(rtl, text, ContextBulkCreateFlagNames);
            var k := FirstEqualIndex(rtl, text, KeysLoadFlagNames);
            b == |ContextBulkCreateFlagNames| && k < |KeysLoadFlagNames| ==>
              ClaimFlag(rtl, text, f) == Some(f.(keysLoad := f.keysLoad + {KeysLoadFlagNames[k]}))
    ensures var b := FirstEqualIndex(rtl, text, ContextBulkCreateFlagNames);
            var k := FirstEqualIndex(rtl, text, KeysLoadFlagNames);
            b == |ContextBulkCreateFlagNames| && k == |KeysLoadFlagNames| && rtl.equal(text, "FirstGraphWins") ==>
              ClaimFlag(rtl, text, f) == Some(f)
    ensures var b := FirstEqualIndex(rtl, text, ContextBulkCreateFlagNames);
            var k := FirstEqualIndex(rtl, text, KeysLoadFlagNames);
            var c := FirstEqualIndex(rtl, text, TableCreateFlagNames);
            b == |ContextBulkCreateFlagNames| && k == |KeysLoadFlagNames| && !rtl.equal(text, "FirstGraphWins")
            && c < |TableCreateFlagNames| ==>
              ClaimFlag(rtl, text, f) == Some(f.(tableCreate := f.tableCreate + {TableCreateFlagNames[c]}))
  {
    var b := FirstEqualIndex(rtl, text, ContextBulkCreateFlagNames);
    var k := FirstEqualIndex(rtl, text, KeysLoadFlagNames);
    assert ContextBulkCreateFlags(rtl, text, f.contextBulkCreate)
        == SetFlagIfEqual(rtl, text, ContextBulkCreateFlagNames, f.contextBulkCreate);
    if b == |ContextBulkCreateFlagNames| {
      assert KeysLoadFlags(rtl, text, f.keysLoad) == SetFlagIfEqual(rtl, text, KeysLoadFlagNames, f.keysLoad);
    }
  }

  /**
   * One optional argument's text offered to the extractors: the flag
   * extractors first, then, when none claims it, the table create
   * parameters, whose status is the result.
   */
  function OfferOption(env: Environment, position: nat, text: string, o: Options): (r: (HResult, Options))
    ensures KnownFlags(o.flags) ==> KnownFlags(r.1.flags)
    ensures Failed(r.0) ==> r.1 == o
    ensures |r.1.parameters| <= |o.parameters| + 1
    ensures o.freed <= r.1.freed
  {
    match ClaimFlag(env.rtl, text, o.flags)
    case Some(flags) => (Ok, o.(flags := flags))
    case None =>
      var u := ExtractInto(env.rtl, env.coverageTypeNames, env.subsetAllocationSucceeds(position),
                           env.arrayAllocationSucceeds(position), text, o.parameters);
      (u.status, o.(parameters := u.entries, freed := o.freed + u.freed))
  }

  /** The first argument after the six positional ones. */
  const FirstOption: nat := 7

  /**
   * The loop over the optional arguments before position `n`: the status
   * starts as S_OK with no flag set and no parameter, and each argument the
   * loop reaches moves it on as AfterArgument says.
   */
  function ProcessOptions(env: Environment, argv: seq<string>, n: nat): (r: (HResult, Options))
    requires FirstOption <= n <= |argv|
    decreases n, 2
  {
    if n == FirstOption then (Ok, NoOptions) else AfterArgument(env, argv, n - 1)
  }

  /**
   * The outcome once the loop has looked at argument `k`: a failure of an
   * earlier argument has already ended the loop, an argument without a
   * leading "--" is skipped, and any other is offered to the extractors.
   */
  function AfterArgument(env: Environment, argv: seq<string>, k: nat): (r: (HResult, Options))
    requires FirstOption <= k < |argv|
    decreases k + 1, 1
  {
    var previous := ProcessOptions(env, argv, k);
    if Failed(previous.0) || OptionText(argv[k]).None? then previous
    else Offered(env, argv, k)
  }

  /** Argument `k`, an option, offered to the extractors with the options the earlier arguments left. */
  function Offered(env: Environment, argv: seq<string>, k: nat): (r: (HResult, Options))
    requires FirstOption <= k < |argv| && OptionText(argv[k]).Some?
    decreases k + 1, 0
  {
    OfferOption(env, k, OptionText(argv[k]).value, ProcessOptions(env, argv, k).1)
  }

  /** One more argument: skipped, or offered while no failure has ended the loop. */
  lemma ProcessOptionsStep(env: Environment, argv: seq<string>, n: nat)
    requires FirstOption <= n < |argv|
    ensures var previous := ProcessOptions(env, argv, n);
            ProcessOptions(env, argv, n + 1)
            == if Failed(previous.0) || OptionText(argv[n]).None? then previous
               else OfferOption(env, n, OptionText(argv[n]).value, previous.1)
  {
    assert ProcessOptions(env, argv, n + 1) == AfterArgument(env, argv, n);
    if OptionText(argv[n]).Some? {
      assert Offered(env, argv, n) == OfferOption(env, n, OptionText(argv[n]).value, ProcessOptions(env, argv, n).1);
    }
  }

  /** The loop only ever sets flags of the word an extractor owns, and adds at most one parameter per argument. */
  lemma {:induction false} OptionsAreWellFormed(env: Environment, argv: seq<string>, n: nat)
    requires FirstOption <= n <= |argv|
    ensures KnownFlags(ProcessOptions(env, argv, n).1.flags)
    ensures |ProcessOptions(env, argv, n).1.parameters| <= n - FirstOption
    decreases n
  {
    if n > FirstOption {
      OptionsAreWellFormed(env, argv, n - 1);
      ProcessOptionsStep(env, argv, n - 1);
    }
  }

  /** Once an argument fails, the later ones are not looked at: the outcome stays that of the failure. */
  lemma {:induction false} FailureEndsTheLoop(env: Environment, argv: seq<string>, n: nat, m: nat)
    requires FirstOption <= n <= m <= |argv|
    requires Failed(ProcessOptions(env, argv, n).0)
    ensures ProcessOptions(env, argv, m) == ProcessOptions(env, argv, n)
    decreases m
  {
    if m > n {
      FailureEndsTheLoop(env, argv, n, m - 1);
    }
  }

  /** Where the loop stops, whether at the end or at a failure, its outcome is that of the whole argument list. */
  lemma LoopExit(env: Environment, argv: seq<string>, n: nat, status: HResult, o: Options)
    requires FirstOption <= n <= |argv| && (n == |argv| || Failed(status))
    requires (status, o) == ProcessOptions(env, argv, n)
    ensures (status, o) == ProcessOptions(env, argv, |argv|)
  {
    if n < |argv| {
      FailureEndsTheLoop(env, argv, n, |argv|);
    }
  }

  /** Every status the loop can end with: S_OK, S_FALSE, or the failure of an argument. */
  lemma {:induction false} OptionsStatus(env: Environment, argv: seq<string>, n: nat)
    requires FirstOption <= n <= |argv|
    ensures var status := ProcessOptions(env, argv, n).0;
            status in {Ok, False, ConversionFailed, KeysSubsetNotSorted, DuplicateValueInKeysSubset, OutOfMemory,
                       InvalidKeysSubset, InvalidMainWorkPriority, InvalidFileWorkPriority}
    decreases n
  {
    if n > FirstOption {
      OptionsStatus(env, argv, n - 1);
      ProcessOptionsStep(env, argv, n - 1);
      var previous := ProcessOptions(env, argv, n - 1);
      if !Failed(previous.0) && OptionText(argv[n - 1]).Some? {
        var text := OptionText(argv[n - 1]).value;
        var x := ExtractParameter(env.rtl, env.coverageTypeNames, env.subsetAllocationSucceeds(n - 1), text);
        assert x.Ignored? ==> x.status in {False, Ok, ConversionFailed};
      }
    }
  }

  /**
   * A failing argument leaves the parameters the earlier arguments added in
   * place: the loop's failure outcome still holds them.
   */
  lemma {:induction false} FailureKeepsParameters(env: Environment, argv: seq<string>, n: nat)
    requires FirstOption < n <= |argv|
    requires !Failed(ProcessOptions(env, argv, n - 1).0)
    requires Failed(ProcessOptions(env, argv, n).0)
    ensures ProcessOptions(env, argv, n).1.parameters == ProcessOptions(env, argv, n - 1).1.parameters
  {
    ProcessOptionsStep(env, argv, n - 1);
  }

  // ---------------------------------------------------------------------------
  // The extractor
  // ---------------------------------------------------------------------------

  /** Which of the extractor's pointer arguments are non-NULL. */
  datatype Pointers = Pointers(
    context: bool, argv: bool, keysDirectory: bool, baseOutputDirectory: bool,
    algorithmId: bool, hashFunctionId: bool, maskFunctionId: bool, maximumConcurrency: bool,
    contextBulkCreateFlags: bool, keysLoadFlags: bool, tableCreateFlags: bool, tableCompileFlags: bool,
    numberOfTableCreateParameters: bool, tableCreateParameters: bool)

  predicate AllPresent(p: Pointers)
  {
    && p.context && p.argv && p.keysDirectory && p.baseOutputDirectory
    && p.algorithmId && p.hashFunctionId && p.maskFunctionId && p.maximumConcurrency
    && p.contextBulkCreateFlags && p.keysLoadFlags && p.tableCreateFlags && p.tableCompileFlags
    && p.numberOfTableCreateParameters && p.tableCreateParameters
  }

  /** A positional argument converted in base 10, as VALIDATE_ID and the concurrency conversion see it. */
  function Decimal(rtl: Rtl, argument: string): Option<uint32>
  {
    ArgumentStringLength(argument);
    rtl.toInteger(Text(ArgumentString(argument)), 10)
  }

  /**
   * VALIDATE_ID: the ID must convert and be valid, or the matching error is
   * returned.  The positional arguments are checked in order and the first
   * failure is the result.
   */
  function PositionalStatus(rtl: Rtl, argv: seq<string>): (status: HResult)
    requires |argv| >= FirstOption
    ensures status in {Ok, InvalidAlgorithmId, InvalidHashFunctionId, InvalidMaskFunctionId, InvalidMaximumConcurrency}
    ensures status == Ok <==>
              && Decimal(rtl, argv[3]).Some? && Constants.IsValidAlgorithmId(Decimal(rtl, argv[3]).value)
              && Decimal(rtl, argv[4]).Some? && Constants.IsValidHashFunctionId(Decimal(rtl, argv[4]).value)
              && Decimal(rtl, argv[5]).Some? && Constants.IsValidMaskFunctionId(Decimal(rtl, argv[5]).value)
              && Decimal(rtl, argv[6]).Some?
  {
    var algorithm := Decimal(rtl, argv[3]);
    var hash := Decimal(rtl, argv[4]);
    var mask := Decimal(rtl, argv[5]);
    if algorithm.None? || !Constants.IsValidAlgorithmId(algorithm.value) then InvalidAlgorithmId
    else if hash.None? || !Constants.IsValidHashFunctionId(hash.value) then InvalidHashFunctionId
    else if mask.None? || !Constants.IsValidMaskFunctionId(mask.value) then InvalidMaskFunctionId
    else if Decimal(rtl, argv[6]).None? then InvalidMaximumConcurrency
    else Ok
  }

  /**
   * On failure the extractor is meant to free the table create parameters
   * and clear their count.  As written it frees the address of the caller's
   * pointer variable instead of the array and only clears the count: the
   * array pointer is left as it was, so a non-empty array survives with a
   * count of zero, which the consistency check of the parameter extractor
   * rejects, and its keys subsets are never freed.
   */
  method FailureCleanupAsWritten(parameters: TableCreateParameters)
    modifies parameters
    ensures parameters.count == 0
    ensures parameters.parameters == old(parameters.parameters) && parameters.freed == old(parameters.freed)
    ensures old(parameters.parameters).Some? ==> !parameters.Consistent()
  {
    parameters.count := 0;
  }

  /** The intended cleanup: destroy the parameters (freeing their keys subsets and the array) and clear the count. */
  method FailureCleanup(parameters: TableCreateParameters)
    requires parameters.Consistent()
    modifies parameters
    ensures parameters.Consistent() && parameters.count == 0 && parameters.parameters == None
    ensures parameters.freed == old(parameters.freed) + OwnedValues(old(parameters.Entries()))
  {
    var entries := parameters.Entries();
    var _ := parameters.Destroy();
    assert entries[..|entries|] == entries;
    parameters.count := 0;
  }

  /**
   * What the cleanup as written leaves behind: once an array exists, the
   * next parameter extraction on the same pair of variables stops at the
   * invariant check.
   */
  method ExtractAfterCleanupAsWritten(parameters: TableCreateParameters, rtl: Rtl, coverageTypeNames: seq<string>,
                                      subsetAllocationSucceeds: bool, arrayAllocationSucceeds: bool, argument: string)
    returns (status: HResult)
    requires parameters.Consistent() && parameters.parameters.Some?
    modifies parameters
    ensures status == InvariantCheckFailed
  {
    FailureCleanupAsWritten(parameters);
    status := parameters.TryExtract(rtl, coverageTypeNames, subsetAllocationSucceeds, arrayAllocationSucceeds, argument);
  }

  /** After the intended cleanup the pair is empty again and the next extraction starts afresh. */
  method ExtractAfterCleanup(parameters: TableCreateParameters, rtl: Rtl, coverageTypeNames: seq<string>,
                             subsetAllocationSucceeds: bool, arrayAllocationSucceeds: bool, argument: string)
    returns (status: HResult)
    requires parameters.Consistent()
    modifies parameters
    ensures status == ExtractInto(rtl, coverageTypeNames, subsetAllocationSucceeds, arrayAllocationSucceeds,
                                  argument, []).status
    ensures parameters.Consistent()
  {
    FailureCleanup(parameters);
    status := parameters.TryExtract(rtl, coverageTypeNames, subsetAllocationSucceeds, arrayAllocationSucceeds, argument);
  }

  /** The caller's output variables. */
  class BulkCreateArguments {
    var keysDirectory: UnicodeString
    var baseOutputDirectory: UnicodeString
    var algorithmId: uint32
    var hashFunctionId: uint32
    var maskFunctionId: uint32
    var maximumConcurrency: uint32
    var flags: FlagWords
    const parameters: TableCreateParameters

    constructor (parameters: TableCreateParameters)
      ensures this.parameters == parameters
      ensures flags == NoOptions.flags
    {
      this.parameters := parameters;
      keysDirectory := UnicodeString([], 0, 0);
      baseOutputDirectory := UnicodeString([], 0, 0);
      algorithmId, hashFunctionId, maskFunctionId, maximumConcurrency := 0, 0, 0, 0;
      flags := NoOptions.flags;
    }

    /** The optional-argument part of the output variables. */
    ghost function CurrentOptions(freedBefore: seq<ParameterValue>): Options
      reads this, parameters
      requires freedBefore <= parameters.freed
    {
      Options(flags, parameters.Entries(), parameters.freed[|freedBefore|..])
    }

    /**
     * PerfectHashContextExtractBulkCreateArgsFromArgvW.  A NULL pointer
     * argument is E_POINTER and fewer than seven arguments an invalid
     * argument count, both before anything is written.  Positions 1 and 2
     * are the keys and output directories; 3 to 5 the algorithm, hash and
     * mask function IDs, each stored as soon as it converts and then
     * validated; 6 the maximum concurrency.  The flags and parameters are
     * then zeroed and every later argument offered in turn; on failure the
     * cleanup as written clears the count and leaves the array in place.
     */
    method ExtractFromArgv(env: Environment, pointers: Pointers, argv: seq<string>) returns (status: HResult)
      modifies this, parameters
      ensures !AllPresent(pointers) || |argv| < FirstOption ==>
                && status == (if AllPresent(pointers) then InvalidNumArgs else Pointer)
                && unchanged(this) && unchanged(parameters)
      ensures AllPresent(pointers) && |argv| >= FirstOption ==>
                && keysDirectory == ArgumentString(argv[1])
                && baseOutputDirectory == ArgumentString(argv[2])
                && (Decimal(env.rtl, argv[3]).Some? ==> algorithmId == Decimal(env.rtl, argv[3]).value)
      ensures AllPresent(pointers) && |argv| >= FirstOption && PositionalStatus(env.rtl, argv) != Ok ==>
                status == PositionalStatus(env.rtl, argv)
      ensures AllPresent(pointers) && |argv| >= FirstOption && PositionalStatus(env.rtl, argv) == Ok ==>
                var r := ProcessOptions(env, argv, |argv|);
                && status == r.0
                && hashFunctionId == Decimal(env.rtl, argv[4]).value
                && maskFunctionId == Decimal(env.rtl, argv[5]).value
                && maximumConcurrency == Decimal(env.rtl, argv[6]).value
                && flags == r.1.flags
                && parameters.Entries() == r.1.parameters
                && parameters.freed == old(parameters.freed) + r.1.freed
                && (Failed(status) ==> parameters.count == 0)
                && (parameters.Consistent() <==> !Failed(status) || r.1.parameters == [])
    {
      if !AllPresent(pointers) {
        return Pointer;
      }
      if |argv| < FirstOption {
        return InvalidNumArgs;
      }
      status := ExtractPositional(env.rtl, argv);
      if status != Ok {
        return status;
      }
      status := ExtractOptions(env, argv);
    }

    /** Positions 1 to 6: the two directories, the three IDs and the maximum concurrency. */
    method ExtractPositional(rtl: Rtl, argv: seq<string>) returns (status: HResult)
      requires |argv| >= FirstOption
      modifies this
      ensures status == PositionalStatus(rtl, argv)
      ensures keysDirectory == ArgumentString(argv[1]) && baseOutputDirectory == ArgumentString(argv[2])
      ensures Decimal(rtl, argv[3]).Some? ==> algorithmId == Decimal(rtl, argv[3]).value
      ensures status == Ok ==>
                && hashFunctionId == Decimal(rtl, argv[4]).value
                && maskFunctionId == Decimal(rtl, argv[5]).value
                && maximumConcurrency == Decimal(rtl, argv[6]).value
      ensures flags == old(flags)
    {
      keysDirectory := ArgumentString(argv[1]);
      baseOutputDirectory := ArgumentString(argv[2]);

      var algorithm := Decimal(rtl, argv[3]);
      if algorithm.Some? {
        algorithmId := algorithm.value;
      }
      if algorithm.None? || !Constants.IsValidAlgorithmId(algorithmId) {
        return InvalidAlgorithmId;
      }
      var hash := Decimal(rtl, argv[4]);
      if hash.Some? {
        hashFunctionId := hash.value;
      }
      if hash.None? || !Constants.IsValidHashFunctionId(hashFunctionId) {
        return InvalidHashFunctionId;
      }
      var mask := Decimal(rtl, argv[5]);
      if mask.Some? {
        maskFunctionId := mask.value;
      }
      if mask.None? || !Constants.IsValidMaskFunctionId(maskFunctionId) {
        return InvalidMaskFunctionId;
      }
      var concurrency := Decimal(rtl, argv[6]);
      if concurrency.None? {
        return InvalidMaximumConcurrency;
      }
      maximumConcurrency := concurrency.value;
      status := Ok;
    }

    /** The optional arguments up to the cleanup: zero the flags and the parameters, then offer every argument from position 7 on. */
    method OfferAllOptions(env: Environment, argv: seq<string>) returns (status: HResult)
      requires |argv| >= FirstOption
      modifies this`flags, parameters
      ensures var r := ProcessOptions(env, argv, |argv|);
              && status == r.0
              && flags == r.1.flags
              && parameters.Consistent()
              && parameters.Entries() == r.1.parameters
              && parameters.freed == old(parameters.freed) + r.1.freed
    {
      flags := NoOptions.flags;
      parameters.count := 0;
      parameters.parameters := None;
      ghost var freedBefore := parameters.freed;
      assert CurrentOptions(freedBefore) == NoOptions;

      status := OfferArguments(env, argv, freedBefore);
      ghost var r := ProcessOptions(env, argv, |argv|);
      assert status == r.0 && CurrentOptions(freedBefore) == r.1;
      assert parameters.freed == freedBefore + r.1.freed;
    }

    /**
     * The optional arguments as written: on failure only the count is
     * cleared, so parameters added before the failing argument leave a
     * non-NULL array with a zero count and their keys subsets unfreed.
     */
    method ExtractOptions(env: Environment, argv: seq<string>) returns (status: HResult)
      requires |argv| >= FirstOption
      modifies this`flags, parameters
      ensures var r := ProcessOptions(env, argv, |argv|);
              && status == r.0
              && flags == r.1.flags
              && parameters.Entries() == r.1.parameters
              && parameters.freed == old(parameters.freed) + r.1.freed
              && (Failed(status) ==> parameters.count == 0)
              && (parameters.Consistent() <==> !Failed(status) || r.1.parameters == [])
    {
      status := OfferAllOptions(env, argv);
      if Failed(status) {
        FailureCleanupAsWritten(parameters);
      }
    }

    /**
     * The optional arguments as intended: on failure the parameters are
     * destroyed, their keys subsets freed, and the count cleared.
     */
    method ExtractOptionsIntended(env: Environment, argv: seq<string>) returns (status: HResult)
      requires |argv| >= FirstOption
      modifies this`flags, parameters
      ensures var r := ProcessOptions(env, argv, |argv|);
              && status == r.0
              && flags == r.1.flags
              && parameters.Consistent()
              && (Failed(status) ==>
                    && parameters.parameters == None
                    && parameters.freed == old(parameters.freed) + r.1.freed + OwnedValues(r.1.parameters))
              && (!Failed(status) ==>
                    parameters.Entries() == r.1.parameters && parameters.freed == old(parameters.freed) + r.1.freed)
    {
      status := OfferAllOptions(env, argv);
      if Failed(status) {
        FailureCleanup(parameters);
      }
    }

    /** The argument loop: every option in turn, until one of them fails. */
    method OfferArguments(env: Environment, argv: seq<string>, ghost freedBefore: seq<ParameterValue>)
      returns (status: HResult)
      requires |argv| >= FirstOption
      requires parameters.Consistent() && freedBefore <= parameters.freed
      requires CurrentOptions(freedBefore) == NoOptions
      modifies this`flags, parameters
      ensures parameters.Consistent() && freedBefore <= parameters.freed
      ensures (status, CurrentOptions(freedBefore)) == ProcessOptions(env, argv, |argv|)
    {
      status := Ok;
      var current := FirstOption;
      while current < |argv| && !Failed(status)
        invariant FirstOption <= current <= |argv|
        invariant parameters.Consistent()
        invariant freedBefore <= parameters.freed
        invariant (status, CurrentOptions(freedBefore)) == ProcessOptions(env, argv, current)
      {
        status := OfferArgument(env, argv, current, status, freedBefore);
        current := current + 1;
      }
      LoopExit(env, argv, current, status, CurrentOptions(freedBefore));
    }

    /** One iteration of the argument loop: arguments without a leading "--" are skipped. */
    method OfferArgument(env: Environment, argv: seq<string>, current: nat, previous: HResult,
                         ghost freedBefore: seq<ParameterValue>)
      returns (status: HResult)
      requires FirstOption <= current < |argv|
      requires parameters.Consistent() && freedBefore <= parameters.freed
      requires !Failed(previous) && (previous, CurrentOptions(freedBefore)) == ProcessOptions(env, argv, current)
      modifies this`flags, parameters
      ensures parameters.Consistent() && freedBefore <= parameters.freed
      ensures (status, CurrentOptions(freedBefore)) == ProcessOptions(env, argv, current + 1)
    {
      ProcessOptionsStep(env, argv, current);
      status := previous;
      var text := OptionText(argv[current]);
      if text.Some? {
        status := OfferToExtractors(env, current, text.value, freedBefore);
      }
    }

    /** The flag extractors' chain for one argument, then the parameter extractor. */
    method OfferToExtractors(env: Environment, position: nat, text: string, ghost freedBefore: seq<ParameterValue>)
      returns (status: HResult)
      requires parameters.Consistent() && freedBefore <= parameters.freed
      modifies this`flags, parameters
      ensures parameters.Consistent() && freedBefore <= parameters.freed
      ensures (status, CurrentOptions(freedBefore)) == OfferOption(env, position, text, old(CurrentOptions(freedBefore)))
    {
      var claimed := ClaimFlag(env.rtl, text, flags);
      if claimed.Some? {
        flags := claimed.value;
        return Ok;
      }
      status := OfferToParameters(env, position, text, freedBefore);
    }

    /** The parameter extractor's part of OfferToExtractors, once no flag extractor claimed the text. */
    method OfferToParameters(env: Environment, position: nat, text: string, ghost freedBefore: seq<ParameterValue>)
      returns (status: HResult)
      requires parameters.Consistent() && freedBefore <= parameters.freed
      modifies parameters
      ensures parameters.Consistent() && freedBefore <= parameters.freed
      ensures var o := old(CurrentOptions(freedBefore));
              var u := ExtractInto(env.rtl, env.coverageTypeNames, env.subsetAllocationSucceeds(position),
                                   env.arrayAllocationSucceeds(position), text, o.parameters);
              status == u.status && CurrentOptions(freedBefore) == o.(parameters := u.entries, freed := o.freed + u.freed)
    {
      ghost var freedEarlier := parameters.freed;
      status := parameters.TryExtract(env.rtl, env.coverageTypeNames, env.subsetAllocationSucceeds(position),
                                      env.arrayAllocationSucceeds(position), text);
      assert parameters.freed[|freedBefore|..] == freedEarlier[|freedBefore|..] + (parameters.freed[|freedEarlier|..]);
    }
  }

  // ---------------------------------------------------------------------------
  // Paths
  // ---------------------------------------------------------------------------

  /**
   * The search pattern `<keys directory>\*.keys`.  Its allocation size is
   * the directory's byte length plus the suffix's plus two characters (the
   * slash and the terminator), computed in 32 bits; a size that does not fit
   * in 16 bits is PH_E_STRING_BUFFER_OVERFLOW.  The maximum length is the
   * allocation size and the length two bytes less.
   */
  function WildcardPath(directory: UnicodeString): (r: Option<UnicodeString>)
    requires directory.length % 2 == 0 && directory.length / 2 <= |directory.buffer| && directory.length < TwoTo16
    ensures r.None? <==> directory.length + 2 * |Constants.KeysWildcardSuffix| + 4 >= TwoTo16
    ensures r.Some? ==>
              && r.value.length == 2 * (|Text(directory)| + 1 + |Constants.KeysWildcardSuffix|)
              && r.value.maximumLength == r.value.length + 2
              && r.value.length / 2 < |r.value.buffer| && r.value.buffer[r.value.length / 2] == '\0'
              && Text(r.value) == Text(directory) + ['\\'] + Constants.KeysWildcardSuffix
  {
    var allocSize := directory.length + 2 * |Constants.KeysWildcardSuffix| + 4;
    if allocSize >= TwoTo16 then None
    else
      var path := Text(directory) + ['\\'] + Constants.KeysWildcardSuffix;
      var buffer := path + ['\0'];
      assert buffer[..|path|] == path;
      Some(UnicodeString(buffer, allocSize - 2, allocSize))
  }

  /** The position of the first terminator in a NUL-terminated name. */
  function NulIndex(name: seq<char>): (i: nat)
    requires '\0' in name
    ensures i < |name| && name[i] == '\0' && '\0' !in name[..i]
  {
    if name[0] == '\0' then 0
    else
      var i := 1 + NulIndex(name[1..]);
      assert name[..i] == [name[0]] + name[1..][..i - 1];
      i
  }

  /**
   * A keys file's path, composed in a buffer at character `start`: the
   * directory and a slash are written once, then each found file name is
   * copied character by character up to its terminator, and the terminator
   * written.  The length is the byte offset of the terminator, truncated to
   * a USHORT, and the maximum length two bytes more.  What lies before
   * `start` (the wildcard path, in bulk create) is left alone.
   */
  method ComposeKeysPath(directory: UnicodeString, fileName: seq<char>, buffer: array<char>, start: nat)
    returns (path: UnicodeString)
    requires directory.length % 2 == 0 && directory.length / 2 <= |directory.buffer|
    requires '\0' in fileName
    requires start + directory.length / 2 + 1 + NulIndex(fileName) + 1 <= buffer.Length
    modifies buffer
    ensures buffer[..start] == old(buffer[..start])
    ensures var written := Text(directory) + ['\\'] + fileName[..NulIndex(fileName)];
            && buffer[start..start + |written| + 1] == written + ['\0']
            && path.length == Wrap16(2 * |written|) && path.maximumLength == Wrap16(path.length + 2)
            && path.buffer == buffer[start..]
            && (2 * |written| < TwoTo16 ==>
                  path.length / 2 < |path.buffer| && path.buffer[path.length / 2] == '\0' && Text(path) == written)
  {
    var baseLength := WriteKeysBase(directory, buffer, start);
    ghost var based := buffer[..start + baseLength];
    var end := CopyFileName(fileName, buffer, start + baseLength);
    KeysPathLayout(buffer[..], based, start, baseLength, end, Text(directory) + ['\\'], fileName[..NulIndex(fileName)]);
    var length := Wrap16(2 * (end - start));
    assert 2 * (end - start) < TwoTo16 ==> length / 2 == end - start;
    path := UnicodeString(buffer[start..], length, Wrap16(length + 2));
  }

  /**
   * The slices of a composed keys path: the base written first and the
   * file name written after it make up the path, from `start` to its
   * terminator, and what precedes `start` is what was there before.
   */
  lemma KeysPathLayout(b: seq<char>, based: seq<char>, start: nat, baseLength: nat, end: nat,
                       base: seq<char>, name: seq<char>)
    requires start + baseLength <= end < |b| && |based| == start + baseLength
    requires based[start..] == base && b[..start + baseLength] == based
    requires b[start + baseLength..end + 1] == name + ['\0']
    ensures b[..start] == based[..start]
    ensures b[start..end + 1] == base + name + ['\0']
    ensures |base + name| == end - start
    ensures b[start..][..end - start] == base + name && b[start..][end - start] == '\0'
  {
    assert b[start..start + baseLength] == based[start..];
    assert b[start..end + 1] == b[start..start + baseLength] + b[start + baseLength..end + 1];
    assert b[start..][..end - start] == b[start..end + 1][..end - start];
  }

  /**
   * The inner copy: the found file name, character by character up to its
   * terminator, from character `from` on, then the terminator.  Returns the
   * position of the terminator written; what precedes `from` is left alone.
   */
  method CopyFileName(fileName: seq<char>, buffer: array<char>, from: nat) returns (end: nat)
    requires '\0' in fileName && from + NulIndex(fileName) + 1 <= buffer.Length
    modifies buffer
    ensures end == from + NulIndex(fileName)
    ensures buffer[..from] == old(buffer[..from])
    ensures buffer[from..end + 1] == fileName[..NulIndex(fileName)] + ['\0']
  {
    ghost var before := buffer[..from];
    var source := 0;
    end := from;
    while fileName[source] != '\0'
      invariant source <= NulIndex(fileName)
      invariant end == from + source
      invariant buffer[..from] == before
      invariant buffer[from..end] == fileName[..source]
      decreases NulIndex(fileName) - source
    {
      buffer[end] := fileName[source];
      assert fileName[..source + 1] == fileName[..source] + [fileName[source]];
      assert buffer[from..end + 1] == buffer[from..end] + [fileName[source]];
      assert buffer[..from] == before by {
        assert forall k :: 0 <= k < from ==> buffer[..from][k] == before[k];
      }
      end := end + 1;
      source := source + 1;
    }
    buffer[end] := '\0';
    assert buffer[from..end + 1] == buffer[from..end] + ['\0'];
    assert buffer[..from] == before by {
      assert forall k :: 0 <= k < from ==> buffer[..from][k] == before[k];
    }
  }

  /**
   * The part of a keys path written once: the directory and a slash, from
   * character `start`, leaving what precedes it alone.  Returns the length
   * written, the base every file name is appended to.
   */
  method WriteKeysBase(directory: UnicodeString, buffer: array<char>, start: nat) returns (baseLength: nat)
    requires directory.length % 2 == 0 && directory.length / 2 <= |directory.buffer|
    requires start + directory.length / 2 + 1 <= buffer.Length
    modifies buffer
    ensures baseLength == directory.length / 2 + 1
    ensures buffer[..start] == old(buffer[..start])
    ensures buffer[start..start + baseLength] == Text(directory) + ['\\']
  {
    var base := directory.length / 2;
    var prefix := Text(directory);
    forall k | start <= k < start + base {
      buffer[k] := prefix[k - start];
    }
    buffer[start + base] := '\\';
    baseLength := base + 1;
    assert buffer[start..start + baseLength] == prefix + ['\\'];
  }

  // ---------------------------------------------------------------------------
  // The shared path buffer
  // ---------------------------------------------------------------------------

  /** The buffer both paths are built in: (1 << 16) bytes, counted in characters. */
  const PathBufferChars: nat := TwoTo16 / 2

  /** A found file name holds at most MAX_PATH characters, its terminator included. */
  const MaxPath: nat := 260

  /** The wildcard path's allocation in bytes, as the overflow check computes it. */
  function WildcardAllocSize(directory: UnicodeString): nat
  {
    directory.length + 2 * |Constants.KeysWildcardSuffix| + 4
  }

  /**
   * Where the keys path starts in the shared buffer, in characters: past the
   * wildcard path's allocation, aligned up to 16 bytes.
   */
  function KeysPathStart(directory: UnicodeString): (start: nat)
    ensures WildcardAllocSize(directory) <= 2 * start < WildcardAllocSize(directory) + 16
  {
    var aligned := Bits.AlignUp(WildcardAllocSize(directory), 16);
    assert aligned % 2 == 0 by {
      assert aligned == 16 * (aligned / 16);
    }
    aligned / 2
  }

  /** One past the keys path's terminator, for a file name of `nameLength` characters. */
  function KeysPathEnd(directory: UnicodeString, nameLength: nat): nat
  {
    KeysPathStart(directory) + directory.length / 2 + 1 + nameLength + 1
  }

  /**
   * As written, the only check on the directory is the wildcard path's
   * 16-bit allocation size, which admits directories whose keys path runs
   * past the end of the shared buffer: from 32,760 bytes (16,380
   * characters) on, even an empty file name's terminator lies beyond it.
   */
  lemma WildcardCheckAdmitsOverrun(directory: UnicodeString, nameLength: nat)
    requires directory.length % 2 == 0 && directory.length / 2 <= |directory.buffer|
    requires 32760 <= directory.length && WildcardAllocSize(directory) < TwoTo16
    ensures WildcardPath(directory).Some?
    ensures KeysPathEnd(directory, nameLength) > PathBufferChars
  {
  }

  /**
   * The check the shared buffer evidently needs: the wildcard path's size
   * fits in 16 bits and, after its aligned allocation, the keys path for the
   * longest file name FindFirstFileW can return still ends in the buffer.
   */
  predicate PathsFit(directory: UnicodeString)
  {
    WildcardAllocSize(directory) < TwoTo16 && KeysPathEnd(directory, MaxPath - 1) <= PathBufferChars
  }

  /** The corrected check admits exactly the directories of at most 32,496 bytes. */
  lemma PathsFitExactly(directory: UnicodeString)
    requires directory.length % 2 == 0
    ensures PathsFit(directory) <==> directory.length <= 32496
  {
    var half := directory.length / 2;
    var start := KeysPathStart(directory);
    var blocks := Bits.AlignUp(WildcardAllocSize(directory), 16) / 16;
    assert directory.length == 2 * half;
    assert start == 8 * blocks;
    assert 2 * half + 16 <= 16 * blocks < 2 * half + 32;
    assert KeysPathEnd(directory, MaxPath - 1) == 8 * blocks + half + 261;
    if half <= 16248 {
      assert blocks <= 2032;
    } else {
      assert blocks >= 2033;
    }
  }

  /**
   * Both paths in one shared buffer, with the corrected check:
   * PH_E_STRING_BUFFER_OVERFLOW (None) unless PathsFit; otherwise the
   * wildcard path exists and the keys path, composed after its aligned
   * allocation, ends inside the buffer with its exact text and length.
   */
  method ComposePathsChecked(directory: UnicodeString, fileName: seq<char>, buffer: array<char>)
    returns (path: Option<UnicodeString>)
    requires directory.length % 2 == 0 && directory.length / 2 <= |directory.buffer| && directory.length < TwoTo16
    requires '\0' in fileName && NulIndex(fileName) < MaxPath
    requires buffer.Length == PathBufferChars
    modifies buffer
    ensures path.None? <==> !PathsFit(directory)
    ensures path.Some? ==> WildcardPath(directory).Some?
    ensures path.Some? ==>
              var written := Text(directory) + ['\\'] + fileName[..NulIndex(fileName)];
              && path.value.length == 2 * |written| && path.value.maximumLength == path.value.length + 2
              && path.value.length / 2 < |path.value.buffer| && path.value.buffer[path.value.length / 2] == '\0'
              && Text(path.value) == written
  {
    if !PathsFit(directory) {
      return None;
    }
    var keysPath := ComposeKeysPath(directory, fileName, buffer, KeysPathStart(directory));
    return Some(keysPath);
  }
}
