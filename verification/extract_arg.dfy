/**
 * Command-line argument extraction: the flag extractors, which set the one
 * flag an argument names; the comma-separated value-array parser behind
 * --KeysSubset; and the table create parameters, whose array is updated or
 * grown in place as `--Name=Value` arguments are recognised.
 *
 * String comparison and integer conversion are the Rtl's routines and are
 * not modelled character by character: they are the fields of `Rtl`.
 */
module ExtractArg {
  import opened Common

  /**
   * The Rtl string routines the extractors call: case-insensitive equality
   * (RtlEqualUnicodeString with CaseInSensitive TRUE), case-insensitive
   * prefix test (RtlPrefixUnicodeString: is the first string a prefix of the
   * second) and conversion of a string to a ULONG in a base, 0 meaning the
   * base is taken from the string's prefix (RtlUnicodeStringToInteger).
   */
  datatype Rtl = Rtl(
    equal: (string, string) -> bool,
    isPrefix: (string, string) -> bool,
    toInteger: (string, nat) -> Option<uint32>)

  // ---------------------------------------------------------------------------
  // Flag extractors
  // ---------------------------------------------------------------------------

  /** A flags structure is modelled by the names of the flags that are TRUE. */
  datatype FlagsResult = FlagsResult(status: HResult, flags: set<string>)

  /** The position of the first name equal to `s`, or |names| when none is. */
  function FirstEqualIndex(rtl: Rtl, s: string, names: seq<string>): (i: nat)
    ensures i <= |names|
    ensures i < |names| ==> rtl.equal(s, names[i])
    ensures forall j :: 0 <= j < i ==> !rtl.equal(s, names[j])
  {
    if names == [] then 0
    else if rtl.equal(s, names[0]) then 0
    else 1 + FirstEqualIndex(rtl, s, names[1..])
  }

  /**
   * A run of SET_FLAG_AND_RETURN_IF_EQUAL tests: the first name the argument
   * equals is set and S_OK returned; with no match, S_FALSE and nothing set.
   */
  function SetFlagIfEqual(rtl: Rtl, argument: string, names: seq<string>, flags: set<string>): (r: FlagsResult)
    ensures r.status == Ok || r.status == False
    ensures r.status == False <==> forall i :: 0 <= i < |names| ==> !rtl.equal(argument, names[i])
    ensures r.status == False ==> r.flags == flags
    ensures r.status == Ok ==> r.flags == flags + {names[FirstEqualIndex(rtl, argument, names)]}
    ensures r.status == Ok ==>
      exists i :: 0 <= i < |names| && rtl.equal(argument, names[i]) && r.flags == flags + {names[i]}
              && forall j :: 0 <= j < i ==> !rtl.equal(argument, names[j])
  {
    var i := FirstEqualIndex(rtl, argument, names);
    if i == |names| then FlagsResult(False, flags) else FlagsResult(Ok, flags + {names[i]})
  }

  const ContextBulkCreateFlagNames: seq<string> := ["SkipTestAfterCreate", "Compile"]
  const ContextTableCreateFlagNames: seq<string> := ["SkipTestAfterCreate", "Compile"]
  const KeysLoadFlagNames: seq<string> := ["TryLargePagesForKeysData", "SkipKeysVerification"]
  const TableLoadFlagNames: seq<string> := ["TryLargePagesForTableData", "TryLargePagesForValuesArray"]

  /** The table create flags, in the order the extractor compares them. */
  const TableCreateFlagNames: seq<string> := [
    "FindBestGraph", "SkipGraphVerification", "CreateOnly", "TryLargePagesForTableData",
    "TryLargePagesForValuesArray", "IgnorePreviousTableSize",
    "IncludeNumberOfTableResizeEventsInOutputPath", "IncludeNumberOfTableElementsInOutputPath",
    "NoFileIo", "Silent", "Paranoid", "SkipMemoryCoverageInFirstGraphWinsMode",
    "TryLargePagesForGraphTableData", "TryLargePagesForGraphEdgeAndVertexArrays"]

  function ContextBulkCreateFlags(rtl: Rtl, argument: string, flags: set<string>): (r: FlagsResult)
    ensures r.status == Ok || r.status == False
    ensures r.status == False ==> r.flags == flags
    ensures rtl.equal(argument, "SkipTestAfterCreate") ==> r == FlagsResult(Ok, flags + {"SkipTestAfterCreate"})
    ensures r.status == Ok ==>
              (rtl.equal(argument, "SkipTestAfterCreate") && r.flags == flags + {"SkipTestAfterCreate"})
              || (rtl.equal(argument, "Compile") && r.flags == flags + {"Compile"})
    ensures r.status == False <==> !rtl.equal(argument, "SkipTestAfterCreate") && !rtl.equal(argument, "Compile")
  {
    assert ContextBulkCreateFlagNames[0] == "SkipTestAfterCreate" && ContextBulkCreateFlagNames[1] == "Compile";
    SetFlagIfEqual(rtl, argument, ContextBulkCreateFlagNames, flags)
  }

  function ContextTableCreateFlags(rtl: Rtl, argument: string, flags: set<string>): (r: FlagsResult)
    ensures r.status == Ok || r.status == False
    ensures r.status == False ==> r.flags == flags
    ensures rtl.equal(argument, "SkipTestAfterCreate") ==> r == FlagsResult(Ok, flags + {"SkipTestAfterCreate"})
    ensures r.status == Ok ==>
              (rtl.equal(argument, "SkipTestAfterCreate") && r.flags == flags + {"SkipTestAfterCreate"})
              || (rtl.equal(argument, "Compile") && r.flags == flags + {"Compile"})
    ensures r.status == False <==> !rtl.equal(argument, "SkipTestAfterCreate") && !rtl.equal(argument, "Compile")
  {
    assert ContextTableCreateFlagNames[0] == "SkipTestAfterCreate" && ContextTableCreateFlagNames[1] == "Compile";
    SetFlagIfEqual(rtl, argument, ContextTableCreateFlagNames, flags)
  }

  function KeysLoadFlags(rtl: Rtl, argument: string, flags: set<string>): (r: FlagsResult)
    ensures r.status == Ok || r.status == False
    ensures r.status == False ==> r.flags == flags
    ensures rtl.equal(argument, "TryLargePagesForKeysData") ==>
              r == FlagsResult(Ok, flags + {"TryLargePagesForKeysData"})
    ensures r.status == Ok ==>
              (rtl.equal(argument, "TryLargePagesForKeysData") && r.flags == flags + {"TryLargePagesForKeysData"})
              || (rtl.equal(argument, "SkipKeysVerification") && r.flags == flags + {"SkipKeysVerification"})
    ensures r.status == False <==>
              !rtl.equal(argument, "TryLargePagesForKeysData") && !rtl.equal(argument, "SkipKeysVerification")
  {
    assert KeysLoadFlagNames[0] == "TryLargePagesForKeysData" && KeysLoadFlagNames[1] == "SkipKeysVerification";
    SetFlagIfEqual(rtl, argument, KeysLoadFlagNames, flags)
  }

  /**
   * FirstGraphWins is the default mode: it is accepted with S_OK and sets
   * nothing.  Otherwise the first of the fourteen table create flags the
   * argument equals is set.
   */
  function TableCreateFlags(rtl: Rtl, argument: string, flags: set<string>): (r: FlagsResult)
    ensures r.status == Ok || r.status == False
    ensures rtl.equal(argument, "FirstGraphWins") ==> r == FlagsResult(Ok, flags)
    ensures r.status == False <==>
              !rtl.equal(argument, "FirstGraphWins")
              && forall i :: 0 <= i < |TableCreateFlagNames| ==> !rtl.equal(argument, TableCreateFlagNames[i])
    ensures r.status == False ==> r.flags == flags
    ensures r.status == Ok && !rtl.equal(argument, "FirstGraphWins") ==>
              exists i :: 0 <= i < |TableCreateFlagNames| && rtl.equal(argument, TableCreateFlagNames[i])
                          && (forall j :: 0 <= j < i ==> !rtl.equal(argument, TableCreateFlagNames[j]))
                          && r.flags == flags + {TableCreateFlagNames[i]}
  {
    if rtl.equal(argument, "FirstGraphWins") then FlagsResult(Ok, flags)
    else SetFlagIfEqual(rtl, argument, TableCreateFlagNames, flags)
  }

  function TableLoadFlags(rtl: Rtl, argument: string, flags: set<string>): (r: FlagsResult)
    ensures r.status == Ok || r.status == False
    ensures r.status == False ==> r.flags == flags
    ensures rtl.equal(argument, "TryLargePagesForTableData") ==>
              r == FlagsResult(Ok, flags + {"TryLargePagesForTableData"})
    ensures r.status == Ok ==>
              (rtl.equal(argument, "TryLargePagesForTableData") && r.flags == flags + {"TryLargePagesForTableData"})
              || (rtl.equal(argument, "TryLargePagesForValuesArray") && r.flags == flags + {"TryLargePagesForValuesArray"})
    ensures r.status == False <==>
              !rtl.equal(argument, "TryLargePagesForTableData") && !rtl.equal(argument, "TryLargePagesForValuesArray")
  {
    assert TableLoadFlagNames[0] == "TryLargePagesForTableData" && TableLoadFlagNames[1] == "TryLargePagesForValuesArray";
    SetFlagIfEqual(rtl, argument, TableLoadFlagNames, flags)
  }

  /** There are no table compile flags to extract: S_FALSE, nothing set. */
  function TableCompileFlags(rtl: Rtl, argument: string, flags: set<string>): (r: FlagsResult)
    ensures r.status == False && r.flags == flags
  {
    FlagsResult(False, flags)
  }

  // ---------------------------------------------------------------------------
  // Comma-separated value arrays: the fields of a string
  // ---------------------------------------------------------------------------

  function Last<T>(xs: seq<T>): T
    requires xs != []
  {
    xs[|xs| - 1]
  }

  function AllButLast<T>(xs: seq<T>): seq<T>
    requires xs != []
  {
    xs[..|xs| - 1]
  }

  function CommaCount(s: string): nat
  {
    if s == [] then 0 else CommaCount(AllButLast(s)) + (if Last(s) == ',' then 1 else 0)
  }

  /** The fields of `s` between its commas: one more than there are commas, some maybe empty. */
  function Fields(s: string): (fields: seq<string>)
    ensures |fields| == CommaCount(s) + 1
  {
    if s == [] then [[]]
    else
      var previous := Fields(AllButLast(s));
      if Last(s) == ',' then previous + [[]]
      else AllButLast(previous) + [Last(previous) + [Last(s)]]
  }

  /** The fields joined back together with commas between them. */
  function Join(fields: seq<string>): string
    requires fields != []
  {
    if |fields| == 1 then fields[0] else Join(AllButLast(fields)) + [','] + Last(fields)
  }

  lemma {:induction false} JoinExtendsLast(fields: seq<string>, c: char)
    requires fields != []
    ensures Join(AllButLast(fields) + [Last(fields) + [c]]) == Join(fields) + [c]
  {
    var extended := AllButLast(fields) + [Last(fields) + [c]];
    assert AllButLast(extended) == AllButLast(fields);
  }

  /** Splitting at the commas loses nothing: joining the fields gives the string back. */
  lemma {:induction false} FieldsJoin(s: string)
    ensures Join(Fields(s)) == s
  {
    if s != [] {
      var u := AllButLast(s);
      FieldsJoin(u);
      assert s == u + [Last(s)];
      var previous := Fields(u);
      if Last(s) == ',' {
        var fields := previous + [[]];
        assert Fields(s) == fields;
        assert Join(fields) == Join(previous) + [','] by {
          assert AllButLast(fields) == previous;
        }
      } else {
        assert Fields(s) == AllButLast(previous) + [Last(previous) + [Last(s)]];
        JoinExtendsLast(previous, Last(s));
      }
    }
  }

  /** No field holds a comma: the commas are exactly the separators. */
  lemma {:induction false} FieldsAreCommaFree(s: string)
    ensures forall k :: 0 <= k < |Fields(s)| ==> ',' !in Fields(s)[k]
  {
    if s != [] {
      var u := AllButLast(s);
      FieldsAreCommaFree(u);
      assert s == u + [Last(s)];
      var previous := Fields(u);
      if Last(s) == ',' {
        assert Fields(s) == previous + [[]];
      } else {
        assert Fields(s) == AllButLast(previous) + [Last(previous) + [Last(s)]];
        ExtendedLastIsCommaFree(previous, Last(s));
      }
    }
  }

  /** Appending a character other than a comma to the last field keeps every field comma-free. */
  lemma ExtendedLastIsCommaFree(fields: seq<string>, c: char)
    requires fields != [] && c != ','
    requires forall k :: 0 <= k < |fields| ==> ',' !in fields[k]
    ensures var extended := AllButLast(fields) + [Last(fields) + [c]];
      forall k :: 0 <= k < |extended| ==> ',' !in extended[k]
  {
    var extended := AllButLast(fields) + [Last(fields) + [c]];
    forall k | 0 <= k < |extended|
      ensures ',' !in extended[k]
    {
      if k < |extended| - 1 {
        assert extended[k] == fields[k];
      }
    }
  }

  /** The field after the last comma, which the parser may still be reading. */
  function OpenField(s: string): string
  {
    Last(Fields(s))
  }

  /** The non-empty fields of a list, in order. */
  function NonEmpty(fields: seq<string>): (r: seq<string>)
    ensures |r| <= |fields|
  {
    if fields == [] then []
    else NonEmpty(AllButLast(fields)) + (if Last(fields) != [] then [Last(fields)] else [])
  }

  /** No field of the list is empty. */
  predicate NoneEmpty(fields: seq<string>)
  {
    forall k :: 0 <= k < |fields| ==> fields[k] != []
  }

  lemma NoneEmptyAppend(init: seq<string>, field: string)
    ensures NoneEmpty(init + [field]) <==> NoneEmpty(init) && field != []
  {
    var fields := init + [field];
    assert fields[|init|] == field;
    assert forall k :: 0 <= k < |init| ==> fields[k] == init[k];
  }

  /** Nothing is dropped exactly when no field is empty. */
  lemma {:induction false} NonEmptyKeepsAll(fields: seq<string>)
    ensures |NonEmpty(fields)| == |fields| <==> NoneEmpty(fields)
    ensures |NonEmpty(fields)| == |fields| ==> NonEmpty(fields) == fields
  {
    if fields != [] {
      var init := AllButLast(fields);
      NonEmptyKeepsAll(init);
      assert fields == init + [Last(fields)];
      NoneEmptyAppend(init, Last(fields));
      if Last(fields) == [] {
        assert |NonEmpty(fields)| == |NonEmpty(init)| <= |init| < |fields|;
      } else {
        assert NonEmpty(fields) == NonEmpty(init) + [Last(fields)];
      }
    }
  }

  /** The non-empty fields that a comma has closed. */
  function ClosedFields(s: string): seq<string>
  {
    NonEmpty(AllButLast(Fields(s)))
  }

  /**
   * The fields the parser converts: every non-empty field followed by a
   * comma, and the last field only when it is at least two characters long,
   * because the last-character test fires only in the LookingForComma state.
   */
  function ParsedFields(s: string): seq<string>
  {
    ClosedFields(s) + (if |OpenField(s)| >= 2 then [OpenField(s)] else [])
  }

  // ---------------------------------------------------------------------------
  // Comma-separated value arrays: conversion and the sorted/unique check
  // ---------------------------------------------------------------------------

  datatype Conversion = Converted(values: seq<uint32>) | Rejected(status: HResult)

  /** Converting one more field after `values` were accepted. */
  function ConvertNext(rtl: Rtl, ensureSortedAndUnique: bool, values: seq<uint32>, field: string): Conversion
  {
    match rtl.toInteger(field, 0)
    case None => Rejected(Fail)
    case Some(v) =>
      if ensureSortedAndUnique && values != [] && Last(values) > v then Rejected(NotSorted)
      else if ensureSortedAndUnique && values != [] && Last(values) == v then Rejected(DuplicateDetected)
      else Converted(values + [v])
  }

  /** Converting the fields in order; the first failure decides the outcome. */
  function ConvertFields(rtl: Rtl, ensureSortedAndUnique: bool, fields: seq<string>): (c: Conversion)
    ensures c.Converted? ==> |c.values| == |fields|
    ensures c.Rejected? ==> c.status == Fail || (ensureSortedAndUnique && c.status in {NotSorted, DuplicateDetected})
  {
    if fields == [] then Converted([])
    else
      match ConvertFields(rtl, ensureSortedAndUnique, AllButLast(fields))
      case Rejected(status) => Rejected(status)
      case Converted(values) => ConvertNext(rtl, ensureSortedAndUnique, values, Last(fields))
  }

  /** Converting one field more: the fields before it, then that field. */
  lemma ConvertFieldsAppend(rtl: Rtl, e: bool, fields: seq<string>, field: string)
    ensures ConvertFields(rtl, e, fields + [field])
         == (var previous := ConvertFields(rtl, e, fields);
             if previous.Rejected? then previous else ConvertNext(rtl, e, previous.values, field))
  {
    assert AllButLast(fields + [field]) == fields;
  }

  /** A successful conversion holds each field's value, in input order, and is strictly ascending when checked. */
  lemma {:induction false} ConvertedValues(rtl: Rtl, ensureSortedAndUnique: bool, fields: seq<string>)
    requires ConvertFields(rtl, ensureSortedAndUnique, fields).Converted?
    ensures var values := ConvertFields(rtl, ensureSortedAndUnique, fields).values;
            forall k :: 0 <= k < |fields| ==> rtl.toInteger(fields[k], 0) == Some(values[k])
    ensures var values := ConvertFields(rtl, ensureSortedAndUnique, fields).values;
            ensureSortedAndUnique ==> forall j, k :: 0 <= j < k < |values| ==> values[j] < values[k]
  {
    if fields != [] {
      ConvertedValues(rtl, ensureSortedAndUnique, AllButLast(fields));
    }
  }

  datatype ValueArray = ValueArray(status: HResult, values: seq<uint32>)

  /**
   * What TryExtractValueArray yields for a string: S_FALSE without a comma,
   * E_OUTOFMEMORY when the array cannot be allocated, the first conversion
   * or ordering failure, E_FAIL when nothing was parsed, and
   * PH_E_INVARIANT_CHECK_FAILED when fewer values than commas + 1 were
   * parsed.  Only on S_OK is an array handed out.
   */
  function ValueArrayResult(rtl: Rtl, ensureSortedAndUnique: bool, allocationSucceeds: bool, s: string): (r: ValueArray)
    ensures r.status != Ok ==> r.values == []
    ensures r.status == Ok ==> |r.values| == CommaCount(s) + 1
    ensures r.status == False <==> CommaCount(s) == 0
  {
    if CommaCount(s) == 0 then ValueArray(False, [])
    else if !allocationSucceeds then ValueArray(OutOfMemory, [])
    else
      match ConvertFields(rtl, ensureSortedAndUnique, ParsedFields(s))
      case Rejected(status) => ValueArray(status, [])
      case Converted(values) =>
        if |values| == 0 then ValueArray(Fail, [])
        else if |values| != CommaCount(s) + 1 then ValueArray(InvariantCheckFailed, [])
        else ValueArray(Ok, values)
  }

  /**
   * An array is handed out exactly when the string has a comma, the array
   * can be allocated, no field before the last comma is empty, the last field
   * is at least two characters long and every field converts (in ascending
   * order when that is checked); the array then holds the value of every
   * comma-separated field, in order.
   */
  lemma ValueArraySucceeds(rtl: Rtl, ensureSortedAndUnique: bool, allocationSucceeds: bool, s: string)
    ensures var r := ValueArrayResult(rtl, ensureSortedAndUnique, allocationSucceeds, s);
            var fields := Fields(s);
            r.status == Ok
            <==> && CommaCount(s) > 0
                 && allocationSucceeds
                 && (forall k :: 0 <= k < |fields| - 1 ==> fields[k] != [])
                 && |Last(fields)| >= 2
                 && ConvertFields(rtl, ensureSortedAndUnique, fields).Converted?
    ensures var r := ValueArrayResult(rtl, ensureSortedAndUnique, allocationSucceeds, s);
            r.status == Ok ==> r.values == ConvertFields(rtl, ensureSortedAndUnique, Fields(s)).values
  {
    var fields := Fields(s);
    var closed := AllButLast(fields);
    NonEmptyKeepsAll(closed);
    assert fields == closed + [Last(fields)];
    assert NoneEmpty(closed) <==> forall k :: 0 <= k < |fields| - 1 ==> fields[k] != [] by {
      assert forall k :: 0 <= k < |closed| ==> closed[k] == fields[k];
    }
    var parsed := ParsedFields(s);
    if |NonEmpty(closed)| == |closed| && |Last(fields)| >= 2 {
      assert parsed == fields;
    } else {
      assert |parsed| < |fields|;
      var c := ConvertFields(rtl, ensureSortedAndUnique, parsed);
      assert c.Converted? ==> |c.values| != CommaCount(s) + 1;
    }
  }

  /** Every value handed out is the conversion of its field, and the values ascend strictly when that is checked. */
  lemma ValueArrayContents(rtl: Rtl, ensureSortedAndUnique: bool, allocationSucceeds: bool, s: string)
    requires ValueArrayResult(rtl, ensureSortedAndUnique, allocationSucceeds, s).status == Ok
    ensures var values := ValueArrayResult(rtl, ensureSortedAndUnique, allocationSucceeds, s).values;
            forall k :: 0 <= k < |values| ==> rtl.toInteger(Fields(s)[k], 0) == Some(values[k])
    ensures var values := ValueArrayResult(rtl, ensureSortedAndUnique, allocationSucceeds, s).values;
            ensureSortedAndUnique ==> forall j, k :: 0 <= j < k < |values| ==> values[j] < values[k]
  {
    ValueArraySucceeds(rtl, ensureSortedAndUnique, allocationSucceeds, s);
    ConvertedValues(rtl, ensureSortedAndUnique, Fields(s));
  }

  /**
   * A one-character last value is never parsed: the last-character test
   * applies only once a value is open, so "1,2" yields one value for two
   * expected and fails the invariant check.
   */
  lemma ShortLastValueIsRejected(rtl: Rtl, ensureSortedAndUnique: bool)
    requires rtl.toInteger("1", 0).Some?
    ensures ValueArrayResult(rtl, ensureSortedAndUnique, true, "1,2").status == InvariantCheckFailed
  {
    ShortListFields();
    assert ConvertFields(rtl, ensureSortedAndUnique, ["1"]).Converted?;
  }

  /** The fields of "1,2", and the single one of them the scan keeps. */
  lemma ShortListFields()
    ensures Fields("1,2") == ["1", "2"]
    ensures ParsedFields("1,2") == ["1"]
  {
    assert Fields("1") == ["1"] by {
      assert AllButLast("1") == "";
      assert Fields("") == [""];
      assert AllButLast([""]) == [] && Last([""]) + "1" == "1";
    }
    assert Fields("1,") == ["1", ""] by {
      assert AllButLast("1,") == "1";
    }
    assert Fields("1,2") == ["1", "2"] by {
      assert AllButLast("1,2") == "1,";
      assert AllButLast(["1", ""]) == ["1"] && Last(["1", ""]) + "2" == "2";
    }
  }

  /**
   * A list whose fields are both long enough to be parsed but descend is
   * rejected by the ordering check: "30,12" is PH_E_NOT_SORTED, which a
   * keys subset reports as PH_E_KEYS_SUBSET_NOT_SORTED.
   */
  lemma DescendingValuesAreRejected(rtl: Rtl)
    requires rtl.toInteger("30", 0) == Some(30) && rtl.toInteger("12", 0) == Some(12)
    ensures ValueArrayResult(rtl, true, true, "30,12").status == NotSorted
    ensures KeysSubsetError(ValueArrayResult(rtl, true, true, "30,12").status) == KeysSubsetNotSorted
  {
    DescendingListFields();
    assert ConvertFields(rtl, true, ["30"]) == Converted([30]) by {
      assert AllButLast(["30"]) == [] && Last(["30"]) == "30";
    }
    assert AllButLast(["30", "12"]) == ["30"] && Last(["30", "12"]) == "12";
  }

  /** The fields of "30,12", both of which the scan keeps. */
  lemma DescendingListFields()
    ensures Fields("30,12") == ["30", "12"]
    ensures ParsedFields("30,12") == ["30", "12"]
  {
    TwoFields("30", "12");
    assert "30" + [','] + "12" == "30,12";
    assert NonEmpty(["30"]) == ["30"] by {
      assert AllButLast(["30"]) == [] && Last(["30"]) == "30";
    }
  }

  /** Two comma-free strings joined by a comma are exactly those two fields. */
  lemma TwoFields(a: string, b: string)
    requires ',' !in a && ',' !in b
    ensures Fields(a + [','] + b) == [a, b]
  {
    assert Fields(a) == [a] by {
      FieldsExtendLast([], a);
      assert [] + a == a;
    }
    assert Fields(a + [',']) == [a, []] by {
      FieldsAppendChar(a, ',');
    }
    FieldsExtendLast(a + [','], b);
    assert AllButLast([a, []]) == [a] && Last([a, []]) + b == b;
  }

  /** Comma-free text extends the last field and nothing else. */
  lemma {:induction false} FieldsExtendLast(t: string, u: string)
    requires ',' !in u
    ensures Fields(t + u) == AllButLast(Fields(t)) + [Last(Fields(t)) + u]
    decreases |u|
  {
    if u == [] {
      assert t + u == t;
      assert Last(Fields(t)) + u == Last(Fields(t));
    } else {
      var v, c := AllButLast(u), Last(u);
      assert v + [c] == u;
      assert ',' !in v by {
        assert forall k :: 0 <= k < |v| ==> v[k] == u[k];
      }
      var previous, open := AllButLast(Fields(t)), Last(Fields(t));
      FieldsExtendLast(t, v);
      assert Fields(t + v) == previous + [open + v];
      assert t + u == (t + v) + [c];
      FieldsAppendChar(t + v, c);
      assert AllButLast(previous + [open + v]) == previous && Last(previous + [open + v]) == open + v;
      assert (open + v) + [c] == open + u;
    }
  }

  /** One more character: a comma opens a new field, any other extends the last one. */
  lemma FieldsAppendChar(t: string, c: char)
    ensures Fields(t + [c])
         == if c == ',' then Fields(t) + [[]] else AllButLast(Fields(t)) + [Last(Fields(t)) + [c]]
  {
    assert AllButLast(t + [c]) == t;
  }

  // ---------------------------------------------------------------------------
  // Facts about the fields, for the parser's loop
  // ---------------------------------------------------------------------------

  lemma FieldsStep(t: string, c: char)
    ensures OpenField(t + [c]) == (if c == ',' then [] else OpenField(t) + [c])
    ensures ClosedFields(t + [c])
         == ClosedFields(t) + (if c == ',' && OpenField(t) != [] then [OpenField(t)] else [])
    ensures CommaCount(t + [c]) == CommaCount(t) + (if c == ',' then 1 else 0)
  {
    assert AllButLast(t + [c]) == t;
    var previous := Fields(t);
    if c == ',' {
      assert AllButLast(Fields(t + [c])) == previous;
    } else {
      assert AllButLast(Fields(t + [c])) == AllButLast(previous);
    }
  }

  /** One more character: a comma closes the open field, any other extends it. */
  lemma OpenFieldAppend(t: string, c: char)
    ensures OpenField(t + [c]) == (if c == ',' then [] else OpenField(t) + [c])
  {
    assert AllButLast(t + [c]) == t;
  }

  /** One more character adds one comma or none. */
  lemma CommaCountAppend(t: string, c: char)
    ensures CommaCount(t + [c]) == CommaCount(t) + (if c == ',' then 1 else 0)
  {
    assert AllButLast(t + [c]) == t;
  }

  /** The open field is the tail of the string after its last comma. */
  lemma {:induction false} OpenFieldIsSuffix(t: string)
    ensures |OpenField(t)| <= |t|
    ensures OpenField(t) == t[|t| - |OpenField(t)|..]
  {
    if t != [] {
      var u, c := AllButLast(t), Last(t);
      OpenFieldIsSuffix(u);
      OpenFieldAppend(u, c);
      assert t == u + [c];
      if c != ',' {
        var open := OpenField(u);
        assert t[|t| - |open| - 1..] == u[|u| - |open|..] + [c];
      }
    }
  }

  lemma {:induction false} CommaCountGrows(s: string, i: nat)
    requires i <= |s|
    ensures CommaCount(s[..i]) <= CommaCount(s)
    decreases |s| - i
  {
    if i < |s| {
      CommaCountGrows(s, i + 1);
      CommaCountAppend(s[..i], s[i]);
      assert s[..i + 1] == s[..i] + [s[i]];
    } else {
      assert s[..i] == s;
    }
  }

  lemma PrefixTransitive<T>(a: seq<T>, b: seq<T>, c: seq<T>)
    requires a <= b && b <= c
    ensures a <= c
  {
    assert a == c[..|a|] by {
      assert b == c[..|b|];
      assert a == b[..|a|];
    }
  }

  lemma ClosedFieldsExtend(t: string, c: char)
    ensures ClosedFields(t) <= ClosedFields(t + [c])
  {
    FieldsStep(t, c);
    var longer := ClosedFields(t + [c]);
    assert longer[..|ClosedFields(t)|] == ClosedFields(t);
  }

  lemma {:induction false} ClosedFieldsGrow(s: string, i: nat)
    requires i <= |s|
    ensures ClosedFields(s[..i]) <= ClosedFields(s)
    decreases |s| - i
  {
    if i < |s| {
      ClosedFieldsGrow(s, i + 1);
      assert s[..i + 1] == s[..i] + [s[i]];
      ClosedFieldsExtend(s[..i], s[i]);
      PrefixTransitive(ClosedFields(s[..i]), ClosedFields(s[..i + 1]), ClosedFields(s));
    } else {
      assert s[..i] == s;
    }
  }

  lemma {:induction false} RejectionPersists(rtl: Rtl, e: bool, fields: seq<string>, more: seq<string>)
    requires fields <= more
    requires ConvertFields(rtl, e, fields).Rejected?
    ensures ConvertFields(rtl, e, more) == ConvertFields(rtl, e, fields)
    decreases |more|
  {
    if |more| > |fields| {
      assert fields <= AllButLast(more);
      RejectionPersists(rtl, e, fields, AllButLast(more));
    } else {
      assert more == fields;
    }
  }

  /** The fields converted once the first `i` characters have been scanned. */
  ghost function ScannedFields(s: string, i: nat): seq<string>
    requires i <= |s|
  {
    if i < |s| then ClosedFields(s[..i]) else ParsedFields(s)
  }

  /** Whether the character at `i` completes a value: a closing comma, or the last character of one. */
  ghost predicate CompletesValue(s: string, i: nat)
    requires i < |s|
  {
    OpenField(s[..i]) != [] && (s[i] == ',' || i == |s| - 1)
  }

  /** One step of the scan: the field a completing character adds. */
  lemma ScannedFieldsStep(s: string, i: nat)
    requires i < |s|
    ensures ScannedFields(s, i + 1)
         == ScannedFields(s, i)
            + (if CompletesValue(s, i)
               then [if s[i] == ',' then OpenField(s[..i]) else OpenField(s[..i]) + [s[i]]]
               else [])
  {
    var t := s[..i];
    FieldsStep(t, s[i]);
    assert s[..i + 1] == t + [s[i]];
    if i + 1 == |s| {
      assert s[..i + 1] == s;
      if s[i] == ',' {
        assert OpenField(s) == [];
      } else {
        assert ClosedFields(s) == ClosedFields(t);
      }
    }
  }

  lemma OpenFieldStep(s: string, i: nat)
    requires i < |s|
    ensures OpenField(s[..i + 1]) == (if s[i] == ',' then [] else OpenField(s[..i]) + [s[i]])
  {
    OpenFieldAppend(s[..i], s[i]);
    assert s[..i + 1] == s[..i] + [s[i]];
  }

  /** The fields converted so far are the first of those converted in the end. */
  lemma ScannedFieldsArePrefix(s: string, i: nat)
    requires i <= |s|
    ensures ScannedFields(s, i) <= ParsedFields(s)
  {
    if i < |s| {
      ClosedFieldsGrow(s, i);
    }
  }

  /** A completing character never takes the count of fields past commas + 1. */
  lemma ScannedFieldsBound(s: string, i: nat)
    requires i < |s|
    ensures |ScannedFields(s, i)| + (if CompletesValue(s, i) then 1 else 0) <= CommaCount(s) + 1
  {
    var t := s[..i];
    assert ScannedFields(s, i) == ClosedFields(t);
    assert |ClosedFields(t)| <= CommaCount(t) by {
      assert |AllButLast(Fields(t))| == CommaCount(t);
    }
    var commas := CommaCount(s[..i + 1]);
    assert commas == CommaCount(t) + (if s[i] == ',' then 1 else 0) by {
      CommaCountAppend(t, s[i]);
      assert s[..i + 1] == t + [s[i]];
    }
    assert commas <= CommaCount(s) by {
      CommaCountGrows(s, i + 1);
    }
  }

  // ---------------------------------------------------------------------------
  // The parser
  // ---------------------------------------------------------------------------

  datatype ScanState = LookingForValue | LookingForComma

  /** The first loop of TryExtractValueArray: count the commas. */
  method CountCommas(input: string) returns (commas: nat)
    ensures commas == CommaCount(input)
  {
    commas := 0;
    for i := 0 to |input|
      invariant commas == CommaCount(input[..i])
    {
      CommaCountAppend(input[..i], input[i]);
      assert input[..i + 1] == input[..i] + [input[i]];
      if input[i] == ',' {
        commas := commas + 1;
      }
    }
    assert input[..|input|] == input;
  }

  /**
   * Converts one completed value, checks it against the one stored before it
   * when the values must be sorted and unique, and stores it at the cursor.
   */
  method StoreValue(rtl: Rtl, ensureSortedAndUnique: bool, buffer: array<uint32>, count: nat,
                    ghost parsed: seq<string>, field: string)
    returns (status: HResult)
    requires count == |parsed| < buffer.Length
    requires ConvertFields(rtl, ensureSortedAndUnique, parsed) == Converted(buffer[..count])
    modifies buffer
    ensures status == Ok ==> ConvertFields(rtl, ensureSortedAndUnique, parsed + [field]) == Converted(buffer[..count + 1])
    ensures status != Ok ==> ConvertFields(rtl, ensureSortedAndUnique, parsed + [field]) == Rejected(status)
    ensures status == Ok || status == Fail || status == NotSorted || status == DuplicateDetected
  {
    ConvertFieldsAppend(rtl, ensureSortedAndUnique, parsed, field);
    ghost var accepted := buffer[..count];
    var converted := rtl.toInteger(field, 0);
    if converted.None? {
      return Fail;
    }
    buffer[count] := converted.value;
    assert buffer[..count] == accepted;
    if ensureSortedAndUnique && count > 0 {
      var previous := buffer[count - 1];
      var current := buffer[count];
      assert previous == Last(accepted);
      if previous > current {
        return NotSorted;
      } else if previous == current {
        return DuplicateDetected;
      }
    }
    assert buffer[..count + 1] == accepted + [converted.value];
    return Ok;
  }

  /** The scanner's state after the first `i` characters: a value is open exactly when the open field is not empty. */
  ghost predicate ScanStateAt(input: string, i: nat, state: ScanState, valueStart: Option<nat>)
    requires i < |input|
  {
    && (valueStart.Some? <==> state == LookingForComma)
    && (state == LookingForComma <==> OpenField(input[..i]) != [])
    && (valueStart.Some? ==> valueStart.value <= i && input[valueStart.value..i] == OpenField(input[..i]))
  }

  /**
   * One character of the scan.  The last character completes a value only
   * while one is open (LookingForComma); a comma completes the open value,
   * if any.  A completed value is handed back, and the scanner goes back to
   * looking for a value.
   */
  method AdvanceScan(input: string, i: nat, state: ScanState, valueStart: Option<nat>)
    returns (nextState: ScanState, nextStart: Option<nat>, field: Option<string>)
    requires i < |input| && ScanStateAt(input, i, state, valueStart)
    ensures field.Some? <==> CompletesValue(input, i)
    ensures field.Some? ==> field.value == (if input[i] == ',' then OpenField(input[..i]) else OpenField(input[..i]) + [input[i]])
    ensures i + 1 < |input| ==> ScanStateAt(input, i + 1, nextState, nextStart)
  {
    OpenFieldStep(input, i);
    nextState, nextStart, field := state, valueStart, None;
    var isLastChar := i == |input| - 1;
    if isLastChar && state == LookingForComma && input[i] != ',' && valueStart.Some? {
      assert input[valueStart.value..i + 1] == input[valueStart.value..i] + [input[i]];
      field := Some(input[valueStart.value..i + 1]);
    } else if state == LookingForValue {
      if input[i] != ',' {
        nextStart, nextState := Some(i), LookingForComma;
        assert input[i..i + 1] == [input[i]];
      }
    } else if input[i] == ',' {
      field := Some(input[valueStart.value..i]);
    } else {
      assert input[valueStart.value..i + 1] == input[valueStart.value..i] + [input[i]];
    }
    if field.Some? {
      nextStart, nextState := None, LookingForValue;
    }
  }

  /**
   * The second loop of TryExtractValueArray: walk the string in two states,
   * writing each converted value at the cursor as its closing comma (or, in
   * LookingForComma, the last character) is reached.  On the first failure
   * the scan stops with that failure; otherwise `count` values were written.
   */
  method ScanValues(rtl: Rtl, input: string, ensureSortedAndUnique: bool, buffer: array<uint32>)
    returns (status: HResult, count: nat)
    requires buffer.Length == CommaCount(input) + 1
    modifies buffer
    ensures status == Ok || status == Fail || status == NotSorted || status == DuplicateDetected
    ensures status == Ok ==>
              count <= buffer.Length
              && ConvertFields(rtl, ensureSortedAndUnique, ParsedFields(input)) == Converted(buffer[..count])
    ensures status != Ok ==> ConvertFields(rtl, ensureSortedAndUnique, ParsedFields(input)) == Rejected(status)
  {
    var n := |input|;
    var state := LookingForValue;
    var valueStart: Option<nat> := None;
    count := 0;
    ghost var parsed: seq<string> := [];
    var i := 0;
    while i < n
      invariant 0 <= i <= n
      invariant i < n ==> ScanStateAt(input, i, state, valueStart)
      invariant parsed == ScannedFields(input, i)
      invariant count == |parsed| <= buffer.Length
      invariant ConvertFields(rtl, ensureSortedAndUnique, parsed) == Converted(buffer[..count])
    {
      status, state, valueStart, count, parsed :=
        ScanCharacter(rtl, input, ensureSortedAndUnique, buffer, i, state, valueStart, count, parsed);
      if status != Ok {
        return;
      }
      i := i + 1;
    }
    status := Ok;
  }

  /**
   * One iteration of the scan: advances the state machine over the character
   * at `i` and, when that character completes a value, converts and stores it.
   */
  method ScanCharacter(rtl: Rtl, input: string, ensureSortedAndUnique: bool, buffer: array<uint32>, i: nat,
                       state: ScanState, valueStart: Option<nat>, count: nat, ghost parsed: seq<string>)
    returns (status: HResult, nextState: ScanState, nextStart: Option<nat>, nextCount: nat,
             ghost nextParsed: seq<string>)
    requires i < |input| && ScanStateAt(input, i, state, valueStart)
    requires buffer.Length == CommaCount(input) + 1
    requires parsed == ScannedFields(input, i)
    requires count == |parsed| <= buffer.Length
    requires ConvertFields(rtl, ensureSortedAndUnique, parsed) == Converted(buffer[..count])
    modifies buffer
    ensures status == Ok || status == Fail || status == NotSorted || status == DuplicateDetected
    ensures status == Ok ==>
              (i + 1 < |input| ==> ScanStateAt(input, i + 1, nextState, nextStart))
              && nextParsed == ScannedFields(input, i + 1)
              && nextCount == |nextParsed| <= buffer.Length
              && ConvertFields(rtl, ensureSortedAndUnique, nextParsed) == Converted(buffer[..nextCount])
    ensures status != Ok ==> ConvertFields(rtl, ensureSortedAndUnique, ParsedFields(input)) == Rejected(status)
  {
    var field;
    nextState, nextStart, field := AdvanceScan(input, i, state, valueStart);
    ScanAdvances(input, i, field);
    status, nextCount, nextParsed := StoreField(rtl, input, ensureSortedAndUnique, buffer, i, count, parsed, field);
  }

  /** The storing half of one iteration: convert and store the value `field` completes, if any. */
  method StoreField(rtl: Rtl, input: string, ensureSortedAndUnique: bool, buffer: array<uint32>, i: nat,
                    count: nat, ghost parsed: seq<string>, field: Option<string>)
    returns (status: HResult, nextCount: nat, ghost nextParsed: seq<string>)
    requires i < |input|
    requires parsed == ScannedFields(input, i)
    requires ScannedFields(input, i + 1) == parsed + (if field.Some? then [field.value] else [])
    requires count == |parsed| <= buffer.Length
    requires field.Some? ==> count < buffer.Length
    requires ConvertFields(rtl, ensureSortedAndUnique, parsed) == Converted(buffer[..count])
    modifies buffer
    ensures status == Ok || status == Fail || status == NotSorted || status == DuplicateDetected
    ensures status == Ok ==>
              nextParsed == ScannedFields(input, i + 1)
              && nextCount == |nextParsed| <= buffer.Length
              && ConvertFields(rtl, ensureSortedAndUnique, nextParsed) == Converted(buffer[..nextCount])
    ensures status != Ok ==> ConvertFields(rtl, ensureSortedAndUnique, ParsedFields(input)) == Rejected(status)
  {
    nextCount, nextParsed := count, parsed;
    status := Ok;
    if field.Some? {
      nextParsed := parsed + [field.value];
      status := StoreValue(rtl, ensureSortedAndUnique, buffer, count, parsed, field.value);
      if status != Ok {
        RejectedScanIsFinal(rtl, ensureSortedAndUnique, input, i + 1, status);
        return;
      }
      nextCount := count + 1;
    }
  }

  /** What one character of the scan adds to the fields seen so far. */
  lemma ScanAdvances(input: string, i: nat, field: Option<string>)
    requires i < |input|
    requires field.Some? <==> CompletesValue(input, i)
    requires field.Some? ==> field.value == (if input[i] == ',' then OpenField(input[..i]) else OpenField(input[..i]) + [input[i]])
    ensures ScannedFields(input, i + 1) == ScannedFields(input, i) + (if field.Some? then [field.value] else [])
    ensures field.Some? ==> |ScannedFields(input, i)| < CommaCount(input) + 1
  {
    ScannedFieldsStep(input, i);
    ScannedFieldsBound(input, i);
  }

  /** A field the scan has rejected rejects the whole list. */
  lemma RejectedScanIsFinal(rtl: Rtl, e: bool, input: string, i: nat, status: HResult)
    requires i <= |input|
    requires ConvertFields(rtl, e, ScannedFields(input, i)) == Rejected(status)
    ensures ConvertFields(rtl, e, ParsedFields(input)) == Rejected(status)
  {
    ScannedFieldsArePrefix(input, i);
    RejectionPersists(rtl, e, ScannedFields(input, i), ParsedFields(input));
  }

  /**
   * TryExtractValueArray: count the commas, allocate commas + 1 values, scan
   * the string, then require that every one of them was parsed.
   */
  method TryExtractValueArray(rtl: Rtl, input: string, ensureSortedAndUnique: bool, allocationSucceeds: bool)
    returns (status: HResult, values: seq<uint32>)
    ensures ValueArray(status, values) == ValueArrayResult(rtl, ensureSortedAndUnique, allocationSucceeds, input)
  {
    var commas := CountCommas(input);
    if commas == 0 {
      return False, [];
    }
    if !allocationSucceeds {
      return OutOfMemory, [];
    }
    var buffer := new uint32[commas + 1](_ => 0);
    var count;
    status, count := ScanValues(rtl, input, ensureSortedAndUnique, buffer);
    if status != Ok {
      return status, [];
    }
    if count == 0 {
      return Fail, [];
    } else if count != commas + 1 {
      return InvariantCheckFailed, [];
    }
    return Ok, buffer[..count];
  }

  // ---------------------------------------------------------------------------
  // Table create parameters
  // ---------------------------------------------------------------------------

  datatype ParameterId =
    | AttemptsBeforeTableResize
    | MaxNumberOfTableResizes
    | BestCoverageAttempts
    | BestCoverageType
    | KeysSubset
    | MainWorkThreadpoolPriority
    | FileWorkThreadpoolPriority

  /** The threadpool callback priorities a priority parameter can name. */
  datatype Priority = High | Normal | Low

  /**
   * The value a parameter carries: a ULONG, the position of a best coverage
   * type in its table, the value array of a keys subset, or a priority.
   */
  datatype ParameterValue =
    | ULong(n: uint32)
    | CoverageType(index: nat)
    | ValueList(values: seq<uint32>)
    | CallbackPriority(priority: Priority)

  datatype Parameter = Parameter(id: ParameterId, value: ParameterValue)

  /** Only the keys subset's value array is owned by its parameter and freed with it. */
  predicate RequiresDeallocation(id: ParameterId)
  {
    id == KeysSubset
  }

  /** The position of the first '=' in an argument, if there is one. */
  function EqualsSign(argument: string): (r: Option<nat>)
    ensures r.None? <==> '=' !in argument
    ensures r.Some? ==> r.value < |argument| && argument[r.value] == '=' && '=' !in argument[..r.value]
  {
    if argument == [] then None
    else if argument[0] == '=' then Some(0)
    else
      match EqualsSign(argument[1..])
      case None => None
      case Some(i) =>
        assert argument[..i + 1] == [argument[0]] + argument[1..][..i];
        Some(i + 1)
  }

  /** What an argument yields: nothing recognised (with the status returned), a parameter to add, or an error. */
  datatype Extraction =
    | Ignored(status: HResult)
    | Add(parameter: Parameter)
    | Failure(error: HResult)

  /** The KeysSubset branch's renaming of the value-array parser's failures. */
  function KeysSubsetError(status: HResult): (error: HResult)
    requires status != Ok
    ensures error in {KeysSubsetNotSorted, DuplicateValueInKeysSubset, OutOfMemory, InvalidKeysSubset}
    ensures error == OutOfMemory <==> status == OutOfMemory
    ensures error == KeysSubsetNotSorted <==> status == NotSorted
    ensures error == DuplicateValueInKeysSubset <==> status == DuplicateDetected
  {
    if status == NotSorted then KeysSubsetNotSorted
    else if status == DuplicateDetected then DuplicateValueInKeysSubset
    else if status == OutOfMemory then OutOfMemory
    else InvalidKeysSubset
  }

  /** A threadpool priority value: High, Normal or Low (case-insensitively), anything else is `error`. */
  function PriorityParameter(rtl: Rtl, id: ParameterId, value: string, error: HResult): (r: Extraction)
    ensures r.Failure? <==> !rtl.equal(value, "High") && !rtl.equal(value, "Normal") && !rtl.equal(value, "Low")
    ensures r.Failure? ==> r.error == error
    ensures r.Add? ==> r.parameter.id == id && r.parameter.value.CallbackPriority?
    ensures r.Add? && r.parameter.value.priority == High ==> rtl.equal(value, "High")
    ensures r.Add? && r.parameter.value.priority == Normal ==> rtl.equal(value, "Normal")
    ensures r.Add? && r.parameter.value.priority == Low ==> rtl.equal(value, "Low")
    ensures !r.Ignored?
  {
    if rtl.equal(value, "High") then Add(Parameter(id, CallbackPriority(High)))
    else if rtl.equal(value, "Normal") then Add(Parameter(id, CallbackPriority(Normal)))
    else if rtl.equal(value, "Low") then Add(Parameter(id, CallbackPriority(Low)))
    else Failure(error)
  }

  /**
   * The recognition part of TryExtractArgTableCreateParameters.  Without an
   * '=' the argument is not a parameter (S_FALSE).  Otherwise the text after
   * the first '=' is the value, and the parameter names are tried in order
   * as case-insensitive prefixes of the argument: the three integer
   * parameters (only when the value converts in base 10), the best coverage
   * type (only when the value names one), the keys subset (a sorted, unique
   * value array, its failures renamed), then the two priorities.  When no
   * name claims the argument, the status of the base-10 conversion is what
   * is returned: S_OK if the value was an integer, its failure otherwise.
   * `coverageTypeNames` is the best coverage type table, in its order.
   */
  function ExtractParameter(rtl: Rtl, coverageTypeNames: seq<string>, allocationSucceeds: bool, argument: string)
    : (r: Extraction)
    ensures r == Ignored(False) <==> '=' !in argument
    ensures r.Ignored? ==> r.status in {False, Ok, ConversionFailed}
    ensures r.Add? || r.Failure? ==> '=' in argument
    ensures r.Failure? ==>
              r.error in {KeysSubsetNotSorted, DuplicateValueInKeysSubset, OutOfMemory, InvalidKeysSubset,
                          InvalidMainWorkPriority, InvalidFileWorkPriority}
    ensures r.Add? && r.parameter.id == BestCoverageType ==>
              r.parameter.value.CoverageType? && r.parameter.value.index < |coverageTypeNames|
    ensures r.Add? && r.parameter.id == KeysSubset ==>
              var subset := ValueArrayResult(rtl, true, allocationSucceeds, argument[EqualsSign(argument).value + 1..]);
              subset.status == Ok && r.parameter.value == ValueList(subset.values)
  {
    match EqualsSign(argument)
    case None => Ignored(False)
    case Some(i) =>
      var value := argument[i + 1..];
      var integer := rtl.toInteger(value, 10);
      var coverage := FirstEqualIndex(rtl, value, coverageTypeNames);
      if rtl.isPrefix("AttemptsBeforeTableResize", argument) && integer.Some? then
        Add(Parameter(AttemptsBeforeTableResize, ULong(integer.value)))
      else if rtl.isPrefix("MaxNumberOfTableResizes", argument) && integer.Some? then
        Add(Parameter(MaxNumberOfTableResizes, ULong(integer.value)))
      else if rtl.isPrefix("BestCoverageAttempts", argument) && integer.Some? then
        Add(Parameter(BestCoverageAttempts, ULong(integer.value)))
      else if rtl.isPrefix("BestCoverageType", argument) && coverage < |coverageTypeNames| then
        Add(Parameter(BestCoverageType, CoverageType(coverage)))
      else if rtl.isPrefix("KeysSubset", argument) then
        var subset := ValueArrayResult(rtl, true, allocationSucceeds, value);
        if subset.status == Ok then Add(Parameter(KeysSubset, ValueList(subset.values)))
        else Failure(KeysSubsetError(subset.status))
      else if rtl.isPrefix("MainWorkThreadpoolPriority", argument) then
        PriorityParameter(rtl, MainWorkThreadpoolPriority, value, InvalidMainWorkPriority)
      else if rtl.isPrefix("FileWorkThreadpoolPriority", argument) then
        PriorityParameter(rtl, FileWorkThreadpoolPriority, value, InvalidFileWorkPriority)
      else if integer.Some? then Ignored(Ok)
      else Ignored(ConversionFailed)
  }

  /**
   * Once the KeysSubset name claims an argument, the value array's outcome
   * decides the result: its array is added on success, and each of its
   * failures, S_FALSE for a single value included, becomes the renamed error.
   */
  lemma KeysSubsetOutcome(rtl: Rtl, coverageTypeNames: seq<string>, allocationSucceeds: bool, argument: string, i: nat)
    requires EqualsSign(argument) == Some(i)
    requires rtl.isPrefix("KeysSubset", argument)
    requires !rtl.isPrefix("AttemptsBeforeTableResize", argument) && !rtl.isPrefix("MaxNumberOfTableResizes", argument)
    requires !rtl.isPrefix("BestCoverageAttempts", argument) && !rtl.isPrefix("BestCoverageType", argument)
    ensures var r := ExtractParameter(rtl, coverageTypeNames, allocationSucceeds, argument);
            var subset := ValueArrayResult(rtl, true, allocationSucceeds, argument[i + 1..]);
            && (subset.status == Ok ==> r == Add(Parameter(KeysSubset, ValueList(subset.values))))
            && (subset.status != Ok ==> r == Failure(KeysSubsetError(subset.status)))
            && (subset.status == False ==> r == Failure(InvalidKeysSubset))
  {
  }

  /** An argument none of the parameter names prefixes is never an error: S_FALSE, S_OK or the conversion's failure. */
  lemma UnknownNameIsIgnored(rtl: Rtl, coverageTypeNames: seq<string>, allocationSucceeds: bool, argument: string, i: nat)
    requires EqualsSign(argument) == Some(i)
    requires forall name :: name in ParameterNames ==> !rtl.isPrefix(name, argument)
    ensures ExtractParameter(rtl, coverageTypeNames, allocationSucceeds, argument)
         == (if rtl.toInteger(argument[i + 1..], 10).Some? then Ignored(Ok) else Ignored(ConversionFailed))
  {
    assert "AttemptsBeforeTableResize" in ParameterNames;
    assert "MaxNumberOfTableResizes" in ParameterNames;
    assert "BestCoverageAttempts" in ParameterNames;
    assert "BestCoverageType" in ParameterNames;
    assert "KeysSubset" in ParameterNames;
    assert "MainWorkThreadpoolPriority" in ParameterNames;
    assert "FileWorkThreadpoolPriority" in ParameterNames;
  }

  const ParameterNames: set<string> := {
    "AttemptsBeforeTableResize", "MaxNumberOfTableResizes", "BestCoverageAttempts", "BestCoverageType",
    "KeysSubset", "MainWorkThreadpoolPriority", "FileWorkThreadpoolPriority"}

  /** The parameter names in the order the extractor tries them, and the Id each one sets. */
  const ParameterOrder: seq<string> := [
    "AttemptsBeforeTableResize", "MaxNumberOfTableResizes", "BestCoverageAttempts", "BestCoverageType",
    "KeysSubset", "MainWorkThreadpoolPriority", "FileWorkThreadpoolPriority"]
  const ParameterIdOrder: seq<ParameterId> := [
    AttemptsBeforeTableResize, MaxNumberOfTableResizes, BestCoverageAttempts, BestCoverageType,
    KeysSubset, MainWorkThreadpoolPriority, FileWorkThreadpoolPriority]

  /**
   * One of the three integer names claims an argument whose value converts
   * in base 10, unless an earlier name in the order already prefixes it: the
   * parameter added is that name's Id with the converted value.
   */
  lemma IntegerParameterOutcome(rtl: Rtl, coverageTypeNames: seq<string>, allocationSucceeds: bool, argument: string,
                                i: nat, k: nat)
    requires EqualsSign(argument) == Some(i)
    requires k < 3 && rtl.isPrefix(ParameterOrder[k], argument)
    requires forall j :: 0 <= j < k ==> !rtl.isPrefix(ParameterOrder[j], argument)
    requires rtl.toInteger(argument[i + 1..], 10).Some?
    ensures ExtractParameter(rtl, coverageTypeNames, allocationSucceeds, argument)
         == Add(Parameter(ParameterIdOrder[k], ULong(rtl.toInteger(argument[i + 1..], 10).value)))
  {
    if k > 0 {
      assert !rtl.isPrefix(ParameterOrder[0], argument);
    }
    if k > 1 {
      assert !rtl.isPrefix(ParameterOrder[1], argument);
    }
  }

  /**
   * BestCoverageType, with no earlier name prefixing the argument, adds the
   * position of the first best coverage type the value names; a value that
   * names none is not claimed by it and leaves no BestCoverageType parameter.
   */
  lemma BestCoverageTypeOutcome(rtl: Rtl, coverageTypeNames: seq<string>, allocationSucceeds: bool, argument: string,
                                i: nat)
    requires EqualsSign(argument) == Some(i)
    requires rtl.isPrefix("BestCoverageType", argument)
    requires forall j :: 0 <= j < 3 ==> !rtl.isPrefix(ParameterOrder[j], argument)
    ensures var r := ExtractParameter(rtl, coverageTypeNames, allocationSucceeds, argument);
            var c := FirstEqualIndex(rtl, argument[i + 1..], coverageTypeNames);
            && (c < |coverageTypeNames| ==> r == Add(Parameter(BestCoverageType, CoverageType(c))))
            && (c == |coverageTypeNames| ==> !(r.Add? && r.parameter.id == BestCoverageType))
  {
    assert !rtl.isPrefix(ParameterOrder[0], argument);
    assert !rtl.isPrefix(ParameterOrder[1], argument);
    assert !rtl.isPrefix(ParameterOrder[2], argument);
  }

  /**
   * A threadpool priority name, with no earlier name prefixing the argument,
   * adds High, Normal or Low, tested in that order; any other value fails
   * with that priority's own error.
   */
  lemma PriorityParameterOutcome(rtl: Rtl, coverageTypeNames: seq<string>, allocationSucceeds: bool, argument: string,
                                 i: nat, k: nat)
    requires EqualsSign(argument) == Some(i)
    requires 5 <= k < 7 && rtl.isPrefix(ParameterOrder[k], argument)
    requires forall j :: 0 <= j < k ==> !rtl.isPrefix(ParameterOrder[j], argument)
    ensures var r := ExtractParameter(rtl, coverageTypeNames, allocationSucceeds, argument);
            var value := argument[i + 1..];
            var id := ParameterIdOrder[k];
            && (rtl.equal(value, "High") ==> r == Add(Parameter(id, CallbackPriority(High))))
            && (!rtl.equal(value, "High") && rtl.equal(value, "Normal") ==> r == Add(Parameter(id, CallbackPriority(Normal))))
            && (!rtl.equal(value, "High") && !rtl.equal(value, "Normal") && rtl.equal(value, "Low") ==>
                  r == Add(Parameter(id, CallbackPriority(Low))))
            && (!rtl.equal(value, "High") && !rtl.equal(value, "Normal") && !rtl.equal(value, "Low") ==>
                  r == Failure(if k == 5 then InvalidMainWorkPriority else InvalidFileWorkPriority))
  {
    assert !rtl.isPrefix(ParameterOrder[0], argument);
    assert !rtl.isPrefix(ParameterOrder[1], argument);
    assert !rtl.isPrefix(ParameterOrder[2], argument);
    assert !rtl.isPrefix(ParameterOrder[3], argument);
    assert !rtl.isPrefix(ParameterOrder[4], argument);
    if k == 6 {
      assert !rtl.isPrefix(ParameterOrder[5], argument);
    }
  }

  /**
   * The AddParam step on the entries of the array: the new parameter's Id is
   * compared with the FIRST entry only (the loop never advances its cursor),
   * which is overwritten on a match; otherwise the parameter is appended.
   */
  function AddParameter(entries: seq<Parameter>, p: Parameter): (r: seq<Parameter>)
  {
    if entries != [] && entries[0].id == p.id then entries[0 := p] else entries + [p]
  }

  /**
   * AddParam keeps every other entry where it was and holds the new
   * parameter afterwards: in place of the first entry when that has the
   * same Id, at the end otherwise.
   */
  lemma AddParameterKeepsEntries(entries: seq<Parameter>, p: Parameter)
    ensures var r := AddParameter(entries, p);
            && (|r| == |entries| <==> entries != [] && entries[0].id == p.id)
            && (|r| != |entries| ==> |r| == |entries| + 1 && r[|entries|] == p)
            && (|r| == |entries| ==> r[0] == p)
            && (forall k :: 0 < k < |entries| ==> r[k] == entries[k])
            && (entries != [] && entries[0].id != p.id ==> r[0] == entries[0])
            && p in r
  {
  }

  /**
   * Only the first entry is compared, so a parameter given again after a
   * different one is appended a second time.
   */
  lemma RepeatedParameterIsAppended()
    ensures var entries := [Parameter(AttemptsBeforeTableResize, ULong(5)), Parameter(MaxNumberOfTableResizes, ULong(3))];
            var r := AddParameter(entries, Parameter(MaxNumberOfTableResizes, ULong(4)));
            |r| == 3 && r[1].id == r[2].id && r[1] != r[2]
  {
  }

  /** The values a destruction frees: those of the entries that own their value, in order. */
  function OwnedValues(entries: seq<Parameter>): (owned: seq<ParameterValue>)
    ensures |owned| <= |entries|
  {
    if entries == [] then []
    else OwnedValues(AllButLast(entries))
         + (if RequiresDeallocation(Last(entries).id) then [Last(entries).value] else [])
  }

  /** Every keys subset in the entries is freed, and nothing else. */
  lemma {:induction false} OwnedValuesAreTheKeysSubsets(entries: seq<Parameter>)
    ensures forall k :: 0 <= k < |entries| && entries[k].id == KeysSubset ==> entries[k].value in OwnedValues(entries)
    ensures forall v :: v in OwnedValues(entries) ==> exists k :: 0 <= k < |entries| && entries[k] == Parameter(KeysSubset, v)
  {
    if entries != [] {
      var front := AllButLast(entries);
      OwnedValuesAreTheKeysSubsets(front);
      assert entries == front + [Last(entries)];
      forall v | v in OwnedValues(entries)
        ensures exists k :: 0 <= k < |entries| && entries[k] == Parameter(KeysSubset, v)
      {
        if v in OwnedValues(front) {
          var k :| 0 <= k < |front| && front[k] == Parameter(KeysSubset, v);
          assert entries[k] == front[k];
        } else {
          assert entries[|entries| - 1] == Parameter(KeysSubset, v);
        }
      }
    }
  }

  /** What one call does to the parameter entries: its status, the new entries and the owned values it freed. */
  datatype ParameterUpdate = ParameterUpdate(status: HResult, entries: seq<Parameter>, freed: seq<ParameterValue>)

  /**
   * One call of TryExtractArgTableCreateParameters on the entries: a
   * recognised parameter goes through AddParam, where only a new entry needs
   * the array to grow, which may fail with E_OUTOFMEMORY.
   */
  function ExtractInto(rtl: Rtl, coverageTypeNames: seq<string>, subsetAllocationSucceeds: bool,
                       arrayAllocationSucceeds: bool, argument: string, entries: seq<Parameter>)
    : (u: ParameterUpdate)
    ensures u.status == False <==> '=' !in argument
    ensures u.status != Ok ==> u.entries == entries && u.freed == []
    ensures u.status == Ok ==> |entries| <= |u.entries| <= |entries| + 1
    ensures forall k :: 0 < k < |entries| ==> u.entries[k] == entries[k]
    ensures |u.freed| <= 1
  {
    match ExtractParameter(rtl, coverageTypeNames, subsetAllocationSucceeds, argument)
    case Ignored(status) => ParameterUpdate(status, entries, [])
    case Failure(error) => ParameterUpdate(error, entries, [])
    case Add(p) =>
      if entries != [] && entries[0].id == p.id then
        ParameterUpdate(Ok, AddParameter(entries, p), if RequiresDeallocation(p.id) then [entries[0].value] else [])
      else if arrayAllocationSucceeds then ParameterUpdate(Ok, AddParameter(entries, p), [])
      else ParameterUpdate(OutOfMemory, entries, [])
  }

  /**
   * The caller's pair of table create parameter variables: the number of
   * parameters and the pointer to their array (None for NULL).  `freed`
   * records, in order, the owned values handed back to the allocator.
   */
  class TableCreateParameters {
    var count: nat
    var parameters: Option<seq<Parameter>>
    ghost var freed: seq<ParameterValue>

    /** The routine's own invariant check: a zero count goes with a NULL array, and a non-zero count with an array. */
    predicate CountMatchesPointer()
      reads this
    {
      count == 0 <==> parameters.None?
    }

    /** A non-zero count is the number of entries of the array it describes. */
    ghost predicate CountIsLength()
      reads this
    {
      parameters.Some? && count > 0 ==> |parameters.value| == count
    }

    /** The pair as every routine but the failure cleanup leaves it. */
    ghost predicate Consistent()
      reads this
    {
      CountMatchesPointer() && CountIsLength()
    }

    /** The entries of the array, none when it is NULL. */
    function Entries(): seq<Parameter>
      reads this
    {
      if parameters.Some? then parameters.value else []
    }

    /** The zeroed pair the bulk-create extractor starts from. */
    constructor ()
      ensures Consistent() && count == 0 && parameters == None && freed == []
    {
      count := 0;
      parameters := None;
      freed := [];
    }

    /** The loop that looks for '=': the first one ends it. */
    static method FindEqualsSign(argument: string) returns (found: Option<nat>)
      ensures found == EqualsSign(argument)
    {
      found := None;
      var index := 0;
      while index < |argument|
        invariant index <= |argument|
        invariant '=' !in argument[..index]
      {
        if argument[index] == '=' {
          found := Some(index);
          break;
        }
        assert argument[..index + 1] == argument[..index] + [argument[index]];
        index := index + 1;
      }
      assert found.None? ==> argument[..index] == argument;
    }

    /**
     * TryExtractArgTableCreateParameters.  A count and pointer that disagree
     * raise PH_E_INVARIANT_CHECK_FAILED before anything is looked at; the
     * raise is modelled as that status with nothing changed.  A recognised
     * parameter goes through AddParam: a first entry with the same Id is
     * overwritten in place, its owned value freed; otherwise the array is
     * grown by one (Calloc or ReCalloc, which may fail with E_OUTOFMEMORY,
     * changing nothing) and the parameter written at its end.
     */
    method TryExtract(rtl: Rtl, coverageTypeNames: seq<string>, subsetAllocationSucceeds: bool,
                      arrayAllocationSucceeds: bool, argument: string)
      returns (status: HResult)
      requires CountIsLength()
      modifies this
      ensures !old(CountMatchesPointer()) ==>
                && status == InvariantCheckFailed
                && count == old(count) && parameters == old(parameters) && freed == old(freed)
      ensures old(CountMatchesPointer()) ==>
                && Consistent()
                && var u := ExtractInto(rtl, coverageTypeNames, subsetAllocationSucceeds, arrayAllocationSucceeds,
                                        argument, old(Entries()));
                   status == u.status && Entries() == u.entries && freed == old(freed) + u.freed
    {
      if !CountMatchesPointer() {
        return InvariantCheckFailed;
      }
      var x := Recognize(rtl, coverageTypeNames, subsetAllocationSucceeds, argument);
      match x
      case Ignored(s) => return s;
      case Failure(error) => return error;
      case Add(p) => status := AddParam(p, arrayAllocationSucceeds);
    }

    /**
     * Everything TryExtractArgTableCreateParameters does before AddParam:
     * find the '=', convert the value, and try the parameter names in order.
     */
    static method Recognize(rtl: Rtl, coverageTypeNames: seq<string>, subsetAllocationSucceeds: bool, argument: string)
      returns (x: Extraction)
      ensures x == ExtractParameter(rtl, coverageTypeNames, subsetAllocationSucceeds, argument)
    {
      var found := FindEqualsSign(argument);
      if found.None? {
        return Ignored(False);
      }
      var value := argument[found.value + 1..];
      var integer := rtl.toInteger(value, 10);
      var coverage := FirstEqualIndex(rtl, value, coverageTypeNames);
      if rtl.isPrefix("AttemptsBeforeTableResize", argument) && integer.Some? {
        x := Add(Parameter(AttemptsBeforeTableResize, ULong(integer.value)));
      } else if rtl.isPrefix("MaxNumberOfTableResizes", argument) && integer.Some? {
        x := Add(Parameter(MaxNumberOfTableResizes, ULong(integer.value)));
      } else if rtl.isPrefix("BestCoverageAttempts", argument) && integer.Some? {
        x := Add(Parameter(BestCoverageAttempts, ULong(integer.value)));
      } else if rtl.isPrefix("BestCoverageType", argument) && coverage < |coverageTypeNames| {
        x := Add(Parameter(BestCoverageType, CoverageType(coverage)));
      } else if rtl.isPrefix("KeysSubset", argument) {
        var subsetStatus, values := TryExtractValueArray(rtl, value, true, subsetAllocationSucceeds);
        if subsetStatus == Ok {
          x := Add(Parameter(KeysSubset, ValueList(values)));
        } else {
          x := Failure(KeysSubsetError(subsetStatus));
        }
      } else if rtl.isPrefix("MainWorkThreadpoolPriority", argument) {
        x := PriorityParameter(rtl, MainWorkThreadpoolPriority, value, InvalidMainWorkPriority);
      } else if rtl.isPrefix("FileWorkThreadpoolPriority", argument) {
        x := PriorityParameter(rtl, FileWorkThreadpoolPriority, value, InvalidFileWorkPriority);
      } else {
        x := Ignored(if integer.Some? then Ok else ConversionFailed);
      }
    }

    /**
     * AddParam.  The loop compares the new parameter's Id with the first
     * entry at every iteration; on a match that entry's owned value is freed
     * and the entry overwritten.  Otherwise the array grows by one entry
     * (Calloc for the first, ReCalloc after), the parameter is written at the
     * end and the count incremented; a failed allocation changes nothing.
     */
    method AddParam(p: Parameter, arrayAllocationSucceeds: bool) returns (status: HResult)
      requires Consistent()
      modifies this
      ensures Consistent()
      ensures var previous := old(Entries());
              previous != [] && previous[0].id == p.id ==>
                && status == Ok && count == old(count)
                && Entries() == AddParameter(previous, p)
                && freed == old(freed) + (if RequiresDeallocation(p.id) then [previous[0].value] else [])
      ensures var previous := old(Entries());
              !(previous != [] && previous[0].id == p.id) ==>
                if arrayAllocationSucceeds then
                  && status == Ok && count == old(count) + 1
                  && Entries() == AddParameter(previous, p) && freed == old(freed)
                else
                  && status == OutOfMemory
                  && count == old(count) && parameters == old(parameters) && freed == old(freed)
    {
      if count > 0 {
        var entries := parameters.value;
        var first := entries[0];
        for index := 0 to count
          invariant index > 0 ==> first.id != p.id
        {
          if first.id == p.id {
            if RequiresDeallocation(first.id) {
              freed := freed + [first.value];
            }
            parameters := Some(entries[0 := p]);
            return Ok;
          }
        }
      }
      if !arrayAllocationSucceeds {
        return OutOfMemory;
      }
      parameters := Some(Entries() + [p]);
      count := count + 1;
      status := Ok;
    }

    /**
     * DestroyTableCreateParameters: free the owned value of each of the
     * first `count` entries, then the array, setting the pointer to NULL.
     * The count is passed by value and is left as it was.
     */
    method Destroy() returns (status: HResult)
      requires parameters.Some? ==> count <= |parameters.value|
      requires parameters.None? ==> count == 0
      modifies this
      ensures status == Ok
      ensures parameters == None && count == old(count)
      ensures freed == old(freed) + OwnedValues(old(Entries())[..count])
    {
      var entries := Entries();
      for index := 0 to count
        invariant freed == old(freed) + OwnedValues(entries[..index])
      {
        assert AllButLast(entries[..index + 1]) == entries[..index];
        if RequiresDeallocation(entries[index].id) {
          freed := freed + [entries[index].value];
        }
      }
      parameters := None;
      status := Ok;
    }
  }
}
