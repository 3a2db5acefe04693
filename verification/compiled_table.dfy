/**
 * The runtime interface of a compiled perfect hash table: Index, Lookup,
 * Insert and Delete over the table's data array (the vertex values, fixed
 * when the table was compiled) and its values array (one slot per index,
 * updated in place).  Keys that were not in the set the table was built
 * from are not detected: they act on whatever slot Index yields.
 */
module CompiledTable {
  import opened Common
  import opened CompiledIndex

  /** The generated Index routine a compiled table was emitted with. */
  datatype GeneratedRoutine = RotateMultiplyXorRotate2And | RotateRMultiplyRotateRAnd

  /** Index with the table's generated routine. */
  function GeneratedIndex(routine: GeneratedRoutine, seeds: Seeds, hashMask: bv32, indexMask: bv32,
                          data: seq<bv32>, key: bv32): (index: nat)
    requires Number(hashMask) < |data|
    ensures index <= Number(indexMask)
  {
    match routine
    case RotateMultiplyXorRotate2And => IndexRotateMultiplyXorRotate2And(seeds, hashMask, indexMask, data, key)
    case RotateRMultiplyRotateRAnd => IndexRotateRMultiplyRotateRAnd(seeds, hashMask, indexMask, data, key)
  }

  class CompiledPerfectHashTable {
    const routine: GeneratedRoutine
    const seeds: Seeds
    const hashMask: bv32
    const indexMask: bv32
    /** The table data: the vertex values read by Index. */
    const data: array<bv32>
    /** The values array, one slot per index. */
    const values: array<bv32>

    /** Both reads of Index land in the data array and its result lands in the values array. */
    ghost predicate Valid()
    {
      data != values && Number(hashMask) < data.Length && Number(indexMask) < values.Length
    }

    /** A freshly loaded table: the compiled data, and a values array of zeros. */
    constructor (routine: GeneratedRoutine, seeds: Seeds, hashMask: bv32, indexMask: bv32, tableData: seq<bv32>)
      requires Number(hashMask) < |tableData|
      ensures Valid()
      ensures this.routine == routine && this.seeds == seeds
      ensures this.hashMask == hashMask && this.indexMask == indexMask
      ensures data[..] == tableData
      ensures values.Length == Number(indexMask) + 1
      ensures fresh(data) && fresh(values)
      ensures forall key :: Lookup(key) == 0
    {
      this.routine := routine;
      this.seeds := seeds;
      this.hashMask := hashMask;
      this.indexMask := indexMask;
      this.data := new bv32[|tableData|](i requires 0 <= i < |tableData| => tableData[i]);
      this.values := new bv32[Number(indexMask) + 1](_ => 0);
    }

    /** The slot of a key: the generated routine run on the table data. */
    function Index(key: bv32): (index: nat)
      requires Valid()
      reads data
      ensures index < values.Length
    {
      GeneratedIndex(routine, seeds, hashMask, indexMask, data[..], key)
    }

    /** The value stored at the key's slot; 0 while nothing was inserted there. */
    function Lookup(key: bv32): bv32
      requires Valid()
      reads data, values
    {
      values[Index(key)]
    }

    /** Stores a value at the key's slot and returns the value it replaced. */
    method Insert(key: bv32, value: bv32) returns (previous: bv32)
      requires Valid()
      modifies values
      ensures previous == old(Lookup(key))
      ensures values[..] == old(values[..])[Index(key) := value]
      ensures forall other :: Index(other) == Index(key) ==> Lookup(other) == value
      ensures forall other :: Index(other) != Index(key) ==> Lookup(other) == old(Lookup(other))
    {
      var index := Index(key);
      previous := values[index];
      values[index] := value;
    }

    /** Clears the key's slot and returns the value it held. */
    method Delete(key: bv32) returns (previous: bv32)
      requires Valid()
      modifies values
      ensures previous == old(Lookup(key))
      ensures values[..] == old(values[..])[Index(key) := 0]
      ensures forall other :: Index(other) == Index(key) ==> Lookup(other) == 0
      ensures forall other :: Index(other) != Index(key) ==> Lookup(other) == old(Lookup(other))
    {
      var index := Index(key);
      previous := values[index];
      values[index] := 0;
    }
  }

  /** The COMPILED_PERFECT_HASH_TABLE structure a compiled module hands out. */
  datatype TableDescription = TableDescription(
    sizeOfStruct: uint32, keySizeInBytes: uint32, algorithmId: uint32, hashFunctionId: uint32,
    maskFunctionId: uint32, numberOfKeys: nat, numberOfTableElements: nat,
    hashSize: uint32, indexSize: uint32, hashMask: uint32, indexMask: uint32,
    numberOfSeeds: uint32, seed1: uint32, seed2: uint32, seed3: uint32, seed4: uint32)

  /**
   * Obtaining the table of a compiled module: the caller passes the size of
   * its buffer, and the only way to fail is a size that is not the
   * structure's own size.  On success the caller receives a copy.
   */
  function GetCompiledPerfectHashTable(sizeOfTable: uint32, table: TableDescription): (r: Option<TableDescription>)
    ensures r.Some? <==> sizeOfTable == table.sizeOfStruct
    ensures r.Some? ==> r.value == table
  {
    if sizeOfTable == table.sizeOfStruct then Some(table) else None
  }
}
