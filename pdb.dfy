/**
 * The parts of `AbstractPdb` the type records use: the record table they
 * look their targets up in, and the dependency stack their decoding
 * pushes to and pops from.
 */
module Pdb {
  import opened Wrappers
  import opened Render

  /** Only the `DATA` category of `CategoryIndex.Category` is used here. */
  datatype Category = Data

  /** A dependency obligation: a category and a record index. */
  datatype CategoryIndex = CategoryIndex(category: Category, index: nat)

  class AbstractPdb {
    /** Record table: type index to decoded record. */
    var table: Table
    var dependencyStack: seq<CategoryIndex>
    /** Every obligation ever pushed, in order. */
    ghost var pushed: seq<CategoryIndex>

    constructor (records: Table)
      ensures table == records && dependencyStack == [] && pushed == []
    {
      table := records;
      dependencyStack := [];
      pushed := [];
    }

    method PushDependencyStack(obligation: CategoryIndex)
      modifies this
      ensures dependencyStack == old(dependencyStack) + [obligation]
      ensures pushed == old(pushed) + [obligation]
      ensures table == old(table)
    {
      dependencyStack := dependencyStack + [obligation];
      pushed := pushed + [obligation];
    }

    /** Removes the most recent obligation; popping an empty stack is a defect. */
    method PopDependencyStack() returns (top: CategoryIndex)
      requires dependencyStack != []
      modifies this
      ensures top == old(dependencyStack)[|old(dependencyStack)| - 1]
      ensures dependencyStack == old(dependencyStack)[..|old(dependencyStack)| - 1]
      ensures pushed == old(pushed) && table == old(table)
    {
      top := dependencyStack[|dependencyStack| - 1];
      dependencyStack := dependencyStack[..|dependencyStack| - 1];
    }

    /** `getTypeRecord`: the record registered under `index`, if any. */
    function GetTypeRecord(index: nat): (r: Option<Descriptor>)
      reads this
      ensures r.Some? <==> index in table
      ensures r.Some? ==> r.value == table[index]
    {
      if index in table then Some(table[index]) else None
    }
  }
}
