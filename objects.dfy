/** The converter's mutable objects: the `memory_data` dict, which several
    `ExtraData` objects may share, and `ExtraData` itself, whose register
    allocation updates its locked registers in place. */
module Objects {
  import opened Failures
  import opened Memory
  import opened Context

  /** A `memory_data` dict. */
  class MemoryTable {
    var entries: Table

    constructor (initial: Table)
      ensures entries == initial
    {
      entries := initial;
    }

    predicate Contains(k: string)
      reads this
    {
      Has(entries, k)
    }

    /** `d[k] = v`. */
    method Put(k: string, v: nat)
      modifies this
      ensures entries == Assigned(old(entries), k, v)
    {
      entries := Assigned(entries, k, v);
    }

    /** `d.setdefault(k, v)`. */
    method SetDefault(k: string, v: nat)
      modifies this
      ensures entries == Defaulted(old(entries), k, v)
    {
      if !Has(entries, k) {
        entries := entries + [Entry(k, v)];
      }
    }
  }

  class ExtraData {
    var memory: MemoryTable
    var locked: seq<int>
    var target: int
    var trueLabel: string
    var doneLabel: string
    var loopLabel: string

    /** The object's current contents, the dict's included. */
    function Value(): Extra
      reads this, memory
    {
      Extra(memory.entries, locked, target, trueLabel, doneLabel, loopLabel)
    }

    /** `ExtraData(memory_data=m)`; `ExtraData()` when m is empty. */
    constructor (m: Table)
      ensures fresh(memory)
      ensures Value() == Empty().(memory := m)
    {
      memory := new MemoryTable(m);
      locked := [];
      target := Unset;
      trueLabel, doneLabel, loopLabel := "", "", "";
    }

    /** `copy.copy(source)`: the same field values, the same dict object. */
    constructor ShallowCopy(source: ExtraData)
      ensures memory == source.memory
      ensures Value() == source.Value()
    {
      memory := source.memory;
      locked := source.locked;
      target := source.target;
      trueLabel, doneLabel, loopLabel := source.trueLabel, source.doneLabel, source.loopLabel;
    }

    /** `copy.deepcopy(source)`: the same field values in a dict of its own. */
    constructor DeepCopy(source: ExtraData)
      ensures fresh(memory)
      ensures Value() == source.Value()
    {
      memory := new MemoryTable(source.memory.entries);
      locked := source.locked;
      target := source.target;
      trueLabel, doneLabel, loopLabel := source.trueLabel, source.doneLabel, source.loopLabel;
    }

    /** `get_available_register`: scans 1..14 for the first register that is
        neither locked nor the target, locks it and returns it; fails, changing
        nothing, when there is none. */
    method GetAvailableRegister() returns (r: Result<int>)
      modifies this
      ensures memory == old(memory)
      ensures var a := Allocate(old(Value()));
        && (r.Ok? <==> a.Ok?)
        && (r.Ok? ==> r.value == a.value.register && Value() == a.value.ctx)
        && (r.Err? ==> Value() == old(Value()))
    {
      for i := 1 to LastRegister + 1
        invariant memory == old(memory) && Value() == old(Value())
        invariant FreeFrom(locked, target, i) == FreeRegister(locked, target)
      {
        if i !in locked && i != target {
          locked := locked + [i];
          return Ok(i);
        }
      }
      return Err("All registers are already in use.");
    }

    /** `self + other`: a new object whose dict holds this dict's entries, then
        other's stored over them in order; every other field is reset. */
    method Plus(other: ExtraData) returns (r: ExtraData)
      ensures fresh(r) && fresh(r.memory)
      ensures r.Value() == Context.Plus(Value(), other.Value())
    {
      r := new ExtraData(memory.entries);
      var b := other.memory.entries;
      for i := 0 to |b|
        invariant fresh(r) && fresh(r.memory)
        invariant r.Value() == Empty().(memory := Merged(memory.entries, b[..i]))
      {
        assert b[..i + 1][..i] == b[..i];
        r.memory.Put(b[i].name, b[i].value);
      }
      assert b[..|b|] == b;
    }
  }
}
