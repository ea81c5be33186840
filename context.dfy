/** `ExtraData` as a value: the memory table, the locked registers, the pinned result
    register (-1 when unset) and the three labels of the enclosing if/while. */
module Context {
  import opened Failures
  import opened Memory

  datatype Extra = Extra(
    memory: Table,
    locked: seq<int>,
    target: int,
    trueLabel: string,
    doneLabel: string,
    loopLabel: string)

  const Unset: int := -1
  const LastRegister: int := 14

  /** `ExtraData()`. */
  function Empty(): Extra
  {
    Extra([], [], Unset, "", "", "")
  }

  /** The first register from i up to 14 that is neither locked nor the target. */
  function FreeFrom(locked: seq<int>, target: int, i: int): (r: Option<int>)
    requires 1 <= i <= LastRegister + 1
    ensures r.Some? ==> i <= r.value <= LastRegister && r.value !in locked && r.value != target
    ensures r.Some? ==> forall j :: i <= j < r.value ==> j in locked || j == target
    ensures r.None? <==> forall j :: i <= j <= LastRegister ==> j in locked || j == target
    decreases LastRegister + 1 - i
  {
    if i == LastRegister + 1 then None
    else if i in locked || i == target then FreeFrom(locked, target, i + 1)
    else Some(i)
  }

  /** The register `get_available_register` picks: the least of 1..14 that is not
      locked and not the target; None when all fourteen are excluded. */
  function FreeRegister(locked: seq<int>, target: int): (r: Option<int>)
    ensures r.Some? ==> 1 <= r.value <= LastRegister && r.value !in locked && r.value != target
    ensures r.Some? ==> forall j :: 1 <= j < r.value ==> j in locked || j == target
    ensures r.None? <==> forall j :: 1 <= j <= LastRegister ==> j in locked || j == target
  {
    FreeFrom(locked, target, 1)
  }

  datatype Allocation = Allocation(register: int, ctx: Extra)

  /** `get_available_register` on a context: the register and the context with that
      register appended to the locked ones; an error when none is free. */
  function Allocate(e: Extra): (r: Result<Allocation>)
    ensures r.Ok? <==> FreeRegister(e.locked, e.target).Some?
    ensures r.Ok? ==> r.value.register == FreeRegister(e.locked, e.target).value
    ensures r.Ok? ==> r.value.ctx == e.(locked := e.locked + [r.value.register])
  {
    match FreeRegister(e.locked, e.target)
    case Some(i) => Ok(Allocation(i, e.(locked := e.locked + [i])))
    case None => Err("All registers are already in use.")
  }

  /** `ExtraData.__add__`: only the memory survives, merged; every other field is
      back at its default. */
  function Plus(a: Extra, b: Extra): (r: Extra)
    ensures r.locked == [] && r.target == Unset
    ensures r.trueLabel == r.doneLabel == r.loopLabel == ""
    ensures r.memory == Merged(a.memory, b.memory)
  {
    Empty().(memory := Merged(a.memory, b.memory))
  }

  /** No register is locked and none is pinned: the state of every context the
      converter creates, copies or merges. */
  predicate Unlocked(e: Extra)
  {
    e.locked == [] && e.target == Unset
  }

  /** From an unlocked context, successive allocations give R1, R2, R3 in order. */
  lemma AllocateFromUnlocked(e: Extra)
    requires Unlocked(e)
    ensures Allocate(e) == Ok(Allocation(1, e.(locked := [1])))
    ensures Allocate(e.(locked := [1])) == Ok(Allocation(2, e.(locked := [1, 2])))
    ensures Allocate(e.(locked := [1], target := 1)) ==
            Ok(Allocation(2, e.(locked := [1, 2], target := 1)))
    ensures Allocate(e.(locked := [1, 2], target := 1)) ==
            Ok(Allocation(3, e.(locked := [1, 2, 3], target := 1)))
  {
    assert FreeRegister([], -1) == Some(1);
    assert e.locked + [1] == [1];
    assert FreeRegister([1], -1) == Some(2);
    assert [1] + [2] == [1, 2];
    assert FreeRegister([1], 1) == Some(2);
    assert FreeRegister([1, 2], 1) == Some(3);
    assert [1, 2] + [3] == [1, 2, 3];
  }
}
