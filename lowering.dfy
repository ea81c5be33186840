/** The converter's lowering of syntax nodes into emission units, as functions.

    Python passes one `ExtraData` object down and gets one back; its `memory_data`
    dict is shared by shallow copies (`copy.copy`, in convert_binop, convert_compare
    and convert_if) and cloned by deep copies (`copy.deepcopy`, in convert_while and
    convert_for). A lowering here therefore yields both the value of the ExtraData the
    Python method returns (`result`) and the contents of the CALLER's dict afterwards
    (`memory`): a shallow copy writes through to the caller, a deep copy does not. */
module Lowering {
  import opened Failures
  import opened Syntax
  import opened Text
  import opened Memory
  import opened Context
  import opened Assembly

  /** What one `convert_*` call yields. */
  datatype Lowered = Lowered(code: seq<Unit>, result: Extra, memory: Table)

  /** Code and memory threaded through a sequence of statements or targets. */
  datatype Emitted = Emitted(code: seq<Unit>, memory: Table)

  /** Code and context accumulated by `convert_module`. */
  datatype Accumulated = Accumulated(code: seq<Unit>, extra: Extra)

  /** The synthesised pair of statements a `for` is rewritten into. */
  datatype Rewritten = Rewritten(init: Node, loop: Node)

  predicate IsOperand(n: Node)
  {
    n.Name? || n.Constant?
  }

  /** `load R,name` for a variable, `lea R,value` for a constant. */
  function OperandLoad(r: int, n: Node): Instruction
    requires IsOperand(n)
  {
    if n.Name? then Load(r, n.id) else Lea(r, n.literal)
  }

  function ArithOf(op: BinOperator): ArithOp
    requires !op.OtherBinOp?
  {
    match op
    case Add => AddOp
    case Sub => SubOp
    case Mult => MulOp
    case Div => DivOp
  }

  function ConditionOf(op: CmpOperator): Condition
    requires !op.OtherCmpOp?
  {
    match op
    case Gt => JumpGt
    case GtE => JumpGe
    case Lt => JumpLt
    case LtE => JumpLe
  }

  function TrueLabel(line: nat): string { "true" + NatToString(line) }
  function DoneLabel(line: nat): string { "done" + NatToString(line) }
  function LoopLabel(line: nat): string { "loop" + NatToString(line) }

  predicate AllNames(targets: seq<Node>)
  {
    forall i :: 0 <= i < |targets| ==> targets[i].Name?
  }

  function Ids(targets: seq<Node>): (r: seq<string>)
    requires AllNames(targets)
    ensures |r| == |targets| && forall i :: 0 <= i < |r| ==> r[i] == targets[i].id
  {
    seq(|targets|, i requires 0 <= i < |targets| => targets[i].id)
  }

  /** `convert_any`: dispatch on the node kind; a kind without a convert method fails. */
  function LowerAny(n: Node, ctx: Extra): Result<Lowered>
    decreases Size(n), 1
  {
    match n
    case Assign(_, _, _) => LowerAssign(n, ctx)
    case BinOp(_, _, _, _) => LowerBinOp(n, ctx)
    case Compare(_, _, _, _) => LowerCompare(n, ctx)
    case If(_, _, _, _) => LowerIf(n, ctx)
    case While(_, _, _, _) => LowerWhile(n, ctx)
    case For(_, _, _, _, _) => LowerFor(n, ctx)
    case Call(_, _, _) => Err("No convert method convert_call")
    case Name(_, _) => Err("No convert method convert_name")
    case Constant(_, _) => Err("No convert method convert_constant")
    case Other(_, kind) => Err("No convert method convert_" + kind)
  }

  /** `convert_binop`, on a shallow copy: pins a result register if none is pinned,
      stages both operands in two more registers, then applies the operator. */
  function LowerBinOp(n: Node, ctx: Extra): Result<Lowered>
    requires n.BinOp?
    decreases Size(n), 0
  {
    var pinned :- if ctx.target == Unset then PinTarget(ctx) else Ok(ctx);
    if !IsOperand(n.left) || n.op.OtherBinOp? || !IsOperand(n.right) then
      Err("unsupported operand or operator")
    else
      var l :- Allocate(pinned);
      var r :- Allocate(l.ctx);
      var code := [Code(OperandLoad(l.register, n.left), Source(n)),
                   Code(OperandLoad(r.register, n.right), Source(n)),
                   Code(Arith(ArithOf(n.op), pinned.target, l.register, r.register), Source(n))];
      Ok(Lowered(code, r.ctx, ctx.memory))
  }

  /** `extra.target_register = extra.get_available_register()`. */
  function PinTarget(ctx: Extra): Result<Extra>
  {
    var a :- Allocate(ctx);
    Ok(a.ctx.(target := a.register))
  }

  /** `convert_compare`, on a shallow copy: two registers, both operands, `cmp`, the
      conditional jump to the true label and the jump to the done label. */
  function LowerCompare(n: Node, ctx: Extra): Result<Lowered>
    requires n.Compare?
    decreases Size(n), 0
  {
    var l :- Allocate(ctx);
    var r :- Allocate(l.ctx);
    if !IsOperand(n.left) || |n.comparators| != 1 || !IsOperand(n.comparators[0])
       || |n.ops| != 1 || n.ops[0].OtherCmpOp? then
      Err("unsupported comparison")
    else
      var code := [Code(OperandLoad(l.register, n.left), Bare),
                   Code(OperandLoad(r.register, n.comparators[0]), Bare),
                   Code(Cmp(l.register, r.register), Bare),
                   Code(CondJump(ConditionOf(n.ops[0]), ctx.trueLabel), Bare),
                   Code(Jump(ctx.doneLabel), Bare)];
      Ok(Lowered(code, r.ctx, ctx.memory))
  }

  /** `convert_assign`, which works on the caller's own object. */
  function LowerAssign(n: Node, ctx: Extra): Result<Lowered>
    requires n.Assign?
    decreases Size(n), 0
  {
    if !AllNames(n.targets) then Err("unsupported assignment target")
    else
      var names := Ids(n.targets);
      match n.value
      case Constant(_, c) =>
        var e := ConstantStores(n, names, c, ctx.memory);
        Ok(Lowered(e.code, ctx.(memory := e.memory), e.memory))
      case BinOp(_, _, _, _) =>
        var b :- LowerBinOp(n.value, ctx);
        var e := ResultStores(n, names, b.result.target, ctx.memory);
        Ok(Lowered(b.code + e.code, ctx.(memory := e.memory), e.memory))
      case _ => Err("unsupported assignment value")
  }

  /** A constant assigned to each target in turn: a name not yet in memory is
      declared with the constant and gets no code; a known one is written at run time
      through R1. */
  function ConstantStores(n: Node, names: seq<string>, c: nat, m: Table): Emitted
    decreases |names|
  {
    if names == [] then Emitted([], m)
    else
      var prev := ConstantStores(n, names[..|names| - 1], c, m);
      var x := names[|names| - 1];
      if Has(prev.memory, x) then
        Emitted(prev.code + [Code(Lea(1, c), Source(n)), Code(Store(1, x), Source(n))], prev.memory)
      else
        Emitted(prev.code, Assigned(prev.memory, x, c))
  }

  /** The result register stored into each target in turn; each name defaults to 0. */
  function ResultStores(n: Node, names: seq<string>, r: int, m: Table): Emitted
    decreases |names|
  {
    if names == [] then Emitted([], m)
    else
      var prev := ResultStores(n, names[..|names| - 1], r, m);
      var x := names[|names| - 1];
      Emitted(prev.code + [Code(Store(r, x), Source(n))], Defaulted(prev.memory, x, 0))
  }

  /** Statements lowered in order under one context whose memory they share. */
  function LowerBody(s: seq<Node>, ctx: Extra, m: Table): Result<Emitted>
    decreases SizeSeq(s), 2
  {
    if s == [] then Ok(Emitted([], m))
    else
      var prev :- LowerBody(s[..|s| - 1], ctx, m);
      var r :- LowerAny(s[|s| - 1], ctx.(memory := prev.memory));
      Ok(Emitted(prev.code + r.code, r.memory))
  }

  /** `convert_if`, on a shallow copy: the body's declarations reach the caller. The
      `orelse` branch is never read. */
  function LowerIf(n: Node, ctx: Extra): Result<Lowered>
    requires n.If?
    decreases Size(n), 0
  {
    var inner := ctx.(trueLabel := TrueLabel(n.line), doneLabel := DoneLabel(n.line));
    var t :- LowerAny(n.test, inner);
    var b :- LowerBody(n.body, inner, t.memory);
    Ok(Lowered(t.code + [Label(inner.trueLabel)] + b.code + [Label(inner.doneLabel)],
               inner.(memory := b.memory), b.memory))
  }

  /** `convert_while`, on a deep copy: the caller's memory is untouched, and the
      body's declarations reach only the returned context. */
  function LowerWhile(n: Node, ctx: Extra): Result<Lowered>
    requires n.While?
    decreases Size(n), 0
  {
    var inner := ctx.(loopLabel := LoopLabel(n.line), trueLabel := TrueLabel(n.line),
                      doneLabel := DoneLabel(n.line));
    var t :- LowerAny(n.test, inner);
    var b :- LowerBody(n.body, inner, t.memory);
    Ok(Lowered([Label(inner.loopLabel)] + t.code + [Label(inner.trueLabel)] + b.code
               + [Code(Jump(inner.loopLabel), Bare), Label(inner.doneLabel)],
               inner.(memory := b.memory), ctx.memory))
  }

  /** The only `for` the converter accepts: `for <name> in range(<c1>, <c2>)`. */
  predicate IsRangeFor(n: Node)
  {
    && n.For?
    && n.target.Name?
    && n.iter.Call? && n.iter.func.Name? && n.iter.func.id == "range"
    && |n.iter.args| == 2 && n.iter.args[0].Constant? && n.iter.args[1].Constant?
  }

  /** `i = i + 1`, appended to the loop body. */
  function Increment(line: nat, i: string): Node
  {
    Assign(line, [Name(line, i)], BinOp(line, Name(line, i), Add, Constant(line, 1)))
  }

  /** `i = a` and `while i < b:` over the body followed by `i = i + 1`, every node on
      the `for` statement's line. */
  function DesugarFor(n: Node): (r: Rewritten)
    requires IsRangeFor(n)
    ensures Size(r.init) < Size(n) && Size(r.loop) < Size(n)
  {
    var line, i := n.line, n.target.id;
    var start, end := n.iter.args[0].literal, n.iter.args[1].literal;
    var loopBody := n.body + [Increment(line, i)];
    SizeSeqAppend(n.body, Increment(line, i));
    assert SizeSeq([Name(line, i)]) == 1 by { assert [Name(line, i)][..0] == []; }
    assert SizeSeq([Constant(line, end)]) == 1 by { assert [Constant(line, end)][..0] == []; }
    assert Size(BinOp(line, Name(line, i), Add, Constant(line, 1))) == 3;
    assert Size(Increment(line, i)) == 5;
    assert Size(Compare(line, Name(line, i), [Lt], [Constant(line, end)])) == 3;
    Rewritten(
      Assign(line, [Name(line, i)], Constant(line, start)),
      While(line, Compare(line, Name(line, i), [Lt], [Constant(line, end)]), loopBody, []))
  }

  /** `convert_for`, on a deep copy: lowers the rewritten pair under it, so the loop
      variable reaches the returned context but nothing declared in the body does. */
  function LowerFor(n: Node, ctx: Extra): Result<Lowered>
    requires n.For?
    decreases Size(n), 0
  {
    if !IsRangeFor(n) then Err("only for ... in range(a, b) is supported")
    else
      var parts := DesugarFor(n);
      var a :- LowerAny(parts.init, ctx);
      var w :- LowerAny(parts.loop, ctx.(memory := a.memory));
      Ok(Lowered(a.code + w.code, ctx.(memory := w.memory), ctx.memory))
  }

  /** `convert_module`: a fresh context; after each statement the context becomes the
      merge (`+`) of itself and what the statement returned. */
  function LowerModule(body: seq<Node>): Result<Accumulated>
    decreases |body|
  {
    if body == [] then Ok(Accumulated([], Empty()))
    else
      var prev :- LowerModule(body[..|body| - 1]);
      var r :- LowerAny(body[|body| - 1], prev.extra);
      Ok(Accumulated(prev.code + r.code, Plus(prev.extra.(memory := r.memory), r.result)))
  }
}
