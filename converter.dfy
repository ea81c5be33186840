/** The `convert_*` methods and `assembly_code` as they run: one `ExtraData` object
    goes down with each call and one comes back, shallow copies share the caller's
    dict, deep copies get their own. Each method is proved to compute what the
    corresponding function of the Lowering and Emitter modules specifies. */
module Converter {
  import opened Failures
  import opened Syntax
  import opened Text
  import opened Memory
  import opened Context
  import opened Assembly
  import opened Lowering
  import opened LoweringFacts
  import opened Emitter
  import opened EmitterFacts
  import opened Objects

  /** The pair a `convert_*` method returns: the code and an `ExtraData`. */
  datatype Converted = Converted(code: seq<Unit>, extra: ExtraData)

  /** `convert_any`: the method for the node's kind, or an error. Only the caller's
      dict may change, and it ends as the lowering says. */
  method ConvertAny(n: Node, extra: ExtraData) returns (r: Result<Converted>)
    modifies extra.memory
    decreases Size(n), 1
    ensures var s := LowerAny(n, old(extra.Value()));
      && (r.Ok? <==> s.Ok?)
      && (r.Ok? ==> && r.value.code == s.value.code
                    && r.value.extra.Value() == s.value.result
                    && extra.memory.entries == s.value.memory)
  {
    match n
    case Assign(_, _, _) => r := ConvertAssign(n, extra);
    case BinOp(_, _, _, _) =>
      r := ConvertBinop(n, extra);
      if r.Ok? {
        OperationKeepsMemory(n, extra.Value());
      }
    case Compare(_, _, _, _) =>
      r := ConvertCompare(n, extra);
      if r.Ok? {
        OperationKeepsMemory(n, extra.Value());
      }
    case If(_, _, _, _) => r := ConvertIf(n, extra);
    case While(_, _, _, _) => r := ConvertWhile(n, extra);
    case For(_, _, _, _, _) => r := ConvertFor(n, extra);
    case Call(_, _, _) => r := Err("No convert method convert_call");
    case Name(_, _) => r := Err("No convert method convert_name");
    case Constant(_, _) => r := Err("No convert method convert_constant");
    case Other(_, kind) => r := Err("No convert method convert_" + kind);
  }

  /** `convert_binop`, on a shallow copy of the caller's object. */
  method ConvertBinop(n: Node, extra: ExtraData) returns (r: Result<Converted>)
    requires n.BinOp?
    decreases Size(n), 0
    ensures var s := LowerBinOp(n, extra.Value());
      && (r.Ok? <==> s.Ok?)
      && (r.Ok? ==> r.value.code == s.value.code && r.value.extra.Value() == s.value.result)
  {
    var e := new ExtraData.ShallowCopy(extra);
    if e.target == Unset {
      var t := e.GetAvailableRegister();
      if t.Err? {
        return Err(t.reason);
      }
      e.target := t.value;
    }
    if !IsOperand(n.left) || n.op.OtherBinOp? || !IsOperand(n.right) {
      return Err("unsupported operand or operator");
    }
    var left := e.GetAvailableRegister();
    if left.Err? {
      return Err(left.reason);
    }
    var right := e.GetAvailableRegister();
    if right.Err? {
      return Err(right.reason);
    }
    var code := [Code(OperandLoad(left.value, n.left), Source(n)),
                 Code(OperandLoad(right.value, n.right), Source(n)),
                 Code(Arith(ArithOf(n.op), e.target, left.value, right.value), Source(n))];
    return Ok(Converted(code, e));
  }

  /** `convert_compare`, on a shallow copy of the caller's object. */
  method ConvertCompare(n: Node, extra: ExtraData) returns (r: Result<Converted>)
    requires n.Compare?
    decreases Size(n), 0
    ensures var s := LowerCompare(n, extra.Value());
      && (r.Ok? <==> s.Ok?)
      && (r.Ok? ==> r.value.code == s.value.code && r.value.extra.Value() == s.value.result)
  {
    var e := new ExtraData.ShallowCopy(extra);
    var left := e.GetAvailableRegister();
    if left.Err? {
      return Err(left.reason);
    }
    var right := e.GetAvailableRegister();
    if right.Err? {
      return Err(right.reason);
    }
    if !IsOperand(n.left) || |n.comparators| != 1 || !IsOperand(n.comparators[0])
       || |n.ops| != 1 || n.ops[0].OtherCmpOp? {
      return Err("unsupported comparison");
    }
    var code := [Code(OperandLoad(left.value, n.left), Bare),
                 Code(OperandLoad(right.value, n.comparators[0]), Bare),
                 Code(Cmp(left.value, right.value), Bare),
                 Code(CondJump(ConditionOf(n.ops[0]), e.trueLabel), Bare),
                 Code(Jump(e.doneLabel), Bare)];
    return Ok(Converted(code, e));
  }

  /** `convert_assign`, on the caller's own object: constants declare new names in
      the caller's dict, results default each target to 0 there. */
  method ConvertAssign(n: Node, extra: ExtraData) returns (r: Result<Converted>)
    requires n.Assign?
    modifies extra.memory
    decreases Size(n), 0
    ensures var s := LowerAssign(n, old(extra.Value()));
      && (r.Ok? <==> s.Ok?)
      && (r.Ok? ==> && r.value.code == s.value.code
                    && r.value.extra.Value() == s.value.result
                    && extra.memory.entries == s.value.memory)
  {
    for k := 0 to |n.targets|
      invariant AllNames(n.targets[..k])
    {
      if !n.targets[k].Name? {
        return Err("unsupported assignment target");
      }
    }
    assert n.targets[..|n.targets|] == n.targets;
    ghost var ctx := extra.Value();
    var names := Ids(n.targets);
    match n.value {
      case Constant(_, c) =>
        var code := StoreConstantTargets(n, names, c, extra.memory);
        assert extra.Value() == ctx.(memory := extra.memory.entries);
        assert LowerAssign(n, ctx) == Ok(Lowered(code, extra.Value(), extra.memory.entries));
        return Ok(Converted(code, extra));
      case BinOp(_, _, _, _) =>
        var b := ConvertBinop(n.value, extra);
        if b.Err? {
          return Err(b.reason);
        }
        var code := StoreResultTargets(n, names, b.value.extra.target, extra.memory);
        assert extra.Value() == ctx.(memory := extra.memory.entries);
        assert LowerAssign(n, ctx) == Ok(Lowered(b.value.code + code, extra.Value(), extra.memory.entries));
        return Ok(Converted(b.value.code + code, extra));
      case _ =>
        return Err("unsupported assignment value");
    }
  }

  /** The constant branch of `convert_assign`: each target in turn is declared in
      the dict or, when already there, written through R1. */
  method StoreConstantTargets(n: Node, names: seq<string>, c: nat, memory: MemoryTable) returns (code: seq<Unit>)
    modifies memory
    ensures Emitted(code, memory.entries) == ConstantStores(n, names, c, old(memory.entries))
  {
    code := [];
    for j := 0 to |names|
      invariant ConstantStores(n, names[..j], c, old(memory.entries)) == Emitted(code, memory.entries)
    {
      assert names[..j + 1][..j] == names[..j];
      if memory.Contains(names[j]) {
        code := code + [Code(Lea(1, c), Source(n)), Code(Store(1, names[j]), Source(n))];
      } else {
        memory.Put(names[j], c);
      }
    }
    assert names[..|names|] == names;
  }

  /** The operation branch of `convert_assign`: each target is stored from the
      result register and defaulted to 0 in the dict. */
  method StoreResultTargets(n: Node, names: seq<string>, target: int, memory: MemoryTable) returns (code: seq<Unit>)
    modifies memory
    ensures Emitted(code, memory.entries) == ResultStores(n, names, target, old(memory.entries))
  {
    code := [];
    for j := 0 to |names|
      invariant ResultStores(n, names[..j], target, old(memory.entries)) == Emitted(code, memory.entries)
    {
      assert names[..j + 1][..j] == names[..j];
      code := code + [Code(Store(target, names[j]), Source(n))];
      memory.SetDefault(names[j], 0);
    }
    assert names[..|names|] == names;
  }

  /** `convert_if`, on a shallow copy: the body runs on the caller's dict. */
  method ConvertIf(n: Node, extra: ExtraData) returns (r: Result<Converted>)
    requires n.If?
    modifies extra.memory
    decreases Size(n), 0
    ensures var s := LowerIf(n, old(extra.Value()));
      && (r.Ok? <==> s.Ok?)
      && (r.Ok? ==> && r.value.code == s.value.code
                    && r.value.extra.Value() == s.value.result
                    && extra.memory.entries == s.value.memory)
  {
    var inner := new ExtraData.ShallowCopy(extra);
    inner.trueLabel := TrueLabel(n.line);
    inner.doneLabel := DoneLabel(n.line);
    ghost var ctx := inner.Value();
    var test := ConvertAny(n.test, inner);
    if test.Err? {
      return Err(test.reason);
    }
    var body := ConvertBody(n.body, inner, ctx);
    if body.Err? {
      return Err(body.reason);
    }
    return Ok(Converted(test.value.code + [Label(inner.trueLabel)] + body.value + [Label(inner.doneLabel)], inner));
  }

  /** The statement loop of `convert_if` and `convert_while`: each statement of the
      body is converted on the same object, in order, and the codes are joined; the
      first failure ends the loop. */
  method ConvertBody(body: seq<Node>, inner: ExtraData, ghost ctx: Extra) returns (r: Result<seq<Unit>>)
    requires inner.Value() == ctx.(memory := inner.memory.entries)
    modifies inner.memory
    decreases SizeSeq(body), 2
    ensures inner.Value() == ctx.(memory := inner.memory.entries)
    ensures var s := LowerBody(body, ctx, old(inner.memory.entries));
      && (r.Ok? <==> s.Ok?)
      && (r.Ok? ==> s.value == Emitted(r.value, inner.memory.entries))
  {
    ghost var start := inner.memory.entries;
    var code: seq<Unit> := [];
    for i := 0 to |body|
      invariant inner.Value() == ctx.(memory := inner.memory.entries)
      invariant LowerBody(body[..i], ctx, start) == Ok(Emitted(code, inner.memory.entries))
    {
      SizeOfElement(body, i);
      assert body[..i + 1][..i] == body[..i];
      var sub := ConvertAny(body[i], inner);
      if sub.Err? {
        if LowerBody(body, ctx, start).Ok? {
          BodyPrefixes(body, ctx, start, i + 1);
        }
        return Err(sub.reason);
      }
      code := code + sub.value.code;
    }
    assert body[..|body|] == body;
    return Ok(code);
  }

  /** `convert_while`, on a deep copy: the caller's dict is never touched. */
  method ConvertWhile(n: Node, extra: ExtraData) returns (r: Result<Converted>)
    requires n.While?
    decreases Size(n), 0
    ensures var s := LowerWhile(n, extra.Value());
      && (r.Ok? <==> s.Ok?)
      && (r.Ok? ==> r.value.code == s.value.code && r.value.extra.Value() == s.value.result)
  {
    var inner := new ExtraData.DeepCopy(extra);
    inner.loopLabel := LoopLabel(n.line);
    inner.trueLabel := TrueLabel(n.line);
    inner.doneLabel := DoneLabel(n.line);
    ghost var ctx := inner.Value();
    var test := ConvertAny(n.test, inner);
    if test.Err? {
      return Err(test.reason);
    }
    ghost var start := inner.memory.entries;
    var body := ConvertBody(n.body, inner, ctx);
    if body.Err? {
      return Err(body.reason);
    }
    WhileSteps(n, extra.Value(), test.value.code, start, body.value, inner.memory.entries);
    var loop := inner.loopLabel;
    return Ok(Converted([Label(loop)] + test.value.code + [Label(inner.trueLabel)] + body.value
                        + [Code(Jump(loop), Bare), Label(inner.doneLabel)], inner));
  }

  /** `convert_for`, on a deep copy: the synthesised `i = a` and `while i < b:` run
      one after the other on it. */
  method ConvertFor(n: Node, extra: ExtraData) returns (r: Result<Converted>)
    requires n.For?
    decreases Size(n), 0
    ensures var s := LowerFor(n, extra.Value());
      && (r.Ok? <==> s.Ok?)
      && (r.Ok? ==> r.value.code == s.value.code && r.value.extra.Value() == s.value.result)
  {
    var copy := new ExtraData.DeepCopy(extra);
    if !IsRangeFor(n) {
      return Err("only for ... in range(a, b) is supported");
    }
    var parts := DesugarFor(n);
    var init := ConvertAny(parts.init, copy);
    if init.Err? {
      return Err(init.reason);
    }
    var loop := ConvertAny(parts.loop, copy);
    if loop.Err? {
      return Err(loop.reason);
    }
    return Ok(Converted(init.value.code + loop.value.code, copy));
  }

  /** `convert_module`: a fresh object; after each statement the object becomes the
      sum of itself and the statement's result. */
  method ConvertModule(body: seq<Node>) returns (r: Result<Converted>)
    ensures var s := LowerModule(body);
      && (r.Ok? <==> s.Ok?)
      && (r.Ok? ==> r.value.code == s.value.code && r.value.extra.Value() == s.value.extra)
  {
    var code: seq<Unit> := [];
    var extra := new ExtraData([]);
    for i := 0 to |body|
      invariant fresh(extra.memory)
      invariant LowerModule(body[..i]) == Ok(Accumulated(code, extra.Value()))
    {
      assert body[..i + 1][..i] == body[..i];
      var sub := ConvertAny(body[i], extra);
      if sub.Err? {
        if LowerModule(body).Ok? {
          ModulePrefixes(body, i + 1);
        }
        return Err(sub.reason);
      }
      code := code + sub.value.code;
      extra := extra.Plus(sub.value.extra);
    }
    assert body[..|body|] == body;
    return Ok(Converted(code, extra));
  }

  /** `assembly_code`: converts the module, appends the halt, renders the code
      section, then writes a blank line and the data section. */
  method AssemblyCode(body: seq<Node>, unparse: Node -> string) returns (r: Result<string>)
    ensures r.Ok? <==> Compile(body, unparse).Ok?
    ensures r.Ok? ==> r.value == Compile(body, unparse).value
  {
    var converted := ConvertModule(body);
    if converted.Err? {
      return Err(converted.reason);
    }
    var memory := converted.value.extra.memory.entries;
    var text := AttachLabels(converted.value.code + [Halt], unparse);
    text := text + [""] + DataLines(memory);
    return Ok(Join(text, "\n"));
  }

  /** The loop of `assembly_code` over the code: a marker records its label, an
      instruction is written with the recorded label in its 20-column field, which
      is then cleared. */
  method AttachLabels(units: seq<Unit>, unparse: Node -> string) returns (text: seq<string>)
    ensures text == RenderLines(Linearize(units, ""), unparse)
  {
    text := [];
    ghost var done: seq<Line> := [];
    var pending := "";
    assert units[0..] == units;
    for i := 0 to |units|
      invariant Linearize(units, "") == done + Linearize(units[i..], pending)
      invariant text == RenderLines(done, unparse)
    {
      LinearizeStep(units, i, pending);
      match units[i] {
        case Label(name) =>
          pending := name;
        case Code(instr, note) =>
          var line := Line(pending, instr, note);
          RenderLinesAppend(done, line, unparse);
          text := text + [RenderLine(line, unparse)];
          done := done + [line];
          pending := "";
      }
    }
    assert units[|units|..] == [];
  }

  lemma WhileSteps(n: Node, ctx: Extra, test: seq<Unit>, start: Table, body: seq<Unit>, m: Table)
    requires n.While?
    requires var inner := ctx.(loopLabel := LoopLabel(n.line), trueLabel := TrueLabel(n.line),
                               doneLabel := DoneLabel(n.line));
      && LowerAny(n.test, inner).Ok?
      && LowerAny(n.test, inner).value.code == test
      && LowerAny(n.test, inner).value.memory == start
      && LowerBody(n.body, inner, start) == Ok(Emitted(body, m))
    ensures var l, t, d := LoopLabel(n.line), TrueLabel(n.line), DoneLabel(n.line);
      LowerWhile(n, ctx) == Ok(Lowered([Label(l)] + test + [Label(t)] + body + [Code(Jump(l), Bare), Label(d)],
                                       ctx.(loopLabel := l, trueLabel := t, doneLabel := d, memory := m),
                                       ctx.memory))
  {
  }

  /** One step of the label-attaching loop. */
  lemma LinearizeStep(units: seq<Unit>, i: nat, pending: string)
    requires i < |units|
    ensures Linearize(units[i..], pending)
         == if units[i].Label? then Linearize(units[i + 1..], units[i].name)
            else [Line(pending, units[i].instr, units[i].note)] + Linearize(units[i + 1..], "")
  {
    assert units[i..][1..] == units[i + 1..];
  }
}
