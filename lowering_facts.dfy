/** What the lowering promises, construct by construct, and the invariants it keeps. */
module LoweringFacts {
  import opened Failures
  import opened Syntax
  import opened Text
  import opened Memory
  import opened Context
  import opened Assembly
  import opened Lowering

  predicate ValidBinOp(n: Node)
  {
    n.BinOp? && IsOperand(n.left) && !n.op.OtherBinOp? && IsOperand(n.right)
  }

  predicate ValidCompare(n: Node)
  {
    && n.Compare? && IsOperand(n.left)
    && |n.comparators| == 1 && IsOperand(n.comparators[0])
    && |n.ops| == 1 && !n.ops[0].OtherCmpOp?
  }

  /** The five instructions of a comparison staged in R1 and R2. */
  function CompareUnits(n: Node, trueLabel: string, doneLabel: string): seq<Unit>
    requires ValidCompare(n)
  {
    [Code(OperandLoad(1, n.left), Bare),
     Code(OperandLoad(2, n.comparators[0]), Bare),
     Code(Cmp(1, 2), Bare),
     Code(CondJump(ConditionOf(n.ops[0]), trueLabel), Bare),
     Code(Jump(doneLabel), Bare)]
  }

  /** The three instructions of an arithmetic expression: result in R1, operands
      staged in R2 and R3, left before right. */
  function BinOpUnits(n: Node): seq<Unit>
    requires ValidBinOp(n)
  {
    [Code(OperandLoad(2, n.left), Source(n)),
     Code(OperandLoad(3, n.right), Source(n)),
     Code(Arith(ArithOf(n.op), 1, 2, 3), Source(n))]
  }

  /** A binary operation from an unlocked context uses R1 for the result and R2, R3
      for the operands; nested or other operands and other operators fail. */
  lemma BinOpShape(n: Node, ctx: Extra)
    requires n.BinOp? && Unlocked(ctx)
    ensures LowerAny(n, ctx).Ok? <==> ValidBinOp(n)
    ensures ValidBinOp(n) ==>
      && LowerAny(n, ctx).value.code == BinOpUnits(n)
      && LowerAny(n, ctx).value.result.target == 1
      && LowerAny(n, ctx).value.memory == ctx.memory
  {
    AllocateFromUnlocked(ctx);
  }

  /** A comparison from an unlocked context: exactly five instructions with R1, R2,
      jumping to the context's true label, else to its done label; anything but one
      operator and one comparator, both plain operands, fails. */
  lemma CompareShape(n: Node, ctx: Extra)
    requires n.Compare? && Unlocked(ctx)
    ensures LowerAny(n, ctx).Ok? <==> ValidCompare(n)
    ensures ValidCompare(n) ==>
      && LowerAny(n, ctx).value.code == CompareUnits(n, ctx.trueLabel, ctx.doneLabel)
      && LowerAny(n, ctx).value.memory == ctx.memory
  {
    AllocateFromUnlocked(ctx);
  }

  /** `x = c`: the first assignment of a name declares it with c and emits nothing;
      a later one emits `lea R1,c` and `store R1,x` and leaves the declared value. */
  lemma AssignConstant(line: nat, target: Node, c: Node, ctx: Extra)
    requires target.Name? && c.Constant?
    ensures var n := Assign(line, [target], c);
      var r := LowerAny(n, ctx);
      && r.Ok?
      && r.value.result == ctx.(memory := r.value.memory)
      && (if Has(ctx.memory, target.id) then
            r.value.code == [Code(Lea(1, c.literal), Source(n)), Code(Store(1, target.id), Source(n))]
            && r.value.memory == ctx.memory
          else
            r.value.code == [] && r.value.memory == ctx.memory + [Entry(target.id, c.literal)])
  {
    var n := Assign(line, [target], c);
    assert Ids(n.targets) == [target.id];
    assert [target.id][..0] == [];
    assert ConstantStores(n, [], c.literal, ctx.memory) == Emitted([], ctx.memory);
    var pair := [Code(Lea(1, c.literal), Source(n)), Code(Store(1, target.id), Source(n))];
    assert [] + pair == pair;
  }

  /** An assignment whose targets are not all names fails, whatever its value. */
  lemma AssignNeedsNames(n: Node, ctx: Extra)
    requires n.Assign?
    ensures LowerAny(n, ctx).Ok? ==> AllNames(n.targets)
    ensures LowerAny(n, ctx).Ok? ==> n.value.Constant? || n.value.BinOp?
  {
  }

  /** The stores of a computed result: one `store` per target, in order. */
  lemma {:induction false} ResultStoresCode(n: Node, names: seq<string>, r: int, m: Table)
    ensures var e := ResultStores(n, names, r, m);
      && |e.code| == |names|
      && forall k :: 0 <= k < |names| ==> e.code[k] == Code(Store(r, names[k]), Source(n))
    decreases |names|
  {
    if names != [] {
      var pre := names[..|names| - 1];
      var x := names[|names| - 1];
      ResultStoresCode(n, pre, r, m);
      var prev := ResultStores(n, pre, r, m).code;
      assert names == pre + [x];
      assert ResultStores(n, names, r, m).code == prev + [Code(Store(r, x), Source(n))];
      StoreStep(prev, pre, x, r, n);
    }
  }

  /** One more target, one more store at the end. */
  lemma StoreStep(code: seq<Unit>, pre: seq<string>, x: string, r: int, n: Node)
    requires |code| == |pre|
    requires forall k :: 0 <= k < |pre| ==> code[k] == Code(Store(r, pre[k]), Source(n))
    ensures var c, xs := code + [Code(Store(r, x), Source(n))], pre + [x];
      |c| == |xs| && forall k :: 0 <= k < |xs| ==> c[k] == Code(Store(r, xs[k]), Source(n))
  {
    var c, xs := code + [Code(Store(r, x), Source(n))], pre + [x];
    forall k | 0 <= k < |xs| ensures c[k] == Code(Store(r, xs[k]), Source(n)) {
      if k < |pre| {
        assert c[k] == code[k] && xs[k] == pre[k];
      }
    }
  }

  /** Entries past m that hold v for some of the names stay so when more names are allowed. */
  lemma ValueTail(m: Table, prev: Table, pre: seq<string>, more: seq<string>, v: nat)
    requires forall k :: |m| <= k < |prev| ==> prev[k].value == v && prev[k].name in pre
    ensures forall k :: |m| <= k < |prev| ==> prev[k].value == v && prev[k].name in pre + more
  {
  }

  /** Appending v for x, one of the names, keeps every entry past m a v for one of them. */
  lemma ValueTailAppend(m: Table, prev: Table, names: seq<string>, x: string, v: nat)
    requires |m| <= |prev| && x in names
    requires forall k :: |m| <= k < |prev| ==> prev[k].value == v && prev[k].name in names
    ensures var mem := prev + [Entry(x, v)];
      forall k :: |m| <= k < |mem| ==> mem[k].value == v && mem[k].name in names
  {
    var mem := prev + [Entry(x, v)];
    forall k | |m| <= k < |mem| ensures mem[k].value == v && mem[k].name in names {
      if k < |prev| {
        assert mem[k] == prev[k];
      }
    }
  }

  /** One target of a store: defaulting x to v keeps the facts ResultStoresMemory
      and ConstantStoresFacts state, now for the names followed by x. */
  lemma DefaultStep(m: Table, prev: Table, pre: seq<string>, x: string, v: nat)
    requires m <= prev && Distinct(prev)
    requires forall k :: |m| <= k < |prev| ==> prev[k].value == v && prev[k].name in pre
    requires forall y :: y in pre ==> Has(prev, y)
    ensures var mem := Defaulted(prev, x, v);
      && m <= mem && Distinct(mem)
      && (forall k :: |m| <= k < |mem| ==> mem[k].value == v && mem[k].name in pre + [x])
      && (forall y :: y in pre + [x] ==> Has(mem, y))
  {
    var mem := Defaulted(prev, x, v);
    DefaultedKeepsDistinct(prev, x, v);
    HasDefaulted(prev, x, v);
    ValueTail(m, prev, pre, [x], v);
    if !Has(prev, x) {
      assert mem == prev + [Entry(x, v)];
      ValueTailAppend(m, prev, pre + [x], x, v);
    }
    HasAll(prev, mem, pre, x);
  }

  /** Every earlier name is still present in an extension that has the last one. */
  lemma HasAll(prev: Table, mem: Table, pre: seq<string>, x: string)
    requires prev <= mem && Has(mem, x)
    requires forall y :: y in pre ==> Has(prev, y)
    ensures forall y :: y in pre + [x] ==> Has(mem, y)
  {
    forall y | y in pre + [x] ensures Has(mem, y) {
      if y != x {
        HasExtension(prev, mem, y);
      }
    }
  }

  /** Each target name is defaulted to 0 only when absent, and nothing else changes. */
  lemma {:induction false} ResultStoresMemory(n: Node, names: seq<string>, r: int, m: Table)
    requires Distinct(m)
    ensures var e := ResultStores(n, names, r, m);
      && m <= e.memory && Distinct(e.memory)
      && (forall k :: |m| <= k < |e.memory| ==> e.memory[k].value == 0 && e.memory[k].name in names)
      && (forall x :: x in names ==> Has(e.memory, x))
    decreases |names|
  {
    if names != [] {
      var pre := names[..|names| - 1];
      var x := names[|names| - 1];
      ResultStoresMemory(n, pre, r, m);
      var prev := ResultStores(n, pre, r, m).memory;
      assert names == pre + [x];
      assert ResultStores(n, names, r, m).memory == Defaulted(prev, x, 0);
      DefaultStep(m, prev, pre, x, 0);
    }
  }

  /** `xs = a op b` from an unlocked context: the three arithmetic instructions, then
      `store R1,x` for each target x, each name defaulted to 0 when absent. */
  lemma AssignBinOp(n: Node, ctx: Extra)
    requires n.Assign? && n.value.BinOp? && AllNames(n.targets)
    requires Unlocked(ctx) && Distinct(ctx.memory)
    ensures LowerAny(n, ctx).Ok? <==> ValidBinOp(n.value)
    ensures ValidBinOp(n.value) ==>
      var r := LowerAny(n, ctx).value;
      var xs := Ids(n.targets);
      && |r.code| == 3 + |xs|
      && r.code[..3] == BinOpUnits(n.value)
      && (forall k :: 0 <= k < |xs| ==> r.code[3 + k] == Code(Store(1, xs[k]), Source(n)))
      && ctx.memory <= r.memory
      && (forall k :: |ctx.memory| <= k < |r.memory| ==> r.memory[k].value == 0 && r.memory[k].name in xs)
      && (forall x :: x in xs ==> Has(r.memory, x))
  {
    BinOpShape(n.value, ctx);
    if ValidBinOp(n.value) {
      ResultStoresCode(n, Ids(n.targets), 1, ctx.memory);
      ResultStoresMemory(n, Ids(n.targets), 1, ctx.memory);
      var b := LowerBinOp(n.value, ctx).value;
      var e := ResultStores(n, Ids(n.targets), 1, ctx.memory);
      assert LowerAny(n, ctx).value.code == b.code + e.code;
    }
  }

  /** Only R1, R2, R3 are ever used, and only the emitter writes the halt. */
  predicate FixedRegisters(u: Unit)
  {
    match u
    case Label(_) => true
    case Code(i, _) =>
      match i
      case Load(r, _) => 1 <= r <= 3
      case Lea(r, _) => 1 <= r <= 3
      case Store(r, _) => r == 1
      case Arith(_, d, a, b) => d == 1 && a == 2 && b == 3
      case Cmp(a, b) => a == 1 && b == 2
      case CondJump(_, _) => true
      case Jump(_) => true
      case Trap => false
  }

  predicate AllFixed(units: seq<Unit>)
  {
    forall k :: 0 <= k < |units| ==> FixedRegisters(units[k])
  }

  /** Each target of a constant assignment is declared with the constant when
      absent, and a present one keeps its entry: afterwards every target is
      declared, the entries past m all hold the constant for one of the targets,
      and each target got either a declaration or a `lea`/`store` pair. */
  lemma {:induction false} ConstantStoresFacts(n: Node, names: seq<string>, c: nat, m: Table)
    requires Distinct(m)
    ensures var e := ConstantStores(n, names, c, m);
      && m <= e.memory && Distinct(e.memory) && AllFixed(e.code)
      && (forall k :: |m| <= k < |e.memory| ==> e.memory[k].value == c && e.memory[k].name in names)
      && (forall x :: x in names ==> Has(e.memory, x))
      && |e.code| + 2 * (|e.memory| - |m|) == 2 * |names|
    decreases |names|
  {
    if names != [] {
      var pre := names[..|names| - 1];
      var x := names[|names| - 1];
      ConstantStoresFacts(n, pre, c, m);
      ConstantStoresFixed(n, names, c, m);
      var prev := ConstantStores(n, pre, c, m);
      assert names == pre + [x];
      assert ConstantStores(n, names, c, m).memory == Defaulted(prev.memory, x, c);
      DefaultStep(m, prev.memory, pre, x, c);
    }
  }

  /** Lowering only appends to the memory table and never repeats a name: the
      caller's table and the returned one extend the table the lowering started
      from, so a declared value is never replaced. */
  lemma {:induction false} GrowsAny(n: Node, ctx: Extra)
    requires Distinct(ctx.memory) && LowerAny(n, ctx).Ok?
    ensures var r := LowerAny(n, ctx).value;
      ctx.memory <= r.memory <= r.result.memory && Distinct(r.result.memory)
    decreases Size(n), 1
  {
    match n
    case Assign(_, _, _) => GrowsAssign(n, ctx);
    case BinOp(_, _, _, _) => OperationKeepsMemory(n, ctx);
    case Compare(_, _, _, _) => OperationKeepsMemory(n, ctx);
    case If(_, _, _, _) => GrowsIf(n, ctx);
    case While(_, _, _, _) => GrowsWhile(n, ctx);
    case For(_, _, _, _, _) => GrowsFor(n, ctx);
  }

  /** An operation or a comparison works on a shallow copy and declares nothing. */
  lemma OperationKeepsMemory(n: Node, ctx: Extra)
    requires (n.BinOp? || n.Compare?) && LowerAny(n, ctx).Ok?
    ensures LowerAny(n, ctx).value.memory == LowerAny(n, ctx).value.result.memory == ctx.memory
  {
    if n.BinOp? {
      assert LowerAny(n, ctx) == LowerBinOp(n, ctx);
    } else {
      assert LowerAny(n, ctx) == LowerCompare(n, ctx);
    }
  }

  lemma GrowsAssign(n: Node, ctx: Extra)
    requires n.Assign? && Distinct(ctx.memory) && LowerAny(n, ctx).Ok?
    ensures var r := LowerAny(n, ctx).value;
      ctx.memory <= r.memory <= r.result.memory && Distinct(r.result.memory)
  {
    var names := Ids(n.targets);
    if n.value.Constant? {
      ConstantStoresFacts(n, names, n.value.literal, ctx.memory);
    } else {
      ResultStoresMemory(n, names, LowerBinOp(n.value, ctx).value.result.target, ctx.memory);
    }
  }

  lemma {:induction false} GrowsIf(n: Node, ctx: Extra)
    requires n.If? && Distinct(ctx.memory) && LowerAny(n, ctx).Ok?
    ensures var r := LowerAny(n, ctx).value;
      ctx.memory <= r.memory <= r.result.memory && Distinct(r.result.memory)
    decreases Size(n), 0
  {
    var inner := ctx.(trueLabel := TrueLabel(n.line), doneLabel := DoneLabel(n.line));
    GrowsAny(n.test, inner);
    GrowsBody(n.body, inner, LowerAny(n.test, inner).value.memory);
  }

  lemma {:induction false} GrowsWhile(n: Node, ctx: Extra)
    requires n.While? && Distinct(ctx.memory) && LowerAny(n, ctx).Ok?
    ensures var r := LowerAny(n, ctx).value;
      ctx.memory <= r.memory <= r.result.memory && Distinct(r.result.memory)
    decreases Size(n), 0
  {
    var inner := ctx.(loopLabel := LoopLabel(n.line), trueLabel := TrueLabel(n.line),
                      doneLabel := DoneLabel(n.line));
    GrowsAny(n.test, inner);
    GrowsBody(n.body, inner, LowerAny(n.test, inner).value.memory);
  }

  lemma {:induction false} GrowsFor(n: Node, ctx: Extra)
    requires n.For? && Distinct(ctx.memory) && LowerAny(n, ctx).Ok?
    ensures var r := LowerAny(n, ctx).value;
      ctx.memory <= r.memory <= r.result.memory && Distinct(r.result.memory)
    decreases Size(n), 0
  {
    var parts := DesugarFor(n);
    GrowsAny(parts.init, ctx);
    GrowsAny(parts.loop, ctx.(memory := LowerAny(parts.init, ctx).value.memory));
  }

  lemma {:induction false} GrowsBody(s: seq<Node>, ctx: Extra, m: Table)
    requires Distinct(m) && LowerBody(s, ctx, m).Ok?
    ensures m <= LowerBody(s, ctx, m).value.memory
    ensures Distinct(LowerBody(s, ctx, m).value.memory)
    decreases SizeSeq(s), 2
  {
    if s != [] {
      GrowsBody(s[..|s| - 1], ctx, m);
      var prev := LowerBody(s[..|s| - 1], ctx, m).value;
      GrowsAny(s[|s| - 1], ctx.(memory := prev.memory));
    }
  }

  /** Register locks never carry from one statement to the next: from an unlocked
      context every arithmetic instruction is `op R1,R2,R3`, every comparison
      `cmp R1,R2`, every store goes through R1, and no halt is emitted. */
  lemma {:induction false} FixedAny(n: Node, ctx: Extra)
    requires Unlocked(ctx) && LowerAny(n, ctx).Ok?
    ensures AllFixed(LowerAny(n, ctx).value.code)
    decreases Size(n), 1
  {
    match n
    case Assign(_, _, _) =>
      FixedAssign(n, ctx);
    case BinOp(_, _, _, _) =>
      OperationFixed(n, ctx);
    case Compare(_, _, _, _) =>
      OperationFixed(n, ctx);
    case If(_, _, _, _) =>
      FixedIf(n, ctx);
    case While(_, _, _, _) =>
      FixedWhile(n, ctx);
    case For(_, _, _, _, _) =>
      FixedFor(n, ctx);
  }

  lemma OperationFixed(n: Node, ctx: Extra)
    requires (n.BinOp? || n.Compare?) && Unlocked(ctx) && LowerAny(n, ctx).Ok?
    ensures AllFixed(LowerAny(n, ctx).value.code)
  {
    if n.BinOp? {
      BinOpShape(n, ctx);
      assert AllFixed(BinOpUnits(n));
    } else {
      CompareShape(n, ctx);
      assert AllFixed(CompareUnits(n, ctx.trueLabel, ctx.doneLabel));
    }
  }

  lemma FixedFor(n: Node, ctx: Extra)
    requires n.For? && Unlocked(ctx) && LowerAny(n, ctx).Ok?
    ensures AllFixed(LowerAny(n, ctx).value.code)
    decreases Size(n), 0
  {
    var parts := DesugarFor(n);
    var a := LowerAny(parts.init, ctx).value;
    var w := LowerAny(parts.loop, ctx.(memory := a.memory)).value;
    assert LowerAny(n, ctx).value.code == a.code + w.code;
    FixedAny(parts.init, ctx);
    FixedAny(parts.loop, ctx.(memory := a.memory));
    AllFixedAppend(a.code, w.code);
  }

  lemma FixedIf(n: Node, ctx: Extra)
    requires n.If? && Unlocked(ctx) && LowerAny(n, ctx).Ok?
    ensures AllFixed(LowerAny(n, ctx).value.code)
    decreases Size(n), 0
  {
    var inner := ctx.(trueLabel := TrueLabel(n.line), doneLabel := DoneLabel(n.line));
    var t := LowerAny(n.test, inner).value;
    FixedAny(n.test, inner);
    FixedBody(n.body, inner, t.memory);
    var b := LowerBody(n.body, inner, t.memory).value;
    assert LowerAny(n, ctx).value.code == t.code + [Label(inner.trueLabel)] + b.code + [Label(inner.doneLabel)];
    AllFixedAppend(t.code, [Label(inner.trueLabel)]);
    AllFixedAppend(t.code + [Label(inner.trueLabel)], b.code);
    AllFixedAppend(t.code + [Label(inner.trueLabel)] + b.code, [Label(inner.doneLabel)]);
  }

  lemma FixedWhile(n: Node, ctx: Extra)
    requires n.While? && Unlocked(ctx) && LowerAny(n, ctx).Ok?
    ensures AllFixed(LowerAny(n, ctx).value.code)
    decreases Size(n), 0
  {
    var inner := ctx.(loopLabel := LoopLabel(n.line), trueLabel := TrueLabel(n.line),
                      doneLabel := DoneLabel(n.line));
    var t := LowerAny(n.test, inner).value;
    FixedAny(n.test, inner);
    FixedBody(n.body, inner, t.memory);
    var b := LowerBody(n.body, inner, t.memory).value;
    var head := [Label(inner.loopLabel)] + t.code + [Label(inner.trueLabel)];
    var tail := [Code(Jump(inner.loopLabel), Bare), Label(inner.doneLabel)];
    assert LowerAny(n, ctx).value.code == head + b.code + tail;
    AllFixedAppend([Label(inner.loopLabel)], t.code);
    AllFixedAppend([Label(inner.loopLabel)] + t.code, [Label(inner.trueLabel)]);
    AllFixedAppend(head, b.code);
    AllFixedAppend(head + b.code, tail);
  }

  lemma {:induction false} FixedBody(s: seq<Node>, ctx: Extra, m: Table)
    requires Unlocked(ctx) && LowerBody(s, ctx, m).Ok?
    ensures AllFixed(LowerBody(s, ctx, m).value.code)
    decreases SizeSeq(s), 2
  {
    if s != [] {
      FixedBody(s[..|s| - 1], ctx, m);
      var prev := LowerBody(s[..|s| - 1], ctx, m).value;
      FixedAny(s[|s| - 1], ctx.(memory := prev.memory));
      AllFixedAppend(prev.code, LowerAny(s[|s| - 1], ctx.(memory := prev.memory)).value.code);
    }
  }

  /** Code of a constant assignment: `lea R1,c` and `store R1,x` pairs, x one of the targets. */
  predicate ConstantPairs(code: seq<Unit>, n: Node, names: seq<string>, c: nat)
  {
    && |code| % 2 == 0
    && forall k :: 0 <= k < |code| ==>
         if k % 2 == 0 then code[k] == Code(Lea(1, c), Source(n))
         else code[k].Code? && code[k].note == Source(n) && code[k].instr.Store?
              && code[k].instr.r == 1 && code[k].instr.name in names
  }

  /** A constant assignment writes only through R1, in `lea`/`store` pairs. */
  lemma {:induction false} ConstantStoresFixed(n: Node, names: seq<string>, c: nat, m: Table)
    ensures var code := ConstantStores(n, names, c, m).code;
      AllFixed(code) && ConstantPairs(code, n, names, c)
    decreases |names|
  {
    if names != [] {
      var pre := names[..|names| - 1];
      var x := names[|names| - 1];
      ConstantStoresFixed(n, pre, c, m);
      assert names == pre + [x];
      PairStep(ConstantStores(n, pre, c, m).code, n, pre, x, c);
    }
  }

  /** One more target: the pairs so far, followed by at most one more pair for it. */
  lemma PairStep(code: seq<Unit>, n: Node, pre: seq<string>, x: string, c: nat)
    requires ConstantPairs(code, n, pre, c)
    ensures ConstantPairs(code, n, pre + [x], c)
    ensures ConstantPairs(code + [Code(Lea(1, c), Source(n)), Code(Store(1, x), Source(n))], n, pre + [x], c)
  {
    var more := code + [Code(Lea(1, c), Source(n)), Code(Store(1, x), Source(n))];
    forall k | 0 <= k < |more| && k >= |code|
      ensures more[k] == [Code(Lea(1, c), Source(n)), Code(Store(1, x), Source(n))][k - |code|]
    {
    }
  }

  lemma FixedAssign(n: Node, ctx: Extra)
    requires n.Assign? && Unlocked(ctx) && LowerAssign(n, ctx).Ok?
    ensures AllFixed(LowerAssign(n, ctx).value.code)
  {
    var names := Ids(n.targets);
    if n.value.Constant? {
      ConstantStoresFixed(n, names, n.value.literal, ctx.memory);
    } else {
      BinOpShape(n.value, ctx);
      ResultStoresFixed(n, names, ctx.memory);
      var b := LowerBinOp(n.value, ctx).value;
      var e := ResultStores(n, names, 1, ctx.memory);
      assert LowerAssign(n, ctx).value.code == b.code + e.code;
      assert AllFixed(b.code);
      AllFixedAppend(b.code, e.code);
    }
  }

  lemma ResultStoresFixed(n: Node, names: seq<string>, m: Table)
    ensures AllFixed(ResultStores(n, names, 1, m).code)
  {
    ResultStoresCode(n, names, 1, m);
    var c := ResultStores(n, names, 1, m).code;
    forall k | 0 <= k < |c| ensures FixedRegisters(c[k]) {
      assert c[k] == Code(Store(1, names[k]), Source(n));
    }
  }

  /** `if` with a comparison test: the comparison jumps to `true<line>` or
      `done<line>`, the body sits between those two labels, and what the body
      declares reaches the caller. */
  lemma IfShape(n: Node, ctx: Extra)
    requires n.If? && n.test.Compare? && Unlocked(ctx)
    ensures var t, d := TrueLabel(n.line), DoneLabel(n.line);
      var body := LowerBody(n.body, ctx.(trueLabel := t, doneLabel := d), ctx.memory);
      var r := LowerAny(n, ctx);
      && (r.Ok? <==> ValidCompare(n.test) && body.Ok?)
      && (r.Ok? ==>
            && r.value.code == CompareUnits(n.test, t, d) + [Label(t)] + body.value.code + [Label(d)]
            && r.value.memory == body.value.memory
            && r.value.result.memory == body.value.memory)
  {
    CompareShape(n.test, ctx.(trueLabel := TrueLabel(n.line), doneLabel := DoneLabel(n.line)));
  }

  /** `while` with a comparison test: `loop<line>` before the test, the body between
      `true<line>` and a jump back, `done<line>` last; what the body declares stays
      in the returned context and never reaches the caller. */
  lemma WhileShape(n: Node, ctx: Extra)
    requires n.While? && n.test.Compare? && Unlocked(ctx)
    ensures var l, t, d := LoopLabel(n.line), TrueLabel(n.line), DoneLabel(n.line);
      var body := LowerBody(n.body, ctx.(loopLabel := l, trueLabel := t, doneLabel := d), ctx.memory);
      var r := LowerAny(n, ctx);
      && (r.Ok? <==> ValidCompare(n.test) && body.Ok?)
      && (r.Ok? ==>
            && r.value.code == [Label(l)] + CompareUnits(n.test, t, d) + [Label(t)]
                               + body.value.code + [Code(Jump(l), Bare), Label(d)]
            && r.value.memory == ctx.memory
            && r.value.result.memory == body.value.memory)
  {
    CompareShape(n.test, ctx.(loopLabel := LoopLabel(n.line), trueLabel := TrueLabel(n.line),
                              doneLabel := DoneLabel(n.line)));
  }

  /** A `while` never changes its caller's memory, whatever its test or body. */
  lemma WhileKeepsCaller(n: Node, ctx: Extra)
    requires n.While? && LowerAny(n, ctx).Ok?
    ensures LowerAny(n, ctx).value.memory == ctx.memory
  {
  }

  /** `for i in range(a, b): body` lowers exactly as the two statements `i = a` and
      `while i < b: body; i = i + 1` written out in sequence would. */
  lemma ForRewrite(n: Node, ctx: Extra)
    requires IsRangeFor(n)
    ensures var line, i := n.line, n.target.id;
      var init := Assign(line, [Name(line, i)], Constant(line, n.iter.args[0].literal));
      var step := Assign(line, [Name(line, i)], BinOp(line, Name(line, i), Add, Constant(line, 1)));
      var test := Compare(line, Name(line, i), [Lt], [Constant(line, n.iter.args[1].literal)]);
      var written := LowerBody([init, While(line, test, n.body + [step], [])], ctx, ctx.memory);
      && (LowerAny(n, ctx).Ok? <==> written.Ok?)
      && (written.Ok? ==> LowerAny(n, ctx).value.code == written.value.code)
  {
    var parts := DesugarFor(n);
    assert ctx.(memory := ctx.memory) == ctx;
    BodyOfTwo(parts.init, parts.loop, ctx, ctx.memory);
  }

  /** Two statements in sequence: the second sees the memory the first leaves. */
  lemma BodyOfTwo(x: Node, y: Node, ctx: Extra, m: Table)
    ensures var a := LowerAny(x, ctx.(memory := m));
      var written := LowerBody([x, y], ctx, m);
      && (written.Ok? <==> a.Ok? && LowerAny(y, ctx.(memory := a.value.memory)).Ok?)
      && (written.Ok? ==>
            && written.value.code == a.value.code + LowerAny(y, ctx.(memory := a.value.memory)).value.code
            && written.value.memory == LowerAny(y, ctx.(memory := a.value.memory)).value.memory)
  {
    var s := [x, y];
    assert s[..|s| - 1] == [x] && s[|s| - 1] == y;
    BodyOfOne(x, ctx, m);
  }

  lemma BodyOfOne(x: Node, ctx: Extra, m: Table)
    ensures var a := LowerAny(x, ctx.(memory := m));
      && (LowerBody([x], ctx, m).Ok? <==> a.Ok?)
      && (a.Ok? ==> LowerBody([x], ctx, m).value == Emitted(a.value.code, a.value.memory))
  {
    assert [x][..0] == [];
    var a := LowerAny(x, ctx.(memory := m));
    if a.Ok? {
      assert [] + a.value.code == a.value.code;
    }
  }

  /** A `for` declares its loop variable (with the range's start, unless already
      declared) in the context it returns; the caller's memory is untouched and
      nothing the body declares survives. */
  lemma ForDeclaresOnlyItsVariable(n: Node, ctx: Extra)
    requires IsRangeFor(n) && LowerAny(n, ctx).Ok?
    ensures LowerAny(n, ctx).value.memory == ctx.memory
    ensures LowerAny(n, ctx).value.result.memory
         == Defaulted(ctx.memory, n.target.id, n.iter.args[0].literal)
  {
    var parts := DesugarFor(n);
    AssignConstant(n.line, Name(n.line, n.target.id), Constant(n.line, n.iter.args[0].literal), ctx);
    var a := LowerAny(parts.init, ctx).value;
    assert a.memory == Defaulted(ctx.memory, n.target.id, n.iter.args[0].literal);
    WhileKeepsCaller(parts.loop, ctx.(memory := a.memory));
  }

  /** Any other `for` is refused. */
  lemma ForRejected(n: Node, ctx: Extra)
    requires n.For? && !IsRangeFor(n)
    ensures LowerAny(n, ctx).Err?
  {
  }

  /** The same `if`, `while` or `for` with another `else` branch. */
  function WithOrelse(n: Node, orelse: seq<Node>): Node
    requires n.If? || n.While? || n.For?
  {
    if n.If? then If(n.line, n.test, n.body, orelse)
    else if n.While? then While(n.line, n.test, n.body, orelse)
    else For(n.line, n.target, n.iter, n.body, orelse)
  }

  /** `else` branches of `if`, `while` and `for` are ignored. */
  lemma OrelseIgnored(n: Node, orelse: seq<Node>, ctx: Extra)
    requires n.If? || n.While? || n.For?
    ensures LowerAny(WithOrelse(n, orelse), ctx) == LowerAny(n, ctx)
  {
    if n.For? && IsRangeFor(n) {
      assert DesugarFor(WithOrelse(n, orelse)) == DesugarFor(n);
    }
  }

  /** After every statement of a module the context is reset to no locks, no target
      and no labels; the merged memory is then exactly the memory the statement
      returned, it has no repeated name, and the whole program uses fixed registers. */
  lemma ModuleWellFormed(body: seq<Node>)
    requires LowerModule(body).Ok?
    ensures var a := LowerModule(body).value;
      && Unlocked(a.extra)
      && a.extra.trueLabel == a.extra.doneLabel == a.extra.loopLabel == ""
      && Distinct(a.extra.memory)
      && AllFixed(a.code)
  {
    ModuleDistinct(body);
    ModuleFixed(body);
  }

  lemma {:induction false} ModuleFixed(body: seq<Node>)
    requires LowerModule(body).Ok?
    ensures Unlocked(LowerModule(body).value.extra)
    ensures AllFixed(LowerModule(body).value.code)
    decreases |body|
  {
    if body != [] {
      var pre := body[..|body| - 1];
      ModuleFixed(pre);
      var prev := LowerModule(pre).value;
      FixedAny(body[|body| - 1], prev.extra);
      var r := LowerAny(body[|body| - 1], prev.extra).value;
      assert LowerModule(body).value.code == prev.code + r.code;
      AllFixedAppend(prev.code, r.code);
    }
  }

  lemma AllFixedAppend(a: seq<Unit>, b: seq<Unit>)
    requires AllFixed(a) && AllFixed(b)
    ensures AllFixed(a + b)
  {
    forall k | 0 <= k < |a + b| ensures FixedRegisters((a + b)[k]) {
      if k >= |a| {
        assert (a + b)[k] == b[k - |a|];
      }
    }
  }

  /** One more statement: the program so far lowers on its own, its code is a
      prefix of the new code, and the memory grows to what the statement returns. */
  lemma ModuleStep(body: seq<Node>)
    requires body != [] && LowerModule(body).Ok?
    ensures var prev := LowerModule(body[..|body| - 1]);
      var a := LowerModule(body).value;
      && prev.Ok?
      && prev.value.code <= a.code
      && prev.value.extra.memory <= a.extra.memory
      && a.extra.memory == LowerAny(body[|body| - 1], prev.value.extra).value.result.memory
  {
    var pre := body[..|body| - 1];
    var prev := LowerModule(pre).value;
    ModuleDistinct(pre);
    var r := LowerAny(body[|body| - 1], prev.extra).value;
    GrowsAny(body[|body| - 1], prev.extra);
    MergedExtension(r.memory, r.result.memory);
  }

  lemma {:induction false} ModuleDistinct(body: seq<Node>)
    requires LowerModule(body).Ok?
    ensures Distinct(LowerModule(body).value.extra.memory)
    decreases |body|
  {
    if body != [] {
      var pre := body[..|body| - 1];
      ModuleDistinct(pre);
      var prev := LowerModule(pre).value;
      var r := LowerAny(body[|body| - 1], prev.extra).value;
      GrowsAny(body[|body| - 1], prev.extra);
      MergedExtension(r.memory, r.result.memory);
    }
  }

  /** Every prefix of a module that lowers also lowers, to a prefix of the code and
      of the memory table: statements never retract code or declarations. */
  lemma {:induction false} ModulePrefixes(body: seq<Node>, j: nat)
    requires LowerModule(body).Ok? && j <= |body|
    ensures LowerModule(body[..j]).Ok?
    ensures LowerModule(body[..j]).value.code <= LowerModule(body).value.code
    ensures LowerModule(body[..j]).value.extra.memory <= LowerModule(body).value.extra.memory
    decreases |body| - j
  {
    if j == |body| {
      assert body[..j] == body;
    } else {
      var pre := body[..|body| - 1];
      ModuleStep(body);
      ModulePrefixes(pre, j);
      assert pre[..j] == body[..j];
    }
  }

  /** A statement sequence that lowers lowers in every prefix, so the first
      statement that fails makes the whole sequence fail. */
  lemma {:induction false} BodyPrefixes(s: seq<Node>, ctx: Extra, m: Table, j: nat)
    requires LowerBody(s, ctx, m).Ok? && j <= |s|
    ensures LowerBody(s[..j], ctx, m).Ok?
    decreases |s| - j
  {
    if j == |s| {
      assert s[..j] == s;
    } else {
      var pre := s[..|s| - 1];
      BodyPrefixes(pre, ctx, m, j);
      assert pre[..j] == s[..j];
    }
  }
}
