/** The repository's conversion tests, at the level they check: each line's label
    column and instruction (comments are not compared), then the data section. */
module Regression {
  import opened Failures
  import opened Syntax
  import opened Memory
  import opened Context
  import opened Assembly
  import opened Lowering
  import opened LoweringFacts
  import opened Emitter

  /** The code section of a program as (label column, instruction) pairs. */
  function Listing(units: seq<Unit>): seq<(string, Instruction)>
  {
    Pairs(Linearize(units + [Halt], ""))
  }

  function Pairs(lines: seq<Line>): seq<(string, Instruction)>
  {
    if lines == [] then [] else [(lines[0].column, lines[0].instr)] + Pairs(lines[1..])
  }

  /** The listing walking an index instead of slicing, so that it evaluates on a
      program written out in full. */
  function ListingFrom(units: seq<Unit>, i: nat, pending: string): seq<(string, Instruction)>
    requires i <= |units|
    decreases |units| - i
  {
    if i == |units| then []
    else match units[i]
      case Label(name) => ListingFrom(units, i + 1, name)
      case Code(instr, _) => [(pending, instr)] + ListingFrom(units, i + 1, "")
  }

  lemma {:induction false} ListingFromSlices(units: seq<Unit>, i: nat, pending: string)
    requires i <= |units|
    ensures ListingFrom(units, i, pending) == Pairs(Linearize(units[i..], pending))
    decreases |units| - i
  {
    if i < |units| {
      assert units[i..][1..] == units[i + 1..];
      match units[i]
      case Label(name) => ListingFromSlices(units, i + 1, name);
      case Code(instr, note) =>
        ListingFromSlices(units, i + 1, "");
        var lines := [Line(pending, instr, note)] + Linearize(units[i + 1..], "");
        assert lines[1..] == Linearize(units[i + 1..], "");
    }
  }

  /** The listing of a program, by evaluation on the program written out in full. */
  lemma ListingOf(units: seq<Unit>, full: seq<Unit>)
    requires full == units + [Halt]
    ensures Listing(units) == ListingFrom(full, 0, "")
  {
    ListingFromSlices(full, 0, "");
    assert full[0..] == full;
  }

  lemma ModuleThen(body: seq<Node>, x: Node)
    ensures LowerModule(body + [x])
         == (var prev :- LowerModule(body);
             var r :- LowerAny(x, prev.extra);
             Ok(Accumulated(prev.code + r.code, Plus(prev.extra.(memory := r.memory), r.result))))
  {
    assert (body + [x])[..|body|] == body;
  }

  /** A fresh context holding the memory table m. */
  function Ctx(m: Table): Extra
  {
    Empty().(memory := m)
  }

  /** One more statement of a module whose context so far holds m. */
  lemma Step(body: seq<Node>, x: Node, code: seq<Unit>, m: Table, xcode: seq<Unit>, xm: Table)
    requires LowerModule(body) == Ok(Accumulated(code, Ctx(m)))
    requires LowerAny(x, Ctx(m)).Ok? && LowerAny(x, Ctx(m)).value.code == xcode
    requires LowerAny(x, Ctx(m)).value.memory <= xm && LowerAny(x, Ctx(m)).value.result.memory == xm
    requires Distinct(xm)
    ensures LowerModule(body + [x]) == Ok(Accumulated(code + xcode, Ctx(xm)))
  {
    ModuleThen(body, x);
    MergedExtension(LowerAny(x, Ctx(m)).value.memory, xm);
  }

  /** `x = <binop>` from an unlocked context: the three instructions and one store;
      x defaults to 0. */
  lemma StoreResult(line: nat, x: string, e: Node, ctx: Extra)
    requires Unlocked(ctx) && ValidBinOp(e)
    ensures var n := Assign(line, [Name(line, x)], e);
      var m := Defaulted(ctx.memory, x, 0);
      LowerAny(n, ctx) == Ok(Lowered(BinOpUnits(e) + [Code(Store(1, x), Source(n))], ctx.(memory := m), m))
  {
    var n := Assign(line, [Name(line, x)], e);
    BinOpShape(e, ctx);
    assert Ids(n.targets) == [x];
    assert [x][..0] == [];
    var store := [Code(Store(1, x), Source(n))];
    assert ResultStores(n, [x], 1, ctx.memory) == Emitted([] + store, Defaulted(ctx.memory, x, 0));
    assert [] + store == store;
  }

  /** `a = 15` then `a = 19`: the first declares a with 15, the second is code. */
  lemma AssignAgain()
    ensures var a := LowerModule([Assign(1, [Name(1, "a")], Constant(1, 15)),
                                  Assign(2, [Name(2, "a")], Constant(2, 19))]);
      && a.Ok?
      && Listing(a.value.code) == [("", Lea(1, 19)), ("", Store(1, "a")), ("", Trap)]
      && a.value.extra.memory == [Entry("a", 15)]
  {
    var s1 := Assign(1, [Name(1, "a")], Constant(1, 15));
    var s2 := Assign(2, [Name(2, "a")], Constant(2, 19));
    var m := [Entry("a", 15)];
    FirstDeclaration(1, "a", 15);
    AssignConstant(2, Name(2, "a"), Constant(2, 19), Ctx(m));
    assert Has(m, "a");
    var code := [Code(Lea(1, 19), Source(s2)), Code(Store(1, "a"), Source(s2))];
    Step([s1], s2, [], m, code, m);
    assert [s1] + [s2] == [s1, s2];
    assert [] + code == code;
    ListingOf(code, AgainUnits());
    AgainListing();
  }

  function AgainUnits(): seq<Unit>
  {
    [Code(Lea(1, 19), Source(Assign(2, [Name(2, "a")], Constant(2, 19)))),
     Code(Store(1, "a"), Source(Assign(2, [Name(2, "a")], Constant(2, 19)))),
     Code(Trap, Remark("stop program"))]
  }

  lemma AgainListing()
    ensures ListingFrom(AgainUnits(), 0, "") == [("", Lea(1, 19)), ("", Store(1, "a")), ("", Trap)]
  {
  }

  /** A statement after declarations only: the module's code is the statement's,
      and its listing is that of the given units, which end in the halt. */
  lemma LastStatement(body: seq<Node>, x: Node, m: Table, xm: Table, full: seq<Unit>)
    requires LowerModule(body) == Ok(Accumulated([], Ctx(m)))
    requires LowerAny(x, Ctx(m)).Ok? && LowerAny(x, Ctx(m)).value.code + [Halt] == full
    requires LowerAny(x, Ctx(m)).value.memory <= xm && LowerAny(x, Ctx(m)).value.result.memory == xm
    requires Distinct(xm)
    ensures LowerModule(body + [x]).Ok?
    ensures Listing(LowerModule(body + [x]).value.code) == ListingFrom(full, 0, "")
    ensures LowerModule(body + [x]).value.extra.memory == xm
  {
    var code := LowerAny(x, Ctx(m)).value.code;
    Step(body, x, [], m, code, xm);
    assert [] + code == code;
    ListingOf(code, full);
  }

  lemma Snoc2(a: Node, b: Node)
    ensures [a] + [b] == [a, b]
  {
  }

  lemma Snoc3(a: Node, b: Node, c: Node)
    ensures [a, b] + [c] == [a, b, c]
  {
  }

  /** The first statement of a module. */
  lemma First(x: Node, xcode: seq<Unit>, xm: Table)
    requires LowerAny(x, Ctx([])).Ok? && LowerAny(x, Ctx([])).value.code == xcode
    requires LowerAny(x, Ctx([])).value.memory <= xm && LowerAny(x, Ctx([])).value.result.memory == xm
    requires Distinct(xm)
    ensures LowerModule([x]) == Ok(Accumulated(xcode, Ctx(xm)))
  {
    assert LowerModule([]) == Ok(Accumulated([], Ctx([])));
    Step([], x, [], [], xcode, xm);
    assert [] + [x] == [x];
    assert [] + xcode == xcode;
  }

  /** `x = c` for a name not yet declared, as the first statement. */
  lemma FirstDeclaration(line: nat, x: string, c: nat)
    ensures LowerModule([Assign(line, [Name(line, x)], Constant(line, c))])
         == Ok(Accumulated([], Ctx([Entry(x, c)])))
  {
    AssignConstant(line, Name(line, x), Constant(line, c), Ctx([]));
    First(Assign(line, [Name(line, x)], Constant(line, c)), [], [Entry(x, c)]);
  }

  /** `if a > 2: a = 7` with a declared. */
  lemma IfStatement()
    ensures var s3 := Assign(3, [Name(3, "a")], Constant(3, 7));
      var r := LowerAny(If(2, Compare(2, Name(2, "a"), [Gt], [Constant(2, 2)]), [s3], []),
                        Ctx([Entry("a", 4)]));
      && r.Ok?
      && r.value.code == [
           Code(Load(1, "a"), Bare), Code(Lea(2, 2), Bare), Code(Cmp(1, 2), Bare),
           Code(CondJump(JumpGt, "true2"), Bare), Code(Jump("done2"), Bare), Label("true2"),
           Code(Lea(1, 7), Source(s3)), Code(Store(1, "a"), Source(s3)), Label("done2")]
      && r.value.memory == r.value.result.memory == [Entry("a", 4)]
  {
    var test := Compare(2, Name(2, "a"), [Gt], [Constant(2, 2)]);
    var s3 := Assign(3, [Name(3, "a")], Constant(3, 7));
    var m := [Entry("a", 4)];
    assert TrueLabel(2) == "true2" && DoneLabel(2) == "done2";
    var inner := Ctx(m).(trueLabel := "true2", doneLabel := "done2");
    BodyOfOne(s3, inner, m);
    AssignConstant(3, Name(3, "a"), Constant(3, 7), inner.(memory := m));
    IfShape(If(2, test, [s3], []), Ctx(m));
  }

  /** `a = 4`, `if a > 2: a = 7`: the if's labels go on the next instructions, the
      done label on the halt. */
  lemma IfExample()
    ensures var a := LowerModule([
        Assign(1, [Name(1, "a")], Constant(1, 4)),
        If(2, Compare(2, Name(2, "a"), [Gt], [Constant(2, 2)]),
           [Assign(3, [Name(3, "a")], Constant(3, 7))], [])]);
      && a.Ok?
      && Listing(a.value.code) == [
           ("", Load(1, "a")), ("", Lea(2, 2)), ("", Cmp(1, 2)), ("", CondJump(JumpGt, "true2")),
           ("", Jump("done2")), ("true2", Lea(1, 7)), ("", Store(1, "a")), ("done2", Trap)]
      && a.value.extra.memory == [Entry("a", 4)]
  {
    var s1 := Assign(1, [Name(1, "a")], Constant(1, 4));
    var s3 := Assign(3, [Name(3, "a")], Constant(3, 7));
    var s2 := If(2, Compare(2, Name(2, "a"), [Gt], [Constant(2, 2)]), [s3], []);
    var m := [Entry("a", 4)];
    FirstDeclaration(1, "a", 4);
    IfStatement();
    var code := [
      Code(Load(1, "a"), Bare), Code(Lea(2, 2), Bare), Code(Cmp(1, 2), Bare),
      Code(CondJump(JumpGt, "true2"), Bare), Code(Jump("done2"), Bare), Label("true2"),
      Code(Lea(1, 7), Source(s3)), Code(Store(1, "a"), Source(s3)), Label("done2")];
    assert code + [Halt] == IfUnits();
    LastStatement([s1], s2, m, m, IfUnits());
    Snoc2(s1, s2);
    IfListing();
  }

  function IfUnits(): seq<Unit>
  {
    [Code(Load(1, "a"), Bare), Code(Lea(2, 2), Bare), Code(Cmp(1, 2), Bare),
     Code(CondJump(JumpGt, "true2"), Bare), Code(Jump("done2"), Bare), Label("true2"),
     Code(Lea(1, 7), Source(Assign(3, [Name(3, "a")], Constant(3, 7)))),
     Code(Store(1, "a"), Source(Assign(3, [Name(3, "a")], Constant(3, 7)))),
     Label("done2"), Code(Trap, Remark("stop program"))]
  }

  lemma IfListing()
    ensures ListingFrom(IfUnits(), 0, "") == [
      ("", Load(1, "a")), ("", Lea(2, 2)), ("", Cmp(1, 2)), ("", CondJump(JumpGt, "true2")),
      ("", Jump("done2")), ("true2", Lea(1, 7)), ("", Store(1, "a")), ("done2", Trap)]
  {
  }

  /** The listing of three chunks, the second starting with the label the first
      leaves pending and the third with none. */
  lemma Chunks(u1: seq<Unit>, u2: seq<Unit>, u3: seq<Unit>, p: string)
    requires After(u1, 0, "") == p && After(u1 + u2, 0, "") == ""
    ensures ListingFrom(u1 + u2 + u3, 0, "")
         == ListingFrom(u1, 0, "") + ListingFrom(u2, 0, p) + ListingFrom(u3, 0, "")
  {
    ListingFromAppend(u1 + u2, u3, 0, "");
    ListingFromAppend(u1, u2, 0, "");
  }

  /** The label pending after the units from index i on. */
  function After(units: seq<Unit>, i: nat, pending: string): string
    requires i <= |units|
  {
    if i == |units| then pending
    else if units[|units| - 1].Label? then units[|units| - 1].name
    else ""
  }

  /** The listing of a concatenation, chunk by chunk. */
  lemma {:induction false} ListingFromAppend(u: seq<Unit>, v: seq<Unit>, i: nat, pending: string)
    requires i <= |u|
    ensures ListingFrom(u + v, i, pending) == ListingFrom(u, i, pending) + ListingFrom(v, 0, After(u, i, pending))
    decreases |u| - i
  {
    if i == |u| {
      ListingFromShift(u, v, 0, pending);
      assert |u| + 0 == |u|;
    } else {
      assert (u + v)[i] == u[i];
      var rest := ListingFrom(v, 0, After(u, i, pending));
      match u[i]
      case Label(name) =>
        assert After(u, i + 1, name) == After(u, i, pending);
        ListingFromAppend(u, v, i + 1, name);
      case Code(instr, _) =>
        assert After(u, i + 1, "") == After(u, i, pending);
        ListingFromAppend(u, v, i + 1, "");
        assert ListingFrom(u + v, i, pending) == [(pending, instr)] + (ListingFrom(u, i + 1, "") + rest);
        assert ListingFrom(u, i, pending) == [(pending, instr)] + ListingFrom(u, i + 1, "");
    }
  }

  lemma {:induction false} ListingFromShift(u: seq<Unit>, v: seq<Unit>, j: nat, pending: string)
    requires j <= |v|
    ensures ListingFrom(u + v, |u| + j, pending) == ListingFrom(v, j, pending)
    decreases |v| - j
  {
    if j < |v| {
      assert (u + v)[|u| + j] == v[j];
      match v[j]
      case Label(name) => ListingFromShift(u, v, j + 1, name);
      case Code(_, _) => ListingFromShift(u, v, j + 1, "");
    }
  }

  /** The body `i = i + 1; v = v + i` with i and v declared: eight instructions, no
      new name. */
  lemma WhileBody(inner: Extra)
    requires Unlocked(inner)
    ensures var b1 := Assign(4, [Name(4, "i")], BinOp(4, Name(4, "i"), Add, Constant(4, 1)));
      var b2 := Assign(5, [Name(5, "v")], BinOp(5, Name(5, "v"), Add, Name(5, "i")));
      var m := [Entry("i", 3), Entry("v", 5)];
      LowerBody([b1, b2], inner, m) == Ok(Emitted(WhileBodyUnits(), m))
  {
    var b1 := Assign(4, [Name(4, "i")], BinOp(4, Name(4, "i"), Add, Constant(4, 1)));
    var b2 := Assign(5, [Name(5, "v")], BinOp(5, Name(5, "v"), Add, Name(5, "i")));
    var m := [Entry("i", 3), Entry("v", 5)];
    BodyOfTwo(b1, b2, inner, m);
    StoreResult(4, "i", b1.value, inner.(memory := m));
    assert Defaulted(m, "i", 0) == m;
    StoreResult(5, "v", b2.value, inner.(memory := m));
    assert Defaulted(m, "v", 0) == m;
    var u1 := BinOpUnits(b1.value) + [Code(Store(1, "i"), Source(b1))];
    var u2 := BinOpUnits(b2.value) + [Code(Store(1, "v"), Source(b2))];
    assert LowerBody([b1, b2], inner, m) == Ok(Emitted(u1 + u2, m));
    assert u1 == WhileBodyUnits()[..4];
    assert u2 == WhileBodyUnits()[4..];
    assert u1 + u2 == WhileBodyUnits();
  }

  /** `while i < 8: i = i + 1; v = v + i` with i and v declared. */
  lemma WhileStatement(n: Node, ctx: Extra)
    requires n == While(3, Compare(3, Name(3, "i"), [Lt], [Constant(3, 8)]),
                        [Assign(4, [Name(4, "i")], BinOp(4, Name(4, "i"), Add, Constant(4, 1))),
                         Assign(5, [Name(5, "v")], BinOp(5, Name(5, "v"), Add, Name(5, "i")))], [])
    requires ctx == Ctx([Entry("i", 3), Entry("v", 5)])
    ensures var r := LowerAny(n, ctx);
      && r.Ok?
      && r.value.code + [Halt] == WhileHead() + WhileBodyUnits() + WhileTail()
      && r.value.memory == r.value.result.memory == ctx.memory
  {
    assert LoopLabel(3) == "loop3" && TrueLabel(3) == "true3" && DoneLabel(3) == "done3";
    var inner := ctx.(loopLabel := "loop3", trueLabel := "true3", doneLabel := "done3");
    WhileBody(inner);
    WhileShape(n, ctx);
    WhileTest(n.test);
  }

  /** `i = 3`, `v = 5`, `while i < 8: i = i + 1; v = v + i`. */
  lemma WhileExample()
    ensures var a := LowerModule([
        Assign(1, [Name(1, "i")], Constant(1, 3)),
        Assign(2, [Name(2, "v")], Constant(2, 5)),
        While(3, Compare(3, Name(3, "i"), [Lt], [Constant(3, 8)]),
              [Assign(4, [Name(4, "i")], BinOp(4, Name(4, "i"), Add, Constant(4, 1))),
               Assign(5, [Name(5, "v")], BinOp(5, Name(5, "v"), Add, Name(5, "i")))], [])]);
      && a.Ok?
      && Listing(a.value.code) == WhileListing()
      && a.value.extra.memory == [Entry("i", 3), Entry("v", 5)]
  {
    var s1 := Assign(1, [Name(1, "i")], Constant(1, 3));
    var s2 := Assign(2, [Name(2, "v")], Constant(2, 5));
    var b1 := Assign(4, [Name(4, "i")], BinOp(4, Name(4, "i"), Add, Constant(4, 1)));
    var b2 := Assign(5, [Name(5, "v")], BinOp(5, Name(5, "v"), Add, Name(5, "i")));
    var s3 := While(3, Compare(3, Name(3, "i"), [Lt], [Constant(3, 8)]), [b1, b2], []);
    var m := [Entry("i", 3), Entry("v", 5)];
    TwoDeclarations();
    WhileStatement(s3, Ctx(m));
    LastStatement([s1, s2], s3, m, m, WhileHead() + WhileBodyUnits() + WhileTail());
    Snoc3(s1, s2, s3);
    WhileListingEvaluated();
  }

  /** `i = 3` then `v = 5`: both declared, no code. */
  lemma TwoDeclarations()
    ensures LowerModule([Assign(1, [Name(1, "i")], Constant(1, 3)), Assign(2, [Name(2, "v")], Constant(2, 5))])
         == Ok(Accumulated([], Ctx([Entry("i", 3), Entry("v", 5)])))
  {
    FirstDeclaration(1, "i", 3);
    assert !Has([Entry("i", 3)], "v");
    SecondDeclaration(Assign(1, [Name(1, "i")], Constant(1, 3)), 2, "v", 5, [Entry("i", 3)]);
    assert [Entry("i", 3)] + [Entry("v", 5)] == [Entry("i", 3), Entry("v", 5)];
  }

  /** `x = c` for a name not yet declared, after a statement that emitted no code. */
  lemma SecondDeclaration(s1: Node, line: nat, x: string, c: nat, m: Table)
    requires LowerModule([s1]) == Ok(Accumulated([], Ctx(m)))
    requires Distinct(m) && !Has(m, x)
    ensures LowerModule([s1, Assign(line, [Name(line, x)], Constant(line, c))])
         == Ok(Accumulated([], Ctx(m + [Entry(x, c)])))
  {
    var s2 := Assign(line, [Name(line, x)], Constant(line, c));
    AssignConstant(line, Name(line, x), Constant(line, c), Ctx(m));
    DefaultedKeepsDistinct(m, x, c);
    assert Defaulted(m, x, c) == m + [Entry(x, c)];
    Step([s1], s2, [], m, [], m + [Entry(x, c)]);
    Snoc2(s1, s2);
  }

  function WhileHead(): seq<Unit>
  {
    [Label("loop3")] + WhileTestUnits() + [Label("true3")]
  }

  function WhileTestUnits(): seq<Unit>
  {
    [Code(Load(1, "i"), Bare), Code(Lea(2, 8), Bare), Code(Cmp(1, 2), Bare),
     Code(CondJump(JumpLt, "true3"), Bare), Code(Jump("done3"), Bare)]
  }

  /** The loop test `i < 8`: load, load, compare, conditional jump, jump. */
  lemma WhileTest(t: Node)
    requires t == Compare(3, Name(3, "i"), [Lt], [Constant(3, 8)])
    ensures ValidCompare(t) && CompareUnits(t, "true3", "done3") == WhileTestUnits()
  {
  }

  function WhileBodyUnits(): seq<Unit>
  {
    [Code(Load(2, "i"), Source(BinOp(4, Name(4, "i"), Add, Constant(4, 1)))),
     Code(Lea(3, 1), Source(BinOp(4, Name(4, "i"), Add, Constant(4, 1)))),
     Code(Arith(AddOp, 1, 2, 3), Source(BinOp(4, Name(4, "i"), Add, Constant(4, 1)))),
     Code(Store(1, "i"), Source(Assign(4, [Name(4, "i")], BinOp(4, Name(4, "i"), Add, Constant(4, 1)))))]
    + [Code(Load(2, "v"), Source(BinOp(5, Name(5, "v"), Add, Name(5, "i")))),
       Code(Load(3, "i"), Source(BinOp(5, Name(5, "v"), Add, Name(5, "i")))),
       Code(Arith(AddOp, 1, 2, 3), Source(BinOp(5, Name(5, "v"), Add, Name(5, "i")))),
       Code(Store(1, "v"), Source(Assign(5, [Name(5, "v")], BinOp(5, Name(5, "v"), Add, Name(5, "i")))))]
  }

  function WhileTail(): seq<Unit>
  {
    [Code(Jump("loop3"), Bare), Label("done3"), Code(Trap, Remark("stop program"))]
  }

  function WhileListing(): seq<(string, Instruction)>
  {
    [("loop3", Load(1, "i")), ("", Lea(2, 8)), ("", Cmp(1, 2)), ("", CondJump(JumpLt, "true3")),
     ("", Jump("done3")), ("true3", Load(2, "i")), ("", Lea(3, 1)), ("", Arith(AddOp, 1, 2, 3)),
     ("", Store(1, "i")), ("", Load(2, "v")), ("", Load(3, "i")), ("", Arith(AddOp, 1, 2, 3)),
     ("", Store(1, "v")), ("", Jump("loop3")), ("done3", Trap)]
  }

  lemma WhileListingEvaluated()
    ensures ListingFrom(WhileHead() + WhileBodyUnits() + WhileTail(), 0, "") == WhileListing()
  {
    WhileHeadListing();
    WhileBodyListing();
    WhileTailListing();
    WhilePending();
    Chunks(WhileHead(), WhileBodyUnits(), WhileTail(), "true3");
  }

  lemma WhilePending()
    ensures After(WhileHead(), 0, "") == "true3"
    ensures After(WhileHead() + WhileBodyUnits(), 0, "") == ""
  {
  }

  lemma WhileHeadListing()
    ensures ListingFrom(WhileHead(), 0, "") == [("loop3", Load(1, "i")), ("", Lea(2, 8)), ("", Cmp(1, 2)),
      ("", CondJump(JumpLt, "true3")), ("", Jump("done3"))]
  {
  }

  lemma WhileBodyListing()
    ensures ListingFrom(WhileBodyUnits(), 0, "true3") == [("true3", Load(2, "i")), ("", Lea(3, 1)),
      ("", Arith(AddOp, 1, 2, 3)), ("", Store(1, "i")), ("", Load(2, "v")), ("", Load(3, "i")),
      ("", Arith(AddOp, 1, 2, 3)), ("", Store(1, "v"))]
  {
  }

  lemma WhileTailListing()
    ensures ListingFrom(WhileTail(), 0, "") == [("", Jump("loop3")), ("done3", Trap)]
  {
  }


  /** The loop `for i in range(5, 20): v = v + i` becomes, with v and i declared. */
  lemma ForLoop(w: Node, ctx: Extra)
    requires w == While(2, Compare(2, Name(2, "i"), [Lt], [Constant(2, 20)]),
                        [Assign(3, [Name(3, "v")], BinOp(3, Name(3, "v"), Add, Name(3, "i"))),
                         Increment(2, "i")], [])
    requires ctx == Ctx([Entry("v", 3), Entry("i", 5)])
    ensures var r := LowerAny(w, ctx);
      && r.Ok?
      && r.value.code + [Halt] == ForHead() + ForBodyUnits() + ForTail()
      && r.value.memory == r.value.result.memory == ctx.memory
  {
    assert LoopLabel(2) == "loop2" && TrueLabel(2) == "true2" && DoneLabel(2) == "done2";
    var inner := ctx.(loopLabel := "loop2", trueLabel := "true2", doneLabel := "done2");
    ForBody(inner);
    WhileShape(w, ctx);
    ForTest(w.test);
  }

  /** The loop body `v = v + i` followed by the increment `i = i + 1`. */
  lemma ForBody(inner: Extra)
    requires Unlocked(inner)
    ensures var b1 := Assign(3, [Name(3, "v")], BinOp(3, Name(3, "v"), Add, Name(3, "i")));
      var m := [Entry("v", 3), Entry("i", 5)];
      LowerBody([b1, Increment(2, "i")], inner, m) == Ok(Emitted(ForBodyUnits(), m))
  {
    var b1 := Assign(3, [Name(3, "v")], BinOp(3, Name(3, "v"), Add, Name(3, "i")));
    var b2 := Increment(2, "i");
    var m := [Entry("v", 3), Entry("i", 5)];
    BodyOfTwo(b1, b2, inner, m);
    StoreResult(3, "v", b1.value, inner.(memory := m));
    assert Defaulted(m, "v", 0) == m;
    StoreResult(2, "i", b2.value, inner.(memory := m));
    assert Defaulted(m, "i", 0) == m;
    var u1 := BinOpUnits(b1.value) + [Code(Store(1, "v"), Source(b1))];
    var u2 := BinOpUnits(b2.value) + [Code(Store(1, "i"), Source(b2))];
    assert LowerBody([b1, b2], inner, m) == Ok(Emitted(u1 + u2, m));
    assert u1 == ForBodyUnits()[..4];
    assert u2 == ForBodyUnits()[4..];
    assert u1 + u2 == ForBodyUnits();
  }

  /** The loop test `i < 20`. */
  lemma ForTest(t: Node)
    requires t == Compare(2, Name(2, "i"), [Lt], [Constant(2, 20)])
    ensures ValidCompare(t) && CompareUnits(t, "true2", "done2") == ForTestUnits()
  {
  }

  /** `for i in range(5, 20): v = v + i` with v declared: i is declared with 5 in
      the returned context, the caller's table keeps only v. */
  lemma ForStatement(n: Node, ctx: Extra)
    requires n == For(2, Name(2, "i"), Call(2, Name(2, "range"), [Constant(2, 5), Constant(2, 20)]),
                      [Assign(3, [Name(3, "v")], BinOp(3, Name(3, "v"), Add, Name(3, "i")))], [])
    requires ctx == Ctx([Entry("v", 3)])
    ensures var r := LowerAny(n, ctx);
      && r.Ok?
      && r.value.code + [Halt] == ForHead() + ForBodyUnits() + ForTail()
      && r.value.memory == ctx.memory
      && r.value.result.memory == [Entry("v", 3), Entry("i", 5)]
  {
    ForParts(n);
    var parts := DesugarFor(n);
    var m := [Entry("v", 3), Entry("i", 5)];
    AssignConstant(2, Name(2, "i"), Constant(2, 5), ctx);
    assert !Has(ctx.memory, "i");
    assert ctx.(memory := m) == Ctx(m);
    ForLoop(parts.loop, Ctx(m));
    ForSteps(n, ctx, m);
  }

  /** A range `for` whose initial assignment declares its variable and emits no code
      lowers to the code of its loop. */
  lemma ForSteps(n: Node, ctx: Extra, m: Table)
    requires IsRangeFor(n)
    requires var a := LowerAny(DesugarFor(n).init, ctx); a.Ok? && a.value.code == [] && a.value.memory == m
    requires LowerAny(DesugarFor(n).loop, ctx.(memory := m)).Ok?
    ensures var w := LowerAny(DesugarFor(n).loop, ctx.(memory := m)).value;
      LowerAny(n, ctx) == Ok(Lowered(w.code, ctx.(memory := w.memory), ctx.memory))
  {
    var w := LowerAny(DesugarFor(n).loop, ctx.(memory := m)).value;
    assert [] + w.code == w.code;
  }

  /** The two statements this `for` is rewritten into. */
  lemma ForParts(n: Node)
    requires n == For(2, Name(2, "i"), Call(2, Name(2, "range"), [Constant(2, 5), Constant(2, 20)]),
                      [Assign(3, [Name(3, "v")], BinOp(3, Name(3, "v"), Add, Name(3, "i")))], [])
    ensures IsRangeFor(n)
    ensures DesugarFor(n).init == Assign(2, [Name(2, "i")], Constant(2, 5))
    ensures DesugarFor(n).loop
         == While(2, Compare(2, Name(2, "i"), [Lt], [Constant(2, 20)]),
                  [Assign(3, [Name(3, "v")], BinOp(3, Name(3, "v"), Add, Name(3, "i"))),
                   Increment(2, "i")], [])
  {
  }

  /** `v = 3`, `for i in range(5, 20): v = v + i`: the loop variable is declared after
      v, with the range's start. */
  lemma ForExample()
    ensures var a := LowerModule([
        Assign(1, [Name(1, "v")], Constant(1, 3)),
        For(2, Name(2, "i"), Call(2, Name(2, "range"), [Constant(2, 5), Constant(2, 20)]),
            [Assign(3, [Name(3, "v")], BinOp(3, Name(3, "v"), Add, Name(3, "i")))], [])]);
      && a.Ok?
      && Listing(a.value.code) == ForListing()
      && a.value.extra.memory == [Entry("v", 3), Entry("i", 5)]
  {
    var s1 := Assign(1, [Name(1, "v")], Constant(1, 3));
    var s2 := For(2, Name(2, "i"), Call(2, Name(2, "range"), [Constant(2, 5), Constant(2, 20)]),
                  [Assign(3, [Name(3, "v")], BinOp(3, Name(3, "v"), Add, Name(3, "i")))], []);
    var m := [Entry("v", 3), Entry("i", 5)];
    FirstDeclaration(1, "v", 3);
    ForStatement(s2, Ctx([Entry("v", 3)]));
    assert [Entry("v", 3)] <= m;
    LastStatement([s1], s2, [Entry("v", 3)], m, ForHead() + ForBodyUnits() + ForTail());
    Snoc2(s1, s2);
    ForListingEvaluated();
  }

  function ForHead(): seq<Unit>
  {
    [Label("loop2")] + ForTestUnits() + [Label("true2")]
  }

  function ForTestUnits(): seq<Unit>
  {
    [Code(Load(1, "i"), Bare), Code(Lea(2, 20), Bare), Code(Cmp(1, 2), Bare),
     Code(CondJump(JumpLt, "true2"), Bare), Code(Jump("done2"), Bare)]
  }

  function ForBodyUnits(): seq<Unit>
  {
    [Code(Load(2, "v"), Source(BinOp(3, Name(3, "v"), Add, Name(3, "i")))),
     Code(Load(3, "i"), Source(BinOp(3, Name(3, "v"), Add, Name(3, "i")))),
     Code(Arith(AddOp, 1, 2, 3), Source(BinOp(3, Name(3, "v"), Add, Name(3, "i")))),
     Code(Store(1, "v"), Source(Assign(3, [Name(3, "v")], BinOp(3, Name(3, "v"), Add, Name(3, "i")))))]
    + [Code(Load(2, "i"), Source(BinOp(2, Name(2, "i"), Add, Constant(2, 1)))),
       Code(Lea(3, 1), Source(BinOp(2, Name(2, "i"), Add, Constant(2, 1)))),
       Code(Arith(AddOp, 1, 2, 3), Source(BinOp(2, Name(2, "i"), Add, Constant(2, 1)))),
       Code(Store(1, "i"), Source(Assign(2, [Name(2, "i")], BinOp(2, Name(2, "i"), Add, Constant(2, 1)))))]
  }

  function ForTail(): seq<Unit>
  {
    [Code(Jump("loop2"), Bare), Label("done2"), Code(Trap, Remark("stop program"))]
  }

  function ForListing(): seq<(string, Instruction)>
  {
    [("loop2", Load(1, "i")), ("", Lea(2, 20)), ("", Cmp(1, 2)), ("", CondJump(JumpLt, "true2")),
     ("", Jump("done2")), ("true2", Load(2, "v")), ("", Load(3, "i")), ("", Arith(AddOp, 1, 2, 3)),
     ("", Store(1, "v")), ("", Load(2, "i")), ("", Lea(3, 1)), ("", Arith(AddOp, 1, 2, 3)),
     ("", Store(1, "i")), ("", Jump("loop2")), ("done2", Trap)]
  }

  lemma ForListingEvaluated()
    ensures ListingFrom(ForHead() + ForBodyUnits() + ForTail(), 0, "") == ForListing()
  {
    ForHeadListing();
    ForBodyListing();
    ForTailListing();
    ForPending();
    Chunks(ForHead(), ForBodyUnits(), ForTail(), "true2");
  }

  lemma ForPending()
    ensures After(ForHead(), 0, "") == "true2"
    ensures After(ForHead() + ForBodyUnits(), 0, "") == ""
  {
  }

  lemma ForHeadListing()
    ensures ListingFrom(ForHead(), 0, "") == [("loop2", Load(1, "i")), ("", Lea(2, 20)), ("", Cmp(1, 2)),
      ("", CondJump(JumpLt, "true2")), ("", Jump("done2"))]
  {
  }

  lemma ForBodyListing()
    ensures ListingFrom(ForBodyUnits(), 0, "true2") == [("true2", Load(2, "v")), ("", Load(3, "i")),
      ("", Arith(AddOp, 1, 2, 3)), ("", Store(1, "v")), ("", Load(2, "i")), ("", Lea(3, 1)),
      ("", Arith(AddOp, 1, 2, 3)), ("", Store(1, "i"))]
  {
  }

  lemma ForTailListing()
    ensures ListingFrom(ForTail(), 0, "") == [("", Jump("loop2")), ("done2", Trap)]
  {
  }

}
