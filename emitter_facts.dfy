/** What the emitter promises: every instruction keeps its place and carries the
    label that immediately precedes it, labels never produce lines of their own, the
    halt is last and collects a trailing label, and the data section lists the
    memory table in declaration order. */
module EmitterFacts {
  import opened Failures
  import opened Syntax
  import opened Text
  import opened Memory
  import opened Assembly
  import opened Lowering
  import opened LoweringFacts
  import opened Emitter

  /** How many units are instructions. */
  function CountCode(units: seq<Unit>): nat
  {
    if units == [] then 0 else (if units[0].Code? then 1 else 0) + CountCode(units[1..])
  }

  /** The label the instruction at index k receives: the marker right before it, if
      there is one; none after another instruction; the pending one at the start. */
  function LabelBefore(units: seq<Unit>, k: nat, pending: string): string
    requires k <= |units|
  {
    if k == 0 then pending
    else if units[k - 1].Label? then units[k - 1].name
    else ""
  }

  /** No unit is a halt instruction. */
  predicate NoHalt(units: seq<Unit>)
  {
    forall k :: 0 <= k < |units| ==> !(units[k].Code? && units[k].instr.Trap?)
  }

  /** One line per instruction, none per label. */
  lemma {:induction false} LinearizeLength(units: seq<Unit>, pending: string)
    ensures |Linearize(units, pending)| == CountCode(units)
    decreases |units|
  {
    if units != [] {
      match units[0]
      case Label(name) => LinearizeLength(units[1..], name);
      case Code(_, _) => LinearizeLength(units[1..], "");
    }
  }

  /** The instruction at index k becomes line number CountCode(units[..k]), with its
      own note and the label right before it. */
  lemma {:induction false} LinearizeAt(units: seq<Unit>, pending: string, k: nat)
    requires k < |units| && units[k].Code?
    ensures CountCode(units[..k]) < |Linearize(units, pending)|
    ensures Linearize(units, pending)[CountCode(units[..k])]
         == Line(LabelBefore(units, k, pending), units[k].instr, units[k].note)
    decreases |units|
  {
    LinearizeLength(units, pending);
    if k == 0 {
      assert units[..0] == [];
    } else {
      assert units[..k][1..] == units[1..][..k - 1];
      match units[0]
      case Label(name) => LinearizeAt(units[1..], name, k - 1);
      case Code(_, _) => LinearizeAt(units[1..], "", k - 1);
    }
  }

  /** The linearizer streams: lowering a concatenation is lowering the first part,
      then the second part with whatever label the first part left pending. */
  lemma {:induction false} LinearizeAppend(u: seq<Unit>, v: seq<Unit>, pending: string)
    ensures Linearize(u + v, pending) == Linearize(u, pending) + Linearize(v, LabelBefore(u, |u|, pending))
    decreases |u|
  {
    if u == [] {
      assert [] + v == v;
    } else {
      assert (u + v)[1..] == u[1..] + v;
      match u[0]
      case Label(name) => LinearizeAppend(u[1..], v, name);
      case Code(_, _) => LinearizeAppend(u[1..], v, "");
    }
  }

  /** Without a halt among the units, no line is a halt. */
  lemma {:induction false} LinearizeNoTrap(units: seq<Unit>, pending: string)
    requires NoHalt(units)
    ensures forall j :: 0 <= j < |Linearize(units, pending)| ==> !Linearize(units, pending)[j].instr.Trap?
    decreases |units|
  {
    if units != [] {
      match units[0]
      case Label(name) => LinearizeNoTrap(units[1..], name);
      case Code(_, _) => LinearizeNoTrap(units[1..], "");
    }
  }

  /** A label followed by another label is lost: the later one wins. */
  lemma LaterLabelWins(a: string, b: string, rest: seq<Unit>, pending: string)
    ensures Linearize([Label(a), Label(b)] + rest, pending) == Linearize(rest, b)
  {
    var u := [Label(a), Label(b)] + rest;
    assert u[1..] == [Label(b)] + rest;
    assert u[1..][1..] == rest;
  }

  /** The program text line by line: the instructions, then exactly one halt that
      carries a label left pending at the end of the code, one blank line, and the
      data lines of the memory table in declaration order. */
  lemma AssemblyLayout(units: seq<Unit>, m: Table, unparse: Node -> string)
    requires NoHalt(units)
    ensures var lines := AssemblyLines(units, m, unparse);
      var c := CountCode(units);
      && |lines| == c + 2 + |m|
      && |Linearize(units, "")| == c
      && lines[..c] == RenderLines(Linearize(units, ""), unparse)
      && (forall j :: 0 <= j < c ==> !Linearize(units, "")[j].instr.Trap?)
      && lines[c] == RenderLine(Line(LabelBefore(units, |units|, ""), Trap, Remark("stop program")), unparse)
      && lines[c + 1] == ""
      && lines[c + 2..] == DataLines(m)
  {
    var code := Linearize(units, "");
    var halt := Line(LabelBefore(units, |units|, ""), Trap, Remark("stop program"));
    HaltLast(units);
    RenderLinesAppend(code, halt, unparse);
    var text := RenderLines(code, unparse);
    assert AssemblyLines(units, m, unparse) == text + [RenderLine(halt, unparse)] + [""] + DataLines(m);
    LinearizeLength(units, "");
    LinearizeNoTrap(units, "");
    Sections(text, RenderLine(halt, unparse), DataLines(m));
  }

  /** The halt is linearized last, with the label the code leaves pending. */
  lemma HaltLast(units: seq<Unit>)
    ensures Linearize(units + [Halt], "")
         == Linearize(units, "") + [Line(LabelBefore(units, |units|, ""), Trap, Remark("stop program"))]
  {
    LinearizeAppend(units, [Halt], "");
    LinearizeOne(Trap, Remark("stop program"), LabelBefore(units, |units|, ""));
  }

  lemma LinearizeOne(instr: Instruction, note: Note, pending: string)
    ensures Linearize([Code(instr, note)], pending) == [Line(pending, instr, note)]
  {
    assert [Code(instr, note)][1..] == [];
  }

  lemma RenderLinesAppend(lines: seq<Line>, l: Line, unparse: Node -> string)
    ensures RenderLines(lines + [l], unparse) == RenderLines(lines, unparse) + [RenderLine(l, unparse)]
  {
  }

  /** Code lines, one more line, a blank line and data lines, each found at its place. */
  lemma Sections(code: seq<string>, last: string, data: seq<string>)
    ensures var lines := code + [last] + [""] + data;
      && |lines| == |code| + 2 + |data|
      && lines[..|code|] == code
      && lines[|code|] == last
      && lines[|code| + 1] == ""
      && lines[|code| + 2..] == data
  {
    var lines := code + [last] + [""] + data;
    assert lines[..|code|] == code;
    assert lines[|code| + 2..] == data;
  }

  /** The converter end to end: a module that lowers compiles, to the lines above
      joined by newlines, with its one halt after every lowered instruction and
      the data section built from the final memory table. */
  lemma CompileLayout(body: seq<Node>, unparse: Node -> string)
    ensures Compile(body, unparse).Ok? <==> LowerModule(body).Ok?
    ensures LowerModule(body).Ok? ==>
      var a := LowerModule(body).value;
      var lines := AssemblyLines(a.code, a.extra.memory, unparse);
      var c := CountCode(a.code);
      && Compile(body, unparse) == Ok(Join(lines, "\n"))
      && |lines| == c + 2 + |a.extra.memory|
      && |Linearize(a.code, "")| == c
      && lines[..c] == RenderLines(Linearize(a.code, ""), unparse)
      && (forall j :: 0 <= j < c ==> !Linearize(a.code, "")[j].instr.Trap?)
      && lines[c] == RenderLine(Line(LabelBefore(a.code, |a.code|, ""), Trap, Remark("stop program")), unparse)
      && lines[c + 1] == ""
      && lines[c + 2..] == DataLines(a.extra.memory)
  {
    if LowerModule(body).Ok? {
      var a := LowerModule(body).value;
      ModuleWellFormed(body);
      forall k | 0 <= k < |a.code| ensures !(a.code[k].Code? && a.code[k].instr.Trap?) {
        assert FixedRegisters(a.code[k]);
      }
      AssemblyLayout(a.code, a.extra.memory, unparse);
    }
  }

  /** A code line: the label left-justified in a 20-column field, then the
      instruction; an annotated instruction ends with "; " and its comment. */
  lemma LineLayout(l: Line, unparse: Node -> string)
    requires |l.column| <= LabelWidth
    ensures var r := RenderLine(l, unparse);
      && |r| >= LabelWidth + |Render(l.instr)|
      && r[..|l.column|] == l.column
      && (forall i :: |l.column| <= i < LabelWidth ==> r[i] == ' ')
      && r[LabelWidth..LabelWidth + |Render(l.instr)|] == Render(l.instr)
      && (l.note.Source? ==> |r| >= |unparse(l.note.node)| + 2
                             && r[|r| - |unparse(l.note.node)| - 2..] == "; " + unparse(l.note.node))
      && (l.note.Remark? ==> |r| >= |l.note.text| + 2 && r[|r| - |l.note.text| - 2..] == "; " + l.note.text)
  {
    assert RenderLine(l, unparse) == PadRight(l.column, LabelWidth) + Annotated(Render(l.instr), l.note, unparse);
    LineText(l.column, Render(l.instr), l.note, unparse);
  }

  /** LineLayout for any instruction text. */
  lemma LineText(column: string, code: string, note: Note, unparse: Node -> string)
    requires |column| <= LabelWidth
    ensures var r := PadRight(column, LabelWidth) + Annotated(code, note, unparse);
      && |r| >= LabelWidth + |code|
      && r[..|column|] == column
      && (forall i :: |column| <= i < LabelWidth ==> r[i] == ' ')
      && r[LabelWidth..LabelWidth + |code|] == code
      && (note.Source? ==> |r| >= |unparse(note.node)| + 2
                           && r[|r| - |unparse(note.node)| - 2..] == "; " + unparse(note.node))
      && (note.Remark? ==> |r| >= |note.text| + 2 && r[|r| - |note.text| - 2..] == "; " + note.text)
  {
    var col := PadRight(column, LabelWidth);
    var text := Annotated(code, note, unparse);
    AnnotatedLayout(code, note, unparse);
    ColumnPart(column, col, text);
    CodePart(col, text, code);
    if note.Source? || note.Remark? {
      var comment := if note.Source? then unparse(note.node) else note.text;
      Suffix(col, text, |comment| + 2);
    }
  }

  /** The label field keeps its place at the head of the line. */
  lemma ColumnPart(column: string, col: string, text: string)
    requires |column| <= |col| && col[..|column|] == column
    requires forall i :: |column| <= i < |col| ==> col[i] == ' '
    ensures (col + text)[..|column|] == column
    ensures forall i :: |column| <= i < |col| ==> (col + text)[i] == ' '
  {
    assert (col + text)[..|column|] == col[..|column|];
  }

  /** The instruction starts right after the label field. */
  lemma CodePart(col: string, text: string, code: string)
    requires |code| <= |text| && text[..|code|] == code
    ensures (col + text)[|col|..|col| + |code|] == code
  {
    assert (col + text)[|col|..|col| + |code|] == text[..|code|];
  }

  /** An instruction's text begins with the instruction; an annotated one ends with
      "; " and its comment. */
  lemma AnnotatedLayout(code: string, note: Note, unparse: Node -> string)
    ensures var text := Annotated(code, note, unparse);
      && |text| >= |code|
      && text[..|code|] == code
      && (note.Source? ==> |text| >= |unparse(note.node)| + 2
                           && text[|text| - |unparse(note.node)| - 2..] == "; " + unparse(note.node))
      && (note.Remark? ==> |text| >= |note.text| + 2
                           && text[|text| - |note.text| - 2..] == "; " + note.text)
  {
    match note
    case Bare =>
    case Source(node) => CommentSuffix(code, unparse(node), 0);
    case Remark(text) => CommentSuffix(code, text, 0);
  }

  lemma CommentSuffix(code: string, comment: string, indent: int)
    ensures var r := Comment(code, comment, indent);
      |r| >= |comment| + 2 && r[|r| - |comment| - 2..] == "; " + comment
  {
    var padded := PadRight(code, 40 - indent);
    var r := padded + "; " + comment;
    assert r == padded + ("; " + comment);
  }

  lemma Suffix(a: string, b: string, k: nat)
    requires k <= |b|
    ensures (a + b)[|a + b| - k..] == b[|b| - k..]
  {
  }

  /** A data line reads `name data value`, padded to 60 columns, then
      "; initial value"; the value it prints reads back as the declared value. */
  lemma DataLineLayout(e: Entry)
    ensures var head := e.name + " data ";
      var digits := NatToString(e.value);
      var r := DataLine(e);
      && |r| == (if |head| + |digits| >= 60 then |head| + |digits| else 60) + 15
      && r[..|head|] == head
      && r[|head|..|head| + |digits|] == digits
      && ParseNat(r[|head|..|head| + |digits|]) == e.value
      && r[|r| - 15..] == "; initial value"
  {
    var head := e.name + " data ";
    var digits := NatToString(e.value);
    var r := DataLine(e);
    var padded := PadRight(head + digits, 60);
    assert r == padded + "; " + "initial value";
    assert "; " + "initial value" == "; initial value";
    assert r[|r| - 15..] == "; initial value";
    assert |r| == |padded| + 15;
    assert r[..|head + digits|] == head + digits;
    assert r[|head|..|head| + |digits|] == (head + digits)[|head|..];
    ParseNatToString(e.value);
  }
}
