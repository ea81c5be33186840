/** `assembly_code`: the halt instruction is appended, pending labels are attached
    to the instruction that follows them, and the data section is written from the
    memory table. */
module Emitter {
  import opened Failures
  import opened Syntax
  import opened Text
  import opened Memory
  import opened Assembly
  import opened Lowering

  /** One line of the code section: its label column and its instruction. */
  datatype Line = Line(column: string, instr: Instruction, note: Note)

  /** `trap R0,R0,R0` with the remark "stop program". */
  const Halt: Unit := Code(Trap, Remark("stop program"))

  const LabelWidth: int := 20

  /** The linearizer's loop, from a given content of its one pending-label slot: a
      marker fills the slot (replacing whatever was there), an instruction takes the
      slot's label and empties it. */
  function Linearize(units: seq<Unit>, pending: string): seq<Line>
  {
    if units == [] then []
    else match units[0]
      case Label(name) => Linearize(units[1..], name)
      case Code(instr, note) => [Line(pending, instr, note)] + Linearize(units[1..], "")
  }

  /** An instruction's text with its annotation; `unparse` stands for Python's
      `ast.unparse`, which gives the source text of a node. */
  function Annotated(code: string, note: Note, unparse: Node -> string): string
  {
    match note
    case Bare => code
    case Source(node) => Comment(code, unparse(node), 0)
    case Remark(text) => Comment(code, text, 0)
  }

  /** `f'{label:<20}{instruction}'`. */
  function RenderLine(l: Line, unparse: Node -> string): string
  {
    PadRight(l.column, LabelWidth) + Annotated(Render(l.instr), l.note, unparse)
  }

  function RenderLines(lines: seq<Line>, unparse: Node -> string): (r: seq<string>)
    ensures |r| == |lines|
    ensures forall k :: 0 <= k < |lines| ==> r[k] == RenderLine(lines[k], unparse)
  {
    seq(|lines|, k requires 0 <= k < |lines| => RenderLine(lines[k], unparse))
  }

  /** `name data value`, padded to 60 columns, then "; initial value". */
  function DataLine(e: Entry): string
  {
    Comment(e.name + " data " + NatToString(e.value), "initial value", -20)
  }

  function DataLines(m: Table): (r: seq<string>)
    ensures |r| == |m| && forall k :: 0 <= k < |m| ==> r[k] == DataLine(m[k])
  {
    if m == [] then [] else [DataLine(m[0])] + DataLines(m[1..])
  }

  /** The program's lines: the code section, one blank line, the data section. */
  function AssemblyLines(units: seq<Unit>, m: Table, unparse: Node -> string): seq<string>
  {
    RenderLines(Linearize(units + [Halt], ""), unparse) + [""] + DataLines(m)
  }

  /** The converter end to end, from the body of the parsed module to the text. */
  function Compile(body: seq<Node>, unparse: Node -> string): Result<string>
  {
    var lowered :- LowerModule(body);
    Ok(Join(AssemblyLines(lowered.code, lowered.extra.memory, unparse), "\n"))
  }
}
