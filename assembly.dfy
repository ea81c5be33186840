/** Sigma16 instructions as the converter writes them, and their text. */
module Assembly {
  import opened Syntax
  import opened Text

  datatype ArithOp = AddOp | SubOp | MulOp | DivOp

  datatype Condition = JumpGt | JumpGe | JumpLt | JumpLe

  datatype Instruction =
    | Load(r: int, name: string)           // load Rr,name
    | Lea(r: int, value: nat)              // lea Rr,value
    | Store(r: int, name: string)          // store Rr,name
    | Arith(op: ArithOp, d: int, a: int, b: int)
    | Cmp(a: int, b: int)
    | CondJump(cond: Condition, dest: string)
    | Jump(dest: string)
    | Trap                                 // trap R0,R0,R0: halts the program

  /** The trailing annotation of an instruction: none, the Python text of a syntax
      node, or a fixed remark. */
  datatype Note = Bare | Source(node: Node) | Remark(text: string)

  /** An emission unit: a pending `#label X` marker or an instruction. */
  datatype Unit = Label(name: string) | Code(instr: Instruction, note: Note)

  function Mnemonic(op: ArithOp): string
  {
    match op
    case AddOp => "add"
    case SubOp => "sub"
    case MulOp => "mul"
    case DivOp => "div"
  }

  function JumpMnemonic(c: Condition): string
  {
    match c
    case JumpGt => "jumpgt"
    case JumpGe => "jumpge"
    case JumpLt => "jumplt"
    case JumpLe => "jumple"
  }

  function Reg(r: int): string
  {
    "R" + IntToString(r)
  }

  function Render(i: Instruction): string
  {
    match i
    case Load(r, name) => "load " + Reg(r) + "," + name
    case Lea(r, v) => "lea " + Reg(r) + "," + NatToString(v)
    case Store(r, name) => "store " + Reg(r) + "," + name
    case Arith(op, d, a, b) => Mnemonic(op) + " " + Reg(d) + "," + Reg(a) + "," + Reg(b)
    case Cmp(a, b) => "cmp " + Reg(a) + "," + Reg(b)
    case CondJump(c, dest) => JumpMnemonic(c) + " " + dest
    case Jump(dest) => "jump " + dest
    case Trap => "trap R0,R0,R0"
  }

  /** `Converter.comment`: the code left-justified to 40 - indent columns, then
      "; " and the comment. */
  function Comment(code: string, comment: string, indent: int): (r: string)
    ensures |r| == (if |code| >= 40 - indent then |code| else 40 - indent) + 2 + |comment|
    ensures r[..|code|] == code
    ensures r[|code|..|r| - |comment| - 2] == Spaces(|r| - |comment| - 2 - |code|)
    ensures r[|r| - |comment| - 2..|r| - |comment|] == "; "
    ensures r[|r| - |comment|..] == comment
  {
    var padded := PadRight(code, 40 - indent);
    var r := padded + "; " + comment;
    assert r[..|code|] == padded[..|code|];
    assert r[|padded|..|padded| + 2] == "; ";
    assert r[|code|..|padded|] == padded[|code|..];
    assert padded[|code|..] == Spaces(|padded| - |code|);
    r
  }
}
