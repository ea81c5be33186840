/** The part of Python's syntax tree that the converter inspects. Every statement and
    expression node carries its source line number. `Other` stands for every node kind
    the converter has no method for (Expr, Pass, AugAssign, UnaryOp, Attribute, ...).
    The root `Module` node is not a case here: a parse tree has exactly one, at the root,
    and the converter treats it on its own (Lowering.LowerModule). */
module Syntax {

  /** Python's binary operators; only the four below are translated. */
  datatype BinOperator = Add | Sub | Mult | Div | OtherBinOp(name: string)

  /** Python's comparison operators; only the four below are translated. */
  datatype CmpOperator = Gt | GtE | Lt | LtE | OtherCmpOp(name: string)

  datatype Node =
    | Assign(line: nat, targets: seq<Node>, value: Node)
    | BinOp(line: nat, left: Node, op: BinOperator, right: Node)
    | Compare(line: nat, left: Node, ops: seq<CmpOperator>, comparators: seq<Node>)
    | If(line: nat, test: Node, body: seq<Node>, orelse: seq<Node>)
    | While(line: nat, test: Node, body: seq<Node>, orelse: seq<Node>)
    | For(line: nat, target: Node, iter: Node, body: seq<Node>, orelse: seq<Node>)
    | Call(line: nat, func: Node, args: seq<Node>)
    | Name(line: nat, id: string)
    | Constant(line: nat, literal: nat)
    | Other(line: nat, kind: string)

  /** The measure that makes lowering terminate. A `For` weighs more than the
      `Assign` and `While` it is rewritten into. */
  function Size(n: Node): (r: nat)
    ensures r >= 1
    decreases n
  {
    match n
    case Assign(_, targets, value) => 1 + SizeSeq(targets) + Size(value)
    case BinOp(_, left, _, right) => 1 + Size(left) + Size(right)
    case Compare(_, left, _, comparators) => 1 + Size(left) + SizeSeq(comparators)
    case If(_, test, body, orelse) => 1 + Size(test) + SizeSeq(body) + SizeSeq(orelse)
    case While(_, test, body, orelse) => 1 + Size(test) + SizeSeq(body) + SizeSeq(orelse)
    case For(_, target, iter, body, orelse) =>
      16 + Size(target) + Size(iter) + SizeSeq(body) + SizeSeq(orelse)
    case Call(_, func, args) => 1 + Size(func) + SizeSeq(args)
    case Name(_, _) => 1
    case Constant(_, _) => 1
    case Other(_, _) => 1
  }

  function SizeSeq(s: seq<Node>): nat
    decreases s
  {
    if s == [] then 0 else SizeSeq(s[..|s| - 1]) + Size(s[|s| - 1])
  }

  lemma SizeSeqAppend(s: seq<Node>, x: Node)
    ensures SizeSeq(s + [x]) == SizeSeq(s) + Size(x)
  {
    assert (s + [x])[..|s|] == s;
  }

  lemma {:induction false} SizeOfElement(s: seq<Node>, i: nat)
    requires i < |s|
    ensures Size(s[i]) <= SizeSeq(s)
    decreases |s|
  {
    if i < |s| - 1 {
      SizeOfElement(s[..|s| - 1], i);
    }
  }
}
