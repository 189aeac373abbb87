/** The abstract syntax tree. The source encodes a leaf as a bare integer
    and a binary node as the triple `(left, right, operator)`. */
module Ast {

  datatype Op = Add | Sub | Mul | Div

  datatype Expr = Leaf(n: nat) | Bin(l: Expr, r: Expr, op: Op)

  /** The operator character stored as the third element of the triple. */
  function OpChar(op: Op): char {
    match op
    case Add => '+'
    case Sub => '-'
    case Mul => '*'
    case Div => '/'
  }

  /** Number of binary nodes. */
  function BinCount(e: Expr): nat {
    match e
    case Leaf(_) => 0
    case Bin(l, r, _) => BinCount(l) + BinCount(r) + 1
  }

  /** The binary nodes of a tree in post-order: every node after the nodes
      of both of its subtrees, left subtree first. */
  function PostOrder(e: Expr): (nodes: seq<Expr>)
    ensures |nodes| == BinCount(e)
    ensures forall i :: 0 <= i < |nodes| ==> nodes[i].Bin?
  {
    match e
    case Leaf(_) => []
    case Bin(l, r, _) => PostOrder(l) + PostOrder(r) + [e]
  }
}
