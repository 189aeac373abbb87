/** `generate_intermediate_code`: a post-order walk appending one
    three-address line per binary node to a list. As the source does it:
    the temporary's name `t<len(code)+1>` is fixed when the node is entered,
    before its children append their lines, and the operands are printed as
    Python's `str` of the child subtrees, not as the temporaries the
    recursive calls return. */
module IntermediateCode {
  import opened Text
  import opened Ast
  import opened Seqs

  /** Python's `str` of a node in the source's encoding: a leaf is an `int`,
      a binary node the tuple `(left, right, 'op')`. */
  function Repr(e: Expr): string {
    match e
    case Leaf(n) => NatToString(n)
    case Bin(l, r, op) => "(" + Repr(l) + ", " + Repr(r) + ", '" + [OpChar(op)] + "')"
  }

  /** `f"t{k}"`. */
  function TempName(k: nat): string {
    "t" + NatToString(k)
  }

  /** `f"{temp_var} = {left} {operator} {right}"`. */
  function Line(temp: string, left: Expr, op: Op, right: Expr): string {
    temp + " = " + Repr(left) + " " + [OpChar(op)] + " " + Repr(right)
  }

  /** One three-address assignment: temporary `t<temp>` receives
      `left op right`. */
  datatype Step = Step(temp: nat, left: Expr, op: Op, right: Expr)

  /** The text the source appends for a step. */
  function StepText(s: Step): string {
    Line(TempName(s.temp), s.left, s.op, s.right)
  }

  /** The assignments made while visiting `e` when `k` lines are already in
      the list: the left child's, then the right child's, then the node's
      own, whose temporary was numbered from `k`. */
  function Steps(e: Expr, k: nat): seq<Step> {
    match e
    case Leaf(_) => []
    case Bin(l, r, op) =>
      var left := Steps(l, k);
      left + Steps(r, k + |left|) + [Step(k + 1, l, op, r)]
  }

  /** The lines appended while visiting `e` when `k` lines are already in
      the list. */
  function Emitted(e: Expr, k: nat): seq<string> {
    Map(StepText, Steps(e, k))
  }

  /** The generator makes one assignment per binary node, and a leaf none. */
  lemma {:induction false} StepsCount(e: Expr, k: nat)
    ensures |Steps(e, k)| == BinCount(e)
  {
    match e
    case Leaf(_) =>
    case Bin(l, r, _) =>
      StepsCount(l, k);
      StepsCount(r, k + BinCount(l));
  }

  /** Assignment `i` belongs to the `i`-th binary node in post-order (so
      children come before parents and the root is last), and its temporary
      is numbered from the lines emitted before that node was entered: its
      own subtree's assignments, except its own, come immediately before
      it. */
  lemma {:induction false} StepsInPostOrder(e: Expr, k: nat, i: nat)
    requires i < BinCount(e)
    ensures |Steps(e, k)| == BinCount(e)
    ensures var node := PostOrder(e)[i];
            BinCount(node) <= i + 1
            && Steps(e, k)[i] == Step(k + i + 2 - BinCount(node), node.l, node.op, node.r)
  {
    StepsCount(e, k);
    match e
    case Leaf(_) =>
    case Bin(l, r, op) =>
      var nl, nr := BinCount(l), BinCount(r);
      StepsCount(l, k);
      StepsCount(r, k + nl);
      IndexAppend3(Steps(l, k), Steps(r, k + nl), Step(k + 1, l, op, r), i);
      IndexAppend3(PostOrder(l), PostOrder(r), e, i);
      if i < nl {
        StepsInPostOrder(l, k, i);
      } else if i < nl + nr {
        StepsInPostOrder(r, k + nl, i - nl);
      }
  }

  /** Line `i` is the text of assignment `i`. */
  lemma EmittedIsText(e: Expr, k: nat, i: nat)
    requires i < |Steps(e, k)|
    ensures |Emitted(e, k)| == |Steps(e, k)| && Emitted(e, k)[i] == StepText(Steps(e, k)[i])
  {
    MapIndex(StepText, Steps(e, k), i);
  }

  /** The root's assignment is the last one and uses the first free
      temporary. */
  lemma RootIsLast(e: Expr, k: nat)
    requires e.Bin?
    ensures |Steps(e, k)| == BinCount(e)
    ensures Steps(e, k)[BinCount(e) - 1] == Step(k + 1, e.l, e.op, e.r)
  {
    assert PostOrder(e)[BinCount(e) - 1] == e;
    StepsInPostOrder(e, k, BinCount(e) - 1);
  }

  /** Because the name is fixed before the children are visited, a node and
      its first binary child (the left child, or the right one when the left
      is a leaf) assign the same temporary, so two lines of the output
      assign it. */
  lemma FirstBinaryChildSharesTemp(e: Expr, k: nat)
    requires e.Bin? && (e.l.Bin? || e.r.Bin?)
    ensures |Steps(e, k)| == BinCount(e)
    ensures var c := if e.l.Bin? then e.l else e.r;
            BinCount(c) - 1 < BinCount(e) - 1
            && Steps(e, k)[BinCount(c) - 1] == Step(k + 1, c.l, c.op, c.r)
            && Steps(e, k)[BinCount(e) - 1].temp == k + 1
  {
    RootIsLast(e, k);
    var c := if e.l.Bin? then e.l else e.r;
    var at := BinCount(c) - 1;
    assert PostOrder(c)[at] == c;
    IndexAppend3(PostOrder(e.l), PostOrder(e.r), e, at);
    assert PostOrder(e)[at] == c;
    StepsInPostOrder(e, k, at);
  }

  /** For `(1 + 2) * 3` both lines assign `t1`, and the second line's left
      operand is the tuple text of the first subtree, not `t1`. */
  lemma DuplicateTempExample()
    ensures var inner := Bin(Leaf(1), Leaf(2), Add);
            Steps(Bin(inner, Leaf(3), Mul), 0) == [Step(1, Leaf(1), Add, Leaf(2)), Step(1, inner, Mul, Leaf(3))]
    ensures Emitted(Bin(Bin(Leaf(1), Leaf(2), Add), Leaf(3), Mul), 0)
         == ["t1 = 1 + 2", "t1 = (1, 2, '+') * 3"]
  {
    var inner := Bin(Leaf(1), Leaf(2), Add);
    var e := Bin(inner, Leaf(3), Mul);
    var first, second := Step(1, Leaf(1), Add, Leaf(2)), Step(1, inner, Mul, Leaf(3));
    assert Steps(inner, 0) == [first];
    assert Steps(e, 0) == [first, second];
    assert NatToString(1) == "1" && NatToString(2) == "2" && NatToString(3) == "3";
    assert Repr(inner) == "(1, 2, '+')";
    assert StepText(first) == "t1 = 1 + 2";
    assert StepText(second) == "t1 = (1, 2, '+') * 3";
  }

  /** The lines of a binary node: the left child's, the right child's, then
      its own. */
  lemma EmittedBin(e: Expr, k: nat)
    requires e.Bin?
    ensures var left := Steps(e.l, k);
            Emitted(e, k) == Emitted(e.l, k) + Emitted(e.r, k + |left|) + [StepText(Step(k + 1, e.l, e.op, e.r))]
  {
    var left, right, own := Steps(e.l, k), Steps(e.r, k + |Steps(e.l, k)|), Step(k + 1, e.l, e.op, e.r);
    MapAppend(StepText, left, right);
    MapAppend(StepText, left + right, [own]);
    assert Map(StepText, [own]) == [StepText(own)];
  }

  /** The list `code` that `generate_code_helper` appends to. */
  class CodeGenerator {
    var code: seq<string>

    constructor ()
      ensures code == []
    {
      code := [];
    }

    /** `generate_code_helper(node)`: appends the node's lines and returns
        the leaf's value as text, or the node's temporary. The helper
        returns a leaf's integer itself; every caller discards the result,
        so only its text form is kept here. */
    method Visit(node: Expr) returns (operand: string)
      modifies this
      ensures code == old(code) + Emitted(node, |old(code)|)
      ensures operand == if node.Leaf? then NatToString(node.n) else TempName(|old(code)| + 1)
      decreases node
    {
      match node
      case Leaf(n) =>
        operand := NatToString(n);
      case Bin(l, r, op) =>
        ghost var k := |code|;
        var temp := TempName(|code| + 1);
        var _ := Visit(l);
        ghost var left := Steps(l, k);
        var _ := Visit(r);
        EmittedBin(node, k);
        assert code == old(code) + Emitted(l, k) + Emitted(r, k + |left|);
        var line := Line(temp, l, op, r);
        assert line == StepText(Step(k + 1, l, op, r));
        AppendAssoc(old(code), Emitted(l, k), Emitted(r, k + |left|), line);
        code := code + [line];
        operand := temp;
    }
  }

  /** `generate_intermediate_code(expression)`. */
  method GenerateIntermediateCode(e: Expr) returns (code: seq<string>)
    ensures code == Emitted(e, 0)
  {
    var generator := new CodeGenerator();
    var _ := generator.Visit(e);
    code := generator.code;
  }
}
