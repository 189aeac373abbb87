/** The grammar of `main.py` and the tree its actions build:

      expression : expression PLUS term | expression MINUS term | term
      term       : term TIMES factor | term DIVIDE factor | factor
      factor     : NUMBER | LPAREN expression RPAREN

    A binary production builds `Bin(left, right, op)`; a unit production and
    a parenthesised expression hand their child up unchanged. The grammar is
    stated as three predicates relating a token sequence to the tree it
    derives; the parser is recursive descent whose left-recursive productions
    become tail functions folding to the left. */
module Parser {
  import opened Results
  import opened Tokens
  import opened Ast

  /** `expression : expression PLUS term | expression MINUS term`. */
  function AddOp(k: Kind): Option<Op> {
    if k == PLUS then Some(Add) else if k == MINUS then Some(Sub) else None
  }

  /** `term : term TIMES factor | term DIVIDE factor`. */
  function MulOp(k: Kind): Option<Op> {
    if k == TIMES then Some(Mul) else if k == DIVIDE then Some(Div) else None
  }

  /** The token kind an operator is written with. */
  function OpKind(op: Op): (k: Kind)
    ensures AddOp(k) == (if op == Add || op == Sub then Some(op) else None)
    ensures MulOp(k) == (if op == Mul || op == Div then Some(op) else None)
  {
    match op
    case Add => PLUS
    case Sub => MINUS
    case Mul => TIMES
    case Div => DIVIDE
  }

  predicate IsAdditive(op: Op) {
    op == Add || op == Sub
  }

  // ---------------------------------------------------------------------
  // The grammar: `ts` derives the nonterminal, and `e` is the tree the
  // productions' actions build for that derivation.
  // ---------------------------------------------------------------------

  ghost predicate IsExpr(ts: seq<Token>, e: Expr)
    decreases |ts|, 2
  {
    || IsTerm(ts, e)
    || (&& e.Bin? && IsAdditive(e.op)
        && exists i :: 0 <= i < |ts| && ts[i].kind == OpKind(e.op)
                        && IsExpr(ts[..i], e.l) && IsTerm(ts[i + 1..], e.r))
  }

  ghost predicate IsTerm(ts: seq<Token>, e: Expr)
    decreases |ts|, 1
  {
    || IsFactor(ts, e)
    || (&& e.Bin? && !IsAdditive(e.op)
        && exists i :: 0 <= i < |ts| && ts[i].kind == OpKind(e.op)
                        && IsTerm(ts[..i], e.l) && IsFactor(ts[i + 1..], e.r))
  }

  ghost predicate IsFactor(ts: seq<Token>, e: Expr)
    decreases |ts|, 0
  {
    || (e.Leaf? && |ts| == 1 && ts[0] == Token(NUMBER, IntVal(e.n)))
    || (&& |ts| >= 2 && ts[0].kind == LPAREN && ts[|ts| - 1].kind == RPAREN
        && IsExpr(ts[1..|ts| - 1], e))
  }

  // ---------------------------------------------------------------------
  // The parser.
  // ---------------------------------------------------------------------

  /** A subtree and the position of the first token after it. */
  datatype Parsed = Parsed(tree: Expr, next: nat)

  function ParseExpr(ts: seq<Token>, pos: nat): (r: Option<Parsed>)
    requires pos <= |ts|
    ensures r.Some? ==> pos < r.value.next <= |ts|
    decreases |ts| - pos, 2
  {
    match ParseTerm(ts, pos)
    case None => None
    case Some(t) => ExprTail(ts, t.tree, t.next)
  }

  /** Folds `(PLUS | MINUS) term` repeatedly onto `acc`, to the left. */
  function ExprTail(ts: seq<Token>, acc: Expr, pos: nat): (r: Option<Parsed>)
    requires pos <= |ts|
    ensures r.Some? ==> pos <= r.value.next <= |ts|
    decreases |ts| - pos, 2
  {
    if pos < |ts| && AddOp(ts[pos].kind).Some? then
      match ParseTerm(ts, pos + 1)
      case None => None
      case Some(t) => ExprTail(ts, Bin(acc, t.tree, AddOp(ts[pos].kind).value), t.next)
    else Some(Parsed(acc, pos))
  }

  function ParseTerm(ts: seq<Token>, pos: nat): (r: Option<Parsed>)
    requires pos <= |ts|
    ensures r.Some? ==> pos < r.value.next <= |ts|
    decreases |ts| - pos, 1
  {
    match ParseFactor(ts, pos)
    case None => None
    case Some(f) => TermTail(ts, f.tree, f.next)
  }

  /** Folds `(TIMES | DIVIDE) factor` repeatedly onto `acc`, to the left. */
  function TermTail(ts: seq<Token>, acc: Expr, pos: nat): (r: Option<Parsed>)
    requires pos <= |ts|
    ensures r.Some? ==> pos <= r.value.next <= |ts|
    decreases |ts| - pos, 1
  {
    if pos < |ts| && MulOp(ts[pos].kind).Some? then
      match ParseFactor(ts, pos + 1)
      case None => None
      case Some(f) => TermTail(ts, Bin(acc, f.tree, MulOp(ts[pos].kind).value), f.next)
    else Some(Parsed(acc, pos))
  }

  function ParseFactor(ts: seq<Token>, pos: nat): (r: Option<Parsed>)
    requires pos <= |ts|
    ensures r.Some? ==> pos < r.value.next <= |ts|
    decreases |ts| - pos, 0
  {
    if pos == |ts| then None
    else if ts[pos].kind == NUMBER then
      match ts[pos].value
      case IntVal(n) => Some(Parsed(Leaf(n), pos + 1))
      case StrVal(_) => None
    else if ts[pos].kind == LPAREN then
      match ParseExpr(ts, pos + 1)
      case None => None
      case Some(e) =>
        if e.next < |ts| && ts[e.next].kind == RPAREN then Some(Parsed(e.tree, e.next + 1))
        else None
    else None
  }

  /** Any grammar violation: an unexpected token, a missing token at the end
      of the input, or tokens left over after a complete expression. */
  datatype ParseError = SyntaxError

  /** `parser.parse`: the whole token sequence must be one expression. */
  function Parse(ts: seq<Token>): Result<Expr, ParseError> {
    match ParseExpr(ts, 0)
    case None => Err(SyntaxError)
    case Some(p) => if p.next == |ts| then Ok(p.tree) else Err(SyntaxError)
  }

  // ---------------------------------------------------------------------
  // Soundness: what the parser returns is derived by the grammar.
  // ---------------------------------------------------------------------

  lemma {:induction false} ExprSound(ts: seq<Token>, pos: nat)
    requires pos <= |ts|
    ensures var r := ParseExpr(ts, pos);
            r.Some? ==> IsExpr(ts[pos..r.value.next], r.value.tree)
    decreases |ts| - pos, 2
  {
    var t := ParseTerm(ts, pos);
    if t.Some? {
      TermSound(ts, pos);
      ExprTailSound(ts, pos, t.value.tree, t.value.next);
    }
  }

  /** Cutting a slice at `i` gives slices of the whole. */
  lemma SplitSlice<T>(ts: seq<T>, pos: nat, q: nat, i: nat, j: nat)
    requires pos <= q <= |ts| && i < q - pos && j == pos + i
    ensures ts[pos..q][..i] == ts[pos..j] && ts[pos..q][i + 1..] == ts[j + 1..q]
    ensures ts[pos..q][i] == ts[j]
  {
  }

  /** The inside of a slice that has room for a pair of brackets. */
  lemma InnerSlice<T>(ts: seq<T>, pos: nat, q: nat)
    requires pos < q < |ts|
    ensures var u := ts[pos..q + 1]; |u| >= 2 && u[1..|u| - 1] == ts[pos + 1..q]
  {
    var u := ts[pos..q + 1];
    var inner, middle := u[1..|u| - 1], ts[pos + 1..q];
    assert |inner| == |middle|;
    assert forall k :: 0 <= k < |inner| ==> inner[k] == middle[k];
  }

  /** The binary `expression` production, on slices of one sequence. */
  lemma ExprJoin(ts: seq<Token>, start: nat, pos: nat, q: nat, a: Expr, op: Op, b: Expr)
    requires start <= pos < q <= |ts| && ts[pos].kind == OpKind(op) && IsAdditive(op)
    requires IsExpr(ts[start..pos], a) && IsTerm(ts[pos + 1..q], b)
    ensures IsExpr(ts[start..q], Bin(a, b, op))
  {
    SplitSlice(ts, start, q, pos - start, pos);
  }

  /** The binary `term` production, on slices of one sequence. */
  lemma TermJoin(ts: seq<Token>, start: nat, pos: nat, q: nat, a: Expr, op: Op, b: Expr)
    requires start <= pos < q <= |ts| && ts[pos].kind == OpKind(op) && !IsAdditive(op)
    requires IsTerm(ts[start..pos], a) && IsFactor(ts[pos + 1..q], b)
    ensures IsTerm(ts[start..q], Bin(a, b, op))
  {
    SplitSlice(ts, start, q, pos - start, pos);
  }

  lemma {:induction false} ExprTailSound(ts: seq<Token>, start: nat, acc: Expr, pos: nat)
    requires start <= pos <= |ts| && IsExpr(ts[start..pos], acc)
    ensures var r := ExprTail(ts, acc, pos);
            r.Some? ==> IsExpr(ts[start..r.value.next], r.value.tree)
    decreases |ts| - pos, 2
  {
    if pos < |ts| && AddOp(ts[pos].kind).Some? {
      var op := AddOp(ts[pos].kind).value;
      var t := ParseTerm(ts, pos + 1);
      if t.Some? {
        TermSound(ts, pos + 1);
        var e, q := Bin(acc, t.value.tree, op), t.value.next;
        ExprJoin(ts, start, pos, q, acc, op, t.value.tree);
        ExprTailSound(ts, start, e, q);
      }
    }
  }

  lemma {:induction false} TermSound(ts: seq<Token>, pos: nat)
    requires pos <= |ts|
    ensures var r := ParseTerm(ts, pos);
            r.Some? ==> IsTerm(ts[pos..r.value.next], r.value.tree)
    decreases |ts| - pos, 1
  {
    var f := ParseFactor(ts, pos);
    if f.Some? {
      FactorSound(ts, pos);
      TermTailSound(ts, pos, f.value.tree, f.value.next);
    }
  }

  lemma {:induction false} TermTailSound(ts: seq<Token>, start: nat, acc: Expr, pos: nat)
    requires start <= pos <= |ts| && IsTerm(ts[start..pos], acc)
    ensures var r := TermTail(ts, acc, pos);
            r.Some? ==> IsTerm(ts[start..r.value.next], r.value.tree)
    decreases |ts| - pos, 1
  {
    if pos < |ts| && MulOp(ts[pos].kind).Some? {
      var op := MulOp(ts[pos].kind).value;
      var f := ParseFactor(ts, pos + 1);
      if f.Some? {
        FactorSound(ts, pos + 1);
        var e, q := Bin(acc, f.value.tree, op), f.value.next;
        TermJoin(ts, start, pos, q, acc, op, f.value.tree);
        TermTailSound(ts, start, e, q);
      }
    }
  }

  lemma {:induction false} FactorSound(ts: seq<Token>, pos: nat)
    requires pos <= |ts|
    ensures var r := ParseFactor(ts, pos);
            r.Some? ==> IsFactor(ts[pos..r.value.next], r.value.tree)
    decreases |ts| - pos, 0
  {
    if pos < |ts| && ts[pos].kind == LPAREN {
      var e := ParseExpr(ts, pos + 1);
      if e.Some? {
        ExprSound(ts, pos + 1);
        var q := e.value.next;
        if q < |ts| && ts[q].kind == RPAREN {
          InnerSlice(ts, pos, q);
        }
      }
    }
  }

  // ---------------------------------------------------------------------
  // Completeness: whatever the grammar derives, the parser finds. Each
  // nonterminal is parsed up to where its tail function carries on.
  // ---------------------------------------------------------------------

  /** A binary `expression` derivation of a slice, split at its operator. */
  lemma ExprSplit(ts: seq<Token>, pos: nat, q: nat, e: Expr)
    requires pos <= q <= |ts| && IsExpr(ts[pos..q], e) && !IsTerm(ts[pos..q], e)
    ensures e.Bin? && IsAdditive(e.op)
    ensures exists j :: pos <= j < q && ts[j].kind == OpKind(e.op)
                        && IsExpr(ts[pos..j], e.l) && IsTerm(ts[j + 1..q], e.r)
  {
    var u := ts[pos..q];
    var i :| 0 <= i < |u| && u[i].kind == OpKind(e.op) && IsExpr(u[..i], e.l) && IsTerm(u[i + 1..], e.r);
    SplitSlice(ts, pos, q, i, pos + i);
  }

  /** A binary `term` derivation of a slice, split at its operator. */
  lemma TermSplit(ts: seq<Token>, pos: nat, q: nat, e: Expr)
    requires pos <= q <= |ts| && IsTerm(ts[pos..q], e) && !IsFactor(ts[pos..q], e)
    ensures e.Bin? && !IsAdditive(e.op)
    ensures exists j :: pos <= j < q && ts[j].kind == OpKind(e.op)
                        && IsTerm(ts[pos..j], e.l) && IsFactor(ts[j + 1..q], e.r)
  {
    var u := ts[pos..q];
    var i :| 0 <= i < |u| && u[i].kind == OpKind(e.op) && IsTerm(u[..i], e.l) && IsFactor(u[i + 1..], e.r);
    SplitSlice(ts, pos, q, i, pos + i);
  }

  /** One round of `ExprTail`: an additive operator and the term after it. */
  lemma ExprTailStep(ts: seq<Token>, acc: Expr, j: nat, op: Op, t: Expr, q: nat)
    requires j < |ts| && ts[j].kind == OpKind(op) && IsAdditive(op)
    requires j + 1 <= q <= |ts| && (q < |ts| ==> MulOp(ts[q].kind).None?)
    requires ParseTerm(ts, j + 1) == TermTail(ts, t, q)
    ensures ExprTail(ts, acc, j) == ExprTail(ts, Bin(acc, t, op), q)
  {
    assert ParseTerm(ts, j + 1) == Some(Parsed(t, q));
  }

  /** One round of `TermTail`: a multiplicative operator and the factor
      after it. */
  lemma TermTailStep(ts: seq<Token>, acc: Expr, j: nat, op: Op, f: Expr, q: nat)
    requires j < |ts| && ts[j].kind == OpKind(op) && !IsAdditive(op)
    requires ParseFactor(ts, j + 1) == Some(Parsed(f, q))
    ensures TermTail(ts, acc, j) == TermTail(ts, Bin(acc, f, op), q)
  {
  }

  lemma {:induction false} ExprComplete(ts: seq<Token>, pos: nat, q: nat, e: Expr)
    requires pos <= q <= |ts| && IsExpr(ts[pos..q], e)
    requires q < |ts| ==> MulOp(ts[q].kind).None?
    ensures ParseExpr(ts, pos) == ExprTail(ts, e, q)
    decreases q - pos, 2
  {
    if IsTerm(ts[pos..q], e) {
      TermComplete(ts, pos, q, e);
    } else {
      ExprSplit(ts, pos, q, e);
      var j :| pos <= j < q && ts[j].kind == OpKind(e.op) && IsExpr(ts[pos..j], e.l) && IsTerm(ts[j + 1..q], e.r);
      ExprComplete(ts, pos, j, e.l);
      TermComplete(ts, j + 1, q, e.r);
      ExprTailStep(ts, e.l, j, e.op, e.r, q);
    }
  }

  lemma {:induction false} TermComplete(ts: seq<Token>, pos: nat, q: nat, e: Expr)
    requires pos <= q <= |ts| && IsTerm(ts[pos..q], e)
    ensures ParseTerm(ts, pos) == TermTail(ts, e, q)
    decreases q - pos, 1
  {
    if IsFactor(ts[pos..q], e) {
      FactorComplete(ts, pos, q, e);
    } else {
      TermSplit(ts, pos, q, e);
      var j :| pos <= j < q && ts[j].kind == OpKind(e.op) && IsTerm(ts[pos..j], e.l) && IsFactor(ts[j + 1..q], e.r);
      TermComplete(ts, pos, j, e.l);
      FactorComplete(ts, j + 1, q, e.r);
      TermTailStep(ts, e.l, j, e.op, e.r, q);
    }
  }

  lemma {:induction false} FactorComplete(ts: seq<Token>, pos: nat, q: nat, e: Expr)
    requires pos <= q <= |ts| && IsFactor(ts[pos..q], e)
    ensures ParseFactor(ts, pos) == Some(Parsed(e, q))
    decreases q - pos, 0
  {
    var u := ts[pos..q];
    if !(e.Leaf? && |u| == 1 && u[0] == Token(NUMBER, IntVal(e.n))) {
      assert |u| >= 2 && u[0].kind == LPAREN && u[|u| - 1].kind == RPAREN;
      assert u[0] == ts[pos] && u[|u| - 1] == ts[q - 1];
      var inner, w := u[1..|u| - 1], ts[pos + 1..q - 1];
      assert forall k :: 0 <= k < |inner| ==> inner[k] == w[k];
      assert inner == w;
      ExprComplete(ts, pos + 1, q - 1, e);
    }
  }

  // ---------------------------------------------------------------------
  // The parser decides the grammar.
  // ---------------------------------------------------------------------

  /** `parser.parse` succeeds with tree `e` exactly when the grammar derives
      the token sequence with tree `e`. */
  lemma ParseIsGrammar(ts: seq<Token>, e: Expr)
    ensures Parse(ts) == Ok(e) <==> IsExpr(ts, e)
  {
    assert ts[0..|ts|] == ts;
    if IsExpr(ts, e) {
      ExprComplete(ts, 0, |ts|, e);
    }
    ExprSound(ts, 0);
  }

  /** The grammar is unambiguous: a token sequence derives at most one tree. */
  lemma GrammarUnambiguous(ts: seq<Token>, e1: Expr, e2: Expr)
    requires IsExpr(ts, e1) && IsExpr(ts, e2)
    ensures e1 == e2
  {
    ParseIsGrammar(ts, e1);
    ParseIsGrammar(ts, e2);
  }

  /** `factor : LPAREN expression RPAREN` hands the inner tree up: no node is
      made for the parentheses. */
  lemma ParenPassThrough(ts: seq<Token>, e: Expr, open: Token, close: Token)
    requires Parse(ts) == Ok(e)
    requires open.kind == LPAREN && close.kind == RPAREN
    ensures Parse([open] + ts + [close]) == Ok(e)
  {
    var w := [open] + ts + [close];
    ParseIsGrammar(ts, e);
    assert w[1..|w| - 1] == ts;
    assert IsFactor(w, e);
    ParseIsGrammar(w, e);
  }

  // ---------------------------------------------------------------------
  // Building derivations, and the trees that precedence and associativity
  // give.
  // ---------------------------------------------------------------------

  /** The token an operator is written with. */
  function OpToken(op: Op): Token {
    SymbolToken(OpKind(op))
  }

  /** `expression : expression (PLUS | MINUS) term` builds `Bin`. */
  lemma ExprBin(x: seq<Token>, a: Expr, op: Op, y: seq<Token>, b: Expr)
    requires IsAdditive(op) && IsExpr(x, a) && IsTerm(y, b)
    ensures IsExpr(x + [OpToken(op)] + y, Bin(a, b, op))
  {
    var w := x + [OpToken(op)] + y;
    assert w[..|x|] == x && w[|x| + 1..] == y && w[|x|].kind == OpKind(op);
  }

  /** `term : term (TIMES | DIVIDE) factor` builds `Bin`. */
  lemma TermBin(x: seq<Token>, a: Expr, op: Op, y: seq<Token>, b: Expr)
    requires !IsAdditive(op) && IsTerm(x, a) && IsFactor(y, b)
    ensures IsTerm(x + [OpToken(op)] + y, Bin(a, b, op))
  {
    var w := x + [OpToken(op)] + y;
    assert w[..|x|] == x && w[|x| + 1..] == y && w[|x|].kind == OpKind(op);
  }

  /** Three operands and two operators: `*` and `/` bind tighter than `+`
      and `-`, and operators of the same class group to the left. So
      `a + b * c` is `a + (b * c)`, while `a - b - c`, `a * b / c` and
      `a * b + c` group as `(a op1 b) op2 c`. */
  lemma {:induction false} ThreeOperands(x: seq<Token>, a: Expr, op1: Op, y: seq<Token>, b: Expr,
                                         op2: Op, z: seq<Token>, c: Expr)
    requires IsFactor(x, a) && IsFactor(y, b) && IsFactor(z, c)
    ensures Parse(x + [OpToken(op1)] + y + [OpToken(op2)] + z)
         == Ok(if IsAdditive(op1) && !IsAdditive(op2) then Bin(a, Bin(b, c, op2), op1)
               else Bin(Bin(a, b, op1), c, op2))
  {
    var w := x + [OpToken(op1)] + y + [OpToken(op2)] + z;
    if IsAdditive(op1) && !IsAdditive(op2) {
      TermBin(y, b, op2, z, c);
      ExprBin(x, a, op1, y + [OpToken(op2)] + z, Bin(b, c, op2));
      assert w == x + [OpToken(op1)] + (y + [OpToken(op2)] + z);
      ParseIsGrammar(w, Bin(a, Bin(b, c, op2), op1));
    } else {
      var left := x + [OpToken(op1)] + y;
      if IsAdditive(op1) {
        ExprBin(x, a, op1, y, b);
      } else {
        TermBin(x, a, op1, y, b);
      }
      if IsAdditive(op2) {
        ExprBin(left, Bin(a, b, op1), op2, z, c);
      } else {
        TermBin(left, Bin(a, b, op1), op2, z, c);
      }
      ParseIsGrammar(w, Bin(Bin(a, b, op1), c, op2));
    }
  }
}
