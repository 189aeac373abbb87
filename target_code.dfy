/** `generate_cpp_code`: the tree printed as a fully parenthesised infix
    expression, and what reading that text back gives. */
module TargetCode {
  import opened Results
  import opened Text
  import opened Tokens
  import opened Ast
  import opened Lexer
  import opened Parser

  /** `generate_cpp_code_helper`: a leaf is `str(node)`, a binary node
      `f"({left_cpp} {operator} {right_cpp})"`. */
  function Render(e: Expr): string {
    match e
    case Leaf(n) => NatToString(n)
    case Bin(l, r, op) => "(" + Render(l) + " " + [OpChar(op)] + " " + Render(r) + ")"
  }

  /** The tokens the rendered text is made of. */
  function RenderTokens(e: Expr): seq<Token> {
    match e
    case Leaf(n) => [Token(NUMBER, IntVal(n))]
    case Bin(l, r, op) =>
      [SymbolToken(LPAREN)] + (RenderTokens(l) + [OpToken(op)] + RenderTokens(r)) + [SymbolToken(RPAREN)]
  }

  /** A run of digits holds no parenthesis. */
  lemma DigitsHaveNoParentheses(s: string)
    requires AllDigits(s)
    ensures multiset(s)['('] == 0 && multiset(s)[')'] == 0
  {
  }

  /** The parentheses of a rendered node: its own pair and its operands'. */
  lemma BinParentheses(left: string, op: Op, right: string)
    ensures var s := "(" + left + " " + [OpChar(op)] + " " + right + ")";
            && multiset(s)['('] == multiset(left)['('] + multiset(right)['('] + 1
            && multiset(s)[')'] == multiset(left)[')'] + multiset(right)[')'] + 1
  {
    var c := [OpChar(op)];
    assert multiset(c)['('] == 0 && multiset(c)[')'] == 0;
    assert multiset("(" + left + " " + c + " " + right + ")")
        == multiset("(") + multiset(left) + multiset(" ") + multiset(c) + multiset(" ") + multiset(right) + multiset(")");
  }

  /** Every binary node contributes one `(` and one `)`, and digits none. */
  lemma {:induction false} ParenthesesCount(e: Expr)
    ensures multiset(Render(e))['('] == BinCount(e)
    ensures multiset(Render(e))[')'] == BinCount(e)
  {
    match e
    case Leaf(n) =>
      NatToStringDigits(n);
      DigitsHaveNoParentheses(NatToString(n));
    case Bin(l, r, op) =>
      ParenthesesCount(l);
      ParenthesesCount(r);
      BinParentheses(Render(l), op, Render(r));
  }

  /** The text starts with a digit or `(` and ends with a digit or `)`. */
  lemma RenderEnds(e: Expr)
    ensures var s := Render(e);
            s != [] && (IsDigit(s[0]) || s[0] == '(') && (IsDigit(s[|s| - 1]) || s[|s| - 1] == ')')
  {
    match e
    case Leaf(n) =>
      NatToStringDigits(n);
    case Bin(l, r, op) =>
  }

  /** An operator character lexes as the token of that operator. */
  lemma LexOpChar(op: Op)
    ensures SymbolKind(OpChar(op)) == Some(OpKind(op))
    ensures Lex([OpChar(op)]) == Lexed([OpToken(op)], [])
  {
    LexSymbol(OpChar(op), []);
    assert [OpChar(op)] + [] == [OpChar(op)];
  }

  /** Two texts that lex cleanly, cut where no digit run is split, lex
      cleanly together. */
  lemma LexJoin(a: string, ta: seq<Token>, b: string, tb: seq<Token>)
    requires Lex(a) == Lexed(ta, []) && Lex(b) == Lexed(tb, [])
    requires a != [] && b != [] ==> !(IsDigit(a[|a| - 1]) && IsDigit(b[0]))
    ensures Lex(a + b) == Lexed(ta + tb, [])
  {
    LexConcat(a, b);
  }

  /** The pieces of a rendered node that are not operands. */
  lemma LexPieces(op: Op)
    ensures Lex("(") == Lexed([SymbolToken(LPAREN)], [])
    ensures Lex(" ") == Lexed([], [])
    ensures Lex(")") == Lexed([SymbolToken(RPAREN)], [])
    ensures Lex([OpChar(op)]) == Lexed([OpToken(op)], [])
  {
    LexSymbol('(', []);
    assert "(" + [] == "(";
    LexIgnored(' ', []);
    assert " " + [] == " ";
    LexSymbol(')', []);
    assert ")" + [] == ")";
    LexOpChar(op);
  }

  /** `(left op ` lexes as `(`, the left operand's tokens and the operator. */
  lemma LexOpening(left: string, tl: seq<Token>, op: Op)
    requires Lex(left) == Lexed(tl, [])
    ensures Lex("(" + left + " " + [OpChar(op)] + " ") == Lexed([SymbolToken(LPAREN)] + tl + [OpToken(op)], [])
  {
    LexPieces(op);
    var p1 := "(" + left;
    LexJoin("(", [SymbolToken(LPAREN)], left, tl);
    var p2 := p1 + " ";
    LexJoin(p1, [SymbolToken(LPAREN)] + tl, " ", []);
    assert [SymbolToken(LPAREN)] + tl + [] == [SymbolToken(LPAREN)] + tl;
    var p3 := p2 + [OpChar(op)];
    LexJoin(p2, [SymbolToken(LPAREN)] + tl, [OpChar(op)], [OpToken(op)]);
    LexJoin(p3, [SymbolToken(LPAREN)] + tl + [OpToken(op)], " ", []);
    assert [SymbolToken(LPAREN)] + tl + [OpToken(op)] + [] == [SymbolToken(LPAREN)] + tl + [OpToken(op)];
  }

  lemma Regroup<T>(a: T, l: seq<T>, o: T, r: seq<T>, b: T)
    ensures [a] + l + [o] + r + [b] == [a] + (l + [o] + r) + [b]
  {
  }

  /** A parenthesised binary node lexes as its parts, whatever the texts of
      its operands: every cut between the pieces has `(`, ` ` or `)` on one
      side, so no two digit runs merge. */
  lemma LexBin(left: string, tl: seq<Token>, op: Op, right: string, tr: seq<Token>)
    requires Lex(left) == Lexed(tl, []) && Lex(right) == Lexed(tr, [])
    ensures Lex("(" + left + " " + [OpChar(op)] + " " + right + ")")
         == Lexed([SymbolToken(LPAREN)] + (tl + [OpToken(op)] + tr) + [SymbolToken(RPAREN)], [])
  {
    LexPieces(op);
    LexOpening(left, tl, op);
    var p4 := "(" + left + " " + [OpChar(op)] + " ";
    var t4 := [SymbolToken(LPAREN)] + tl + [OpToken(op)];
    assert p4[|p4| - 1] == ' ';
    LexJoin(p4, t4, right, tr);
    LexJoin(p4 + right, t4 + tr, ")", [SymbolToken(RPAREN)]);
    Regroup(SymbolToken(LPAREN), tl, OpToken(op), tr, SymbolToken(RPAREN));
  }

  /** Lexing the rendered text gives exactly its tokens and reports no
      character. */
  lemma {:induction false} LexRender(e: Expr)
    ensures Lex(Render(e)) == Lexed(RenderTokens(e), [])
  {
    match e
    case Leaf(n) =>
      var s := NatToString(n);
      NatToStringDigits(n);
      LexNumber(s, []);
      assert s + [] == s;
    case Bin(l, r, op) =>
      LexRender(l);
      LexRender(r);
      LexBin(Render(l), RenderTokens(l), op, Render(r), RenderTokens(r));
  }

  /** The middle of `[a] + m + [b]` is `m`. */
  lemma Wrapped<T>(a: T, m: seq<T>, b: T)
    ensures var w := [a] + m + [b];
            |w| >= 2 && w[0] == a && w[|w| - 1] == b && w[1..|w| - 1] == m
  {
  }

  /** Every rendered tree is a `factor` of the grammar deriving that tree:
      a number, or a parenthesised binary expression. */
  lemma {:induction false} RenderIsFactor(e: Expr)
    ensures IsFactor(RenderTokens(e), e)
  {
    match e
    case Leaf(n) =>
    case Bin(l, r, op) =>
      RenderIsFactor(l);
      RenderIsFactor(r);
      var tl, tr := RenderTokens(l), RenderTokens(r);
      if IsAdditive(op) {
        assert IsTerm(tl, l) && IsExpr(tl, l) && IsTerm(tr, r);
        ExprBin(tl, l, op, tr, r);
      } else {
        assert IsTerm(tl, l);
        TermBin(tl, l, op, tr, r);
        assert IsExpr(tl + [OpToken(op)] + tr, e);
      }
      Wrapped(SymbolToken(LPAREN), tl + [OpToken(op)] + tr, SymbolToken(RPAREN));
  }

  /** Round trip: lexing and parsing the target code gives back the tree. */
  lemma RenderRoundTrip(e: Expr)
    ensures Lex(Render(e)).illegal == []
    ensures Parse(Lex(Render(e)).tokens) == Ok(e)
  {
    LexRender(e);
    RenderIsFactor(e);
    ParseIsGrammar(RenderTokens(e), e);
  }
}
