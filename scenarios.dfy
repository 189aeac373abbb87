/** Whole-pipeline behaviour on a few concrete programs. */
module Scenarios {
  import opened Results
  import opened Text
  import opened Tokens
  import opened Ast
  import opened Lexer
  import opened Parser
  import opened Evaluator
  import opened TargetCode
  import opened Compiler

  /** The token of a one-digit number. */
  function Number(c: char): Token
    requires IsDigit(c)
  {
    Token(NUMBER, IntVal(DigitValue(c)))
  }

  // Regroupings of short character displays, stated generically so that
  // no lexer fact is in scope while they are proved.

  lemma Split3<T>(a: T, b: T, c: T)
    ensures [a, b, c] == [a] + ([b] + [c])
  {
  }

  lemma Split5<T>(a: T, b: T, c: T, d: T, e: T)
    ensures [a, b, c, d, e] == [a] + ([b, c, d] + [e])
  {
  }

  lemma Split7<T>(a: T, b: T, c: T, d: T, e: T, f: T, g: T)
    ensures [a, b, c, d, e, f, g] == [a] + ([b, c] + ([d, e, f] + [g]))
  {
  }

  lemma Split9<T>(a: T, b: T, c: T, d: T, e: T, f: T, g: T, h: T, i: T)
    ensures [a, b, c, d, e, f, g, h, i] == [a] + ([b, c, d] + [e, f, g, h, i])
  {
  }

  lemma Split10<T>(a: T, b: T, c: T, d: T, e: T, f: T, g: T, h: T, i: T, j: T)
    ensures [a, b, c, d, e, f, g, h, i, j] == [a, b] + ([c, d, e] + [f, g, h, i, j])
  {
  }

  lemma Prepend2<T>(a: T, b: T, c: T, d: T, e: T)
    ensures [a] + ([b] + [c, d, e]) == [a, b, c, d, e]
  {
  }

  lemma Join3<T>(a: T, b: T, c: T)
    ensures [a] + [b] + [c] == [a, b, c]
  {
  }

  lemma Join5<T>(a: T, b: T, c: T, d: T, e: T)
    ensures [a] + [b] + [c] + [d] + [e] == [a, b, c, d, e]
  {
  }

  /** A digit followed by a non-digit is a one-digit number token. */
  lemma LexDigit(a: char, rest: string)
    requires IsDigit(a) && (rest != [] ==> !IsDigit(rest[0]))
    ensures Lex([a] + rest) == Lexed([Number(a)] + Lex(rest).tokens, Lex(rest).illegal)
  {
    LexNumber([a], rest);
    assert DecimalValue([a]) == DigitValue(a);
  }

  lemma LexLastDigit(a: char)
    requires IsDigit(a)
    ensures Lex([a]) == Lexed([Number(a)], [])
  {
    LexDigit(a, []);
    assert [a] + [] == [a];
  }

  /** An operator between two blanks is one symbol token. */
  lemma LexSpacedSymbol(c: char, rest: string)
    requires SymbolKind(c).Some?
    ensures Lex([' ', c, ' '] + rest)
         == Lexed([SymbolToken(SymbolKind(c).value)] + Lex(rest).tokens, Lex(rest).illegal)
  {
    LexIgnored(' ', rest);
    LexSymbol(c, [' '] + rest);
    assert [' ', c, ' '] + rest == [' '] + ([c] + ([' '] + rest));
    LexIgnored(' ', [c] + ([' '] + rest));
  }

  /** `a o b`, blanks around the operator. */
  lemma LexSpaced3(a: char, o: char, b: char)
    requires IsDigit(a) && IsDigit(b) && SymbolKind(o).Some?
    ensures Lex([a, ' ', o, ' ', b]) == Lexed([Number(a), SymbolToken(SymbolKind(o).value), Number(b)], [])
  {
    LexLastDigit(b);
    LexSpacedSymbol(o, [b]);
    LexDigit(a, [' ', o, ' '] + [b]);
    Split5(a, ' ', o, ' ', b);
  }

  /** `a o b p c`, blanks around the operators. */
  lemma LexSpaced5(a: char, o: char, b: char, p: char, c: char)
    requires IsDigit(a) && IsDigit(b) && IsDigit(c) && SymbolKind(o).Some? && SymbolKind(p).Some?
    ensures Lex([a, ' ', o, ' ', b, ' ', p, ' ', c])
         == Lexed([Number(a), SymbolToken(SymbolKind(o).value), Number(b), SymbolToken(SymbolKind(p).value), Number(c)], [])
  {
    LexSpaced3(b, p, c);
    LexSpacedSymbol(o, [b, ' ', p, ' ', c]);
    LexDigit(a, [' ', o, ' '] + [b, ' ', p, ' ', c]);
    Split9(a, ' ', o, ' ', b, ' ', p, ' ', c);
    Prepend2(Number(a), SymbolToken(SymbolKind(o).value), Number(b), SymbolToken(SymbolKind(p).value), Number(c));
  }

  /** The tokens of `2 + 3 * 4`. */
  lemma LexPrecedence()
    ensures Lex("2 + 3 * 4") == Lexed([Token(NUMBER, IntVal(2)), SymbolToken(PLUS), Token(NUMBER, IntVal(3)), SymbolToken(TIMES), Token(NUMBER, IntVal(4))], "")
  {
    LexSpaced5('2', '+', '3', '*', '4');
  }

  /** The tokens of `(5)`. */
  lemma LexParenthesised()
    ensures Lex("(5)") == Lexed([SymbolToken(LPAREN), Token(NUMBER, IntVal(5)), SymbolToken(RPAREN)], "")
  {
    LexSymbol(')', []);
    assert [')'] + [] == [')'];
    LexDigit('5', [')']);
    LexSymbol('(', ['5'] + [')']);
    Split3('(', '5', ')');
    Split3(SymbolToken(LPAREN), Number('5'), SymbolToken(RPAREN));
  }

  /** The tokens of `10 - 2 - 3`: two digits make one number. */
  lemma LexAssociativity()
    ensures Lex("10 - 2 - 3") == Lexed([Token(NUMBER, IntVal(10)), SymbolToken(MINUS), Token(NUMBER, IntVal(2)), SymbolToken(MINUS), Token(NUMBER, IntVal(3))], "")
  {
    var tail := [' ', '-', ' '] + ['2', ' ', '-', ' ', '3'];
    LexSpaced3('2', '-', '3');
    LexSpacedSymbol('-', ['2', ' ', '-', ' ', '3']);
    LexNumber(['1', '0'], tail);
    assert DecimalValue(['1', '0']) == 10;
    Split10('1', '0', ' ', '-', ' ', '2', ' ', '-', ' ', '3');
    Prepend2(Token(NUMBER, IntVal(10)), SymbolToken(MINUS), Number('2'), SymbolToken(MINUS), Number('3'));
  }

  /** The tokens of `5 / 0`. */
  lemma LexDivision()
    ensures Lex("5 / 0") == Lexed([Token(NUMBER, IntVal(5)), SymbolToken(DIVIDE), Token(NUMBER, IntVal(0))], "")
  {
    LexSpaced3('5', '/', '0');
  }

  /** The tokens of `2 +`. */
  lemma LexMissingOperand()
    ensures Lex("2 +") == Lexed([Token(NUMBER, IntVal(2)), SymbolToken(PLUS)], "")
  {
    LexSymbol('+', []);
    assert ['+'] + [] == ['+'];
    LexIgnored(' ', ['+']);
    LexDigit('2', [' '] + ['+']);
    Split3('2', ' ', '+');
  }

  /** The tokens of `2 $ + 3`: the `$` is reported and skipped. */
  lemma LexIllegal()
    ensures Lex("2 $ + 3") == Lexed([Token(NUMBER, IntVal(2)), SymbolToken(PLUS), Token(NUMBER, IntVal(3))], "$")
  {
    var r := [' ', '+', ' '] + ['3'];
    LexLastDigit('3');
    LexSpacedSymbol('+', ['3']);
    LexIllegalChar('$', r);
    LexIgnored(' ', ['$'] + r);
    assert [' ', '$'] + r == [' '] + (['$'] + r);
    LexDigit('2', [' ', '$'] + r);
    Split7('2', ' ', '$', ' ', '+', ' ', '3');
    Split3(Number('2'), SymbolToken(PLUS), Number('3'));
  }

  /** A one-token factor. */
  lemma NumberFactor(n: nat)
    ensures IsFactor([Token(NUMBER, IntVal(n))], Leaf(n))
    ensures IsTerm([Token(NUMBER, IntVal(n))], Leaf(n)) && IsExpr([Token(NUMBER, IntVal(n))], Leaf(n))
  {
  }

  /** Two numbers and an operator make one binary node. */
  lemma ParseBinary(a: nat, op: Op, b: nat)
    ensures Parse([Token(NUMBER, IntVal(a)), OpToken(op), Token(NUMBER, IntVal(b))]) == Ok(Bin(Leaf(a), Leaf(b), op))
  {
    var x, y := [Token(NUMBER, IntVal(a))], [Token(NUMBER, IntVal(b))];
    NumberFactor(a);
    NumberFactor(b);
    if IsAdditive(op) {
      ExprBin(x, Leaf(a), op, y, Leaf(b));
    } else {
      TermBin(x, Leaf(a), op, y, Leaf(b));
    }
    Join3(Token(NUMBER, IntVal(a)), OpToken(op), Token(NUMBER, IntVal(b)));
    ParseIsGrammar(x + [OpToken(op)] + y, Bin(Leaf(a), Leaf(b), op));
  }

  /** Three numbers and two operators, grouped by precedence and then to
      the left. */
  lemma ParseThree(a: nat, op1: Op, b: nat, op2: Op, c: nat)
    ensures Parse([Token(NUMBER, IntVal(a)), OpToken(op1), Token(NUMBER, IntVal(b)), OpToken(op2), Token(NUMBER, IntVal(c))])
         == Ok(if IsAdditive(op1) && !IsAdditive(op2) then Bin(Leaf(a), Bin(Leaf(b), Leaf(c), op2), op1)
               else Bin(Bin(Leaf(a), Leaf(b), op1), Leaf(c), op2))
  {
    var x, y, z := [Token(NUMBER, IntVal(a))], [Token(NUMBER, IntVal(b))], [Token(NUMBER, IntVal(c))];
    NumberFactor(a);
    NumberFactor(b);
    NumberFactor(c);
    ThreeOperands(x, Leaf(a), op1, y, Leaf(b), op2, z, Leaf(c));
    Join5(Token(NUMBER, IntVal(a)), OpToken(op1), Token(NUMBER, IntVal(b)), OpToken(op2), Token(NUMBER, IntVal(c)));
  }

  /** A parenthesised number is the bare leaf. */
  lemma ParseParenthesised(a: nat)
    ensures Parse([SymbolToken(LPAREN), Token(NUMBER, IntVal(a)), SymbolToken(RPAREN)]) == Ok(Leaf(a))
  {
    var x := [Token(NUMBER, IntVal(a))];
    NumberFactor(a);
    ParseIsGrammar(x, Leaf(a));
    ParenPassThrough(x, Leaf(a), SymbolToken(LPAREN), SymbolToken(RPAREN));
    Join3(SymbolToken(LPAREN), Token(NUMBER, IntVal(a)), SymbolToken(RPAREN));
  }

  /** `*` binds tighter than `+`: `2 + 3 * 4` parses as `2 + (3 * 4)`. */
  lemma PrecedenceScenario()
    ensures Parse(Lex("2 + 3 * 4").tokens) == Ok(Bin(Leaf(2), Bin(Leaf(3), Leaf(4), Mul), Add))
  {
    LexPrecedence();
    ParseThree(2, Add, 3, Mul, 4);
  }

  /** ... which is 14. */
  lemma PrecedenceValue()
    ensures Eval(Bin(Leaf(2), Bin(Leaf(3), Leaf(4), Mul), Add)) == Ok(14.0)
  {
    IntegerWithoutDivision(Bin(Leaf(2), Bin(Leaf(3), Leaf(4), Mul), Add));
  }

  /** `(5)` is the bare leaf: the parentheses make no node. */
  lemma ParenthesesScenario()
    ensures Parse(Lex("(5)").tokens) == Ok(Leaf(5))
  {
    LexParenthesised();
    ParseParenthesised(5);
  }

  /** Parentheses override precedence: the target code of `(2 + 3) * 4`
      keeps its parentheses and adds the outer pair. */
  lemma TargetCodeText()
    ensures Render(Bin(Bin(Leaf(2), Leaf(3), Add), Leaf(4), Mul)) == "((2 + 3) * 4)"
  {
    assert NatToString(2) == "2" && NatToString(3) == "3" && NatToString(4) == "4";
  }

  /** ... and that text reads back as the same tree. */
  lemma TargetCodeScenario()
    ensures Parse(Lex("((2 + 3) * 4)").tokens) == Ok(Bin(Bin(Leaf(2), Leaf(3), Add), Leaf(4), Mul))
  {
    TargetCodeText();
    RenderRoundTrip(Bin(Bin(Leaf(2), Leaf(3), Add), Leaf(4), Mul));
  }

  /** ... and is worth 20. */
  lemma TargetCodeValue()
    ensures Eval(Bin(Bin(Leaf(2), Leaf(3), Add), Leaf(4), Mul)) == Ok(20.0)
  {
    IntegerWithoutDivision(Bin(Bin(Leaf(2), Leaf(3), Add), Leaf(4), Mul));
  }

  /** Subtraction groups to the left: `10 - 2 - 3` parses as
      `(10 - 2) - 3`. */
  lemma AssociativityScenario()
    ensures Parse(Lex("10 - 2 - 3").tokens) == Ok(Bin(Bin(Leaf(10), Leaf(2), Sub), Leaf(3), Sub))
  {
    LexAssociativity();
    ParseThree(10, Sub, 2, Sub, 3);
  }

  /** ... which is 5. */
  lemma AssociativityValue()
    ensures Eval(Bin(Bin(Leaf(10), Leaf(2), Sub), Leaf(3), Sub)) == Ok(5.0)
  {
    IntegerWithoutDivision(Bin(Bin(Leaf(10), Leaf(2), Sub), Leaf(3), Sub));
  }

  /** `5 / 0` parses as one division, whose evaluation fails. */
  lemma DivisionByZeroScenario()
    ensures Parse(Lex("5 / 0").tokens) == Ok(Bin(Leaf(5), Leaf(0), Div))
    ensures Eval(Bin(Leaf(5), Leaf(0), Div)) == Err(DivisionByZero)
  {
    LexDivision();
    ParseBinary(5, Div, 0);
  }

  /** A missing operand is a syntax error. */
  lemma SyntaxScenario()
    ensures Parse(Lex("2 +").tokens) == Err(SyntaxError)
  {
    LexMissingOperand();
  }

  /** `2 $ + 3` parses as `2 + 3`: the `$` is reported and skipped. */
  lemma IllegalCharacterScenario()
    ensures Lex("2 $ + 3").illegal == "$"
    ensures Parse(Lex("2 $ + 3").tokens) == Ok(Bin(Leaf(2), Leaf(3), Add))
  {
    LexIllegal();
    ParseBinary(2, Add, 3);
  }

  /** Only whitespace: nothing is compiled. */
  lemma NoInputScenario()
    ensures Compile(" \t\n") == Err(NoInput)
  {
    NoInputExactly(" \t\n");
    var s := " \t\n";
    assert IsSpace(s[0]) && IsSpace(s[1]) && IsSpace(s[2]);
  }
}
