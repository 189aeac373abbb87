/** `get_token_type`: the category the symbol table shows for a token type
    name. */
module Classifier {
  import opened Tokens

  /** The four operator type names. */
  predicate IsOperatorName(name: string) {
    name in ["PLUS", "MINUS", "TIMES", "DIVIDE"]
  }

  /** Operators first, then NUMBER, then the parentheses; any other name
      falls through to "Identificador". */
  function TokenType(name: string): string {
    if IsOperatorName(name) then "Operador"
    else if name == "NUMBER" then "Digito"
    else if name in ["LPAREN", "RPAREN"] then "Simbolo Especial"
    else "Identificador"
  }

  /** The category of each declared kind. */
  function Category(k: Kind): string {
    match k
    case PLUS | MINUS | TIMES | DIVIDE => "Operador"
    case NUMBER => "Digito"
    case LPAREN | RPAREN => "Simbolo Especial"
  }

  /** For every kind the lexer produces the classifier gives the kind's
      category, so the "Identificador" branch is never taken. */
  lemma TokenTypeOfKind(k: Kind)
    ensures TokenType(KindName(k)) == Category(k)
    ensures TokenType(KindName(k)) != "Identificador"
  {
  }

  /** A type name is classed as an operator exactly when it names one of
      the four operator kinds. */
  lemma OperatorExactly(name: string)
    ensures TokenType(name) == "Operador"
        <==> exists k: Kind :: k in {PLUS, MINUS, TIMES, DIVIDE} && name == KindName(k)
  {
    if TokenType(name) == "Operador" {
      assert IsOperatorName(name);
      if name == "PLUS" {
        assert KindName(PLUS) == name;
      } else if name == "MINUS" {
        assert KindName(MINUS) == name;
      } else if name == "TIMES" {
        assert KindName(TIMES) == name;
      } else {
        assert KindName(DIVIDE) == name;
      }
    }
  }

  /** A name that is not one of the seven declared type names is an
      "Identificador". */
  lemma UnknownIsIdentifier(name: string)
    requires forall k: Kind :: name != KindName(k)
    ensures TokenType(name) == "Identificador"
  {
    assert name != KindName(PLUS) && name != KindName(MINUS) && name != KindName(TIMES);
    assert name != KindName(DIVIDE) && name != KindName(NUMBER);
    assert name != KindName(LPAREN) && name != KindName(RPAREN);
  }
}
