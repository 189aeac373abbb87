/** The lexer's output: the seven token kinds of the grammar and the token
    record PLY hands to the parser (`tok.type`, `tok.value`). */
module Tokens {
  import opened Text

  datatype Kind = NUMBER | PLUS | MINUS | TIMES | DIVIDE | LPAREN | RPAREN

  /** `tok.value`: the integer for NUMBER (the lexer converts it with `int`),
      the matched text for every other kind. */
  datatype TokValue = IntVal(n: nat) | StrVal(s: string)

  datatype Token = Token(kind: Kind, value: TokValue)

  /** `tok.type`: the name the kind is declared under. */
  function KindName(k: Kind): string {
    match k
    case NUMBER => "NUMBER"
    case PLUS => "PLUS"
    case MINUS => "MINUS"
    case TIMES => "TIMES"
    case DIVIDE => "DIVIDE"
    case LPAREN => "LPAREN"
    case RPAREN => "RPAREN"
  }

  /** The one character a single-character rule matches. */
  function SymbolChar(k: Kind): char
    requires k != NUMBER
  {
    match k
    case PLUS => '+'
    case MINUS => '-'
    case TIMES => '*'
    case DIVIDE => '/'
    case LPAREN => '('
    case RPAREN => ')'
  }

  /** The token built for a symbol: its kind and its matched text. */
  function SymbolToken(k: Kind): Token
    requires k != NUMBER
  {
    Token(k, StrVal([SymbolChar(k)]))
  }

  /** What a token produced by the lexer looks like: a NUMBER holds an
      integer, any other kind holds its one matched character. */
  predicate ValidToken(t: Token) {
    if t.kind == NUMBER then t.value.IntVal? else t == SymbolToken(t.kind)
  }

  /** `str(tok.value)`, as the listings print it. */
  function ValueText(v: TokValue): string {
    match v
    case IntVal(n) => NatToString(n)
    case StrVal(s) => s
  }
}
