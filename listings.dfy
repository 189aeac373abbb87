/** The two listings `compile_code` builds while iterating over the
    lexer's tokens: the token listing (`type: value` per line) and the
    symbol table (`category<TAB>value` per line). */
module Listings {
  import opened Text
  import opened Tokens
  import opened Classifier
  import opened Seqs

  const TokensHeader: string := "Tokens: \n"
  const SymbolsHeader: string := "Tabla de S\U{00ED}mbolos:\nTipo\tToken\n"

  /** `f"{tok.type}: {tok.value}\n"`. */
  function TokenLine(t: Token): string {
    KindName(t.kind) + ": " + ValueText(t.value) + "\n"
  }

  /** `f"{get_token_type(tok.type)}\t{tok.value}\n"`. */
  function SymbolLine(t: Token): string {
    TokenType(KindName(t.kind)) + "\t" + ValueText(t.value) + "\n"
  }

  /** One line per token, in order. */
  function TokenLines(ts: seq<Token>): string {
    ConcatMap(TokenLine, ts)
  }

  function SymbolLines(ts: seq<Token>): string {
    ConcatMap(SymbolLine, ts)
  }

  /** The loop: both listings start from their headers and grow by one
      line per token. */
  method BuildListings(ts: seq<Token>) returns (tokensOutput: string, symbolsOutput: string)
    ensures tokensOutput == TokensHeader + TokenLines(ts)
    ensures symbolsOutput == SymbolsHeader + SymbolLines(ts)
  {
    tokensOutput := TokensHeader;
    symbolsOutput := SymbolsHeader;
    for i := 0 to |ts|
      invariant tokensOutput == TokensHeader + TokenLines(ts[..i])
      invariant symbolsOutput == SymbolsHeader + SymbolLines(ts[..i])
    {
      var tok := ts[i];
      ConcatMapSnoc(TokenLine, ts, i);
      ConcatMapSnoc(SymbolLine, ts, i);
      Extend(TokensHeader, TokenLines(ts[..i]), TokenLine(tok));
      Extend(SymbolsHeader, SymbolLines(ts[..i]), SymbolLine(tok));
      tokensOutput := tokensOutput + TokenLine(tok);
      symbolsOutput := symbolsOutput + SymbolLine(tok);
    }
    assert ts[..|ts|] == ts;
  }

  lemma Extend(header: string, lines: string, line: string)
    ensures header + lines + line == header + (lines + line)
  {
  }

  /** The listing of a concatenation is the concatenation of the listings. */
  lemma TokenLinesAppend(a: seq<Token>, b: seq<Token>)
    ensures TokenLines(a + b) == TokenLines(a) + TokenLines(b)
    ensures SymbolLines(a + b) == SymbolLines(a) + SymbolLines(b)
  {
    ConcatMapAppend(TokenLine, a, b);
    ConcatMapAppend(SymbolLine, a, b);
  }

  /** The value text of a lexer token holds no line break. */
  lemma ValueTextHasNoNewline(t: Token)
    requires ValidToken(t)
    ensures multiset(ValueText(t.value))['\n'] == 0
  {
    if t.kind == NUMBER {
      NatToStringDigits(t.value.n);
    }
  }

  /** No type name or category holds a line break. */
  lemma NamesHaveNoNewline(k: Kind)
    ensures '\n' !in KindName(k) && '\n' !in Category(k)
  {
    match k
    case NUMBER => assert KindName(k) == "NUMBER" && Category(k) == "Digito";
    case PLUS => assert KindName(k) == "PLUS" && Category(k) == "Operador";
    case MINUS => assert KindName(k) == "MINUS" && Category(k) == "Operador";
    case TIMES => assert KindName(k) == "TIMES" && Category(k) == "Operador";
    case DIVIDE => assert KindName(k) == "DIVIDE" && Category(k) == "Operador";
    case LPAREN => assert KindName(k) == "LPAREN" && Category(k) == "Simbolo Especial";
    case RPAREN => assert KindName(k) == "RPAREN" && Category(k) == "Simbolo Especial";
  }

  lemma NotInCount<T>(s: seq<T>, x: T)
    requires x !in s
    ensures multiset(s)[x] == 0
  {
  }

  /** Three newline-free parts and a line break make one line. */
  lemma OneNewline(a: string, sep: string, v: string)
    requires multiset(a)['\n'] == 0 && multiset(sep)['\n'] == 0 && multiset(v)['\n'] == 0
    ensures multiset(a + sep + v + "\n")['\n'] == 1
  {
    assert multiset(a + sep + v + "\n") == multiset(a) + multiset(sep) + multiset(v) + multiset("\n");
  }

  /** Each line of either listing ends in the one line break it holds. */
  lemma LinesHaveOneNewline(t: Token)
    requires ValidToken(t)
    ensures multiset(TokenLine(t))['\n'] == 1
    ensures multiset(SymbolLine(t))['\n'] == 1
  {
    ValueTextHasNoNewline(t);
    NamesHaveNoNewline(t.kind);
    TokenTypeOfKind(t.kind);
    NotInCount(KindName(t.kind), '\n');
    NotInCount(Category(t.kind), '\n');
    assert multiset(": ")['\n'] == 0 && multiset("\t")['\n'] == 0;
    OneNewline(KindName(t.kind), ": ", ValueText(t.value));
    OneNewline(TokenType(KindName(t.kind)), "\t", ValueText(t.value));
  }

  /** For the lexer's tokens each listing has exactly one line per token
      after its header. */
  lemma {:induction false} OneLinePerToken(ts: seq<Token>)
    requires forall i :: 0 <= i < |ts| ==> ValidToken(ts[i])
    ensures multiset(TokenLines(ts))['\n'] == |ts|
    ensures multiset(SymbolLines(ts))['\n'] == |ts|
    decreases |ts|
  {
    if ts != [] {
      var n := |ts| - 1;
      OneLinePerToken(ts[..n]);
      LinesHaveOneNewline(ts[n]);
      assert TokenLines(ts) == TokenLines(ts[..n]) + TokenLine(ts[n]);
      assert SymbolLines(ts) == SymbolLines(ts[..n]) + SymbolLine(ts[n]);
    }
  }
}
