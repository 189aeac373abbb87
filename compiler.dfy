/** `compile_code` without its widgets: strip the text, refuse it when
    empty, lex it into the two listings, parse, evaluate, and produce the
    three-address code and the target code. Any failure after the empty
    check replaces every output by an error. */
module Compiler {
  import opened Results
  import opened Text
  import opened Tokens
  import opened Ast
  import opened Lexer
  import opened Parser
  import opened Evaluator
  import IntermediateCode
  import opened TargetCode
  import opened Listings

  /** What the result label shows instead of a value. */
  datatype Failure = NoInput | SyntaxFailure | DivisionFailure

  /** The five outputs of a successful compilation. */
  datatype Output = Output(
    value: real,
    tokensText: string,
    intermediateText: string,
    symbolsText: string,
    cppText: string)

  const IntermediateHeader: string := "C\U{00F3}digo Intermedio:\n"
  const CppHeader: string := "C++ Code:\n"

  /** The whole pipeline on the text of the editor. */
  function Compile(text: string): Result<Output, Failure> {
    var code := Strip(text);
    if code == [] then Err(NoInput)
    else
      var tokens := Lex(code).tokens;
      match Parse(tokens)
      case Err(_) => Err(SyntaxFailure)
      case Ok(tree) =>
        match Eval(tree)
        case Err(_) => Err(DivisionFailure)
        case Ok(v) =>
          Ok(Output(v,
                    TokensHeader + TokenLines(tokens),
                    IntermediateHeader + JoinLines(IntermediateCode.Emitted(tree, 0)),
                    SymbolsHeader + SymbolLines(tokens),
                    CppHeader + Render(tree)))
  }

  /** `compile_code`, step by step as the source runs it: the listings are
      built from the lexer's tokens before parsing, and thrown away when
      parsing or evaluation fails. */
  method CompileCode(text: string) returns (r: Result<Output, Failure>)
    ensures r == Compile(text)
  {
    var code := Strip(text);
    if code == [] {
      return Err(NoInput);
    }
    var tokens, _ := Tokenize(code);
    var tokensOutput, symbolsOutput := BuildListings(tokens);
    var tree := Parse(tokens);
    if tree.Err? {
      return Err(SyntaxFailure);
    }
    var value := Eval(tree.value);
    if value.Err? {
      return Err(DivisionFailure);
    }
    var intermediate := IntermediateCode.GenerateIntermediateCode(tree.value);
    r := Ok(Output(value.value,
                   tokensOutput,
                   IntermediateHeader + JoinLines(intermediate),
                   symbolsOutput,
                   CppHeader + Render(tree.value)));
  }

  /** "No input provided" exactly when the text is empty or only
      whitespace. */
  lemma NoInputExactly(text: string)
    ensures Compile(text) == Err(NoInput) <==> forall k :: 0 <= k < |text| ==> IsSpace(text[k])
  {
    StripEmpty(text);
  }

  /** Rendered target code needs no stripping: it starts and ends with a
      digit or a parenthesis. */
  lemma RenderStripped(e: Expr)
    ensures Strip(Render(e)) == Render(e) != []
  {
    RenderEnds(e);
    StripUnchanged(Render(e));
  }

  /** Compiling the target code of a tree reproduces the tree's value, or
      its division failure, and the same target code. */
  lemma CompileRendered(e: Expr)
    ensures Compile(Render(e))
         == match Eval(e)
            case Err(_) => Err(DivisionFailure)
            case Ok(v) =>
              var tokens := RenderTokens(e);
              Ok(Output(v,
                        TokensHeader + TokenLines(tokens),
                        IntermediateHeader + JoinLines(IntermediateCode.Emitted(e, 0)),
                        SymbolsHeader + SymbolLines(tokens),
                        CppHeader + Render(e)))
  {
    RenderStripped(e);
    RenderRoundTrip(e);
    LexRender(e);
  }

  /** Feeding the target code of a successful compilation back in gives the
      same value and the same target code. */
  lemma RecompileTarget(text: string)
    requires Compile(text).Ok?
    ensures var out := Compile(text).value;
            && |CppHeader| <= |out.cppText|
            && var again := Compile(out.cppText[|CppHeader|..]);
               && again.Ok?
               && again.value.value == out.value
               && again.value.cppText == out.cppText
  {
    var tree := Parse(Lex(Strip(text)).tokens).value;
    var out := Compile(text).value;
    assert out.cppText[|CppHeader|..] == Render(tree);
    CompileRendered(tree);
  }
}
