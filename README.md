# Compilador Matemático: a verified model of its compiler core

`main.py` is a small desktop "IDE" for arithmetic expressions. Its
`compile_code` button handler takes the editor text and produces five things:

- the value of the expression;
- a token listing;
- a three-address intermediate code;
- a symbol table that classifies each token;
- a fully parenthesised "C++" rendering of the expression tree.

This project models that core in Dafny, without the window around it, and
proves what each stage computes.

- **Lexer** (`lexer.dfy`, `main.py:6-36`):
  - `Lex` is a function that mirrors PLY's master-regex scanner on the
    module's token rules;
  - `Tokenize` and `ScanNumber` are the step-by-step scanner, proved equal
    to `Lex`;
  - the seven token kinds have the same names, and a token's value is
    either the integer or the matched character;
  - spaces and tabs are skipped;
  - any other character is reported as illegal and skipped, one at a time,
    as `t_error` does.
- **Parser** (`parser.dfy`, `main.py:42-82`):
  - the grammar of `p_expression`, `p_term` and `p_factor` is stated as
    three ghost predicates, `IsExpr`, `IsTerm` and `IsFactor`, which hold
    when a token slice derives a nonterminal with a given tree;
  - a recursive-descent parser is proved to accept exactly the token
    sequences the grammar derives, and to build the same tree;
  - the grammar is also proved unambiguous, so the tree PLY's LALR parser
    builds is the only one;
  - PLY's tuple `(left, right, op)` becomes the datatype `Expr`
    (`ast.dfy`).
- **Evaluator** (`evaluator.dfy`, `main.py:180-199`) computes on exact
  reals. A zero divisor fails with `DivisionByZero`.
- **Intermediate code** (`intermediate_code.dfy`, `main.py:201-221`):
  - the class `CodeGenerator` holds the `code` list that the nested helper
    appends to;
  - `Visit` is the recursive helper, specified by the function `Steps`.
    `Steps` gives each assignment its temporary number, its operands and
    its operator.
- **Target code** (`target_code.dfy`, `main.py:223-236`): `Render`, with
  its round trip back through the lexer and the parser.
- **Classifier** (`classifier.dfy`, `main.py:238-247`): `get_token_type`.
- **Listings** (`listings.dfy`, `main.py:138-143`): the loop that builds
  the token listing and the symbol table.
- **Pipeline** (`compiler.dfy`, `main.py:128-178`):
  - `Compile` is the pipeline as a function, and `CompileCode` is the same
    steps as a method;
  - a failure is one of `NoInput`, `SyntaxFailure` or `DivisionFailure`.
- **Scenarios** (`scenarios.dfy`) proves the behaviour on concrete inputs:
  - precedence, parentheses and left associativity;
  - division by zero;
  - a missing operand;
  - an illegal character;
  - whitespace-only input.

`text.dfy` holds the text helpers: decimal digits, Python's `str(int)` and
`str.strip()` with Python's whitespace set, and joining lines. `tokens.dfy`
holds the token kinds and values. `results.dfy` and `seqs.dfy` hold generic
helpers.

Points where the code behaves differently from what one might expect. The
model follows the code in each case:

- **Temporary names can repeat.**
  - `generate_code_helper` chooses `t{len(code) + 1}` before it visits
    the node's children (`main.py:210-213`).
  - So a binary node gets the same temporary as the first binary node
    emitted inside it.
  - `FirstBinaryChildSharesTemp` proves this in general.
  - `DuplicateTempExample` shows it on `(1 + 2) * 3`, which produces
    `t1 = 1 + 2` and then `t1 = (1, 2, '+') * 3`.
  - So the temporaries of one call are not all distinct.
- **Operands are printed as Python tuples, not as temporaries.**
  - The appended line interpolates the original children with
    `{left}` / `{right}` (`main.py:215`).
  - A nested operand is therefore printed in Python's tuple form, e.g.
    `(1, 2, '+')`, not as the temporary returned for it.
  - `Repr` models that form.
- **Newlines inside the text are illegal characters.** `t_ignore` is only
  space and tab (`main.py:31`). Only the newlines at the ends are removed,
  by `strip()`.
- **The "Identificador" branch is never taken.** No token kind reaches it
  (`Classifier.TokenTypeOfKind`).

## Model

| member | source | states |
|---|---|---|
| Text.NatToString | main.py:234 | no contract of its own; `str(n)` of a natural: `str(node)` of a leaf here, and equally the `{tok.value}` of a NUMBER token at main.py:142-143 and a leaf inside `{left}`/`{right}` at main.py:215; specified by `Text.NatToStringDigits` |
| Text.DecimalValue | main.py:27 | no contract of its own; `int(t.value)` of a digit run, specified by `Text.NatToStringDigits` and `Lexer.LexNumber` |
| Text.JoinLines | main.py:158 | no contract of its own; `"\n".join(intermediate_code)`, used by `Compiler.CompileCode` and `Compiler.CompileRendered` |
| IntermediateCode.TempName | main.py:210 | no contract of its own; `f"t{len(code) + 1}"` given the number, used by `IntermediateCode.CodeGenerator.Visit` and `IntermediateCode.StepsInPostOrder` |
| Tokens.KindName | main.py:142-143 | no contract of its own; `tok.type`, the kind's declared name, used by `Listings.LinesHaveOneNewline` and `Classifier.TokenTypeOfKind` |
| Tokens.ValueText | main.py:142-143 | no contract of its own; the text of `{tok.value}`, `str` of a NUMBER's integer or the matched character, used by `Listings.ValueTextHasNoNewline` |
| Lexer.IsIgnored | main.py:31 | no contract of its own; the characters of `t_ignore`, space and tab, used by `Lexer.LexIgnored` |
| Text.Strip | main.py:130 | no contract of its own; `str.strip()` as `StripRight(StripLeft(s))`, specified by `Text.StripLeft`, `Text.StripRight`, `Text.StripEmpty` and `Text.StripUnchanged` |
| Lexer.Lex | main.py:6-36 | no contract of its own; the token rules applied from the left, specified by `Lexer.LexSymbol`, `Lexer.LexIgnored`, `Lexer.LexIllegalChar`, `Lexer.LexNumber`, `Lexer.LexConcat`, `Lexer.LexReportsIllegal` and `Lexer.LexValid` |
| Parser.IsExpr | main.py:42-54 | no contract of its own; the `expression` rule with the tree its action builds, tied to the parser by `Parser.ParseIsGrammar` |
| Parser.IsTerm | main.py:56-68 | no contract of its own; the `term` rule with the tree its action builds, tied to the parser by `Parser.TermSound` and `Parser.TermComplete` |
| Parser.IsFactor | main.py:70-78 | no contract of its own; the `factor` rule with the tree its action builds, tied to the parser by `Parser.FactorSound` and `Parser.FactorComplete` |
| Parser.Parse | main.py:42-82 | no contract of its own; the whole token sequence as one expression, else `SyntaxError`, specified by `Parser.ParseIsGrammar` and `Parser.GrammarUnambiguous` |
| Evaluator.Eval | main.py:180-199 | no contract of its own; `evaluate_expression`, specified by `Evaluator.EvalCharacterised`, `Evaluator.DivisionByZeroFails` and `Evaluator.IntegerWithoutDivision` |
| IntermediateCode.Repr | main.py:215 | no contract of its own; Python's `str` of the tuple tree that `{left}` and `{right}` interpolate, used by `IntermediateCode.EmittedIsText` |
| IntermediateCode.Line | main.py:215 | no contract of its own; the text `t<k> = <left> <op> <right>` that is appended, used by `IntermediateCode.EmittedIsText` |
| IntermediateCode.Steps | main.py:205-216 | no contract of its own; the assignments a visit makes, specified by `IntermediateCode.StepsCount`, `IntermediateCode.StepsInPostOrder` and `IntermediateCode.RootIsLast` |
| IntermediateCode.Emitted | main.py:205-215 | no contract of its own; the lines a visit appends, specified by `IntermediateCode.EmittedIsText` and `IntermediateCode.EmittedBin`, and reached by `IntermediateCode.CodeGenerator.Visit` |
| TargetCode.Render | main.py:225-234 | no contract of its own; `generate_cpp_code_helper`, specified by `TargetCode.RenderRoundTrip`, `TargetCode.ParenthesesCount` and `TargetCode.RenderEnds` |
| Classifier.TokenType | main.py:238-247 | no contract of its own; `get_token_type`, specified by `Classifier.TokenTypeOfKind`, `Classifier.OperatorExactly` and `Classifier.UnknownIsIdentifier` |
| Listings.TokenLine | main.py:142 | no contract of its own; the line `type: value`, specified by `Listings.LinesHaveOneNewline` and reached by `Listings.BuildListings` |
| Listings.SymbolLine | main.py:143 | no contract of its own; the line `category<TAB>value`, specified by `Listings.LinesHaveOneNewline` and reached by `Listings.BuildListings` |
| Compiler.Compile | main.py:128-178 | no contract of its own; the pipeline, specified by `Compiler.CompileCode`, `Compiler.NoInputExactly`, `Compiler.CompileRendered` and `Compiler.RecompileTarget` |
| Text.NatToStringDigits | main.py:27 | `str(n)` of a natural is a non-empty string of digits whose decimal value is `n`, and it has a leading zero only when `n` is 0 |
| Text.StripLeft | main.py:130 | the result is a suffix of the text, everything removed is whitespace, and the result does not start with whitespace |
| Text.StripRight | main.py:130 | the result is a prefix of the text, everything removed is whitespace, and the result does not end with whitespace |
| Text.StripEmpty | main.py:130-133 | the stripped text is empty exactly when every character of the input is whitespace |
| Text.StripUnchanged | main.py:130 | a text that neither starts nor ends with whitespace is left as it is by `strip()` |
| Lexer.SymbolKind | main.py:17-22 | a character has a symbol kind exactly when it is the character of one of the six symbol rules, and it is that rule's character |
| Lexer.DigitRun | main.py:25-26 | the length of the maximal leading run of digits that `\d+` matches |
| Lexer.DigitRunIs | main.py:26 | any prefix of digits followed by a non-digit or the end of the text is the digit run |
| Lexer.DigitRunConcat | main.py:26 | appending text that cannot extend a digit run leaves the run unchanged |
| Lexer.Tokenize | main.py:6-36 | the step-by-step scanner returns exactly the tokens and illegal characters of `Lex` |
| Lexer.ScanNumber | main.py:25-28 | scanning a number from a digit consumes at least one character and yields one NUMBER token with the value of the run, followed by the lexing of the rest |
| Lexer.LexSymbol | main.py:17-22 | a symbol character produces its one token, and lexing continues after it |
| Lexer.LexIgnored | main.py:31 | a space or tab produces nothing |
| Lexer.LexIllegalChar | main.py:34-36 | any other character is reported and skipped, one character at a time |
| Lexer.LexNumber | main.py:25-28 | a maximal run of digits becomes one NUMBER token whose value is the run's decimal value |
| Lexer.LexConcat | main.py:6-36 | lexing two texts whose junction does not split a digit run gives the concatenation of the two lexings |
| Lexer.LexConcatNumber | main.py:25-28 | the same split law for a text that starts with a digit |
| Lexer.LexConcatChar | main.py:17-36 | the same split law for a text that starts with a non-digit |
| Lexer.LexReportsIllegal | main.py:34-36 | the reported characters are exactly the text's illegal characters, in order |
| Lexer.IllegalCharsSkipDigits | main.py:34-36 | a run of digits contributes no illegal character |
| Lexer.LexValid | main.py:25-28 | every token has the value its kind calls for: an integer for NUMBER, its own character for a symbol |
| Parser.OpKind | main.py:44-59 | the token kind of an operator is classified back to that operator by the right grammar level: `+ -` by `expression`, `* /` by `term` |
| Parser.ParseExpr | main.py:42-54 | a successful parse of an expression consumes at least one token and stays inside the input |
| Parser.ExprTail | main.py:44-45 | the left-recursive `expression PLUS/MINUS term` loop never moves backwards or past the input |
| Parser.ParseTerm | main.py:56-68 | a successful parse of a term consumes at least one token and stays inside the input |
| Parser.TermTail | main.py:58-59 | the left-recursive `term TIMES/DIVIDE factor` loop never moves backwards or past the input |
| Parser.ParseFactor | main.py:70-78 | a successful parse of a factor consumes at least one token and stays inside the input |
| Parser.ExprSound | main.py:42-54 | what the expression parser returns is derived by the `expression` rule from the tokens it consumed |
| Parser.ExprTailSound | main.py:44-54 | extending a derived expression by the additive loop keeps it derived by `expression` |
| Parser.TermSound | main.py:56-68 | what the term parser returns is derived by the `term` rule |
| Parser.TermTailSound | main.py:58-68 | extending a derived term by the multiplicative loop keeps it derived by `term` |
| Parser.FactorSound | main.py:70-78 | what the factor parser returns is derived by the `factor` rule: a number or a parenthesised expression |
| Parser.ExprJoin | main.py:44-54 | `expression op term` with `op` additive derives `(left, right, op)` |
| Parser.TermJoin | main.py:58-68 | `term op factor` with `op` multiplicative derives `(left, right, op)` |
| Parser.ExprSplit | main.py:44-54 | an expression that is not a term splits at an additive operator token into an expression and a term |
| Parser.TermSplit | main.py:58-68 | a term that is not a factor splits at a multiplicative operator token into a term and a factor |
| Parser.ExprTailStep | main.py:44-45 | one step of the additive loop folds the next term into a left-nested `Bin` |
| Parser.TermTailStep | main.py:58-59 | one step of the multiplicative loop folds the next factor into a left-nested `Bin` |
| Parser.ExprComplete | main.py:42-54 | for every derivation of an expression, the parser reaches the end of it with that tree |
| Parser.TermComplete | main.py:56-68 | for every derivation of a term, the parser reaches the end of it with that tree |
| Parser.FactorComplete | main.py:70-78 | for every derivation of a factor, the parser returns that tree and stops at its end |
| Parser.ParseIsGrammar | main.py:42-82 | parsing succeeds with tree `e` if and only if the grammar derives the whole token sequence with tree `e`; anything else is a syntax error |
| Parser.GrammarUnambiguous | main.py:42-78 | a token sequence derives at most one tree, so the grammar's tree is unique |
| Parser.ParenPassThrough | main.py:73-78 | wrapping a parsable token sequence in parentheses gives the same tree: `p[0] = p[2]` |
| Parser.ExprBin | main.py:44-54 | an expression, an additive operator and a term derive the triple of the two trees and the operator |
| Parser.TermBin | main.py:58-68 | a term, a multiplicative operator and a factor derive the triple of the two trees and the operator |
| Parser.ThreeOperands | main.py:42-78 | for `a op1 b op2 c`, `*` and `/` bind tighter than `+` and `-`, and otherwise the tree nests to the left |
| Evaluator.Apply | main.py:187-197 | applying an operator fails exactly for `/` with a zero divisor, and otherwise gives the exact sum, difference, product or quotient |
| Evaluator.EvalCharacterised | main.py:180-199 | evaluation fails with `DivisionByZero` exactly when some divisor evaluates to zero; otherwise it yields the tree's arithmetic value |
| Evaluator.DivisionByZeroFails | main.py:193-197 | dividing by a subexpression whose value is zero raises the division error whatever the dividend |
| Evaluator.IntegerWithoutDivision | main.py:187-192 | a tree without division evaluates to the integer the tree computes |
| Ast.PostOrder | main.py:205-215 | the binary nodes of a tree, listed in the order the helper appends them: one per binary node |
| IntermediateCode.StepsCount | main.py:205-218 | one assignment per binary node, and none for a leaf |
| IntermediateCode.StepsInPostOrder | main.py:205-216 | the i-th assignment belongs to the i-th binary node in post-order, with that node's own children and operator, and its temporary is one more than the number of lines already in the list when the node was visited |
| IntermediateCode.EmittedIsText | main.py:215 | each emitted line is the text `t<k> = <left> <op> <right>` of its assignment |
| IntermediateCode.RootIsLast | main.py:210-215 | the root's assignment comes last and uses the first temporary of the call |
| IntermediateCode.FirstBinaryChildSharesTemp | main.py:210-215 | a binary node with a binary child gets the same temporary as the first binary child visited |
| IntermediateCode.DuplicateTempExample | main.py:203-221 | `(1 + 2) * 3` emits `t1 = 1 + 2` and then `t1 = (1, 2, '+') * 3` |
| IntermediateCode.EmittedBin | main.py:212-215 | a binary node emits its left subtree's lines, then its right subtree's lines, then its own line |
| IntermediateCode.CodeGenerator.constructor | main.py:203 | the code list starts empty |
| IntermediateCode.CodeGenerator.Visit | main.py:205-218 | visiting a node appends exactly that node's lines to the list, and returns the leaf's value, as text, for a leaf, or the temporary chosen on entry for a binary node |
| IntermediateCode.GenerateIntermediateCode | main.py:201-221 | the returned list is exactly the lines the tree emits from an empty list |
| TargetCode.DigitsHaveNoParentheses | main.py:234 | a number's text holds no parentheses |
| TargetCode.BinParentheses | main.py:232 | the text of a binary node adds exactly one opening and one closing parenthesis to its operands' texts |
| TargetCode.ParenthesesCount | main.py:223-236 | the rendering holds exactly one pair of parentheses per binary node |
| TargetCode.RenderEnds | main.py:223-236 | the rendering is non-empty, and starts and ends with a digit or a parenthesis |
| TargetCode.LexOpChar | main.py:17-20 | the operator character of the tuple lexes as that operator's token |
| TargetCode.LexJoin | main.py:6-36 | two texts that lex without illegal characters, joined not inside a number, lex to the joined tokens |
| TargetCode.LexPieces | main.py:17-31 | the punctuation of a rendering lexes to its tokens, and a space to nothing |
| TargetCode.LexOpening | main.py:232 | the opening part `(left op ` of a binary rendering lexes to its tokens |
| TargetCode.LexBin | main.py:232 | the text `(left op right)` lexes to a left parenthesis, the operands' tokens around the operator's token, and a right parenthesis |
| TargetCode.LexRender | main.py:223-236 | the rendering lexes with no illegal characters to the tokens of the fully parenthesised tree |
| TargetCode.RenderIsFactor | main.py:70-78 | the rendered tokens derive the same tree as a `factor` |
| TargetCode.RenderRoundTrip | main.py:223-236 | lexing and parsing the rendering gives back the tree it was rendered from |
| Classifier.TokenTypeOfKind | main.py:238-247 | every kind the lexer produces is classed as its category: operator, digit or special symbol, never "Identificador" |
| Classifier.OperatorExactly | main.py:240-241 | a name is classed "Operador" if and only if it names PLUS, MINUS, TIMES or DIVIDE |
| Classifier.UnknownIsIdentifier | main.py:246-247 | a name that is none of the seven kinds is classed "Identificador" |
| Listings.BuildListings | main.py:138-143 | the loop builds the header plus one `type: value` line per token, and the header plus one `category<TAB>value` line per token |
| Listings.TokenLinesAppend | main.py:141-143 | the listing of two token sequences one after the other is the two listings one after the other |
| Listings.ValueTextHasNoNewline | main.py:142 | a token's printed value contains no line break |
| Listings.NamesHaveNoNewline | main.py:142-143 | type names and categories contain no line break |
| Listings.LinesHaveOneNewline | main.py:142-143 | each listing line of a valid token ends in its only line break |
| Listings.OneLinePerToken | main.py:141-143 | each listing has exactly as many line breaks after the header as there are tokens |
| Compiler.CompileCode | main.py:128-178 | the handler's steps produce the outputs of `Compile`: nothing but `NoInput` for blank text, the listings from the lexer before parsing, and every output dropped when parsing or evaluation fails |
| Compiler.NoInputExactly | main.py:130-135 | "No input provided" happens if and only if the text is empty or only whitespace |
| Compiler.RenderStripped | main.py:130 | the target code needs no stripping and is never empty |
| Compiler.CompileRendered | main.py:146-170 | compiling a tree's target code gives the tree's value or its division failure, the fully parenthesised listings, the tree's intermediate code and the same target code |
| Compiler.RecompileTarget | main.py:146-170 | compiling the target code of a successful compilation succeeds again with the same value and the same target code |
| Scenarios.LexSpaced3 | main.py:17-31 | a digit, a spaced symbol and a digit lex to three tokens with no illegal character |
| Scenarios.LexSpaced5 | main.py:17-31 | five digits and symbols separated by spaces lex to five tokens with no illegal character |
| Scenarios.LexSpacedSymbol | main.py:17-31 | a symbol between two spaces lexes to its one token |
| Scenarios.LexDigit | main.py:25-28 | a single digit before a non-digit is one NUMBER token |
| Scenarios.LexLastDigit | main.py:25-28 | a text made of one digit is one NUMBER token |
| Scenarios.LexPrecedence | main.py:6-36 | `2 + 3 * 4` lexes to five tokens and nothing illegal |
| Scenarios.LexParenthesised | main.py:6-36 | `(5)` lexes to `LPAREN NUMBER RPAREN` |
| Scenarios.LexAssociativity | main.py:6-36 | `10 - 2 - 3` lexes to five tokens, with `10` as one NUMBER token |
| Scenarios.LexDivision | main.py:6-36 | `5 / 0` lexes to three tokens |
| Scenarios.LexMissingOperand | main.py:6-36 | `2 +` lexes to two tokens |
| Scenarios.LexIllegal | main.py:34-36 | in `2 $ + 3` the `$` is reported and skipped, and the other tokens remain |
| Scenarios.NumberFactor | main.py:72-76 | a single NUMBER token is a factor, a term and an expression holding that number |
| Scenarios.ParseBinary | main.py:42-78 | `a op b` parses to the triple `(a, b, op)` |
| Scenarios.ParseThree | main.py:42-78 | three numbers with two operators parse with `*` and `/` before `+` and `-`, and left-nested otherwise |
| Scenarios.ParseParenthesised | main.py:73-78 | `( a )` parses to the number `a` |
| Scenarios.PrecedenceScenario | main.py:42-78 | `2 + 3 * 4` parses to `(2, (3, 4, '*'), '+')` |
| Scenarios.PrecedenceValue | main.py:180-199 | that tree evaluates to 14 |
| Scenarios.ParenthesesScenario | main.py:70-78 | `(5)` parses to the number 5 |
| Scenarios.TargetCodeText | main.py:223-236 | the tree `((2, 3, '+'), 4, '*')` renders as `((2 + 3) * 4)` |
| Scenarios.TargetCodeScenario | main.py:42-78 | `((2 + 3) * 4)` parses back to `((2, 3, '+'), 4, '*')` |
| Scenarios.TargetCodeValue | main.py:180-199 | that tree evaluates to 20 |
| Scenarios.AssociativityScenario | main.py:42-54 | `10 - 2 - 3` parses to `((10, 2, '-'), 3, '-')` |
| Scenarios.AssociativityValue | main.py:180-199 | that tree evaluates to 5 |
| Scenarios.DivisionByZeroScenario | main.py:193-197 | `5 / 0` parses to a division whose evaluation fails with the division error |
| Scenarios.SyntaxScenario | main.py:42-82 | `2 +` is a syntax error |
| Scenarios.IllegalCharacterScenario | main.py:34-36 | `2 $ + 3` reports `$` and still parses to `(2, 3, '+')` |
| Scenarios.NoInputScenario | main.py:130-135 | a text of a space, a tab and a newline gives `NoInput` |

## Left out

- The tkinter window (`main.py:87-126`, `main.py:249-252`) is not modelled. This covers the widgets, the "Compilar" button, the result label and the clearing and filling of the text panels. `Compile` returns the panel contents as strings instead.
- The editor text read at `main.py:130` is a parameter of `Compile`. The trailing newline that Tk adds is removed by `strip()` like any other whitespace.
- PLY's machinery is not modelled: building the master regex, the LALR tables (`main.py:39`, `main.py:85`), token positions and line numbers. The lexer and the parser are specified by what they accept and produce.
- What PLY does after `p_error` is not modelled: its error recovery, any partial result, and the `AttributeError` that `p.value` raises at end of input. Every input the grammar does not derive is one `SyntaxFailure`.
- Parser.ParseIsGrammar: the code as written may, after a reported syntax error, still show the recovered result (for example `None`). The model reports failure rather than that result.
- The console messages of `t_error` and `p_error` (`main.py:35`, `main.py:82`) are not modelled. The illegal characters are available as `Lex(s).illegal`, but they are not part of `Output`.
- The message text of the exception shown as `Error: ...` (`main.py:172`) is not modelled. The model keeps only which kind of failure happened.
- Compiler.Compile: two failures of the Python runtime are not modelled, and `Compile` succeeds in both cases.
  - `evaluate_expression` (`main.py:184-185`) and the tuple `str` behind `{left}`/`{right}` (`main.py:215`) recurse on the tree. A tree about 1000 levels deep, such as the left-nested tree of `1+1+...+1` with about 1000 `+`, raises `RecursionError`. The `except` at `main.py:171-178` then shows an error and clears every panel.
  - On CPython 3.11 and later, `int(t.value)` (`main.py:27`) raises `ValueError` for a run of more than 4300 digits. That happens in the listing loop (`main.py:141`), outside the `try`, so the handler stops there. The model lexes such a run like any other.
- Compiler.CompileCode (`main.py:146-170`): Python's numbers are not modelled. The value is an exact real, where the code mixes `int` and `float`, and `/` always gives a `float`. The text `str(result_value)` shown as the result is not modelled either. Because floating point is not modelled, the inputs that fail differ as well, not only the type of the value. For example, `1 / (1 / 49 * 49 - 1)` divides by a tiny nonzero float in Python but by exactly zero here. A 400-digit number `/ 1` raises `OverflowError` in Python. `1 / (1 / 1000…0)`, with 400 zeros, divides by `0.0` in Python and fails. In the last two cases the model returns a value.
- Text.IsDigit: `\d` is modelled as the ASCII digits `0`-`9`. Python's `\d` also matches other Unicode decimal digits.
- The lexer is run a second time inside `parser.parse(code)`. It is modelled once, because both runs see the same text and give the same tokens.
- The concrete scenarios are proved at the level of `Lex`, `Parse` and `Eval` rather than through `Compile` on literal texts. The step from those to `Compile` is `Compiler.CompileRendered` and the definition of `Compile`.
