/** The lexer rules of `main.py`: one-character rules for the six symbols,
    a maximal run of decimal digits for NUMBER (its value converted with
    `int`), spaces and tabs ignored, and any other character reported and
    skipped one position, after which lexing carries on. */
module Lexer {
  import opened Text
  import opened Results
  import opened Tokens
  import opened Seqs

  /** `t_ignore`: the characters skipped between tokens. */
  predicate IsIgnored(c: char) {
    c == ' ' || c == '\t'
  }

  /** The single-character rules `t_PLUS` … `t_RPAREN`. */
  function SymbolKind(c: char): (k: Option<Kind>)
    ensures k.Some? ==> k.value != NUMBER && SymbolChar(k.value) == c
    ensures (exists kd: Kind :: kd != NUMBER && SymbolChar(kd) == c) ==> k.Some?
  {
    if c == '+' then Some(PLUS)
    else if c == '-' then Some(MINUS)
    else if c == '*' then Some(TIMES)
    else if c == '/' then Some(DIVIDE)
    else if c == '(' then Some(LPAREN)
    else if c == ')' then Some(RPAREN)
    else None
  }

  /** A character no rule matches: `t_error` reports it. */
  predicate IsIllegal(c: char) {
    !IsIgnored(c) && !IsDigit(c) && SymbolKind(c).None?
  }

  /** Length of the run of digits the input starts with. */
  function DigitRun(s: string): (n: nat)
    ensures n <= |s| && AllDigits(s[..n])
    ensures n < |s| ==> !IsDigit(s[n])
    ensures s != [] && IsDigit(s[0]) ==> n >= 1
    decreases |s|
  {
    if s != [] && IsDigit(s[0]) then
      var n := 1 + DigitRun(s[1..]);
      assert forall i :: 1 <= i < n ==> s[..n][i] == s[1..][..n - 1][i - 1];
      n
    else 0
  }

  /** What lexing a text yields: its tokens in order, and the characters
      `t_error` reported, in order. */
  datatype Lexed = Lexed(tokens: seq<Token>, illegal: seq<char>)

  /** The token stream of a text, rule by rule from the left. */
  function Lex(s: string): Lexed
    decreases |s|
  {
    if s == [] then Lexed([], [])
    else if IsIgnored(s[0]) then Lex(s[1..])
    else if IsDigit(s[0]) then
      var n := DigitRun(s);
      var rest := Lex(s[n..]);
      Lexed([Token(NUMBER, IntVal(DecimalValue(s[..n])))] + rest.tokens, rest.illegal)
    else if SymbolKind(s[0]).Some? then
      var rest := Lex(s[1..]);
      Lexed([SymbolToken(SymbolKind(s[0]).value)] + rest.tokens, rest.illegal)
    else
      var rest := Lex(s[1..]);
      Lexed(rest.tokens, [s[0]] + rest.illegal)
  }

  /** The characters of a text that no rule matches, in order. */
  function IllegalChars(s: string): seq<char>
    decreases |s|
  {
    if s == [] then []
    else if IsIllegal(s[0]) then [s[0]] + IllegalChars(s[1..])
    else IllegalChars(s[1..])
  }

  /** The scanner as `lexer.input(code)` followed by iteration runs it: a
      position moves left to right over the text. */
  method Tokenize(s: string) returns (tokens: seq<Token>, illegal: seq<char>)
    ensures Lexed(tokens, illegal) == Lex(s)
  {
    tokens, illegal := [], [];
    var i := 0;
    while i < |s|
      invariant 0 <= i <= |s|
      invariant Lex(s) == Lexed(tokens + Lex(s[i..]).tokens, illegal + Lex(s[i..]).illegal)
    {
      var c := s[i];
      assert [c] + s[i + 1..] == s[i..];
      if IsIgnored(c) {
        LexIgnored(c, s[i + 1..]);
        i := i + 1;
      } else if IsDigit(c) {
        var j, value := ScanNumber(s, i);
        var rest := Lex(s[j..]);
        MovePrefix(tokens, Token(NUMBER, IntVal(value)), rest.tokens);
        tokens := tokens + [Token(NUMBER, IntVal(value))];
        i := j;
      } else if SymbolKind(c).Some? {
        LexSymbol(c, s[i + 1..]);
        var rest := Lex(s[i + 1..]);
        MovePrefix(tokens, SymbolToken(SymbolKind(c).value), rest.tokens);
        tokens := tokens + [SymbolToken(SymbolKind(c).value)];
        i := i + 1;
      } else {
        LexIllegalChar(c, s[i + 1..]);
        var rest := Lex(s[i + 1..]);
        MovePrefix(illegal, c, rest.illegal);
        illegal := illegal + [c];
        i := i + 1;
      }
    }
  }

  /** `t_NUMBER`: reads the maximal digit run starting at `i` and converts
      it, digit by digit, to its value. */
  method ScanNumber(s: string, i: nat) returns (j: nat, value: nat)
    requires i < |s| && IsDigit(s[i])
    ensures i < j <= |s|
    ensures Lex(s[i..]) == Lexed([Token(NUMBER, IntVal(value))] + Lex(s[j..]).tokens, Lex(s[j..]).illegal)
  {
    j, value := i, 0;
    while j < |s| && IsDigit(s[j])
      invariant i <= j <= |s|
      invariant AllDigits(s[i..j])
      invariant value == DecimalValue(s[i..j])
    {
      assert s[i..j + 1] == s[i..j] + [s[j]];
      assert s[i..j + 1][..j - i] == s[i..j];
      AllDigitsSnoc(s[i..j], s[j]);
      value := value * 10 + DigitValue(s[j]);
      j := j + 1;
    }
    assert s[i..j] + s[j..] == s[i..];
    LexNumber(s[i..j], s[j..]);
  }

  /** The digit run is exactly the digits up to the first non-digit. */
  lemma {:induction false} DigitRunIs(s: string, n: nat)
    requires n <= |s| && AllDigits(s[..n])
    requires n < |s| ==> !IsDigit(s[n])
    ensures DigitRun(s) == n
    decreases n
  {
    if n > 0 {
      assert s[0] == s[..n][0];
      assert s[1..][..n - 1] == s[1..n];
      assert forall i :: 0 <= i < n - 1 ==> s[1..n][i] == s[..n][i + 1];
      DigitRunIs(s[1..], n - 1);
    }
  }

  /** A character matched by a single-character rule gives exactly one
      token of its kind, holding that character. */
  lemma LexSymbol(c: char, rest: string)
    requires SymbolKind(c).Some?
    ensures Lex([c] + rest)
         == Lexed([SymbolToken(SymbolKind(c).value)] + Lex(rest).tokens, Lex(rest).illegal)
  {
    assert ([c] + rest)[1..] == rest;
  }

  /** Spaces and tabs give no token and no report. */
  lemma LexIgnored(c: char, rest: string)
    requires IsIgnored(c)
    ensures Lex([c] + rest) == Lex(rest)
  {
    assert ([c] + rest)[1..] == rest;
  }

  /** Error recovery: an illegal character gives no token, is reported, and
      lexing resumes one position further on, so the tokens after it are
      still produced. */
  lemma LexIllegalChar(c: char, rest: string)
    requires IsIllegal(c)
    ensures Lex([c] + rest) == Lexed(Lex(rest).tokens, [c] + Lex(rest).illegal)
  {
    assert ([c] + rest)[1..] == rest;
  }

  /** Maximal munch: a digit run not followed by a digit gives one NUMBER
      token covering all of it, whose value is the run's decimal value. */
  lemma LexNumber(d: string, rest: string)
    requires d != [] && AllDigits(d)
    requires rest != [] ==> !IsDigit(rest[0])
    ensures Lex(d + rest)
         == Lexed([Token(NUMBER, IntVal(DecimalValue(d)))] + Lex(rest).tokens, Lex(rest).illegal)
  {
    var s := d + rest;
    assert s[..|d|] == d && s[|d|..] == rest;
    DigitRunIs(s, |d|);
  }

  /** Lexing a text as two pieces gives the tokens of the first piece
      followed by the tokens of the second, provided the cut does not split
      a run of digits. */
  lemma {:induction false} LexConcat(a: string, b: string)
    requires a != [] && b != [] ==> !(IsDigit(a[|a| - 1]) && IsDigit(b[0]))
    ensures Lex(a + b)
         == Lexed(Lex(a).tokens + Lex(b).tokens, Lex(a).illegal + Lex(b).illegal)
    decreases |a|, 1
  {
    if a == [] {
      assert a + b == b;
    } else if IsDigit(a[0]) {
      LexConcatNumber(a, b);
    } else {
      LexConcatChar(a, b);
    }
  }

  lemma {:induction false} LexConcatNumber(a: string, b: string)
    requires a != [] && IsDigit(a[0])
    requires b != [] ==> !(IsDigit(a[|a| - 1]) && IsDigit(b[0]))
    ensures Lex(a + b)
         == Lexed(Lex(a).tokens + Lex(b).tokens, Lex(a).illegal + Lex(b).illegal)
    decreases |a|, 0
  {
    var n := DigitRun(a);
    var d, rest := a[..n], a[n..];
    var tok := Token(NUMBER, IntVal(DecimalValue(d)));
    assert a == d + rest;
    assert a + b == d + (rest + b);
    LexNumber(d, rest);
    assert rest + b != [] ==> !IsDigit((rest + b)[0]);
    LexNumber(d, rest + b);
    LexConcat(rest, b);
    var l, r, lr := Lex(rest), Lex(b), Lex(rest + b);
    assert Lex(a) == Lexed([tok] + l.tokens, l.illegal);
    assert Lex(a + b) == Lexed([tok] + lr.tokens, lr.illegal);
    assert lr == Lexed(l.tokens + r.tokens, l.illegal + r.illegal);
    ConsAssoc(tok, l.tokens, r.tokens);
  }

  lemma {:induction false} LexConcatChar(a: string, b: string)
    requires a != [] && !IsDigit(a[0])
    requires b != [] ==> !(IsDigit(a[|a| - 1]) && IsDigit(b[0]))
    ensures Lex(a + b)
         == Lexed(Lex(a).tokens + Lex(b).tokens, Lex(a).illegal + Lex(b).illegal)
    decreases |a|, 0
  {
    var c, a' := a[0], a[1..];
    assert a == [c] + a';
    assert a + b == [c] + (a' + b);
    LexConcat(a', b);
    var l, r := Lex(a'), Lex(b);
    assert Lex(a' + b) == Lexed(l.tokens + r.tokens, l.illegal + r.illegal);
    if IsIgnored(c) {
      LexIgnored(c, a');
      LexIgnored(c, a' + b);
    } else if SymbolKind(c).Some? {
      var tok := SymbolToken(SymbolKind(c).value);
      LexSymbol(c, a');
      LexSymbol(c, a' + b);
      ConsAssoc(tok, l.tokens, r.tokens);
    } else {
      LexIllegalChar(c, a');
      LexIllegalChar(c, a' + b);
      ConsAssoc(c, l.illegal, r.illegal);
    }
  }

  /** The digit run of `a + b` is that of `a` unless all of `a` is digits
      and `b` starts with one. */
  lemma {:induction false} DigitRunConcat(a: string, b: string)
    requires DigitRun(a) < |a| || b == [] || !IsDigit(b[0])
    ensures DigitRun(a + b) == DigitRun(a)
    decreases |a|
  {
    if a == [] {
      assert a + b == b;
    } else if IsDigit(a[0]) {
      assert (a + b)[1..] == a[1..] + b;
      DigitRunConcat(a[1..], b);
    }
  }

  /** The characters `t_error` reports are exactly the illegal characters of
      the text, in their order. */
  lemma {:induction false} LexReportsIllegal(s: string)
    ensures Lex(s).illegal == IllegalChars(s)
    decreases |s|
  {
    if s != [] {
      if IsDigit(s[0]) {
        var n := DigitRun(s);
        IllegalCharsSkipDigits(s, n);
        LexReportsIllegal(s[n..]);
      } else {
        LexReportsIllegal(s[1..]);
      }
    }
  }

  lemma {:induction false} IllegalCharsSkipDigits(s: string, n: nat)
    requires n <= |s| && AllDigits(s[..n])
    ensures IllegalChars(s) == IllegalChars(s[n..])
    decreases n
  {
    if n > 0 {
      assert s[0] == s[..n][0];
      assert s[1..][n - 1..] == s[n..];
      assert s[1..][..n - 1] == s[..n][1..];
      IllegalCharsSkipDigits(s[1..], n - 1);
    }
  }

  /** Every token the lexer produces is well formed. */
  lemma {:induction false} LexValid(s: string)
    ensures forall i :: 0 <= i < |Lex(s).tokens| ==> ValidToken(Lex(s).tokens[i])
    decreases |s|
  {
    if s != [] {
      if IsDigit(s[0]) {
        LexValid(s[DigitRun(s)..]);
      } else {
        LexValid(s[1..]);
      }
    }
  }
}
