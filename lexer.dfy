/** The lexer of frontend/lexer.ts: a character sequence becomes a token sequence that ends in
    one EOF token.  `Scan` and `Lex` are the reference definition; `Tokenize` is the source's
    loop, which consumes the characters one `shift` at a time, and is proved equal to `Lex`. */
module Lexer {
  import opened Wrappers

  datatype TokenType =
    | Number
    | Identifier
    | Null
    | Equals
    | OpenParen
    | CloseParen
    | BinaryOperator
    | RelationalOperator
    | EOF
    | Var
    | Const

  /** A token: the text it was cut from and its type (`type` in the source). */
  datatype Token = Token(value: string, kind: TokenType)

  /** The only lexical failure: a character that no rule accepts. */
  datatype LexError = UnrecognizedCharacter(ch: char)

  /** The three reserved words. */
  const KEYWORDS: map<string, TokenType> := map["beta" := Var, "sigma" := Const, "null" := Null]

  /** The sentinel pushed after the last character has been consumed. */
  const EOF_TOKEN: Token := Token("EndOfFile", EOF)

  /** ASCII letters (the source's upper/lower-case test also admits non-ASCII letters). */
  predicate IsAlpha(c: char) {
    'a' <= c <= 'z' || 'A' <= c <= 'Z'
  }

  predicate IsNumber(c: char) {
    '0' <= c <= '9'
  }

  predicate IsSkippable(c: char) {
    c == ' ' || c == '\n' || c == '\t' || c == '\r' || c == ';' || c == '\0'
  }

  predicate IsRelationalOp(c: char) {
    c == '>' || c == '<' || c == '='
  }

  predicate IsBinaryOp(c: char) {
    c == '+' || c == '-' || c == '*' || c == '/' || c == '%'
  }

  /** A character some rule of `tokenize` accepts. */
  predicate Recognized(c: char) {
    c == '(' || c == ')' || IsBinaryOp(c) || IsRelationalOp(c) || IsNumber(c) || IsAlpha(c) || IsSkippable(c)
  }

  /** The three kinds of multi-character run the lexer accumulates. */
  datatype RunClass = Relational | Digits | Letters

  predicate InRun(c: char, k: RunClass) {
    match k
    case Relational => IsRelationalOp(c)
    case Digits => IsNumber(c)
    case Letters => IsAlpha(c)
  }

  /** The length of the longest prefix of `s` whose characters all belong to class `k`. */
  function RunLength(s: string, k: RunClass): (n: nat)
    ensures n <= |s|
  {
    if s != [] && InRun(s[0], k) then 1 + RunLength(s[1..], k) else 0
  }

  /** The type a word gets: its keyword type, or Identifier. */
  function KindOfWord(ident: string): TokenType {
    if ident in KEYWORDS then KEYWORDS[ident] else Identifier
  }

  /** The token a maximal run becomes; a lone `=` is the assignment sign. */
  function RunToken(k: RunClass, text: string): Token {
    match k
    case Relational => Token(text, if text == "=" then Equals else RelationalOperator)
    case Digits => Token(text, Number)
    case Letters => Token(text, KindOfWord(text))
  }

  function ClassOf(c: char): RunClass
    requires IsRelationalOp(c) || IsNumber(c) || IsAlpha(c)
  {
    if IsRelationalOp(c) then Relational else if IsNumber(c) then Digits else Letters
  }

  function Cons(t: Token, r: Result<seq<Token>, LexError>): Result<seq<Token>, LexError> {
    match r
    case Ok(ts) => Ok([t] + ts)
    case Err(e) => Err(e)
  }

  /** The tokens cut from `rest`, without the final EOF. */
  function Scan(rest: string): (r: Result<seq<Token>, LexError>)
    ensures r.Ok? ==> |r.value| <= |rest|
    decreases |rest|
  {
    if rest == [] then Ok([])
    else
      var c := rest[0];
      if c == '(' then Cons(Token([c], OpenParen), Scan(rest[1..]))
      else if c == ')' then Cons(Token([c], CloseParen), Scan(rest[1..]))
      else if IsBinaryOp(c) then Cons(Token([c], BinaryOperator), Scan(rest[1..]))
      else if IsRelationalOp(c) || IsNumber(c) || IsAlpha(c) then
        var k := ClassOf(c);
        var n := RunLength(rest, k);
        Cons(RunToken(k, rest[..n]), Scan(rest[n..]))
      else if IsSkippable(c) then Scan(rest[1..])
      else Err(UnrecognizedCharacter(c))
  }

  /** `acc` followed by the tokens of a scan and the EOF sentinel. */
  function Emit(acc: seq<Token>, r: Result<seq<Token>, LexError>): Result<seq<Token>, LexError> {
    match r
    case Ok(ts) => Ok(acc + ts + [EOF_TOKEN])
    case Err(e) => Err(e)
  }

  lemma EmitCons(acc: seq<Token>, t: Token, r: Result<seq<Token>, LexError>)
    ensures Emit(acc, Cons(t, r)) == Emit(acc + [t], r)
  {
    if r.Ok? {
      assert acc + ([t] + r.value) + [EOF_TOKEN] == acc + [t] + r.value + [EOF_TOKEN];
    }
  }

  /** One step of `Scan` on a character that forms its own token. */
  lemma ScanSingle(src: string, kind: TokenType)
    requires src != []
    requires kind == (if src[0] == '(' then OpenParen else if src[0] == ')' then CloseParen else BinaryOperator)
    requires src[0] == '(' || src[0] == ')' || IsBinaryOp(src[0])
    ensures Scan(src) == Cons(Token([src[0]], kind), Scan(src[1..]))
  {
  }

  /** One step of `Scan` on a run of class `k`, cut as `text` followed by `rest`. */
  lemma ScanRunStep(src: string, k: RunClass, text: string, rest: string)
    requires src != [] && InRun(src[0], k) && src == text + rest
    requires RunLength(src, k) == |text|
    ensures Scan(src) == Cons(RunToken(k, text), Scan(rest))
  {
    assert src[..|text|] == text && src[|text|..] == rest;
  }

  /** The reference definition of `tokenize`. */
  function Lex(source: string): (r: Result<seq<Token>, LexError>)
    ensures r.Ok? ==> 1 <= |r.value| <= |source| + 1 && r.value[|r.value| - 1] == EOF_TOKEN
  {
    Emit([], Scan(source))
  }

  /** The inner loops of `tokenize`: shift characters of class `k` onto `text` while there are
      any, so `text` is the maximal run at the head of `src` and `rest` what follows it. */
  method Accumulate(src: string, k: RunClass) returns (text: string, rest: string)
    ensures src == text + rest && |text| == RunLength(src, k)
  {
    text, rest := "", src;
    while |rest| > 0 && InRun(rest[0], k)
      invariant src == text + rest
      invariant RunLength(src, k) == |text| + RunLength(rest, k)
      decreases |rest|
    {
      text := text + [rest[0]];
      rest := rest[1..];
    }
  }

  /** `tokenize`: the source's character loop, with the inner loops that accumulate runs. */
  method Tokenize(sourceCode: string) returns (r: Result<seq<Token>, LexError>)
    ensures r == Lex(sourceCode)
  {
    var tokens: seq<Token> := [];
    var src := sourceCode;
    while |src| > 0
      invariant Lex(sourceCode) == Emit(tokens, Scan(src))
      decreases |src|
    {
      if src[0] == '(' {
        ScanSingle(src, OpenParen);
        EmitCons(tokens, Token([src[0]], OpenParen), Scan(src[1..]));
        tokens := tokens + [Token([src[0]], OpenParen)];
        src := src[1..];
      } else if src[0] == ')' {
        ScanSingle(src, CloseParen);
        EmitCons(tokens, Token([src[0]], CloseParen), Scan(src[1..]));
        tokens := tokens + [Token([src[0]], CloseParen)];
        src := src[1..];
      } else if src[0] == '+' || src[0] == '-' || src[0] == '*' || src[0] == '/' || src[0] == '%' {
        ScanSingle(src, BinaryOperator);
        EmitCons(tokens, Token([src[0]], BinaryOperator), Scan(src[1..]));
        tokens := tokens + [Token([src[0]], BinaryOperator)];
        src := src[1..];
      } else {
        ghost var start := src;
        if IsRelationalOp(src[0]) {
          var op;
          op, src := Accumulate(src, Relational);
          ScanRunStep(start, Relational, op, src);
          EmitCons(tokens, RunToken(Relational, op), Scan(src));
          if op == "=" {
            tokens := tokens + [Token(op, Equals)];
          } else {
            tokens := tokens + [Token(op, RelationalOperator)];
          }
        } else if IsNumber(src[0]) {
          var num;
          num, src := Accumulate(src, Digits);
          ScanRunStep(start, Digits, num, src);
          EmitCons(tokens, RunToken(Digits, num), Scan(src));
          tokens := tokens + [Token(num, Number)];
        } else if IsAlpha(src[0]) {
          var ident;
          ident, src := Accumulate(src, Letters);
          ScanRunStep(start, Letters, ident, src);
          EmitCons(tokens, RunToken(Letters, ident), Scan(src));
          if ident in KEYWORDS {
            tokens := tokens + [Token(ident, KEYWORDS[ident])];
          } else {
            tokens := tokens + [Token(ident, Identifier)];
          }
        } else if IsSkippable(src[0]) {
          src := src[1..];
        } else {
          assert Scan(src) == Err(UnrecognizedCharacter(src[0]));
          return Err(UnrecognizedCharacter(src[0]));
        }
      }
    }
    assert Scan(src) == Ok([]) && tokens + [] == tokens;
    tokens := tokens + [EOF_TOKEN];
    r := Ok(tokens);
  }
}
