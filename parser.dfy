/** The parser of frontend/parser.ts: a token queue consumed from the front, with precedence
    climbing from additive over multiplicative over primary expressions.  The functions below are
    the reference definition over the remaining tokens; class `Parser` is the source's object,
    whose `tokens` field every method shifts, proved to follow them. */
module Parser {
  import opened Wrappers
  import opened Lexer
  import opened LexerProperties
  import opened Ast

  datatype ParseError =
    | TokenizeError(ch: char)                                 // tokenize threw
    | UnexpectedToken(token: Token)                           // no primary starts with `found`
    | ExpectedToken(expected: TokenType, found: Option<Token>) // expect saw another token, or none

  /** What the parser works on: a non-empty queue that ends with the lexer's EOF sentinel. */
  predicate TokenStream(ts: seq<Token>) {
    |ts| > 0 && ts[|ts| - 1] == EOF_TOKEN
  }

  /** A node and the tokens left after it, or the error that stopped parsing. */
  type Parsed = Result<(Node, seq<Token>), ParseError>

  /** `parseFloat` on the lexer's digit strings: the value of the leading decimal digits, a
      whole number that is never negative. */
  function ParseFloat(text: string): (r: real)
    ensures r >= 0.0 && r.Floor as real == r
  {
    DigitsValue(text, 0) as real
  }

  /** The decimal value of the leading digits of `text`, read after the digits worth `acc`. */
  function DigitsValue(text: string, acc: nat): (r: nat)
    ensures r >= acc
    decreases |text|
  {
    if text != [] && IsNumber(text[0]) then DigitsValue(text[1..], acc * 10 + (text[0] as int - '0' as int))
    else acc
  }

  /** Appending a digit to a digit string multiplies its value by ten and adds the digit, so
      `DigitsValue` is the positional decimal value. */
  lemma {:induction false} DigitsValueStep(s: string, d: char, acc: nat)
    requires (forall i :: 0 <= i < |s| ==> IsNumber(s[i])) && IsNumber(d)
    ensures DigitsValue(s + [d], acc) == 10 * DigitsValue(s, acc) + (d as int - '0' as int)
    decreases |s|
  {
    if s == [] {
      assert ([] + [d])[1..] == [];
    } else {
      assert (s + [d])[0] == s[0] && (s + [d])[1..] == s[1..] + [d];
      assert forall i :: 0 <= i < |s[1..]| ==> s[1..][i] == s[i + 1];
      DigitsValueStep(s[1..], d, acc * 10 + (s[0] as int - '0' as int));
    }
  }

  /** parse_primary_expr: identifier, `null`, number, or a parenthesised expression. */
  function Primary(ts: seq<Token>): (r: Parsed)
    requires TokenStream(ts)
    ensures r.Ok? ==> TokenStream(r.value.1) && |r.value.1| < |ts|
    decreases |ts|, 0
  {
    var tk := ts[0];
    match tk.kind
    case Identifier => Ok((Node.Identifier(tk.value), ts[1..]))
    case Null => Ok((NullLiteral, ts[1..]))
    case Number => Ok((NumericLiteral(ParseFloat(tk.value)), ts[1..]))
    case OpenParen =>
      (match Additive(ts[1..])
       case Err(e) => Err(e)
       case Ok((value, rest)) =>
         if rest[0].kind == CloseParen then Ok((value, rest[1..]))
         else Err(ExpectedToken(CloseParen, Some(rest[0]))))
    case _ => Err(UnexpectedToken(tk))
  }

  predicate IsMultiplicativeOp(t: Token) {
    t.value == "/" || t.value == "*" || t.value == "%"
  }

  predicate IsAdditiveOp(t: Token) {
    t.value == "+" || t.value == "-"
  }

  /** The `while` loop of parse_multiplicitive_expr, entered with `lhs` already parsed. */
  function MultiplicativeLoop(lhs: Node, ts: seq<Token>): (r: Parsed)
    requires TokenStream(ts)
    ensures r.Ok? ==> TokenStream(r.value.1) && |r.value.1| <= |ts|
    decreases |ts|, 3
  {
    if IsMultiplicativeOp(ts[0]) then
      match Primary(ts[1..])
      case Err(e) => Err(e)
      case Ok((rhs, rest)) => MultiplicativeLoop(BinaryExpr(lhs, rhs, ts[0].value), rest)
    else Ok((lhs, ts))
  }

  /** parse_multiplicitive_expr */
  function Multiplicative(ts: seq<Token>): (r: Parsed)
    requires TokenStream(ts)
    ensures r.Ok? ==> TokenStream(r.value.1) && |r.value.1| < |ts|
    decreases |ts|, 1
  {
    match Primary(ts)
    case Err(e) => Err(e)
    case Ok((lhs, rest)) => MultiplicativeLoop(lhs, rest)
  }

  /** The `while` loop of parse_additive_expr, entered with `lhs` already parsed. */
  function AdditiveLoop(lhs: Node, ts: seq<Token>): (r: Parsed)
    requires TokenStream(ts)
    ensures r.Ok? ==> TokenStream(r.value.1) && |r.value.1| <= |ts|
    decreases |ts|, 3
  {
    if IsAdditiveOp(ts[0]) then
      match Multiplicative(ts[1..])
      case Err(e) => Err(e)
      case Ok((rhs, rest)) => AdditiveLoop(BinaryExpr(lhs, rhs, ts[0].value), rest)
    else Ok((lhs, ts))
  }

  /** parse_additive_expr, which is also parse_expr and parse_stmt.  A successful parse consumes
      at least one token. */
  function Additive(ts: seq<Token>): (r: Parsed)
    requires TokenStream(ts)
    ensures r.Ok? ==> TokenStream(r.value.1) && |r.value.1| < |ts|
    decreases |ts|, 2
  {
    match Multiplicative(ts)
    case Err(e) => Err(e)
    case Ok((lhs, rest)) => AdditiveLoop(lhs, rest)
  }

  /** The statement loop of produceAST, with the statements parsed so far. */
  function ProgramFrom(ts: seq<Token>, body: seq<Node>): (r: Result<Node, ParseError>)
    requires TokenStream(ts)
    ensures r.Ok? ==> r.value.Program? && |body| <= |r.value.body| < |body| + |ts| && r.value.body[..|body|] == body
    decreases |ts|
  {
    if ts[0].kind == EOF then Ok(Program(body))
    else
      match Additive(ts)
      case Err(e) => Err(e)
      case Ok((stmt, rest)) =>
        var r := ProgramFrom(rest, body + [stmt]);
        assert r.Ok? ==> r.value.body[..|body|] == (body + [stmt])[..|body|];
        r
  }

  /** produceAST: tokenize, then parse statements until EOF. */
  function Parse(source: string): (r: Result<Node, ParseError>)
    ensures r.Ok? ==> r.value.Program? && |r.value.body| <= |source|
  {
    match Lex(source)
    case Err(e) => Err(TokenizeError(e.ch))
    case Ok(ts) =>
      LexEndsWithSingleEOF(source);
      ProgramFrom(ts, [])
  }

  /** A method's result and remaining tokens agree with a reference parse. */
  predicate Agrees(r: Result<Node, ParseError>, spec: Parsed, tokensNow: seq<Token>) {
    match spec
    case Ok((n, rest)) => r == Ok(n) && tokensNow == rest
    case Err(e) => r == Err(e)
  }

  class Parser {
    var tokens: seq<Token>

    constructor ()
      ensures tokens == []
    {
      tokens := [];
    }

    /** The queue is at its end: with the lexer's single EOF last, exactly when only that
        sentinel is left. */
    predicate IsEOF()
      reads this
      requires tokens != []
      ensures TokenStream(tokens) && (forall i :: 0 <= i < |tokens| - 1 ==> tokens[i].kind != EOF) ==>
        (IsEOF() <==> |tokens| == 1)
    {
      tokens[0].kind == EOF
    }

    /** The token at the head of the queue, the one `IsEOF` tests; none is ever taken. */
    function At(): (t: Token)
      reads this
      requires tokens != []
      ensures t in tokens && (t.kind == EOF <==> IsEOF())
    {
      tokens[0]
    }

    method Eat() returns (prev: Token)
      requires tokens != []
      modifies this
      ensures prev == old(tokens[0]) && tokens == old(tokens[1..])
    {
      prev := tokens[0];
      tokens := tokens[1..];
    }

    /** Shift one token and fail unless it has the expected type. */
    method Expect(kind: TokenType) returns (r: Result<Token, ParseError>)
      requires tokens != []
      modifies this
      ensures tokens == old(tokens[1..])
      ensures r == if old(tokens[0]).kind == kind then Ok(old(tokens[0]))
                   else Err(ExpectedToken(kind, Some(old(tokens[0]))))
    {
      var prev := tokens[0];
      tokens := tokens[1..];
      if prev.kind != kind {
        return Err(ExpectedToken(kind, Some(prev)));
      }
      r := Ok(prev);
    }

    method ParseStmt() returns (r: Result<Node, ParseError>)
      requires TokenStream(tokens)
      modifies this
      ensures Agrees(r, Additive(old(tokens)), tokens)
      decreases |tokens|, 4
    {
      r := ParseExpr();
    }

    method ParseExpr() returns (r: Result<Node, ParseError>)
      requires TokenStream(tokens)
      modifies this
      ensures Agrees(r, Additive(old(tokens)), tokens)
      decreases |tokens|, 3
    {
      r := ParseAdditiveExpr();
    }

    method ParseAdditiveExpr() returns (r: Result<Node, ParseError>)
      requires TokenStream(tokens)
      modifies this
      ensures Agrees(r, Additive(old(tokens)), tokens)
      decreases |tokens|, 2
    {
      var first := ParseMultiplicitiveExpr();
      if first.Err? {
        return first;
      }
      var lhs := first.value;
      while IsAdditiveOp(At())
        invariant TokenStream(tokens) && |tokens| < |old(tokens)|
        invariant Additive(old(tokens)) == AdditiveLoop(lhs, tokens)
        decreases |tokens|
      {
        var operator := Eat();
        var rhs := ParseMultiplicitiveExpr();
        if rhs.Err? {
          return rhs;
        }
        lhs := BinaryExpr(lhs, rhs.value, operator.value);
      }
      r := Ok(lhs);
    }

    method ParseMultiplicitiveExpr() returns (r: Result<Node, ParseError>)
      requires TokenStream(tokens)
      modifies this
      ensures Agrees(r, Multiplicative(old(tokens)), tokens)
      decreases |tokens|, 1
    {
      var first := ParsePrimaryExpr();
      if first.Err? {
        return first;
      }
      var lhs := first.value;
      while IsMultiplicativeOp(At())
        invariant TokenStream(tokens) && |tokens| < |old(tokens)|
        invariant Multiplicative(old(tokens)) == MultiplicativeLoop(lhs, tokens)
        decreases |tokens|
      {
        var operator := Eat();
        var rhs := ParsePrimaryExpr();
        if rhs.Err? {
          return rhs;
        }
        lhs := BinaryExpr(lhs, rhs.value, operator.value);
      }
      r := Ok(lhs);
    }

    method ParsePrimaryExpr() returns (r: Result<Node, ParseError>)
      requires TokenStream(tokens)
      modifies this
      ensures Agrees(r, Primary(old(tokens)), tokens)
      decreases |tokens|, 0
    {
      match At().kind {
        case Identifier =>
          var tk := Eat();
          r := Ok(Node.Identifier(tk.value));
        case Null =>
          var _ := Eat();
          r := Ok(NullLiteral);
        case Number =>
          var tk := Eat();
          r := Ok(NumericLiteral(ParseFloat(tk.value)));
        case OpenParen =>
          var _ := Eat();
          var value := ParseExpr();
          if value.Err? {
            return value;
          }
          var closing := Expect(CloseParen);
          if closing.Err? {
            return Err(closing.error);
          }
          r := value;
        case _ =>
          r := Err(UnexpectedToken(At()));
      }
    }

    /** produceAST */
    method ProduceAST(sourceCode: string) returns (r: Result<Node, ParseError>)
      modifies this
      ensures r == Parse(sourceCode)
    {
      var lexed := Tokenize(sourceCode);
      if lexed.Err? {
        return Err(TokenizeError(lexed.error.ch));
      }
      tokens := lexed.value;
      LexEndsWithSingleEOF(sourceCode);
      var body: seq<Node> := [];
      while !IsEOF()
        invariant TokenStream(tokens)
        invariant Parse(sourceCode) == ProgramFrom(tokens, body)
        decreases |tokens|
      {
        var stmt := ParseStmt();
        if stmt.Err? {
          return Err(stmt.error);
        }
        body := body + [stmt.value];
      }
      r := Ok(Program(body));
    }
  }
}
