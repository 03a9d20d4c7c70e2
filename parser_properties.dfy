/** What the grammar of frontend/parser.ts accepts and how it groups operators, proved of the
    reference parse functions. */
module ParserProperties {
  import opened Wrappers
  import opened Lexer
  import opened LexerProperties
  import opened Ast
  import opened Parser

  /** A stream as `tokenize` returns it: well-formed tokens, then the EOF sentinel. */
  predicate Lexed(ts: seq<Token>) {
    TokenStream(ts) && forall i :: 0 <= i < |ts| - 1 ==> ValidToken(ts[i])
  }

  /** The token types some grammar rule can consume. */
  predicate Consumable(k: TokenType) {
    k == TokenType.Identifier || k == Null || k == Number || k == OpenParen || k == CloseParen || k == BinaryOperator
  }

  predicate AllConsumable(ts: seq<Token>) {
    forall i :: 0 <= i < |ts| ==> Consumable(ts[i].kind)
  }

  /** `rest` is what is left of `ts` after consuming a prefix of consumable tokens. */
  predicate Consumed(ts: seq<Token>, rest: seq<Token>) {
    |rest| <= |ts| && ts[|ts| - |rest|..] == rest && AllConsumable(ts[..|ts| - |rest|])
  }

  /** The nodes the parser can build: identifiers, `null`, numbers and arithmetic over them. */
  predicate ParsedExpr(n: Node) {
    match n
    case Identifier(_) => true
    case NullLiteral => true
    case NumericLiteral(_) => true
    case BinaryExpr(lhs, rhs, op) =>
      (op == "+" || op == "-" || op == "*" || op == "/" || op == "%") && ParsedExpr(lhs) && ParsedExpr(rhs)
    case _ => false
  }

  predicate ParsedOk(ts: seq<Token>, r: Parsed) {
    r.Ok? ==> ParsedExpr(r.value.0) && Consumed(ts, r.value.1)
  }

  lemma LexedSuffix(ts: seq<Token>, k: nat)
    requires Lexed(ts) && k < |ts|
    ensures Lexed(ts[k..])
  {
    assert forall i :: 0 <= i < |ts[k..]| - 1 ==> ts[k..][i] == ts[k + i];
  }

  lemma ConsumedStep(ts: seq<Token>, rest: seq<Token>)
    requires ts != [] && Consumable(ts[0].kind) && Consumed(ts[1..], rest)
    ensures Consumed(ts, rest)
  {
    var n := |ts| - |rest|;
    assert ts[..n] == [ts[0]] + ts[1..][..n - 1];
    assert ts[n..] == ts[1..][n - 1..];
  }

  lemma ConsumedTrans(a: seq<Token>, b: seq<Token>, c: seq<Token>)
    requires Consumed(a, b) && Consumed(b, c)
    ensures Consumed(a, c)
  {
    var n, m := |a| - |b|, |b| - |c|;
    assert a[..n + m] == a[..n] + b[..m];
    assert a[n + m..] == b[m..];
  }

  /** Only a token whose value is an operator sign has that value, among lexed tokens. */
  lemma OperatorToken(t: Token)
    requires ValidToken(t)
    requires IsAdditiveOp(t) || IsMultiplicativeOp(t)
    ensures t.kind == BinaryOperator
  {
    var c := t.value[0];
    assert !InRun(c, Relational) && !InRun(c, Digits) && !InRun(c, Letters);
  }

  lemma {:induction false} PrimaryConsumes(ts: seq<Token>)
    requires Lexed(ts)
    ensures ParsedOk(ts, Primary(ts))
    decreases |ts|, 0
  {
    var tk := ts[0];
    if tk.kind == OpenParen {
      LexedSuffix(ts, 1);
      AdditiveConsumes(ts[1..]);
      var a := Additive(ts[1..]);
      if a.Ok? && a.value.1[0].kind == CloseParen {
        var rest := a.value.1;
        assert Consumed(rest, rest[1..]) by {
          assert rest[..1] == [rest[0]];
        }
        ConsumedTrans(ts[1..], rest, rest[1..]);
        ConsumedStep(ts, rest[1..]);
      }
    } else if Primary(ts).Ok? {
      assert Consumed(ts, ts[1..]) by {
        assert ts[..1] == [tk];
      }
    }
  }

  lemma {:induction false} MultiplicativeLoopConsumes(lhs: Node, ts: seq<Token>)
    requires Lexed(ts) && ParsedExpr(lhs)
    ensures ParsedOk(ts, MultiplicativeLoop(lhs, ts))
    decreases |ts|, 3
  {
    if IsMultiplicativeOp(ts[0]) {
      OperatorToken(ts[0]);
      LexedSuffix(ts, 1);
      PrimaryConsumes(ts[1..]);
      var p := Primary(ts[1..]);
      if p.Ok? {
        var rest := p.value.1;
        LexedSuffix(ts[1..], |ts[1..]| - |rest|);
        assert ts[1..][|ts[1..]| - |rest|..] == rest;
        MultiplicativeLoopConsumes(BinaryExpr(lhs, p.value.0, ts[0].value), rest);
        var m := MultiplicativeLoop(BinaryExpr(lhs, p.value.0, ts[0].value), rest);
        if m.Ok? {
          ConsumedTrans(ts[1..], rest, m.value.1);
          ConsumedStep(ts, m.value.1);
        }
      }
    } else {
      assert ts[..0] == [] && ts[|ts| - |ts|..] == ts;
    }
  }

  lemma {:induction false} MultiplicativeConsumes(ts: seq<Token>)
    requires Lexed(ts)
    ensures ParsedOk(ts, Multiplicative(ts))
    decreases |ts|, 1
  {
    PrimaryConsumes(ts);
    var p := Primary(ts);
    if p.Ok? {
      var rest := p.value.1;
      LexedSuffix(ts, |ts| - |rest|);
      MultiplicativeLoopConsumes(p.value.0, rest);
      var m := MultiplicativeLoop(p.value.0, rest);
      if m.Ok? {
        ConsumedTrans(ts, rest, m.value.1);
      }
    }
  }

  lemma {:induction false} AdditiveLoopConsumes(lhs: Node, ts: seq<Token>)
    requires Lexed(ts) && ParsedExpr(lhs)
    ensures ParsedOk(ts, AdditiveLoop(lhs, ts))
    decreases |ts|, 3
  {
    if IsAdditiveOp(ts[0]) {
      OperatorToken(ts[0]);
      LexedSuffix(ts, 1);
      MultiplicativeConsumes(ts[1..]);
      var p := Multiplicative(ts[1..]);
      if p.Ok? {
        var rest := p.value.1;
        LexedSuffix(ts[1..], |ts[1..]| - |rest|);
        assert ts[1..][|ts[1..]| - |rest|..] == rest;
        AdditiveLoopConsumes(BinaryExpr(lhs, p.value.0, ts[0].value), rest);
        var m := AdditiveLoop(BinaryExpr(lhs, p.value.0, ts[0].value), rest);
        if m.Ok? {
          ConsumedTrans(ts[1..], rest, m.value.1);
          ConsumedStep(ts, m.value.1);
        }
      }
    } else {
      assert ts[..0] == [] && ts[|ts| - |ts|..] == ts;
    }
  }

  /** A parsed expression is built only of identifiers, `null`, numbers and the five arithmetic
      operators, and consumes only tokens of those kinds and parentheses. */
  lemma {:induction false} AdditiveConsumes(ts: seq<Token>)
    requires Lexed(ts)
    ensures ParsedOk(ts, Additive(ts))
    decreases |ts|, 2
  {
    MultiplicativeConsumes(ts);
    var p := Multiplicative(ts);
    if p.Ok? {
      var rest := p.value.1;
      LexedSuffix(ts, |ts| - |rest|);
      AdditiveLoopConsumes(p.value.0, rest);
      var m := AdditiveLoop(p.value.0, rest);
      if m.Ok? {
        ConsumedTrans(ts, rest, m.value.1);
      }
    }
  }

  lemma {:induction false} ProgramFromConsumes(ts: seq<Token>, body: seq<Node>)
    requires Lexed(ts)
    requires forall i :: 0 <= i < |body| ==> ParsedExpr(body[i])
    ensures ProgramFrom(ts, body).Ok? ==>
      AllConsumable(ts[..|ts| - 1]) &&
      ProgramFrom(ts, body).value.Program? &&
      var stmts := ProgramFrom(ts, body).value.body;
      forall i :: 0 <= i < |stmts| ==> ParsedExpr(stmts[i])
    decreases |ts|
  {
    if ts[0].kind != EOF {
      AdditiveConsumes(ts);
      var a := Additive(ts);
      if a.Ok? {
        var rest := a.value.1;
        LexedSuffix(ts, |ts| - |rest|);
        ProgramFromConsumes(rest, body + [a.value.0]);
        if ProgramFrom(rest, body + [a.value.0]).Ok? {
          var n := |ts| - |rest|;
          assert ts[..|ts| - 1] == ts[..n] + rest[..|rest| - 1];
        }
      }
    } else {
      assert !ValidToken(ts[0]);
    }
  }

  /** produceAST accepts a source only if every token but EOF is an identifier, `null`, a
      number, a parenthesis or an arithmetic operator; the program's statements are then
      arithmetic expressions over identifiers, `null` and numbers.  So `beta x = 5` (a `Var`
      token), `x = 5` (an `Equals` token) and `1 < 2` (a `RelationalOperator` token) are all
      rejected. */
  lemma ParseAcceptsOnlyArithmetic(s: string)
    requires Parse(s).Ok?
    ensures Lex(s).Ok?
    ensures var ts := Lex(s).value; AllConsumable(ts[..|ts| - 1])
    ensures Parse(s).value.Program? &&
      forall i :: 0 <= i < |Parse(s).value.body| ==> ParsedExpr(Parse(s).value.body[i])
  {
    ScanTokensValid(s);
    LexEndsWithSingleEOF(s);
    var ts := Lex(s).value;
    assert forall i :: 0 <= i < |ts| - 1 ==> ts[i] == Scan(s).value[i];
    ProgramFromConsumes(ts, []);
  }

  /** Whitespace and semicolons alone give a program with no statements. */
  lemma BlankSourceGivesEmptyProgram(s: string)
    requires forall i :: 0 <= i < |s| ==> IsSkippable(s[i])
    ensures Parse(s) == Ok(Program([]))
  {
    SkippableOnlyGivesEOF(s);
  }

  /** One atom: a token the primary rule turns into a leaf. */
  function Atom(t: Token): Node
    requires t.kind == TokenType.Identifier || t.kind == Number || t.kind == Null
  {
    if t.kind == TokenType.Identifier then Node.Identifier(t.value)
    else if t.kind == Number then NumericLiteral(ParseFloat(t.value)) else NullLiteral
  }

  lemma PrimaryAtom(ts: seq<Token>)
    requires TokenStream(ts) && (ts[0].kind == TokenType.Identifier || ts[0].kind == Number || ts[0].kind == Null)
    ensures Primary(ts) == Ok((Atom(ts[0]), ts[1..]))
  {
  }

  /** An atom before a token that is no operator of either level is a whole expression. */
  lemma AtomAlone(ts: seq<Token>)
    requires TokenStream(ts) && |ts| > 1 && (ts[0].kind == TokenType.Identifier || ts[0].kind == Number || ts[0].kind == Null)
    requires !IsMultiplicativeOp(ts[1])
    ensures Multiplicative(ts) == Ok((Atom(ts[0]), ts[1..]))
  {
    PrimaryAtom(ts);
    assert ts[1..][0] == ts[1];
  }

  lemma AdditiveLoopStep(lhs: Node, ts: seq<Token>, rhs: Node, rest: seq<Token>)
    requires TokenStream(ts) && |ts| > 1 && IsAdditiveOp(ts[0])
    requires Multiplicative(ts[1..]) == Ok((rhs, rest))
    ensures AdditiveLoop(lhs, ts) == AdditiveLoop(BinaryExpr(lhs, rhs, ts[0].value), rest)
  {
  }

  lemma MultiplicativeLoopStep(lhs: Node, ts: seq<Token>)
    requires TokenStream(ts) && |ts| > 2 && IsMultiplicativeOp(ts[0])
    requires ts[1].kind == TokenType.Identifier || ts[1].kind == Number || ts[1].kind == Null
    ensures MultiplicativeLoop(lhs, ts) == MultiplicativeLoop(BinaryExpr(lhs, Atom(ts[1]), ts[0].value), ts[2..])
  {
    PrimaryAtom(ts[1..]);
    assert ts[1..][1..] == ts[2..];
  }

  /** `x - y - z` groups as `(x - y) - z`; the same holds for any two additive operators. */
  lemma AdditiveIsLeftAssociative(x: string, y: string, z: string, op1: string, op2: string)
    requires op1 == "+" || op1 == "-"
    requires op2 == "+" || op2 == "-"
    ensures Additive([Token(x, TokenType.Identifier), Token(op1, BinaryOperator), Token(y, TokenType.Identifier),
                      Token(op2, BinaryOperator), Token(z, TokenType.Identifier), EOF_TOKEN])
         == Ok((BinaryExpr(BinaryExpr(Node.Identifier(x), Node.Identifier(y), op1), Node.Identifier(z), op2), [EOF_TOKEN]))
  {
    var ts := [Token(x, TokenType.Identifier), Token(op1, BinaryOperator), Token(y, TokenType.Identifier),
               Token(op2, BinaryOperator), Token(z, TokenType.Identifier), EOF_TOKEN];
    AtomAlone(ts);
    AtomAlone(ts[2..]);
    AtomAlone(ts[4..]);
    assert ts[2..][1..] == ts[3..] && ts[4..][1..] == ts[5..] && ts[5..] == [EOF_TOKEN];
    AdditiveLoopStep(Node.Identifier(x), ts[1..], Node.Identifier(y), ts[3..]);
    assert ts[1..][2..] == ts[3..] && ts[1..][1..] == ts[2..];
    AdditiveLoopStep(BinaryExpr(Node.Identifier(x), Node.Identifier(y), op1), ts[3..], Node.Identifier(z), ts[5..]);
    assert ts[3..][2..] == ts[5..] && ts[3..][1..] == ts[4..];
  }

  /** `a * b / c` groups as `(a * b) / c`; the same holds for any two multiplicative operators. */
  lemma MultiplicativeIsLeftAssociative(a: string, b: string, c: string, op1: string, op2: string)
    requires op1 == "*" || op1 == "/" || op1 == "%"
    requires op2 == "*" || op2 == "/" || op2 == "%"
    ensures Additive([Token(a, Number), Token(op1, BinaryOperator), Token(b, Number),
                      Token(op2, BinaryOperator), Token(c, Number), EOF_TOKEN])
         == Ok((BinaryExpr(BinaryExpr(NumericLiteral(ParseFloat(a)), NumericLiteral(ParseFloat(b)), op1),
                           NumericLiteral(ParseFloat(c)), op2), [EOF_TOKEN]))
  {
    var ts := [Token(a, Number), Token(op1, BinaryOperator), Token(b, Number),
               Token(op2, BinaryOperator), Token(c, Number), EOF_TOKEN];
    var e := BinaryExpr(BinaryExpr(NumericLiteral(ParseFloat(a)), NumericLiteral(ParseFloat(b)), op1),
                        NumericLiteral(ParseFloat(c)), op2);
    PrimaryAtom(ts);
    MultiplicativeLoopStep(NumericLiteral(ParseFloat(a)), ts[1..]);
    assert ts[1..][1] == ts[2] && ts[1..][2..] == ts[3..];
    MultiplicativeLoopStep(BinaryExpr(NumericLiteral(ParseFloat(a)), NumericLiteral(ParseFloat(b)), op1), ts[3..]);
    assert ts[3..][1] == ts[4] && ts[3..][2..] == ts[5..] && ts[5..] == [EOF_TOKEN];
    assert Multiplicative(ts) == Ok((e, [EOF_TOKEN]));
  }

  /** `a + b * c` groups as `a + (b * c)`: multiplication binds tighter than addition. */
  lemma MultiplicationBindsTighter(a: string, b: string, c: string)
    ensures Additive([Token(a, Number), Token("+", BinaryOperator), Token(b, Number),
                      Token("*", BinaryOperator), Token(c, Number), EOF_TOKEN])
         == Ok((BinaryExpr(NumericLiteral(ParseFloat(a)),
                           BinaryExpr(NumericLiteral(ParseFloat(b)), NumericLiteral(ParseFloat(c)), "*"), "+"),
                [EOF_TOKEN]))
  {
    var ts := [Token(a, Number), Token("+", BinaryOperator), Token(b, Number),
               Token("*", BinaryOperator), Token(c, Number), EOF_TOKEN];
    var product := BinaryExpr(NumericLiteral(ParseFloat(b)), NumericLiteral(ParseFloat(c)), "*");
    AtomAlone(ts);
    PrimaryAtom(ts[2..]);
    assert ts[2..][1..] == ts[3..];
    MultiplicativeLoopStep(NumericLiteral(ParseFloat(b)), ts[3..]);
    assert ts[3..][1] == ts[4] && ts[3..][2..] == ts[5..] && ts[5..] == [EOF_TOKEN];
    assert Multiplicative(ts[2..]) == Ok((product, ts[5..]));
    assert ts[1..][1..] == ts[2..];
    AdditiveLoopStep(NumericLiteral(ParseFloat(a)), ts[1..], product, ts[5..]);
  }

  /** The inside of `(a + b) ...`: the sum, leaving the closing parenthesis. */
  lemma SumBeforeClose(a: string, b: string, rest: seq<Token>)
    requires TokenStream(rest) && rest[0] == Token(")", CloseParen)
    ensures Additive([Token(a, Number), Token("+", BinaryOperator), Token(b, Number)] + rest)
         == Ok((BinaryExpr(NumericLiteral(ParseFloat(a)), NumericLiteral(ParseFloat(b)), "+"), rest))
  {
    var ts := [Token(a, Number), Token("+", BinaryOperator), Token(b, Number)] + rest;
    assert TokenStream(ts);
    AtomAlone(ts);
    AtomAlone(ts[2..]);
    assert ts[0] == Token(a, Number) && ts[1] == Token("+", BinaryOperator) && ts[2..][0] == Token(b, Number);
    assert ts[1..][1..] == ts[2..] && ts[2..][1..] == rest && ts[2..][1] == rest[0];
    AdditiveLoopStep(NumericLiteral(ParseFloat(a)), ts[1..], NumericLiteral(ParseFloat(b)), rest);
  }

  /** `(a + b) * c`: the group yields its inner node, with no wrapper, and then binds as a
      primary. */
  lemma GroupIsTransparent(a: string, b: string, c: string)
    ensures Additive([Token("(", OpenParen), Token(a, Number), Token("+", BinaryOperator), Token(b, Number),
                      Token(")", CloseParen), Token("*", BinaryOperator), Token(c, Number), EOF_TOKEN])
         == Ok((BinaryExpr(BinaryExpr(NumericLiteral(ParseFloat(a)), NumericLiteral(ParseFloat(b)), "+"),
                           NumericLiteral(ParseFloat(c)), "*"), [EOF_TOKEN]))
  {
    var ts := [Token("(", OpenParen), Token(a, Number), Token("+", BinaryOperator), Token(b, Number),
               Token(")", CloseParen), Token("*", BinaryOperator), Token(c, Number), EOF_TOKEN];
    var inner := BinaryExpr(NumericLiteral(ParseFloat(a)), NumericLiteral(ParseFloat(b)), "+");
    assert ts[1..] == [Token(a, Number), Token("+", BinaryOperator), Token(b, Number)] + ts[4..];
    SumBeforeClose(a, b, ts[4..]);
    assert Primary(ts) == Ok((inner, ts[5..]));
    MultiplicativeLoopStep(inner, ts[5..]);
    assert ts[5..][1] == ts[6] && ts[5..][2..] == ts[7..] && ts[7..] == [EOF_TOKEN];
    assert Multiplicative(ts) == Ok((BinaryExpr(inner, NumericLiteral(ParseFloat(c)), "*"), [EOF_TOKEN]));
  }

  /** A group without its closing parenthesis is an error naming the token found instead. */
  lemma UnclosedGroupFails(a: string)
    ensures Additive([Token("(", OpenParen), Token(a, Number), EOF_TOKEN])
         == Err(ExpectedToken(CloseParen, Some(EOF_TOKEN)))
  {
    var ts := [Token("(", OpenParen), Token(a, Number), EOF_TOKEN];
    AtomAlone(ts[1..]);
    assert ts[1..][0] == ts[1] && ts[1..][1] == EOF_TOKEN && ts[1..][1..] == [EOF_TOKEN];
    assert Additive(ts[1..]) == Ok((NumericLiteral(ParseFloat(a)), [EOF_TOKEN]));
    assert Primary(ts) == Err(ExpectedToken(CloseParen, Some(EOF_TOKEN)));
    assert Multiplicative(ts) == Err(ExpectedToken(CloseParen, Some(EOF_TOKEN)));
  }

  /** A primary is an identifier, `null`, a number or a group; any other token there is an
      error naming that token. */
  lemma PrimaryCases(ts: seq<Token>)
    requires TokenStream(ts)
    ensures ts[0].kind == TokenType.Identifier ==> Primary(ts) == Ok((Node.Identifier(ts[0].value), ts[1..]))
    ensures ts[0].kind == Null ==> Primary(ts) == Ok((NullLiteral, ts[1..]))
    ensures ts[0].kind == Number ==> Primary(ts) == Ok((NumericLiteral(ParseFloat(ts[0].value)), ts[1..]))
    ensures ts[0].kind !in {TokenType.Identifier, Null, Number, OpenParen} ==> Primary(ts) == Err(UnexpectedToken(ts[0]))
  {
  }

  /** A Number token's digits give the literal's value. */
  lemma NumberValue()
    ensures ParseFloat("42") == 42.0
  {
    var s := "42";
    assert s[0] == '4' && s[1..] == "2" && s[1..][0] == '2' && s[1..][1..] == [];
    assert DigitsValue(s[1..][1..], 42) == 42;
    assert DigitsValue(s[1..], 4) == 42;
    assert DigitsValue(s, 0) == 42;
  }
}
