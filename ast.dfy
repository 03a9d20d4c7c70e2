/** The node family of frontend/ast.ts.  One datatype holds statements and expressions alike
    (every Expr is a Statement in the source), with one constructor per `kind` string the code
    uses, `NullLiteral` included. */
module Ast {
  import opened Wrappers

  datatype Node =
    | Program(body: seq<Node>)
    | VariableDeclaration(isConstant: bool, identifier: string, initializer: Option<Node>)
    | FunctionDeclaration(params: seq<string>, name: string, body: seq<Node>)
    | IfStatement(condition: Node, body: seq<Node>, alternate: Option<seq<Node>>)
    | AssignmentExpr(assigne: Node, value: Node)
    | BinaryExpr(lhs: Node, rhs: Node, operator: string)
    | CallExpr(args: seq<Node>, caller: Node)
    | UnaryExpr(operator: string, expr: Node)
    | MemberExpr(obj: Node, property: Node, isComputed: bool)
    | RelationalExpr(lhs: Node, rhs: Node, operator: string)
    | PropertyNode(entry: Property)
    | ObjectLiteral(properties: seq<Property>)
    | Identifier(symbol: string)
    | StringLiteral(text: string)
    | NumericLiteral(number: real)
    | NullLiteral

  /** An object-literal entry `key` or `key: value`. */
  datatype Property = Property(key: string, value: Option<Node>)

  /** `(node as Identifier).symbol`: only identifiers have one; elsewhere it is `undefined`. */
  function SymbolOf(n: Node): (r: Option<string>)
    ensures r.Some? <==> n.Identifier?
  {
    if n.Identifier? then Some(n.symbol) else None
  }

  /** A size measure for termination proofs; the kinds the evaluator does not descend into
      count as leaves. */
  function Size(n: Node): (r: nat)
    ensures r >= 1
  {
    match n
    case Program(body) => 1 + SizeSeq(body)
    case VariableDeclaration(_, _, value) => 1 + (if value.Some? then Size(value.value) else 0)
    case FunctionDeclaration(_, _, body) => 1 + SizeSeq(body)
    case AssignmentExpr(assigne, value) => 1 + Size(assigne) + Size(value)
    case BinaryExpr(lhs, rhs, _) => 1 + Size(lhs) + Size(rhs)
    case CallExpr(args, caller) => 1 + SizeSeq(args) + Size(caller)
    case MemberExpr(obj, property, _) => 1 + Size(obj) + Size(property)
    case ObjectLiteral(properties) => 1 + PropertiesSize(properties)
    case _ => 1
  }

  function SizeSeq(s: seq<Node>): nat {
    if s == [] then 0 else Size(s[0]) + SizeSeq(s[1..])
  }

  function PropertySize(p: Property): (r: nat)
    ensures r >= 1 && (p.value.Some? ==> r > Size(p.value.value))
  {
    1 + (if p.value.Some? then Size(p.value.value) else 0)
  }

  function PropertiesSize(ps: seq<Property>): nat {
    if ps == [] then 0 else PropertySize(ps[0]) + PropertiesSize(ps[1..])
  }

  lemma {:induction false} SizeSeqElement(s: seq<Node>, i: nat)
    requires i < |s|
    ensures Size(s[i]) <= SizeSeq(s[i..]) <= SizeSeq(s)
    ensures SizeSeq(s[i + 1..]) < SizeSeq(s[i..])
  {
    assert s[i..][0] == s[i] && s[i..][1..] == s[i + 1..];
    if i > 0 {
      SizeSeqElement(s[1..], i - 1);
      assert s[1..][i - 1..] == s[i..];
    }
  }

  lemma {:induction false} PropertiesSizeElement(ps: seq<Property>, i: nat)
    requires i < |ps|
    ensures PropertySize(ps[i]) <= PropertiesSize(ps[i..]) <= PropertiesSize(ps)
    ensures PropertiesSize(ps[i + 1..]) < PropertiesSize(ps[i..])
  {
    assert ps[i..][0] == ps[i] && ps[i..][1..] == ps[i + 1..];
    if i > 0 {
      PropertiesSizeElement(ps[1..], i - 1);
      assert ps[1..][i - 1..] == ps[i..];
    }
  }
}
