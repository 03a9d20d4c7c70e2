/** runtime/interpreter.ts and the handlers of runtime/evals as methods on a `Heap`: the
    statement loops, the object-literal loop and the parameter loop run in place, and each
    method is proved to produce the result and the heap the `Semantics` function of the same
    name describes. */
module Interpreter {
  import opened Wrappers
  import opened Ast
  import opened Values
  import opened Scopes
  import opened Operators
  import opened Environment
  import Semantics

  /** evaluate: one `switch` on the node kind. */
  method Evaluate(h: Heap, n: Node, env: nat, fuel: nat) returns (r: Result<Value, RuntimeError>)
    modifies h
    ensures (r, h.State()) == Semantics.Eval(old(h.State()), n, env, fuel)
    decreases fuel, Size(n), 1
  {
    match n
    case NumericLiteral(x) => r := Ok(NumberVal(x));
    case StringLiteral(s) => r := Ok(StringVal(s));
    case Identifier(_) => r := EvalIdentifier(h, n, env);
    case ObjectLiteral(_) => r := EvalObjectExpr(h, n, env, fuel);
    case CallExpr(_, _) => r := EvalCallExpr(h, n, env, fuel);
    case MemberExpr(_, _, _) => r := EvalMemberExpr(h, env, None, Some(n), fuel);
    case AssignmentExpr(_, _) => r := EvalAssignment(h, n, env, fuel);
    case BinaryExpr(_, _, _) => r := EvaluateBinaryExpr(h, n, env, fuel);
    case Program(_) => r := EvaluateProgram(h, n, env, fuel);
    case VariableDeclaration(_, _, _) => r := EvalVarDeclaration(h, n, env, fuel);
    case FunctionDeclaration(_, _, _) => r := EvalFuncDeclaration(h, n, env);
    case _ => r := Err(NotImplemented);
  }

  /** evaluate_binary_expr */
  method EvaluateBinaryExpr(h: Heap, n: Node, env: nat, fuel: nat) returns (r: Result<Value, RuntimeError>)
    requires n.BinaryExpr?
    modifies h
    ensures (r, h.State()) == Semantics.EvaluateBinaryExpr(old(h.State()), n, env, fuel)
    decreases fuel, Size(n), 0
  {
    var lhs := Evaluate(h, n.lhs, env, fuel);
    if lhs.Err? {
      return lhs;
    }
    var rhs := Evaluate(h, n.rhs, env, fuel);
    if rhs.Err? {
      return rhs;
    }
    r := BinaryOperands(lhs.value, rhs.value, n.operator);
  }

  /** eval_idenifier: a lookup, which changes nothing. */
  method EvalIdentifier(h: Heap, n: Node, env: nat) returns (r: Result<Value, RuntimeError>)
    requires n.Identifier?
    ensures (r, h.State()) == Semantics.EvalIdentifier(h.State(), n, env)
  {
    r := h.LookFor(env, n.symbol);
  }

  /** eval_object_expr: a fresh object filled property by property. */
  method EvalObjectExpr(h: Heap, n: Node, env: nat, fuel: nat) returns (r: Result<Value, RuntimeError>)
    requires n.ObjectLiteral?
    modifies h
    ensures (r, h.State()) == Semantics.EvalObjectExpr(old(h.State()), n, env, fuel)
    decreases fuel, Size(n), 0
  {
    var ref := h.NewObject();
    ghost var st1 := h.State();
    var i := 0;
    while i < |n.properties|
      invariant 0 <= i <= |n.properties|
      invariant ref < |h.objects|
      invariant Semantics.EvalProps(st1, n.properties, env, fuel, ref) ==
                Semantics.EvalProps(h.State(), n.properties[i..], env, fuel, ref)
    {
      var p := n.properties[i];
      PropertiesSizeElement(n.properties, i);
      assert n.properties[i..][0] == p && n.properties[i..][1..] == n.properties[i + 1..];
      var v: Result<Value, RuntimeError>;
      if p.value.None? {
        v := h.LookFor(env, p.key);
      } else {
        v := Evaluate(h, p.value.value, env, fuel);
      }
      if v.Err? {
        return Err(v.error);
      }
      h.SetProperty(ref, p.key, v.value);
      i := i + 1;
    }
    r := Ok(ObjectVal(ref));
  }

  /** eval_call_expr: the arguments left to right, then the callee, then the call. */
  method EvalCallExpr(h: Heap, n: Node, env: nat, fuel: nat) returns (r: Result<Value, RuntimeError>)
    requires n.CallExpr?
    modifies h
    ensures (r, h.State()) == Semantics.EvalCallExpr(old(h.State()), n, env, fuel)
    decreases fuel, Size(n), 0
  {
    ghost var st0 := h.State();
    var args: seq<Value> := [];
    var i := 0;
    while i < |n.args|
      invariant 0 <= i <= |n.args|
      invariant Semantics.EvalArgs(st0, n.args, env, fuel, []) == Semantics.EvalArgs(h.State(), n.args[i..], env, fuel, args)
    {
      SizeSeqElement(n.args, i);
      assert n.args[i..][0] == n.args[i] && n.args[i..][1..] == n.args[i + 1..];
      var v := Evaluate(h, n.args[i], env, fuel);
      if v.Err? {
        return v;
      }
      args := args + [v.value];
      i := i + 1;
    }
    assert n.args[i..] == [];
    var callee := Evaluate(h, n.caller, env, fuel);
    if callee.Err? {
      return callee;
    }
    r := CallValue(h, callee.value, args, fuel);
  }

  /** The call itself: a native is applied to the arguments; a user function gets a fresh
      scope under its declaration scope, its parameters declared in a loop, and its body run
      statement by statement. */
  method CallValue(h: Heap, f: Value, args: seq<Value>, fuel: nat) returns (r: Result<Value, RuntimeError>)
    modifies h
    ensures (r, h.State()) == Semantics.CallValue(old(h.State()), f, args, fuel)
    decreases fuel, 0, 3
  {
    if f.InternalFn? {
      return Semantics.CallNative(h.State(), f.native, args);
    }
    if !f.UserFn? {
      return if f.Undefined? then Err(HostTypeError) else Err(NotAFunction);
    }
    if fuel == 0 {
      return Err(OutOfFuel);
    }
    if f.declarationEnv >= |h.scopes| {
      return Err(DanglingReference);
    }
    var scope := h.NewEnvironment(Some(f.declarationEnv));
    var failed := BindParams(h, scope, f.params, args);
    if failed.Some? {
      return Err(failed.value);
    }
    ghost var st2 := h.State();
    var res := MkNull();
    var j := 0;
    while j < |f.body|
      invariant 0 <= j <= |f.body|
      invariant Semantics.EvalSeq(st2, f.body, scope, fuel - 1, MkNull()) == Semantics.EvalSeq(h.State(), f.body[j..], scope, fuel - 1, res)
    {
      assert f.body[j..][0] == f.body[j] && f.body[j..][1..] == f.body[j + 1..];
      var v := Evaluate(h, f.body[j], scope, fuel - 1);
      if v.Err? {
        return v;
      }
      res := v.value;
      j := j + 1;
    }
    assert f.body[j..] == [];
    r := Ok(res);
  }

  /** The parameter loop of eval_call_expr: each parameter is declared, not constant, in the
      call's scope with the argument at its position; the first declaration that throws ends it. */
  method BindParams(h: Heap, scope: nat, params: seq<string>, args: seq<Value>) returns (failed: Option<RuntimeError>)
    modifies h
    ensures (failed, h.State()) == Semantics.BindParams(old(h.State()), scope, params, args, 0)
  {
    ghost var st0 := h.State();
    var i := 0;
    while i < |params|
      invariant 0 <= i <= |params|
      invariant Semantics.BindParams(st0, scope, params, args, 0) == Semantics.BindParams(h.State(), scope, params, args, i)
    {
      var declared := h.DeclareVar(scope, params[i], Semantics.ArgAt(args, i), false);
      if declared.Err? {
        return Some(declared.error);
      }
      i := i + 1;
    }
    failed := None;
  }

  /** eval_member_expr: a read through lookObj, or the write of an assignment's value. */
  method EvalMemberExpr(h: Heap, env: nat, node: Option<Node>, expr: Option<Node>, fuel: nat) returns (r: Result<Value, RuntimeError>)
    requires node.Some? ==> node.value.AssignmentExpr?
    modifies h
    ensures (r, h.State()) == Semantics.EvalMemberExpr(old(h.State()), env, node, expr, fuel)
    decreases fuel, Semantics.OptionSize(node) + Semantics.OptionSize(expr), 0
  {
    if expr.Some? {
      r := h.LookObj(env, expr.value, None, None);
    } else if node.Some? {
      var v := Evaluate(h, node.value.value, env, fuel);
      if v.Err? {
        return v;
      }
      r := h.LookObj(env, node.value.assigne, Some(v.value), None);
    } else {
      r := Err(NotAnObject);
    }
  }

  /** eval_assignment */
  method EvalAssignment(h: Heap, n: Node, env: nat, fuel: nat) returns (r: Result<Value, RuntimeError>)
    requires n.AssignmentExpr?
    modifies h
    ensures (r, h.State()) == Semantics.EvalAssignment(old(h.State()), n, env, fuel)
    decreases fuel, Size(n), 0
  {
    if !n.assigne.Identifier? {
      return Err(InvalidAssignmentTarget);
    }
    var v := Evaluate(h, n.value, env, fuel);
    if v.Err? {
      return v;
    }
    r := h.AssignVar(env, n.assigne.symbol, v.value);
  }

  /** evaluate_program: the statements in order, keeping the last value. */
  method EvaluateProgram(h: Heap, n: Node, env: nat, fuel: nat) returns (r: Result<Value, RuntimeError>)
    requires n.Program?
    modifies h
    ensures (r, h.State()) == Semantics.EvaluateProgram(old(h.State()), n, env, fuel)
    decreases fuel, Size(n), 0
  {
    ghost var st0 := h.State();
    var lastEvaluated := MkNull();
    var i := 0;
    while i < |n.body|
      invariant 0 <= i <= |n.body|
      invariant Semantics.EvalSeq(st0, n.body, env, fuel, MkNull()) == Semantics.EvalSeq(h.State(), n.body[i..], env, fuel, lastEvaluated)
    {
      SizeSeqElement(n.body, i);
      assert n.body[i..][0] == n.body[i] && n.body[i..][1..] == n.body[i + 1..];
      var v := Evaluate(h, n.body[i], env, fuel);
      if v.Err? {
        return v;
      }
      lastEvaluated := v.value;
      i := i + 1;
    }
    assert n.body[i..] == [];
    r := Ok(lastEvaluated);
  }

  /** eval_var_declaration */
  method EvalVarDeclaration(h: Heap, n: Node, env: nat, fuel: nat) returns (r: Result<Value, RuntimeError>)
    requires n.VariableDeclaration?
    modifies h
    ensures (r, h.State()) == Semantics.EvalVarDeclaration(old(h.State()), n, env, fuel)
    decreases fuel, Size(n), 0
  {
    var value := MkNull();
    if n.initializer.Some? {
      var v := Evaluate(h, n.initializer.value, env, fuel);
      if v.Err? {
        return v;
      }
      value := v.value;
    }
    r := h.DeclareVar(env, n.identifier, value, n.isConstant);
  }

  /** eval_func_declaration */
  method EvalFuncDeclaration(h: Heap, n: Node, env: nat) returns (r: Result<Value, RuntimeError>)
    requires n.FunctionDeclaration?
    modifies h
    ensures (r, h.State()) == Semantics.EvalFuncDeclaration(old(h.State()), n, env)
  {
    r := h.DeclareVar(env, n.name, UserFn(n.params, n.name, env, n.body), true);
  }
}
