/** What runtime/interpreter.ts and the two files of runtime/evals compute, as pure functions over a store.
    `Eval` is the `evaluate` dispatch; each handler is the `eval_*` function of the same name.
    Every function returns its result together with the store after the step, so both the
    value and the effects of a step that throws are specified.  Only a call to a user function
    spends fuel; running out of it stands for the host's stack overflow. */
module Semantics {
  import opened Wrappers
  import opened Ast
  import opened Values
  import opened Scopes
  import opened Operators

  /** An error, if one was thrown, and the store after the step. */
  type Effect = (Option<RuntimeError>, Store)

  /** The argument values evaluated so far, or the error one of them threw, and the store. */
  type ArgsOutcome = (Result<seq<Value>, RuntimeError>, Store)

  /** evaluate: the `switch` on the node kind. */
  function Eval(st: Store, n: Node, env: nat, fuel: nat): (r: Outcome)
    ensures Extends(st, r.1)
    decreases fuel, Size(n), 1
  {
    match n
    case NumericLiteral(x) => (Ok(NumberVal(x)), st)
    case StringLiteral(s) => (Ok(StringVal(s)), st)
    case Identifier(_) => EvalIdentifier(st, n, env)
    case ObjectLiteral(_) => EvalObjectExpr(st, n, env, fuel)
    case CallExpr(_, _) => EvalCallExpr(st, n, env, fuel)
    case MemberExpr(_, _, _) => EvalMemberExpr(st, env, None, Some(n), fuel)
    case AssignmentExpr(_, _) => EvalAssignment(st, n, env, fuel)
    case BinaryExpr(_, _, _) => EvaluateBinaryExpr(st, n, env, fuel)
    case Program(_) => EvaluateProgram(st, n, env, fuel)
    case VariableDeclaration(_, _, _) => EvalVarDeclaration(st, n, env, fuel)
    case FunctionDeclaration(_, _, _) => EvalFuncDeclaration(st, n, env)
    case _ => (Err(NotImplemented), st)
  }

  /** evaluate_binary_expr: the left operand, then the right, then the tag test. */
  function EvaluateBinaryExpr(st: Store, n: Node, env: nat, fuel: nat): (r: Outcome)
    requires n.BinaryExpr?
    ensures Extends(st, r.1)
    ensures r.0.Ok? ==> r.0.value.NumberVal? || r.0.value.NullVal?
    decreases fuel, Size(n), 0
  {
    var (lhs, st1) := Eval(st, n.lhs, env, fuel);
    match lhs
    case Err(e) => (Err(e), st1)
    case Ok(l) =>
      var (rhs, st2) := Eval(st1, n.rhs, env, fuel);
      match rhs
      case Err(e) => (Err(e), st2)
      case Ok(r) => (BinaryOperands(l, r, n.operator), st2)
  }

  /** eval_idenifier */
  function EvalIdentifier(st: Store, n: Node, env: nat): (r: Outcome)
    requires n.Identifier?
    ensures r.1 == st
  {
    (LookFor(st.scopes, env, n.symbol), st)
  }

  /** eval_object_expr: a fresh, empty object, then its properties in source order. */
  function EvalObjectExpr(st: Store, n: Node, env: nat, fuel: nat): (r: Outcome)
    requires n.ObjectLiteral?
    ensures Extends(st, r.1) && |r.1.objects| > |st.objects|
    ensures r.0.Ok? ==> r.0.value == ObjectVal(|st.objects|)
    decreases fuel, Size(n), 0
  {
    var ref := |st.objects|;
    var st1 := st.(objects := st.objects + [map[]]);
    match EvalProps(st1, n.properties, env, fuel, ref)
    case (Some(e), st2) => (Err(e), st2)
    case (None, st2) => (Ok(ObjectVal(ref)), st2)
  }

  /** The loop of eval_object_expr: each property's value (or, for a shorthand `key`, the
      value `key` names) is set under its key in object `ref`. */
  function EvalProps(st: Store, props: seq<Property>, env: nat, fuel: nat, ref: nat): (r: Effect)
    requires ref < |st.objects|
    ensures Extends(st, r.1)
    decreases fuel, PropertiesSize(props), 2
  {
    if props == [] then (None, st)
    else
      var p := props[0];
      var (v, st1) := if p.value.None? then (LookFor(st.scopes, env, p.key), st) else Eval(st, p.value.value, env, fuel);
      match v
      case Err(e) => (Some(e), st1)
      case Ok(x) =>
        var st2 := st1.(objects := st1.objects[ref := st1.objects[ref][p.key := x]]);
        EvalProps(st2, props[1..], env, fuel, ref)
  }

  /** `expr.args.map(arg => evaluate(arg, env))`, left to right, after the values in `acc`. */
  function EvalArgs(st: Store, args: seq<Node>, env: nat, fuel: nat, acc: seq<Value>): (r: ArgsOutcome)
    ensures Extends(st, r.1)
    ensures r.0.Ok? ==> |r.0.value| == |acc| + |args| && r.0.value[..|acc|] == acc
    decreases fuel, SizeSeq(args), 2
  {
    if args == [] then (Ok(acc), st)
    else
      var (v, st1) := Eval(st, args[0], env, fuel);
      match v
      case Err(e) => (Err(e), st1)
      case Ok(x) => EvalArgs(st1, args[1..], env, fuel, acc + [x])
  }

  /** eval_call_expr: all arguments, then the callee, then the call. */
  function EvalCallExpr(st: Store, n: Node, env: nat, fuel: nat): (r: Outcome)
    requires n.CallExpr?
    ensures Extends(st, r.1)
    decreases fuel, Size(n), 0
  {
    var (args, st1) := EvalArgs(st, n.args, env, fuel, []);
    match args
    case Err(e) => (Err(e), st1)
    case Ok(vs) =>
      var (callee, st2) := Eval(st1, n.caller, env, fuel);
      match callee
      case Err(e) => (Err(e), st2)
      case Ok(f) => CallValue(st2, f, vs, fuel)
  }

  /** The argument a parameter at position `i` receives: `undefined` past the end. */
  function ArgAt(args: seq<Value>, i: nat): (v: Value)
    ensures i < |args| ==> v == args[i]
    ensures i >= |args| ==> v.Undefined?
  {
    if i < |args| then args[i] else Undefined
  }

  /** The call on the callee's value: a native is applied to the arguments, a user function's
      body runs in a fresh scope whose parent is its declaration scope, and anything else is
      not callable (`undefined` has no `type` to test). */
  function CallValue(st: Store, f: Value, args: seq<Value>, fuel: nat): (r: Outcome)
    ensures Extends(st, r.1)
    ensures f.InternalFn? ==> r.1 == st
    ensures !f.InternalFn? && !f.UserFn? ==> r.0.Err? && r.1 == st
    ensures f.UserFn? && fuel > 0 && f.declarationEnv < |st.scopes| ==> |r.1.scopes| > |st.scopes|
    decreases fuel, 0, 3
  {
    if f.InternalFn? then (CallNative(st, f.native, args), st)
    else if f.UserFn? then
      if fuel == 0 then (Err(OutOfFuel), st)
      else if f.declarationEnv >= |st.scopes| then (Err(DanglingReference), st)
      else
        var (scope, st1) := NewEnvironment(st, Some(f.declarationEnv));
        match BindParams(st1, scope, f.params, args, 0)
        case (Some(e), st2) => (Err(e), st2)
        case (None, st2) => EvalSeq(st2, f.body, scope, fuel - 1, MkNull())
    else if f.Undefined? then (Err(HostTypeError), st)
    else (Err(NotAFunction), st)
  }

  /** The parameter loop of eval_call_expr from position `i`: each parameter is declared, not
      constant, with the argument at its position. */
  function BindParams(st: Store, scope: nat, params: seq<string>, args: seq<Value>, i: nat): (r: Effect)
    ensures Extends(st, r.1) && r.1.objects == st.objects && |r.1.scopes| == |st.scopes|
    decreases |params| - i
  {
    if i >= |params| then (None, st)
    else
      match DeclareVar(st, scope, params[i], ArgAt(args, i), false)
      case (Err(e), st1) => (Some(e), st1)
      case (Ok(_), st1) => BindParams(st1, scope, params, args, i + 1)
  }

  /** The four natives of createGlobalEnv.  `yell` only prints, but reading the tag of an
      `undefined` argument throws; `yeet` checks its arity and throws its argument; `typeof`
      gives its first argument's tag; `getCurtime` reads the clock. */
  function CallNative(st: Store, native: Native, args: seq<Value>): (r: Result<Value, RuntimeError>)
    ensures native.TypeOf? && r.Ok? ==> r.value.StringVal? && |args| > 0 && !args[0].Undefined? && r.value.str == Tag(args[0])
    ensures native.Yeet? ==> (r.Err? <==> |args| > 0)
    ensures native.Yeet? && |args| > 1 ==> r == Err(YeetArity)
    ensures native.Yell? ==> (r.Ok? <==> forall i :: 0 <= i < |args| ==> !args[i].Undefined?)
    ensures native.GetCurtime? ==> r == Ok(NumberVal(st.clock))
  {
    match native
    case Yell => if exists i :: 0 <= i < |args| && args[i].Undefined? then Err(HostTypeError) else Ok(MkNull())
    case Yeet =>
      if |args| > 1 then Err(YeetArity)
      else if |args| == 1 then (if args[0].Undefined? then Err(HostTypeError) else Err(Thrown(args[0])))
      else Ok(MkNull())
    case TypeOf => if |args| == 0 || args[0].Undefined? then Err(HostTypeError) else Ok(StringVal(Tag(args[0])))
    case GetCurtime => Ok(MkNum(st.clock))
  }

  /** A statement list evaluated in order in one scope; the value is the last statement's, or
      `last` for an empty list.  The body loop of eval_call_expr and evaluate_program both run
      this. */
  function EvalSeq(st: Store, stmts: seq<Node>, env: nat, fuel: nat, last: Value): (r: Outcome)
    ensures Extends(st, r.1)
    decreases fuel, SizeSeq(stmts), 2
  {
    if stmts == [] then (Ok(last), st)
    else
      var (v, st1) := Eval(st, stmts[0], env, fuel);
      match v
      case Err(e) => (Err(e), st1)
      case Ok(x) => EvalSeq(st1, stmts[1..], env, fuel, x)
  }

  /** The size of an optional node, for eval_member_expr's measure. */
  function OptionSize(n: Option<Node>): nat {
    if n.Some? then Size(n.value) else 0
  }

  /** eval_member_expr: a member expression is read through lookObj; an assignment to a member
      evaluates the value and writes it through lookObj; with neither, it throws. */
  function EvalMemberExpr(st: Store, env: nat, node: Option<Node>, expr: Option<Node>, fuel: nat): (r: Outcome)
    requires node.Some? ==> node.value.AssignmentExpr?
    ensures Extends(st, r.1)
    decreases fuel, OptionSize(node) + OptionSize(expr), 0
  {
    if expr.Some? then LookObj(st, env, expr.value, None, None)
    else if node.Some? then
      var (v, st1) := Eval(st, node.value.value, env, fuel);
      match v
      case Err(e) => (Err(e), st1)
      case Ok(x) => LookObj(st1, env, node.value.assigne, Some(x), None)
    else (Err(NotAnObject), st)
  }

  /** eval_assignment: only an identifier can be assigned; the value is evaluated first. */
  function EvalAssignment(st: Store, n: Node, env: nat, fuel: nat): (r: Outcome)
    requires n.AssignmentExpr?
    ensures Extends(st, r.1)
    ensures r.0.Ok? ==> n.assigne.Identifier? && |r.1.scopes| == |Eval(st, n.value, env, fuel).1.scopes|
    decreases fuel, Size(n), 0
  {
    if !n.assigne.Identifier? then (Err(InvalidAssignmentTarget), st)
    else
      var (v, st1) := Eval(st, n.value, env, fuel);
      match v
      case Err(e) => (Err(e), st1)
      case Ok(x) => AssignVar(st1, env, n.assigne.symbol, x)
  }

  /** evaluate_program: the body in order, starting from `null`. */
  function EvaluateProgram(st: Store, n: Node, env: nat, fuel: nat): (r: Outcome)
    requires n.Program?
    ensures Extends(st, r.1)
    decreases fuel, Size(n), 0
  {
    EvalSeq(st, n.body, env, fuel, MkNull())
  }

  /** eval_var_declaration: the initializer, or `null` without one, declared in this scope. */
  function EvalVarDeclaration(st: Store, n: Node, env: nat, fuel: nat): (r: Outcome)
    requires n.VariableDeclaration?
    ensures Extends(st, r.1)
    ensures r.0.Ok? ==>
      env < |r.1.scopes| && n.identifier in r.1.scopes[env].variables &&
      r.1.scopes[env].variables[n.identifier] == r.0.value &&
      (n.isConstant ==> n.identifier in r.1.scopes[env].constants)
    decreases fuel, Size(n), 0
  {
    if n.initializer.None? then DeclareVar(st, env, n.identifier, MkNull(), n.isConstant)
    else
      var (v, st1) := Eval(st, n.initializer.value, env, fuel);
      match v
      case Err(e) => (Err(e), st1)
      case Ok(x) => DeclareVar(st1, env, n.identifier, x, n.isConstant)
  }

  /** eval_func_declaration: a function value closing over this scope, declared constant. */
  function EvalFuncDeclaration(st: Store, n: Node, env: nat): (r: Outcome)
    requires n.FunctionDeclaration?
    ensures Extends(st, r.1) && r.1.objects == st.objects && |r.1.scopes| == |st.scopes|
  {
    DeclareVar(st, env, n.name, UserFn(n.params, n.name, env, n.body), true)
  }
}
