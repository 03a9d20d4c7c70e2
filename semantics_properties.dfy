/** What the evaluator promises: the dispatch, the handlers' order of evaluation and results,
    the call frame of a user function, object literals, and the constant function names. */
module SemanticsProperties {
  import opened Wrappers
  import opened Ast
  import opened Values
  import opened Scopes
  import opened ScopesProperties
  import opened Operators
  import opened Semantics

  /** Literals evaluate to their own value and leave the store as it was. */
  lemma LiteralsEvaluateInPlace(st: Store, env: nat, fuel: nat, x: real, s: string)
    ensures Eval(st, NumericLiteral(x), env, fuel) == (Ok(NumberVal(x)), st)
    ensures Eval(st, StringLiteral(s), env, fuel) == (Ok(StringVal(s)), st)
  {
  }

  /** An identifier is read through lookFor; a member expression through lookObj with no value,
      which changes nothing. */
  lemma ReadsChangeNothing(st: Store, n: Node, env: nat, fuel: nat)
    requires n.Identifier? || n.MemberExpr?
    ensures n.Identifier? ==> Eval(st, n, env, fuel) == (LookFor(st.scopes, env, n.symbol), st)
    ensures n.MemberExpr? ==> Eval(st, n, env, fuel) == LookObj(st, env, n, None, None)
    ensures Eval(st, n, env, fuel).1 == st
  {
    if n.MemberExpr? {
      LookObjReadOnly(st, env, n, None);
    }
  }

  /** The kinds `evaluate` has no case for fail and change nothing; among them is `NullLiteral`,
      which the parser produces for `null`. */
  lemma UnimplementedKindsFail(st: Store, n: Node, env: nat, fuel: nat)
    requires n.NullLiteral? || n.IfStatement? || n.UnaryExpr? || n.RelationalExpr? || n.PropertyNode?
    ensures Eval(st, n, env, fuel) == (Err(NotImplemented), st)
  {
  }

  /** evaluate_program and a user function's body: the last statement's value, or the starting
      value for an empty list; a statement that throws ends the list. */
  lemma {:induction false} EvalSeqAppend(st: Store, s: seq<Node>, x: Node, env: nat, fuel: nat, last: Value)
    ensures EvalSeq(st, [], env, fuel, last) == (Ok(last), st)
    ensures var (v, st1) := EvalSeq(st, s, env, fuel, last);
      EvalSeq(st, s + [x], env, fuel, last) == if v.Err? then (v, st1) else Eval(st1, x, env, fuel)
    decreases |s|
  {
    if s == [] {
      assert [] + [x] == [x];
      assert [x][1..] == [];
    } else {
      assert (s + [x])[0] == s[0] && (s + [x])[1..] == s[1..] + [x];
      var (v0, st0) := Eval(st, s[0], env, fuel);
      if v0.Ok? {
        EvalSeqAppend(st0, s[1..], x, env, fuel, v0.value);
        assert EvalSeq(st, s + [x], env, fuel, last) == EvalSeq(st0, s[1..] + [x], env, fuel, v0.value);
        assert EvalSeq(st, s, env, fuel, last) == EvalSeq(st0, s[1..], env, fuel, v0.value);
      }
    }
  }

  /** A program's value is its last statement's, evaluated after all earlier ones in the same
      scope; the empty program is `null`. */
  lemma ProgramValueIsLast(st: Store, body: seq<Node>, x: Node, env: nat, fuel: nat)
    ensures Eval(st, Program([]), env, fuel) == (Ok(NullVal), st)
    ensures var (v, st1) := Eval(st, Program(body), env, fuel);
      Eval(st, Program(body + [x]), env, fuel) == if v.Err? then (v, st1) else Eval(st1, x, env, fuel)
  {
    EvalSeqAppend(st, body, x, env, fuel, NullVal);
  }

  /** The left operand is evaluated first; if it throws, the right one is never evaluated. */
  lemma BinaryLeftFirst(st: Store, l: Node, r: Node, op: string, env: nat, fuel: nat)
    requires Eval(st, l, env, fuel).0.Err?
    ensures Eval(st, BinaryExpr(l, r, op), env, fuel) == Eval(st, l, env, fuel)
  {
  }

  /** Two numbers give the numeric operation; operands that are not both numbers give `null`. */
  lemma BinaryOnValues(st: Store, l: Node, r: Node, op: string, env: nat, fuel: nat)
    requires Eval(st, l, env, fuel).0.Ok?
    requires Eval(Eval(st, l, env, fuel).1, r, env, fuel).0.Ok?
    ensures var (a, st1) := Eval(st, l, env, fuel);
      var (b, st2) := Eval(st1, r, env, fuel);
      (a.value.NumberVal? && b.value.NumberVal? ==>
         Eval(st, BinaryExpr(l, r, op), env, fuel) == (EvaluateNumericBinaryExpr(a.value, b.value, op), st2)) &&
      (!a.value.Undefined? && !b.value.Undefined? && !(a.value.NumberVal? && b.value.NumberVal?) ==>
         Eval(st, BinaryExpr(l, r, op), env, fuel) == (Ok(NullVal), st2))
  {
  }

  /** `2 + 3 * 4` is 14. */
  lemma ArithmeticExample(st: Store, env: nat, fuel: nat)
    ensures Eval(st, BinaryExpr(NumericLiteral(2.0), BinaryExpr(NumericLiteral(3.0), NumericLiteral(4.0), "*"), "+"), env, fuel)
         == (Ok(NumberVal(14.0)), st)
  {
    var inner := BinaryExpr(NumericLiteral(3.0), NumericLiteral(4.0), "*");
    NumericBinaryDispatch(3.0, 4.0, "*");
    assert BinaryOperands(NumberVal(3.0), NumberVal(4.0), "*") == Ok(NumberVal(12.0));
    assert Eval(st, NumericLiteral(3.0), env, fuel) == (Ok(NumberVal(3.0)), st);
    assert Eval(st, NumericLiteral(4.0), env, fuel) == (Ok(NumberVal(4.0)), st);
    assert Eval(st, inner, env, fuel) == (Ok(NumberVal(12.0)), st);
    NumericBinaryDispatch(2.0, 12.0, "+");
    assert BinaryOperands(NumberVal(2.0), NumberVal(12.0), "+") == Ok(NumberVal(14.0));
    assert Eval(st, NumericLiteral(2.0), env, fuel) == (Ok(NumberVal(2.0)), st);
  }

  /** Only an identifier can be assigned: any other target throws before the value is
      evaluated; an identifier target evaluates the value and goes through assignVar. */
  lemma AssignmentTargets(st: Store, target: Node, value: Node, env: nat, fuel: nat)
    ensures !target.Identifier? ==>
      Eval(st, AssignmentExpr(target, value), env, fuel) == (Err(InvalidAssignmentTarget), st)
    ensures target.Identifier? && Eval(st, value, env, fuel).0.Ok? ==>
      var (v, st1) := Eval(st, value, env, fuel);
      Eval(st, AssignmentExpr(target, value), env, fuel) == AssignVar(st1, env, target.symbol, v.value)
  {
  }

  /** A declaration without an initializer binds `null`, with the declaration's constness, in
      this very scope, and returns it. */
  lemma VarDeclarationWithoutValue(st: Store, isConstant: bool, x: string, env: nat, fuel: nat)
    requires env < |st.scopes| && x !in st.scopes[env].variables
    ensures var (r, st2) := Eval(st, VariableDeclaration(isConstant, x, None), env, fuel);
      r == Ok(NullVal) && st2.scopes[env].variables == st.scopes[env].variables[x := NullVal] &&
      (x in st2.scopes[env].constants <==> isConstant || x in st.scopes[env].constants) &&
      LookFor(st2.scopes, env, x) == Ok(NullVal)
  {
    DeclareVarSpec(st, env, x, NullVal, isConstant);
  }

  /** A function declaration closes over the defining scope, returns the function value and
      binds its name as a constant: declaring or assigning it again in that scope fails. */
  lemma FunctionNameIsConstant(st: Store, params: seq<string>, name: string, body: seq<Node>, env: nat, fuel: nat, v: Value, c: bool)
    requires env < |st.scopes| && name !in st.scopes[env].variables
    ensures var (r, st2) := Eval(st, FunctionDeclaration(params, name, body), env, fuel);
      r == Ok(UserFn(params, name, env, body)) &&
      LookFor(st2.scopes, env, name) == r &&
      DeclareVar(st2, env, name, v, c) == (Err(AlreadyDeclared), st2) &&
      AssignVar(st2, env, name, v) == (Err(ConstantReassignment), st2)
  {
    DeclareVarSpec(st, env, name, UserFn(params, name, env, body), true);
  }

  /** A value that is neither kind of function cannot be called. */
  lemma CallNonFunction(st: Store, f: Value, args: seq<Value>, fuel: nat)
    requires !f.InternalFn? && !f.UserFn? && !f.Undefined?
    ensures CallValue(st, f, args, fuel) == (Err(NotAFunction), st)
  {
  }

  /** The arguments are evaluated before the callee: an argument that throws ends the call
      before the callee is looked at. */
  lemma CallArgumentsFirst(st: Store, args: seq<Node>, caller: Node, env: nat, fuel: nat)
    requires EvalArgs(st, args, env, fuel, []).0.Err?
    ensures Eval(st, CallExpr(args, caller), env, fuel) == (Err(EvalArgs(st, args, env, fuel, []).0.error), EvalArgs(st, args, env, fuel, []).1)
  {
  }

  /** A native is applied to the argument values and changes nothing. */
  lemma NativeCall(st: Store, native: Native, args: seq<Value>, fuel: nat)
    ensures CallValue(st, InternalFn(native), args, fuel) == (CallNative(st, native, args), st)
    ensures forall v: Value :: !v.Undefined? ==> CallNative(st, TypeOf, [v] + args) == Ok(StringVal(Tag(v)))
    ensures |args| > 1 ==> CallNative(st, Yeet, args) == Err(YeetArity)
    ensures forall v: Value :: !v.Undefined? ==> CallNative(st, Yeet, [v]) == Err(Thrown(v))
    ensures CallNative(st, Yeet, []) == Ok(NullVal)
  {
  }

  /** The parameters from position `i` have distinct names. */
  predicate DistinctFrom(params: seq<string>, i: nat) {
    forall a, b :: i <= a < b < |params| ==> params[a] != params[b]
  }

  /** The parameter loop from position `i` succeeds exactly when the remaining names are
      distinct and unbound in the scope; it then binds each of them, mutable, to the argument
      at its position (`undefined` for a missing one, excess arguments ignored) and changes
      nothing else.  Otherwise declareVar fails on a name already bound. */
  lemma {:induction false} BindParamsSpec(st: Store, scope: nat, params: seq<string>, args: seq<Value>, i: nat)
    requires scope < |st.scopes| && i <= |params|
    ensures var (e, st2) := BindParams(st, scope, params, args, i);
      (e.None? <==> DistinctFrom(params, i) && forall k :: i <= k < |params| ==> params[k] !in st.scopes[scope].variables) &&
      (e.Some? ==> e.value == AlreadyDeclared) &&
      (e.None? ==>
        st2.objects == st.objects && |st2.scopes| == |st.scopes| &&
        (forall j :: 0 <= j < |st.scopes| && j != scope ==> st2.scopes[j] == st.scopes[j]) &&
        st2.scopes[scope].parent == st.scopes[scope].parent &&
        st2.scopes[scope].constants == st.scopes[scope].constants &&
        (forall x :: x in st2.scopes[scope].variables <==> x in st.scopes[scope].variables || x in params[i..]) &&
        (forall x :: x in st.scopes[scope].variables ==> st2.scopes[scope].variables[x] == st.scopes[scope].variables[x]) &&
        (forall k :: i <= k < |params| ==> st2.scopes[scope].variables[params[k]] == ArgAt(args, k)))
    decreases |params| - i
  {
    if i < |params| {
      var name := params[i];
      var (r1, st1) := DeclareVar(st, scope, name, ArgAt(args, i), false);
      DeclareVarSpec(st, scope, name, ArgAt(args, i), false);
      if r1.Ok? {
        BindParamsSpec(st1, scope, params, args, i + 1);
        var (e, st2) := BindParams(st1, scope, params, args, i + 1);
        assert BindParams(st, scope, params, args, i) == (e, st2);
        assert params[i..] == [name] + params[i + 1..];
        if DistinctFrom(params, i) && forall k :: i <= k < |params| ==> params[k] !in st.scopes[scope].variables {
          forall k | i + 1 <= k < |params|
            ensures params[k] !in st1.scopes[scope].variables
          {
            assert params[k] != params[i];
          }
        }
        if e.None? {
          assert forall k :: i + 1 <= k < |params| ==> params[k] != name;
        }
      }
    }
  }

  /** The scope a user-function call runs its body in, as it stands once the parameters are
      bound: a new last scope whose parent is the declaration scope `d`, holding exactly the
      parameters, each mutable and bound to the argument at its position. */
  ghost predicate CallFrame(st: Store, st2: Store, params: seq<string>, d: nat, args: seq<Value>) {
    var frame := |st.scopes|;
    |st2.scopes| == frame + 1 && st2.scopes[..frame] == st.scopes && st2.objects == st.objects &&
    st2.scopes[frame].parent == Some(d) && st2.scopes[frame].constants == {} &&
    (forall x :: x in st2.scopes[frame].variables <==> x in params) &&
    (forall k :: 0 <= k < |params| ==> st2.scopes[frame].variables[params[k]] == ArgAt(args, k))
  }

  /** A user-function call runs its body in a fresh scope whose parent is the function's
      declaration scope (the caller's scope plays no part), with the parameters bound mutable
      by position; a repeated parameter name fails through declareVar. */
  lemma UserCallFrame(st: Store, params: seq<string>, name: string, d: nat, body: seq<Node>, args: seq<Value>, fuel: nat)
    requires fuel > 0 && d < |st.scopes|
    ensures DistinctFrom(params, 0) ==>
      exists st2: Store :: CallFrame(st, st2, params, d, args) &&
        CallValue(st, UserFn(params, name, d, body), args, fuel) == EvalSeq(st2, body, |st.scopes|, fuel - 1, NullVal)
    ensures !DistinctFrom(params, 0) ==>
      CallValue(st, UserFn(params, name, d, body), args, fuel).0 == Err(AlreadyDeclared)
  {
    var (frame, st1) := NewEnvironment(st, Some(d));
    BindParamsSpec(st1, frame, params, args, 0);
    var (e, st2) := BindParams(st1, frame, params, args, 0);
    assert params[0..] == params;
    if e.None? {
      assert st2.scopes[..frame] == st.scopes by {
        assert forall j :: 0 <= j < frame ==> st2.scopes[j] == st1.scopes[j];
      }
      assert CallFrame(st, st2, params, d, args);
      assert CallValue(st, UserFn(params, name, d, body), args, fuel) == EvalSeq(st2, body, frame, fuel - 1, NullVal);
    }
  }

  /** A property whose value needs nothing evaluated beyond a scope lookup: a shorthand `key`,
      a number or string literal, or an identifier. */
  predicate SimpleProperty(p: Property) {
    p.value.None? || p.value.value.NumericLiteral? || p.value.value.StringLiteral? || p.value.value.Identifier?
  }

  predicate SimpleProperties(props: seq<Property>) {
    forall i :: 0 <= i < |props| ==> SimpleProperty(props[i])
  }

  /** The value a simple property puts under its key: a shorthand `key` reads `key` through
      lookFor, an identifier reads its own name, a literal is its own value. */
  function PropertyValue(scopes: seq<Scope>, env: nat, p: Property): (r: Result<Value, RuntimeError>)
    requires SimpleProperty(p)
    ensures p.value.Some? && !p.value.value.Identifier? ==> r.Ok? && !r.value.Undefined?
  {
    if p.value.None? then LookFor(scopes, env, p.key)
    else if p.value.value.NumericLiteral? then Ok(NumberVal(p.value.value.number))
    else if p.value.value.StringLiteral? then Ok(StringVal(p.value.value.text))
    else LookFor(scopes, env, p.value.value.symbol)
  }

  /** The map an object literal of simple properties describes: keys set in source order into
      `m`, stopping at the first value that fails, with that error. */
  function Fill(scopes: seq<Scope>, env: nat, m: map<string, Value>, props: seq<Property>): (Option<RuntimeError>, map<string, Value>)
    requires SimpleProperties(props)
    decreases |props|
  {
    if props == [] then (None, m)
    else
      match PropertyValue(scopes, env, props[0])
      case Err(e) => (Some(e), m)
      case Ok(v) => Fill(scopes, env, m[props[0].key := v], props[1..])
  }

  /** Filling fails exactly when one of the values fails, and then with the error of the first
      one that does. */
  lemma {:induction false} FillFailsAtFirst(scopes: seq<Scope>, env: nat, m: map<string, Value>, props: seq<Property>)
    requires SimpleProperties(props)
    ensures Fill(scopes, env, m, props).0.None? <==> forall i :: 0 <= i < |props| ==> PropertyValue(scopes, env, props[i]).Ok?
    ensures Fill(scopes, env, m, props).0.Some? ==>
      exists i :: 0 <= i < |props| &&
        PropertyValue(scopes, env, props[i]) == Err(Fill(scopes, env, m, props).0.value) &&
        forall k :: 0 <= k < i ==> PropertyValue(scopes, env, props[k]).Ok?
    decreases |props|
  {
    if props != [] {
      assert SimpleProperties(props[1..]);
      match PropertyValue(scopes, env, props[0])
      case Err(e) =>
      case Ok(v) =>
        var m1 := m[props[0].key := v];
        FillFailsAtFirst(scopes, env, m1, props[1..]);
        assert forall i :: 0 < i < |props| ==> props[i] == props[1..][i - 1];
        if Fill(scopes, env, m, props).0.Some? {
          var i :| 0 <= i < |props[1..]| && PropertyValue(scopes, env, props[1..][i]) == Err(Fill(scopes, env, m, props).0.value) &&
            forall k :: 0 <= k < i ==> PropertyValue(scopes, env, props[1..][k]).Ok?;
          assert PropertyValue(scopes, env, props[i + 1]) == Err(Fill(scopes, env, m, props).0.value);
        }
    }
  }

  /** When filling succeeds its keys are the old ones and the literal's; a key keeps the value
      of its last occurrence, and a key the literal does not name keeps its old value. */
  lemma {:induction false} FillLastWins(scopes: seq<Scope>, env: nat, m: map<string, Value>, props: seq<Property>, j: nat, x: string)
    requires SimpleProperties(props)
    ensures var (e, mm) := Fill(scopes, env, m, props);
      e.None? ==> (x in mm <==> x in m || exists i :: 0 <= i < |props| && props[i].key == x)
    ensures var (e, mm) := Fill(scopes, env, m, props);
      e.None? && (forall i :: 0 <= i < |props| ==> props[i].key != x) && x in m ==> mm[x] == m[x]
    ensures var (e, mm) := Fill(scopes, env, m, props);
      e.None? && j < |props| && (forall i :: j < i < |props| ==> props[i].key != props[j].key) ==>
        props[j].key in mm && Ok(mm[props[j].key]) == PropertyValue(scopes, env, props[j])
    decreases |props|
  {
    if props != [] && PropertyValue(scopes, env, props[0]).Ok? {
      var m1 := m[props[0].key := PropertyValue(scopes, env, props[0]).value];
      assert SimpleProperties(props[1..]);
      FillLastWins(scopes, env, m1, props[1..], if j > 0 then j - 1 else 0, x);
      if j > 0 && j < |props| {
        assert props[1..][j - 1] == props[j];
        FillLastWins(scopes, env, m1, props[1..], j - 1, props[j].key);
      } else if j == 0 && (forall i :: j < i < |props| ==> props[i].key != props[j].key) {
        FillLastWins(scopes, env, m1, props[1..], 0, props[0].key);
        assert forall i :: 0 <= i < |props[1..]| ==> props[1..][i].key != props[0].key by {
          forall i | 0 <= i < |props[1..]|
            ensures props[1..][i].key != props[0].key
          {
            assert props[1..][i] == props[i + 1];
          }
        }
      }
      if exists i :: 0 <= i < |props| && props[i].key == x {
        var i :| 0 <= i < |props| && props[i].key == x;
        if i > 0 {
          assert props[1..][i - 1].key == x;
        }
      }
      if exists i :: 0 <= i < |props[1..]| && props[1..][i].key == x {
        var i :| 0 <= i < |props[1..]| && props[1..][i].key == x;
        assert props[i + 1].key == x;
      }
    }
  }

  /** The property loop on simple properties changes only object `ref`, which it fills. */
  lemma {:induction false} EvalPropsSimple(st: Store, props: seq<Property>, env: nat, fuel: nat, ref: nat)
    requires ref < |st.objects| && SimpleProperties(props)
    ensures var (e, mm) := Fill(st.scopes, env, st.objects[ref], props);
      EvalProps(st, props, env, fuel, ref) == (e, st.(objects := st.objects[ref := mm]))
    decreases |props|
  {
    if props == [] {
      assert st.objects[ref := st.objects[ref]] == st.objects;
    } else {
      var p := props[0];
      var v := PropertyValue(st.scopes, env, p);
      assert (if p.value.None? then (LookFor(st.scopes, env, p.key), st) else Eval(st, p.value.value, env, fuel)) == (v, st);
      assert SimpleProperties(props[1..]);
      if v.Err? {
        assert st.objects[ref := st.objects[ref]] == st.objects;
      } else {
        var st2 := st.(objects := st.objects[ref := st.objects[ref][p.key := v.value]]);
        EvalPropsSimple(st2, props[1..], env, fuel, ref);
        assert EvalProps(st, props, env, fuel, ref) == EvalProps(st2, props[1..], env, fuel, ref);
        var mm := Fill(st.scopes, env, st.objects[ref], props).1;
        assert st2.objects[ref := mm] == st.objects[ref := mm];
      }
    }
  }

  /** An object literal of simple properties is a fresh object holding the filled map, and fails
      with the first failing value, leaving the partly filled object behind.  So `{a, b: 1, a: 2}`
      fails unless `a` is bound, and otherwise has `a` equal to 2. */
  lemma ObjectLiteralIsFresh(st: Store, props: seq<Property>, env: nat, fuel: nat)
    requires SimpleProperties(props)
    ensures var (e, mm) := Fill(st.scopes, env, map[], props);
      Eval(st, ObjectLiteral(props), env, fuel) ==
        (if e.None? then Ok(ObjectVal(|st.objects|)) else Err(e.value), st.(objects := st.objects + [mm]))
  {
    var st1 := st.(objects := st.objects + [map[]]);
    EvalPropsSimple(st1, props, env, fuel, |st.objects|);
    var mm := Fill(st.scopes, env, map[], props).1;
    assert st1.objects[|st.objects| := mm] == st.objects + [mm];
  }

  /** A shorthand property `{ ..., key, ... }` whose key does not occur again takes the value
      lookFor finds for `key` in the current scope. */
  lemma ShorthandProperty(st: Store, props: seq<Property>, env: nat, fuel: nat, j: nat)
    requires SimpleProperties(props) && j < |props| && props[j].value.None?
    requires forall i :: j < i < |props| ==> props[i].key != props[j].key
    ensures var r := Eval(st, ObjectLiteral(props), env, fuel);
      r.0.Ok? ==> (LookFor(st.scopes, env, props[j].key).Ok? && r.0.value.ref < |r.1.objects| &&
        props[j].key in r.1.objects[r.0.value.ref] &&
        r.1.objects[r.0.value.ref][props[j].key] == LookFor(st.scopes, env, props[j].key).value)
  {
    ObjectLiteralIsFresh(st, props, env, fuel);
    FillLastWins(st.scopes, env, map[], props, j, props[j].key);
  }

  /** `{a, b: 1, a: 2}`: the shorthand `a` is looked up first, then `a` is overwritten by 2. */
  lemma MixedObjectLiteral(st: Store, env: nat, fuel: nat)
    ensures var r := Eval(st, ObjectLiteral([Property("a", None), Property("b", Some(NumericLiteral(1.0))), Property("a", Some(NumericLiteral(2.0)))]), env, fuel);
      (LookFor(st.scopes, env, "a").Err? ==> r == (Err(LookFor(st.scopes, env, "a").error), st.(objects := st.objects + [map[]]))) &&
      (LookFor(st.scopes, env, "a").Ok? ==> r == (Ok(ObjectVal(|st.objects|)), st.(objects := st.objects + [map["a" := NumberVal(2.0), "b" := NumberVal(1.0)]])))
  {
    var props := [Property("a", None), Property("b", Some(NumericLiteral(1.0))), Property("a", Some(NumericLiteral(2.0)))];
    ObjectLiteralIsFresh(st, props, env, fuel);
    assert props[1..][1..][1..] == [];
    if LookFor(st.scopes, env, "a").Ok? {
      var v := LookFor(st.scopes, env, "a").value;
      assert Fill(st.scopes, env, map[], props) == (None, map["a" := v]["b" := NumberVal(1.0)]["a" := NumberVal(2.0)]);
      assert map["a" := v]["b" := NumberVal(1.0)]["a" := NumberVal(2.0)] == map["a" := NumberVal(2.0), "b" := NumberVal(1.0)];
    }
  }

  /** Whatever the properties' values, the property loop only adds keys to object `ref`, and when
      it succeeds every key of the literal is there. */
  lemma {:induction false} EvalPropsKeys(st: Store, props: seq<Property>, env: nat, fuel: nat, ref: nat)
    requires ref < |st.objects|
    ensures var r := EvalProps(st, props, env, fuel, ref);
      ref < |r.1.objects| && st.objects[ref].Keys <= r.1.objects[ref].Keys &&
      (r.0.None? ==> forall i :: 0 <= i < |props| ==> props[i].key in r.1.objects[ref])
    decreases |props|
  {
    if props != [] {
      var p := props[0];
      var (v, st1) := if p.value.None? then (LookFor(st.scopes, env, p.key), st) else Eval(st, p.value.value, env, fuel);
      if v.Ok? {
        var st2 := st1.(objects := st1.objects[ref := st1.objects[ref][p.key := v.value]]);
        EvalPropsKeys(st2, props[1..], env, fuel, ref);
        assert EvalProps(st, props, env, fuel, ref) == EvalProps(st2, props[1..], env, fuel, ref);
        assert forall i :: 0 < i < |props| ==> props[i] == props[1..][i - 1];
      }
    }
  }

  /** So an object literal that evaluates gives a fresh object holding at least its own keys. */
  lemma ObjectLiteralHasItsKeys(st: Store, props: seq<Property>, env: nat, fuel: nat)
    ensures var r := Eval(st, ObjectLiteral(props), env, fuel);
      r.0.Ok? ==> (r.0.value == ObjectVal(|st.objects|) && |st.objects| < |r.1.objects| &&
        forall i :: 0 <= i < |props| ==> props[i].key in r.1.objects[|st.objects|])
  {
    EvalPropsKeys(st.(objects := st.objects + [map[]]), props, env, fuel, |st.objects|);
  }

  /** Evaluation never breaks the scope links: every parent chain still ends. */
  lemma EvalKeepsLinked(st: Store, n: Node, env: nat, fuel: nat)
    requires Linked(st.scopes)
    ensures Linked(Eval(st, n, env, fuel).1.scopes)
    ensures |Eval(st, n, env, fuel).1.scopes| >= |st.scopes| && |Eval(st, n, env, fuel).1.objects| >= |st.objects|
  {
  }
}
