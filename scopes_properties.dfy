/** What the scope chain of runtime/environment.ts promises: where `resolve` stops, what
    `declareVar` and `assignVar` change and leave alone, shadowing, the constant globals, and
    member reads and writes through `lookObj`. */
module ScopesProperties {
  import opened Wrappers
  import opened Ast
  import opened Values
  import opened Scopes

  /** The chain from `env` starts at `env`, stays inside the arena, strictly descends, follows
      the parent links and ends at a root. */
  lemma {:induction false} ChainShape(scopes: seq<Scope>, env: nat)
    requires Linked(scopes) && env < |scopes|
    ensures var c := Chain(scopes, env);
      |c| >= 1 && c[0] == env &&
      (forall k :: 0 <= k < |c| ==> c[k] <= env && c[k] < |scopes|) &&
      (forall j, k :: 0 <= j < k < |c| ==> c[j] > c[k]) &&
      (forall k :: 0 <= k < |c| - 1 ==> scopes[c[k]].parent == Some(c[k + 1])) &&
      scopes[c[|c| - 1]].parent.None?
    decreases env
  {
    match scopes[env].parent
    case None =>
    case Some(p) =>
      ChainShape(scopes, p);
      var c := Chain(scopes, env);
      assert c == [env] + Chain(scopes, p);
      assert forall k :: 1 <= k < |c| ==> c[k] == Chain(scopes, p)[k - 1];
  }

  /** resolve returns the nearest scope on the parent chain that binds the name, and fails with
      "does not exist" exactly when no scope on the chain binds it. */
  lemma {:induction false} ResolveNearest(scopes: seq<Scope>, env: nat, name: string)
    requires Linked(scopes) && env < |scopes|
    ensures var c, r := Chain(scopes, env), Resolve(scopes, env, name);
      (r.Ok? <==> exists k :: 0 <= k < |c| && name in scopes[c[k]].variables) &&
      (r.Ok? ==> r.value in c && forall k :: 0 <= k < |c| && c[k] > r.value ==> name !in scopes[c[k]].variables) &&
      (r.Err? ==> r.error == UndefinedVariable)
    decreases env
  {
    ChainShape(scopes, env);
    var c := Chain(scopes, env);
    if name !in scopes[env].variables {
      match scopes[env].parent
      case None =>
        assert c == [env];
      case Some(p) =>
        ResolveNearest(scopes, p, name);
        assert c == [env] + Chain(scopes, p);
        assert forall k :: 1 <= k < |c| ==> c[k] == Chain(scopes, p)[k - 1];
        assert c[1..] == Chain(scopes, p);
    }
  }

  /** resolve depends only on the parent links and on which scopes bind the name. */
  lemma {:induction false} ResolveStable(sc: seq<Scope>, sc2: seq<Scope>, env: nat, name: string)
    requires |sc| == |sc2|
    requires forall i :: 0 <= i < |sc| ==> sc2[i].parent == sc[i].parent && (name in sc2[i].variables <==> name in sc[i].variables)
    ensures Resolve(sc2, env, name) == Resolve(sc, env, name)
    decreases env
  {
    if env < |sc| && name !in sc[env].variables && sc[env].parent.Some? && sc[env].parent.value < env {
      ResolveStable(sc, sc2, sc[env].parent.value, name);
    }
  }

  /** declareVar fails if and only if the scope itself already binds the name, and then changes
      nothing.  Otherwise it binds the name to the value in that scope alone, marks it constant
      only when asked, and returns the value. */
  lemma DeclareVarSpec(st: Store, env: nat, name: string, value: Value, isConstant: bool)
    requires env < |st.scopes|
    ensures var (r, st2) := DeclareVar(st, env, name, value, isConstant);
      (r.Err? <==> name in st.scopes[env].variables) &&
      (r.Err? ==> r.error == AlreadyDeclared && st2 == st) &&
      (r.Ok? ==>
        r.value == value &&
        st2.scopes[env].variables == st.scopes[env].variables[name := value] &&
        st2.scopes[env].parent == st.scopes[env].parent &&
        (isConstant ==> name in st2.scopes[env].constants) &&
        (!isConstant ==> st2.scopes[env].constants == st.scopes[env].constants) &&
        st2.scopes[env].constants - {name} == st.scopes[env].constants - {name} &&
        st2.objects == st.objects &&
        forall i :: 0 <= i < |st.scopes| && i != env ==> st2.scopes[i] == st.scopes[i])
  {
  }

  /** Only bound names are ever constant, so a name declared without `isConstant` is mutable. */
  lemma DeclareKeepsConstantsBound(st: Store, env: nat, name: string, value: Value, isConstant: bool)
    requires ConstantsBound(st.scopes)
    ensures var (r, st2) := DeclareVar(st, env, name, value, isConstant);
      ConstantsBound(st2.scopes) &&
      (r.Ok? ==> (name in st2.scopes[env].constants <==> isConstant))
  {
  }

  /** The chain depends only on the parent links. */
  lemma {:induction false} ChainStable(sc: seq<Scope>, sc2: seq<Scope>, env: nat)
    requires |sc| == |sc2| && forall i :: 0 <= i < |sc| ==> sc2[i].parent == sc[i].parent
    ensures Chain(sc2, env) == Chain(sc, env)
    decreases env
  {
    if env < |sc| && sc[env].parent.Some? && sc[env].parent.value < env {
      ChainStable(sc, sc2, sc[env].parent.value);
    }
  }

  /** A scope on the chain that binds the name, with no binder before it, is where resolve stops. */
  lemma {:induction false} ResolveToBinder(sc: seq<Scope>, d: nat, s: nat, name: string)
    requires Linked(sc) && d < |sc| && s in Chain(sc, d) && s < |sc| && name in sc[s].variables
    requires forall k :: 0 <= k < |Chain(sc, d)| && Chain(sc, d)[k] > s ==> name !in sc[Chain(sc, d)[k]].variables
    ensures Resolve(sc, d, name) == Ok(s)
    decreases d
  {
    ChainShape(sc, d);
    var c := Chain(sc, d);
    if d != s {
      assert c[0] == d && d > s;
      var p := sc[d].parent.value;
      assert c[1..] == Chain(sc, p);
      assert forall k :: 1 <= k < |c| ==> c[k] == Chain(sc, p)[k - 1];
      ResolveToBinder(sc, p, s, name);
    }
  }

  /** After declareVar binds `name` to `v` in scope `s`, lookFor finds `v` from `s` and from every
      descendant `d` of `s` whose chain binds `name` nowhere between `d` and `s`. */
  lemma LookForAfterDeclare(st: Store, s: nat, name: string, v: Value, isConstant: bool, d: nat)
    requires Linked(st.scopes) && d < |st.scopes|
    requires DeclareVar(st, s, name, v, isConstant).0.Ok?
    requires s in Chain(st.scopes, d)
    requires forall k :: 0 <= k < |Chain(st.scopes, d)| && Chain(st.scopes, d)[k] > s ==>
      name !in st.scopes[Chain(st.scopes, d)[k]].variables
    ensures LookFor(DeclareVar(st, s, name, v, isConstant).1.scopes, d, name) == Ok(v)
  {
    var sc2 := DeclareVar(st, s, name, v, isConstant).1.scopes;
    ChainStable(st.scopes, sc2, d);
    ResolveToBinder(sc2, d, s, name);
  }

  /** assignVar fails if and only if the name does not resolve or is constant where it resolves;
      then nothing changes.  Otherwise it changes only the resolving scope's binding for that
      name, returns the value, and lookFor then sees it. */
  lemma AssignVarSpec(st: Store, env: nat, name: string, value: Value)
    ensures var (r, st2) := AssignVar(st, env, name, value);
      var res := Resolve(st.scopes, env, name);
      (r.Err? <==> res.Err? || name in st.scopes[res.value].constants) &&
      (r.Err? ==> st2 == st && r.error == (if res.Err? then res.error else ConstantReassignment)) &&
      (r.Ok? ==>
        r.value == value &&
        st2.scopes[res.value].variables == st.scopes[res.value].variables[name := value] &&
        st2.scopes[res.value].constants == st.scopes[res.value].constants &&
        st2.scopes[res.value].parent == st.scopes[res.value].parent &&
        st2.objects == st.objects &&
        (forall i :: 0 <= i < |st.scopes| && i != res.value ==> st2.scopes[i] == st.scopes[i]) &&
        LookFor(st2.scopes, env, name) == Ok(value))
  {
    var (r, st2) := AssignVar(st, env, name, value);
    if r.Ok? {
      ResolveStable(st.scopes, st2.scopes, env, name);
    }
  }

  /** A child scope may declare a name that is constant in an ancestor; assigning it from the
      child then succeeds and leaves the ancestor's binding as it was, whereas before the
      declaration the same assignment failed. */
  lemma Shadowing(st: Store, c: nat, a: nat, name: string, v1: Value, v2: Value)
    requires ConstantsBound(st.scopes) && c < |st.scopes|
    requires Resolve(st.scopes, c, name) == Ok(a) && a != c && name in st.scopes[a].constants
    ensures AssignVar(st, c, name, v2) == (Err(ConstantReassignment), st)
    ensures var (r1, st1) := DeclareVar(st, c, name, v1, false);
      r1 == Ok(v1) &&
      var (r2, st2) := AssignVar(st1, c, name, v2);
      r2 == Ok(v2) && st2.scopes[a] == st.scopes[a] && LookFor(st2.scopes, c, name) == Ok(v2)
  {
    var (r1, st1) := DeclareVar(st, c, name, v1, false);
    assert name !in st.scopes[c].variables;
    assert Resolve(st1.scopes, c, name) == Ok(c);
    AssignVarSpec(st1, c, name, v2);
  }

  /** createGlobalEnv binds its seven names as constants: assigning or redeclaring any of them in
      the global scope fails and changes nothing, and lookFor finds the seeded values. */
  lemma GlobalsAreConstant(st: Store, n: string, v: Value, isConstant: bool)
    requires n in GLOBAL_NAMES
    ensures var (g, st2) := CreateGlobalEnv(st);
      AssignVar(st2, g, n, v) == (Err(ConstantReassignment), st2) &&
      DeclareVar(st2, g, n, v, isConstant) == (Err(AlreadyDeclared), st2)
    ensures var (g, st2) := CreateGlobalEnv(st);
      LookFor(st2.scopes, g, "True") == Ok(BooleanVal(true)) &&
      LookFor(st2.scopes, g, "False") == Ok(BooleanVal(false)) &&
      LookFor(st2.scopes, g, "null") == Ok(NullVal) &&
      LookFor(st2.scopes, g, "yell") == Ok(InternalFn(Yell)) &&
      LookFor(st2.scopes, g, "yeet") == Ok(InternalFn(Yeet)) &&
      LookFor(st2.scopes, g, "typeof") == Ok(InternalFn(TypeOf)) &&
      LookFor(st2.scopes, g, "getCurtime") == Ok(InternalFn(GetCurtime))
  {
    GlobalWritesRefused(st, n, v, isConstant);
    GlobalLookups(st);
  }

  /** The writes half of GlobalsAreConstant. */
  lemma GlobalWritesRefused(st: Store, n: string, v: Value, isConstant: bool)
    requires n in GLOBAL_NAMES
    ensures var (g, st2) := CreateGlobalEnv(st);
      AssignVar(st2, g, n, v) == (Err(ConstantReassignment), st2) &&
      DeclareVar(st2, g, n, v, isConstant) == (Err(AlreadyDeclared), st2)
  {
  }

  /** The lookups half of GlobalsAreConstant. */
  lemma GlobalLookups(st: Store)
    ensures var (g, st2) := CreateGlobalEnv(st);
      LookFor(st2.scopes, g, "True") == Ok(BooleanVal(true)) &&
      LookFor(st2.scopes, g, "False") == Ok(BooleanVal(false)) &&
      LookFor(st2.scopes, g, "null") == Ok(NullVal) &&
      LookFor(st2.scopes, g, "yell") == Ok(InternalFn(Yell)) &&
      LookFor(st2.scopes, g, "yeet") == Ok(InternalFn(Yeet)) &&
      LookFor(st2.scopes, g, "typeof") == Ok(InternalFn(TypeOf)) &&
      LookFor(st2.scopes, g, "getCurtime") == Ok(InternalFn(GetCurtime))
  {
    var (g, st2) := CreateGlobalEnv(st);
    assert st2.scopes[g] == GLOBAL_SCOPE;
  }

  /** Without a value, lookObj mutates nothing, at any depth of member chain. */
  lemma {:induction false} LookObjReadOnly(st: Store, env: nat, expr: Node, key: Option<Node>)
    ensures LookObj(st, env, expr, None, key).1 == st
    decreases expr
  {
    if expr.MemberExpr? && expr.obj.MemberExpr? {
      LookObjReadOnly(st, env, expr.obj, Some(expr.obj.property));
    }
  }

  /** The key lookObj is given matters only for a write. */
  lemma LookObjReadIgnoresKey(st: Store, env: nat, expr: Node, key: Option<Node>)
    ensures LookObj(st, env, expr, None, key) == LookObj(st, env, expr, None, None)
  {
  }

  /** `x.p` with a value sets property `p` of the object bound to `x` and returns the value;
      nothing else changes. */
  lemma LookObjWrite(st: Store, env: nat, x: string, p: string, ref: nat, v: Value, computed: bool)
    requires LookFor(st.scopes, env, x) == Ok(ObjectVal(ref)) && ref < |st.objects|
    requires p != "" && !v.Undefined?
    ensures LookObj(st, env, MemberExpr(Node.Identifier(x), Node.Identifier(p), computed), Some(v), None)
         == (Ok(v), st.(objects := st.objects[ref := st.objects[ref][p := v]]))
  {
  }

  /** `x.p` without a value is the current property `p` (`undefined` when missing). */
  lemma LookObjRead(st: Store, env: nat, x: string, p: string, ref: nat, computed: bool)
    requires LookFor(st.scopes, env, x) == Ok(ObjectVal(ref)) && ref < |st.objects| && p != ""
    ensures LookObj(st, env, MemberExpr(Node.Identifier(x), Node.Identifier(p), computed), None, None)
         == (Ok(if p in st.objects[ref] then st.objects[ref][p] else Undefined), st)
  {
  }

  /** `a.b.c` first reads `a.b`, then property `c` of that value. */
  lemma LookObjChained(st: Store, env: nat, inner: Node, c: string, computed: bool)
    requires inner.MemberExpr? && c != ""
    ensures var outer := MemberExpr(inner, Node.Identifier(c), computed);
      LookObj(st, env, outer, None, None) ==
        match LookObj(st, env, inner, None, None).0
        case Err(e) => (Err(e), st)
        case Ok(pVal) => (GetProperty(st, pVal, c), st)
  {
    LookObjReadOnly(st, env, inner, Some(inner.property));
  }

  /** A member access on something that is not an object fails as a host type error. */
  lemma LookObjOnNonObject(st: Store, env: nat, x: string, p: string, computed: bool)
    requires LookFor(st.scopes, env, x).Ok? && !LookFor(st.scopes, env, x).value.ObjectVal? && p != ""
    ensures LookObj(st, env, MemberExpr(Node.Identifier(x), Node.Identifier(p), computed), None, None)
         == (Err(HostTypeError), st)
  {
  }
}
