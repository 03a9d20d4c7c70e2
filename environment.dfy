/** The mutable side of runtime/environment.ts.  A `Heap` owns every `Environment` object (as the
    `scopes` arena) and every object value's property map (as the `objects` arena); each method
    of the source's `Environment` class is a method here that takes the scope it runs on as
    `env`, updates the arenas in place, and is proved to make the step the `Scopes` function of
    the same name describes. */
module Environment {
  import opened Wrappers
  import opened Ast
  import opened Values
  import opened Scopes

  class Heap {
    var scopes: seq<Scope>
    var objects: seq<map<string, Value>>
    var clock: real

    /** An empty heap; `clock` is the value `Date.now()` would return. */
    constructor (clock: real)
      ensures State() == Store([], [], clock)
    {
      scopes := [];
      objects := [];
      this.clock := clock;
    }

    function State(): Store
      reads this
    {
      Store(scopes, objects, clock)
    }

    /** `new Environment(parentENV)` */
    method NewEnvironment(parent: Option<nat>) returns (env: nat)
      modifies this
      ensures (env, State()) == Scopes.NewEnvironment(old(State()), parent)
    {
      env := |scopes|;
      scopes := scopes + [Scope(parent, map[], {})];
    }

    /** `{ type: "object", properties: new Map() }`: a fresh, empty property map. */
    method NewObject() returns (ref: nat)
      modifies this
      ensures ref == |old(objects)| && objects == old(objects) + [map[]]
      ensures scopes == old(scopes) && clock == old(clock)
    {
      ref := |objects|;
      objects := objects + [map[]];
    }

    /** `object.properties.set(key, value)` on an object this heap holds. */
    method SetProperty(ref: nat, key: string, value: Value)
      requires ref < |objects|
      modifies this
      ensures objects == old(objects[ref := objects[ref][key := value]])
      ensures scopes == old(scopes) && clock == old(clock)
    {
      objects := objects[ref := objects[ref][key := value]];
    }

    method DeclareVar(env: nat, varName: string, value: Value, isConstant: bool) returns (r: Result<Value, RuntimeError>)
      modifies this
      ensures (r, State()) == Scopes.DeclareVar(old(State()), env, varName, value, isConstant)
    {
      if env >= |scopes| {
        return Err(DanglingReference);
      }
      if varName in scopes[env].variables {
        return Err(AlreadyDeclared);
      }
      var sc := scopes[env];
      if isConstant {
        sc := sc.(constants := sc.constants + {varName});
      }
      sc := sc.(variables := sc.variables[varName := value]);
      scopes := scopes[env := sc];
      r := Ok(value);
    }

    method AssignVar(env: nat, varName: string, value: Value) returns (r: Result<Value, RuntimeError>)
      modifies this
      ensures (r, State()) == Scopes.AssignVar(old(State()), env, varName, value)
    {
      var resolved := Resolve(scopes, env, varName);
      if resolved.Err? {
        return Err(resolved.error);
      }
      var s := resolved.value;
      if varName in scopes[s].constants {
        return Err(ConstantReassignment);
      }
      scopes := scopes[s := scopes[s].(variables := scopes[s].variables[varName := value])];
      r := Ok(value);
    }

    method LookFor(env: nat, varName: string) returns (r: Result<Value, RuntimeError>)
      ensures r == Scopes.LookFor(scopes, env, varName)
    {
      var resolved := Resolve(scopes, env, varName);
      if resolved.Err? {
        return Err(resolved.error);
      }
      r := Ok(scopes[resolved.value].variables[varName]);
    }

    method LookObj(env: nat, expr: Node, value: Option<Value>, key: Option<Node>) returns (r: Result<Value, RuntimeError>)
      modifies this
      ensures (r, State()) == Scopes.LookObj(old(State()), env, expr, value, key)
      decreases expr
    {
      if !expr.MemberExpr? {
        return Err(HostTypeError);
      }
      var pVal: Value;
      if expr.obj.MemberExpr? {
        var inner := LookObj(env, expr.obj, None, Some(expr.obj.property));
        if inner.Err? {
          return inner;
        }
        pVal := inner.value;
      } else {
        var varName := SymbolOf(expr.obj);
        if varName.None? {
          return Err(UndefinedVariable);
        }
        var found := LookFor(env, varName.value);
        if found.Err? {
          return found;
        }
        pVal := found.value;
      }
      var currentProp := SymbolOf(expr.property);
      var prop := if key.Some? then SymbolOf(key.value) else currentProp;
      if Truthy(value) {
        if !pVal.ObjectVal? {
          return Err(HostTypeError);
        }
        if pVal.ref >= |objects| {
          return Err(DanglingReference);
        }
        if prop.Some? {
          SetProperty(pVal.ref, prop.value, value.value);
        }
      }
      if currentProp.Some? && currentProp.value != "" {
        if !pVal.ObjectVal? {
          return Err(HostTypeError);
        }
        if pVal.ref >= |objects| {
          return Err(DanglingReference);
        }
        pVal := if currentProp.value in objects[pVal.ref] then objects[pVal.ref][currentProp.value] else Undefined;
      }
      r := Ok(pVal);
    }

    /** createGlobalEnv: a root scope, then the seven constant declarations in source order. */
    method CreateGlobalEnv() returns (env: nat)
      modifies this
      ensures (env, State()) == Scopes.CreateGlobalEnv(old(State()))
    {
      ghost var s0 := State();
      env := NewEnvironment(None);
      ghost var s1 := State();
      var _ := DeclareVar(env, "True", MkBool(true), true);
      ghost var s2 := State();
      var _ := DeclareVar(env, "False", MkBool(false), true);
      ghost var s3 := State();
      var _ := DeclareVar(env, "null", MkNull(), true);
      ghost var s4 := State();
      var _ := DeclareVar(env, "yell", InternalFn(Yell), true);
      ghost var s5 := State();
      var _ := DeclareVar(env, "yeet", InternalFn(Yeet), true);
      ghost var s6 := State();
      var _ := DeclareVar(env, "typeof", InternalFn(TypeOf), true);
      ghost var s7 := State();
      var _ := DeclareVar(env, "getCurtime", InternalFn(GetCurtime), true);
      ghost var s8 := State();
      GlobalValueDeclarations(s1, s2, s3, s4, env);
      GlobalNativeDeclarations(s4, s5, s6, s7, s8, env);
      assert s1.scopes[..env] == s0.scopes;
    }
  }

  /** One constant declaration, in the root scope `env` last in the arena, of a name that
      scope does not bind yet. */
  lemma DeclareFreshConstant(st: Store, env: nat, vars: map<string, Value>, consts: set<string>, name: string, value: Value)
    requires |st.scopes| == env + 1 && st.scopes[env] == Scope(None, vars, consts) && name !in vars
    ensures DeclareVar(st, env, name, value, true).1 == st.(scopes := st.scopes[..env] + [Scope(None, vars[name := value], consts + {name})])
  {
    assert st.scopes[env := Scope(None, vars[name := value], consts + {name})] == st.scopes[..env] + [Scope(None, vars[name := value], consts + {name})];
  }

  /** The first three declarations of createGlobalEnv, on the empty root scope `env`: the two
      booleans and `null`. */
  lemma GlobalValueDeclarations(s1: Store, s2: Store, s3: Store, s4: Store, env: nat)
    requires |s1.scopes| == env + 1 && s1.scopes[env] == Scope(None, map[], {})
    requires s2 == DeclareVar(s1, env, "True", MkBool(true), true).1
    requires s3 == DeclareVar(s2, env, "False", MkBool(false), true).1
    requires s4 == DeclareVar(s3, env, "null", MkNull(), true).1
    ensures s4 == s1.(scopes := s1.scopes[..env] + [Scope(None, map["True" := MkBool(true), "False" := MkBool(false), "null" := MkNull()], {"True", "False", "null"})])
  {
    var vars: map<string, Value> := map[];
    var consts: set<string> := {};
    DeclareFreshConstant(s1, env, vars, consts, "True", MkBool(true));
    vars, consts := vars["True" := MkBool(true)], consts + {"True"};
    assert s2.scopes[..env] == s1.scopes[..env];
    DeclareFreshConstant(s2, env, vars, consts, "False", MkBool(false));
    vars, consts := vars["False" := MkBool(false)], consts + {"False"};
    assert s3.scopes[..env] == s1.scopes[..env];
    DeclareFreshConstant(s3, env, vars, consts, "null", MkNull());
    vars, consts := vars["null" := MkNull()], consts + {"null"};
    assert s4.scopes[..env] == s1.scopes[..env];
    assert vars == map["True" := MkBool(true), "False" := MkBool(false), "null" := MkNull()];
    assert consts == {"True", "False", "null"};
  }

  /** The last four declarations of createGlobalEnv, the natives, complete the global scope. */
  lemma GlobalNativeDeclarations(s4: Store, s5: Store, s6: Store, s7: Store, s8: Store, env: nat)
    requires |s4.scopes| == env + 1 && s4.scopes[env] == Scope(None, map["True" := MkBool(true), "False" := MkBool(false), "null" := MkNull()], {"True", "False", "null"})
    requires s5 == DeclareVar(s4, env, "yell", InternalFn(Yell), true).1
    requires s6 == DeclareVar(s5, env, "yeet", InternalFn(Yeet), true).1
    requires s7 == DeclareVar(s6, env, "typeof", InternalFn(TypeOf), true).1
    requires s8 == DeclareVar(s7, env, "getCurtime", InternalFn(GetCurtime), true).1
    ensures s8 == s4.(scopes := s4.scopes[..env] + [GLOBAL_SCOPE])
  {
    var vars: map<string, Value> := map["True" := MkBool(true), "False" := MkBool(false), "null" := MkNull()];
    var consts: set<string> := {"True", "False", "null"};
    DeclareFreshConstant(s4, env, vars, consts, "yell", InternalFn(Yell));
    vars, consts := vars["yell" := InternalFn(Yell)], consts + {"yell"};
    assert s5.scopes[..env] == s4.scopes[..env];
    DeclareFreshConstant(s5, env, vars, consts, "yeet", InternalFn(Yeet));
    vars, consts := vars["yeet" := InternalFn(Yeet)], consts + {"yeet"};
    assert s6.scopes[..env] == s4.scopes[..env];
    DeclareFreshConstant(s6, env, vars, consts, "typeof", InternalFn(TypeOf));
    vars, consts := vars["typeof" := InternalFn(TypeOf)], consts + {"typeof"};
    assert s7.scopes[..env] == s4.scopes[..env];
    DeclareFreshConstant(s7, env, vars, consts, "getCurtime", InternalFn(GetCurtime));
    vars, consts := vars["getCurtime" := InternalFn(GetCurtime)], consts + {"getCurtime"};
    assert s8.scopes[..env] == s4.scopes[..env];
    assert Scope(None, vars, consts) == GLOBAL_SCOPE;
  }
}
