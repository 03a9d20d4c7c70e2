/** The scope chain of runtime/environment.ts as pure functions over a store.  Every
    `Environment` object is a `Scope` in the store's `scopes` arena, named by its index; its
    `parent` field is the index of the enclosing scope.  Object values' property maps live in the
    `objects` arena, so that writes through `lookObj` are seen by every holder of the object. */
module Scopes {
  import opened Wrappers
  import opened Ast
  import opened Values

  /** An `Environment`: the parent link, the name-to-value map and the set of constant names. */
  datatype Scope = Scope(parent: Option<nat>, variables: map<string, Value>, constants: set<string>)

  /** All scopes, all object property maps, and the host clock that `getCurtime` reads. */
  datatype Store = Store(scopes: seq<Scope>, objects: seq<map<string, Value>>, clock: real)

  /** A result together with the store after the step, whether it succeeded or threw. */
  type Outcome = (Result<Value, RuntimeError>, Store)

  /** Every parent link points to an older scope, so every parent chain ends. */
  predicate Linked(scopes: seq<Scope>) {
    forall i :: 0 <= i < |scopes| && scopes[i].parent.Some? ==> scopes[i].parent.value < i
  }

  /** Only bound names are marked constant. */
  predicate ConstantsBound(scopes: seq<Scope>) {
    forall i :: 0 <= i < |scopes| ==> scopes[i].constants <= scopes[i].variables.Keys
  }

  /** `b` is a later state of `a`: nothing was removed from the arenas, no parent link moved, no
      object lost a property, the clock is the same, and linkage was kept. */
  predicate Extends(a: Store, b: Store) {
    |a.scopes| <= |b.scopes| && |a.objects| <= |b.objects| && a.clock == b.clock &&
    (forall i :: 0 <= i < |a.scopes| ==> b.scopes[i].parent == a.scopes[i].parent) &&
    (forall i :: 0 <= i < |a.objects| ==> a.objects[i].Keys <= b.objects[i].Keys) &&
    (Linked(a.scopes) ==> Linked(b.scopes))
  }

  lemma ExtendsTrans(a: Store, b: Store, c: Store)
    requires Extends(a, b) && Extends(b, c)
    ensures Extends(a, c)
  {
  }

  /** `new Environment(parent)`: a fresh scope with no bindings, added at the end. */
  function NewEnvironment(st: Store, parent: Option<nat>): (r: (nat, Store))
    ensures r.0 == |st.scopes| && |r.1.scopes| == |st.scopes| + 1
    ensures r.1.scopes[r.0] == Scope(parent, map[], {})
    ensures r.1.scopes[..r.0] == st.scopes && r.1.objects == st.objects
    ensures (parent.Some? ==> parent.value < |st.scopes|) ==> Extends(st, r.1)
  {
    (|st.scopes|, st.(scopes := st.scopes + [Scope(parent, map[], {})]))
  }

  /** The scopes `resolve` visits from `env`: `env`, its parent, its grandparent, and so on. */
  function Chain(scopes: seq<Scope>, env: nat): (c: seq<nat>)
    ensures forall k :: 0 <= k < |c| ==> c[k] <= env && c[k] < |scopes|
    decreases env
  {
    if env >= |scopes| then []
    else match scopes[env].parent
      case None => [env]
      case Some(p) => if p < env then [env] + Chain(scopes, p) else [env]
  }

  /** resolve: the scope that binds `name`, searching from `env` outwards. */
  function Resolve(scopes: seq<Scope>, env: nat, name: string): (r: Result<nat, RuntimeError>)
    ensures r.Ok? ==> r.value <= env && r.value < |scopes| && name in scopes[r.value].variables
    ensures r.Err? ==> r.error == UndefinedVariable || r.error == DanglingReference
    decreases env
  {
    if env >= |scopes| then Err(DanglingReference)
    else if name in scopes[env].variables then Ok(env)
    else match scopes[env].parent
      case None => Err(UndefinedVariable)
      case Some(p) => if p < env then Resolve(scopes, p, name) else Err(DanglingReference)
  }

  /** lookFor: the value bound to `name` in the scope that resolves it. */
  function LookFor(scopes: seq<Scope>, env: nat, name: string): (r: Result<Value, RuntimeError>)
    ensures r.Ok? ==> exists s :: 0 <= s <= env && s < |scopes| && name in scopes[s].variables && r.value == scopes[s].variables[name]
    ensures r.Err? ==> r.error == UndefinedVariable || r.error == DanglingReference
  {
    match Resolve(scopes, env, name)
    case Err(e) => Err(e)
    case Ok(s) => Ok(scopes[s].variables[name])
  }

  /** declareVar: bind `name` in scope `env` itself, failing if that scope already binds it. */
  function DeclareVar(st: Store, env: nat, name: string, value: Value, isConstant: bool): (r: Outcome)
    ensures Extends(st, r.1) && r.1.objects == st.objects && |r.1.scopes| == |st.scopes|
  {
    if env >= |st.scopes| then (Err(DanglingReference), st)
    else if name in st.scopes[env].variables then (Err(AlreadyDeclared), st)
    else
      var sc := st.scopes[env];
      var constants := if isConstant then sc.constants + {name} else sc.constants;
      (Ok(value), st.(scopes := st.scopes[env := sc.(variables := sc.variables[name := value], constants := constants)]))
  }

  /** assignVar: rebind `name` in the scope that resolves it, unless it is constant there. */
  function AssignVar(st: Store, env: nat, name: string, value: Value): (r: Outcome)
    ensures Extends(st, r.1) && r.1.objects == st.objects && |r.1.scopes| == |st.scopes|
  {
    match Resolve(st.scopes, env, name)
    case Err(e) => (Err(e), st)
    case Ok(s) =>
      if name in st.scopes[s].constants then (Err(ConstantReassignment), st)
      else
        var sc := st.scopes[s];
        (Ok(value), st.(scopes := st.scopes[s := sc.(variables := sc.variables[name := value])]))
  }

  /** JavaScript truthiness of lookObj's optional `value` argument: any value but `undefined`. */
  predicate Truthy(value: Option<Value>) {
    value.Some? && !value.value.Undefined?
  }

  /** `pVal.properties.set(prop, value)`.  A key of `undefined` (a property that is not an
      identifier) is never read back by any operation here, so that write is dropped. */
  function SetProperty(st: Store, pVal: Value, prop: Option<string>, value: Value): (r: Result<Store, RuntimeError>)
    ensures r.Ok? ==> Extends(st, r.value) && r.value.scopes == st.scopes && |r.value.objects| == |st.objects|
  {
    if !pVal.ObjectVal? then Err(HostTypeError)
    else if pVal.ref >= |st.objects| then Err(DanglingReference)
    else if prop.None? then Ok(st)
    else Ok(st.(objects := st.objects[pVal.ref := st.objects[pVal.ref][prop.value := value]]))
  }

  /** `pVal.properties.get(name)`, which is `undefined` for a missing key. */
  function GetProperty(st: Store, pVal: Value, name: string): Result<Value, RuntimeError> {
    if !pVal.ObjectVal? then Err(HostTypeError)
    else if pVal.ref >= |st.objects| then Err(DanglingReference)
    else if name in st.objects[pVal.ref] then Ok(st.objects[pVal.ref][name])
    else Ok(Undefined)
  }

  /** lookObj: read `obj.property`, first writing `value` under `key` (or the property) when a
      value is given.  An inner member expression is read first, with no value and the inner
      property as key.  A non-identifier property is `undefined`, so nothing is read then and the
      base itself is returned. */
  function LookObj(st: Store, env: nat, expr: Node, value: Option<Value>, key: Option<Node>): (r: Outcome)
    ensures Extends(st, r.1) && r.1.scopes == st.scopes && |r.1.objects| == |st.objects|
    decreases expr
  {
    if !expr.MemberExpr? then (Err(HostTypeError), st)
    else
      var (base, st1) :=
        if expr.obj.MemberExpr? then LookObj(st, env, expr.obj, None, Some(expr.obj.property))
        else match SymbolOf(expr.obj)
          case None => (Err(UndefinedVariable), st)
          case Some(x) => (LookFor(st.scopes, env, x), st);
      match base
      case Err(e) => (Err(e), st1)
      case Ok(pVal) =>
        var currentProp := SymbolOf(expr.property);
        var prop := if key.Some? then SymbolOf(key.value) else currentProp;
        match (if Truthy(value) then SetProperty(st1, pVal, prop, value.value) else Ok(st1))
        case Err(e) => (Err(e), st1)
        case Ok(st2) =>
          if currentProp.Some? && currentProp.value != "" then (GetProperty(st2, pVal, currentProp.value), st2)
          else (Ok(pVal), st2)
  }

  /** The names createGlobalEnv declares, in order. */
  const GLOBAL_NAMES: seq<string> := ["True", "False", "null", "yell", "yeet", "typeof", "getCurtime"]

  /** The global scope createGlobalEnv builds: the two booleans, `null` and the four natives,
      all constant. */
  const GLOBAL_SCOPE: Scope :=
    Scope(None,
          map["True" := MkBool(true), "False" := MkBool(false), "null" := MkNull(),
              "yell" := InternalFn(Yell), "yeet" := InternalFn(Yeet), "typeof" := InternalFn(TypeOf),
              "getCurtime" := InternalFn(GetCurtime)],
          {"True", "False", "null", "yell", "yeet", "typeof", "getCurtime"})

  /** createGlobalEnv: a new root scope holding the global bindings. */
  function CreateGlobalEnv(st: Store): (r: (nat, Store))
    ensures Extends(st, r.1) && r.0 == |st.scopes| && |r.1.scopes| == r.0 + 1 && r.1.scopes[r.0].parent.None?
    ensures forall n :: n in GLOBAL_NAMES <==> n in r.1.scopes[r.0].variables
    ensures forall n :: n in GLOBAL_NAMES ==> n in r.1.scopes[r.0].constants
  {
    (|st.scopes|, st.(scopes := st.scopes + [GLOBAL_SCOPE]))
  }
}
