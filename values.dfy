/** The runtime values of runtime/values.ts and the error kinds the runtime throws.  The source
    declares only the `null`, `number` and `boolean` tags, but the rest of the runtime also builds
    `string`, `object`, `internal-fn` and `user-defined-fn` values; all seven are here.  Objects and
    scopes have identity: a value refers to them by their index in the store. */
module Values {
  import opened Ast

  /** The four native functions of the global scope. */
  datatype Native = Yell | Yeet | TypeOf | GetCurtime

  datatype Value =
    | NullVal
    | NumberVal(num: real)
    | BooleanVal(b: bool)
    | StringVal(str: string)
    | ObjectVal(ref: nat)
    | InternalFn(native: Native)
    | UserFn(params: seq<string>, name: string, declarationEnv: nat, body: seq<Node>)
      /** JavaScript `undefined`: a missing argument or a missing property.  It has no tag. */
    | Undefined

  /** What the runtime throws, by kind. */
  datatype RuntimeError =
    | UndefinedVariable        // resolve found no scope binding the name
    | AlreadyDeclared          // declareVar on a name this scope already binds
    | ConstantReassignment     // assignVar on a constant
    | NotAFunction             // a call whose callee is no function value
    | InvalidAssignmentTarget  // an assignment whose target is not an identifier
    | NotAnObject              // a member access given neither a member nor an assignment
    | NotImplemented           // a node kind `evaluate` has no case for
    | YeetArity                // `yeet` with more than one argument
    | Thrown(payload: Value)   // `yeet` throwing its argument
    | HostTypeError            // a property of `undefined` or of a non-object was read
    | NonFiniteNumber          // `/` or `%` by zero, which yields Infinity or NaN in the host
    | DanglingReference        // a scope or object index outside the store
    | OutOfFuel                // the call-depth bound ran out (the host's stack overflow)

  /** The `type` field: the tag every value but `undefined` carries. */
  function Tag(v: Value): (t: string)
    requires !v.Undefined?
    ensures t in {"null", "number", "boolean", "string", "object", "internal-fn", "user-defined-fn"}
    ensures t == "null" <==> v.NullVal?
  {
    match v
    case NullVal => "null"
    case NumberVal(_) => "number"
    case BooleanVal(_) => "boolean"
    case StringVal(_) => "string"
    case ObjectVal(_) => "object"
    case InternalFn(_) => "internal-fn"
    case UserFn(_, _, _, _) => "user-defined-fn"
  }

  /** Values with different constructors have different tags, so a tag test is a kind test. */
  lemma TagsDistinguishKinds(u: Value, v: Value)
    requires !u.Undefined? && !v.Undefined?
    ensures Tag(u) == Tag(v) <==>
      (u.NullVal? == v.NullVal? && u.NumberVal? == v.NumberVal? && u.BooleanVal? == v.BooleanVal? &&
       u.StringVal? == v.StringVal? && u.ObjectVal? == v.ObjectVal? && u.InternalFn? == v.InternalFn? &&
       u.UserFn? == v.UserFn?)
  {
  }

  /** MK_NUM: a `number` value; the default is zero. */
  function MkNum(n: real := 0.0): (v: Value)
    ensures !v.Undefined? && Tag(v) == "number" && v.num == n
  {
    NumberVal(n)
  }

  /** MK_NULL: the `null` value. */
  function MkNull(): (v: Value)
    ensures !v.Undefined? && Tag(v) == "null"
  {
    NullVal
  }

  /** MK_BOOL: a `boolean` value; the default is `true`. */
  function MkBool(b: bool := true): (v: Value)
    ensures !v.Undefined? && Tag(v) == "boolean" && v.b == b
  {
    BooleanVal(b)
  }

  /** The defaults of MK_NUM and MK_BOOL. */
  lemma MkDefaults()
    ensures MkNum() == NumberVal(0.0) && MkBool() == BooleanVal(true)
  {
  }
}
