# brainrot-interpreter in Dafny

This project models the pipeline of the brainrot interpreter, a small toy language written in
TypeScript, and proves properties of that model. The pipeline has four stages:

- **Lexer** (`frontend/lexer.ts`). It turns a character sequence into tokens:
  - parentheses and the five arithmetic operators, one character each;
  - maximal runs of `<`, `>` and `=`;
  - maximal digit runs;
  - maximal letter runs, looked up in a three-entry keyword table.

  It drops a small set of skippable characters, `;` among them. Any other character is rejected.
- **Parser** (`frontend/parser.ts`). A class holding a token queue. It parses in three levels:
  additive over multiplicative over primary.
- **Environment** (`runtime/environment.ts`). A chain of scopes. Each scope has a name-to-value
  map, a set of constant names and a parent link. It provides `declareVar`, `assignVar`,
  `lookFor`, `resolve`, member reads and writes through `lookObj`, and the global scope with its
  four natives.
- **Evaluator** (`runtime/interpreter.ts`, `runtime/evals/expressions.ts`,
  `runtime/evals/statements.ts`, `runtime/values.ts`). One dispatch on the node kind and one
  handler per kind.

Each file is written in the form its source takes:

- **Lexer.** The character loop is a method, `Lexer.Tokenize`, proved equal to a reference
  function, `Lexer.Lex`. The lexer's promises are proved about `Lex` in `LexerProperties`.
- **Parser.** The token queue's class is `Parser.Parser`, with a `tokens` field that `Eat` and
  `Expect` shift. Its precedence loops are proved to agree with the reference functions
  `Parser.Additive`, `Parser.Multiplicative` and `Parser.Primary`. The grammar's properties are
  proved about those functions in `ParserProperties`.
- **Environment.** Every `Environment` object is a `Scope` in an arena. The arena is indexed by
  position, and a parent always has a smaller index than its child (`Scopes.Linked`). Object
  values hold an index into a second arena of property maps. Writes through `lookObj` are
  therefore seen by every holder of the object.
  - `Scopes` holds the pure step functions.
  - `Environment.Heap` is the class that owns both arenas. It has one method per method of the
    source's `Environment` class, each proved to make the step the `Scopes` function of the same
    name describes.
  - `ScopesProperties` proves what those steps promise.
- **Evaluator.**
  - `Semantics` is a pure reference evaluator. `Semantics.Eval` is `evaluate`, and each handler
    is the `eval_*` function of the same name. Each returns its value, or the error it threw,
    together with the store after the step.
  - `Interpreter` holds the same handlers as methods on a `Heap`. Their loops run in place: the
    program loop, the object-literal loop, the argument loop, the parameter loop and the
    function-body loop. Each method is proved to produce the result and heap that its
    `Semantics` function describes.
  - `SemanticsProperties` proves what the evaluator promises.
  - `Operators` holds the operator functions of `expressions.ts`.
  - `Values` holds the runtime values and the kinds of error.

Numbers are exact reals. Every thrown string becomes one kind of `RuntimeError` or `ParseError`.
Only calls to user functions spend fuel. When fuel runs out the result is `OutOfFuel`, which
stands for the host running out of stack.

## Model

| member | source | states |
|---|---|---|
| Lexer.Tokenize | frontend/lexer.ts:57-125 | the character loop, with its inner run loops, returns exactly the reference token stream `Lex` of the source |
| Lexer.Accumulate | frontend/lexer.ts:78-100 | an inner `while` loop that shifts characters of one class splits the remaining source into the maximal run of that class and what follows it |
| Lexer.Scan | frontend/lexer.ts:62-122 | every token is cut from at least one character, so a successful scan has no more tokens than the source has characters |
| Lexer.Lex | frontend/lexer.ts:57-125 | a successful `tokenize` is never empty, ends with the EOF sentinel, and has at most one token per character plus that sentinel |
| LexerProperties.CharacterClasses | frontend/lexer.ts:38-55 | parentheses, the five arithmetic operators, `isRelationalOp`, `isNumber`, `isAlpha` and `isSkippable` are pairwise disjoint, so the order of the tests in `tokenize` decides nothing; a digit is a character code from `0` to `9` |
| LexerProperties.AlphaIsCaseSensitive | frontend/lexer.ts:38-41 | on ASCII characters, `isAlpha` holds exactly when the upper-case and lower-case forms differ |
| LexerProperties.KeywordTable | frontend/lexer.ts:23-27 | `beta` is `Var`, `sigma` is `Const`, `null` is `Null`, and every other word is an `Identifier` |
| LexerProperties.RunLengthMaximal | frontend/lexer.ts:77-113 | a run of relational signs, digits or letters is maximal: every character in it belongs to the class, the next character does not, and a run that starts with a class character is non-empty |
| LexerProperties.ScanTokensValid | frontend/lexer.ts:63-113 | each token has its type's shape. Parentheses and `+ - * / %` are one character. A lone `=` is `Equals`, and every other relational run is `RelationalOperator`. `Number` is a non-empty digit run. A letter run is `Var` for `beta`, `Const` for `sigma`, `Null` for `null`, and otherwise a non-keyword `Identifier`. No token before the end is EOF |
| LexerProperties.LexEndsWithSingleEOF | frontend/lexer.ts:123 | the stream ends with exactly one EOF token, whose value is `EndOfFile`, and no earlier token is EOF |
| LexerProperties.ScanCoversSource | frontend/lexer.ts:62-122 | the token values, concatenated in order, are the source with the skippable characters removed |
| LexerProperties.LexCoversSource | frontend/lexer.ts:62-122 | on success, the values of all non-EOF tokens, concatenated in order, are the source without its skippable characters |
| LexerProperties.ScanFailsAtFirstUnrecognized | frontend/lexer.ts:117-118 | the scan fails exactly when some character is unrecognised, and then it names the first such character |
| LexerProperties.LexFailsOnUnrecognized | frontend/lexer.ts:114-118 | `tokenize` fails if and only if the source holds a character no rule accepts, and it reports the first such character |
| LexerProperties.SkippableOnlyGivesEOF | frontend/lexer.ts:49-51 | a source made only of space, `\n`, `\t`, `\r`, `;` and `\0` gives no token but EOF |
| LexerProperties.DoubleMinusIsTwoTokens | frontend/lexer.ts:69-71 | `--` is two one-character `BinaryOperator` tokens followed by EOF |
| Parser.Parser.Eat | frontend/parser.ts:15-18 | returns the head token and leaves the rest of the queue |
| Parser.Parser.IsEOF | frontend/parser.ts:7-9 | on a lexed queue, whose only EOF is the last token, the parser is at the end exactly when only the sentinel is left |
| Parser.Parser.At | frontend/parser.ts:11-13 | the head token, which is EOF exactly when `isEOF` holds; `at` changes nothing |
| Parser.Parser.Expect | frontend/parser.ts:20-27 | shifts one token and fails with the expected type and the token found unless that token has the expected type |
| Parser.Parser.ParseStmt | frontend/parser.ts:29-32 | a statement is an additive expression: result and remaining queue agree with `Additive` |
| Parser.Parser.ParseExpr | frontend/parser.ts:34-36 | an expression is an additive expression: result and remaining queue agree with `Additive` |
| Parser.Parser.ParseAdditiveExpr | frontend/parser.ts:38-55 | the `+`/`-` loop produces the node, the error and the remaining queue of `Additive` |
| Parser.Parser.ParseMultiplicitiveExpr | frontend/parser.ts:57-72 | the `*`/`/`/`%` loop produces the node, the error and the remaining queue of `Multiplicative` |
| Parser.Parser.ParsePrimaryExpr | frontend/parser.ts:74-102 | identifier, `null`, number and parenthesised group, otherwise an unexpected-token error, as in `Primary` |
| Parser.Parser.ProduceAST | frontend/parser.ts:104-118 | tokenizes, then parses statements until EOF; the result is exactly `Parse(sourceCode)`, and the loop ends because each statement shrinks the queue |
| ParserProperties.PrimaryConsumes | frontend/parser.ts:74-102 | a successful primary is an identifier, `null`, a number or an arithmetic tree, and it consumes only consumable tokens |
| ParserProperties.MultiplicativeConsumes | frontend/parser.ts:57-72 | a successful multiplicative parse builds an arithmetic tree from consumable tokens only |
| ParserProperties.AdditiveConsumes | frontend/parser.ts:38-55 | a successful additive parse builds an arithmetic tree from consumable tokens only |
| ParserProperties.ProgramFromConsumes | frontend/parser.ts:113-117 | a successful statement loop consumed only consumable tokens before EOF, and every statement is an arithmetic expression |
| ParserProperties.ParseAcceptsOnlyArithmetic | frontend/parser.ts:74-102 | `produceAST` succeeds only if every token but EOF is an identifier, `null`, a number, a parenthesis or an arithmetic operator (so `beta x = 5` and `1 < 2` are rejected), and each statement is then an arithmetic expression |
| ParserProperties.BlankSourceGivesEmptyProgram | frontend/parser.ts:104-118 | whitespace and semicolons alone give a `Program` with an empty body |
| ParserProperties.AdditiveIsLeftAssociative | frontend/parser.ts:38-55 | `x op1 y op2 z` with additive operators groups as `(x op1 y) op2 z` |
| ParserProperties.MultiplicativeIsLeftAssociative | frontend/parser.ts:57-72 | `a op1 b op2 c` with multiplicative operators groups as `(a op1 b) op2 c` |
| ParserProperties.MultiplicationBindsTighter | frontend/parser.ts:38-72 | `a + b * c` groups as `a + (b * c)` |
| ParserProperties.GroupIsTransparent | frontend/parser.ts:91-96 | `(a + b) * c` gives the inner node itself as the left operand, with no wrapper node |
| ParserProperties.UnclosedGroupFails | frontend/parser.ts:91-96 | a group missing its `)` fails, expecting `CloseParen` and finding EOF |
| ParserProperties.PrimaryCases | frontend/parser.ts:76-100 | an identifier keeps its symbol, `Null` becomes `NullLiteral`, a number becomes a `NumericLiteral` of its digits, and any other token but `(` is an unexpected-token error |
| ParserProperties.NumberValue | frontend/parser.ts:85-89 | the digit string `42` becomes the number 42 |
| Parser.ParseFloat | frontend/parser.ts:88 | the number of a digit string is a whole number and never negative |
| Parser.DigitsValue | frontend/parser.ts:88 | reading more digits never lowers the value already read |
| Parser.DigitsValueStep | frontend/parser.ts:88 | appending a digit to a digit string gives ten times its value plus the digit, so `parseFloat` of the lexer's digits is their decimal value |
| Parser.Primary | frontend/parser.ts:74-102 | a successful primary consumes at least one token and leaves a queue that still ends with EOF |
| Parser.MultiplicativeLoop | frontend/parser.ts:60-69 | the `*`/`/`/`%` loop never grows the queue and leaves it ending with EOF |
| Parser.Multiplicative | frontend/parser.ts:57-72 | a successful multiplicative parse consumes at least one token and leaves a queue that still ends with EOF |
| Parser.AdditiveLoop | frontend/parser.ts:42-51 | the `+`/`-` loop never grows the queue and leaves it ending with EOF |
| Parser.Additive | frontend/parser.ts:38-55 | a successful additive parse consumes at least one token, so the statement loop of `produceAST` ends |
| Parser.ProgramFrom | frontend/parser.ts:113-117 | the statement loop keeps the statements already parsed in order and adds fewer statements than there are tokens before EOF |
| Parser.Parse | frontend/parser.ts:104-118 | a successful `produceAST` is a `Program` with no more statements than the source has characters |
| Values.MkNum | runtime/values.ts:22-24 | a `number` value holding `n` |
| Values.MkNull | runtime/values.ts:26-28 | the value tagged `null` |
| Values.MkBool | runtime/values.ts:30-32 | a `boolean` value holding `b` |
| Values.MkDefaults | runtime/values.ts:22-32 | `MK_NUM()` is zero and `MK_BOOL()` is true |
| Values.Tag | runtime/values.ts:1-5 | every defined value has one of the seven tags the code builds, and the tag is `null` exactly for the null value |
| Values.TagsDistinguishKinds | runtime/values.ts:1-5 | two values have the same tag exactly when they are of the same kind, over all seven tags the code uses |
| Scopes.NewEnvironment | runtime/environment.ts:51-56 | a fresh scope with no bindings, no constants and the given parent, added after every existing scope, which are left alone |
| Scopes.Resolve | runtime/environment.ts:114-122 | the scope found lies at or above `env` and binds the name |
| ScopesProperties.ResolveNearest | runtime/environment.ts:114-122 | `resolve` succeeds exactly when some scope on the parent chain binds the name, and then returns the nearest one; otherwise it fails with "does not exist" |
| ScopesProperties.ChainShape | runtime/environment.ts:114-122 | the parent chain starts at the scope, strictly descends along the parent links and ends at a root |
| Scopes.LookFor | runtime/environment.ts:83-87 | a value found was bound to the name in a scope at or above `env`; otherwise the name is undefined (or a link is dangling) |
| Scopes.DeclareVar | runtime/environment.ts:58-68 | declaring changes no parent link, no object and no scope count |
| ScopesProperties.DeclareVarSpec | runtime/environment.ts:58-68 | `declareVar` fails exactly when this scope already binds the name, and then changes nothing. Otherwise it binds the name in this scope alone, marks it constant only when asked, and returns the value |
| ScopesProperties.DeclareKeepsConstantsBound | runtime/environment.ts:58-68 | only bound names are constant, so a name declared without `isConstant` is mutable |
| ScopesProperties.LookForAfterDeclare | runtime/environment.ts:83-87 | after a declaration in scope `s`, `lookFor` finds the value from `s` and from every descendant that binds the name nowhere between itself and `s` |
| Scopes.AssignVar | runtime/environment.ts:70-81 | assigning changes no parent link, no object and no scope count |
| ScopesProperties.AssignVarSpec | runtime/environment.ts:70-81 | `assignVar` fails exactly when the name does not resolve or is constant where it resolves, and then changes nothing. Otherwise only that scope's binding for the name changes, and `lookFor` then sees the new value |
| ScopesProperties.Shadowing | runtime/environment.ts:58-81 | assigning from a child a name constant in an ancestor fails. After the child declares that name, assigning it from the child succeeds and leaves the ancestor's binding unchanged |
| Scopes.LookObj | runtime/environment.ts:89-112 | member access never changes a scope and never adds or removes an object |
| ScopesProperties.LookObjReadOnly | runtime/environment.ts:89-112 | without a value, `lookObj` mutates nothing, at any depth of member chain |
| ScopesProperties.LookObjReadIgnoresKey | runtime/environment.ts:105-107 | the key argument matters only for a write |
| ScopesProperties.LookObjWrite | runtime/environment.ts:103-111 | `x.p` with a value sets property `p` of the object bound to `x`, returns the value, and changes nothing else |
| ScopesProperties.LookObjRead | runtime/environment.ts:103-111 | `x.p` without a value is the current property `p`, or `undefined` when there is none |
| ScopesProperties.LookObjChained | runtime/environment.ts:91-92 | `a.b.c` first reads `a.b`, then property `c` of that value |
| ScopesProperties.LookObjOnNonObject | runtime/environment.ts:109 | reading a property of a value that is not an object is a host type error |
| Scopes.CreateGlobalEnv | runtime/environment.ts:4-43 | a new root scope binding exactly `True`, `False`, `null`, `yell`, `yeet`, `typeof` and `getCurtime`, all constant |
| ScopesProperties.GlobalsAreConstant | runtime/environment.ts:4-43 | assigning or redeclaring any global in the global scope fails and changes nothing, and the seeded values are found |
| Environment.Heap.NewEnvironment | runtime/environment.ts:51-56 | appends the fresh scope to the arena, as `Scopes.NewEnvironment` |
| Environment.Heap.DeclareVar | runtime/environment.ts:58-68 | updates the scope in place, with the result and new heap of `Scopes.DeclareVar` |
| Environment.Heap.AssignVar | runtime/environment.ts:70-81 | updates the resolving scope in place, with the result and new heap of `Scopes.AssignVar` |
| Environment.Heap.LookFor | runtime/environment.ts:83-87 | returns `Scopes.LookFor` on the current scopes |
| Environment.Heap.LookObj | runtime/environment.ts:89-112 | recursive member access that writes in place, with the result and new heap of `Scopes.LookObj` |
| Environment.Heap.NewObject | runtime/evals/expressions.ts:111 | appends one empty property map and returns its index; nothing else changes |
| Environment.Heap.SetProperty | runtime/environment.ts:107 | sets one key of one object's property map; nothing else changes |
| Environment.Heap.CreateGlobalEnv | runtime/environment.ts:4-43 | builds the global scope by seven `declareVar` calls, with the result of `Scopes.CreateGlobalEnv` |
| Operators.NumericBinary | runtime/evals/expressions.ts:6-32 | fails, as a non-finite number, exactly when `/` or the remainder has a zero divisor |
| Operators.NumericBinaryDispatch | runtime/evals/expressions.ts:6-32 | `+ - * /` compute the named operation, and every other operator string, `%` included, computes the remainder |
| Operators.Rem | runtime/evals/expressions.ts:26-27 | the remainder of `%` is below the divisor in size, has the dividend's sign, and completes dividend = divisor × truncated quotient + remainder |
| Operators.Trunc | runtime/evals/expressions.ts:26-27 | truncation toward zero: the fraction dropped is below one in size and has the number's sign |
| Operators.EvaluateNumericBinaryExpr | runtime/evals/expressions.ts:6-32 | the result is always tagged `number`, and exists exactly when the numeric operation is defined |
| Operators.BinaryOperands | runtime/evals/expressions.ts:97-101 | two numbers give the numeric result; any other pair of defined values gives `null` |
| Operators.NonNumbersGiveNull | runtime/evals/expressions.ts:97-101 | operands that are not both numbers give `null`, without an error |
| Operators.EvaluateComparisonExpr | runtime/evals/expressions.ts:66-91 | `evaluate_comparison_expr` as written: every result is tagged `boolean` |
| Operators.ComparisonIsAlwaysInequality | runtime/evals/expressions.ts:66-91 | with no `break`, every operator falls through to the default and gives `lhs != rhs` |
| Operators.ComparisonAsWrittenCounterexample | runtime/evals/expressions.ts:77-88 | as written, `2 < 1` is true |
| Operators.ComparisonWithBreaks | runtime/evals/expressions.ts:66-91 | the comparison with a `break` after each case: every result is tagged `boolean` |
| Operators.ComparisonWithBreaksMeaning | runtime/evals/expressions.ts:66-91 | with the breaks, each of `> >= < <= !=` computes its own relation, and an unknown operator takes the default |
| Operators.NoBreakReachesDefault | runtime/evals/expressions.ts:37-61 | a switch with no `break` reaches the default from every entry point |
| Operators.EvaluateRelationExpr | runtime/evals/expressions.ts:34-64 | `evaluate_relation_expr` as written: every result is tagged `boolean` |
| Operators.RelationIsAlwaysInequality | runtime/evals/expressions.ts:34-64 | with no `break`, every operator gives `lhs != rhs`, so `true && true` is false |
| Operators.RelationWithBreaks | runtime/evals/expressions.ts:34-64 | the boolean relation with a `break` after each case: every result is tagged `boolean` |
| Operators.RelationWithBreaksMeaning | runtime/evals/expressions.ts:34-64 | with the breaks, `&&` is conjunction and the or-operator disjunction, the orderings place `false` below `true`, and `!=` is inequality |
| Semantics.Eval | runtime/interpreter.ts:7-47 | the dispatch never removes a scope, an object or a property of an object, never moves a parent link, and keeps the scopes linked |
| Semantics.EvaluateBinaryExpr | runtime/evals/expressions.ts:93-102 | a binary expression keeps the store's shape and, when it succeeds, is a `number` or `null` |
| Semantics.EvalIdentifier | runtime/evals/expressions.ts:104-108 | an identifier read leaves the store as it was |
| Semantics.EvalObjectExpr | runtime/evals/expressions.ts:110-121 | an object literal allocates a new object, and its value is a reference to that fresh object |
| Semantics.EvalProps | runtime/evals/expressions.ts:113-118 | the property loop removes no scope, no object and no property, and moves no parent link |
| Semantics.EvalArgs | runtime/evals/expressions.ts:124 | the argument values are one per argument node, after the ones already evaluated |
| Semantics.EvalCallExpr | runtime/evals/expressions.ts:123-154 | a call removes no scope, no object and no property, and moves no parent link |
| Semantics.CallValue | runtime/evals/expressions.ts:127-152 | a native leaves the store as it was; a value that is neither kind of function fails and changes nothing; a user call with fuel and a live declaration scope adds the call's scope |
| Semantics.BindParams | runtime/evals/expressions.ts:136-141 | the parameter loop adds no scope and touches no object |
| Semantics.EvalSeq | runtime/evals/statements.ts:6-13 | a statement list removes no scope, no object and no property, and moves no parent link |
| Semantics.EvalMemberExpr | runtime/evals/expressions.ts:156-161 | a member read or write removes no scope, no object and no property, and moves no parent link |
| Semantics.EvalAssignment | runtime/evals/expressions.ts:163-171 | an assignment succeeds only on an identifier target, and adds no scope beyond those its value added |
| Semantics.EvaluateProgram | runtime/evals/statements.ts:6-13 | a program removes no scope, no object and no property, and moves no parent link |
| Semantics.EvalVarDeclaration | runtime/evals/statements.ts:15-19 | a declaration that succeeds binds the name in this scope to the value it returns, constant when declared so |
| Semantics.CallNative | runtime/environment.ts:12-40 | `yeet` fails exactly when given an argument, with the arity error for more than one. `typeof` gives its first argument's tag. `yell` fails only on an `undefined` argument. `getCurtime` reads the clock |
| Semantics.EvalFuncDeclaration | runtime/evals/statements.ts:21-33 | a function declaration adds no scope and touches no object |
| SemanticsProperties.LiteralsEvaluateInPlace | runtime/interpreter.ts:11-15 | a numeric literal is a `number` of the same value, a string literal a `string`, and neither changes the store |
| SemanticsProperties.ReadsChangeNothing | runtime/interpreter.ts:17-27 | an identifier goes through `lookFor`, and a member expression through `lookObj` with no value; neither changes the store |
| SemanticsProperties.UnimplementedKindsFail | runtime/interpreter.ts:44-46 | `NullLiteral`, `IfStatement`, `UnaryExpr`, `RelationalExpr` and `Property` fail as not implemented, changing nothing |
| SemanticsProperties.EvalSeqAppend | runtime/evals/statements.ts:6-13 | a statement list gives the starting value when empty. Appending a statement runs it after the others in the same scope, unless an earlier one threw |
| SemanticsProperties.ProgramValueIsLast | runtime/evals/statements.ts:6-13 | an empty program is `null`; otherwise the program's value is its last statement's, evaluated after all earlier ones in the same scope |
| SemanticsProperties.BinaryLeftFirst | runtime/evals/expressions.ts:93-95 | the left operand runs first, and a throw there ends the expression |
| SemanticsProperties.BinaryOnValues | runtime/evals/expressions.ts:93-102 | after both operands, two numbers give the numeric result and any other defined pair gives `null` |
| SemanticsProperties.ArithmeticExample | runtime/evals/expressions.ts:93-102 | `2 + 3 * 4` evaluates to 14 and changes nothing |
| SemanticsProperties.AssignmentTargets | runtime/evals/expressions.ts:163-171 | a non-identifier target fails before the value is evaluated; an identifier target evaluates the value and goes through `assignVar` |
| SemanticsProperties.VarDeclarationWithoutValue | runtime/evals/statements.ts:15-19 | a declaration with no initializer binds `null` in this scope, with the declaration's constness, and returns it |
| SemanticsProperties.FunctionNameIsConstant | runtime/evals/statements.ts:21-33 | a function declaration returns the function value, closing over the defining scope. Its name is bound as a constant, so redeclaring or assigning it in that scope fails |
| SemanticsProperties.CallNonFunction | runtime/evals/expressions.ts:152 | calling a value that is neither a native nor a user function fails as "not a function" |
| SemanticsProperties.CallArgumentsFirst | runtime/evals/expressions.ts:124-125 | the arguments are evaluated before the callee: one that throws ends the call before the callee is evaluated |
| SemanticsProperties.NativeCall | runtime/evals/expressions.ts:127-130 | a native is applied to the argument values and changes nothing. `typeof` gives its first argument's tag, `yeet` with two or more arguments is an arity error, and `yeet(v)` throws `v` |
| SemanticsProperties.BindParamsSpec | runtime/evals/expressions.ts:136-141 | the parameter loop succeeds exactly when the names are distinct and unbound. It then binds each, mutable, to the argument at its position (excess arguments are ignored) and changes nothing else. Otherwise `declareVar` fails on a bound name |
| SemanticsProperties.UserCallFrame | runtime/evals/expressions.ts:132-149 | a user call runs its body in a fresh scope whose parent is the declaration scope, not the caller's. That scope holds exactly the parameters, mutable and bound by position. A repeated parameter name fails through `declareVar` |
| SemanticsProperties.PropertyValue | runtime/evals/expressions.ts:115 | a number or string literal property never fails and is never `undefined` |
| SemanticsProperties.FillFailsAtFirst | runtime/evals/expressions.ts:113-118 | the property loop over simple properties fails exactly when one value fails, and then with the first failing value's error |
| SemanticsProperties.FillLastWins | runtime/evals/expressions.ts:113-118 | when it succeeds, the built map's keys are the old keys and the literal's keys. A repeated key keeps the value of its last occurrence, and a key the literal does not name is untouched |
| SemanticsProperties.EvalPropsSimple | runtime/evals/expressions.ts:113-118 | over simple properties (shorthand, literal or identifier values), the property loop changes only the object being built, to the map `Fill` describes, and fails with `Fill`'s error |
| SemanticsProperties.ObjectLiteralIsFresh | runtime/evals/expressions.ts:110-121 | an object literal of simple properties is a fresh object holding that map, or fails with the first failing value, leaving the partly filled object behind |
| SemanticsProperties.ShorthandProperty | runtime/evals/expressions.ts:115 | in any literal of simple properties, a shorthand `key` that does not occur again ends up holding what `lookFor(key)` finds in the current scope |
| SemanticsProperties.MixedObjectLiteral | runtime/evals/expressions.ts:110-121 | `{a, b: 1, a: 2}` fails as `lookFor("a")` does when `a` is unbound, and otherwise is a fresh object with `a` equal to 2 and `b` equal to 1 |
| SemanticsProperties.EvalPropsKeys | runtime/evals/expressions.ts:113-118 | whatever the property values, the loop only adds keys to the object, and when it succeeds every key of the literal is present |
| SemanticsProperties.ObjectLiteralHasItsKeys | runtime/evals/expressions.ts:110-121 | an object literal that evaluates is a reference to a fresh object holding every one of its keys |
| SemanticsProperties.EvalKeepsLinked | runtime/interpreter.ts:7-47 | evaluation keeps every parent chain finite and never shrinks either arena |
| Interpreter.Evaluate | runtime/interpreter.ts:7-47 | the dispatch method gives the result and heap of `Semantics.Eval` |
| Interpreter.EvaluateBinaryExpr | runtime/evals/expressions.ts:93-102 | gives the result and heap of `Semantics.EvaluateBinaryExpr` |
| Interpreter.EvalIdentifier | runtime/evals/expressions.ts:104-108 | gives `Semantics.EvalIdentifier` and leaves the heap as it was |
| Interpreter.EvalObjectExpr | runtime/evals/expressions.ts:110-121 | the in-place property loop gives the result and heap of `Semantics.EvalObjectExpr` |
| Interpreter.EvalCallExpr | runtime/evals/expressions.ts:123-154 | the argument loop, the callee and the call give the result and heap of `Semantics.EvalCallExpr` |
| Interpreter.CallValue | runtime/evals/expressions.ts:127-152 | the native call, or the new scope with the parameter loop (`Interpreter.BindParams`) and the body loop updating `res`, gives the result and heap of `Semantics.CallValue` |
| Interpreter.BindParams | runtime/evals/expressions.ts:136-141 | the in-place parameter loop gives the error and heap of `Semantics.BindParams` |
| Interpreter.EvalMemberExpr | runtime/evals/expressions.ts:156-161 | gives the result and heap of `Semantics.EvalMemberExpr` |
| Interpreter.EvalAssignment | runtime/evals/expressions.ts:163-171 | gives the result and heap of `Semantics.EvalAssignment` |
| Interpreter.EvaluateProgram | runtime/evals/statements.ts:6-13 | the loop updating `lastEvaluated` gives the result and heap of `Semantics.EvaluateProgram` |
| Interpreter.EvalVarDeclaration | runtime/evals/statements.ts:15-19 | gives the result and heap of `Semantics.EvalVarDeclaration` |
| Interpreter.EvalFuncDeclaration | runtime/evals/statements.ts:21-33 | gives the result and heap of `Semantics.EvalFuncDeclaration` |

## Left out

- `main.ts`, `repl.ts`, `resources/translator.ts` and the standalone Python script are not part of this model. They are interactive drivers, a display table and an unrelated program.
- The output of `yell` (`console.log`) is not modelled. Only its failure on an `undefined` argument is kept, where reading `.type` throws.
- `getCurtime` does not read a live clock. It reads `Store.clock`, a fixed number the heap is built with, and nothing advances it.
- Semantics.CallNative: `yeet(v)` throws the value `v` itself, not its `.value` field. Errors are error kinds, so the thrown payload is not displayed.
- Message text (emoji, `JSON.stringify` of nodes) is not modelled. Each thrown string becomes one error kind.
- IEEE-754 arithmetic is not modelled. Numbers are exact reals, so there is no rounding and no overflow.
- Operators.NumericBinary: a zero divisor for `/` or `%` gives a `NonFiniteNumber` error, where JavaScript gives `Infinity` or `NaN`.
- Parser.ParseFloat reads the digit strings the lexer produces. It does not model `parseFloat` on arbitrary text.
- Lexer.IsAlpha accepts ASCII letters only. The source's upper/lower-case test also admits letters outside ASCII.
- Lexer.Tokenize works on whole characters. `sourceCode.split("")` splits into UTF-16 code units, so for a character outside the Basic Multilingual Plane the source fails on its first surrogate, where the model fails on the whole character. Whether it fails, and where, is the same; only the character reported differs.
- Parser.Parser.Expect requires a non-empty queue. On an empty one the source's `prev.value` would throw a host `TypeError`; every call is made with at least the EOF sentinel left.
- The native functions ignore the calling scope they are passed. None of the four natives uses it.
- Semantics.CallValue is a function split out of `eval_call_expr` so that its call step can be reasoned about alone. Its branches are the same as the source's.
- A missing argument is bound to an explicit `undefined` value (`Values.Value.Undefined`). The source does not check arity, and neither does the model.
- A call on `undefined` fails as `HostTypeError` rather than "not a function", because reading `.type` of `undefined` throws first.
- `lookObj` with a property that is not an identifier has an `undefined` key. Nothing ever reads that key back, so the model drops the write.
- Only user-function calls spend fuel. The `OutOfFuel` error stands for the host's stack overflow under unbounded recursion. For fuel large enough that it never runs out, the model computes what the source would.
- `DanglingReference` (a scope or object index outside the arena) has no counterpart in the source. A store built by these operations never produces it.
- `runtime/values.ts` declares only the `null`, `number` and `boolean` tags and none of the `MK_STR`, `MK_INTERNAL_FN` or `ObjectValue` names the other files import. The model's value type has all seven tags those files build.
- `evaluate_relation_expr` and `evaluate_comparison_expr` are modelled as written, but no case of `evaluate` calls them. The dispatch sends a `RelationalExpr` to the not-implemented default.
- Parser.Parser.ProduceAST stops at the first parse error. The tokens still queued after an error are not specified.
- Objects are an arena of property maps indexed by reference. JavaScript's object identity and garbage collection are not modelled beyond that.
- SemanticsProperties.FillLastWins is proved only for simple property values: shorthand, number, string or identifier. A call or an assignment as a value can run code that writes to other objects. Proving that the last occurrence wins for such values would need a heap invariant saying that no reachable value refers to the object still being built. For those values the model proves only the key set (`SemanticsProperties.EvalPropsKeys`) and the frame (`Semantics.EvalProps`).
- SemanticsProperties.ObjectLiteralIsFresh gives the exact object only for literals of simple values, for the same reason. For any other literal, `SemanticsProperties.ObjectLiteralHasItsKeys` proves only that the object is fresh and holds every key.
- SemanticsProperties.ShorthandProperty covers literals whose other values are simple. When a later value is a call, it could rebind the name or write to the object, and only the key's presence is proved.

## Findings

| source | as written | input that shows it | evidently intended | confidence | as-written member | corrected member |
|---|---|---|---|---|---|---|
| runtime/evals/expressions.ts:66-91 | no case of the `switch` ends in `break`, so each falls through to `default`, and every operator gives `lhs != rhs`; the `!=` case also computes `<=` | `2 < 1` gives true | each case ends with `break`, and `!=` computes inequality | high; not executed | Operators.ComparisonAsWrittenCounterexample | Operators.ComparisonWithBreaksMeaning |
| runtime/evals/expressions.ts:34-64 | the same missing `break`s, so every boolean operator gives `lhs != rhs` | `true && true` gives false | each case ends with `break`: `&&` is conjunction and the or-operator is disjunction | high; not executed | Operators.RelationIsAlwaysInequality | Operators.RelationWithBreaksMeaning |
