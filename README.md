# A verified model of the Jinko interpreter's AST core

Jinko is a small interpreted language written in Rust. This project models the core of its
interpreter: the operator table, the type checker's state (`CheckedType` and `TypeCtx`), and
the four AST nodes `BinaryOp`, `IfElse`, `Var` and `JkInst` (a `@dump`/`@quit`/`@ir` context
directive). For each node it models how it resolves its type (`resolve_type`), how it runs
(`execute`), how it prints itself (`print`) and what kind of instruction it is (`kind`). The
model proves properties of all of these.

Layout, one module per file:

- `operator.dfy` (`Operators`): the eight operators, token parsing and rendering, precedence
  and associativity.
- `typechecker.dfy` (`TypeChecker`): `CheckedType`, `TypeCtx` as a class with scope stacks
  for variables, functions and custom types, a second-pass flag and an append-only error list.
- `scope_map.dfy` (`ScopeMap`): one namespace as a stack of maps, innermost scope last.
- `instance.dfy` (`Instances`): runtime values, the primitive kernels as parameters, and
  `Outcome`, which is what executing a node yields.
- `var.dfy`, `jk_inst.dfy`, `binary_op.dfy`, `if_else.dfy` (`Variables`, `Directives`,
  `BinaryOps`, `IfElses`): each node's own rules, stated over what its children give.
- `instruction.dfy` (`Instructions`): the instruction tree and the specification functions
  `Resolve` and `Eval` that dispatch to the per-node rules.
- `context.dfy` (`Runtime`): the runtime context as a class.
- `interpreter.dfy` (`Interpreter`): the tree walks as methods. They act on the two context
  classes and are proved to return exactly what `Resolve`/`Eval` give and to append exactly
  the errors those give.
- `soundness.dfy` (`Soundness`): a node that type-checks to `T` without an error only ever
  yields values of type `T` at run time.
- `examples.dfy` (`Examples`): the unit tests of `binary_op.rs`, `if_else.rs`, `var.rs` and
  `jk_inst.rs`, restated over the model. The two tests that declare a function through the
  `jinko!` macro (`tc_binop_from_func`, `tc_if_else_in_func`) are not restated, because
  function declarations and calls are not part of this model.

Modelling choices:

- **Nodes are values.** The node setters (`Var::set_*`, `set_cached_type`) are modelled as
  functional updates. Each node is exclusively owned by its parent in the source, so nothing
  can observe the difference.
- **Contexts are classes.** The type and runtime contexts are Dafny classes whose methods
  change their fields in place.
- **Errors are kinds.** An error is recorded by its kind only (`Parsing`, `Context`,
  `TypeChecker`); message texts are not modelled.
- **Kernels are parameters.** The arithmetic kernels (`JkInt::do_op`, `JkFloat::do_op`)
  and `JkBool::from_instance` are function parameters of type `Kernels`.
- **Panics become preconditions.** The `unreachable!` panics are the outcome `Unreachable`
  in the specification. The methods require that the specification does not reach it.

Assumptions about code outside the modelled files (`ScopeMap`, `Block`, `Context`,
`ErrorHandler`, `ObjectInstance`):

- **Scopes.** A namespace is a stack of scopes. Adding fails with a Context error when the
  name is already in the innermost scope or no scope is open. Lookup searches from the
  innermost scope outwards.
- **Blocks.** A block opens a scope for its instructions and runs or resolves them in order.
  It yields the last instruction's value or type, unless the block is a statement, which
  yields nothing and has type `Void`. A block prints as `{`, then one line per instruction,
  indented by four spaces and ending in `;` when the instruction is a statement, then `}`. `Block::new()` is an empty statement block.
- **Runtime context.** `Context::new()` opens one empty scope and holds no errors.

Where the documented design and the code disagree, the model follows the code:

- **Binary operand mismatch.** When the operand types differ, `BinaryOp::resolve_type`
  returns `Unknown`, not `Error` (src/instruction/binary_op.rs:176). See
  `BinaryOps.ResolveType`.
- **Unchecked operator legality.** The type checker only checks that both operands have
  the same type, so `true + true` passes it. Running it then reaches the `unreachable!` of
  `BinaryOp::execute` (src/instruction/binary_op.rs:120-122). See
  `Soundness.BoolAdditionPassesTypeCheck`. Whether bool operations were meant to be
  rejected statically or to get a kernel later is not evident, so this is not listed as a
  finding.
- **Five `CheckedType` variants.** The enum in src/typechecker.rs:17-21 has three variants,
  but the nodes also use `Later` and `Error`, so the model has all five.

## Model

| member | source | states |
|---|---|---|
| Operators.FromToken | src/instruction/operator.rs:20-33 | parsing is defined exactly on the eight tokens; "!=" is the only token giving `NotEquals`, "==" the only one giving `Equals` |
| Operators.ToToken | src/instruction/operator.rs:36-48 | as written: every rendering is one of the eight tokens, and no operator renders as "!=" |
| Operators.RenderParsedToken | src/instruction/operator.rs:20-48 | rendering a parsed token gives the token back, except "!=", which comes back as "==" |
| Operators.ParseRenderedOperator | src/instruction/operator.rs:20-48 | parsing a rendered operator gives the operator back, except `NotEquals`, which becomes `Equals` |
| Operators.NotEqualsRendersAsEquals | src/instruction/operator.rs:46 | `NotEquals` and `Equals` render alike, so `NotEquals` does not survive rendering and parsing |
| Operators.ToTokenCorrected | src/instruction/operator.rs:36-48 | the corrected rendering, used by `BinaryOps.PrintCorrected`, always gives one of the eight tokens |
| Operators.CorrectedRoundTrip | src/instruction/operator.rs:20-48 | with the corrected rendering, parse after render and render after parse are both the identity |
| Operators.CorrectionOnlyTouchesNotEquals | src/instruction/operator.rs:46 | the correction changes the rendering of `NotEquals` and of no other operator |
| Operators.Precedence | src/instruction/operator.rs:53-64 | precedence is at most 3; it is 3 exactly for Mul/Div, 2 exactly for Add/Sub, 0 exactly for the comparisons and parentheses |
| Operators.PrecedenceOrdering | src/instruction/operator.rs:56-58 | Mul/Div bind tighter than Add/Sub, which bind tighter than Equals/NotEquals |
| Operators.IsLeftAssociative | src/instruction/operator.rs:67-75 | every operator is left-associative |
| ScopeMap.FindInnermost | src/typechecker.rs:180-183 | a lookup succeeds iff some scope binds the name, and then gives the binding of the innermost such scope |
| ScopeMap.Add | src/typechecker.rs:150-154 | a declaration fails with a Context error iff no scope is open or the innermost scope already binds the name; otherwise only the innermost scope changes, gaining the binding |
| ScopeMap.FindAfterAdd | src/typechecker.rs:150-183 | after a successful declaration the name is found with the declared value, and every other name is found as before |
| ScopeMap.EnterExit | src/typechecker.rs:139-147 | opening a scope hides no binding, and closing it gives the previous stack back |
| ScopeMap.ShadowInNewScope | src/typechecker.rs:139-154 | any name can be declared in a freshly opened scope, shadowing outer bindings, until that scope is closed |
| TypeChecker.Default | src/typechecker.rs:23-27 | the default checked type is `Unknown`, which displays as "!!unknown!!" |
| TypeChecker.Show | src/typechecker.rs:29-39 | a resolved type displays as its id, `Void` as "void", `Unknown` as "!!unknown!!" |
| TypeChecker.PrimitivesDeclared | src/typechecker.rs:92-110 | the initial type scope knows exactly bool, int, float, char and string, each as its own resolved type with no fields |
| TypeChecker.Tolerate | src/typechecker.rs:153 | in the second pass every declaration counts as a success; in the first pass the scope map's result is kept, error included |
| TypeChecker.TypeCtx.constructor | src/typechecker.rs:82-112 | a new context is in the first pass, has no errors, has one scope per namespace, and that scope holds only the five primitive types |
| TypeChecker.TypeCtx.DeclarePrimitive | src/typechecker.rs:92-101 | a primitive declaration in the single open scope always succeeds and adds the primitive as its own resolved type |
| TypeChecker.TypeCtx.StartSecondPass | src/typechecker.rs:114-116 | switches to the second pass and changes nothing else |
| TypeChecker.TypeCtx.ScopeEnter | src/typechecker.rs:139-142 | opens one empty scope in each of the three namespaces |
| TypeChecker.TypeCtx.ScopeExit | src/typechecker.rs:144-147 | closes the innermost scope of each of the three namespaces |
| TypeChecker.TypeCtx.DeclareVar | src/typechecker.rs:149-154 | the variable namespace changes exactly as the scope map's add says; the result is the add result, or success in the second pass; afterwards a successful declaration is found by `get_var` and other names are unaffected |
| TypeChecker.TypeCtx.DeclareFunction | src/typechecker.rs:156-166 | the same for functions, with their argument and return types |
| TypeChecker.TypeCtx.DeclareCustomType | src/typechecker.rs:168-178 | the same for custom types, with their self type and field types |
| TypeChecker.TypeCtx.IsSecondPass | src/typechecker.rs:118-120 | reads the pass flag that `StartSecondPass` sets |
| TypeChecker.TypeCtx.GetVar | src/typechecker.rs:180-183 | a variable's type is found exactly when some open scope declares the name |
| TypeChecker.TypeCtx.GetFunction | src/typechecker.rs:185-193 | a function's signature is found exactly when some open scope declares the name |
| TypeChecker.TypeCtx.GetCustomType | src/typechecker.rs:195-203 | a custom type is found exactly when some open scope declares the name |
| TypeChecker.TypeCtx.Error | src/typechecker.rs:205-208 | appends exactly one error record and changes nothing else |
| Instances.Empty | src/instruction/var.rs:26 | the empty instance has the default type and no payload |
| Variables.New | src/instruction/var.rs:22-29 | a new variable has the given name, is immutable, holds the empty instance and no cached type |
| Variables.SetInstance | src/instruction/var.rs:46-49 | replaces the instance and nothing else |
| Variables.SetMutable | src/instruction/var.rs:51-54 | replaces the mutability flag and nothing else |
| Variables.SetType | src/instruction/var.rs:56-58 | retags the instance with the resolved type, keeping its payload and every other field |
| Variables.SetCachedType | src/instruction/var.rs:108-110 | stores the cached type and nothing else |
| Variables.Print | src/instruction/var.rs:66-73 | the name comes first; the type annotation appears only when the instance type is resolved; then " = " and the value |
| Variables.Execute | src/instruction/var.rs:75-92 | a bound name yields a copy of the bound instance with no error; an unbound name yields nothing and exactly one Context error |
| Variables.ResolveType | src/instruction/var.rs:95-106 | a declared name resolves to its declared type with no error; an undeclared one to `Error` with exactly one TypeChecker error |
| Directives.FromFunctionCall | src/instruction/jk_inst.rs:27-45 | succeeds iff the name is dump, quit or ir, and the directive then prints as "@" + name; any other name gives a Parsing error |
| Directives.Print | src/instruction/jk_inst.rs:53-60 | every directive prints as "@" followed by a directive name |
| Directives.PrintInjective | src/instruction/jk_inst.rs:53-60 | the three renderings are pairwise distinct, and each parses back to its directive |
| Directives.ResolveType | src/instruction/jk_inst.rs:79-81 | a directive resolves to `Void` with no error |
| Directives.CachedType | src/instruction/jk_inst.rs:85-87 | the cached type of a directive is always `Void` |
| Directives.SetCachedType | src/instruction/jk_inst.rs:83 | caching a type on a directive changes nothing |
| Directives.Execute | src/instruction/jk_inst.rs:62-75 | a directive yields nothing and records no error |
| BinaryOps.ExecuteNode | src/instruction/binary_op.rs:50-61 | an operand that yields nothing adds exactly one Context error; any other outcome is passed through |
| BinaryOps.ResolveType | src/instruction/binary_op.rs:165-180 | the operands' errors come first; equal operand types give that type and no further error; different types give `Unknown` and exactly one more error, a TypeChecker one |
| BinaryOps.Apply | src/instruction/binary_op.rs:87-127 | `unreachable!` is reached exactly when both values have one type that has no kernel; otherwise at most one error is recorded, and a value comes back only with no error and only from two values of one type |
| BinaryOps.Execute | src/instruction/binary_op.rs:78-161 | the operation completes only when its left operand does, and keeps that operand's errors first; it gives a value only when both operands gave one |
| BinaryOps.Print | src/instruction/binary_op.rs:69-76 | the print starts with the left text and ends with the right text, with the operator's `as_str` token and two spaces between them |
| BinaryOps.PrintKeepsOperator | src/instruction/binary_op.rs:69-76 | the token between the printed operands parses back to the operator, except that a printed `NotEquals` reads back as `Equals` |
| BinaryOps.PrintCorrected | src/instruction/operator.rs:46 | the intended print differs from the print as written exactly when the operator is `NotEquals` |
| BinaryOps.PrintCorrectedKeepsOperator | src/instruction/operator.rs:30-46 | with the intended print, the token between the operands parses back to the operator, `NotEquals` included |
| BinaryOps.LeftNothingSkipsRight | src/instruction/binary_op.rs:83 | a left operand yielding nothing ends the operation with one added Context error, and the right operand plays no part |
| BinaryOps.RightNothing | src/instruction/binary_op.rs:84 | a right operand yielding nothing ends the operation with one Context error after both operands' errors |
| BinaryOps.MismatchedValuesAreSilent | src/instruction/binary_op.rs:87-89 | operand values of different types give nothing and add no error |
| BinaryOps.IntKernelResult | src/instruction/binary_op.rs:98-108 | on int operands the kernel's success is the result, unchanged; its failure is recorded and nothing is returned |
| BinaryOps.FloatKernelResult | src/instruction/binary_op.rs:109-119 | the float type dispatches to the float kernel in the same way |
| BinaryOps.UnreachableExactly | src/instruction/binary_op.rs:96-127 | the `unreachable!` is reached exactly when both values have the same type and it is neither int nor float |
| IfElses.Execute | src/instruction/if_else.rs:66-82 | the conditional completes only when its condition does, and keeps the condition's errors first; a value comes only after a condition that gave one, and it is the outcome of the if block or of the else block |
| IfElses.Branches | src/instruction/if_else.rs:108-128 | the `match` on the branch types; its four rows are stated by `IfElses.BranchTable` |
| IfElses.ResolveType | src/instruction/if_else.rs:87-129 | the whole of `resolve_type` over the typings of the condition and the blocks; its cases are stated by `IfElses.LaterShortCircuits`, `IfElses.NonBoolConditionStillResolvesBranches`, `IfElses.BoolCondition` and `IfElses.ResolveTypeShape` |
| IfElses.ResolveTypeShape | src/instruction/if_else.rs:87-129 | the condition's errors always come first; the type is `Later`, `Error` or the if block's type, and it is `Later` only when the condition or the if block is |
| IfElses.Print | src/instruction/if_else.rs:57-64 | the print begins with "if ", the condition, a space and the if block, and is exactly that when there is no else block |
| IfElses.BranchTable | src/instruction/if_else.rs:108-128 | the four rows of the branch table: (Void, no else) gives Void; (T, else T) gives T; (T, else U != T) and (non-Void T, no else) give `Error` with one TypeChecker error |
| IfElses.LaterShortCircuits | src/instruction/if_else.rs:91-93 | in the first pass a `Later` condition gives `Later`, adds no error, and the branches play no part |
| IfElses.NonBoolConditionStillResolvesBranches | src/instruction/if_else.rs:95-106 | a non-bool condition adds exactly one error after the condition's own, and the branches are resolved as for a bool condition |
| IfElses.BoolCondition | src/instruction/if_else.rs:95-128 | with a bool condition the type is the branch table's and the errors are the condition's, the branches' and the table's, in that order |
| IfElses.ExecuteSelects | src/instruction/if_else.rs:66-82 | a true condition yields the if block's result, a false one the else block's, or nothing with no error when there is no else |
| IfElses.NothingConditionRunsNoBlock | src/instruction/if_else.rs:69 | a condition yielding nothing yields nothing, and neither block plays a part |
| IfElses.PrintElseExtends | src/instruction/if_else.rs:57-64 | the print is "if " + condition + " " + if block, with " else " + else block appended when there is an else |
| Instructions.Kind | src/instruction/if_else.rs:51-55 | a kind never carries a value; a node is a statement exactly when it is a directive, or a conditional or block whose if block or own block is a statement |
| Instructions.Print | src/instruction/binary_op.rs:69-76 | `print` dispatched over the tree, children first; each node's text is stated by `BinaryOps.Print`, `IfElses.Print`, `Variables.Print` and `Directives.Print` |
| Instructions.Resolve | src/typechecker.rs:225-229 | `resolve_type` dispatched over the tree; it is what `Interpreter.ResolveType` computes and what `Soundness.ResolvedTypeIsRuntimeType` relates to execution |
| Instructions.Eval | src/instruction/binary_op.rs:78-84 | `execute` dispatched over the tree; it is what `Interpreter.Execute` computes and what `Soundness.ResolvedTypeIsRuntimeType` relates to resolution |
| Instructions.TypeCheck | src/typechecker.rs:243-247 | a node whose type is known comes back unchanged with no error; an `Unknown` one records exactly its resolution's errors, and a conditional or variable then reads back the resolved type; kind and print never change |
| Instructions.CachedType | src/instruction/if_else.rs:135-137 | a directive's cached type is always `Void`; a node without a cache field has none |
| Instructions.SetCachedType | src/instruction/if_else.rs:131-133 | a conditional or variable then holds the given type; any other node is unchanged; kind and print never change |
| Instructions.GetType | src/typechecker.rs:238-239 | `get_type` reads the cached type, and `Unknown` when there is none |
| Instructions.NewIfElse | src/instruction/if_else.rs:36-47 | a new conditional keeps its parts and has no cached type |
| Instructions.KindTable | src/instruction/if_else.rs:51-55 | a conditional has its if block's kind, so one with an empty block is a statement; operations and variables are expressions and directives are statements |
| Instructions.CachedTypeRoundTrip | src/instruction/if_else.rs:131-137 | after caching a type on a conditional or a variable it is read back; on nodes without a cache nothing changes |
| Instructions.CachingKeepsBehaviour | src/instruction/if_else.rs:131-137 | caching a type changes neither resolution, execution, print nor kind |
| Instructions.TypeCheckCaches | src/typechecker.rs:243-247 | `type_check` leaves a node with a known type untouched and records nothing; after checking a caching node whose type resolves to something other than `Unknown`, checking again changes nothing; nodes without a cache are re-resolved each time |
| Instructions.DirectivesAreNeverResolved | src/instruction/jk_inst.rs:83-87 | `type_check` never resolves a directive, whose type always reads as `Void` |
| Interpreter.Execute | src/instruction/var.rs:75-92 | running a node leaves the scopes as they were, returns exactly the value `Eval` gives, and appends exactly `Eval`'s errors to the context |
| Interpreter.ExecuteBinaryOp | src/instruction/binary_op.rs:78-161 | the same, for a binary operation, in the source's order of calls |
| Interpreter.ExecuteIfElse | src/instruction/if_else.rs:66-82 | the same, for a conditional, in the source's order of calls |
| Interpreter.ExecuteOperand | src/instruction/binary_op.rs:50-61 | an operand is run as a node, and one Context error is added when it yields nothing |
| Interpreter.ExecuteBlock | src/instruction/if_else.rs:72-80 | running a block appends exactly `EvalBlock`'s errors, returns its value, and closes the scope it opened |
| Interpreter.ResolveType | src/instruction/var.rs:95-106 | resolving a node leaves every namespace as it was, returns exactly the type `Resolve` gives, and appends exactly `Resolve`'s errors |
| Interpreter.ResolveBinaryOp | src/instruction/binary_op.rs:165-180 | the same, for a binary operation, in the source's order of calls |
| Interpreter.ResolveIfElse | src/instruction/if_else.rs:87-129 | the same, for a conditional, in the source's order of calls |
| Interpreter.ResolveArms | src/instruction/if_else.rs:100-128 | resolves the if block, then the else block if any, then the branch table, returning the type of `Arms` and appending exactly its errors |
| Interpreter.ResolveBranches | src/instruction/if_else.rs:108-128 | returns the branch table's type and appends exactly the branch table's errors |
| Interpreter.ResolveBlockType | src/instruction/if_else.rs:100-104 | resolving a block appends exactly `ResolveBlock`'s errors, returns its type, and closes the scopes it opened |
| Interpreter.TypeCheck | src/typechecker.rs:243-247 | the imperative `type_check` returns the node and appends the errors that the cache-if-unknown rule gives |
| Soundness.FindAgrees | src/typechecker.rs:180-183 | runtime scopes whose instances have the types the type scopes declare give lookups that agree on presence and type |
| Soundness.ResolvedTypeIsRuntimeType | src/instruction/binary_op.rs:93-95 | with type-preserving kernels and agreeing scopes, a node that resolves to T (not `Later`) without an error yields only values of type T |
| Soundness.BlockResolvedTypeIsRuntimeType | src/instruction/if_else.rs:12-15 | the same for a block |
| Soundness.DirectiveIsVoid | src/instruction/jk_inst.rs:62-81 | a directive resolves to `Void` without an error and yields nothing |
| Soundness.BoolAdditionPassesTypeCheck | src/instruction/binary_op.rs:120-122 | `true + true` resolves to bool without an error, yet executing it reaches `unreachable!` |
| Soundness.IntComparisonIsNotACondition | src/instruction/binary_op.rs:165-180 | an `==` or `!=` of two ints resolves to int without an error, so used as a condition it is always reported as not a bool (src/instruction/if_else.rs:95-100) |
| Runtime.Context.constructor | src/instruction/var.rs:134 | a new runtime context has one open, empty scope and no error |
| Runtime.Context.ScopeEnter | src/instruction/if_else.rs:72-80 | opens one empty innermost scope, as the blocks that `execute` runs do |
| Runtime.Context.ScopeExit | src/instruction/if_else.rs:72-80 | closes the innermost scope |
| Runtime.Context.AddVariable | src/instruction/var.rs:140 | the scopes change exactly as the scope map's add says; after a success the variable is found under its name, and every other name is found as before |
| Runtime.Context.GetVariable | src/instruction/var.rs:76 | a variable is found exactly when some open scope binds the name |
| Runtime.Context.Error | src/instruction/var.rs:79-84 | appends exactly one error record and changes nothing else |
| Examples.BinopAssert | src/instruction/binary_op.rs:192-206 | an addition or multiplication of two int literals in a fresh context yields the kernel's result and no error |
| Examples.BinopCases | src/instruction/binary_op.rs:208-237 | the six test cases yield 24, 14, 101, 144, 24 and 198 |
| Examples.NestedOperand | src/instruction/binary_op.rs:238-282 | a nested `12 * 3` operand yields 36 with no error on either side of a subtraction |
| Examples.BinopTypeChecks | src/instruction/binary_op.rs:284-306 | `1 + 1` and `1.0 + 1.4` type-check; `1 + '4'` and `1.0 + "hey"` record errors |
| Examples.KeepInstance | src/instruction/var.rs:132-143 | a variable bound in a fresh context executes to the stored instance with no error |
| Examples.VariableTypeChecks | src/instruction/var.rs:145-159 | a declared variable resolves to its type; an undeclared one gives `Error` and one TypeChecker error |
| Examples.RedeclarationByPass | src/typechecker.rs:150-154 | a redeclaration fails with a Context error in the first pass and succeeds in the second |
| Examples.FreshTypeContext | src/typechecker.rs:82-112 | a fresh type context finds int as a primitive and no unknown type or variable |
| Examples.IfElseExecute | src/instruction/if_else.rs:194-236 | `if true {42} else {69}` yields 42 and the false case yields 69, with no error |
| Examples.IfElseShape | src/instruction/if_else.rs:163-192 | the print tests "if true {\n}" and "if true {\n} else {\n}", and the kind test |
| Examples.IfElseTypeChecks | src/instruction/if_else.rs:238-282 | `if true {15} else {14}` is int; a float condition and mismatched branches each record one error |
| Examples.DirectiveCases | src/instruction/jk_inst.rs:98-130 | "tamer" is rejected, "dump" and "ir" are accepted, and `@dump` resolves to `Void` |

## Left out

- The I/O of `JkInst::execute` (src/instruction/jk_inst.rs:65-69) is not modelled: `@dump` prints the context, `@quit` ends the process and `@ir` prints a usage line. Only the `None` result is modelled, so a `@quit` is modelled as returning.
- The arguments that `JkInst::from_function_call` keeps (`_args`) are never used by the core and are not modelled; a directive is its kind.
- Directives.FromFunctionCall: takes the function name rather than a parsed `FunctionCall`, because the parser is not part of this model.
- Floating-point arithmetic and the internals of `JkInt::do_op`, `JkFloat::do_op` and `JkBool::from_instance` are not modelled. They are function parameters (`Instances.Kernels`), and the examples state which results they assume.
- Int literals are unbounded; the source's `i64` width matters only inside the int kernel, which is a parameter.
- Error messages and locations are not modelled; an error is its kind.
- Terminal colouring in `Display`, and the `log!`/`debug` calls, are not modelled.
- TypeChecker.Show: the display of `Later` and `Error` is not modelled, because the enum at src/typechecker.rs:17-21 has no such variants; they are defined outside the modelled files.
- The path and include bookkeeping of `TypeCtx` (src/typechecker.rs:122-137) is not modelled; it is file-inclusion plumbing.
- `Generic::expand` and `resolve_self` (src/instruction/if_else.rs:140-156) are not modelled; they delegate to generic-expansion code outside the core.
- src/value/jink_char.rs is not modelled; it is a one-line print wrapper.
- The caching of children during resolution is not modelled. `IfElse::resolve_type` resolves its condition and blocks through `type_of` (src/instruction/if_else.rs:89, 100-104), which is defined outside the modelled files; `BinaryOp::resolve_type` calls `resolve_type` on its operands directly (src/instruction/binary_op.rs:166-167). The model resolves every child afresh. Caching is modelled for `type_check` only.
- The in-place setters of `Var` and `IfElse` are modelled as functional updates. In-place update and aliasing are therefore not captured; each node has exactly one owner in the source.
- The code of `ScopeMap`, `Block`, `Context`, `ErrorHandler` and `ObjectInstance` is not part of this model; the assumptions above stand in for it.
- Interpreter.Execute: requires that the specification completes, so the `unreachable!` panics are preconditions of the methods rather than behaviour.
- Soundness.ResolvedTypeIsRuntimeType: holds only for kernels that return values of their operands' type. The int kernel is defined outside the modelled files, so this is a hypothesis; a comparison that returns a bool would break it, and the type checker would then be unsound for comparisons. `Soundness.IntComparisonIsNotACondition` shows the other side of the same gap: a comparison is typed as its operands, so it is never accepted as a condition.

## Findings

| source | as written | input that shows it | evidently intended | confidence | as-written member | corrected member |
|---|---|---|---|---|---|---|
| src/instruction/operator.rs:46 | `NotEquals` renders as "==" | `NotEquals`: rendered "==", parsed back as `Equals` | `NotEquals` renders as "!=", the token it is parsed from at src/instruction/operator.rs:30 | high, not executed | Operators.NotEqualsRendersAsEquals | Operators.CorrectedRoundTrip |

The print of a binary operation follows the code as written (`BinaryOps.Print`, so `a != b`
prints as `a == b`); `BinaryOps.PrintCorrected` is the same print with the intended
rendering, and `BinaryOps.PrintCorrectedKeepsOperator` proves that its operator token reads
back unchanged.
