/** The unit tests of the source, stated over the model. The int kernel is a parameter
    here; these cases fix only what it does on the operands they use. */
module Examples {
  import opened Wrappers
  import opened Diagnostics
  import opened Operators
  import opened ScopeMap
  import opened TypeChecker
  import opened Instances
  import opened Instructions
  import Variables
  import Directives
  import Runtime
  import Interpreter

  function Int(i: int): Instance {
    ToInstance(IntV(i))
  }

  /** An int kernel that adds, subtracts and multiplies */
  ghost predicate IntArithmetic(k: Kernels) {
    forall a: int, b: int ::
      k.intOp(Int(a), Int(b), Add) == Ok(Int(a + b)) &&
      k.intOp(Int(a), Int(b), Sub) == Ok(Int(a - b)) &&
      k.intOp(Int(a), Int(b), Mul) == Ok(Int(a * b))
  }

  /** A truthiness kernel that reads a bool */
  ghost predicate ReadsBools(k: Kernels) {
    forall b: bool :: k.truthy(ToInstance(BoolV(b))) == b
  }

  /** `binop_assert`: an operation on two int literals, run in a fresh context, yields the
      kernel's result and records no error */
  method BinopAssert(k: Kernels, l: int, r: int, op: Operator, res: int) returns (value: Option<Instance>, errors: seq<Error>)
    requires IntArithmetic(k)
    requires (op == Add && res == l + r) || (op == Mul && res == l * r)
    ensures value == Some(Int(res)) && errors == []
  {
    var ctx := new Runtime.Context();
    assert k.intOp(Int(l), Int(r), op) == Ok(Int(res));
    value := Interpreter.Execute(ctx, k, BinaryOp(Literal(IntV(l)), Literal(IntV(r)), op));
    errors := ctx.errors;
  }

  /** The six `t_binop_*` cases */
  method BinopCases(k: Kernels) returns (results: seq<Option<Instance>>)
    requires IntArithmetic(k)
    ensures results == [Some(Int(24)), Some(Int(14)), Some(Int(101)), Some(Int(144)), Some(Int(24)), Some(Int(198))]
  {
    var r0, _ := BinopAssert(k, 12, 12, FromToken("+"), 24);
    var r1, _ := BinopAssert(k, 12, 2, FromToken("+"), 14);
    var r2, _ := BinopAssert(k, 2, 99, FromToken("+"), 101);
    var r3, _ := BinopAssert(k, 12, 12, FromToken("*"), 144);
    var r4, _ := BinopAssert(k, 12, 2, FromToken("*"), 24);
    var r5, _ := BinopAssert(k, 2, 99, FromToken("*"), 198);
    results := [r0, r1, r2, r3, r4, r5];
  }

  /** `t_binop_rhs_execute` and `t_binop_lhs_execute`: a nested `12 * 3` operand yields 36
      with no error, on either side of `9 - ...` */
  lemma NestedOperand(k: Kernels, scopes: Stack<Variables.Var>)
    requires IntArithmetic(k)
    ensures var inner := BinaryOp(Literal(IntV(12)), Literal(IntV(3)), FromToken("*"));
      var right := BinaryOp(Literal(IntV(9)), inner, FromToken("-"));
      var left := BinaryOp(inner, Literal(IntV(9)), FromToken("-"));
      left.op == Sub && Eval(k, scopes, right.rhs) == Done(Some(Int(36)), []) &&
      Eval(k, scopes, left.lhs) == Done(Some(Int(36)), []) &&
      Eval(k, scopes, right) == Done(Some(Int(-27)), []) && Eval(k, scopes, left) == Done(Some(Int(27)), [])
  {
    assert k.intOp(Int(12), Int(3), Mul) == Ok(Int(36));
    assert k.intOp(Int(9), Int(36), Sub) == Ok(Int(-27));
    assert k.intOp(Int(36), Int(9), Sub) == Ok(Int(27));
  }

  /** `tc_binop_valid` and `tc_binop_mismatched_valid` */
  lemma BinopTypeChecks(vars: Stack<CheckedType>, secondPass: bool)
    ensures Resolve(vars, secondPass, BinaryOp(Literal(IntV(1)), Literal(IntV(1)), Add)) == Typing(Resolved("int"), [])
    ensures Resolve(vars, secondPass, BinaryOp(Literal(FloatV("1.0")), Literal(FloatV("1.4")), Add)) == Typing(Resolved("float"), [])
    ensures Resolve(vars, secondPass, BinaryOp(Literal(IntV(1)), Literal(CharV('4')), Add)).errors != []
    ensures Resolve(vars, secondPass, BinaryOp(Literal(FloatV("1.0")), Literal(StrV("hey")), Add)).errors != []
  {
    assert "int"[0] != "char"[0];
    assert "float"[0] != "string"[0];
  }

  /** `keep_instance`: a variable bound in a fresh context executes to the stored instance */
  method KeepInstance(k: Kernels) returns (value: Option<Instance>, errors: seq<Error>)
    ensures value == Some(Int(15)) && errors == []
  {
    var ctx := new Runtime.Context();
    var v := Variables.SetInstance(Variables.New("a"), Int(15));
    var added := ctx.AddVariable(v);
    value := Interpreter.Execute(ctx, k, VarUse(v));
    errors := ctx.errors;
  }

  /** `tc_valid` and `tc_invalid`: a declared variable resolves to its type, an undeclared
      one to `Error` with one error */
  method VariableTypeChecks() returns (declared: CheckedType, undeclared: CheckedType, errors: seq<Error>)
    ensures declared == Resolved("int") && undeclared == CheckedType.Error && errors == [TypeCheckerError]
  {
    var tcx := new TypeCtx();
    var r := tcx.DeclareVar("a", Resolved("int"));
    FindInnermost<CheckedType>([map[]], "b");
    declared := Interpreter.ResolveType(tcx, VarUse(Variables.New("a")));
    undeclared := Interpreter.ResolveType(tcx, VarUse(Variables.New("b")));
    errors := tcx.errors;
  }

  /** A redeclaration fails in the first pass and is tolerated in the second */
  method RedeclarationByPass() returns (first: Result<(), Error>, again: Result<(), Error>, second: Result<(), Error>)
    ensures first.Ok? && again == Err(ContextError) && second.Ok?
  {
    var tcx := new TypeCtx();
    first := tcx.DeclareVar("x", Resolved("int"));
    again := tcx.DeclareVar("x", Resolved("int"));
    tcx.StartSecondPass();
    second := tcx.DeclareVar("x", Resolved("int"));
  }

  /** A fresh type context knows the five primitive types and no variable */
  method FreshTypeContext() returns (intType: Option<CustomType>, unit: Option<CustomType>, someVar: Option<CheckedType>)
    ensures intType == Some(CustomType(Resolved("int"), [])) && unit.None? && someVar.None?
  {
    var tcx := new TypeCtx();
    PrimitivesDeclared("int");
    PrimitivesDeclared("unit");
    intType := tcx.GetCustomType("int");
    unit := tcx.GetCustomType("unit");
    FindInnermost<CheckedType>([map[]], "a");
    someVar := tcx.GetVar("a");
  }

  function ValueBlock(i: int): Block {
    Block([Literal(IntV(i))], false)
  }

  lemma ValueBlockYields(k: Kernels, scopes: Stack<Variables.Var>, i: int)
    ensures EvalBlock(k, scopes, ValueBlock(i)) == Done(Some(Int(i)), [])
  {
    var b := ValueBlock(i);
    assert EvalPrefix(k, Enter(scopes), b, 0) == Done(None, []);
    assert b.instructions[0] == Literal(IntV(i));
    assert Eval(k, Enter(scopes), b.instructions[0]) == Done(Some(Int(i)), []);
    assert EvalPrefix(k, Enter(scopes), b, 1) == Done(Some(Int(i)), []);
  }

  /** `t_if_execute` and `t_else_execute` */
  method IfElseExecute(k: Kernels, cond: bool) returns (value: Option<Instance>, errors: seq<Error>)
    requires ReadsBools(k)
    ensures value == Some(Int(if cond then 42 else 69)) && errors == []
  {
    var ctx := new Runtime.Context();
    assert k.truthy(ToInstance(BoolV(cond))) == cond;
    ValueBlockYields(k, ctx.scopes, 42);
    ValueBlockYields(k, ctx.scopes, 69);
    value := Interpreter.Execute(ctx, k, NewIfElse(Literal(BoolV(cond)), ValueBlock(42), Some(ValueBlock(69))));
    errors := ctx.errors;
  }

  /** `t_if_print`, `t_if_else_print` and `t_if_kind` */
  lemma IfElseShape()
    ensures Print(NewIfElse(Literal(BoolV(true)), NewBlock(), None)) == "if true {\n}"
    ensures Print(NewIfElse(Literal(BoolV(true)), NewBlock(), Some(NewBlock()))) == "if true {\n} else {\n}"
    ensures Kind(NewIfElse(Literal(BoolV(true)), NewBlock(), None)) == Statement
  {
    assert PrintBlock(NewBlock()) == "{\n}";
    assert Print(Literal(BoolV(true))) == "true";
  }

  /** `tc_if_else_simple`, `tc_if_else_not_bool_in_cond` and `tc_if_else_mismatched_types` */
  lemma IfElseTypeChecks(vars: Stack<CheckedType>, secondPass: bool)
    ensures Resolve(vars, secondPass, NewIfElse(Literal(BoolV(true)), ValueBlock(15), Some(ValueBlock(14)))) == Typing(Resolved("int"), [])
    ensures Resolve(vars, secondPass, NewIfElse(Literal(FloatV("4.5")), ValueBlock(15), Some(ValueBlock(14)))) == Typing(Resolved("int"), [TypeCheckerError])
    ensures Resolve(vars, secondPass, NewIfElse(Literal(BoolV(true)), ValueBlock(1), Some(Block([Literal(FloatV("4.5"))], false)))) == Typing(CheckedType.Error, [TypeCheckerError])
  {
    assert "float"[0] != "bool"[0];
    assert "int"[0] != "float"[0];
  }

  /** `t_invalid_jkinst`, `t_valid_inst_no_args`, `t_valid_inst_with_args` and `tc_valid_jk_inst` */
  lemma DirectiveCases(vars: Stack<CheckedType>, secondPass: bool)
    ensures Directives.FromFunctionCall("tamer") == Err(ParsingError)
    ensures Directives.FromFunctionCall("dump") == Ok(Directives.Dump)
    ensures Directives.FromFunctionCall("ir") == Ok(Directives.Ir)
    ensures Resolve(vars, secondPass, JkInst(Directives.Dump)) == Typing(Void, [])
  {
  }
}
