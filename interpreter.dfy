/** The tree walks of the interpreter: `execute` against the runtime context and
    `resolve_type` / `type_check` against the type context. Each node's branch makes the
    same calls on the context, in the same order, as the node's source does; each method
    is proved to record exactly the errors, and to return exactly the result, that the
    specifications `Instructions.Eval` and `Instructions.Resolve` give. The `unreachable!`
    of a binary operation on a type without a kernel is excluded by the precondition that
    the specification completes. */
module Interpreter {
  import opened Wrappers
  import opened Diagnostics
  import opened ScopeMap
  import opened TypeChecker
  import opened Instances
  import opened Runtime
  import opened Instructions
  import Variables
  import BinaryOps
  import IfElses

  /** `execute`: the value a node yields; its errors go to the context's error handler */
  method Execute(ctx: Context, k: Kernels, n: Instr) returns (r: Option<Instance>)
    requires Eval(k, ctx.scopes, n).Done?
    modifies ctx`scopes, ctx`errors
    ensures ctx.scopes == old(ctx.scopes)
    ensures r == Eval(k, old(ctx.scopes), n).value
    ensures ctx.errors == old(ctx.errors) + Eval(k, old(ctx.scopes), n).errors
    decreases n, 2
  {
    match n
    case Literal(v) =>
      r := Some(ToInstance(v));
    case BinaryOp(_, _, _) =>
      r := ExecuteBinaryOp(ctx, k, n);
    case IfElse(_, _, _, _) =>
      r := ExecuteIfElse(ctx, k, n);
    case VarUse(v) =>
      var bound := ctx.GetVariable(v.name);
      if bound.None? {
        ctx.Error(ContextError);
        return None;
      }
      r := Some(bound.value.instance);
    case JkInst(_) =>
      r := None;
    case BlockInstr(b) =>
      r := ExecuteBlock(ctx, k, b);
  }

  /** `BinaryOp::execute`: both operands left to right, stopping at the first that yields
      nothing; values of one type go to that type's kernel */
  method ExecuteBinaryOp(ctx: Context, k: Kernels, n: Instr) returns (r: Option<Instance>)
    requires n.BinaryOp? && Eval(k, ctx.scopes, n).Done?
    modifies ctx`scopes, ctx`errors
    ensures ctx.scopes == old(ctx.scopes)
    ensures r == Eval(k, old(ctx.scopes), n).value
    ensures ctx.errors == old(ctx.errors) + Eval(k, old(ctx.scopes), n).errors
    decreases n, 0
  {
    ghost var scopes := ctx.scopes;
    ghost var lhsO, rhsO := Eval(k, scopes, n.lhs), Eval(k, scopes, n.rhs);
    assert Eval(k, scopes, n) == BinaryOps.Execute(k, n.op, lhsO, rhsO);
    var l := ExecuteOperand(ctx, k, n.lhs);
    if l.None? {
      return None;
    }
    var rv := ExecuteOperand(ctx, k, n.rhs);
    if rv.None? {
      return None;
    }
    ConcatAssoc(old(ctx.errors), lhsO.errors, rhsO.errors);
    assert Eval(k, scopes, n) == Then(lhsO.errors + rhsO.errors, BinaryOps.Apply(k, n.op, l.value, rv.value));
    if l.value.ty != rv.value.ty {
      return None;
    }
    match l.value.ty {
      case Resolved(id) =>
        if id == "int" {
          match k.intOp(l.value, rv.value, n.op) {
            case Ok(v) => r := Some(v);
            case Err(e) => ctx.Error(e); r := None;
          }
        } else if id == "float" {
          match k.floatOp(l.value, rv.value, n.op) {
            case Ok(v) => r := Some(v);
            case Err(e) => ctx.Error(e); r := None;
          }
        } else {
          assert false;
        }
      case _ =>
        assert false;
    }
  }

  /** `IfElse::execute`: the condition, then the block it selects */
  method ExecuteIfElse(ctx: Context, k: Kernels, n: Instr) returns (r: Option<Instance>)
    requires n.IfElse? && Eval(k, ctx.scopes, n).Done?
    modifies ctx`scopes, ctx`errors
    ensures ctx.scopes == old(ctx.scopes)
    ensures r == Eval(k, old(ctx.scopes), n).value
    ensures ctx.errors == old(ctx.errors) + Eval(k, old(ctx.scopes), n).errors
    decreases n, 0
  {
    var cond := Execute(ctx, k, n.condition);
    if cond.None? {
      return None;
    }
    if k.truthy(cond.value) {
      r := ExecuteBlock(ctx, k, n.ifBody);
    } else {
      match n.elseBody {
        case Some(b) => r := ExecuteBlock(ctx, k, b);
        case None => r := None;
      }
    }
  }

  /** `BinaryOp::execute_node`: an operand that yields nothing is reported as a statement
      used where a value is needed */
  method ExecuteOperand(ctx: Context, k: Kernels, n: Instr) returns (r: Option<Instance>)
    requires Eval(k, ctx.scopes, n).Done?
    modifies ctx`scopes, ctx`errors
    ensures ctx.scopes == old(ctx.scopes)
    ensures r == Eval(k, old(ctx.scopes), n).value
    ensures ctx.errors == old(ctx.errors) + BinaryOps.ExecuteNode(Eval(k, old(ctx.scopes), n)).errors
    decreases n, 3
  {
    r := Execute(ctx, k, n);
    if r.None? {
      ctx.Error(ContextError);
    }
  }

  /** Running a block: a scope is opened for it, its instructions run in order, and the
      scope is closed again */
  method ExecuteBlock(ctx: Context, k: Kernels, b: Block) returns (r: Option<Instance>)
    requires EvalBlock(k, ctx.scopes, b).Done?
    modifies ctx`scopes, ctx`errors
    ensures ctx.scopes == old(ctx.scopes)
    ensures r == EvalBlock(k, old(ctx.scopes), b).value
    ensures ctx.errors == old(ctx.errors) + EvalBlock(k, old(ctx.scopes), b).errors
    decreases b
  {
    ctx.ScopeEnter();
    var inner := ctx.scopes;
    var last: Option<Instance> := None;
    var i := 0;
    while i < |b.instructions|
      invariant 0 <= i <= |b.instructions|
      invariant ctx.scopes == inner
      invariant EvalPrefix(k, inner, b, i).Done?
      invariant last == EvalPrefix(k, inner, b, i).value
      invariant ctx.errors == old(ctx.errors) + EvalPrefix(k, inner, b, i).errors
    {
      PrefixCompletes(k, inner, b, i + 1, |b.instructions|);
      last := Execute(ctx, k, b.instructions[i]);
      i := i + 1;
    }
    ctx.ScopeExit();
    assert ctx.scopes == old(ctx.scopes) by {
      assert inner[..|inner| - 1] == old(ctx.scopes);
    }
    r := if b.isStatement then None else last;
  }

  /** `resolve_type`: the static type of a node; its errors go to the type context */
  method ResolveType(tcx: TypeCtx, n: Instr) returns (t: CheckedType)
    requires tcx.Valid()
    modifies tcx`errors, tcx`vars, tcx`functions, tcx`types
    ensures tcx.Valid()
    ensures tcx.vars == old(tcx.vars) && tcx.functions == old(tcx.functions) && tcx.types == old(tcx.types)
    ensures t == Resolve(old(tcx.vars), tcx.isSecondPass, n).ty
    ensures tcx.errors == old(tcx.errors) + Resolve(old(tcx.vars), tcx.isSecondPass, n).errors
    decreases n, 2
  {
    match n
    case Literal(v) =>
      t := Resolved(TypeName(v));
    case BinaryOp(_, _, _) =>
      t := ResolveBinaryOp(tcx, n);
    case IfElse(_, _, _, _) =>
      t := ResolveIfElse(tcx, n);
    case VarUse(v) =>
      var found := tcx.GetVar(v.name);
      if found.None? {
        tcx.Error(TypeCheckerError);
        return CheckedType.Error;
      }
      t := found.value;
    case JkInst(_) =>
      t := Void;
    case BlockInstr(b) =>
      t := ResolveBlockType(tcx, b);
  }

  /** `BinaryOp::resolve_type`: both operands are resolved, left first, and must agree */
  method ResolveBinaryOp(tcx: TypeCtx, n: Instr) returns (t: CheckedType)
    requires n.BinaryOp? && tcx.Valid()
    modifies tcx`errors, tcx`vars, tcx`functions, tcx`types
    ensures tcx.Valid()
    ensures tcx.vars == old(tcx.vars) && tcx.functions == old(tcx.functions) && tcx.types == old(tcx.types)
    ensures t == Resolve(old(tcx.vars), tcx.isSecondPass, n).ty
    ensures tcx.errors == old(tcx.errors) + Resolve(old(tcx.vars), tcx.isSecondPass, n).errors
    decreases n, 0
  {
    ghost var vars, secondPass := tcx.vars, tcx.isSecondPass;
    ghost var lhsT, rhsT := Resolve(vars, secondPass, n.lhs), Resolve(vars, secondPass, n.rhs);
    assert Resolve(vars, secondPass, n) == BinaryOps.ResolveType(lhsT, rhsT);
    var lt := ResolveType(tcx, n.lhs);
    var rt := ResolveType(tcx, n.rhs);
    ConcatAssoc(old(tcx.errors), lhsT.errors, rhsT.errors);
    if lt != rt {
      tcx.Error(TypeCheckerError);
      ConcatAssoc(old(tcx.errors), lhsT.errors + rhsT.errors, [TypeCheckerError]);
      return Unknown;
    }
    t := lt;
  }

  /** `IfElse::resolve_type`: a condition resolved to `Later` in the first pass stops the
      resolution; otherwise the condition must be a bool and the branch table decides */
  method ResolveIfElse(tcx: TypeCtx, n: Instr) returns (t: CheckedType)
    requires n.IfElse? && tcx.Valid()
    modifies tcx`errors, tcx`vars, tcx`functions, tcx`types
    ensures tcx.Valid()
    ensures tcx.vars == old(tcx.vars) && tcx.functions == old(tcx.functions) && tcx.types == old(tcx.types)
    ensures t == Resolve(old(tcx.vars), tcx.isSecondPass, n).ty
    ensures tcx.errors == old(tcx.errors) + Resolve(old(tcx.vars), tcx.isSecondPass, n).errors
    decreases n, 1
  {
    ghost var vars, secondPass := tcx.vars, tcx.isSecondPass;
    ghost var condT := Resolve(vars, secondPass, n.condition);
    ghost var arms := Arms(vars, secondPass, n);
    ghost var spec := IfElses.ResolveType(secondPass, condT, ResolveBlock(vars, secondPass, n.ifBody),
      if n.elseBody.Some? then Some(ResolveBlock(vars, secondPass, n.elseBody.value)) else None);
    assert Resolve(vars, secondPass, n) == spec;
    var condTy := ResolveType(tcx, n.condition);
    if condTy == Later && !tcx.IsSecondPass() {
      assert spec == Typing(Later, condT.errors);
      return Later;
    }
    ghost var condErrors := condT.errors;
    if condTy != IfElses.BoolType {
      tcx.Error(TypeCheckerError);
      ConcatAssoc(old(tcx.errors), condT.errors, [TypeCheckerError]);
      condErrors := condT.errors + [TypeCheckerError];
    }
    assert spec == Typing(arms.ty, condErrors + arms.errors);
    t := ResolveArms(tcx, n);
    ConcatAssoc(old(tcx.errors), condErrors, arms.errors);
  }

  /** The branches of a conditional as `IfElse::resolve_type` resolves them after its
      condition: the if block, the else block if any, then the branch table */
  ghost function Arms(vars: Stack<CheckedType>, secondPass: bool, n: Instr): (t: Typing)
    requires n.IfElse?
  {
    var ifT := ResolveBlock(vars, secondPass, n.ifBody);
    var elseT := if n.elseBody.Some? then Some(ResolveBlock(vars, secondPass, n.elseBody.value)) else None;
    var table := IfElses.Branches(ifT.ty, if elseT.Some? then Some(elseT.value.ty) else None);
    Typing(table.ty, ifT.errors + (if elseT.Some? then elseT.value.errors else []) + table.errors)
  }

  /** Resolving the branches of a conditional, in the source's order */
  method ResolveArms(tcx: TypeCtx, n: Instr) returns (t: CheckedType)
    requires n.IfElse? && tcx.Valid()
    modifies tcx`errors, tcx`vars, tcx`functions, tcx`types
    ensures tcx.Valid()
    ensures tcx.vars == old(tcx.vars) && tcx.functions == old(tcx.functions) && tcx.types == old(tcx.types)
    ensures t == Arms(old(tcx.vars), tcx.isSecondPass, n).ty
    ensures tcx.errors == old(tcx.errors) + Arms(old(tcx.vars), tcx.isSecondPass, n).errors
    decreases n, 0
  {
    ghost var vars, secondPass := tcx.vars, tcx.isSecondPass;
    ghost var ifT := ResolveBlock(vars, secondPass, n.ifBody);
    var ifTy := ResolveBlockType(tcx, n.ifBody);
    // `recorded` is what this call has added to the error handler so far
    ghost var recorded := ifT.errors;
    var elseTy: Option<CheckedType> := None;
    if n.elseBody.Some? {
      ghost var elseT := ResolveBlock(vars, secondPass, n.elseBody.value);
      var et := ResolveBlockType(tcx, n.elseBody.value);
      ConcatAssoc(old(tcx.errors), recorded, elseT.errors);
      recorded := recorded + elseT.errors;
      elseTy := Some(et);
    }
    ghost var table := IfElses.Branches(ifTy, elseTy);
    t := ResolveBranches(tcx, ifTy, elseTy);
    ConcatAssoc(old(tcx.errors), recorded, table.errors);
  }

  /** The branch table of `IfElse::resolve_type`, recording its error when the branches disagree */
  method ResolveBranches(tcx: TypeCtx, ifTy: CheckedType, elseTy: Option<CheckedType>) returns (t: CheckedType)
    modifies tcx`errors
    ensures t == IfElses.Branches(ifTy, elseTy).ty
    ensures tcx.errors == old(tcx.errors) + IfElses.Branches(ifTy, elseTy).errors
  {
    match elseTy {
      case None =>
        if ifTy == Void {
          t := Void;
        } else {
          tcx.Error(TypeCheckerError);
          t := CheckedType.Error;
        }
      case Some(et) =>
        if ifTy != et {
          tcx.Error(TypeCheckerError);
          t := CheckedType.Error;
        } else {
          t := ifTy;
        }
    }
  }

  lemma ConcatAssoc<X>(a: seq<X>, b: seq<X>, c: seq<X>)
    ensures a + b + c == a + (b + c)
  {
  }

  /** Resolving a block: a scope is opened in every namespace, its instructions are
      resolved in order, and the scope is closed again */
  method ResolveBlockType(tcx: TypeCtx, b: Block) returns (t: CheckedType)
    requires tcx.Valid()
    modifies tcx`errors, tcx`vars, tcx`functions, tcx`types
    ensures tcx.Valid()
    ensures tcx.vars == old(tcx.vars) && tcx.functions == old(tcx.functions) && tcx.types == old(tcx.types)
    ensures t == ResolveBlock(old(tcx.vars), tcx.isSecondPass, b).ty
    ensures tcx.errors == old(tcx.errors) + ResolveBlock(old(tcx.vars), tcx.isSecondPass, b).errors
    decreases b
  {
    tcx.ScopeEnter();
    var inner := tcx.vars;
    var last := Void;
    var i := 0;
    while i < |b.instructions|
      invariant 0 <= i <= |b.instructions|
      invariant tcx.Valid()
      invariant tcx.vars == inner
      invariant tcx.functions == Enter(old(tcx.functions)) && tcx.types == Enter(old(tcx.types))
      invariant last == ResolvePrefix(inner, tcx.isSecondPass, b, i).ty
      invariant tcx.errors == old(tcx.errors) + ResolvePrefix(inner, tcx.isSecondPass, b, i).errors
    {
      last := ResolveType(tcx, b.instructions[i]);
      i := i + 1;
    }
    tcx.ScopeExit();
    assert tcx.vars == old(tcx.vars) by {
      assert inner[..|inner| - 1] == old(tcx.vars);
    }
    assert tcx.functions == old(tcx.functions) by {
      assert Enter(old(tcx.functions))[..|old(tcx.functions)|] == old(tcx.functions);
    }
    assert tcx.types == old(tcx.types) by {
      assert Enter(old(tcx.types))[..|old(tcx.types)|] == old(tcx.types);
    }
    t := if b.isStatement then Void else last;
  }

  /** `CachedTypeCheck::type_check`: a node whose cached type is still `Unknown` is
      resolved and the type is cached; any other node is left as it is and records nothing */
  method TypeCheck(tcx: TypeCtx, n: Instr) returns (checked: Instr)
    requires tcx.Valid()
    modifies tcx`errors, tcx`vars, tcx`functions, tcx`types
    ensures tcx.Valid()
    ensures tcx.vars == old(tcx.vars) && tcx.functions == old(tcx.functions) && tcx.types == old(tcx.types)
    ensures checked == Instructions.TypeCheck(old(tcx.vars), tcx.isSecondPass, n).0
    ensures tcx.errors == old(tcx.errors) + Instructions.TypeCheck(old(tcx.vars), tcx.isSecondPass, n).1
  {
    checked := n;
    if GetType(n) == Unknown {
      var t := ResolveType(tcx, n);
      checked := SetCachedType(n, t);
    }
  }
}
