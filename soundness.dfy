/** What a successful type check promises about execution. A tree that resolves to a
    type without recording an error yields, when executed, only values of that type,
    provided the runtime scopes hold values of the types the type scopes declare and the
    arithmetic kernels return values of their operands' type. The promise is only about
    values: it does not exclude the `unreachable!` of a binary operation, which a
    successful resolution can still reach (`BoolAdditionPassesTypeCheck`). */
module Soundness {
  import opened Wrappers
  import opened Diagnostics
  import opened Operators
  import opened ScopeMap
  import opened TypeChecker
  import opened Instances
  import opened Instructions
  import Variables
  import IfElses

  /** The type scopes and the runtime scopes bind the same names, scope by scope, and each
      type is the type of the bound instance */
  ghost predicate Agree(vars: Stack<CheckedType>, scopes: Stack<Variables.Var>) {
    |vars| == |scopes| &&
    forall i :: 0 <= i < |scopes| ==>
      vars[i].Keys == scopes[i].Keys &&
      forall name :: name in scopes[i] ==> vars[i][name] == scopes[i][name].instance.ty
  }

  /** The int and float kernels give a value of their operands' type */
  ghost predicate TypePreserving(k: Kernels) {
    (forall l: Instance, r: Instance, op: Operator ::
      l.ty == r.ty == Resolved("int") && k.intOp(l, r, op).Ok? ==> k.intOp(l, r, op).value.ty == Resolved("int")) &&
    (forall l: Instance, r: Instance, op: Operator ::
      l.ty == r.ty == Resolved("float") && k.floatOp(l, r, op).Ok? ==> k.floatOp(l, r, op).value.ty == Resolved("float"))
  }

  /** Agreeing scopes give agreeing lookups */
  lemma {:induction false} FindAgrees(vars: Stack<CheckedType>, scopes: Stack<Variables.Var>, name: string)
    requires Agree(vars, scopes)
    ensures Find(vars, name).Some? <==> Find(scopes, name).Some?
    ensures Find(scopes, name).Some? ==> Find(vars, name).value == Find(scopes, name).value.instance.ty
    decreases |scopes|
  {
    if |scopes| > 0 && name !in scopes[|scopes| - 1] {
      var outerVars, outerScopes := vars[..|vars| - 1], scopes[..|scopes| - 1];
      assert Agree(outerVars, outerScopes) by {
        forall i | 0 <= i < |outerScopes|
          ensures outerVars[i] == vars[i] && outerScopes[i] == scopes[i]
        {
        }
      }
      FindAgrees(outerVars, outerScopes, name);
    }
  }

  /** Opening a scope on both sides keeps them in agreement */
  lemma AgreeEnter(vars: Stack<CheckedType>, scopes: Stack<Variables.Var>)
    requires Agree(vars, scopes)
    ensures Agree(Enter(vars), Enter(scopes))
  {
  }

  /** The soundness of `resolve_type` with respect to `execute` */
  lemma {:induction false} ResolvedTypeIsRuntimeType(k: Kernels, vars: Stack<CheckedType>, secondPass: bool,
                                                     scopes: Stack<Variables.Var>, n: Instr)
    requires TypePreserving(k) && Agree(vars, scopes)
    requires Resolve(vars, secondPass, n).errors == [] && Resolve(vars, secondPass, n).ty != Later
    requires Eval(k, scopes, n).Done? && Eval(k, scopes, n).value.Some?
    ensures Eval(k, scopes, n).value.value.ty == Resolve(vars, secondPass, n).ty
    decreases n, 0
  {
    match n
    case Literal(_) =>
    case BinaryOp(l, r, op) =>
      ResolvedTypeIsRuntimeType(k, vars, secondPass, scopes, l);
      ResolvedTypeIsRuntimeType(k, vars, secondPass, scopes, r);
    case IfElse(c, ifBody, elseBody, _) =>
      var condT := Resolve(vars, secondPass, c);
      var ifT := ResolveBlock(vars, secondPass, ifBody);
      var elseT := if elseBody.Some? then Some(ResolveBlock(vars, secondPass, elseBody.value)) else None;
      assert Resolve(vars, secondPass, n) == IfElses.ResolveType(secondPass, condT, ifT, elseT);
      IfElses.BranchTable(ifT.ty, if elseT.Some? then Some(elseT.value.ty) else None);
      var cond := Eval(k, scopes, c);
      if k.truthy(cond.value.value) {
        BlockResolvedTypeIsRuntimeType(k, vars, secondPass, scopes, ifBody);
      } else {
        BlockResolvedTypeIsRuntimeType(k, vars, secondPass, scopes, elseBody.value);
      }
    case VarUse(v) =>
      FindAgrees(vars, scopes, v.name);
    case JkInst(_) =>
    case BlockInstr(b) =>
      BlockResolvedTypeIsRuntimeType(k, vars, secondPass, scopes, b);
  }

  /** The same for a block: a value block yields a value of its last instruction's type */
  lemma {:induction false} BlockResolvedTypeIsRuntimeType(k: Kernels, vars: Stack<CheckedType>, secondPass: bool,
                                                          scopes: Stack<Variables.Var>, b: Block)
    requires TypePreserving(k) && Agree(vars, scopes)
    requires ResolveBlock(vars, secondPass, b).errors == [] && ResolveBlock(vars, secondPass, b).ty != Later
    requires EvalBlock(k, scopes, b).Done? && EvalBlock(k, scopes, b).value.Some?
    ensures EvalBlock(k, scopes, b).value.value.ty == ResolveBlock(vars, secondPass, b).ty
    decreases b, |b.instructions| + 2
  {
    var count := |b.instructions|;
    if !b.isStatement && count > 0 {
      AgreeEnter(vars, scopes);
      var last := b.instructions[count - 1];
      assert ResolvePrefix(Enter(vars), secondPass, b, count).errors ==
        ResolvePrefix(Enter(vars), secondPass, b, count - 1).errors + Resolve(Enter(vars), secondPass, last).errors;
      ResolvedTypeIsRuntimeType(k, Enter(vars), secondPass, Enter(scopes), last);
    }
  }

  /** A directive resolves to `Void` without an error and yields nothing */
  lemma DirectiveIsVoid(k: Kernels, vars: Stack<CheckedType>, secondPass: bool, scopes: Stack<Variables.Var>, d: Directives.JkInstKind)
    ensures Resolve(vars, secondPass, JkInst(d)) == Typing(Void, [])
    ensures Eval(k, scopes, JkInst(d)) == Done(None, [])
  {
  }

  /** `true + true` passes the type check, since both operands are bools, but bool has no
      kernel: executing it reaches the `unreachable!` of `BinaryOp::execute` */
  lemma BoolAdditionPassesTypeCheck(k: Kernels, vars: Stack<CheckedType>, secondPass: bool, scopes: Stack<Variables.Var>)
    ensures var n := BinaryOp(Literal(BoolV(true)), Literal(BoolV(true)), Add);
      Resolve(vars, secondPass, n) == Typing(Resolved("bool"), []) && Eval(k, scopes, n) == Unreachable
  {
  }

  /** A comparison is typed as its operands, not as a bool: comparing two ints gives an int,
      so a comparison of ints used as the condition of a conditional is always reported as
      a non-boolean condition, whatever the blocks */
  lemma IntComparisonIsNotACondition(vars: Stack<CheckedType>, secondPass: bool, l: Instr, r: Instr, op: Operator, ifBody: Block, elseBody: Option<Block>)
    requires op == Equals || op == NotEquals
    requires Resolve(vars, secondPass, l) == Typing(Resolved("int"), [])
    requires Resolve(vars, secondPass, r) == Typing(Resolved("int"), [])
    ensures Resolve(vars, secondPass, BinaryOp(l, r, op)) == Typing(Resolved("int"), [])
    ensures var t := Resolve(vars, secondPass, IfElse(BinaryOp(l, r, op), ifBody, elseBody, None));
      |t.errors| > 0 && t.errors[0] == TypeCheckerError
  {
    assert "int"[0] != "bool"[0];
  }
}
