/** The rules of a conditional (src/instruction/if_else.rs), stated over what its
    condition and its blocks give: the dispatcher in `Instructions` feeds them. */
module IfElses {
  import opened Wrappers
  import opened Diagnostics
  import opened TypeChecker
  import opened Instances

  const BoolType := Resolved("bool")

  /** `execute`: a condition that yields nothing stops here; otherwise the block that the
      condition selects runs, and a false condition without an else yields nothing */
  function Execute(k: Kernels, cond: Outcome, ifBody: Outcome, elseBody: Option<Outcome>): (o: Outcome)
    ensures o.Done? ==> cond.Done? && cond.errors <= o.errors
    ensures o.Done? && o.value.Some? ==>
      cond.value.Some? && (o == Then(cond.errors, ifBody) || (elseBody.Some? && o == Then(cond.errors, elseBody.value)))
  {
    match cond
    case Unreachable => Unreachable
    case Done(None, e) => Done(None, e)
    case Done(Some(c), e) =>
      if k.truthy(c) then Then(e, ifBody)
      else match elseBody
        case Some(o) => Then(e, o)
        case None => Done(None, e)
  }

  /** The branch table of `resolve_type` */
  function Branches(ifTy: CheckedType, elseTy: Option<CheckedType>): Typing {
    match elseTy
    case None => if ifTy == Void then Typing(Void, []) else Typing(CheckedType.Error, [TypeCheckerError])
    case Some(t) => if ifTy != t then Typing(CheckedType.Error, [TypeCheckerError]) else Typing(ifTy, [])
  }

  /** `resolve_type`: a deferred condition in the first pass defers the whole node;
      otherwise a non-boolean condition is reported and the branches are still resolved */
  function ResolveType(secondPass: bool, cond: Typing, ifBody: Typing, elseBody: Option<Typing>): Typing {
    if cond.ty == Later && !secondPass then Typing(Later, cond.errors)
    else
      var condErrors := cond.errors + (if cond.ty != BoolType then [TypeCheckerError] else []);
      var elseErrors := if elseBody.Some? then elseBody.value.errors else [];
      var elseTy := if elseBody.Some? then Some(elseBody.value.ty) else None;
      var b := Branches(ifBody.ty, elseTy);
      Typing(b.ty, condErrors + ifBody.errors + elseErrors + b.errors)
  }

  /** `print` */
  function Print(cond: string, ifBody: string, elseBody: Option<string>): (s: string)
    ensures "if " + cond + " " + ifBody <= s
    ensures elseBody.None? <==> |s| == |cond| + |ifBody| + 4
  {
    var base := "if " + cond + " " + ifBody;
    match elseBody
    case Some(e) => base + " else " + e
    case None => base
  }

  /** Resolution keeps the condition's errors first, and its type is `Later`, `Error` or
      the if block's type; `Later` comes from the condition unless the if block is `Later` */
  lemma ResolveTypeShape(secondPass: bool, cond: Typing, ifBody: Typing, elseBody: Option<Typing>)
    ensures var t := ResolveType(secondPass, cond, ifBody, elseBody);
      cond.errors <= t.errors &&
      (t.ty == Later || t.ty == CheckedType.Error || t.ty == ifBody.ty) &&
      (t.ty == Later && ifBody.ty != Later ==> cond.ty == Later)
  {
  }

  /** The branch table: (Void, no else) is Void; (T, else T) is T; (T, else U) with U != T
      and (non-Void T, no else) record one error and give `Error` */
  lemma BranchTable(ifTy: CheckedType, elseTy: Option<CheckedType>)
    ensures elseTy == None && ifTy == Void ==> Branches(ifTy, elseTy) == Typing(Void, [])
    ensures elseTy == Some(ifTy) ==> Branches(ifTy, elseTy) == Typing(ifTy, [])
    ensures elseTy.Some? && elseTy.value != ifTy ==> Branches(ifTy, elseTy) == Typing(CheckedType.Error, [TypeCheckerError])
    ensures elseTy == None && ifTy != Void ==> Branches(ifTy, elseTy) == Typing(CheckedType.Error, [TypeCheckerError])
    ensures Branches(ifTy, elseTy).errors == [] ==> Branches(ifTy, elseTy).ty == ifTy
    ensures Branches(ifTy, elseTy).errors != [] ==> Branches(ifTy, elseTy) == Typing(CheckedType.Error, [TypeCheckerError])
  {
  }

  /** A deferred condition in the first pass gives `Later`, adds no error and leaves both
      branches unresolved: their typings play no part */
  lemma LaterShortCircuits(cond: Typing, ifBody: Typing, elseBody: Option<Typing>)
    requires cond.ty == Later
    ensures ResolveType(false, cond, ifBody, elseBody) == Typing(Later, cond.errors)
  {
  }

  /** A condition that is not `bool` adds exactly one error right after the condition's own,
      and the branches are resolved exactly as under a boolean condition */
  lemma NonBoolConditionStillResolvesBranches(secondPass: bool, cond: Typing, ifBody: Typing, elseBody: Option<Typing>)
    requires cond.ty != BoolType && !(cond.ty == Later && !secondPass)
    ensures var asBool := ResolveType(secondPass, Typing(BoolType, cond.errors), ifBody, elseBody);
      ResolveType(secondPass, cond, ifBody, elseBody) ==
        Typing(asBool.ty, cond.errors + [TypeCheckerError] + asBool.errors[|cond.errors|..])
  {
  }

  /** A boolean condition adds no error of its own: the typing is the branch table's, after
      the errors of the condition and of the blocks */
  lemma BoolCondition(secondPass: bool, cond: Typing, ifBody: Typing, elseBody: Option<Typing>)
    requires cond.ty == BoolType
    ensures var b := Branches(ifBody.ty, if elseBody.Some? then Some(elseBody.value.ty) else None);
      ResolveType(secondPass, cond, ifBody, elseBody) ==
        Typing(b.ty, cond.errors + ifBody.errors + (if elseBody.Some? then elseBody.value.errors else []) + b.errors)
  {
  }

  /** Execution: a true condition gives the if block's outcome, a false one the else
      block's, or nothing and no error when there is no else */
  lemma ExecuteSelects(k: Kernels, c: Instance, e: seq<Error>, ifBody: Outcome, elseBody: Option<Outcome>)
    ensures k.truthy(c) ==> Execute(k, Done(Some(c), e), ifBody, elseBody) == Then(e, ifBody)
    ensures !k.truthy(c) && elseBody.Some? ==> Execute(k, Done(Some(c), e), ifBody, elseBody) == Then(e, elseBody.value)
    ensures !k.truthy(c) && elseBody.None? ==> Execute(k, Done(Some(c), e), ifBody, elseBody) == Done(None, e)
  {
  }

  /** A condition that yields nothing gives nothing, adds no error, and neither block's
      outcome plays a part */
  lemma NothingConditionRunsNoBlock(k: Kernels, e: seq<Error>, ifBody: Outcome, elseBody: Option<Outcome>)
    ensures Execute(k, Done(None, e), ifBody, elseBody) == Done(None, e)
  {
  }

  /** The printed conditional with an else block is the one without it, followed by
      " else " and the else block */
  lemma PrintElseExtends(cond: string, ifBody: string, elseBody: string)
    ensures Print(cond, ifBody, Some(elseBody)) == Print(cond, ifBody, None) + " else " + elseBody
    ensures Print(cond, ifBody, None) == "if " + cond + " " + ifBody
  {
  }
}
