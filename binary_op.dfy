/** The rules of a binary operation (src/instruction/binary_op.rs), stated over what its
    operands give: the dispatcher in `Instructions` feeds them the operands' outcomes. */
module BinaryOps {
  import opened Wrappers
  import opened Diagnostics
  import opened Operators
  import opened TypeChecker
  import opened Instances

  /** `execute_node`: an operand that yields nothing is an invalid use of a statement,
      reported as one Context error */
  function ExecuteNode(o: Outcome): (r: Outcome)
    ensures o.Done? && o.value.None? ==> r == Done(None, o.errors + [ContextError])
    ensures !(o.Done? && o.value.None?) ==> r == o
  {
    match o
    case Done(None, e) => Done(None, e + [ContextError])
    case _ => o
  }

  /** Combining two operand values of the same type through that type's kernel. Values of
      different types give nothing, silently; a type with no kernel is `unreachable!`. */
  function Apply(k: Kernels, op: Operator, l: Instance, r: Instance): (o: Outcome)
    ensures o.Unreachable? <==> l.ty == r.ty && l.ty !in {Resolved("int"), Resolved("float")}
    ensures o.Done? ==> |o.errors| <= 1 && (o.value.Some? ==> o.errors == [] && l.ty == r.ty)
  {
    if l.ty != r.ty then Done(None, [])
    else match l.ty
      case Resolved(id) =>
        if id == "int" then
          match k.intOp(l, r, op)
          case Ok(v) => Done(Some(v), [])
          case Err(e) => Done(None, [e])
        else if id == "float" then
          match k.floatOp(l, r, op)
          case Ok(v) => Done(Some(v), [])
          case Err(e) => Done(None, [e])
        else Unreachable
      case _ => Unreachable
  }

  /** `execute`: the left operand first; the right one only when the left one gave a value */
  function Execute(k: Kernels, op: Operator, lhs: Outcome, rhs: Outcome): (o: Outcome)
    ensures o.Done? ==> lhs.Done? && lhs.errors <= o.errors
    ensures o.Done? && o.value.Some? ==> lhs.Done? && lhs.value.Some? && rhs.Done? && rhs.value.Some?
  {
    match ExecuteNode(lhs)
    case Unreachable => Unreachable
    case Done(None, el) => Done(None, el)
    case Done(Some(l), el) =>
      match ExecuteNode(rhs)
      case Unreachable => Unreachable
      case Done(None, er) => Done(None, el + er)
      case Done(Some(r), er) => Then(el + er, Apply(k, op, l, r))
  }

  /** `resolve_type`: both operands must have the same type */
  function ResolveType(lhs: Typing, rhs: Typing): (t: Typing)
    ensures |t.errors| == |lhs.errors| + |rhs.errors| + (if lhs.ty == rhs.ty then 0 else 1)
    ensures t.errors[..|lhs.errors| + |rhs.errors|] == lhs.errors + rhs.errors
    ensures lhs.ty == rhs.ty ==> t.ty == lhs.ty
    ensures lhs.ty != rhs.ty ==> t.ty == Unknown && t.errors[|t.errors| - 1] == TypeCheckerError
  {
    if lhs.ty != rhs.ty then Typing(Unknown, lhs.errors + rhs.errors + [TypeCheckerError])
    else Typing(lhs.ty, lhs.errors + rhs.errors)
  }

  /** `print`: the operands' texts around the operator's token, as `as_str` renders it */
  function Print(lhs: string, op: Operator, rhs: string): (s: string)
    ensures |s| == |lhs| + |ToToken(op)| + |rhs| + 2
    ensures s[..|lhs|] == lhs && s[|s| - |rhs|..] == rhs
  {
    lhs + " " + ToToken(op) + " " + rhs
  }

  /** The token between the printed operands parses back to the operator, except that a
      printed `NotEquals` reads back as `Equals` */
  lemma PrintKeepsOperator(lhs: string, op: Operator, rhs: string)
    ensures var s := Print(lhs, op, rhs);
      var n := |ToToken(op)|;
      IsToken(s[|lhs| + 1..|lhs| + 1 + n]) &&
      FromToken(s[|lhs| + 1..|lhs| + 1 + n]) == if op == NotEquals then Equals else op
  {
    var s := Print(lhs, op, rhs);
    var t := ToToken(op);
    assert s == lhs + [' '] + t + [' '] + rhs;
    assert s[|lhs| + 1..|lhs| + 1 + |t|] == t;
    ParseRenderedOperator(op);
  }

  /** The print evidently intended, with the corrected rendering of the operator */
  function PrintCorrected(lhs: string, op: Operator, rhs: string): (s: string)
    ensures s == Print(lhs, op, rhs) <==> op != NotEquals
  {
    CorrectionOnlyTouchesNotEquals(op);
    var s := lhs + " " + ToTokenCorrected(op) + " " + rhs;
    assert op != NotEquals ==> s == Print(lhs, op, rhs);
    assert op == NotEquals ==> s[|lhs| + 1..|lhs| + 3] == "!=" && Print(lhs, op, rhs)[|lhs| + 1..|lhs| + 3] == "==";
    s
  }

  /** With the intended print, the token between the operands parses back to the operator,
      `NotEquals` included */
  lemma PrintCorrectedKeepsOperator(lhs: string, op: Operator, rhs: string)
    ensures var s := PrintCorrected(lhs, op, rhs);
      var n := |ToTokenCorrected(op)|;
      |s| == |lhs| + n + |rhs| + 2 &&
      s[..|lhs|] == lhs && s[|s| - |rhs|..] == rhs &&
      IsToken(s[|lhs| + 1..|lhs| + 1 + n]) && FromToken(s[|lhs| + 1..|lhs| + 1 + n]) == op
  {
    var s := PrintCorrected(lhs, op, rhs);
    var t := ToTokenCorrected(op);
    assert s == lhs + [' '] + t + [' '] + rhs;
    assert s[|lhs| + 1..|lhs| + 1 + |t|] == t;
    CorrectedRoundTrip(op, t);
  }

  /** A left operand that yields nothing stops the operation: one Context error is added
      and the right operand's outcome plays no part */
  lemma LeftNothingSkipsRight(k: Kernels, op: Operator, el: seq<Error>, rhs: Outcome)
    ensures Execute(k, op, Done(None, el), rhs) == Done(None, el + [ContextError])
  {
  }

  /** A right operand that yields nothing adds one Context error after both operands' errors */
  lemma RightNothing(k: Kernels, op: Operator, l: Instance, el: seq<Error>, er: seq<Error>)
    ensures Execute(k, op, Done(Some(l), el), Done(None, er)) == Done(None, el + er + [ContextError])
  {
  }

  /** Values of different types give nothing and add no error */
  lemma MismatchedValuesAreSilent(k: Kernels, op: Operator, l: Instance, r: Instance, el: seq<Error>, er: seq<Error>)
    requires l.ty != r.ty
    ensures Execute(k, op, Done(Some(l), el), Done(Some(r), er)) == Done(None, el + er)
  {
  }

  /** On int operands the kernel's success is the result; its failure is recorded and
      nothing is returned */
  lemma IntKernelResult(k: Kernels, op: Operator, l: Instance, r: Instance, el: seq<Error>, er: seq<Error>)
    requires l.ty == r.ty == Resolved("int")
    ensures k.intOp(l, r, op).Ok? ==>
      Execute(k, op, Done(Some(l), el), Done(Some(r), er)) == Done(Some(k.intOp(l, r, op).value), el + er)
    ensures k.intOp(l, r, op).Err? ==>
      Execute(k, op, Done(Some(l), el), Done(Some(r), er)) == Done(None, el + er + [k.intOp(l, r, op).error])
  {
  }

  /** The float type dispatches to the float kernel in the same way */
  lemma FloatKernelResult(k: Kernels, op: Operator, l: Instance, r: Instance, el: seq<Error>, er: seq<Error>)
    requires l.ty == r.ty == Resolved("float")
    ensures k.floatOp(l, r, op).Ok? ==>
      Execute(k, op, Done(Some(l), el), Done(Some(r), er)) == Done(Some(k.floatOp(l, r, op).value), el + er)
    ensures k.floatOp(l, r, op).Err? ==>
      Execute(k, op, Done(Some(l), el), Done(Some(r), er)) == Done(None, el + er + [k.floatOp(l, r, op).error])
  {
  }

  /** Only values of one type with no kernel reach `unreachable!` */
  lemma UnreachableExactly(k: Kernels, op: Operator, l: Instance, r: Instance, el: seq<Error>, er: seq<Error>)
    ensures Execute(k, op, Done(Some(l), el), Done(Some(r), er)).Unreachable? <==>
      l.ty == r.ty && l.ty !in {Resolved("int"), Resolved("float")}
  {
  }
}
