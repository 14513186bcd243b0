/** Runtime values: the instance envelope that carries a value with its type, the
    primitive kernels that the core dispatches to, and what executing a node yields. */
module Instances {
  import opened Wrappers
  import opened Diagnostics
  import opened Operators
  import opened TypeChecker

  /** A primitive literal value. Floating-point values are kept as their source text. */
  datatype Value =
    | IntV(i: int)
    | FloatV(text: string)
    | BoolV(b: bool)
    | CharV(c: char)
    | StrV(s: string)

  /** `ObjectInstance`: a value payload with its type tag. The empty instance has no payload. */
  datatype Instance = Instance(ty: CheckedType, payload: Option<Value>)

  /** `ObjectInstance::empty()`, the placeholder held by a variable before assignment */
  function Empty(): (e: Instance)
    ensures e.ty == Default() && e.payload.None?
  {
    Instance(Unknown, None)
  }

  /** The primitive type name of a literal */
  function TypeName(v: Value): (id: TypeId)
    ensures id in Primitives
  {
    match v
    case IntV(_) => "int"
    case FloatV(_) => "float"
    case BoolV(_) => "bool"
    case CharV(_) => "char"
    case StrV(_) => "string"
  }

  /** `to_instance()` of a literal: its value tagged with its resolved primitive type */
  function ToInstance(v: Value): (inst: Instance)
    ensures inst.ty.Resolved? && inst.ty.id in Primitives && inst.payload == Some(v)
  {
    Instance(Resolved(TypeName(v)), Some(v))
  }

  function NatToString(n: nat): (s: string)
    ensures |s| > 0
  {
    var d := ['0', '1', '2', '3', '4', '5', '6', '7', '8', '9'][n % 10];
    if n < 10 then [d] else NatToString(n / 10) + [d]
  }

  function IntToString(i: int): string {
    if i < 0 then "-" + NatToString(-i) else NatToString(i)
  }

  /** The text of a value, as literals print themselves */
  function ValueText(v: Value): string {
    match v
    case IntV(i) => IntToString(i)
    case FloatV(t) => t
    case BoolV(b) => if b then "true" else "false"
    case CharV(c) => [c]
    case StrV(s) => s
  }

  /** `ObjectInstance::as_string()`; the empty instance renders as nothing */
  function AsString(inst: Instance): string {
    match inst.payload
    case Some(v) => ValueText(v)
    case None => ""
  }

  /** The primitive value kernels, whose code is not part of this model: `JkInt::do_op`
      and `JkFloat::do_op` combine two instances under an operator or fail with an error,
      and `JkBool::from_instance` reads an instance as a boolean. */
  datatype Kernels = Kernels(
    intOp: (Instance, Instance, Operator) -> Result<Instance, Error>,
    floatOp: (Instance, Instance, Operator) -> Result<Instance, Error>,
    truthy: Instance -> bool)

  /** What executing a node yields: a value or nothing, with the errors recorded meanwhile
      in order; or `Unreachable`, where the source panics with `unreachable!` */
  datatype Outcome =
    | Done(value: Option<Instance>, errors: seq<Error>)
    | Unreachable

  /** An outcome preceded by errors recorded earlier */
  function Then(errs: seq<Error>, o: Outcome): (r: Outcome)
    ensures r.Done? == o.Done?
    ensures r.Done? ==> r.value == o.value && r.errors == errs + o.errors
  {
    match o
    case Done(v, e) => Done(v, errs + e)
    case Unreachable => Unreachable
  }
}
