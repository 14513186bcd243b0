/** The use of a variable (src/instruction/var.rs). A `Var` is an owned value: the
    source's `&mut self` setters become functional updates. */
module Variables {
  import opened Wrappers
  import opened Diagnostics
  import opened ScopeMap
  import opened TypeChecker
  import opened Instances

  datatype Var = Var(name: string, mutable: bool, instance: Instance, cachedType: Option<CheckedType>)

  /** `Var::new`: immutable, holding the empty instance, with no cached type */
  function New(name: string): (v: Var)
    ensures v.name == name && !v.mutable && v.instance == Empty() && v.cachedType == None
  {
    Var(name, false, Empty(), None)
  }

  /** `set_instance`: the instance read back afterwards is the one stored */
  function SetInstance(v: Var, inst: Instance): (w: Var)
    ensures w.instance == inst
    ensures w.name == v.name && w.mutable == v.mutable && w.cachedType == v.cachedType
  {
    v.(instance := inst)
  }

  /** `set_mutable`: changes the mutability flag only */
  function SetMutable(v: Var, mutable: bool): (w: Var)
    ensures w.mutable == mutable
    ensures w.name == v.name && w.instance == v.instance && w.cachedType == v.cachedType
  {
    v.(mutable := mutable)
  }

  /** `set_type`: tags the held instance with a resolved type, keeping its payload */
  function SetType(v: Var, ty: TypeId): (w: Var)
    ensures w.instance.ty == Resolved(ty) && w.instance.payload == v.instance.payload
    ensures w.name == v.name && w.mutable == v.mutable && w.cachedType == v.cachedType
  {
    v.(instance := v.instance.(ty := Resolved(ty)))
  }

  /** `set_cached_type` */
  function SetCachedType(v: Var, ty: CheckedType): (w: Var)
    ensures w.cachedType == Some(ty)
    ensures w.name == v.name && w.mutable == v.mutable && w.instance == v.instance
  {
    v.(cachedType := Some(ty))
  }

  /** `print`: the name, annotated with the instance's type only when that type is
      resolved, then " = " and the instance's text */
  function Print(v: Var): (s: string)
    ensures |s| >= |v.name| && s[..|v.name|] == v.name
    ensures !v.instance.ty.Resolved? ==> s == v.name + " = " + AsString(v.instance)
    ensures v.instance.ty.Resolved? ==>
      s == v.name + " /* : " + v.instance.ty.id + " */" + " = " + AsString(v.instance)
  {
    var base := if v.instance.ty.Resolved? then v.name + " /* : " + v.instance.ty.id + " */" else v.name;
    base + " = " + AsString(v.instance)
  }

  /** `execute`: a copy of the instance bound to the name in the runtime scopes, or one
      Context error and nothing */
  function Execute(scopes: Stack<Var>, v: Var): (o: Outcome)
    ensures Find(scopes, v.name).None? <==> o == Done(None, [ContextError])
    ensures Find(scopes, v.name).Some? ==> o == Done(Some(Find(scopes, v.name).value.instance), [])
  {
    match Find(scopes, v.name)
    case Some(bound) => Done(Some(bound.instance), [])
    case None => Done(None, [ContextError])
  }

  /** `resolve_type`: the declared type unchanged, or one TypeChecker error and `Error` */
  function ResolveType(vars: Stack<CheckedType>, v: Var): (t: Typing)
    ensures Find(vars, v.name).Some? ==> t == Typing(Find(vars, v.name).value, [])
    ensures Find(vars, v.name).None? ==> t == Typing(CheckedType.Error, [TypeCheckerError])
  {
    match Find(vars, v.name)
    case Some(ty) => Typing(ty, [])
    case None => Typing(CheckedType.Error, [TypeCheckerError])
  }
}
