/** Static types and the type-checking context (src/typechecker.rs). */
module TypeChecker {
  import opened Wrappers
  import opened Diagnostics
  import opened ScopeMap

  /** The name of a nominal type */
  type TypeId = string

  /** The static type of a node. `Later` marks a type that depends on a declaration not
      reached yet in the first pass; `Error` marks a node whose error was already reported. */
  datatype CheckedType =
    | Resolved(id: TypeId)
    | Void
    | Unknown
    | Later
    | Error

  /** `CheckedType::default()` */
  function Default(): (t: CheckedType)
    ensures t.Unknown? && Show(t) == "!!unknown!!"
  {
    Unknown
  }

  /** The `Display` text of a type, without the terminal colouring. The displayed enum
      has only the first three variants, so the two analysis markers are excluded. */
  function Show(t: CheckedType): (s: string)
    requires t.Resolved? || t.Void? || t.Unknown?
    ensures t.Resolved? ==> s == t.id
    ensures t == Void ==> s == "void"
    ensures t == Unknown ==> s == "!!unknown!!"
  {
    match t
    case Resolved(id) => id
    case Void => "void"
    case Unknown => "!!unknown!!"
  }

  /** A function's signature: argument names and types in order, and its return type */
  datatype FunctionType = FunctionType(argsTy: seq<(string, CheckedType)>, returnTy: CheckedType)

  /** A custom type: its own type and its fields' names and types in order */
  datatype CustomType = CustomType(selfTy: CheckedType, fieldsTy: seq<(string, CheckedType)>)

  /** What resolving a node gives: its type and the errors recorded meanwhile, in order */
  datatype Typing = Typing(ty: CheckedType, errors: seq<Error>)

  /** The primitive types, declared by `TypeCtx::new` */
  const Primitives: seq<TypeId> := ["bool", "int", "float", "char", "string"]

  /** A primitive type: its own resolved type, with no field */
  function Prim(p: TypeId): CustomType {
    CustomType(Resolved(p), [])
  }

  /** The scope that `TypeCtx::new` leaves in the custom-type namespace */
  function PrimitiveTypes(): map<TypeId, CustomType> {
    map["bool" := Prim("bool"), "int" := Prim("int"), "float" := Prim("float"), "char" := Prim("char"), "string" := Prim("string")]
  }

  /** Each primitive is known by its own name, as its own resolved type, with no field */
  lemma PrimitivesDeclared(p: TypeId)
    ensures Find([PrimitiveTypes()], p).Some? <==> p in Primitives
    ensures p in Primitives ==> Find([PrimitiveTypes()], p) == Some(CustomType(Resolved(p), []))
  {
  }

  /** The `or_else` of the `declare_*` methods: in the second pass a failed declaration
      counts as a success, in the first pass the result of the scope map is kept */
  function Tolerate<X>(secondPass: bool, r: Result<X, Error>): (d: Result<(), Error>)
    ensures secondPass ==> d.Ok?
    ensures !secondPass ==> (d.Ok? <==> r.Ok?)
    ensures !secondPass && r.Err? ==> d == Err(r.error)
  {
    match r
    case Ok(_) => Ok(())
    case Err(e) => if secondPass then Ok(()) else Err(e)
  }

  class TypeCtx {
    /** The error handler: an append-only list of records */
    var errors: seq<Error>
    /** The three namespaces of the scope map, opened and closed together */
    var vars: Stack<CheckedType>
    var functions: Stack<FunctionType>
    var types: Stack<CustomType>
    var isSecondPass: bool

    ghost predicate Valid()
      reads this
    {
      |vars| == |functions| == |types|
    }

    /** `TypeCtx::new`: one scope holding the five primitive types, in the first pass.
        Each declaration is unwrapped in the source, so each must succeed. */
    constructor ()
      ensures Valid() && !isSecondPass && errors == []
      ensures vars == [map[]] && functions == [map[]] && types == [PrimitiveTypes()]
    {
      errors := [];
      vars, functions, types := [], [], [];
      isSecondPass := false;
      new;
      ScopeEnter();
      DeclarePrimitive("bool");
      DeclarePrimitive("int");
      DeclarePrimitive("float");
      DeclarePrimitive("char");
      DeclarePrimitive("string");
    }

    /** The `declare_primitive!` macro of `TypeCtx::new`: the declaration is unwrapped, so
        the name must not be declared yet */
    method DeclarePrimitive(p: TypeId)
      requires Valid() && |types| == 1 && p !in types[0]
      modifies this`types
      ensures Valid() && types == [old(types)[0][p := Prim(p)]]
    {
      var r := DeclareCustomType(p, Resolved(p), []);
      assert r.Ok?;
    }

    method StartSecondPass()
      modifies this`isSecondPass
      ensures isSecondPass
    {
      isSecondPass := true;
    }

    function IsSecondPass(): bool
      reads this
    {
      isSecondPass
    }

    method ScopeEnter()
      requires Valid()
      modifies this`vars, this`functions, this`types
      ensures Valid()
      ensures vars == Enter(old(vars)) && functions == Enter(old(functions)) && types == Enter(old(types))
    {
      vars, functions, types := Enter(vars), Enter(functions), Enter(types);
    }

    method ScopeExit()
      requires Valid()
      modifies this`vars, this`functions, this`types
      ensures Valid()
      ensures vars == Exit(old(vars)) && functions == Exit(old(functions)) && types == Exit(old(types))
    {
      vars, functions, types := Exit(vars), Exit(functions), Exit(types);
    }

    method DeclareVar(name: string, ty: CheckedType) returns (r: Result<(), Error>)
      requires Valid()
      modifies this`vars
      ensures Valid()
      ensures vars == Committed(old(vars), Add(old(vars), name, ty))
      ensures r == Tolerate(isSecondPass, Add(old(vars), name, ty))
      ensures Add(old(vars), name, ty).Ok? ==> GetVar(name) == Some(ty)
      ensures forall other :: other != name ==> GetVar(other) == Find(old(vars), other)
    {
      var added := Add(vars, name, ty);
      if added.Ok? {
        forall other {
          FindAfterAdd(vars, name, ty, other);
        }
      }
      vars := Committed(vars, added);
      r := Tolerate(isSecondPass, added);
    }

    method DeclareFunction(name: string, argsTy: seq<(string, CheckedType)>, returnTy: CheckedType)
      returns (r: Result<(), Error>)
      requires Valid()
      modifies this`functions
      ensures Valid()
      ensures var f := FunctionType(argsTy, returnTy);
        functions == Committed(old(functions), Add(old(functions), name, f)) &&
        r == Tolerate(isSecondPass, Add(old(functions), name, f))
      ensures Add(old(functions), name, FunctionType(argsTy, returnTy)).Ok? ==>
        GetFunction(name) == Some(FunctionType(argsTy, returnTy))
      ensures forall other :: other != name ==> GetFunction(other) == Find(old(functions), other)
    {
      var added := Add(functions, name, FunctionType(argsTy, returnTy));
      if added.Ok? {
        forall other {
          FindAfterAdd(functions, name, FunctionType(argsTy, returnTy), other);
        }
      }
      functions := Committed(functions, added);
      r := Tolerate(isSecondPass, added);
    }

    method DeclareCustomType(name: string, selfTy: CheckedType, fieldsTy: seq<(string, CheckedType)>)
      returns (r: Result<(), Error>)
      requires Valid()
      modifies this`types
      ensures Valid()
      ensures var c := CustomType(selfTy, fieldsTy);
        types == Committed(old(types), Add(old(types), name, c)) &&
        r == Tolerate(isSecondPass, Add(old(types), name, c))
      ensures Add(old(types), name, CustomType(selfTy, fieldsTy)).Ok? ==>
        GetCustomType(name) == Some(CustomType(selfTy, fieldsTy))
      ensures forall other :: other != name ==> GetCustomType(other) == Find(old(types), other)
    {
      var added := Add(types, name, CustomType(selfTy, fieldsTy));
      if added.Ok? {
        forall other {
          FindAfterAdd(types, name, CustomType(selfTy, fieldsTy), other);
        }
      }
      types := Committed(types, added);
      r := Tolerate(isSecondPass, added);
    }

    /** Lookup, innermost scope first: found exactly when some open scope declares the name */
    function GetVar(name: string): (r: Option<CheckedType>)
      reads this
      ensures r.Some? <==> exists i :: 0 <= i < |vars| && name in vars[i]
    {
      FindInnermost(vars, name);
      Find(vars, name)
    }

    /** Lookup, innermost scope first: found exactly when some open scope declares the name */
    function GetFunction(name: string): (r: Option<FunctionType>)
      reads this
      ensures r.Some? <==> exists i :: 0 <= i < |functions| && name in functions[i]
    {
      FindInnermost(functions, name);
      Find(functions, name)
    }

    /** Lookup, innermost scope first: found exactly when some open scope declares the name */
    function GetCustomType(name: string): (r: Option<CustomType>)
      reads this
      ensures r.Some? <==> exists i :: 0 <= i < |types| && name in types[i]
    {
      FindInnermost(types, name);
      Find(types, name)
    }

    /** Record an error; nothing else changes and nothing ever removes a record */
    method Error(err: Error)
      modifies this`errors
      ensures errors == old(errors) + [err]
    {
      errors := errors + [err];
    }
  }
}
