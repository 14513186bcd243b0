/** Context directives such as `@dump()` (src/instruction/jk_inst.rs). Their effects on
    the process (printing, exiting) are not modelled; they yield no value. */
module Directives {
  import opened Wrappers
  import opened Diagnostics
  import opened TypeChecker
  import opened Instances

  datatype JkInstKind = Dump | Quit | Ir

  /** The names that denote a directive */
  predicate IsDirectiveName(name: string) {
    name in {"dump", "quit", "ir"}
  }

  /** `from_function_call`: only the three directive names are accepted; any other name
      is a Parsing error. A directive prints back as "@" followed by its name. */
  function FromFunctionCall(name: string): (r: Result<JkInstKind, Error>)
    ensures r.Ok? <==> IsDirectiveName(name)
    ensures r.Err? ==> r.error == ParsingError
    ensures r.Ok? ==> Print(r.value) == "@" + name
  {
    if name == "dump" then Ok(Dump)
    else if name == "quit" then Ok(Quit)
    else if name == "ir" then Ok(Ir)
    else Err(ParsingError)
  }

  /** `print` */
  function Print(d: JkInstKind): (s: string)
    ensures |s| > 1 && s[0] == '@' && IsDirectiveName(s[1..])
  {
    match d
    case Dump => "@dump"
    case Quit => "@quit"
    case Ir => "@ir"
  }

  /** Distinct directives print differently, and parsing the printed name gives the
      directive back */
  lemma PrintInjective(d: JkInstKind, e: JkInstKind)
    ensures Print(d) == Print(e) ==> d == e
    ensures FromFunctionCall(Print(d)[1..]) == Ok(d)
  {
  }

  /** `resolve_type`: a directive is `Void` and records nothing */
  function ResolveType(d: JkInstKind): (t: Typing)
    ensures t.ty == Void && t.errors == []
  {
    Typing(Void, [])
  }

  /** `cached_type` */
  function CachedType(d: JkInstKind): (t: Option<CheckedType>)
    ensures t == Some(Void)
  {
    Some(Void)
  }

  /** `set_cached_type` is a no-op: the cached type stays `Void` whatever is stored */
  function SetCachedType(d: JkInstKind, ty: CheckedType): (e: JkInstKind)
    ensures e == d && CachedType(e) == Some(Void)
  {
    d
  }

  /** `execute`, without its printing or exiting: nothing, and no error */
  function Execute(d: JkInstKind): (o: Outcome)
    ensures o == Done(None, [])
  {
    Done(None, [])
  }
}
