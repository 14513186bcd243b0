/** The runtime context that nodes execute against: a scope stack of variable bindings
    and an error handler. Its source is not part of this model; only what the nodes use
    of it is modelled, with the same scope-map assumption as the type context. */
module Runtime {
  import opened Wrappers
  import opened Diagnostics
  import opened ScopeMap
  import opened Variables

  class Context {
    /** Variable bindings, innermost scope last */
    var scopes: Stack<Var>
    /** The error handler: an append-only list of records */
    var errors: seq<Error>

    /** `Context::new`, assumed to open one empty scope and to hold no error */
    constructor ()
      ensures scopes == [map[]] && errors == []
    {
      scopes := [map[]];
      errors := [];
    }

    method ScopeEnter()
      modifies this`scopes
      ensures scopes == Enter(old(scopes))
    {
      scopes := Enter(scopes);
    }

    method ScopeExit()
      modifies this`scopes
      ensures scopes == Exit(old(scopes))
    {
      scopes := Exit(scopes);
    }

    /** `add_variable`: binds the variable under its own name in the innermost scope */
    method AddVariable(v: Var) returns (r: Result<(), Error>)
      modifies this`scopes
      ensures scopes == Committed(old(scopes), Add(old(scopes), v.name, v))
      ensures r.Ok? <==> Add(old(scopes), v.name, v).Ok?
      ensures r.Ok? ==> GetVariable(v.name) == Some(v)
      ensures forall other :: other != v.name ==> GetVariable(other) == Find(old(scopes), other)
    {
      var added := Add(scopes, v.name, v);
      if added.Ok? {
        forall other {
          FindAfterAdd(scopes, v.name, v, other);
        }
      }
      scopes := Committed(scopes, added);
      r := if added.Ok? then Ok(()) else Err(added.error);
    }

    /** Lookup, innermost scope first: found exactly when some open scope declares the name */
    function GetVariable(name: string): (r: Option<Var>)
      reads this
      ensures r.Some? <==> exists i :: 0 <= i < |scopes| && name in scopes[i]
    {
      FindInnermost(scopes, name);
      Find(scopes, name)
    }

    /** Record an error; nothing else changes */
    method Error(err: Error)
      modifies this`errors
      ensures errors == old(errors) + [err]
    {
      errors := errors + [err];
    }
  }
}
