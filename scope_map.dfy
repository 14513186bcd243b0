/** A minimal lexical scope map, the part of the source's `ScopeMap` that this model
    relies on. The source of `ScopeMap` is not part of this model; its behaviour here is
    an assumption: one namespace is a stack of maps with the innermost scope last,
    adding fails when the name is already in the innermost scope (or when no scope is
    open), and lookup searches from the innermost scope outwards. */
module ScopeMap {
  import opened Wrappers
  import opened Diagnostics

  /** One namespace of a scope map: a stack of scopes, innermost last */
  type Stack<X> = seq<map<string, X>>

  /** Open a new, empty innermost scope */
  function Enter<X>(s: Stack<X>): Stack<X> {
    s + [map[]]
  }

  /** Close the innermost scope; closing with no scope open changes nothing */
  function Exit<X>(s: Stack<X>): Stack<X> {
    if |s| == 0 then s else s[..|s| - 1]
  }

  /** Look a name up, innermost scope first */
  function Find<X>(s: Stack<X>, name: string): Option<X>
    decreases |s|
  {
    if |s| == 0 then None
    else if name in s[|s| - 1] then Some(s[|s| - 1][name])
    else Find(s[..|s| - 1], name)
  }

  /** A lookup succeeds exactly when some scope binds the name, and then gives the binding
      of the innermost such scope */
  lemma {:induction false} FindInnermost<X>(s: Stack<X>, name: string)
    ensures Find(s, name).Some? <==> exists i :: 0 <= i < |s| && name in s[i]
    ensures Find(s, name).Some? ==> exists i :: 0 <= i < |s| && name in s[i] && s[i][name] == Find(s, name).value &&
                                               forall j :: i < j < |s| ==> name !in s[j]
    decreases |s|
  {
    if |s| > 0 && name in s[|s| - 1] {
      var i := |s| - 1;
      assert name in s[i] && s[i][name] == Find(s, name).value;
    } else if |s| > 0 {
      var outer := s[..|s| - 1];
      FindInnermost(outer, name);
      assert forall i :: 0 <= i < |outer| ==> outer[i] == s[i];
      if Find(outer, name).Some? {
        var i :| 0 <= i < |outer| && name in outer[i] && outer[i][name] == Find(outer, name).value &&
                 forall j :: i < j < |outer| ==> name !in outer[j];
        assert name in s[i] && s[i][name] == Find(s, name).value;
      }
    }
  }

  /** Declare a name in the innermost scope */
  function Add<X>(s: Stack<X>, name: string, x: X): (r: Result<Stack<X>, Error>)
    ensures r.Ok? <==> |s| > 0 && name !in s[|s| - 1]
    ensures r.Err? ==> r.error == ContextError
    ensures r.Ok? ==> |r.value| == |s| && r.value[..|s| - 1] == s[..|s| - 1] &&
                      r.value[|s| - 1] == s[|s| - 1][name := x]
  {
    if |s| == 0 || name in s[|s| - 1] then Err(ContextError)
    else Ok(s[..|s| - 1] + [s[|s| - 1][name := x]])
  }

  /** The stack after an attempted declaration: a failed one leaves it as it was */
  function Committed<X>(s: Stack<X>, r: Result<Stack<X>, Error>): Stack<X> {
    if r.Ok? then r.value else s
  }

  /** Looking up in a stack with one more innermost scope */
  lemma FindInner<X>(s: Stack<X>, m: map<string, X>, name: string)
    ensures Find(s + [m], name) == if name in m then Some(m[name]) else Find(s, name)
  {
  }

  /** A name that was just declared is found with the declared value */
  lemma FindAfterAdd<X>(s: Stack<X>, name: string, x: X, other: string)
    requires Add(s, name, x).Ok?
    ensures Find(Add(s, name, x).value, name) == Some(x)
    ensures other != name ==> Find(Add(s, name, x).value, other) == Find(s, other)
  {
  }

  /** Opening a scope hides nothing, and closing it gives the stack back */
  lemma EnterExit<X>(s: Stack<X>, name: string)
    ensures Find(Enter(s), name) == Find(s, name)
    ensures Exit(Enter(s)) == s
  {
  }

  /** Any name can be declared in a freshly opened scope, shadowing an outer one, and
      the declaration disappears when that scope is closed */
  lemma ShadowInNewScope<X>(s: Stack<X>, name: string, x: X)
    ensures Add(Enter(s), name, x).Ok?
    ensures Find(Add(Enter(s), name, x).value, name) == Some(x)
    ensures Exit(Add(Enter(s), name, x).value) == s
  {
  }
}
