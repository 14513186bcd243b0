/** The error records that both contexts accumulate. Only the kind of an error is
    modelled; its message text is not. */
module Diagnostics {
  /** The three kinds of error that the core raises */
  datatype ErrKind =
    | Parsing      // a construction-time problem, such as an unknown directive name
    | Context      // a runtime lookup or use failure
    | TypeChecker  // a static type mismatch or an undeclared name

  datatype Error = Error(kind: ErrKind)

  const ParsingError := Error(Parsing)
  const ContextError := Error(Context)
  const TypeCheckerError := Error(TypeChecker)
}
