/** The binary operators of the language, their textual tokens, precedence and
    associativity (src/instruction/operator.rs). */
module Operators {
  datatype Operator =
    | Add
    | Sub
    | Mul
    | Div
    | LeftParenthesis
    | RightParenthesis
    | Equals
    | NotEquals

  /** The eight tokens that the parser hands over as operators */
  predicate IsToken(s: string) {
    s in {"+", "-", "*", "/", "(", ")", "==", "!="}
  }

  /** Parsing a token. Any other string is `unreachable!` in the source, so it is
      excluded by the precondition. */
  function FromToken(s: string): (op: Operator)
    requires IsToken(s)
    ensures s == "!=" <==> op == NotEquals
    ensures s == "==" <==> op == Equals
  {
    if s == "+" then Add
    else if s == "-" then Sub
    else if s == "*" then Mul
    else if s == "/" then Div
    else if s == "(" then LeftParenthesis
    else if s == ")" then RightParenthesis
    else if s == "==" then Equals
    else NotEquals
  }

  /** Rendering an operator as written: `NotEquals` renders as "==", the token of
      `Equals`, so the rendering is not injective. */
  function ToToken(op: Operator): (s: string)
    ensures IsToken(s)
    ensures s != "!="
  {
    match op
    case Add => "+"
    case Sub => "-"
    case Mul => "*"
    case Div => "/"
    case LeftParenthesis => "("
    case RightParenthesis => ")"
    case Equals => "=="
    case NotEquals => "=="
  }

  /** The rendering evidently intended: every operator gets back its own token.
      `BinaryOps.PrintCorrected` prints with it; the rest of the model prints as written. */
  function ToTokenCorrected(op: Operator): (s: string)
    ensures IsToken(s)
  {
    match op
    case NotEquals => "!="
    case _ => ToToken(op)
  }

  /** Rendering a parsed token gives the token back, except "!=", which comes back as "==" */
  lemma RenderParsedToken(s: string)
    requires IsToken(s)
    ensures ToToken(FromToken(s)) == if s == "!=" then "==" else s
  {
  }

  /** Parsing a rendered operator gives the operator back, except `NotEquals`, which becomes `Equals` */
  lemma ParseRenderedOperator(op: Operator)
    ensures FromToken(ToToken(op)) == if op == NotEquals then Equals else op
  {
  }

  /** The discrepancy itself: `NotEquals` does not survive a rendering and a parse */
  lemma NotEqualsRendersAsEquals()
    ensures ToToken(NotEquals) == ToToken(Equals)
    ensures FromToken(ToToken(NotEquals)) != NotEquals
  {
  }

  /** With the corrected rendering both round trips hold for every operator and every token */
  lemma CorrectedRoundTrip(op: Operator, s: string)
    ensures FromToken(ToTokenCorrected(op)) == op
    ensures IsToken(s) ==> ToTokenCorrected(FromToken(s)) == s
  {
  }

  /** The correction changes the rendering of `NotEquals` only */
  lemma CorrectionOnlyTouchesNotEquals(op: Operator)
    ensures ToTokenCorrected(op) == ToToken(op) <==> op != NotEquals
  {
  }

  /** Precedence for the shunting-yard algorithm; the parentheses have none that is used */
  function Precedence(op: Operator): (p: nat)
    ensures p <= 3
    ensures p == 3 <==> op in {Mul, Div}
    ensures p == 2 <==> op in {Add, Sub}
    ensures p == 0 <==> op in {Equals, NotEquals, LeftParenthesis, RightParenthesis}
  {
    match op
    case Mul | Div => 3
    case Add | Sub => 2
    case Equals | NotEquals => 0
    case LeftParenthesis | RightParenthesis => 0
  }

  /** Multiplicative operators bind tighter than additive ones, which bind tighter than comparisons */
  lemma PrecedenceOrdering(mul: Operator, add: Operator, cmp: Operator)
    requires mul in {Mul, Div} && add in {Add, Sub} && cmp in {Equals, NotEquals}
    ensures Precedence(mul) > Precedence(add) > Precedence(cmp)
  {
  }

  /** Every operator of the current set is left-associative */
  function IsLeftAssociative(op: Operator): (b: bool)
    ensures b
  {
    true
  }
}
