/** The instruction tree and the dispatch of `kind`, `print`, `resolve_type` and
    `execute` over it. `Resolve` and `Eval` are the specifications that the methods of
    `Interpreter` implement; each node's own rule comes from its module. The source of
    `Block` is not part of this model: a block here opens a scope, runs its instructions
    in order and, unless it is a statement, yields what its last instruction yields. */
module Instructions {
  import opened Wrappers
  import opened Diagnostics
  import opened Operators
  import opened ScopeMap
  import opened TypeChecker
  import opened Instances
  import Variables
  import Directives
  import BinaryOps
  import IfElses

  /** Whether a node produces a value */
  datatype InstrKind = Statement | Expression(value: Option<Instance>)

  datatype Instr =
    | Literal(lit: Value)
    | BinaryOp(lhs: Instr, rhs: Instr, op: Operator)
    | IfElse(condition: Instr, ifBody: Block, elseBody: Option<Block>, cachedType: Option<CheckedType>)
    | VarUse(variable: Variables.Var)
    | JkInst(directive: Directives.JkInstKind)
    | BlockInstr(block: Block)

  datatype Block = Block(instructions: seq<Instr>, isStatement: bool)

  /** `Block::new()`: empty, and a statement */
  function NewBlock(): Block {
    Block([], true)
  }

  /** `IfElse::new`: no cached type yet */
  function NewIfElse(condition: Instr, ifBody: Block, elseBody: Option<Block>): (n: Instr)
    ensures n.IfElse? && CachedType(n) == None
    ensures n.condition == condition && n.ifBody == ifBody && n.elseBody == elseBody
  {
    IfElse(condition, ifBody, elseBody, None)
  }

  function BlockKind(b: Block): InstrKind {
    if b.isStatement then Statement else Expression(None)
  }

  /** `kind`: a conditional is what its if block is; directives are statements; the other
      nodes are expressions */
  function Kind(n: Instr): (k: InstrKind)
    ensures k.Expression? ==> k.value.None?
    ensures k == Statement <==> n.JkInst? || (n.IfElse? && n.ifBody.isStatement) || (n.BlockInstr? && n.block.isStatement)
  {
    match n
    case Literal(_) => Expression(None)
    case BinaryOp(_, _, _) => Expression(None)
    case IfElse(_, ifBody, _, _) => BlockKind(ifBody)
    case VarUse(_) => Expression(None)
    case JkInst(_) => Statement
    case BlockInstr(b) => BlockKind(b)
  }

  /** `print` */
  function Print(n: Instr): string
    decreases n, 0
  {
    match n
    case Literal(v) => ValueText(v)
    case BinaryOp(l, r, op) => BinaryOps.Print(Print(l), op, Print(r))
    case IfElse(c, ifBody, elseBody, _) =>
      IfElses.Print(Print(c), PrintBlock(ifBody),
        match elseBody case Some(e) => Some(PrintBlock(e)) case None => None)
    case VarUse(v) => Variables.Print(v)
    case JkInst(d) => Directives.Print(d)
    case BlockInstr(b) => PrintBlock(b)
  }

  function PrintBlock(b: Block): string
    decreases b, |b.instructions| + 1
  {
    "{\n" + PrintLines(b, |b.instructions|) + "}"
  }

  /** The first `count` instructions of a block, one per line, statements with a ';' */
  function PrintLines(b: Block, count: nat): string
    requires count <= |b.instructions|
    decreases b, count
  {
    if count == 0 then ""
    else
      var i := b.instructions[count - 1];
      PrintLines(b, count - 1) + "    " + Print(i) + (if Kind(i) == Statement then ";\n" else "\n")
  }

  /** `cached_type`: conditionals and variables keep one, directives are always `Void`,
      the other nodes keep none */
  function CachedType(n: Instr): (t: Option<CheckedType>)
    ensures n.JkInst? ==> t == Some(Void)
    ensures !(n.IfElse? || n.VarUse? || n.JkInst?) ==> t.None?
  {
    match n
    case IfElse(_, _, _, t) => t
    case VarUse(v) => v.cachedType
    case JkInst(d) => Directives.CachedType(d)
    case _ => None
  }

  /** `set_cached_type`; a no-op on the nodes that keep no cached type */
  function SetCachedType(n: Instr, ty: CheckedType): (m: Instr)
    ensures n.IfElse? || n.VarUse? ==> CachedType(m) == Some(ty)
    ensures !(n.IfElse? || n.VarUse?) ==> m == n
    ensures Kind(m) == Kind(n) && Print(m) == Print(n)
  {
    match n
    case IfElse(c, ifBody, elseBody, _) => IfElse(c, ifBody, elseBody, Some(ty))
    case VarUse(v) => VarUse(Variables.SetCachedType(v, ty))
    case JkInst(d) => JkInst(Directives.SetCachedType(d, ty))
    case _ => n
  }

  /** The cached type seen through `get_type`: no cached type reads as the default, `Unknown` */
  function GetType(n: Instr): (t: CheckedType)
    ensures CachedType(n) == Some(t) || (CachedType(n).None? && t == Unknown)
  {
    match CachedType(n)
    case Some(t) => t
    case None => Default()
  }

  /** The static type of a node and the errors its resolution records, against the
      variable namespace of the type context and its pass flag */
  function Resolve(vars: Stack<CheckedType>, secondPass: bool, n: Instr): Typing
    decreases n, 0
  {
    match n
    case Literal(v) => Typing(Resolved(TypeName(v)), [])
    case BinaryOp(l, r, _) => BinaryOps.ResolveType(Resolve(vars, secondPass, l), Resolve(vars, secondPass, r))
    case IfElse(c, ifBody, elseBody, _) =>
      IfElses.ResolveType(secondPass, Resolve(vars, secondPass, c), ResolveBlock(vars, secondPass, ifBody),
        match elseBody case Some(e) => Some(ResolveBlock(vars, secondPass, e)) case None => None)
    case VarUse(v) => Variables.ResolveType(vars, v)
    case JkInst(d) => Directives.ResolveType(d)
    case BlockInstr(b) => ResolveBlock(vars, secondPass, b)
  }

  function ResolveBlock(vars: Stack<CheckedType>, secondPass: bool, b: Block): Typing
    decreases b, |b.instructions| + 1
  {
    var t := ResolvePrefix(Enter(vars), secondPass, b, |b.instructions|);
    Typing(if b.isStatement then Void else t.ty, t.errors)
  }

  /** Resolving the first `count` instructions of a block in order: the type of the last
      one (`Void` when there is none) and all their errors */
  function ResolvePrefix(vars: Stack<CheckedType>, secondPass: bool, b: Block, count: nat): Typing
    requires count <= |b.instructions|
    decreases b, count
  {
    if count == 0 then Typing(Void, [])
    else
      var done := ResolvePrefix(vars, secondPass, b, count - 1);
      var t := Resolve(vars, secondPass, b.instructions[count - 1]);
      Typing(t.ty, done.errors + t.errors)
  }

  /** What executing a node yields against the runtime scopes, with the errors it records */
  function Eval(k: Kernels, scopes: Stack<Variables.Var>, n: Instr): Outcome
    decreases n, 0
  {
    match n
    case Literal(v) => Done(Some(ToInstance(v)), [])
    case BinaryOp(l, r, op) => BinaryOps.Execute(k, op, Eval(k, scopes, l), Eval(k, scopes, r))
    case IfElse(c, ifBody, elseBody, _) =>
      IfElses.Execute(k, Eval(k, scopes, c), EvalBlock(k, scopes, ifBody),
        match elseBody case Some(e) => Some(EvalBlock(k, scopes, e)) case None => None)
    case VarUse(v) => Variables.Execute(scopes, v)
    case JkInst(d) => Directives.Execute(d)
    case BlockInstr(b) => EvalBlock(k, scopes, b)
  }

  function EvalBlock(k: Kernels, scopes: Stack<Variables.Var>, b: Block): Outcome
    decreases b, |b.instructions| + 1
  {
    match EvalPrefix(k, Enter(scopes), b, |b.instructions|)
    case Done(v, e) => Done(if b.isStatement then None else v, e)
    case Unreachable => Unreachable
  }

  /** Executing the first `count` instructions of a block in order: what the last one
      yields (nothing when there is none) and all their errors */
  function EvalPrefix(k: Kernels, scopes: Stack<Variables.Var>, b: Block, count: nat): Outcome
    requires count <= |b.instructions|
    decreases b, count
  {
    if count == 0 then Done(None, [])
    else match EvalPrefix(k, scopes, b, count - 1)
      case Unreachable => Unreachable
      case Done(_, e) => Then(e, Eval(k, scopes, b.instructions[count - 1]))
  }

  /** Once an instruction of a block reaches `unreachable!`, so does every longer prefix:
      a prefix of a block that completes completes too */
  lemma {:induction false} PrefixCompletes(k: Kernels, scopes: Stack<Variables.Var>, b: Block, count: nat, longer: nat)
    requires count <= longer <= |b.instructions|
    requires EvalPrefix(k, scopes, b, longer).Done?
    ensures EvalPrefix(k, scopes, b, count).Done?
    decreases longer
  {
    if count < longer {
      PrefixCompletes(k, scopes, b, count, longer - 1);
    }
  }

  /** The pure content of `CachedTypeCheck::type_check`: only a node whose cached type is
      `Unknown` is resolved, and the result is cached */
  function TypeCheck(vars: Stack<CheckedType>, secondPass: bool, n: Instr): (r: (Instr, seq<Error>))
    ensures GetType(n) != Unknown ==> r == (n, [])
    ensures GetType(n) == Unknown ==> r.1 == Resolve(vars, secondPass, n).errors
    ensures GetType(n) == Unknown && (n.IfElse? || n.VarUse?) ==> GetType(r.0) == Resolve(vars, secondPass, n).ty
    ensures Kind(r.0) == Kind(n) && Print(r.0) == Print(n)
  {
    if GetType(n) == Unknown then
      var t := Resolve(vars, secondPass, n);
      (SetCachedType(n, t.ty), t.errors)
    else (n, [])
  }

  /** The `kind` of each node: operations, variables and literals are expressions without
      a value yet, directives are statements, and a conditional takes its if block's kind,
      so one with an empty if block is a statement */
  lemma KindTable(n: Instr)
    ensures n.BinaryOp? || n.VarUse? || n.Literal? ==> Kind(n) == Expression(None)
    ensures n.JkInst? ==> Kind(n) == Statement
    ensures n.IfElse? ==> Kind(n) == BlockKind(n.ifBody)
    ensures n.IfElse? && n.ifBody == NewBlock() ==> Kind(n) == Statement
  {
  }

  /** Only conditionals and variables keep what `set_cached_type` stores; on any other node
      it changes nothing */
  lemma CachedTypeRoundTrip(n: Instr, ty: CheckedType)
    ensures n.IfElse? || n.VarUse? ==> CachedType(SetCachedType(n, ty)) == Some(ty) && GetType(SetCachedType(n, ty)) == ty
    ensures !(n.IfElse? || n.VarUse?) ==> SetCachedType(n, ty) == n
  {
  }

  /** The cached type is bookkeeping only: a node with a cached type resolves, executes,
      prints and classifies exactly as the node without it */
  lemma CachingKeepsBehaviour(k: Kernels, vars: Stack<CheckedType>, secondPass: bool, scopes: Stack<Variables.Var>, n: Instr, ty: CheckedType)
    ensures Resolve(vars, secondPass, SetCachedType(n, ty)) == Resolve(vars, secondPass, n)
    ensures Eval(k, scopes, SetCachedType(n, ty)) == Eval(k, scopes, n)
    ensures Print(SetCachedType(n, ty)) == Print(n)
    ensures Kind(SetCachedType(n, ty)) == Kind(n)
  {
  }

  /** `type_check` resolves exactly the nodes whose type is still `Unknown`. A node that
      keeps a cache is resolved at most once: checking the checked node again records
      nothing and changes nothing, unless its type resolved to `Unknown` itself. Nodes
      that keep no cache are resolved on every call. */
  lemma TypeCheckCaches(vars: Stack<CheckedType>, secondPass: bool, n: Instr)
    ensures GetType(n) != Unknown ==> TypeCheck(vars, secondPass, n) == (n, [])
    ensures var m := TypeCheck(vars, secondPass, n).0;
      (n.IfElse? || n.VarUse?) && Resolve(vars, secondPass, n).ty != Unknown ==>
        GetType(m) != Unknown && TypeCheck(vars, secondPass, m) == (m, [])
    ensures !(n.IfElse? || n.VarUse? || n.JkInst?) ==>
      TypeCheck(vars, secondPass, n) == (n, Resolve(vars, secondPass, n).errors)
  {
  }

  /** A directive is never resolved by `type_check`: its cached type is always `Void` */
  lemma DirectivesAreNeverResolved(vars: Stack<CheckedType>, secondPass: bool, d: Directives.JkInstKind)
    ensures GetType(JkInst(d)) == Void
    ensures TypeCheck(vars, secondPass, JkInst(d)) == (JkInst(d), [])
  {
  }
}
