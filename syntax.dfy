/** The concrete syntax tree the parser builds (`cst::*SyntaxObject`).
    Source positions (line and column) are not kept; byte spans are. */
module Syntax {
  import opened Wrappers
  import opened Tokens

  /** An interned string: an index into the interner's table. */
  type Symbol = nat

  datatype Modifier = Inline | Synthesis

  /** One annotation as recorded by `Modifiers::add`. */
  datatype ModifierEntry = ModifierEntry(modifier: Modifier, span: Span)

  datatype UnOp = Plus | Neg | Not

  datatype CmpOp = Eq | Ne | Lt | Le | Gt | Ge | Ult | Ule | Ugt | Uge

  datatype BinOp =
    | Assign | Or | And | Cmp(cmp: CmpOp)
    | BitOr | BitAnd | BitXor | ShiftL | ArithShiftR | LogicalShiftR
    | Add | Sub | Mul | Div | Mod | Concat | Range

  datatype Name = Name(id: nat, span: Span, sym: Symbol)

  datatype TypeIdent =
    | BasicType(id: nat, span: Span, name: Symbol, params: seq<TypeIdent>)
    | TupleType(id: nat, span: Span, subtypes: seq<TypeIdent>)

  datatype Expr =
    | Unary(id: nat, span: Span, unOp: UnOp, operand: Expr)
    | Binary(id: nat, span: Span, binOp: BinOp, lhs: Expr, rhs: Expr)
    | Ident(id: nat, span: Span, name: Symbol)
    | IntLit(id: nat, span: Span, intValue: nat, intBase: IntBase, intSuffix: IntSuffix)
    | FloatLit(id: nat, span: Span, floatText: string)
    | BitVecLit(id: nat, span: Span, bits: seq<bool>)
    | BoolLit(id: nat, span: Span, boolValue: bool)
    | DotExpr(id: nat, span: Span, receiver: Expr, member: Expr)
    | CallExpr(id: nat, span: Span, callee: Expr, args: seq<Expr>)
    | Deref(id: nat, span: Span, target: Expr, indices: seq<Expr>)
    | Tuple(id: nat, span: Span, elems: seq<Expr>)
    | BlockExpr(id: nat, span: Span, stmts: seq<Stmt>)
    | IfExpr(id: nat, span: Span, cond: Expr, thenBlock: Expr, elseBranch: Option<Expr>)

  datatype Stmt =
    | ExprStmt(id: nat, span: Span, expr: Expr)
    | InductionStmt(id: nat, span: Span, steps: nat)
    | SimulateStmt(id: nat, span: Span, steps: nat)
    | AssertStmt(id: nat, span: Span, expr: Expr)
    | AssumeStmt(id: nat, span: Span, expr: Expr)
    | HavocStmt(id: nat, span: Span, name: Symbol)
    | CallStmt(id: nat, span: Span, func: Symbol, rets: seq<Name>, args: seq<Expr>)
    | VarStmt(id: nat, span: Span, name: Symbol, reassignable: bool, varType: Option<TypeIdent>, init: Option<Expr>)
    | WhileStmt(id: nat, span: Span, expr: Expr, body: Stmt)

  /** A block as a procedure or transition system holds it, unwrapped from
      the block expression. */
  datatype BlockNode = BlockNode(id: nat, span: Span, stmts: seq<Stmt>)

  datatype TypeDecl =
    | AliasDecl(id: nat, span: Span, name: Symbol, aliased: TypeIdent)
    | EnumDecl(id: nat, span: Span, name: Symbol, variants: seq<Symbol>)

  datatype ParamDecl = ParamDecl(id: nat, idx: nat, name: Symbol, span: Span, paramType: TypeIdent)

  datatype FieldDecl = FieldDecl(id: nat, name: Symbol, span: Span, fieldType: TypeIdent, init: Option<Expr>)

  /** Theorems and lemmas. */
  datatype PropertyDecl = PropertyDecl(id: nat, name: Symbol, span: Span, expr: Expr)

  /** A `requires` or `ensures` clause. */
  datatype PredicateStmt = PredicateStmt(id: nat, span: Span, expr: Expr)

  datatype ProcedureDecl = ProcedureDecl(
    id: nat, name: Symbol, span: Span,
    params: seq<ParamDecl>, returnParams: seq<ParamDecl>, modifiesNames: seq<Name>,
    requiresClauses: seq<PredicateStmt>, ensuresClauses: seq<PredicateStmt>,
    body: Option<BlockNode>)

  datatype FunctionDecl = FunctionDecl(
    id: nat, name: Symbol, span: Span, toSynthesize: bool,
    params: seq<ParamDecl>, returnType: Option<TypeIdent>)

  /** A `define`. */
  datatype MacroDecl = MacroDecl(
    id: nat, name: Symbol, span: Span,
    params: seq<ParamDecl>, returnType: Option<TypeIdent>, expr: Expr)

  /** `init`, `next` and `control` blocks. */
  datatype TransitionBlock = TransitionBlock(id: nat, span: Span, block: BlockNode)

  datatype ModuleDecl = ModuleDecl(
    id: nat, name: Symbol,
    types: seq<TypeDecl>,
    inputs: seq<FieldDecl>, outputs: seq<FieldDecl>, variables: seq<FieldDecl>, constants: seq<FieldDecl>,
    macros: seq<MacroDecl>, functions: seq<FunctionDecl>, procedures: seq<ProcedureDecl>,
    theorems: seq<PropertyDecl>, lemmas: seq<PropertyDecl>,
    init: Option<TransitionBlock>, next: Option<TransitionBlock>, control: Option<TransitionBlock>)

  /** A module as `parse_module` creates it, before its body is read. */
  function EmptyModule(id: nat, name: Symbol): (m: ModuleDecl)
    ensures m.id == id && m.name == name
    ensures m.types == [] && m.inputs == [] && m.outputs == [] && m.variables == [] && m.constants == []
    ensures m.macros == [] && m.functions == [] && m.procedures == [] && m.theorems == [] && m.lemmas == []
    ensures m.init.None? && m.next.None? && m.control.None?
  {
    ModuleDecl(id, name, [], [], [], [], [], [], [], [], [], [], None, None, None)
  }
}
