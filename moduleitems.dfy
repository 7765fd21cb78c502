/** What `parse_module_body` does with each element it reads: the element
    is appended to the list of its kind, or, for `init`, `next` and
    `control`, replaces the block held so far. The body of a module is thus
    a fold of `AddItem` over the elements in source order. */
module ModuleItems {
  import opened Wrappers
  import opened Tokens
  import opened Syntax

  datatype ModuleItem =
    | InputItem(field: FieldDecl)
    | OutputItem(field: FieldDecl)
    | VarItem(field: FieldDecl)
    | ConstItem(field: FieldDecl)
    | TypeDeclItem(decl: TypeDecl)
    | MacroItem(macro: MacroDecl)
    | FunctionItem(func: FunctionDecl)
    | ProcedureItem(procedure: ProcedureDecl)
    | TheoremItem(property: PropertyDecl)
    | LemmaItem(property: PropertyDecl)
    | InitItem(block: TransitionBlock)
    | NextItem(block: TransitionBlock)
    | ControlItem(block: TransitionBlock)

  /** One arm of the match in `parse_module_body`. A lemma goes to the
      theorems, as the source has it. */
  function AddItem(m: ModuleDecl, it: ModuleItem): ModuleDecl {
    match it
    case InputItem(f) => m.(inputs := m.inputs + [f])
    case OutputItem(f) => m.(outputs := m.outputs + [f])
    case VarItem(f) => m.(variables := m.variables + [f])
    case ConstItem(f) => m.(constants := m.constants + [f])
    case TypeDeclItem(d) => m.(types := m.types + [d])
    case MacroItem(d) => m.(macros := m.macros + [d])
    case FunctionItem(d) => m.(functions := m.functions + [d])
    case ProcedureItem(d) => m.(procedures := m.procedures + [d])
    case TheoremItem(p) => m.(theorems := m.theorems + [p])
    case LemmaItem(p) => m.(theorems := m.theorems + [p])
    case InitItem(b) => m.(init := Some(b))
    case NextItem(b) => m.(next := Some(b))
    case ControlItem(b) => m.(control := Some(b))
  }

  function AddItems(m: ModuleDecl, items: seq<ModuleItem>): (r: ModuleDecl)
    ensures r.id == m.id && r.name == m.name
  {
    if items == [] then m else AddItem(AddItems(m, items[..|items| - 1]), items[|items| - 1])
  }

  /** The declarations `pick` selects from `items`, in order. */
  function Collect<T>(items: seq<ModuleItem>, pick: ModuleItem -> Option<T>): seq<T> {
    if items == [] then []
    else
      Collect(items[..|items| - 1], pick) + Picked(pick(items[|items| - 1]))
  }

  /** The block of the last item `pick` selects, or `default` if there is none. */
  function LastPicked<T>(items: seq<ModuleItem>, pick: ModuleItem -> Option<T>, default: Option<T>): Option<T> {
    if items == [] then default
    else if pick(items[|items| - 1]).Some? then pick(items[|items| - 1])
    else LastPicked(items[..|items| - 1], pick, default)
  }

  function PickInput(it: ModuleItem): Option<FieldDecl> { if it.InputItem? then Some(it.field) else None }
  function PickOutput(it: ModuleItem): Option<FieldDecl> { if it.OutputItem? then Some(it.field) else None }
  function PickVar(it: ModuleItem): Option<FieldDecl> { if it.VarItem? then Some(it.field) else None }
  function PickConst(it: ModuleItem): Option<FieldDecl> { if it.ConstItem? then Some(it.field) else None }
  function PickType(it: ModuleItem): Option<TypeDecl> { if it.TypeDeclItem? then Some(it.decl) else None }
  function PickMacro(it: ModuleItem): Option<MacroDecl> { if it.MacroItem? then Some(it.macro) else None }
  function PickFunction(it: ModuleItem): Option<FunctionDecl> { if it.FunctionItem? then Some(it.func) else None }
  function PickProcedure(it: ModuleItem): Option<ProcedureDecl> { if it.ProcedureItem? then Some(it.procedure) else None }
  /** Theorems and lemmas alike. */
  function PickProperty(it: ModuleItem): Option<PropertyDecl> {
    if it.TheoremItem? || it.LemmaItem? then Some(it.property) else None
  }
  function PickInit(it: ModuleItem): Option<TransitionBlock> { if it.InitItem? then Some(it.block) else None }
  function PickNext(it: ModuleItem): Option<TransitionBlock> { if it.NextItem? then Some(it.block) else None }
  function PickControl(it: ModuleItem): Option<TransitionBlock> { if it.ControlItem? then Some(it.block) else None }

  function Picked<T>(x: Option<T>): seq<T> {
    if x.Some? then [x.value] else []
  }

  /** One element changes only the list of its kind. */
  lemma AddItemLists(m: ModuleDecl, it: ModuleItem)
    ensures var r := AddItem(m, it);
      && r.id == m.id && r.name == m.name
      && r.inputs == m.inputs + Picked(PickInput(it))
      && r.outputs == m.outputs + Picked(PickOutput(it))
      && r.variables == m.variables + Picked(PickVar(it))
      && r.constants == m.constants + Picked(PickConst(it))
      && r.types == m.types + Picked(PickType(it))
      && r.macros == m.macros + Picked(PickMacro(it))
      && r.functions == m.functions + Picked(PickFunction(it))
      && r.procedures == m.procedures + Picked(PickProcedure(it))
      && r.theorems == m.theorems + Picked(PickProperty(it))
      && r.lemmas == m.lemmas
  {
  }

  /** A fold that appends what `pick` selects to the list `get` reads. */
  lemma {:induction false} FoldAppends<T>(get: ModuleDecl -> seq<T>, pick: ModuleItem -> Option<T>,
                                          m: ModuleDecl, items: seq<ModuleItem>)
    requires forall m': ModuleDecl, it: ModuleItem :: get(AddItem(m', it)) == get(m') + Picked(pick(it))
    ensures get(AddItems(m, items)) == get(m) + Collect(items, pick)
  {
    if items != [] {
      var pre := items[..|items| - 1];
      FoldAppends(get, pick, m, pre);
      assert get(AddItems(m, items)) == get(AddItems(m, pre)) + Picked(pick(items[|items| - 1]));
    }
  }

  /** The four field lists of a module gain the fields of their kind in
      source order. */
  lemma FieldsKeepSourceOrder(m: ModuleDecl, items: seq<ModuleItem>)
    ensures var r := AddItems(m, items);
      && r.inputs == m.inputs + Collect(items, PickInput)
      && r.outputs == m.outputs + Collect(items, PickOutput)
      && r.variables == m.variables + Collect(items, PickVar)
      && r.constants == m.constants + Collect(items, PickConst)
  {
    forall m': ModuleDecl, it: ModuleItem
      ensures ((d: ModuleDecl) => d.inputs)(AddItem(m', it)) == ((d: ModuleDecl) => d.inputs)(m') + Picked(PickInput(it))
    {
      AddItemLists(m', it);
    }
    FoldAppends((d: ModuleDecl) => d.inputs, PickInput, m, items);
    forall m': ModuleDecl, it: ModuleItem
      ensures ((d: ModuleDecl) => d.outputs)(AddItem(m', it)) == ((d: ModuleDecl) => d.outputs)(m') + Picked(PickOutput(it))
    {
      AddItemLists(m', it);
    }
    FoldAppends((d: ModuleDecl) => d.outputs, PickOutput, m, items);
    forall m': ModuleDecl, it: ModuleItem
      ensures ((d: ModuleDecl) => d.variables)(AddItem(m', it)) == ((d: ModuleDecl) => d.variables)(m') + Picked(PickVar(it))
    {
      AddItemLists(m', it);
    }
    FoldAppends((d: ModuleDecl) => d.variables, PickVar, m, items);
    forall m': ModuleDecl, it: ModuleItem
      ensures ((d: ModuleDecl) => d.constants)(AddItem(m', it)) == ((d: ModuleDecl) => d.constants)(m') + Picked(PickConst(it))
    {
      AddItemLists(m', it);
    }
    FoldAppends((d: ModuleDecl) => d.constants, PickConst, m, items);
  }

  /** The declaration lists of a module gain the declarations of their kind
      in source order; theorems gain the lemmas too, and the lemma list
      never changes. */
  lemma DeclsKeepSourceOrder(m: ModuleDecl, items: seq<ModuleItem>)
    ensures var r := AddItems(m, items);
      && r.types == m.types + Collect(items, PickType)
      && r.macros == m.macros + Collect(items, PickMacro)
      && r.functions == m.functions + Collect(items, PickFunction)
      && r.procedures == m.procedures + Collect(items, PickProcedure)
      && r.theorems == m.theorems + Collect(items, PickProperty)
      && r.lemmas == m.lemmas
  {
    forall m': ModuleDecl, it: ModuleItem
      ensures ((d: ModuleDecl) => d.types)(AddItem(m', it)) == ((d: ModuleDecl) => d.types)(m') + Picked(PickType(it))
    {
      AddItemLists(m', it);
    }
    FoldAppends((d: ModuleDecl) => d.types, PickType, m, items);
    forall m': ModuleDecl, it: ModuleItem
      ensures ((d: ModuleDecl) => d.macros)(AddItem(m', it)) == ((d: ModuleDecl) => d.macros)(m') + Picked(PickMacro(it))
    {
      AddItemLists(m', it);
    }
    FoldAppends((d: ModuleDecl) => d.macros, PickMacro, m, items);
    forall m': ModuleDecl, it: ModuleItem
      ensures ((d: ModuleDecl) => d.functions)(AddItem(m', it)) == ((d: ModuleDecl) => d.functions)(m') + Picked(PickFunction(it))
    {
      AddItemLists(m', it);
    }
    FoldAppends((d: ModuleDecl) => d.functions, PickFunction, m, items);
    forall m': ModuleDecl, it: ModuleItem
      ensures ((d: ModuleDecl) => d.procedures)(AddItem(m', it)) == ((d: ModuleDecl) => d.procedures)(m') + Picked(PickProcedure(it))
    {
      AddItemLists(m', it);
    }
    FoldAppends((d: ModuleDecl) => d.procedures, PickProcedure, m, items);
    forall m': ModuleDecl, it: ModuleItem
      ensures ((d: ModuleDecl) => d.theorems)(AddItem(m', it)) == ((d: ModuleDecl) => d.theorems)(m') + Picked(PickProperty(it))
    {
      AddItemLists(m', it);
    }
    FoldAppends((d: ModuleDecl) => d.theorems, PickProperty, m, items);
    forall m': ModuleDecl, it: ModuleItem
      ensures ((d: ModuleDecl) => d.lemmas)(AddItem(m', it)) == ((d: ModuleDecl) => d.lemmas)(m') + Picked(PickNone(it))
    {
      AddItemLists(m', it);
    }
    FoldAppends((d: ModuleDecl) => d.lemmas, PickNone, m, items);
    NothingPicked(items);
  }

  /** Every list of a module gains the elements of its kind in source
      order; theorems gain the lemmas too, and the lemma list never changes. */
  lemma ListsKeepSourceOrder(m: ModuleDecl, items: seq<ModuleItem>)
    ensures var r := AddItems(m, items);
      && r.inputs == m.inputs + Collect(items, PickInput)
      && r.outputs == m.outputs + Collect(items, PickOutput)
      && r.variables == m.variables + Collect(items, PickVar)
      && r.constants == m.constants + Collect(items, PickConst)
      && r.types == m.types + Collect(items, PickType)
      && r.macros == m.macros + Collect(items, PickMacro)
      && r.functions == m.functions + Collect(items, PickFunction)
      && r.procedures == m.procedures + Collect(items, PickProcedure)
      && r.theorems == m.theorems + Collect(items, PickProperty)
      && r.lemmas == m.lemmas
  {
    FieldsKeepSourceOrder(m, items);
    DeclsKeepSourceOrder(m, items);
  }

  function PickNone(it: ModuleItem): Option<PropertyDecl> { None }

  lemma {:induction false} NothingPicked(items: seq<ModuleItem>)
    ensures Collect(items, PickNone) == []
  {
    if items != [] {
      NothingPicked(items[..|items| - 1]);
    }
  }

  /** Of several `init` (`next`, `control`) blocks the last one is kept. */
  lemma {:induction false} LastBlockWins(m: ModuleDecl, items: seq<ModuleItem>)
    ensures AddItems(m, items).init == LastPicked(items, PickInit, m.init)
    ensures AddItems(m, items).next == LastPicked(items, PickNext, m.next)
    ensures AddItems(m, items).control == LastPicked(items, PickControl, m.control)
  {
    if items != [] {
      var pre := items[..|items| - 1];
      LastBlockWins(m, pre);
      AddItemBlocks(AddItems(m, pre), items[|items| - 1]);
    }
  }

  /** One element replaces the block of its kind and keeps the others. */
  lemma AddItemBlocks(m: ModuleDecl, it: ModuleItem)
    ensures AddItem(m, it).init == if PickInit(it).Some? then PickInit(it) else m.init
    ensures AddItem(m, it).next == if PickNext(it).Some? then PickNext(it) else m.next
    ensures AddItem(m, it).control == if PickControl(it).Some? then PickControl(it) else m.control
  {
  }
}
