/** The elements `parse_comma_list` collects. The list parser is generic
    over the closure that reads one element; here the closures' results
    share one datatype, and each caller takes out the list of its kind. */
module ListItems {
  import opened Wrappers
  import opened Tokens
  import opened Syntax

  /** One element of a comma-separated list, as its element parser
      returns it. */
  datatype Item =
    | ParamItem(param: ParamDecl)
    | NameItem(name: Name)
    | TypeItem(ty: TypeIdent)
    | ExprItem(expr: Expr)

  /** The node id of an element's root. */
  function ItemId(it: Item): nat {
    match it
    case ParamItem(p) => p.id
    case NameItem(n) => n.id
    case TypeItem(t) => t.id
    case ExprItem(e) => e.id
  }

  function ExprsOf(items: seq<Item>): (es: seq<Expr>)
    requires forall i :: 0 <= i < |items| ==> items[i].ExprItem?
    ensures |es| == |items| && forall i :: 0 <= i < |items| ==> es[i] == items[i].expr
  {
    if items == [] then [] else ExprsOf(items[..|items| - 1]) + [items[|items| - 1].expr]
  }

  /** Expressions as list elements, so that a tuple's positions are
      stated as a list's are. */
  function ExprItems(xs: seq<Expr>): (items: seq<Item>)
    ensures |items| == |xs| && forall i :: 0 <= i < |xs| ==> items[i] == ExprItem(xs[i])
  {
    seq(|xs|, i requires 0 <= i < |xs| => ExprItem(xs[i]))
  }

  function TypesOf(items: seq<Item>): (ts: seq<TypeIdent>)
    requires forall i :: 0 <= i < |items| ==> items[i].TypeItem?
    ensures |ts| == |items| && forall i :: 0 <= i < |items| ==> ts[i] == items[i].ty
  {
    if items == [] then [] else TypesOf(items[..|items| - 1]) + [items[|items| - 1].ty]
  }

  function NamesOf(items: seq<Item>): (ns: seq<Name>)
    requires forall i :: 0 <= i < |items| ==> items[i].NameItem?
    ensures |ns| == |items| && forall i :: 0 <= i < |items| ==> ns[i] == items[i].name
  {
    if items == [] then [] else NamesOf(items[..|items| - 1]) + [items[|items| - 1].name]
  }

  /** The symbols of a list of names (`variants.iter().map(|v| v.name)`). */
  function SymbolsOf(ns: seq<Name>): (ss: seq<Symbol>)
    ensures |ss| == |ns| && forall i :: 0 <= i < |ns| ==> ss[i] == ns[i].sym
  {
    seq(|ns|, i requires 0 <= i < |ns| => ns[i].sym)
  }

  function ParamsOf(items: seq<Item>): (ps: seq<ParamDecl>)
    requires forall i :: 0 <= i < |items| ==> items[i].ParamItem?
    ensures |ps| == |items| && forall i :: 0 <= i < |items| ==> ps[i] == items[i].param
  {
    if items == [] then [] else ParamsOf(items[..|items| - 1]) + [items[|items| - 1].param]
  }

  /** Types, names and parameters as list elements, so that the lists the
      type, call and procedure parsers return are placed as a comma list's
      elements are. */
  function TypeItems(ts: seq<TypeIdent>): (items: seq<Item>)
    ensures |items| == |ts| && forall i :: 0 <= i < |ts| ==> items[i] == TypeItem(ts[i])
  {
    seq(|ts|, i requires 0 <= i < |ts| => TypeItem(ts[i]))
  }

  function NameItems(ns: seq<Name>): (items: seq<Item>)
    ensures |items| == |ns| && forall i :: 0 <= i < |ns| ==> items[i] == NameItem(ns[i])
  {
    seq(|ns|, i requires 0 <= i < |ns| => NameItem(ns[i]))
  }

  function ParamItems(ps: seq<ParamDecl>): (items: seq<Item>)
    ensures |items| == |ps| && forall i :: 0 <= i < |ps| ==> items[i] == ParamItem(ps[i])
  {
    seq(|ps|, i requires 0 <= i < |ps| => ParamItem(ps[i]))
  }

  /** Taking the elements of one kind out of a list and wrapping them
      again gives the list back. */
  lemma ExprsRoundTrip(items: seq<Item>)
    requires forall i :: 0 <= i < |items| ==> items[i].ExprItem?
    ensures ExprItems(ExprsOf(items)) == items
  {
    assert forall i :: 0 <= i < |items| ==> ExprItems(ExprsOf(items))[i] == items[i];
  }

  lemma TypesRoundTrip(items: seq<Item>)
    requires forall i :: 0 <= i < |items| ==> items[i].TypeItem?
    ensures TypeItems(TypesOf(items)) == items
  {
    assert forall i :: 0 <= i < |items| ==> TypeItems(TypesOf(items))[i] == items[i];
  }

  lemma NamesRoundTrip(items: seq<Item>)
    requires forall i :: 0 <= i < |items| ==> items[i].NameItem?
    ensures NameItems(NamesOf(items)) == items
  {
    assert forall i :: 0 <= i < |items| ==> NameItems(NamesOf(items))[i] == items[i];
  }

  lemma ParamsRoundTrip(items: seq<Item>)
    requires forall i :: 0 <= i < |items| ==> items[i].ParamItem?
    ensures ParamItems(ParamsOf(items)) == items
  {
    assert forall i :: 0 <= i < |items| ==> ParamItems(ParamsOf(items))[i] == items[i];
  }
}
