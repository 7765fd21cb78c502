/** The recursive-descent parser of parser.rs, as a class over the token
    stream its lexer produces. Each `parse_*` method states, besides its
    error cases, what a successful parse returns: a node whose span runs
    from the first token the method read to the end of the last token it
    consumed (`span_from`), whose id was drawn during that parse, and whose
    shape is the one the consumed tokens call for. */
module Parsing {
  import opened Wrappers
  import opened Tokens
  import opened Numerals
  import opened Syntax
  import opened Errors
  import opened Annotations
  import opened Precedence
  import opened NodeIds
  import opened Interning
  import opened ListItems
  import opened ModuleItems

  /** The element parsers `parse_comma_list` is called with: a procedure
      parameter or a `modifies` name (both counted in `param_idx`), a plain
      name, a type, or an expression. */
  datatype ListElem = ParamElem | CountedNameElem | NameElem | TypeElem | ExprElem

  /** The element parser bumps `param_idx` before each element. */
  predicate Counted(elem: ListElem) {
    elem == ParamElem || elem == CountedNameElem
  }

  /** The element parser returns elements of its own kind. */
  predicate ElemFits(elem: ListElem, it: Item) {
    match elem
    case ParamElem => it.ParamItem?
    case CountedNameElem => it.NameItem?
    case NameElem => it.NameItem?
    case TypeElem => it.TypeItem?
    case ExprElem => it.ExprItem?
  }

  /** What `parse_comma_list` returns: elements of the kind `elem` asks
      for, with ids drawn from [lo, hi) in source order, and parameters
      numbered on from `p0`. */
  ghost predicate ListOk(elem: ListElem, items: seq<Item>, lo: nat, hi: nat, p0: nat) {
    && (forall i :: 0 <= i < |items| ==> ElemFits(elem, items[i]) && lo <= ItemId(items[i]) < hi)
    && (forall i, j :: 0 <= i < j < |items| ==> ItemId(items[i]) < ItemId(items[j]))
    && (elem == ParamElem ==> forall i :: 0 <= i < |items| ==> items[i].ParamItem? && items[i].param.idx == p0 + i)
  }

  /** Element `i` of a list being read: it fits `elem`, its id lies in
      [lo, hi) above the one before it, and a parameter is numbered
      `p0 + i`. */
  ghost predicate ItemOk(elem: ListElem, items: seq<Item>, lo: nat, hi: nat, p0: nat, i: int)
    requires 0 <= i < |items|
  {
    && ElemFits(elem, items[i]) && lo <= ItemId(items[i]) < hi
    && (i > 0 ==> ItemId(items[i - 1]) < ItemId(items[i]))
    && (elem == ParamElem ==> items[i].ParamItem? && items[i].param.idx == p0 + i)
  }

  /** `ListOk` stated element by element, as the loop of
      `parse_comma_list` keeps it. */
  ghost predicate ItemsOk(elem: ListElem, items: seq<Item>, lo: nat, hi: nat, p0: nat) {
    forall i {:trigger ItemOk(elem, items, lo, hi, p0, i)} :: 0 <= i < |items| ==> ItemOk(elem, items, lo, hi, p0, i)
  }

  lemma {:induction false} ItemsAscend(elem: ListElem, items: seq<Item>, lo: nat, hi: nat, p0: nat, i: int, j: int)
    requires ItemsOk(elem, items, lo, hi, p0) && 0 <= i < j < |items|
    ensures ItemId(items[i]) < ItemId(items[j])
    decreases j - i
  {
    assert ItemOk(elem, items, lo, hi, p0, j);
    if i < j - 1 {
      ItemsAscend(elem, items, lo, hi, p0, i, j - 1);
    }
  }

  /** Ids that rise from each element to the next rise from every element
      to every later one. */
  lemma ItemsOkList(elem: ListElem, items: seq<Item>, lo: nat, hi: nat, p0: nat)
    requires ItemsOk(elem, items, lo, hi, p0)
    ensures ListOk(elem, items, lo, hi, p0)
  {
    forall i | 0 <= i < |items|
      ensures ElemFits(elem, items[i]) && lo <= ItemId(items[i]) < hi
      ensures elem == ParamElem ==> items[i].ParamItem? && items[i].param.idx == p0 + i
    {
      assert ItemOk(elem, items, lo, hi, p0, i);
    }
    forall i, j | 0 <= i < j < |items|
      ensures ItemId(items[i]) < ItemId(items[j])
    {
      ItemsAscend(elem, items, lo, hi, p0, i, j);
    }
  }

  /** Elements appended in source order keep `ItemsOk`: the new one fits,
      its id lies above those before it, and a parameter takes the next
      number. */
  lemma ItemsOkGrows(elem: ListElem, items: seq<Item>, lo: nat, mid: nat, hi: nat, p0: nat, x: Item)
    requires ItemsOk(elem, items, lo, mid, p0)
    requires ElemFits(elem, x) && lo <= mid <= ItemId(x) < hi
    requires elem == ParamElem ==> x.ParamItem? && x.param.idx == p0 + |items|
    ensures ItemsOk(elem, items + [x], lo, hi, p0)
  {
    var items' := items + [x];
    forall i | 0 <= i < |items'|
      ensures ItemOk(elem, items', lo, hi, p0, i)
    {
      if i < |items| {
        assert ItemOk(elem, items, lo, mid, p0, i);
        assert items'[i] == items[i];
      }
      if 0 < i {
        assert ItemOk(elem, items, lo, mid, p0, i - 1);
        assert items'[i - 1] == items[i - 1];
      }
    }
  }

  /** Symbol `sym` interns the text of the identifier token `t`. */
  ghost predicate Interns(names: seq<string>, sym: Symbol, t: Token) {
    t.kind.Identifier? && sym < |names| && names[sym] == t.kind.text
  }

  /** Element `it` was read from tokens `a` to `e`: its span starts where
      token `a` starts and ends where token `e` ends (an expression's lies
      within them), and a name is the one identifier token `a`. */
  ghost predicate ItemAt(toks: seq<Token>, names: seq<string>, it: Item, a: nat, e: int) {
    && a <= e < |toks| && toks[a].span.Span? && toks[e].span.Span?
    && (it.ParamItem? ==>
          && it.param.span.Span? && it.param.span.start == toks[a].span.start
          && EndOf(it.param.span) == EndOf(toks[e].span) && Interns(names, it.param.name, toks[a]))
    && (it.NameItem? ==> a == e && it.name.span == toks[a].span && Interns(names, it.name.sym, toks[a]))
    && (it.TypeItem? ==>
          it.ty.span.Span? && it.ty.span.start == toks[a].span.start && EndOf(it.ty.span) == EndOf(toks[e].span))
    && (it.ExprItem? ==> ExprAt(toks, it.expr, a, e))
  }

  /** Expression `x` was read from tokens `a` to `e`: its span lies within
      theirs. */
  ghost predicate ExprAt(toks: seq<Token>, x: Expr, a: nat, e: int) {
    && a <= e < |toks| && toks[a].span.Span? && toks[e].span.Span?
    && x.span.Span? && toks[a].span.start <= x.span.start && EndOf(x.span) <= EndOf(toks[e].span)
  }

  /** Where the elements of a comma list were read: element `i` from
      token `at[i]` to token `ends[i]`, the first from token `first` and
      each later one from the token after the comma that follows the one
      before it. The token after an element is a comma exactly when another
      element follows it or, after the last one, when `comma`. */
  ghost predicate ListAt(toks: seq<Token>, names: seq<string>, items: seq<Item>, at: seq<nat>, ends: seq<int>,
                         first: nat, comma: bool) {
    && |at| == |items| && |ends| == |items|
    && (items != [] ==> at[0] == first)
    && (forall i {:trigger ItemAt(toks, names, items[i], at[i], ends[i])} :: 0 <= i < |items| ==>
          && ItemAt(toks, names, items[i], at[i], ends[i]) && ends[i] + 1 < |toks|
          && (toks[ends[i] + 1].kind == Sym(Comma) <==> i + 1 < |items| || comma)
          && (i > 0 ==> at[i] == ends[i - 1] + 2))
  }

  /** A comma list read from token `first` and closed at token `close`:
      its elements are placed as `ListAt` says, the list is empty exactly
      when the closer is its first token, and otherwise the closer comes
      right after the last element, or after the comma that follows it. */
  ghost predicate ListRead(toks: seq<Token>, names: seq<string>, items: seq<Item>, at: seq<nat>, ends: seq<int>,
                           first: nat, comma: bool, close: int) {
    && ListAt(toks, names, items, at, ends, first, comma)
    && (items == [] ==> close == first)
    && (items != [] ==> close == ends[|items| - 1] + (if comma then 2 else 1))
  }

  /** Interning more strings keeps what the elements intern. */
  lemma ListAtNames(toks: seq<Token>, names: seq<string>, names': seq<string>, items: seq<Item>, at: seq<nat>,
                    ends: seq<int>, first: nat, comma: bool)
    requires ListAt(toks, names, items, at, ends, first, comma) && names <= names'
    ensures ListAt(toks, names', items, at, ends, first, comma)
  {
    forall i | 0 <= i < |items|
      ensures ItemAt(toks, names', items[i], at[i], ends[i]) && ends[i] + 1 < |toks|
      ensures toks[ends[i] + 1].kind == Sym(Comma) <==> i + 1 < |items| || comma
      ensures i > 0 ==> at[i] == ends[i - 1] + 2
    {
      assert ItemAt(toks, names, items[i], at[i], ends[i]);
    }
  }

  /** The same for a list read and closed. */
  lemma ListReadNames(toks: seq<Token>, names: seq<string>, names': seq<string>, items: seq<Item>, at: seq<nat>,
                      ends: seq<int>, first: nat, comma: bool, close: int)
    requires ListRead(toks, names, items, at, ends, first, comma, close) && names <= names'
    ensures ListRead(toks, names', items, at, ends, first, comma, close)
  {
    ListAtNames(toks, names, names', items, at, ends, first, comma);
  }

  /** An element read after the comma that follows the last one, or as the
      first, extends the list. */
  lemma ListAtGrows(toks: seq<Token>, names: seq<string>, items: seq<Item>, at: seq<nat>, ends: seq<int>,
                    first: nat, x: Item, a: nat, e: int, comma: bool)
    requires ListAt(toks, names, items, at, ends, first, true)
    requires ItemAt(toks, names, x, a, e) && e + 1 < |toks| && (toks[e + 1].kind == Sym(Comma) <==> comma)
    requires items == [] ==> a == first
    requires items != [] ==> a == ends[|items| - 1] + 2
    ensures ListAt(toks, names, items + [x], at + [a], ends + [e], first, comma)
  {
    var items', at', ends' := items + [x], at + [a], ends + [e];
    forall i | 0 <= i < |items'|
      ensures ItemAt(toks, names, items'[i], at'[i], ends'[i]) && ends'[i] + 1 < |toks|
      ensures toks[ends'[i] + 1].kind == Sym(Comma) <==> i + 1 < |items'| || comma
      ensures i > 0 ==> at'[i] == ends'[i - 1] + 2
    {
      if i > 0 {
        assert ends'[i - 1] == ends[i - 1];
      }
      if i < |items| {
        assert items'[i] == items[i] && at'[i] == at[i] && ends'[i] == ends[i];
        assert ItemAt(toks, names, items[i], at[i], ends[i]);
      }
    }
  }

  /** The token after the last element is a comma exactly when `comma`. */
  lemma ListAtLast(toks: seq<Token>, names: seq<string>, items: seq<Item>, at: seq<nat>, ends: seq<int>,
                   first: nat, comma: bool)
    requires ListAt(toks, names, items, at, ends, first, comma) && items != []
    ensures 0 <= ends[|items| - 1] && ends[|items| - 1] + 1 < |toks| && (toks[ends[|items| - 1] + 1].kind == Sym(Comma) <==> comma)
  {
    var n := |items| - 1;
    assert ItemAt(toks, names, items[n], at[n], ends[n]);
  }

  /** A list of names occupies every other token from `first`: name `i` is
      the identifier token `first + 2 * i`, and a comma follows each but
      the last (and the last too when `comma`). */
  lemma ListNamesEveryOther(toks: seq<Token>, names: seq<string>, items: seq<Item>, at: seq<nat>, ends: seq<int>,
                            first: nat, comma: bool)
    requires ListAt(toks, names, items, at, ends, first, comma)
    requires forall i :: 0 <= i < |items| ==> items[i].NameItem?
    ensures forall i :: 0 <= i < |items| ==>
      && first + 2 * i + 1 < |toks| && items[i].name.span == toks[first + 2 * i].span
      && Interns(names, items[i].name.sym, toks[first + 2 * i])
      && (toks[first + 2 * i + 1].kind == Sym(Comma) <==> i + 1 < |items| || comma)
  {
    forall i | 0 <= i < |items|
      ensures first + 2 * i + 1 < |toks| && items[i].name.span == toks[first + 2 * i].span
      ensures Interns(names, items[i].name.sym, toks[first + 2 * i])
      ensures toks[first + 2 * i + 1].kind == Sym(Comma) <==> i + 1 < |items| || comma
    {
      NameAt(toks, names, items, at, ends, first, comma, i);
      assert ItemAt(toks, names, items[i], at[i], ends[i]);
    }
  }

  /** The variants `vs` of an enum were read from the tokens from `first`
      on, up to the `}` at `close`: variant `i` interns the identifier at
      `first + 2 * i`, a comma separates each from the next, and the `}`
      follows the last one, or the comma after it (it is at `first` when
      there is none). */
  ghost predicate VariantsAt(toks: seq<Token>, names: seq<string>, vs: seq<Symbol>, first: nat, close: int) {
    && 0 <= close < |toks| && toks[close].kind == Sym(RBrace)
    && (vs == [] ==> close == first)
    && (vs != [] ==>
          || close == first + 2 * |vs| - 1
          || (close == first + 2 * |vs| && toks[close - 1].kind == Sym(Comma)))
    && forall i {:trigger VariantFits(toks, names, vs, first, i)} :: 0 <= i < |vs| ==> VariantFits(toks, names, vs, first, i)
  }

  ghost predicate VariantFits(toks: seq<Token>, names: seq<string>, vs: seq<Symbol>, first: nat, i: nat)
    requires i < |vs|
  {
    && first + 2 * i + 1 < |toks| && Interns(names, vs[i], toks[first + 2 * i])
    && (i + 1 < |vs| ==> toks[first + 2 * i + 1].kind == Sym(Comma))
  }

  /** The symbols of such a list of names are an enum's variants read
      there. */
  lemma VariantsEveryOther(toks: seq<Token>, names: seq<string>, items: seq<Item>, at: seq<nat>, ends: seq<int>,
                           first: nat, comma: bool, close: int)
    requires ListRead(toks, names, items, at, ends, first, comma, close)
    requires 0 <= close < |toks| && toks[close].kind == Sym(RBrace)
    requires forall i :: 0 <= i < |items| ==> items[i].NameItem?
    ensures VariantsAt(toks, names, SymbolsOf(NamesOf(items)), first, close)
  {
    ListNamesEveryOther(toks, names, items, at, ends, first, comma);
    var vs := SymbolsOf(NamesOf(items));
    forall i | 0 <= i < |vs| ensures VariantFits(toks, names, vs, first, i) {
      assert vs[i] == items[i].name.sym;
    }
    if items != [] {
      var n := |items| - 1;
      NameAt(toks, names, items, at, ends, first, comma, n);
      assert ItemAt(toks, names, items[n], at[n], ends[n]);
    }
  }

  /** Name `k` of such a list begins and ends at token `first + 2 * k`. */
  lemma {:induction false} NameAt(toks: seq<Token>, names: seq<string>, items: seq<Item>, at: seq<nat>,
                                  ends: seq<int>, first: nat, comma: bool, k: nat)
    requires ListAt(toks, names, items, at, ends, first, comma) && k < |items|
    requires forall i :: 0 <= i < |items| ==> items[i].NameItem?
    ensures at[k] == first + 2 * k && ends[k] == at[k]
    decreases k
  {
    assert ItemAt(toks, names, items[k], at[k], ends[k]);
    if k > 0 {
      NameAt(toks, names, items, at, ends, first, comma, k - 1);
      assert at[k] == ends[k - 1] + 2;
    }
  }

  /** The state of the loop of `parse_comma_list` at token `cursor - 1`,
      after the elements `data`, read from the positions `at` to `ends`
      with `first` the first, with ids from [id0, hi) and parameter numbers
      from `p0`: `comma` tells whether a comma followed the last element
      (with no element yet it is true). */
  ghost predicate ListState(toks: seq<Token>, names: seq<string>, hi: nat, cursor: nat, paramIdx: nat,
                            elem: ListElem, data: seq<Item>, at: seq<nat>, ends: seq<int>, first: nat, comma: bool,
                            id0: nat, p0: nat)
  {
    && 1 <= cursor <= |toks|
    && ItemsOk(elem, data, id0, hi, p0)
    && ListAt(toks, names, data, at, ends, first, comma)
    && (Counted(elem) ==> paramIdx == p0 + |data|)
    && (data == [] ==> cursor - 1 == first && comma)
    && (data != [] ==> first + 1 < cursor && ends[|data| - 1] == cursor - (if comma then 3 else 2))
  }

  /** An element read from token `cursor - 1` to token `last` extends the
      state of the loop. */
  lemma ListStateGrows(toks: seq<Token>, names: seq<string>, names': seq<string>, hi: nat, hi': nat,
                       cursor: nat, cursor': nat, paramIdx: nat, paramIdx': nat, elem: ListElem, data: seq<Item>,
                       at: seq<nat>, ends: seq<int>, first: nat, id0: nat, p0: nat, x: Item, last: int,
                       comma': bool)
    requires ListState(toks, names, hi, cursor, paramIdx, elem, data, at, ends, first, true, id0, p0)
    requires names <= names' && id0 <= hi <= ItemId(x) < hi' && ElemFits(elem, x) && cursor < cursor' <= |toks|
    requires ItemAt(toks, names', x, cursor - 1, last)
    requires elem == ParamElem ==> x.ParamItem? && x.param.idx == paramIdx
    requires paramIdx' == paramIdx + (if Counted(elem) then 1 else 0)
    requires comma' ==> last == cursor' - 3 && toks[cursor' - 2].kind == Sym(Comma)
    requires !comma' ==> last == cursor' - 2 && toks[cursor' - 1].kind != Sym(Comma)
    ensures ListState(toks, names', hi', cursor', paramIdx', elem, data + [x], at + [cursor - 1], ends + [last],
                      first, comma', id0, p0)
  {
    ItemsOkGrows(elem, data, id0, hi, hi', p0, x);
    ListAtNames(toks, names, names', data, at, ends, first, true);
    ListAtGrows(toks, names', data, at, ends, first, x, cursor - 1, last, comma');
  }

  /** An element of a comma list whose first token is `c` can begin at
      token `p`: the first token, or one after a comma, and neither `stop`
      nor the end of the input. */
  ghost predicate ElementStart(toks: seq<Token>, stop: TokenKind, c: nat, p: nat) {
    && c <= p < |toks|
    && (p == c || toks[p - 1].kind == Sym(Comma))
    && toks[p].kind != stop && toks[p].kind != End
  }

  /** The unary operator a prefix token denotes in `parse_unary`. */
  function UnOpFor(k: TokenKind): Option<UnOp> {
    match k
    case Op(Add) => Some(Plus)
    case Op(Sub) => Some(Neg)
    case Op(Not) => Some(UnOp.Not)
    case _ => None
  }

  /** The tokens `parse_factor` reads as a one-token literal or name. */
  predicate AtomToken(k: TokenKind) {
    k.LitInt? || k.LitFloat? || k.LitBitVec? || k.Identifier? || k == Kw(True) || k == Kw(False)
  }

  /** The tokens `parse_factor` accepts as the start of a factor. */
  predicate StartsFactor(k: TokenKind) {
    k == Sym(LParen) || k == Sym(LBrace) || k == Kw(If) || AtomToken(k)
  }

  /** The kind of factor each starting token produces (a parenthesised
      expression is whatever is inside). */
  ghost predicate FactorShape(k: TokenKind, e: Expr) {
    if k == Sym(LBrace) then e.BlockExpr?
    else if k == Kw(If) then e.IfExpr?
    else if k == Kw(True) then e.BoolLit? && e.boolValue
    else if k == Kw(False) then e.BoolLit? && !e.boolValue
    else if k.LitInt? then e.IntLit? && e.intBase == k.base && e.intSuffix == k.suffix
    else if k.LitFloat? then e.FloatLit? && e.floatText == k.floatText
    else if k.LitBitVec? then e.BitVecLit?
    else if k.Identifier? then e.Ident?
    else true
  }

  /** The postfix forms `parse_primary` wraps a factor in. */
  datatype PostfixKind = DotPost | CallPost | IndexPost

  predicate PostfixToken(k: TokenKind) {
    k == Sym(Dot) || k == Sym(LParen) || k == Sym(LBracket)
  }

  /** `e` with the postfix forms `kinds` peeled off, outermost (last)
      first, or `None` when `e` is not wrapped in them. */
  function Unwrap(e: Expr, kinds: seq<PostfixKind>): Option<Expr>
    decreases |kinds|
  {
    if kinds == [] then Some(e)
    else
      var inner := kinds[..|kinds| - 1];
      match kinds[|kinds| - 1]
      case DotPost => if e.DotExpr? then Unwrap(e.receiver, inner) else None
      case CallPost => if e.CallExpr? then Unwrap(e.callee, inner) else None
      case IndexPost => if e.Deref? then Unwrap(e.target, inner) else None
  }

  /** `e` is `base` wrapped, innermost first, in the postfix forms `kinds`. */
  ghost predicate Chain(e: Expr, base: Expr, kinds: seq<PostfixKind>) {
    Unwrap(e, kinds) == Some(base)
  }

  /** The postfix form a postfix token opens. */
  function PostfixKindOf(k: TokenKind): PostfixKind {
    if k == Sym(Dot) then DotPost else if k == Sym(LParen) then CallPost else IndexPost
  }

  /** Token `p` opens a postfix form of kind `kind`. */
  ghost predicate SuffixAt(toks: seq<Token>, kind: PostfixKind, p: nat) {
    p < |toks| && PostfixToken(toks[p].kind) && kind == PostfixKindOf(toks[p].kind)
  }

  /** A postfix form of kind `kind` may end at token `j`: a call at `)` and
      an indexing at `]`. */
  ghost predicate SuffixEnds(toks: seq<Token>, kind: PostfixKind, j: int) {
    && 0 <= j < |toks|
    && (kind == CallPost ==> toks[j].kind == Sym(RParen))
    && (kind == IndexPost ==> toks[j].kind == Sym(RBracket))
  }

  /** The postfix forms `kinds` were read from the tokens at `postAt`
      after a factor that ends at token `f`, the last of them ending at
      token `last`: form `i` opens at `postAt[i]` with the token its kind
      calls for, right after the one before it ends. */
  ghost predicate PostfixAt(toks: seq<Token>, kinds: seq<PostfixKind>, postAt: seq<nat>, f: int, last: int) {
    && |postAt| == |kinds|
    && (kinds == [] ==> f == last)
    && (kinds != [] ==> postAt[0] == f + 1 && postAt[|kinds| - 1] <= last && SuffixEnds(toks, kinds[|kinds| - 1], last))
    && forall i {:trigger SuffixFits(toks, kinds, postAt, i)} :: 0 <= i < |kinds| ==> SuffixFits(toks, kinds, postAt, i)
  }

  /** Form `i` opens at token `postAt[i]`, right after form `i - 1` ends. */
  ghost predicate SuffixFits(toks: seq<Token>, kinds: seq<PostfixKind>, postAt: seq<nat>, i: nat)
    requires i < |kinds| == |postAt|
  {
    && SuffixAt(toks, kinds[i], postAt[i])
    && (i > 0 ==> postAt[i - 1] < postAt[i] && SuffixEnds(toks, kinds[i - 1], postAt[i] - 1))
  }

  /** `x` is `e` in one postfix form of kind `kind`, read from token `p`,
      which opens it, to token `last`, which may close it. */
  ghost predicate SuffixRead(toks: seq<Token>, x: Expr, e: Expr, kind: PostfixKind, p: nat, last: int) {
    SuffixAt(toks, kind, p) && p <= last && SuffixEnds(toks, kind, last) && Chain(x, e, [kind])
  }

  /** One more postfix form around a chain extends it. */
  lemma WrapOnce(x: Expr, e: Expr, base: Expr, kinds: seq<PostfixKind>, kind: PostfixKind)
    requires Chain(e, base, kinds) && Chain(x, e, [kind])
    ensures Chain(x, base, kinds + [kind])
  {
    assert (kinds + [kind])[..|kinds|] == kinds && [kind][..0] == [];
    match kind
    case DotPost => assert Unwrap(x, [kind]) == Unwrap(x.receiver, []);
    case CallPost => assert Unwrap(x, [kind]) == Unwrap(x.callee, []);
    case IndexPost => assert Unwrap(x, [kind]) == Unwrap(x.target, []);
  }

  /** A postfix form of kind `kind` applied to `e`, opening at token `p`
      and ending at token `last'`, extends the chain and the positions. */
  lemma PostfixStep(toks: seq<Token>, x: Expr, e: Expr, base: Expr, kinds: seq<PostfixKind>, postAt: seq<nat>,
                    f: int, kind: PostfixKind, p: nat, last': int)
    requires Chain(e, base, kinds) && PostfixAt(toks, kinds, postAt, f, p - 1)
    requires SuffixRead(toks, x, e, kind, p, last')
    ensures Chain(x, base, kinds + [kind]) && PostfixAt(toks, kinds + [kind], postAt + [p], f, last')
  {
    WrapOnce(x, e, base, kinds, kind);
    var kinds', postAt' := kinds + [kind], postAt + [p];
    forall i | 0 <= i < |kinds'|
      ensures SuffixFits(toks, kinds', postAt', i)
    {
      if i < |kinds| {
        assert SuffixFits(toks, kinds, postAt, i);
      }
    }
  }

  /** What `parse_primary` reads from token `a` to token `last` is an
      operand: a chain of postfix forms around the factor that starts at
      token `a` and ends at token `f`. */
  lemma PrimaryUnit(toks: seq<Token>, r: Expr, base: Expr, kinds: seq<PostfixKind>, postAt: seq<nat>,
                    a: nat, f: int, last: int)
    requires FactorAt(toks, base, a, f) && Chain(r, base, kinds)
    requires PostfixAt(toks, kinds, postAt, f, last) && ExprAt(toks, r, a, last)
    ensures PrimaryAt(toks, r, base, kinds, postAt, a, f, last)
  {
    if kinds != [] {
      assert SuffixFits(toks, kinds, postAt, 0);
    }
  }

  /** Operand `u` of a binary expression was read from tokens `a` to `e`:
      its span lies within theirs, a binary expression there is one in
      parentheses, and a literal or name is the whole operand unless a
      postfix form follows it. */
  ghost predicate UnitAt(toks: seq<Token>, u: Expr, a: nat, e: int) {
    && ExprAt(toks, u, a, e)
    && (u.Binary? ==> toks[a].kind == Sym(LParen) && toks[e].kind == Sym(RParen))
    && (AtomToken(toks[a].kind) && a < e ==> PostfixToken(toks[a + 1].kind))
  }

  /** Factor `e` was read from tokens `a` to `f`: the token at `a` starts
      it and fixes its form, a literal or a name is that one token, and a
      parenthesized factor ends at `)`. */
  ghost predicate FactorAt(toks: seq<Token>, e: Expr, a: nat, f: int) {
    && a < |toks| && StartsFactor(toks[a].kind) && FactorShape(toks[a].kind, e) && ExprAt(toks, e, a, f)
    && (AtomToken(toks[a].kind) ==> f == a)
    && (toks[a].kind == Sym(LParen) ==> toks[f].kind == Sym(RParen))
  }

  /** A successful factor parse read its factor from `a` to `f`. */
  ghost predicate FactorRead(toks: seq<Token>, r: Result<Expr, ParseError>, a: nat, f: int) {
    r.Ok? ==> FactorAt(toks, r.value, a, f)
  }

  /** Primary expression `x` was read from tokens `a` to `last`: the
      factor `base` from `a` to `f`, which is the single token `a` when it
      is a literal or a name, then the postfix forms `kinds`, whose tokens
      are at `postAt`; `x` is an operand read there. */
  ghost predicate PrimaryAt(toks: seq<Token>, x: Expr, base: Expr, kinds: seq<PostfixKind>, postAt: seq<nat>,
                            a: nat, f: int, last: int)
  {
    && FactorAt(toks, base, a, f) && Chain(x, base, kinds)
    && PostfixAt(toks, kinds, postAt, f, last) && UnitAt(toks, x, a, last)
  }

  /** The operators of a binary expression are the tokens at `opAt`, in
      source order, all at indices in [lo, hi): the last one lies in
      [lo, hi) and the others before it. */
  ghost predicate Operators(toks: seq<Token>, ops: seq<BinOp>, opAt: seq<nat>, lo: int, hi: int)
    decreases |ops|
  {
    && |opAt| == |ops|
    && (ops != [] ==>
          var n := |ops| - 1;
          && lo <= opAt[n] < hi && opAt[n] < |toks| && OpFor(toks[opAt[n]].kind) == Some(ops[n])
          && Operators(toks, ops[..n], opAt[..n], lo, opAt[n]))
  }

  /** The same, stated for every operator at once. */
  ghost predicate OperatorsAt(toks: seq<Token>, ops: seq<BinOp>, opAt: seq<nat>, lo: int, hi: int) {
    && |opAt| == |ops|
    && (forall i :: 0 <= i < |ops| ==> lo <= opAt[i] < hi && opAt[i] < |toks| && OpFor(toks[opAt[i]].kind) == Some(ops[i]))
    && (forall i, j :: 0 <= i < j < |ops| ==> opAt[i] < opAt[j])
  }

  /** The operands `units` of a binary expression whose operators are at
      `opAt` fill the tokens from `lo` to `hi` between those operators:
      operand `i` runs from just after operator `i - 1` (or from `lo`) to
      just before operator `i` (or to `hi`). */
  ghost predicate UnitsAt(toks: seq<Token>, units: seq<Expr>, opAt: seq<nat>, lo: int, hi: int) {
    && |units| == |opAt| + 1
    && forall i {:trigger UnitFits(toks, units, opAt, lo, hi, i)} ::
         0 <= i < |units| ==> UnitFits(toks, units, opAt, lo, hi, i)
  }

  ghost predicate UnitFits(toks: seq<Token>, units: seq<Expr>, opAt: seq<nat>, lo: int, hi: int, i: nat)
    requires i < |units| == |opAt| + 1
  {
    var a: int := if i == 0 then lo else opAt[i - 1] + 1;
    var e: int := if i == |opAt| then hi else opAt[i] as int - 1;
    a >= 0 && UnitAt(toks, units[i], a, e)
  }

  /** `x` is the binary expression read from tokens `lo` to `hi`: the tree
      of operands `units` and operators `ops`, whose operator tokens lie
      after `lo` and whose operands fill the tokens between them. */
  ghost predicate BinaryAt(toks: seq<Token>, x: Expr, units: seq<Expr>, ops: seq<BinOp>, opAt: seq<nat>, lo: int, hi: int) {
    IsTree(x, units, ops) && Operators(toks, ops, opAt, lo + 1, hi + 1) && UnitsAt(toks, units, opAt, lo, hi)
  }

  /** Joining operands before the operator at `k` to operands after it
      keeps every operand between its neighbouring operators. */
  lemma UnitsJoin(toks: seq<Token>, units: seq<Expr>, opAt: seq<nat>, k: nat, ru: seq<Expr>, rat: seq<nat>,
                  lo: int, hi: int)
    requires UnitsAt(toks, units, opAt, lo, k - 1) && UnitsAt(toks, ru, rat, k + 1, hi)
    ensures UnitsAt(toks, units + ru, opAt + [k] + rat, lo, hi)
  {
    var units', opAt' := units + ru, opAt + [k] + rat;
    var n := |units|;
    forall i | 0 <= i < |units'|
      ensures UnitFits(toks, units', opAt', lo, hi, i)
    {
      if i < n {
        assert UnitFits(toks, units, opAt, lo, k - 1, i);
        assert units'[i] == units[i];
        if i > 0 { assert opAt'[i - 1] == opAt[i - 1]; }
        if i < n - 1 { assert opAt'[i] == opAt[i]; } else { assert opAt'[i] == k; }
      } else {
        var j := i - n;
        assert UnitFits(toks, ru, rat, k + 1, hi, j);
        assert units'[i] == ru[j];
        if j > 0 { assert opAt'[i - 1] == rat[j - 1]; } else { assert opAt'[i - 1] == k; }
        if j < |rat| { assert opAt'[i] == rat[j]; }
      }
    }
  }

  lemma {:induction false} OperatorsEquiv(toks: seq<Token>, ops: seq<BinOp>, opAt: seq<nat>, lo: int, hi: int)
    ensures Operators(toks, ops, opAt, lo, hi) <==> OperatorsAt(toks, ops, opAt, lo, hi)
    decreases |ops|
  {
    if ops != [] && |opAt| == |ops| {
      var n := |ops| - 1;
      var po, pa := ops[..n], opAt[..n];
      OperatorsEquiv(toks, po, pa, lo, opAt[n]);
      if OperatorsAt(toks, ops, opAt, lo, hi) {
        forall i | 0 <= i < n
          ensures lo <= pa[i] < opAt[n] && pa[i] < |toks| && OpFor(toks[pa[i]].kind) == Some(po[i])
        {
          assert pa[i] == opAt[i] && po[i] == ops[i];
        }
        forall i, j | 0 <= i < j < n
          ensures pa[i] < pa[j]
        {
          assert pa[i] == opAt[i] && pa[j] == opAt[j];
        }
        assert OperatorsAt(toks, po, pa, lo, opAt[n]);
      }
      if Operators(toks, ops, opAt, lo, hi) {
        assert OperatorsAt(toks, po, pa, lo, opAt[n]);
        forall i | 0 <= i < |ops|
          ensures lo <= opAt[i] < hi && opAt[i] < |toks| && OpFor(toks[opAt[i]].kind) == Some(ops[i])
          ensures i < n ==> opAt[i] < opAt[n]
        {
          if i < n {
            assert pa[i] == opAt[i] && po[i] == ops[i];
          }
        }
        forall i, j | 0 <= i < j < |ops|
          ensures opAt[i] < opAt[j]
        {
          if j < n {
            assert pa[i] == opAt[i] && pa[j] == opAt[j];
          }
        }
      }
    }
  }

  lemma OperatorsJoin(toks: seq<Token>, lo: seq<BinOp>, lat: seq<nat>, op: BinOp, k: nat,
                      ro: seq<BinOp>, rat: seq<nat>, a: int, b: int)
    requires Operators(toks, lo, lat, a, k) && Operators(toks, ro, rat, k + 1, b)
    requires a <= k < b && k < |toks| && OpFor(toks[k].kind) == Some(op)
    ensures Operators(toks, lo + [op] + ro, lat + [k] + rat, a, b)
  {
    OperatorsEquiv(toks, lo, lat, a, k);
    OperatorsEquiv(toks, ro, rat, k + 1, b);
    OperatorsAtJoin(toks, lo, lat, op, k, ro, rat, a, b);
    OperatorsEquiv(toks, lo + [op] + ro, lat + [k] + rat, a, b);
  }

  lemma OperatorsAtJoin(toks: seq<Token>, lo: seq<BinOp>, lat: seq<nat>, op: BinOp, k: nat,
                        ro: seq<BinOp>, rat: seq<nat>, a: int, b: int)
    requires OperatorsAt(toks, lo, lat, a, k) && OperatorsAt(toks, ro, rat, k + 1, b)
    requires a <= k < b && k < |toks| && OpFor(toks[k].kind) == Some(op)
    ensures OperatorsAt(toks, lo + [op] + ro, lat + [k] + rat, a, b)
  {
    var ops, at := lo + [op] + ro, lat + [k] + rat;
    forall i | 0 <= i < |ops|
      ensures a <= at[i] < b && at[i] < |toks| && OpFor(toks[at[i]].kind) == Some(ops[i])
      ensures i < |lo| ==> at[i] < k
      ensures i > |lo| ==> at[i] > k
    {
      if i < |lo| {
        assert ops[i] == lo[i] && at[i] == lat[i];
      } else if i > |lo| {
        assert ops[i] == ro[i - |lo| - 1] && at[i] == rat[i - |lo| - 1];
      }
    }
    forall i, j | 0 <= i < j < |ops|
      ensures at[i] < at[j]
    {
      if j < |lo| {
        assert at[i] == lat[i] && at[j] == lat[j];
      } else if i > |lo| {
        assert at[i] == rat[i - |lo| - 1] && at[j] == rat[j - |lo| - 1];
      }
    }
  }

  /** Every operator of the joined tree binds tighter than `prec` and at
      least as tight as the new one. */
  lemma PrecedenceJoin(prec: nat, p: nat, ops: seq<BinOp>, op: BinOp, ro: seq<BinOp>)
    requires prec < p && OpPrecedence(op) == p
    requires forall i :: 0 <= i < |ops| ==> prec < OpPrecedence(ops[i]) && p <= OpPrecedence(ops[i])
    requires forall i :: 0 <= i < |ro| ==> p < OpPrecedence(ro[i])
    ensures forall i :: 0 <= i < |ops + [op] + ro| ==>
      prec < OpPrecedence((ops + [op] + ro)[i]) && p <= OpPrecedence((ops + [op] + ro)[i])
  {
    var all := ops + [op] + ro;
    forall i | 0 <= i < |all|
      ensures prec < OpPrecedence(all[i]) && p <= OpPrecedence(all[i])
    {
      if i < |ops| {
        assert all[i] == ops[i];
      } else if i == |ops| {
        assert all[i] == op;
      } else {
        assert all[i] == ro[i - |ops| - 1];
      }
    }
  }

  /** The tree `parse_binary` builds when it joins `e`, whose operators lie
      before the operator token at `k`, to the right operand, whose
      operators lie after it: its operators are both lists with the new one
      between, split where the new one stands. */
  lemma JoinOperands(toks: seq<Token>, prec: nat, p: nat, e: Expr, units: seq<Expr>, ops: seq<BinOp>, opAt: seq<nat>,
                     op: BinOp, right: Expr, ru: seq<Expr>, ro: seq<BinOp>, rat: seq<nat>,
                     k: nat, tk: TokenKind, c0: int, hi: int, joined: Expr, next: Option<nat>)
    returns (units': seq<Expr>, ops': seq<BinOp>, opAt': seq<nat>)
    requires BinaryAt(toks, e, units, ops, opAt, c0 - 1, k - 1)
    requires BinaryAt(toks, right, ru, ro, rat, k + 1, hi - 1)
    requires c0 <= k < hi && k < |toks| && toks[k].kind == tk && OpFor(tk) == Some(op) && TokenPrecedence(tk) == Some(p)
    requires prec < p
    requires forall i :: 0 <= i < |ops| ==> prec < OpPrecedence(ops[i]) && p <= OpPrecedence(ops[i])
    requires forall i :: 0 <= i < |ro| ==> p < OpPrecedence(ro[i])
    requires next.None? || next.value <= p
    requires joined.Binary? && joined.binOp == op && joined.lhs == e && joined.rhs == right
    ensures BinaryAt(toks, joined, units', ops', opAt', c0 - 1, hi - 1) && ops' != []
    ensures forall i :: 0 <= i < |ops'| ==> prec < OpPrecedence(ops'[i])
    ensures next.Some? ==> forall i :: 0 <= i < |ops'| ==> next.value <= OpPrecedence(ops'[i])
  {
    units', ops', opAt' := units + ru, ops + [op] + ro, opAt + [k] + rat;
    TablesAgree(tk);
    OperatorsEquiv(toks, ro, rat, k + 2, hi);
    OperatorsEquiv(toks, ro, rat, k + 1, hi);
    Combine(e, units, ops, op, right, ru, ro, joined);
    OperatorsJoin(toks, ops, opAt, op, k, ro, rat, c0, hi);
    PrecedenceJoin(prec, p, ops, op, ro);
    UnitsJoin(toks, units, opAt, k, ru, rat, c0 - 1, hi - 1);
  }

  /** Tokens `a o1 b o2 c` then `End`, each operand a literal or a name and
      each operator one with a binary expression, read as one binary
      expression up to a token with no precedence: the operands are the
      three atoms and the operators the two tokens between them. */
  lemma {:induction false} ThreeOperands(toks: seq<Token>, x: Expr, units: seq<Expr>, ops: seq<BinOp>, opAt: seq<nat>,
                                         hi: nat)
    requires |toks| == 6 && toks[5].kind == End
    requires AtomToken(toks[0].kind) && AtomToken(toks[2].kind) && AtomToken(toks[4].kind)
    requires OpFor(toks[1].kind).Some? && OpFor(toks[3].kind).Some?
    requires BinaryAt(toks, x, units, ops, opAt, 0, hi)
    requires hi + 1 < |toks| && TokenPrecedence(toks[hi + 1].kind).None?
    ensures hi == 4 && opAt == [1, 3] && ops == [OpFor(toks[1].kind).value, OpFor(toks[3].kind).value]
    ensures units == [units[0], units[1], units[2]]
  {
    TablesAgree(toks[1].kind);
    TablesAgree(toks[3].kind);
    OperatorsEquiv(toks, ops, opAt, 1, hi + 1);
    var n := |ops|;
    // only the two operator tokens can hold an operator
    forall i | 0 <= i < n ensures opAt[i] == 1 || opAt[i] == 3 {
      assert OpFor(toks[opAt[i]].kind).Some?;
    }
    // an operand that starts at an atom and is not followed by a postfix
    // token is that atom alone, so the last one ends where it starts
    assert UnitFits(toks, units, opAt, 0, hi, n);
    assert hi == 4 && n > 0 && opAt[n - 1] == 3;
    assert UnitFits(toks, units, opAt, 0, hi, 0);
    assert opAt[0] == 1;
  }

  /** The tokens from `s` on alternate between `m + 1` literals or names
      and `m` operators with a binary expression, and the token after the
      last atom has no precedence and is not a postfix form. */
  ghost predicate AtomsAndOperators(toks: seq<Token>, s: nat, m: nat) {
    && s + 2 * m + 1 < |toks|
    && (forall i :: 0 <= i <= m ==> AtomToken(toks[s + 2 * i].kind))
    && (forall i :: 0 <= i < m ==> OpFor(toks[s + 2 * i + 1].kind).Some?)
    && TokenPrecedence(toks[s + 2 * m + 1].kind).None? && !PostfixToken(toks[s + 2 * m + 1].kind)
  }

  /** The step of `AtomChain`: once the first `i` operators are the tokens
      between the first `i + 1` atoms, so are all of them. */
  lemma {:induction false} AtomChainFrom(toks: seq<Token>, units: seq<Expr>, ops: seq<BinOp>, opAt: seq<nat>,
                                         s: nat, m: nat, hi: nat, i: nat)
    requires AtomsAndOperators(toks, s, m)
    requires OperatorsAt(toks, ops, opAt, s + 1, hi + 1) && UnitsAt(toks, units, opAt, s, hi)
    requires hi + 1 < |toks| && TokenPrecedence(toks[hi + 1].kind).None?
    requires i <= m && i <= |opAt| && forall j :: 0 <= j < i ==> opAt[j] == s + 2 * j + 1
    ensures |opAt| == m && hi == s + 2 * m && forall j :: 0 <= j < m ==> opAt[j] == s + 2 * j + 1
    decreases m - i
  {
    var a := s + 2 * i;
    assert UnitFits(toks, units, opAt, s, hi, i);
    assert i > 0 ==> opAt[i - 1] + 1 == a;
    TablesAgree(toks[a + 1].kind);
    if i < |opAt| {
      // the atom is one token, so operator `i` is right after it
      assert opAt[i] == a + 1;
      assert OpFor(toks[opAt[i]].kind).Some?;
      AtomChainFrom(toks, units, ops, opAt, s, m, hi, i + 1);
    } else {
      // the last atom ends the expression, and only the one at `m` can
      assert hi == a;
    }
  }

  /** An expression of `m + 1` literals or names joined by `m` operators,
      read as one binary expression up to a token with no precedence: the
      operands are the atoms, one token each, and the operators the tokens
      between them, so the tree is the one `IsTree` builds from those. */
  lemma AtomChain(toks: seq<Token>, x: Expr, units: seq<Expr>, ops: seq<BinOp>, opAt: seq<nat>, s: nat, m: nat,
                  hi: nat)
    requires AtomsAndOperators(toks, s, m)
    requires BinaryAt(toks, x, units, ops, opAt, s, hi)
    requires hi + 1 < |toks| && TokenPrecedence(toks[hi + 1].kind).None?
    ensures hi == s + 2 * m && |ops| == m && |units| == m + 1 && IsTree(x, units, ops)
    ensures forall j :: 0 <= j < m ==> opAt[j] == s + 2 * j + 1 && Some(ops[j]) == OpFor(toks[s + 2 * j + 1].kind)
    ensures forall j :: 0 <= j <= m ==> ExprAt(toks, units[j], s + 2 * j, s + 2 * j) && !units[j].Binary?
  {
    OperatorsEquiv(toks, ops, opAt, s + 1, hi + 1);
    AtomChainFrom(toks, units, ops, opAt, s, m, hi, 0);
    forall j | 0 <= j <= m
      ensures ExprAt(toks, units[j], s + 2 * j, s + 2 * j) && !units[j].Binary?
    {
      assert UnitFits(toks, units, opAt, s, hi, j);
      assert j > 0 ==> opAt[j - 1] + 1 == s + 2 * j;
      TablesAgree(toks[s + 2 * j + 1].kind);
    }
  }

  /** `a + b * c` reads as `a + (b * c)`: the tighter `*` nests on the
      right. */
  lemma ProductNestsInSum(toks: seq<Token>, x: Expr, units: seq<Expr>, ops: seq<BinOp>, opAt: seq<nat>, hi: nat)
    requires |toks| == 6 && toks[5].kind == End
    requires toks[0].kind.Identifier? && toks[1].kind == Op(Operator.Add)
    requires toks[2].kind.Identifier? && toks[3].kind == Op(Operator.Mul) && toks[4].kind.Identifier?
    requires BinaryAt(toks, x, units, ops, opAt, 0, hi)
    requires hi + 1 < |toks| && TokenPrecedence(toks[hi + 1].kind).None?
    ensures |units| == 3 && x.Binary? && x.binOp == BinOp.Add && x.lhs == units[0]
    ensures x.rhs.Binary? && x.rhs.binOp == BinOp.Mul && x.rhs.lhs == units[1] && x.rhs.rhs == units[2]
  {
    ThreeOperands(toks, x, units, ops, opAt, hi);
    TighterOperatorNestsRight(x, units[0], units[1], units[2], BinOp.Add, BinOp.Mul);
  }

  /** `a - b - c` reads as `(a - b) - c`: operators of one level associate
      to the left. */
  lemma DifferenceAssociatesLeft(toks: seq<Token>, x: Expr, units: seq<Expr>, ops: seq<BinOp>, opAt: seq<nat>,
                                 hi: nat)
    requires |toks| == 6 && toks[5].kind == End
    requires toks[0].kind.Identifier? && toks[1].kind == Op(Operator.Sub)
    requires toks[2].kind.Identifier? && toks[3].kind == Op(Operator.Sub) && toks[4].kind.Identifier?
    requires BinaryAt(toks, x, units, ops, opAt, 0, hi)
    requires hi + 1 < |toks| && TokenPrecedence(toks[hi + 1].kind).None?
    ensures |units| == 3 && x.Binary? && x.binOp == BinOp.Sub && x.rhs == units[2]
    ensures x.lhs.Binary? && x.lhs.binOp == BinOp.Sub && x.lhs.lhs == units[0] && x.lhs.rhs == units[1]
  {
    ThreeOperands(toks, x, units, ops, opAt, hi);
    LooserOrEqualNestsLeft(x, units[0], units[1], units[2], BinOp.Sub, BinOp.Sub);
  }

  /** `u64::from_str_radix` on an integer literal's digits with the
      underscores dropped. */
  function LiteralValue(digits: string, base: IntBase): (r: Option<nat>)
    ensures r.Some? ==> r.value <= MaxU64
  {
    ParseU64(StripUnderscores(digits), Radix(base))
  }

  /** The step count `induction(n)` and `simulate(n)` read from the token
      after the parenthesis, or the error they report. */
  function StepCount(k: TokenKind): (r: Result<nat, ParseError>)
    ensures r.Ok? <==> k.LitInt? && LiteralValue(k.digits, k.base).Some?
    ensures r.Ok? ==> r.value <= MaxU64
  {
    if !k.LitInt? then Err(ExpectedToken(LitInt("Some integer", Dec, Int), k))
    else match LiteralValue(k.digits, k.base)
      case Some(n) => Ok(n)
      case None => Err(NumberOverflow(k.suffix))
  }

  /** The value and width of a bit-vector literal (`parse::<usize>` on each
      with the underscores dropped), when both read as numbers. */
  function BitVecNumbers(value: string, width: string): (r: Option<(nat, nat)>)
    ensures r.Some? ==> r.value.0 <= MaxU64 && r.value.1 <= MaxU64
  {
    var v := ParseU64(StripUnderscores(value), 10);
    var w := ParseU64(StripUnderscores(width), 10);
    if v.Some? && w.Some? then Some((v.value, w.value)) else None
  }

  /** The keywords `parse_statement` dispatches on. */
  predicate StatementKeyword(k: TokenKind) {
    k.Kw? && k.keyword in {Induction, Simulate, Assert, Assume, Havoc, Call, Input, Output, Var, Const, While, Else, If}
  }

  /** The statement each leading token produces. */
  ghost predicate StatementShape(k: TokenKind, s: Stmt) {
    if k == Kw(Induction) then s.InductionStmt?
    else if k == Kw(Simulate) then s.SimulateStmt?
    else if k == Kw(Assert) then s.AssertStmt?
    else if k == Kw(Assume) then s.AssumeStmt?
    else if k == Kw(Havoc) then s.HavocStmt?
    else if k == Kw(Call) then s.CallStmt?
    else if k == Kw(Input) || k == Kw(Output) || k == Kw(Var) then s.VarStmt? && s.reassignable
    else if k == Kw(Const) then s.VarStmt? && !s.reassignable
    else if k == Kw(While) then s.WhileStmt?
    else if k == Kw(If) then s.ExprStmt? && s.expr.IfExpr? && s.span == s.expr.span
    else if k == Kw(Else) then false
    else s.ExprStmt?
  }

  /** Statement `i` of a block starts at `starts[i]`, before the next
      statement, or before `next` for the last: its leading token is
      neither `}` nor the end of input, and it fixes the statement's
      shape. */
  ghost predicate StatementFits(toks: seq<Token>, stmts: seq<Stmt>, starts: seq<nat>, next: int, i: int)
    requires 0 <= i < |stmts| == |starts|
  {
    && starts[i] < (if i + 1 < |starts| then starts[i + 1] else next) <= |toks|
    && toks[starts[i]].kind != Sym(RBrace) && toks[starts[i]].kind != End
    && StatementShape(toks[starts[i]].kind, stmts[i])
  }

  /** The statements of a block, read one after the other from token
      `first` up to token `next`. */
  ghost predicate StatementsAt(toks: seq<Token>, stmts: seq<Stmt>, starts: seq<nat>, first: nat, next: int) {
    && |starts| == |stmts|
    && (stmts == [] ==> next == first)
    && (stmts != [] ==> starts[0] == first)
    && first <= next <= |toks|
    && forall i {:trigger StatementFits(toks, stmts, starts, next, i)} ::
         0 <= i < |stmts| ==> StatementFits(toks, stmts, starts, next, i)
  }

  /** A statement read at `next` extends the block. */
  lemma {:induction false} StatementsGrow(toks: seq<Token>, stmts: seq<Stmt>, starts: seq<nat>, first: nat, next: int,
                                          s: Stmt, next': int)
    requires StatementsAt(toks, stmts, starts, first, next) && StatementsAt(toks, [s], [next], next, next')
    ensures StatementsAt(toks, stmts + [s], starts + [next], first, next')
  {
    var stmts', starts' := stmts + [s], starts + [next];
    assert StatementFits(toks, [s], [next], next', 0);
    forall i | 0 <= i < |stmts'|
      ensures StatementFits(toks, stmts', starts', next', i)
    {
      if i < |stmts| {
        assert StatementFits(toks, stmts, starts, next, i);
      }
    }
  }

  /** A block whose statements are read up to its `}` is empty exactly when
      the `}` comes first. */
  lemma StatementsEmpty(toks: seq<Token>, stmts: seq<Stmt>, starts: seq<nat>, first: nat, close: int)
    requires StatementsAt(toks, stmts, starts, first, close) && close < |toks| && toks[close].kind == Sym(RBrace)
    ensures stmts == [] <==> toks[first].kind == Sym(RBrace)
  {
    if stmts != [] {
      assert StatementFits(toks, stmts, starts, close, 0);
    }
  }

  /** The shape of the statements `parse_var` makes. */
  lemma VarShape(k: TokenKind, s: Stmt)
    requires k.Kw? && k.keyword in {Input, Output, Var, Const}
    requires s.VarStmt? && s.reassignable == (k != Kw(Const))
    ensures StatementShape(k, s)
  {
  }

  /** The keywords `parse_field` accepts. */
  predicate FieldKeyword(k: TokenKind) {
    k == Kw(Var) || k == Kw(Input) || k == Kw(Output) || k == Kw(Const)
  }

  /** The keywords that start an element of a module body. */
  predicate ModuleKeyword(k: TokenKind) {
    || FieldKeyword(k) || SpecKeyword(k)
    || k == Kw(Type) || k == Kw(Define) || k == Kw(Function) || k == Kw(Procedure)
  }

  /** The keywords of theorems, lemmas and transition blocks. */
  predicate SpecKeyword(k: TokenKind) {
    k == Kw(Theorem) || k == Kw(Lemma) || k == Kw(Init) || k == Kw(Next) || k == Kw(Control)
  }

  /** The annotations an element of a module body may carry: `@synthesis`
      on a function, `@inline` on a procedure, none on anything else. */
  function AllowedModifiers(k: TokenKind): seq<Modifier> {
    if k == Kw(Function) then FunctionModifiers
    else if k == Kw(Procedure) then ProcedureModifiers
    else []
  }

  /** The keyword that starts an element of each kind. */
  function KeywordOf(it: ModuleItem): (k: TokenKind)
    ensures ModuleKeyword(k)
  {
    match it
    case InputItem(_) => Kw(Input)
    case OutputItem(_) => Kw(Output)
    case VarItem(_) => Kw(Var)
    case ConstItem(_) => Kw(Const)
    case TypeDeclItem(_) => Kw(Type)
    case MacroItem(_) => Kw(Define)
    case FunctionItem(_) => Kw(Function)
    case ProcedureItem(_) => Kw(Procedure)
    case TheoremItem(_) => Kw(Theorem)
    case LemmaItem(_) => Kw(Lemma)
    case InitItem(_) => Kw(Init)
    case NextItem(_) => Kw(Next)
    case ControlItem(_) => Kw(Control)
  }

  /** A function is to be synthesised exactly when it was annotated so. */
  predicate SynthesisAgrees(it: ModuleItem, mods: seq<ModifierEntry>) {
    it.FunctionItem? ==> it.func.toSynthesize == Contains(mods, Synthesis)
  }

  /** The element each arm of `parse_module_body` produces for the keyword
      `k`: the kind `k` starts, a function to be synthesised exactly when
      it was annotated so, and nothing for any other token. */
  predicate ItemFor(k: TokenKind, it: ModuleItem, mods: seq<ModifierEntry>) {
    match k
    case Kw(Input) => it.InputItem?
    case Kw(Output) => it.OutputItem?
    case Kw(Var) => it.VarItem?
    case Kw(Const) => it.ConstItem?
    case Kw(Type) => it.TypeDeclItem?
    case Kw(Define) => it.MacroItem?
    case Kw(Function) => it.FunctionItem? && it.func.toSynthesize == Contains(mods, Synthesis)
    case Kw(Procedure) => it.ProcedureItem?
    case Kw(Theorem) => it.TheoremItem?
    case Kw(Lemma) => it.LemmaItem?
    case Kw(Init) => it.InitItem?
    case Kw(Next) => it.NextItem?
    case Kw(Control) => it.ControlItem?
    case _ => false
  }

  /** The arms produce exactly the element whose keyword was read. */
  lemma ItemForKeyword(k: TokenKind, it: ModuleItem, mods: seq<ModifierEntry>)
    ensures ItemFor(k, it, mods) <==> KeywordOf(it) == k && SynthesisAgrees(it, mods)
  {
    match it
    case InputItem(_) =>
    case OutputItem(_) =>
    case VarItem(_) =>
    case ConstItem(_) =>
    case TypeDeclItem(_) =>
    case MacroItem(_) =>
    case FunctionItem(_) =>
    case ProcedureItem(_) =>
    case TheoremItem(_) =>
    case LemmaItem(_) =>
    case InitItem(_) =>
    case NextItem(_) =>
    case ControlItem(_) =>
  }

  /** Element `it` of a module body was read from tokens `s` to `e`: its
      annotations from `s` on, then, at the token after them, a keyword that
      starts an element of its kind and allows those annotations. */
  ghost predicate ElementAt(toks: seq<Token>, it: ModuleItem, s: nat, e: int) {
    && |toks| > 0 && ReadAnnotations(toks, s, []).Ok?
    && var mods := ReadAnnotations(toks, s, []).value;
       var k := s + 2 * |mods|;
       && k <= e < |toks| && KeywordOf(it) == toks[k].kind && SynthesisAgrees(it, mods)
       && forall i :: 0 <= i < |mods| ==> mods[i].modifier in AllowedModifiers(toks[k].kind)
  }

  /** The elements `items` of a module body start at `starts` and fill the
      tokens from `lo` up to `close`: each runs to just before the next
      one, the last to just before `close`. */
  ghost predicate ElementsAt(toks: seq<Token>, items: seq<ModuleItem>, starts: seq<nat>, lo: int, close: int) {
    && |starts| == |items|
    && (items == [] ==> close == lo)
    && (items != [] ==> starts[0] == lo)
    && forall i {:trigger ElementFits(toks, items, starts, close, i)} ::
         0 <= i < |items| ==> ElementFits(toks, items, starts, close, i)
  }

  ghost predicate ElementFits(toks: seq<Token>, items: seq<ModuleItem>, starts: seq<nat>, close: int, i: nat)
    requires i < |items| == |starts|
  {
    ElementAt(toks, items[i], starts[i], if i + 1 < |items| then starts[i + 1] as int - 1 else close - 1)
  }

  /** An element read from `s`, where the elements so far end, to `e`
      extends them up to `e + 1`. */
  lemma ElementsGrow(toks: seq<Token>, items: seq<ModuleItem>, starts: seq<nat>, lo: int, s: nat, it: ModuleItem, e: int)
    requires ElementsAt(toks, items, starts, lo, s) && ElementAt(toks, it, s, e)
    ensures ElementsAt(toks, items + [it], starts + [s], lo, e + 1)
  {
    var items', starts', close := items + [it], starts + [s], e + 1;
    forall i | 0 <= i < |items'|
      ensures ElementFits(toks, items', starts', close, i)
    {
      if i < |items| {
        assert ElementFits(toks, items, starts, s, i);
        assert items'[i] == items[i] && starts'[i] == starts[i];
        if i + 1 < |items| { assert starts'[i + 1] == starts[i + 1]; } else { assert starts'[i + 1] == s; }
      }
    }
  }

  /** The keywords that open a clause of a procedure. */
  predicate ClauseKeyword(k: TokenKind) {
    k == Kw(Returns) || k == Kw(Modifies) || k == Kw(Requires) || k == Kw(Ensures)
  }

  /** The clauses of a procedure, collected over the rounds of its clause
      loop. */
  datatype Clauses = Clauses(
    returnParams: seq<ParamDecl>, modifiesNames: seq<Name>,
    requiresClauses: seq<PredicateStmt>, ensuresClauses: seq<PredicateStmt>)

  const NoClauses := Clauses([], [], [], [])

  function Append(c: Clauses, d: Clauses): Clauses {
    Clauses(c.returnParams + d.returnParams, c.modifiesNames + d.modifiesNames,
            c.requiresClauses + d.requiresClauses, c.ensuresClauses + d.ensuresClauses)
  }

  function ClausesOf(p: ProcedureDecl): Clauses {
    Clauses(p.returnParams, p.modifiesNames, p.requiresClauses, p.ensuresClauses)
  }

  /** Every node of the clauses has an id in [lo, hi). */
  ghost predicate ClausesIn(c: Clauses, lo: nat, hi: nat) {
    && (forall i :: 0 <= i < |c.returnParams| ==> lo <= c.returnParams[i].id < hi)
    && (forall i :: 0 <= i < |c.modifiesNames| ==> lo <= c.modifiesNames[i].id < hi)
    && (forall i :: 0 <= i < |c.requiresClauses| ==> lo <= c.requiresClauses[i].id < hi)
    && (forall i :: 0 <= i < |c.ensuresClauses| ==> lo <= c.ensuresClauses[i].id < hi)
  }

  /** What the keyword `k` that opens the clause loop guarantees of the
      clauses read, where `next` and `second` are the two tokens after
      it: a `requires` or `ensures` clause, a return list when `returns (`
      is not followed by `)`, a modifies list when `modifies` is not
      followed by `;`. */
  ghost predicate ClausesOpen(c: Clauses, k: TokenKind, next: TokenKind, second: TokenKind) {
    && (k == Kw(Requires) ==> c.requiresClauses != [])
    && (k == Kw(Ensures) ==> c.ensuresClauses != [])
    && (k == Kw(Returns) && second != Sym(RParen) ==> c.returnParams != [])
    && (k == Kw(Modifies) && next != Sym(Semicolon) ==> c.modifiesNames != [])
  }

  lemma ClausesJoin(c: Clauses, d: Clauses, lo: nat, mid: nat, hi: nat)
    requires ClausesIn(c, lo, mid) && ClausesIn(d, mid, hi) && lo <= mid <= hi
    ensures ClausesIn(Append(c, d), lo, hi)
  {
    var a := Append(c, d);
    assert forall i :: 0 <= i < |c.returnParams| ==> a.returnParams[i] == c.returnParams[i];
    assert forall i :: |c.returnParams| <= i < |a.returnParams| ==> a.returnParams[i] == d.returnParams[i - |c.returnParams|];
    assert forall i :: 0 <= i < |c.modifiesNames| ==> a.modifiesNames[i] == c.modifiesNames[i];
    assert forall i :: |c.modifiesNames| <= i < |a.modifiesNames| ==> a.modifiesNames[i] == d.modifiesNames[i - |c.modifiesNames|];
    assert forall i :: 0 <= i < |c.requiresClauses| ==> a.requiresClauses[i] == c.requiresClauses[i];
    assert forall i :: |c.requiresClauses| <= i < |a.requiresClauses| ==> a.requiresClauses[i] == d.requiresClauses[i - |c.requiresClauses|];
    assert forall i :: 0 <= i < |c.ensuresClauses| ==> a.ensuresClauses[i] == c.ensuresClauses[i];
    assert forall i :: |c.ensuresClauses| <= i < |a.ensuresClauses| ==> a.ensuresClauses[i] == d.ensuresClauses[i - |c.ensuresClauses|];
  }

  /** Clause ids within `[lo, hi)` are within every wider range. */
  lemma ClausesWiden(c: Clauses, lo: nat, hi: nat, hi2: nat)
    requires ClausesIn(c, lo, hi) && hi <= hi2
    ensures ClausesIn(c, lo, hi2)
  {
  }

  /** The length `parse_type_decl` computes, as written, for the span of an
      enum without a variant list, where `enum` is token `k`: the span
      starts at the token after `enum` and ends where `enum` ends. The
      source subtracts in `u32`, so a negative length is an underflow; it
      happens exactly when a gap separates `enum` from the token after
      it. */
  function EnumSpanLengthAsWritten(toks: seq<Token>, k: nat): (len: int)
    requires WellFormed(toks) && k + 1 < |toks|
    requires toks[k].kind == Kw(Enum) && toks[k + 1].kind != Sym(LBrace)
    ensures len <= 0
    ensures len < 0 <==> EndOf(toks[k].span) < toks[k + 1].span.start
  {
    EndBeforeLaterStart(toks, k, k + 1);
    EndOf(toks[k].span) - toks[k + 1].span.start
  }

  /** `type T = enum ;`: the span length as written is -1. */
  lemma EnumWithoutVariantsUnderflows()
    ensures
      var toks := [Token(Kw(Type), Span(0, 4)), Token(Identifier("T"), Span(5, 1)),
                   Token(Op(Operator.Eq), Span(7, 1)), Token(Kw(Enum), Span(9, 4)),
                   Token(Sym(Semicolon), Span(14, 1)), Token(End, Span(15, 0))];
      WellFormed(toks) && EnumSpanLengthAsWritten(toks, 3) == -1
  {
    var toks := [Token(Kw(Type), Span(0, 4)), Token(Identifier("T"), Span(5, 1)),
                 Token(Op(Operator.Eq), Span(7, 1)), Token(Kw(Enum), Span(9, 4)),
                 Token(Sym(Semicolon), Span(14, 1)), Token(End, Span(15, 0))];
    assert OrderedFrom(toks, 5);
    assert OrderedFrom(toks, 4);
    assert OrderedFrom(toks, 3);
    assert OrderedFrom(toks, 2);
    assert OrderedFrom(toks, 1);
    assert OrderedFrom(toks, 0);
  }

  /** The tree `parse` stores. */
  class Cst {
    var modules: seq<ModuleDecl>

    constructor ()
      ensures modules == []
    {
      modules := [];
    }
  }

  class Parser {
    /** The lexer's output; `cursor` tokens of it have been read. */
    const tokens: seq<Token>
    var cursor: nat
    /** The current token, the last one read. */
    var token: Token
    const ids: NodeIdGenerator
    const interner: Interner
    const cst: Cst
    var paramIdx: nat
    var parseStructLit: bool
    /** The end of the token consumed last (`lcst_end`). */
    var lcstEnd: Option<nat>

    /** The state between two tokens: the current token is the last one
        read, and the end of the token consumed last (if any) does not lie
        beyond it. */
    ghost predicate Valid()
      reads this`cursor, this`token, this`lcstEnd
    {
      && WellFormed(tokens)
      && 1 <= cursor <= |tokens|
      && token == tokens[cursor - 1]
      && (lcstEnd.Some? ==> lcstEnd.value <= EndOf(token.span))
    }

    /** The state `Parser::new` leaves: nothing read yet, and the
        placeholder token with an invalid span. */
    ghost predicate Unprimed()
      reads this`cursor, this`token, this`lcstEnd
    {
      && WellFormed(tokens)
      && cursor == 0
      && token == Token(End, Invalid)
      && lcstEnd == Some(0)
    }

    /** The token before the current one has been consumed. */
    ghost predicate Settled()
      reads this`cursor, this`lcstEnd
    {
      && 2 <= cursor <= |tokens|
      && tokens[cursor - 2].span.Span?
      && lcstEnd == Some(EndOf(tokens[cursor - 2].span))
    }

    /** The token consumed last is of kind `k`. */
    ghost predicate LastConsumed(k: TokenKind)
      reads this`cursor
    {
      2 <= cursor <= |tokens| && tokens[cursor - 2].kind == k
    }

    /** Something was consumed since the cursor stood at `c0`. */
    ghost predicate Consumed(c0: nat)
      reads this`cursor, this`lcstEnd
    {
      c0 < cursor && Settled()
    }

    /** What every parse method keeps, whether it succeeds or not: it only
        moves forward, draws ids from the generator and restores
        `parse_struct_lit`. */
    twostate predicate Advanced()
      reads this`cursor, this`lcstEnd, this`parseStructLit, ids
    {
      && old(cursor) <= cursor
      && old(ids.value) <= ids.value
      && parseStructLit == old(parseStructLit)
      && (old(lcstEnd).Some? ==> lcstEnd.Some? && old(lcstEnd).value <= lcstEnd.value)
    }

    /** The interner only ever gains symbols. */
    twostate predicate Grown()
      reads interner
    {
      old(interner.names) <= interner.names
    }

    /** `s` is `span_from(start)`: from `start` to the end of the token
        consumed last. */
    ghost predicate SpansFrom(s: Span, start: nat)
      reads this`lcstEnd
    {
      s.Span? && s.start == start && lcstEnd.Some? && EndOf(s) == lcstEnd.value
    }

    /** `s` lies within the bytes from `start` to the end of the token
        consumed last. */
    ghost predicate WithinFrom(s: Span, start: nat)
      reads this`lcstEnd
    {
      s.Span? && start <= s.start && lcstEnd.Some? && EndOf(s) <= lcstEnd.value
    }

    /** The token at index `i` of the stream. */
    ghost function At(i: nat): Token
      requires |tokens| > 0
    {
      TokenAt(tokens, i)
    }

    constructor (toks: seq<Token>, ids: NodeIdGenerator, cst: Cst, interner: Interner)
      requires WellFormed(toks)
      ensures this.tokens == toks && this.ids == ids && this.cst == cst && this.interner == interner
      ensures Unprimed() && paramIdx == 0 && parseStructLit
    {
      this.tokens := toks;
      this.ids := ids;
      this.cst := cst;
      this.interner := interner;
      cursor := 0;
      token := Token(End, Invalid);
      paramIdx := 0;
      parseStructLit := true;
      lcstEnd := Some(0);
    }

    /** `span_from`: the span from `start` to the end of the token consumed
        last. */
    function SpanFrom(start: nat): (s: Span)
      reads this`lcstEnd
      requires lcstEnd.Some? && start <= lcstEnd.value
      ensures SpansFrom(s, start)
    {
      Span(start, lcstEnd.value - start)
    }

    /** `init`: the first `advance_token`, from the placeholder token whose
        span is invalid, so that nothing counts as consumed yet. */
    method Init()
      requires Unprimed()
      modifies this
      ensures Valid() && cursor == 1 && lcstEnd.None? && token == tokens[0]
      ensures paramIdx == old(paramIdx) && parseStructLit == old(parseStructLit)
    {
      // the placeholder's span is invalid, so there is no end to remember
      lcstEnd := None;
      token := tokens[cursor];
      cursor := cursor + 1;
    }

    /** `advance_token`: the lexer's next token becomes current, and the end
        of the one left behind is remembered. */
    method AdvanceToken() returns (prev: Token)
      requires Valid()
      modifies this
      ensures Valid() && Advanced() && paramIdx == old(paramIdx)
      ensures prev == old(token)
      ensures lcstEnd == Some(EndOf(old(token.span)))
      ensures old(cursor) < |tokens| ==> cursor == old(cursor) + 1
      ensures old(cursor) == |tokens| ==> cursor == old(cursor) && token == old(token)
      ensures old(token.kind) != End ==> cursor == old(cursor) + 1 && Consumed(old(cursor))
    {
      lcstEnd := if token.span.Span? then Some(EndOf(token.span)) else None;
      prev := token;
      if cursor < |tokens| {
        EndBeforeLaterStart(tokens, cursor - 1, cursor);
        token := tokens[cursor];
        cursor := cursor + 1;
      }
    }

    /** `expect_token`: consume a token of the given kind, or report the one
        found and consume nothing. */
    method ExpectToken(kind: TokenKind) returns (r: Result<Token, ParseError>)
      requires Valid()
      modifies this
      ensures Valid() && Advanced() && paramIdx == old(paramIdx)
      ensures r.Ok? <==> old(token.kind) == kind
      ensures r.Ok? ==> r.value == old(token) && lcstEnd == Some(EndOf(old(token.span)))
      ensures r.Ok? && kind != End ==> cursor == old(cursor) + 1 && Consumed(old(cursor))
      ensures r.Err? ==> r == Err(ExpectedToken(kind, old(token.kind)))
      ensures r.Err? ==> cursor == old(cursor) && lcstEnd == old(lcstEnd)
    {
      if token.kind == kind {
        var t := AdvanceToken();
        return Ok(t);
      }
      return Err(ExpectedToken(kind, token.kind));
    }

    /** `expect_ident`: consume a token, which must be an identifier; its
        text is interned and the name gets the next id. */
    method ExpectIdent() returns (r: Result<Name, ParseError>)
      requires Valid()
      modifies this, ids, interner
      ensures Valid() && Advanced() && Grown() && paramIdx == old(paramIdx)
      ensures lcstEnd == Some(EndOf(old(token.span)))
      ensures old(token.kind) != End ==> cursor == old(cursor) + 1 && Consumed(old(cursor))
      ensures r.Ok? <==> old(token.kind).Identifier?
      ensures r.Ok? ==> r.value.span == old(token.span) && r.value.id == old(ids.value)
      ensures r.Ok? ==> ids.value == old(ids.value) + 1
      ensures r.Ok? ==> r.value.sym < |interner.names| && interner.names[r.value.sym] == old(token.kind).text
      ensures r.Err? ==> r == Err(ExpectedIdentifier(old(token.kind))) && ids.value == old(ids.value)
    {
      var span := token.span;
      var tok := AdvanceToken();
      if tok.kind.Identifier? {
        var sym := interner.Intern(tok.kind.text);
        var id := ids.Next();
        return Ok(Name(id, span, sym));
      }
      return Err(ExpectedIdentifier(tok.kind));
    }

    // -------------------------------------------------------------------
    // Factors

    /** `parse_ident`: an identifier as an expression; it takes the name's
        id and span. */
    method ParseIdent() returns (r: Result<Expr, ParseError>)
      requires Valid()
      modifies this, ids, interner
      ensures Valid() && Advanced() && Grown() && paramIdx == old(paramIdx)
      ensures r.Ok? <==> old(token.kind).Identifier?
      ensures r.Ok? ==> Consumed(old(cursor)) && cursor == old(cursor) + 1 && SpansFrom(r.value.span, old(token.span.start))
      ensures r.Ok? ==> r.value.Ident? && r.value.span == old(token.span) && r.value.id == old(ids.value) < ids.value
      ensures r.Ok? ==> r.value.name < |interner.names| && interner.names[r.value.name] == old(token.kind).text
      ensures r.Err? ==> r == Err(ExpectedIdentifier(old(token.kind)))
    {
      var span := token.span;
      var name := ExpectIdent();
      if name.Err? {
        return Err(name.error);
      }
      return Ok(Ident(name.value.id, span, name.value.sym));
    }

    /** `parse_lit_int`: an integer literal and its value, or an overflow of
        `u64`. */
    method ParseLitInt() returns (r: Result<Expr, ParseError>)
      requires Valid() && token.kind.LitInt?
      modifies this, ids
      ensures Valid() && Advanced() && paramIdx == old(paramIdx) && Consumed(old(cursor)) && cursor == old(cursor) + 1
      ensures lcstEnd == Some(EndOf(old(token.span)))
      ensures r.Ok? <==> LiteralValue(old(token.kind).digits, old(token.kind).base).Some?
      ensures r.Ok? ==> r.value == IntLit(old(ids.value), old(token.span),
                                          LiteralValue(old(token.kind).digits, old(token.kind).base).value,
                                          old(token.kind).base, old(token.kind).suffix)
      ensures r.Ok? ==> ids.value == old(ids.value) + 1
      ensures r.Err? ==> r == Err(NumberOverflow(old(token.kind).suffix))
    {
      var span := token.span;
      var tok := AdvanceToken();
      var parsed := LiteralValue(tok.kind.digits, tok.kind.base);
      if parsed.Some? {
        var id := ids.Next();
        return Ok(IntLit(id, span, parsed.value, tok.kind.base, tok.kind.suffix));
      }
      return Err(NumberOverflow(tok.kind.suffix));
    }

    /** `parse_lit_float`: a float literal, kept as its text. */
    method ParseLitFloat() returns (r: Result<Expr, ParseError>)
      requires Valid() && token.kind.LitFloat?
      modifies this, ids
      ensures Valid() && Advanced() && paramIdx == old(paramIdx) && Consumed(old(cursor)) && cursor == old(cursor) + 1
      ensures lcstEnd == Some(EndOf(old(token.span)))
      ensures r == Ok(FloatLit(old(ids.value), old(token.span), old(token.kind).floatText))
      ensures ids.value == old(ids.value) + 1
    {
      var span := token.span;
      var tok := AdvanceToken();
      var id := ids.Next();
      return Ok(FloatLit(id, span, tok.kind.floatText));
    }

    /** `parse_lit_bitvec`: `w` bits of the value, least significant first. */
    method ParseLitBitVec() returns (r: Result<Expr, ParseError>)
      requires Valid() && token.kind.LitBitVec?
      modifies this, ids
      ensures Valid() && Advanced() && paramIdx == old(paramIdx) && Consumed(old(cursor)) && cursor == old(cursor) + 1
      ensures lcstEnd == Some(EndOf(old(token.span)))
      ensures r.Ok? <==> BitVecNumbers(old(token.kind).bvValue, old(token.kind).bvWidth).Some?
      ensures r.Ok? ==>
        var (v, w) := BitVecNumbers(old(token.kind).bvValue, old(token.kind).bvWidth).value;
        && r.value.BitVecLit? && r.value.span == old(token.span) && r.value.id == old(ids.value)
        && |r.value.bits| == w && (forall i :: 0 <= i < w ==> r.value.bits[i] == Bit(v, i))
        && Unbits(r.value.bits) == v % Pow(2, w)
      ensures r.Ok? ==> ids.value == old(ids.value) + 1
      ensures r.Err? ==> r == Err(MalformedBitVec)
    {
      var span := token.span;
      var tok := AdvanceToken();
      var nums := BitVecNumbers(tok.kind.bvValue, tok.kind.bvWidth);
      if nums.None? {
        return Err(MalformedBitVec);
      }
      var (v, w) := nums.value;
      var bits := BitsOf(v, w);
      UnbitsOfBits(bits, v);
      var id := ids.Next();
      return Ok(BitVecLit(id, span, bits));
    }

    /** `parse_bool_literal`: `true` or `false`. */
    method ParseBoolLiteral() returns (r: Result<Expr, ParseError>)
      requires Valid() && (token.kind == Kw(True) || token.kind == Kw(False))
      modifies this, ids
      ensures Valid() && Advanced() && paramIdx == old(paramIdx) && Consumed(old(cursor)) && cursor == old(cursor) + 1
      ensures lcstEnd == Some(EndOf(old(token.span)))
      ensures r == Ok(BoolLit(old(ids.value), old(token.span), old(token.kind) == Kw(True)))
      ensures ids.value == old(ids.value) + 1
    {
      var span := token.span;
      var tok := AdvanceToken();
      var id := ids.Next();
      return Ok(BoolLit(id, span, tok.kind == Kw(True)));
    }

    /** The arms of `parse_factor` that read a single token: literals and
        identifiers. */
    method ParseAtom() returns (r: Result<Expr, ParseError>)
      requires Valid()
      modifies this, ids, interner
      ensures Valid() && Advanced() && Grown() && paramIdx == old(paramIdx)
      ensures r.Ok? ==> Consumed(old(cursor)) && old(ids.value) <= r.value.id < ids.value
      ensures r.Ok? ==> SpansFrom(r.value.span, old(token.span.start)) && r.value.span == old(token.span)
      ensures r.Ok? ==> FactorShape(old(token.kind), r.value) && cursor == old(cursor) + 1
      ensures !AtomToken(old(token.kind)) ==> r == Err(ExpectedFactor(old(token.kind))) && cursor == old(cursor)
    {
      match token.kind {
        case LitInt(_, _, _) =>
          r := ParseLitInt();
        case LitFloat(_) =>
          r := ParseLitFloat();
        case LitBitVec(_, _) =>
          r := ParseLitBitVec();
        case Identifier(_) =>
          r := ParseIdent();
        case Kw(True) =>
          r := ParseBoolLiteral();
        case Kw(False) =>
          r := ParseBoolLiteral();
        case _ =>
          r := Err(ExpectedFactor(token.kind));
      }
    }

    /** `parse_factor`: dispatch on the token that starts a factor. */
    method ParseFactor() returns (r: Result<Expr, ParseError>)
      requires Valid()
      modifies this, ids, interner
      decreases |tokens| - cursor, 20
      ensures Valid() && Advanced() && Grown() && paramIdx == old(paramIdx)
      ensures r.Ok? ==> Consumed(old(cursor)) && old(ids.value) <= r.value.id < ids.value
      ensures r.Ok? ==> WithinFrom(r.value.span, old(token.span.start))
      ensures r.Ok? && old(token.kind) != Sym(LParen) ==> SpansFrom(r.value.span, old(token.span.start))
      ensures FactorRead(tokens, r, old(cursor) - 1, cursor - 2)
      ensures !StartsFactor(old(token.kind)) ==> r == Err(ExpectedFactor(old(token.kind))) && cursor == old(cursor)
    {
      if token.kind == Sym(LParen) {
        r := ParseParenFactor();
        return;
      }
      if token.kind == Sym(LBrace) {
        r := ParseBlockFactor();
        return;
      }
      if token.kind == Kw(If) {
        r := ParseIfFactor();
        return;
      }
      r := ParseAtomFactor();
    }

    /** The parenthesis arm of `parse_factor`. */
    method ParseParenFactor() returns (r: Result<Expr, ParseError>)
      requires Valid() && token.kind == Sym(LParen)
      modifies this, ids, interner
      decreases |tokens| - cursor, 19
      ensures Valid() && Advanced() && Grown() && paramIdx == old(paramIdx)
      ensures r.Ok? ==> Consumed(old(cursor)) && old(ids.value) <= r.value.id < ids.value
      ensures r.Ok? ==> WithinFrom(r.value.span, old(token.span.start))
      ensures FactorRead(tokens, r, old(cursor) - 1, cursor - 2)
    {
      var x, firstEnd, at, ends, trailing := ParseParentheses();
      r := x;
    }

    /** The `if` arm of `parse_factor`. */
    method ParseIfFactor() returns (r: Result<Expr, ParseError>)
      requires Valid() && token.kind == Kw(If)
      modifies this, ids, interner
      decreases |tokens| - cursor, 19
      ensures Valid() && Advanced() && Grown() && paramIdx == old(paramIdx)
      ensures r.Ok? ==> Consumed(old(cursor)) && old(ids.value) <= r.value.id < ids.value
      ensures r.Ok? ==> SpansFrom(r.value.span, old(token.span.start))
      ensures FactorRead(tokens, r, old(cursor) - 1, cursor - 2)
    {
      r := ParseIf();
    }

    /** The literal and name arm of `parse_factor`. */
    method ParseAtomFactor() returns (r: Result<Expr, ParseError>)
      requires Valid() && token.kind != Sym(LParen) && token.kind != Sym(LBrace) && token.kind != Kw(If)
      modifies this, ids, interner
      ensures Valid() && Advanced() && Grown() && paramIdx == old(paramIdx)
      ensures r.Ok? ==> Consumed(old(cursor)) && old(ids.value) <= r.value.id < ids.value
      ensures r.Ok? ==> SpansFrom(r.value.span, old(token.span.start))
      ensures FactorRead(tokens, r, old(cursor) - 1, cursor - 2)
      ensures !StartsFactor(old(token.kind)) ==> r == Err(ExpectedFactor(old(token.kind))) && cursor == old(cursor)
    {
      r := ParseAtom();
    }

    /** The block arm of `parse_factor`. */
    method ParseBlockFactor() returns (r: Result<Expr, ParseError>)
      requires Valid() && token.kind == Sym(LBrace)
      modifies this, ids, interner
      decreases |tokens| - cursor, 19
      ensures Valid() && Advanced() && Grown() && paramIdx == old(paramIdx)
      ensures r.Ok? ==> Consumed(old(cursor)) && old(ids.value) <= r.value.id < ids.value
      ensures r.Ok? ==> SpansFrom(r.value.span, old(token.span.start))
      ensures FactorRead(tokens, r, old(cursor) - 1, cursor - 2)
    {
      var b, read, starts, failAt := ParseBlock();
      r := b;
    }

    // -------------------------------------------------------------------
    // Lists and types

    /** `parse_comma_list`: elements up to `stop`, which is consumed, each
        but the last followed by a comma; a comma before `stop` is
        accepted, and `trailing` tells whether there was one. Element `i`
        was read from token `at[i]` to token `ends[i]`; `failAt` is where
        an element that failed began. */
    method ParseCommaList(stop: TokenKind, elem: ListElem)
      returns (r: Result<seq<Item>, ParseError>, ghost failAt: Option<nat>, ghost at: seq<nat>,
               ghost ends: seq<int>, ghost trailing: bool)
      requires Valid() && stop != End
      modifies this, ids, interner
      decreases |tokens| - cursor, 48
      ensures Valid() && Advanced() && Grown() && old(paramIdx) <= paramIdx
      ensures !Counted(elem) ==> paramIdx == old(paramIdx)
      ensures r.Ok? ==> Consumed(old(cursor)) && LastConsumed(stop)
      ensures r.Ok? ==> ListOk(elem, r.value, old(ids.value), ids.value, old(paramIdx))
      ensures r.Ok? && Counted(elem) ==> paramIdx == old(paramIdx) + |r.value|
      ensures r.Ok? ==> ListRead(tokens, interner.names, r.value, at, ends, old(cursor) - 1, trailing, cursor - 2)
      ensures r.Ok? ==> (r.value == [] <==> old(token.kind) == stop)
      ensures old(token.kind) == stop ==> r == Ok([]) && cursor == old(cursor) + 1
      ensures failAt.Some? ==> r.Err? && ElementStart(tokens, stop, old(cursor) - 1, failAt.value) && failAt.value < cursor
      ensures r.Err? && failAt.None? ==>
        || (token.kind == End && r.error == ExpectedToken(stop, End))
        || (old(cursor) < cursor && token.kind != stop && token.kind != End && token.kind != Sym(Comma)
            && r.error == ExpectedToken(Sym(Comma), token.kind))
    {
      ghost var id0, p0 := ids.value, paramIdx;
      var items;
      items, failAt, at, ends, trailing := ParseListItems(stop, elem);
      if items.Err? {
        return items, failAt, at, ends, trailing;
      }
      r := CloseList(stop, elem, items.value, at, ends, old(cursor) - 1, trailing, id0, p0);
      return r, None, at, ends, trailing;
    }

    /** The closing `stop` of a comma list whose elements have been read. */
    method CloseList(stop: TokenKind, elem: ListElem, data: seq<Item>, ghost at: seq<nat>, ghost ends: seq<int>,
                     ghost first: nat, ghost comma: bool, ghost id0: nat, ghost p0: nat)
      returns (r: Result<seq<Item>, ParseError>)
      requires Valid() && stop != End && (token.kind == stop || token.kind == End)
      requires Listed(elem, data, at, ends, first, comma, id0, p0)
      modifies this
      ensures Valid() && Advanced() && paramIdx == old(paramIdx)
      ensures r.Ok? <==> old(token.kind) == stop
      ensures r.Ok? ==> r.value == data && Consumed(old(cursor)) && LastConsumed(stop) && cursor == old(cursor) + 1
      ensures r.Ok? ==> ListOk(elem, data, id0, ids.value, p0)
      ensures r.Ok? ==> ListAt(tokens, interner.names, data, at, ends, first, comma)
      ensures r.Ok? && Counted(elem) ==> paramIdx == p0 + |data|
      ensures r.Ok? && data == [] ==> cursor == first + 2
      ensures r.Ok? && data != [] ==> first + 2 < cursor && ends[|data| - 1] == cursor - (if comma then 4 else 3)
      ensures r.Err? ==> cursor == old(cursor) && token.kind == End && r.error == ExpectedToken(stop, End)
    {
      ItemsOkList(elem, data, id0, ids.value, p0);
      if token.kind == End {
        return Err(ExpectedToken(stop, End));
      }
      var _ := AdvanceToken();
      return Ok(data);
    }

    /** `ListState` of the parser's own state. */
    ghost predicate Listed(elem: ListElem, data: seq<Item>, at: seq<nat>, ends: seq<int>, first: nat, comma: bool,
                           id0: nat, p0: nat)
      reads this, ids, interner
    {
      ListState(tokens, interner.names, ids.value, cursor, paramIdx, elem, data, at, ends, first, comma, id0, p0)
    }

    /** The loop of `parse_comma_list`: elements, each but the last
        followed by a comma, until `stop` or the end of the input is the
        current token. */
    method ParseListItems(stop: TokenKind, elem: ListElem)
      returns (r: Result<seq<Item>, ParseError>, ghost failAt: Option<nat>, ghost at: seq<nat>,
               ghost ends: seq<int>, ghost comma: bool)
      requires Valid() && stop != End
      modifies this, ids, interner
      decreases |tokens| - cursor, 46
      ensures Valid() && Advanced() && Grown() && old(paramIdx) <= paramIdx
      ensures !Counted(elem) ==> paramIdx == old(paramIdx)
      ensures r.Ok? ==> token.kind == stop || token.kind == End
      ensures r.Ok? ==> Listed(elem, r.value, at, ends, old(cursor) - 1, comma, old(ids.value), old(paramIdx))
      ensures old(token.kind) == stop ==> r == Ok([]) && cursor == old(cursor)
      ensures failAt.Some? ==> r.Err? && ElementStart(tokens, stop, old(cursor) - 1, failAt.value) && failAt.value < cursor
      ensures r.Err? && failAt.None? ==>
        && old(cursor) < cursor && token.kind != stop && token.kind != End && token.kind != Sym(Comma)
        && r.error == ExpectedToken(Sym(Comma), token.kind)
    {
      var data: seq<Item> := [];
      var hasComma := true;
      failAt, at, ends, comma := None, [], [], true;
      while token.kind != stop && token.kind != End
        invariant Valid() && Advanced() && Grown() && old(paramIdx) <= paramIdx
        invariant !Counted(elem) ==> paramIdx == old(paramIdx)
        invariant data != [] ==> old(token.kind) != stop
        invariant comma == hasComma
        invariant Listed(elem, data, at, ends, old(cursor) - 1, comma, old(ids.value), old(paramIdx))
        decreases |tokens| - cursor
      {
        ghost var p := cursor - 1;
        var next;
        ghost var last;
        next, hasComma, last, failAt :=
          ParseListTurn(stop, elem, data, at, ends, old(cursor) - 1, hasComma, old(ids.value), old(paramIdx));
        comma := hasComma;
        if next.Err? {
          return Err(next.error), failAt, at, ends, comma;
        }
        data, at, ends := data + [next.value], at + [p], ends + [last];
      }
      return Ok(data), None, at, ends, comma;
    }

    /** A turn of the loop of `parse_comma_list`, with `stop` and the end
        of the input not current: without a comma after the last element
        it fails, otherwise it reads the next element. */
    method ParseListTurn(stop: TokenKind, elem: ListElem, data: seq<Item>, ghost at: seq<nat>, ghost ends: seq<int>,
                         ghost first: nat, comma: bool, ghost id0: nat, ghost p0: nat)
      returns (r: Result<Item, ParseError>, comma': bool, ghost last: int, ghost failAt: Option<nat>)
      requires Valid() && id0 <= ids.value && Listed(elem, data, at, ends, first, comma, id0, p0)
      requires token.kind != stop && token.kind != End
      modifies this, ids, interner
      decreases |tokens| - cursor, 44
      ensures Valid() && Advanced() && Grown()
      ensures paramIdx == old(paramIdx) + (if Counted(elem) && comma then 1 else 0)
      ensures r.Ok? ==> comma && Consumed(old(cursor))
      ensures r.Ok? ==> Listed(elem, data + [r.value], at + [old(cursor) - 1], ends + [last], first, comma', id0, p0)
      ensures failAt.Some? ==> r.Err? && failAt.value == old(cursor) - 1 && ElementStart(tokens, stop, first, failAt.value)
      ensures r.Err? && failAt.None? ==>
        && !comma && data != [] && first + 1 < cursor && cursor == old(cursor)
        && token.kind != Sym(Comma) && r.error == ExpectedToken(Sym(Comma), token.kind)
    {
      if data != [] {
        ListAtLast(tokens, interner.names, data, at, ends, first, comma);
      }
      if !comma {
        return Err(ExpectedToken(Sym(Comma), token.kind)), comma, 0, None;
      }
      assert ElementStart(tokens, stop, first, cursor - 1);
      r, comma', last := ParseListNext(elem, data, at, ends, first, id0, p0);
      failAt := if r.Err? then Some(old(cursor) - 1) else None;
    }

    /** The turn of the loop of `parse_comma_list` after a comma, or at
        the start: the next element, read up to token `last`, and whether a
        comma followed it. */
    method ParseListNext(elem: ListElem, data: seq<Item>, ghost at: seq<nat>, ghost ends: seq<int>, ghost first: nat,
                         ghost id0: nat, ghost p0: nat)
      returns (r: Result<Item, ParseError>, comma: bool, ghost last: int)
      requires Valid() && id0 <= ids.value && Listed(elem, data, at, ends, first, true, id0, p0)
      modifies this, ids, interner
      decreases |tokens| - cursor, 42
      ensures Valid() && Advanced() && Grown()
      ensures paramIdx == old(paramIdx) + (if Counted(elem) then 1 else 0)
      ensures r.Ok? ==> Consumed(old(cursor))
      ensures r.Ok? ==> Listed(elem, data + [r.value], at + [old(cursor) - 1], ends + [last], first, comma, id0, p0)
    {
      r, comma, last := ParseListEntry(elem);
      if r.Ok? {
        ListStateGrows(tokens, old(interner.names), interner.names, old(ids.value), ids.value, old(cursor), cursor,
                       old(paramIdx), paramIdx, elem, data, at, ends, first, id0, p0, r.value, last, comma);
      }
    }

    /** One turn of the loop of `parse_comma_list`: an element and, when
        one follows, its comma; `comma` tells which, and `last` is the
        element's last token. */
    method ParseListEntry(elem: ListElem) returns (r: Result<Item, ParseError>, comma: bool, ghost last: int)
      requires Valid()
      modifies this, ids, interner
      decreases |tokens| - cursor, 40
      ensures Valid() && Advanced() && Grown()
      ensures paramIdx == old(paramIdx) + (if Counted(elem) then 1 else 0)
      ensures r.Ok? ==> Consumed(old(cursor)) && ElemFits(elem, r.value)
      ensures r.Ok? ==> old(ids.value) <= ItemId(r.value) < ids.value
      ensures r.Ok? && elem == ParamElem ==> r.value.ParamItem? && r.value.param.idx == old(paramIdx)
      ensures r.Ok? ==> ItemAt(tokens, interner.names, r.value, old(cursor) - 1, last)
      ensures r.Ok? && comma ==> LastConsumed(Sym(Comma)) && last == cursor - 3
      ensures r.Ok? && !comma ==> token.kind != Sym(Comma) && last == cursor - 2
    {
      r := ParseElement(elem);
      if r.Err? {
        return r, false, 0;
      }
      last := cursor - 2;
      comma := token.kind == Sym(Comma);
      if comma {
        var _ := AdvanceToken();
      }
    }

    /** The closure `parse_comma_list` is called with: the counted kinds
        bump `param_idx` first. */
    method ParseElement(elem: ListElem) returns (r: Result<Item, ParseError>)
      requires Valid()
      modifies this, ids, interner
      decreases |tokens| - cursor, 38
      ensures Valid() && Advanced() && Grown()
      ensures paramIdx == old(paramIdx) + (if Counted(elem) then 1 else 0)
      ensures r.Ok? ==> Consumed(old(cursor)) && ElemFits(elem, r.value)
      ensures r.Ok? ==> old(ids.value) <= ItemId(r.value) < ids.value
      ensures r.Ok? && elem == ParamElem ==> r.value.ParamItem? && r.value.param.idx == old(paramIdx)
      ensures r.Ok? ==> ItemAt(tokens, interner.names, r.value, old(cursor) - 1, cursor - 2)
    {
      match elem {
        case ParamElem =>
          r := ParseParamElement();
        case CountedNameElem =>
          paramIdx := paramIdx + 1;
          r := ParseNameElement();
        case NameElem =>
          r := ParseNameElement();
        case TypeElem =>
          var t := ParseTypeIdent();
          if t.Err? {
            return Err(t.error);
          }
          return Ok(TypeItem(t.value));
        case ExprElem =>
          var e := ParseExpression();
          if e.Err? {
            return Err(e.error);
          }
          return Ok(ExprItem(e.value));
      }
    }

    /** The parameter arm of `ParseElement`, which bumps `param_idx`
        first. */
    method ParseParamElement() returns (r: Result<Item, ParseError>)
      requires Valid()
      modifies this, ids, interner
      decreases |tokens| - cursor, 36
      ensures Valid() && Advanced() && Grown() && paramIdx == old(paramIdx) + 1
      ensures r.Ok? ==> Consumed(old(cursor)) && r.value.ParamItem? && r.value.param.idx == old(paramIdx)
      ensures r.Ok? ==> old(ids.value) <= ItemId(r.value) < ids.value
      ensures r.Ok? ==> ItemAt(tokens, interner.names, r.value, old(cursor) - 1, cursor - 2)
    {
      paramIdx := paramIdx + 1;
      var p := ParseProcedureParam();
      if p.Err? {
        return Err(p.error);
      }
      return Ok(ParamItem(p.value));
    }

    /** The name arms of `ParseElement`. */
    method ParseNameElement() returns (r: Result<Item, ParseError>)
      requires Valid()
      modifies this, ids, interner
      decreases |tokens| - cursor, 36
      ensures Valid() && Advanced() && Grown() && paramIdx == old(paramIdx)
      ensures r.Ok? ==> Consumed(old(cursor)) && r.value.NameItem?
      ensures r.Ok? ==> old(ids.value) <= ItemId(r.value) < ids.value
      ensures r.Ok? ==> ItemAt(tokens, interner.names, r.value, old(cursor) - 1, cursor - 2)
    {
      var n := ExpectIdent();
      if n.Err? {
        return Err(n.error);
      }
      return Ok(NameItem(n.value));
    }

    /** `parse_procedure_param`: `name: type`, numbered by the `param_idx`
        the list closure has already bumped. The name's own id is not kept. */
    method ParseProcedureParam() returns (r: Result<ParamDecl, ParseError>)
      requires Valid() && 1 <= paramIdx
      modifies this, ids, interner
      decreases |tokens| - cursor, 12
      ensures Valid() && Advanced() && Grown() && paramIdx == old(paramIdx)
      ensures r.Ok? ==> Consumed(old(cursor)) && old(ids.value) <= r.value.id < ids.value
      ensures r.Ok? ==> SpansFrom(r.value.span, old(token.span.start))
      ensures r.Ok? ==> r.value.idx == paramIdx - 1
      ensures r.Ok? ==> old(token.kind).Identifier? && r.value.name < |interner.names|
                        && interner.names[r.value.name] == old(token.kind).text
      ensures !old(token.kind).Identifier? ==> r == Err(ExpectedIdentifier(old(token.kind)))
    {
      var start := token.span.start;
      var name := ExpectIdent();
      if name.Err? {
        return Err(name.error);
      }
      var colon := ExpectToken(Sym(Colon));
      if colon.Err? {
        return Err(colon.error);
      }
      var ty := ParseTypeIdent();
      if ty.Err? {
        return Err(ty.error);
      }
      var span := SpanFrom(start);
      var id := ids.Next();
      return Ok(ParamDecl(id, paramIdx - 1, name.value.sym, span, ty.value));
    }

    /** `parse_type_ident`: a named type with optional bracketed parameters
        before the name (`[bv32]int`), or a parenthesised tuple of types. */
    method ParseTypeIdent() returns (r: Result<TypeIdent, ParseError>)
      requires Valid()
      modifies this, ids, interner
      decreases |tokens| - cursor, 12
      ensures Valid() && Advanced() && Grown() && paramIdx == old(paramIdx)
      ensures r.Ok? ==> Consumed(old(cursor)) && old(ids.value) <= r.value.id < ids.value
      ensures r.Ok? ==> SpansFrom(r.value.span, old(token.span.start))
      ensures r.Ok? ==> (r.value.TupleType? <==> old(token.kind) == Sym(LParen))
      ensures r.Ok? && old(token.kind).Identifier? ==>
        && r.value.params == [] && r.value.name < |interner.names|
        && interner.names[r.value.name] == old(token.kind).text
      ensures !(old(token.kind).Identifier? || old(token.kind) == Sym(LBracket) || old(token.kind) == Sym(LParen)) ==>
        r == Err(ExpectedType(old(token.kind))) && cursor == old(cursor)
    {
      if token.kind.Identifier? || token.kind == Sym(LBracket) {
        var t, at, ends, trailing := ParseBasicType();
        r := t;
      } else if token.kind == Sym(LParen) {
        var t, at, ends, trailing := ParseTupleType();
        r := t;
      } else {
        r := Err(ExpectedType(token.kind));
      }
    }

    /** The first arm of `parse_type_ident`: `[params]name` or `name`; the
        type takes the name's id. */
    method ParseBasicType()
      returns (r: Result<TypeIdent, ParseError>, ghost at: seq<nat>, ghost ends: seq<int>, ghost trailing: bool)
      requires Valid() && (token.kind.Identifier? || token.kind == Sym(LBracket))
      modifies this, ids, interner
      decreases |tokens| - cursor, 10
      ensures Valid() && Advanced() && Grown() && paramIdx == old(paramIdx)
      ensures r.Ok? ==> Consumed(old(cursor)) && old(ids.value) <= r.value.id < ids.value
      ensures r.Ok? ==> SpansFrom(r.value.span, old(token.span.start)) && r.value.BasicType?
      ensures r.Ok? ==> tokens[cursor - 2].kind.Identifier? && r.value.name < |interner.names|
                        && interner.names[r.value.name] == tokens[cursor - 2].kind.text
      ensures r.Ok? && old(token.kind).Identifier? ==> r.value.params == [] && cursor == old(cursor) + 1
      ensures r.Ok? && old(token.kind) == Sym(LBracket) ==>
        && tokens[cursor - 3].kind == Sym(RBracket)
        && ListRead(tokens, interner.names, TypeItems(r.value.params), at, ends, old(cursor), trailing, cursor - 3)
    {
      var start := token.span.start;
      var params: seq<TypeIdent> := [];
      at, ends, trailing := [], [], false;
      ghost var names := interner.names;
      if token.kind == Sym(LBracket) {
        var list;
        list, at, ends, trailing := ParseTypeParams();
        if list.Err? {
          return Err(list.error), at, ends, trailing;
        }
        params := list.value;
        names := interner.names;
      }
      ghost var c1 := cursor;
      var ident := ExpectIdent();
      if ident.Err? {
        return Err(ident.error), at, ends, trailing;
      }
      if old(token.kind) == Sym(LBracket) {
        ListReadNames(tokens, names, interner.names, TypeItems(params), at, ends, old(cursor), trailing, c1 - 2);
      }
      StartBeforeLaterEnd(tokens, old(cursor) - 1, cursor - 2);
      var span := SpanFrom(start);
      return Ok(BasicType(ident.value.id, span, ident.value.sym, params)), at, ends, trailing;
    }

    /** The `[t1, …, tn]` before a basic type's name. */
    method ParseTypeParams()
      returns (r: Result<seq<TypeIdent>, ParseError>, ghost at: seq<nat>, ghost ends: seq<int>, ghost trailing: bool)
      requires Valid() && token.kind == Sym(LBracket)
      modifies this, ids, interner
      decreases |tokens| - cursor, 8
      ensures Valid() && Advanced() && Grown() && paramIdx == old(paramIdx)
      ensures r.Ok? ==> Consumed(old(cursor)) && LastConsumed(Sym(RBracket))
      ensures r.Ok? ==> ListRead(tokens, interner.names, TypeItems(r.value), at, ends, old(cursor), trailing, cursor - 2)
    {
      var _ := AdvanceToken();
      var list; ghost var failAt;
      list, failAt, at, ends, trailing := ParseCommaList(Sym(RBracket), TypeElem);
      if list.Err? {
        return Err(list.error), at, ends, trailing;
      }
      TypesRoundTrip(list.value);
      return Ok(TypesOf(list.value)), at, ends, trailing;
    }

    /** The second arm of `parse_type_ident`: `(t1, …, tn)`. */
    method ParseTupleType()
      returns (r: Result<TypeIdent, ParseError>, ghost at: seq<nat>, ghost ends: seq<int>, ghost trailing: bool)
      requires Valid() && token.kind == Sym(LParen)
      modifies this, ids, interner
      decreases |tokens| - cursor, 10
      ensures Valid() && Advanced() && Grown() && paramIdx == old(paramIdx)
      ensures r.Ok? ==> Consumed(old(cursor)) && old(ids.value) <= r.value.id < ids.value
      ensures r.Ok? ==> SpansFrom(r.value.span, old(token.span.start)) && r.value.TupleType?
      ensures r.Ok? ==> LastConsumed(Sym(RParen))
      ensures r.Ok? ==> ListRead(tokens, interner.names, TypeItems(r.value.subtypes), at, ends, old(cursor), trailing, cursor - 2)
    {
      var start := token.span.start;
      var _ := AdvanceToken();
      var list; ghost var failAt;
      list, failAt, at, ends, trailing := ParseCommaList(Sym(RParen), TypeElem);
      if list.Err? {
        return Err(list.error), at, ends, trailing;
      }
      TypesRoundTrip(list.value);
      var span := SpanFrom(start);
      var id := ids.Next();
      return Ok(TupleType(id, span, TypesOf(list.value))), at, ends, trailing;
    }

    // -------------------------------------------------------------------
    // Expressions

    /** `parse_expression`: an expression where struct literals are allowed. */
    method ParseExpression() returns (r: Result<Expr, ParseError>)
      requires Valid()
      modifies this, ids, interner
      decreases |tokens| - cursor, 30
      ensures Valid() && Advanced() && Grown() && paramIdx == old(paramIdx)
      ensures r.Ok? ==> Consumed(old(cursor)) && old(ids.value) <= r.value.id < ids.value
      ensures r.Ok? ==> WithinFrom(r.value.span, old(token.span.start))
      ensures r.Ok? && old(token.kind) == Sym(LBrace) ==> r.value.BlockExpr?
      ensures r.Ok? && old(token.kind) == Kw(If) ==> r.value.IfExpr?
    {
      r := ParseExpressionStructLit(true);
    }

    /** `parse_expression_no_struct_lit`: the same, as a condition. */
    method ParseExpressionNoStructLit() returns (r: Result<Expr, ParseError>)
      requires Valid()
      modifies this, ids, interner
      decreases |tokens| - cursor, 30
      ensures Valid() && Advanced() && Grown() && paramIdx == old(paramIdx)
      ensures r.Ok? ==> Consumed(old(cursor)) && old(ids.value) <= r.value.id < ids.value
      ensures r.Ok? ==> WithinFrom(r.value.span, old(token.span.start))
    {
      r := ParseExpressionStructLit(false);
    }

    /** `parse_expression_struct_lit`: a block, an `if`, or a binary
        expression; the struct-literal flag is set for the duration and
        restored afterwards. */
    method ParseExpressionStructLit(structLit: bool) returns (r: Result<Expr, ParseError>)
      requires Valid()
      modifies this, ids, interner
      decreases |tokens| - cursor, 28
      ensures Valid() && Advanced() && Grown() && paramIdx == old(paramIdx)
      ensures r.Ok? ==> Consumed(old(cursor)) && old(ids.value) <= r.value.id < ids.value
      ensures r.Ok? ==> WithinFrom(r.value.span, old(token.span.start))
      ensures r.Ok? && old(token.kind) == Sym(LBrace) ==> r.value.BlockExpr?
      ensures r.Ok? && old(token.kind) == Kw(If) ==> r.value.IfExpr?
    {
      var saved := SetStructLit(structLit);
      if token.kind == Sym(LBrace) {
        var b, read, starts, failAt := ParseBlock();
        r := b;
      } else if token.kind == Kw(If) {
        r := ParseIf();
      } else {
        var e, units, ops, opAt := ParseBinary(0);
        r := e;
      }
      var _ := SetStructLit(saved);
    }

    /** Set `parse_struct_lit`, returning the value it had. */
    method SetStructLit(b: bool) returns (saved: bool)
      modifies this`parseStructLit
      ensures parseStructLit == b && saved == old(parseStructLit)
    {
      saved := parseStructLit;
      parseStructLit := b;
    }

    /** `parse_binary`: precedence climbing. The result is the tree of its
        operands and operators split at the last operator of lowest
        precedence; every operator binds tighter than `prec`, and the token
        it stops at does not. `+=` has a level but no operator: it is
        reported once its right operand has been read. */
    method ParseBinary(prec: nat)
      returns (r: Result<Expr, ParseError>, ghost units: seq<Expr>, ghost ops: seq<BinOp>, ghost opAt: seq<nat>)
      requires Valid()
      modifies this, ids, interner
      decreases |tokens| - cursor, 26
      ensures Valid() && Advanced() && Grown() && paramIdx == old(paramIdx)
      ensures r.Ok? ==> Consumed(old(cursor)) && old(ids.value) <= r.value.id < ids.value
      ensures r.Ok? ==> WithinFrom(r.value.span, old(token.span.start))
      ensures r.Ok? && ops != [] ==> SpansFrom(r.value.span, old(token.span.start))
      ensures r.Ok? ==> BinaryAt(tokens, r.value, units, ops, opAt, old(cursor) - 1, cursor - 2)
      ensures r.Ok? ==> forall i :: 0 <= i < |ops| ==> prec < OpPrecedence(ops[i])
      ensures r.Ok? ==> TokenPrecedence(token.kind).None? || TokenPrecedence(token.kind).value <= prec
    {
      var start := token.span.start;
      ghost var c0 := cursor;
      var left := ParseUnary();
      if left.Err? {
        return Err(left.error), [], [], [];
      }
      r, units, ops, opAt := ParseBinaryRest(prec, start, c0, left.value);
    }

    /** The loop of `parse_binary` once the first operand `e` is read: it
        joins further operands while the current token is an operator that
        binds tighter than `prec`. */
    method ParseBinaryRest(prec: nat, start: nat, ghost c0: nat, e: Expr)
      returns (r: Result<Expr, ParseError>, ghost units: seq<Expr>, ghost ops: seq<BinOp>, ghost opAt: seq<nat>)
      requires Valid() && 0 < c0 && Consumed(c0) && WithinFrom(e.span, start) && UnitAt(tokens, e, c0 - 1, cursor - 2)
      modifies this, ids, interner
      decreases |tokens| - cursor, 26
      ensures Valid() && Advanced() && Grown() && paramIdx == old(paramIdx)
      ensures r.Ok? ==> Consumed(c0) && (r.value == e || old(ids.value) <= r.value.id < ids.value)
      ensures r.Ok? ==> WithinFrom(r.value.span, start) && (ops != [] ==> SpansFrom(r.value.span, start))
      ensures r.Ok? ==> BinaryAt(tokens, r.value, units, ops, opAt, c0 - 1, cursor - 2)
      ensures r.Ok? ==> forall i :: 0 <= i < |ops| ==> prec < OpPrecedence(ops[i])
      ensures r.Ok? ==> TokenPrecedence(token.kind).None? || TokenPrecedence(token.kind).value <= prec
    {
      var x := e;
      units, ops, opAt := [e], [], [];
      assert UnitFits(tokens, units, opAt, c0 - 1, cursor - 2, 0);
      while true
        invariant Valid() && Advanced() && Grown() && paramIdx == old(paramIdx)
        invariant Consumed(c0) && (x == e || old(ids.value) <= x.id < ids.value)
        invariant WithinFrom(x.span, start) && (ops != [] ==> SpansFrom(x.span, start))
        invariant BinaryAt(tokens, x, units, ops, opAt, c0 - 1, cursor - 2)
        invariant forall i :: 0 <= i < |ops| ==> prec < OpPrecedence(ops[i])
        invariant TokenPrecedence(token.kind).Some? ==>
          forall i :: 0 <= i < |ops| ==> TokenPrecedence(token.kind).value <= OpPrecedence(ops[i])
        decreases |tokens| - cursor
      {
        var p := TokenPrecedence(token.kind);
        if p.None? || prec >= p.value {
          return Ok(x), units, ops, opAt;
        }
        var next, ru, ro, rat := ParseBinaryStep(prec, p.value, start, x, c0, units, ops, opAt);
        if next.Err? {
          return Err(next.error), units, ops, opAt;
        }
        x, units, ops, opAt := next.value, ru, ro, rat;
      }
    }

    /** One turn of the loop of `parse_binary`: the operator token, of
        level `p`, its right operand parsed at that level, and the binary
        expression joining `e` to it. */
    method ParseBinaryStep(prec: nat, p: nat, start: nat, e: Expr, ghost c0: nat,
                           ghost units: seq<Expr>, ghost ops: seq<BinOp>, ghost opAt: seq<nat>)
      returns (r: Result<Expr, ParseError>, ghost units': seq<Expr>, ghost ops': seq<BinOp>, ghost opAt': seq<nat>)
      requires Valid() && Consumed(c0) && WithinFrom(e.span, start)
      requires BinaryAt(tokens, e, units, ops, opAt, c0 - 1, cursor - 2)
      requires TokenPrecedence(token.kind) == Some(p) && prec < p
      requires forall i :: 0 <= i < |ops| ==> prec < OpPrecedence(ops[i]) && p <= OpPrecedence(ops[i])
      modifies this, ids, interner
      decreases |tokens| - cursor, 24
      ensures Valid() && Advanced() && Grown() && paramIdx == old(paramIdx)
      ensures r.Ok? ==> Consumed(c0) && old(ids.value) <= r.value.id < ids.value
      ensures r.Ok? ==> SpansFrom(r.value.span, start) && ops' != [] && old(cursor) < cursor
      ensures r.Ok? ==> BinaryAt(tokens, r.value, units', ops', opAt', c0 - 1, cursor - 2)
      ensures r.Ok? ==> forall i :: 0 <= i < |ops'| ==> prec < OpPrecedence(ops'[i])
      ensures r.Ok? && TokenPrecedence(token.kind).Some? ==>
        forall i :: 0 <= i < |ops'| ==> TokenPrecedence(token.kind).value <= OpPrecedence(ops'[i])
    {
      ghost var k := cursor - 1;
      ghost var tk := token.kind;
      assert tokens[k].kind == tk;
      var joined, ru, ro, rat := ParseOperand(p, start, e);
      if joined.Err? {
        return Err(joined.error), units, ops, opAt;
      }
      units', ops', opAt' := JoinOperands(tokens, prec, p, e, units, ops, opAt, joined.value.binOp, joined.value.rhs,
                                          ru, ro, rat, k, tk, c0, cursor - 1, joined.value, TokenPrecedence(token.kind));
      return joined, units', ops', opAt';
    }

    /** `create_binary`: the binary expression an operator token makes of
        two operands, spanning from `start`. The source panics on a token
        with no operator (`+=`); here that is an error. */
    method CreateBinary(tok: Token, start: nat, left: Expr, right: Expr) returns (r: Result<Expr, ParseError>)
      requires lcstEnd.Some? && start <= lcstEnd.value
      modifies ids
      ensures r.Err? <==> OpFor(tok.kind).None?
      ensures r.Err? ==> r.error == UnimplementedOperator(tok.kind) && ids.value == old(ids.value)
      ensures r.Ok? ==> r.value.Binary? && r.value.binOp == OpFor(tok.kind).value && r.value.lhs == left && r.value.rhs == right
      ensures r.Ok? ==> r.value.id == old(ids.value) && ids.value == old(ids.value) + 1 && SpansFrom(r.value.span, start)
    {
      var op := OpFor(tok.kind);
      if op.None? {
        return Err(UnimplementedOperator(tok.kind));
      }
      var span := SpanFrom(start);
      var id := ids.Next();
      return Ok(Binary(id, span, op.value, left, right));
    }

    /** The operator token, the right operand `parse_binary` reads after
        it at the operator's level `p`, and the binary expression
        `create_binary` makes of `e` and that operand. */
    method ParseOperand(p: nat, start: nat, e: Expr)
      returns (r: Result<Expr, ParseError>, ghost units: seq<Expr>, ghost ops: seq<BinOp>, ghost opAt: seq<nat>)
      requires Valid() && TokenPrecedence(token.kind) == Some(p)
      requires lcstEnd.Some? && start <= lcstEnd.value
      modifies this, ids, interner
      decreases |tokens| - cursor, 22
      ensures Valid() && Advanced() && Grown() && paramIdx == old(paramIdx)
      ensures r.Ok? ==> Consumed(old(cursor) + 1) && old(ids.value) <= r.value.id < ids.value
      ensures r.Ok? ==> r.value.Binary? && OpFor(old(token.kind)) == Some(r.value.binOp) && r.value.lhs == e
      ensures r.Ok? ==> SpansFrom(r.value.span, start)
      ensures r.Ok? ==> BinaryAt(tokens, r.value.rhs, units, ops, opAt, old(cursor), cursor - 2)
      ensures r.Ok? ==> forall i :: 0 <= i < |ops| ==> p < OpPrecedence(ops[i])
      ensures r.Ok? ==> TokenPrecedence(token.kind).None? || TokenPrecedence(token.kind).value <= p
    {
      var tok := AdvanceToken();
      var right;
      right, units, ops, opAt := ParseBinary(p);
      if right.Err? {
        return Err(right.error), units, ops, opAt;
      }
      assert BinaryAt(tokens, right.value, units, ops, opAt, old(cursor), cursor - 2);
      r := CreateBinary(tok, start, e, right.value);
    }

    /** `parse_unary`: a prefix `+`, `-` or `!` applies to one primary
        expression, so it binds tighter than every binary operator and a
        second prefix operator is not a factor. */
    method ParseUnary() returns (r: Result<Expr, ParseError>)
      requires Valid()
      modifies this, ids, interner
      decreases |tokens| - cursor, 24
      ensures Valid() && Advanced() && Grown() && paramIdx == old(paramIdx)
      ensures r.Ok? ==> Consumed(old(cursor)) && old(ids.value) <= r.value.id < ids.value
      ensures r.Ok? ==> WithinFrom(r.value.span, old(token.span.start))
      ensures r.Ok? && UnOpFor(old(token.kind)).Some? ==>
        r.value.Unary? && r.value.unOp == UnOpFor(old(token.kind)).value
        && SpansFrom(r.value.span, old(token.span.start))
      ensures UnOpFor(old(token.kind)).Some? && !StartsFactor(At(old(cursor)).kind) ==>
        r == Err(ExpectedFactor(At(old(cursor)).kind))
      ensures UnOpFor(old(token.kind)).None? && !StartsFactor(old(token.kind)) ==>
        r == Err(ExpectedFactor(old(token.kind)))
      ensures r.Ok? ==> UnitAt(tokens, r.value, old(cursor) - 1, cursor - 2)
    {
      var op := UnOpFor(token.kind);
      if op.Some? {
        var start := token.span.start;
        var _ := AdvanceToken();
        r := ParseOperandOf(op.value, start);
        return;
      }
      r := ParsePrimaryUnit();
    }

    /** The arm of `parse_unary` without a prefix operator: a primary,
        which is an operand placed where it was read. */
    method ParsePrimaryUnit() returns (r: Result<Expr, ParseError>)
      requires Valid()
      modifies this, ids, interner
      decreases |tokens| - cursor, 23
      ensures Valid() && Advanced() && Grown() && paramIdx == old(paramIdx)
      ensures r.Ok? ==> Consumed(old(cursor)) && old(ids.value) <= r.value.id < ids.value
      ensures r.Ok? ==> WithinFrom(r.value.span, old(token.span.start))
      ensures !StartsFactor(old(token.kind)) ==> r == Err(ExpectedFactor(old(token.kind)))
      ensures r.Ok? ==> UnitAt(tokens, r.value, old(cursor) - 1, cursor - 2)
    {
      var x, base, kinds, factorEnd, postAt := ParsePrimary();
      return x;
    }

    /** The operand of a prefix operator `op` that started at `start`, and
        the unary node around it. */
    method ParseOperandOf(op: UnOp, start: nat) returns (r: Result<Expr, ParseError>)
      requires Valid() && Settled() && start <= tokens[cursor - 2].span.start
      modifies this, ids, interner
      decreases |tokens| - cursor, 24
      ensures Valid() && Advanced() && Grown() && paramIdx == old(paramIdx)
      ensures r.Ok? ==> Consumed(old(cursor)) && old(ids.value) <= r.value.id < ids.value
      ensures r.Ok? ==> r.value.Unary? && r.value.unOp == op && SpansFrom(r.value.span, start)
      ensures !StartsFactor(old(token.kind)) ==> r == Err(ExpectedFactor(old(token.kind)))
    {
      var x, base, kinds, factorEnd, postAt := ParsePrimary();
      if x.Err? {
        return Err(x.error);
      }
      var span := SpanFrom(start);
      var id := ids.Next();
      return Ok(Unary(id, span, op, x.value));
    }

    /** `parse_primary`: a factor followed by any number of member accesses
        `.f`, calls `(args)` and indexings `[args]`, applied left to right. */
    method ParsePrimary()
      returns (r: Result<Expr, ParseError>, ghost base: Expr, ghost kinds: seq<PostfixKind>,
               ghost factorEnd: int, ghost postAt: seq<nat>)
      requires Valid()
      modifies this, ids, interner
      decreases |tokens| - cursor, 22
      ensures Valid() && Advanced() && Grown() && paramIdx == old(paramIdx)
      ensures r.Ok? ==> Consumed(old(cursor)) && old(ids.value) <= r.value.id < ids.value
      ensures r.Ok? ==> WithinFrom(r.value.span, old(token.span.start))
      ensures r.Ok? && kinds != [] ==> SpansFrom(r.value.span, old(token.span.start))
      ensures r.Ok? ==> PrimaryAt(tokens, r.value, base, kinds, postAt, old(cursor) - 1, factorEnd, cursor - 2)
      ensures r.Ok? ==> !PostfixToken(token.kind)
      ensures !StartsFactor(old(token.kind)) ==> r == Err(ExpectedFactor(old(token.kind)))
    {
      var start := token.span.start;
      ghost var a := cursor - 1;
      assert tokens[a] == token;
      var f := ParseFactor();
      if f.Err? {
        // no factor was read: `base` is a placeholder
        return Err(f.error), Tuple(0, Invalid, []), [], 0, [];
      }
      base, factorEnd := f.value, cursor - 2;
      r, kinds, postAt := ParsePostfixes(start, f.value, a, factorEnd);
    }

    /** The loop of `parse_primary` once the factor `e`, read from token `a`
        to token `f`, is read: postfix forms while the current token opens
        one. */
    method ParsePostfixes(start: nat, e: Expr, ghost a: nat, ghost f: int)
      returns (r: Result<Expr, ParseError>, ghost kinds: seq<PostfixKind>, ghost postAt: seq<nat>)
      requires Valid() && Settled() && f == cursor - 2 && WithinFrom(e.span, start)
      requires FactorAt(tokens, e, a, f) && start == tokens[a].span.start
      modifies this, ids, interner
      decreases |tokens| - cursor, 24
      ensures Valid() && Advanced() && Grown() && paramIdx == old(paramIdx)
      ensures r.Ok? ==> Settled()
      ensures r.Ok? ==> (r.value == e || old(ids.value) <= r.value.id < ids.value)
      ensures r.Ok? ==> WithinFrom(r.value.span, start) && (kinds != [] ==> SpansFrom(r.value.span, start))
      ensures r.Ok? ==> (kinds == [] ==> r.value == e) && !PostfixToken(token.kind)
      ensures r.Ok? ==> PrimaryAt(tokens, r.value, e, kinds, postAt, a, f, cursor - 2)
    {
      r, kinds, postAt := ParsePostfixChain(start, e, f);
      if r.Ok? {
        PrimaryUnit(tokens, r.value, e, kinds, postAt, a, f, cursor - 2);
      }
    }

    /** The loop itself: postfix forms applied to `e`, which ends at token
        `f`, while the current token opens one. */
    method ParsePostfixChain(start: nat, e: Expr, ghost f: int)
      returns (r: Result<Expr, ParseError>, ghost kinds: seq<PostfixKind>, ghost postAt: seq<nat>)
      requires Valid() && Settled() && f == cursor - 2 && WithinFrom(e.span, start)
      modifies this, ids, interner
      decreases |tokens| - cursor, 22
      ensures Valid() && Advanced() && Grown() && paramIdx == old(paramIdx)
      ensures r.Ok? ==> Settled()
      ensures r.Ok? ==> (r.value == e || old(ids.value) <= r.value.id < ids.value)
      ensures r.Ok? ==> WithinFrom(r.value.span, start) && (kinds != [] ==> SpansFrom(r.value.span, start))
      ensures r.Ok? ==> Chain(r.value, e, kinds) && (kinds == [] ==> r.value == e)
      ensures r.Ok? ==> PostfixAt(tokens, kinds, postAt, f, cursor - 2) && !PostfixToken(token.kind)
    {
      var x := e;
      kinds, postAt := [], [];
      while PostfixToken(token.kind)
        invariant Valid() && Advanced() && Grown() && paramIdx == old(paramIdx) && Settled()
        invariant x == e || old(ids.value) <= x.id < ids.value
        invariant WithinFrom(x.span, start) && (kinds != [] ==> SpansFrom(x.span, start))
        invariant Chain(x, e, kinds) && PostfixAt(tokens, kinds, postAt, f, cursor - 2)
        decreases |tokens| - cursor
      {
        var y;
        y, kinds, postAt := ParsePostfixTurn(start, e, f, x, kinds, postAt);
        if y.Err? {
          return Err(y.error), kinds, postAt;
        }
        x := y.value;
      }
      return Ok(x), kinds, postAt;
    }

    /** One turn of that loop: the suffix at the current token wraps `x`,
        the chain around `e` so far, once more. */
    method ParsePostfixTurn(start: nat, e: Expr, ghost f: int, x: Expr, ghost kinds: seq<PostfixKind>,
                            ghost postAt: seq<nat>)
      returns (r: Result<Expr, ParseError>, ghost kinds': seq<PostfixKind>, ghost postAt': seq<nat>)
      requires Valid() && Settled() && PostfixToken(token.kind) && WithinFrom(x.span, start)
      requires Chain(x, e, kinds) && PostfixAt(tokens, kinds, postAt, f, cursor - 2)
      modifies this, ids, interner
      decreases |tokens| - cursor, 21
      ensures Valid() && Advanced() && Grown() && paramIdx == old(paramIdx)
      ensures r.Ok? ==> Settled() && Consumed(old(cursor)) && old(ids.value) <= r.value.id < ids.value
      ensures r.Ok? ==> SpansFrom(r.value.span, start)
      ensures r.Ok? ==> Chain(r.value, e, kinds') && PostfixAt(tokens, kinds', postAt', f, cursor - 2)
    {
      ghost var p := cursor - 1;
      var y, kind := ParsePostfix(start, x);
      if y.Err? {
        return y, kinds, postAt;
      }
      PostfixStep(tokens, y.value, x, e, kinds, postAt, f, kind, p, cursor - 2);
      return y, kinds + [kind], postAt + [p];
    }

    /** One turn of the loop of `parse_primary`: `.factor`, `(args)` or
        `[args]` applied to `e`, the expression read from `start` on. */
    method ParsePostfix(start: nat, e: Expr) returns (r: Result<Expr, ParseError>, ghost kind: PostfixKind)
      requires Valid() && PostfixToken(token.kind) && lcstEnd.Some? && start <= lcstEnd.value
      modifies this, ids, interner
      decreases |tokens| - cursor, 20
      ensures Valid() && Advanced() && Grown() && paramIdx == old(paramIdx)
      ensures r.Ok? ==> Consumed(old(cursor)) && old(ids.value) <= r.value.id < ids.value
      ensures r.Ok? ==> SpansFrom(r.value.span, start)
      ensures r.Ok? ==> SuffixRead(tokens, r.value, e, kind, old(cursor) - 1, cursor - 2)
    {
      if token.kind == Sym(Dot) {
        r := ParseMember(start, e);
        kind := DotPost;
      } else {
        kind := if token.kind == Sym(LParen) then CallPost else IndexPost;
        var app, at, ends, trailing := ParseApplication(start, e);
        r := app;
      }
    }

    /** The `.` arm of `parse_primary`: a factor after the dot. */
    method ParseMember(start: nat, e: Expr) returns (r: Result<Expr, ParseError>)
      requires Valid() && token.kind == Sym(Dot) && lcstEnd.Some? && start <= lcstEnd.value
      modifies this, ids, interner
      decreases |tokens| - cursor, 18
      ensures Valid() && Advanced() && Grown() && paramIdx == old(paramIdx)
      ensures r.Ok? ==> Consumed(old(cursor)) && old(ids.value) <= r.value.id < ids.value
      ensures r.Ok? ==> SpansFrom(r.value.span, start) && r.value.DotExpr? && r.value.receiver == e
    {
      var _ := AdvanceToken();
      var rhs := ParseFactor();
      if rhs.Err? {
        return Err(rhs.error);
      }
      var span := SpanFrom(start);
      var id := ids.Next();
      return Ok(DotExpr(id, span, e, rhs.value));
    }

    /** The `(` and `[` arms of `parse_primary`: a call or an indexing with
        the comma-separated arguments up to the closing bracket. */
    method ParseApplication(start: nat, e: Expr)
      returns (r: Result<Expr, ParseError>, ghost at: seq<nat>, ghost ends: seq<int>, ghost trailing: bool)
      requires Valid() && (token.kind == Sym(LParen) || token.kind == Sym(LBracket))
      requires lcstEnd.Some? && start <= lcstEnd.value
      modifies this, ids, interner
      decreases |tokens| - cursor, 18
      ensures Valid() && Advanced() && Grown() && paramIdx == old(paramIdx)
      ensures r.Ok? ==> Consumed(old(cursor)) && old(ids.value) <= r.value.id < ids.value
      ensures r.Ok? ==> SpansFrom(r.value.span, start)
      ensures r.Ok? && old(token.kind) == Sym(LParen) ==>
        && r.value.CallExpr? && r.value.callee == e && LastConsumed(Sym(RParen))
        && ListRead(tokens, interner.names, ExprItems(r.value.args), at, ends, old(cursor), trailing, cursor - 2)
      ensures r.Ok? && old(token.kind) == Sym(LBracket) ==>
        && r.value.Deref? && r.value.target == e && LastConsumed(Sym(RBracket))
        && ListRead(tokens, interner.names, ExprItems(r.value.indices), at, ends, old(cursor), trailing, cursor - 2)
    {
      var call := token.kind == Sym(LParen);
      var args;
      args, at, ends, trailing := ParseArguments(if call then Sym(RParen) else Sym(RBracket));
      if args.Err? {
        return Err(args.error), at, ends, trailing;
      }
      var span := SpanFrom(start);
      var id := ids.Next();
      if call {
        return Ok(CallExpr(id, span, e, args.value)), at, ends, trailing;
      }
      return Ok(Deref(id, span, e, args.value)), at, ends, trailing;
    }

    /** The opener just seen and the comma list of expressions after it, up
        to `stop`. */
    method ParseArguments(stop: TokenKind)
      returns (r: Result<seq<Expr>, ParseError>, ghost at: seq<nat>, ghost ends: seq<int>, ghost trailing: bool)
      requires Valid() && token.kind != End && stop != End
      modifies this, ids, interner
      decreases |tokens| - cursor, 16
      ensures Valid() && Advanced() && Grown() && paramIdx == old(paramIdx)
      ensures r.Ok? ==> Consumed(old(cursor)) && LastConsumed(stop) && old(cursor) + 2 <= cursor
      ensures r.Ok? ==> forall i :: 0 <= i < |r.value| ==> old(ids.value) <= r.value[i].id < ids.value
      ensures r.Ok? ==> ListRead(tokens, interner.names, ExprItems(r.value), at, ends, old(cursor), trailing, cursor - 2)
    {
      var _ := AdvanceToken();
      var args; ghost var failAt;
      args, failAt, at, ends, trailing := ParseCommaList(stop, ExprElem);
      if args.Err? {
        return Err(args.error), at, ends, trailing;
      }
      ExprsRoundTrip(args.value);
      return Ok(ExprsOf(args.value)), at, ends, trailing;
    }

    /** `parse_parentheses`: `(e)` is `e` itself; with a comma after the
        first expression it is a tuple, and a comma before `)` is
        accepted, so `(e,)` is the one-element tuple. */
    method ParseParentheses()
      returns (r: Result<Expr, ParseError>, ghost firstEnd: int, ghost at: seq<nat>, ghost ends: seq<int>,
               ghost trailing: bool)
      requires Valid()
      modifies this, ids, interner
      decreases |tokens| - cursor, 18
      ensures Valid() && Advanced() && Grown() && paramIdx == old(paramIdx)
      ensures r.Ok? ==> Consumed(old(cursor)) && old(ids.value) <= r.value.id < ids.value
      ensures r.Ok? ==> WithinFrom(r.value.span, old(token.span.start)) && LastConsumed(Sym(RParen))
      ensures old(token.kind) != Sym(LParen) ==> r == Err(ExpectedToken(Sym(LParen), old(token.kind)))
      ensures r.Ok? ==> old(cursor) <= firstEnd && firstEnd + 1 < |tokens|
      ensures r.Ok? && tokens[firstEnd + 1].kind != Sym(Comma) ==>
        ExprAt(tokens, r.value, old(cursor), firstEnd) && cursor == firstEnd + 3
      ensures r.Ok? && tokens[firstEnd + 1].kind == Sym(Comma) ==>
        && r.value.Tuple? && |r.value.elems| >= 1 && SpansFrom(r.value.span, old(token.span.start))
        && ListAt(tokens, [], ExprItems(r.value.elems), at, ends, old(cursor), trailing) && ends[0] == firstEnd
        && cursor == ends[|r.value.elems| - 1] + (if trailing then 4 else 3)
    {
      var start := token.span.start;
      var open := ExpectToken(Sym(LParen));
      if open.Err? {
        return Err(open.error), 0, [], [], false;
      }
      r, firstEnd, at, ends, trailing := ParseParenthesized(start);
    }

    /** What `parse_parentheses` reads after `(`, which started at byte
        `start`: an expression, then `)` or the rest of a tuple. */
    method ParseParenthesized(start: nat)
      returns (r: Result<Expr, ParseError>, ghost firstEnd: int, ghost at: seq<nat>, ghost ends: seq<int>,
               ghost trailing: bool)
      requires Valid() && Settled() && start <= tokens[cursor - 2].span.start
      modifies this, ids, interner
      decreases |tokens| - cursor, 32
      ensures Valid() && Advanced() && Grown() && paramIdx == old(paramIdx)
      ensures r.Ok? ==> Consumed(old(cursor)) && old(ids.value) <= r.value.id < ids.value
      ensures r.Ok? ==> WithinFrom(r.value.span, start) && LastConsumed(Sym(RParen))
      ensures r.Ok? ==> old(cursor) - 1 <= firstEnd && firstEnd + 1 < |tokens|
      ensures r.Ok? && tokens[firstEnd + 1].kind != Sym(Comma) ==>
        ExprAt(tokens, r.value, old(cursor) - 1, firstEnd) && cursor == firstEnd + 3
      ensures r.Ok? && tokens[firstEnd + 1].kind == Sym(Comma) ==>
        && r.value.Tuple? && |r.value.elems| >= 1 && SpansFrom(r.value.span, start)
        && ListAt(tokens, [], ExprItems(r.value.elems), at, ends, old(cursor) - 1, trailing) && ends[0] == firstEnd
        && cursor == ends[|r.value.elems| - 1] + (if trailing then 4 else 3)
    {
      StartsAscend(tokens, cursor - 2, cursor - 1);
      ghost var c0 := cursor;
      var expr := ParseExpression();
      if expr.Err? {
        return Err(expr.error), 0, [], [], false;
      }
      firstEnd := cursor - 2;
      if token.kind == Sym(Comma) {
        ListAtGrows(tokens, [], [], [], [], c0 - 1, ExprItem(expr.value), c0 - 1, firstEnd, true);
        r, at, ends, trailing := ParseTupleRest(start, expr.value, c0 - 1);
        return;
      }
      var close := ExpectToken(Sym(RParen));
      if close.Err? {
        return Err(close.error), firstEnd, [], [], false;
      }
      return Ok(expr.value), firstEnd, [], [], false;
    }

    /** The loop of `parse_parentheses` once a comma follows the first
        expression `head`, read from token `first`: further expressions up
        to `)`, the tuple spanning from the opening parenthesis at
        `start`. */
    method ParseTupleRest(start: nat, head: Expr, ghost first: nat)
      returns (r: Result<Expr, ParseError>, ghost at: seq<nat>, ghost ends: seq<int>, ghost trailing: bool)
      requires Valid() && token.kind == Sym(Comma) && 2 <= cursor && lcstEnd.Some? && start <= lcstEnd.value
      requires ListAt(tokens, [], [ExprItem(head)], [first], [cursor - 2], first, true)
      modifies this, ids, interner
      decreases |tokens| - cursor, 16
      ensures Valid() && Advanced() && Grown() && paramIdx == old(paramIdx)
      ensures r.Ok? ==> Consumed(old(cursor)) && old(ids.value) <= r.value.id < ids.value
      ensures r.Ok? ==> r.value.Tuple? && |r.value.elems| >= 1 && r.value.elems[0] == head
      ensures r.Ok? ==> SpansFrom(r.value.span, start) && LastConsumed(Sym(RParen))
      ensures r.Ok? ==> (|r.value.elems| == 1 <==> At(old(cursor)).kind == Sym(RParen))
      ensures r.Ok? ==> ListAt(tokens, [], ExprItems(r.value.elems), at, ends, first, trailing)
      ensures r.Ok? ==> ends[0] == old(cursor) - 2 && cursor == ends[|r.value.elems| - 1] + (if trailing then 4 else 3)
    {
      ghost var c0 := cursor;
      var values: seq<Expr> := [head];
      at, ends, trailing := [first], [cursor - 2], true;
      assert ExprItems(values) == [ExprItem(head)];
      while true
        invariant Valid() && Advanced() && Grown() && paramIdx == old(paramIdx)
        invariant lcstEnd.Some? && start <= lcstEnd.value
        invariant ListAt(tokens, [], ExprItems(values), at, ends, first, trailing)
        invariant |values| >= 1 && values[0] == head && ends[0] == c0 - 2
        invariant |values| == 1 ==> cursor == c0
        invariant |values| >= 2 ==> c0 < cursor && At(c0).kind != Sym(RParen)
        invariant cursor == ends[|values| - 1] + 2
        decreases |tokens| - cursor
      {
        ghost var p := cursor;
        var item, closed;
        ghost var last, comma;
        item, closed, last, comma := ParseTupleTurn(values, at, ends, first, trailing);
        if item.Err? {
          return Err(item.error), at, ends, trailing;
        }
        if item.value.Some? {
          values, at, ends, trailing := values + [item.value.value], at + [p], ends + [last], comma;
        }
        if closed {
          break;
        }
      }
      var span := SpanFrom(start);
      var id := ids.Next();
      return Ok(Tuple(id, span, values)), at, ends, trailing;
    }

    /** One turn of that loop: a comma, then either `)`, which ends the
        tuple, or an expression, which `)` may follow; `closed` tells
        whether the tuple ended. The elements so far were read as `at`
        and `ends` say, the last one just before the cursor. */
    method ParseTupleTurn(values: seq<Expr>, ghost at: seq<nat>, ghost ends: seq<int>, ghost first: nat,
                          ghost comma: bool)
      returns (r: Result<Option<Expr>, ParseError>, closed: bool, ghost last: int, ghost comma': bool)
      requires Valid() && values != []
      requires ListAt(tokens, [], ExprItems(values), at, ends, first, comma)
      requires cursor == ends[|values| - 1] + 2
      modifies this, ids, interner
      decreases |tokens| - cursor, 14
      ensures Valid() && Advanced() && Grown() && paramIdx == old(paramIdx)
      ensures r.Ok? ==> Consumed(old(cursor)) && lcstEnd.Some?
      ensures r.Ok? ==> (r.value.None? <==> At(old(cursor)).kind == Sym(RParen))
      ensures r.Ok? && r.value.None? ==> closed && comma && cursor == old(cursor) + 2
      ensures r.Ok? && r.value.Some? ==> old(ids.value) <= r.value.value.id < ids.value
      ensures r.Ok? && r.value.Some? ==>
        ListAt(tokens, [], ExprItems(values + [r.value.value]), at + [old(cursor)], ends + [last], first, comma')
      ensures r.Ok? && r.value.Some? ==> cursor == last + (if closed then 3 else 2)
      ensures r.Ok? && r.value.Some? && closed ==> !comma'
      ensures r.Ok? && closed ==> LastConsumed(Sym(RParen))
      ensures old(token.kind) != Sym(Comma) ==> r == Err(ExpectedToken(Sym(Comma), old(token.kind)))
    {
      ghost var c0 := cursor;
      ListAtLast(tokens, [], ExprItems(values), at, ends, first, comma);
      var commaTok := ExpectToken(Sym(Comma));
      if commaTok.Err? {
        return Err(commaTok.error), false, 0, false;
      }
      assert cursor == c0 + 1 && token == At(c0);
      if token.kind == Sym(RParen) {
        var _ := AdvanceToken();
        return Ok(None), true, 0, false;
      }
      r, closed, last, comma' := ParseTupleNext(values, at, ends, first);
    }

    /** The element after a comma in a tuple, and the `)` that may follow
        it. */
    method ParseTupleNext(values: seq<Expr>, ghost at: seq<nat>, ghost ends: seq<int>, ghost first: nat)
      returns (r: Result<Option<Expr>, ParseError>, closed: bool, ghost last: int, ghost comma: bool)
      requires Valid() && values != [] && 2 <= cursor
      requires ListAt(tokens, [], ExprItems(values), at, ends, first, true)
      requires cursor == ends[|values| - 1] + 3
      modifies this, ids, interner
      decreases |tokens| - cursor, 32
      ensures Valid() && Advanced() && Grown() && paramIdx == old(paramIdx)
      ensures r.Ok? ==> Consumed(old(cursor)) && lcstEnd.Some? && r.value.Some?
      ensures r.Ok? ==> old(ids.value) <= r.value.value.id < ids.value
      ensures r.Ok? ==>
        ListAt(tokens, [], ExprItems(values + [r.value.value]), at + [old(cursor) - 1], ends + [last], first, comma)
      ensures r.Ok? ==> cursor == last + (if closed then 3 else 2)
      ensures r.Ok? && closed ==> !comma && LastConsumed(Sym(RParen))
    {
      ghost var c0 := cursor;
      var next := ParseExpression();
      if next.Err? {
        return Err(next.error), false, 0, false;
      }
      last := cursor - 2;
      comma := token.kind == Sym(Comma);
      ListAtGrows(tokens, [], ExprItems(values), at, ends, first, ExprItem(next.value), c0 - 1, last, comma);
      assert ExprItems(values + [next.value]) == ExprItems(values) + [ExprItem(next.value)];
      closed := token.kind == Sym(RParen);
      if closed {
        var _ := AdvanceToken();
      }
      return Ok(Some(next.value)), closed, last, comma;
    }

    /** `parse_block`: `{` statements `}`. */
    method ParseBlock()
      returns (r: Result<Expr, ParseError>, ghost read: seq<Stmt>, ghost starts: seq<nat>, ghost failAt: Option<nat>)
      requires Valid()
      modifies this, ids, interner
      decreases |tokens| - cursor, 18
      ensures Valid() && Advanced() && Grown() && paramIdx == old(paramIdx)
      ensures r.Ok? ==> Consumed(old(cursor)) && LastConsumed(Sym(RBrace))
      ensures r.Ok? ==> old(ids.value) <= r.value.id < ids.value
      ensures r.Ok? ==> r.value.BlockExpr? && SpansFrom(r.value.span, old(token.span.start))
      ensures old(token.kind) != Sym(LBrace) ==> r == Err(ExpectedToken(Sym(LBrace), old(token.kind))) && failAt.None?
      ensures r.Ok? ==> read == r.value.stmts && StatementsAt(tokens, read, starts, old(cursor), cursor - 2)
      ensures r.Ok? ==> (r.value.stmts == [] <==> At(old(cursor)).kind == Sym(RBrace))
      ensures failAt.Some? ==>
        && r.Err? && StatementsAt(tokens, read, starts, old(cursor), failAt.value)
        && failAt.value < |tokens| && tokens[failAt.value].kind != Sym(RBrace) && tokens[failAt.value].kind != End
      ensures r.Err? && failAt.None? && old(token.kind) == Sym(LBrace) ==>
        r == Err(ExpectedToken(Sym(RBrace), End)) && StatementsAt(tokens, read, starts, old(cursor), |tokens| - 1)
    {
      read, starts, failAt := [], [], None;
      var start := token.span.start;
      var open := ExpectToken(Sym(LBrace));
      if open.Err? {
        return Err(open.error), read, starts, failAt;
      }
      var stmts;
      stmts, read, starts, failAt := ParseStatements();
      if stmts.Err? {
        return Err(stmts.error), read, starts, failAt;
      }
      ghost var next := cursor - 1;
      assert StatementsAt(tokens, read, starts, old(cursor), next);
      var close := ExpectToken(Sym(RBrace));
      if close.Err? {
        return Err(close.error), read, starts, None;
      }
      StatementsEmpty(tokens, read, starts, old(cursor), next);
      var span := SpanFrom(start);
      var id := ids.Next();
      return Ok(BlockExpr(id, span, stmts.value)), read, starts, None;
    }

    /** The loop of `parse_block`: statements up to `}` or the end of
        input. */
    method ParseStatements()
      returns (r: Result<seq<Stmt>, ParseError>, ghost read: seq<Stmt>, ghost starts: seq<nat>, ghost failAt: Option<nat>)
      requires Valid() && lcstEnd.Some?
      modifies this, ids, interner
      decreases |tokens| - cursor, 44
      ensures Valid() && Advanced() && Grown() && paramIdx == old(paramIdx)
      ensures r.Ok? ==> read == r.value && StatementsAt(tokens, read, starts, old(cursor) - 1, cursor - 1)
      ensures r.Ok? ==> token.kind == Sym(RBrace) || cursor == |tokens|
      ensures r.Err? <==> failAt.Some?
      ensures failAt.Some? ==>
        && StatementsAt(tokens, read, starts, old(cursor) - 1, failAt.value)
        && failAt.value < |tokens| && tokens[failAt.value].kind != Sym(RBrace) && tokens[failAt.value].kind != End
    {
      var stmts: seq<Stmt> := [];
      starts := [];
      while token.kind != Sym(RBrace) && token.kind != End
        invariant Valid() && Advanced() && Grown() && paramIdx == old(paramIdx)
        invariant old(cursor) <= cursor && StatementsAt(tokens, stmts, starts, old(cursor) - 1, cursor - 1)
        decreases |tokens| - cursor
      {
        ghost var next := cursor - 1;
        var s := ParseStatement();
        if s.Err? {
          return Err(s.error), stmts, starts, Some(next);
        }
        StatementsGrow(tokens, stmts, starts, old(cursor) - 1, next, s.value, cursor - 1);
        stmts, starts := stmts + [s.value], starts + [next];
      }
      if token.kind == End {
        assert cursor == |tokens|;
      }
      return Ok(stmts), stmts, starts, None;
    }

    /** `parse_if`: `if` condition block, then optionally `else` and either
        another `if` or a block. */
    method ParseIf() returns (r: Result<Expr, ParseError>)
      requires Valid()
      modifies this, ids, interner
      decreases |tokens| - cursor, 18
      ensures Valid() && Advanced() && Grown() && paramIdx == old(paramIdx)
      ensures r.Ok? ==> Consumed(old(cursor)) && old(ids.value) <= r.value.id < ids.value
      ensures r.Ok? ==> r.value.IfExpr? && SpansFrom(r.value.span, old(token.span.start))
      ensures r.Ok? ==> r.value.thenBlock.BlockExpr?
      ensures r.Ok? && r.value.elseBranch.Some? ==>
        r.value.elseBranch.value.IfExpr? || r.value.elseBranch.value.BlockExpr?
      ensures r.Ok? && r.value.elseBranch.None? ==> token.kind != Kw(Else)
      ensures old(token.kind) != Kw(If) ==> r == Err(ExpectedToken(Kw(If), old(token.kind)))
    {
      var start := token.span.start;
      var kw := ExpectToken(Kw(If));
      if kw.Err? {
        return Err(kw.error);
      }
      var cond := ParseExpressionNoStructLit();
      if cond.Err? {
        return Err(cond.error);
      }
      var branches := ParseBranches();
      if branches.Err? {
        return Err(branches.error);
      }
      var span := SpanFrom(start);
      var id := ids.Next();
      return Ok(IfExpr(id, span, cond.value, branches.value.0, branches.value.1));
    }

    /** The blocks of `parse_if` after the condition: the `then` block and
        the optional `else` part. */
    method ParseBranches() returns (r: Result<(Expr, Option<Expr>), ParseError>)
      requires Valid()
      modifies this, ids, interner
      decreases |tokens| - cursor, 20
      ensures Valid() && Advanced() && Grown() && paramIdx == old(paramIdx)
      ensures r.Ok? ==> Consumed(old(cursor)) && r.value.0.BlockExpr?
      ensures r.Ok? && r.value.1.Some? ==> r.value.1.value.IfExpr? || r.value.1.value.BlockExpr?
      ensures r.Ok? && r.value.1.None? ==> token.kind != Kw(Else)
    {
      var thenBlock, thenRead, thenStarts, thenFail := ParseBlock();
      if thenBlock.Err? {
        return Err(thenBlock.error);
      }
      var elseBranch := ParseElse();
      if elseBranch.Err? {
        return Err(elseBranch.error);
      }
      return Ok((thenBlock.value, elseBranch.value));
    }

    /** The `else` part of `parse_if`: nothing, another `if`, or a block. */
    method ParseElse() returns (r: Result<Option<Expr>, ParseError>)
      requires Valid()
      modifies this, ids, interner
      decreases |tokens| - cursor, 16
      ensures Valid() && Advanced() && Grown() && paramIdx == old(paramIdx)
      ensures r.Ok? ==> (r.value.None? <==> old(token.kind) != Kw(Else))
      ensures old(token.kind) != Kw(Else) ==>
        r == Ok(None) && cursor == old(cursor) && lcstEnd == old(lcstEnd) && ids.value == old(ids.value)
      ensures r.Ok? && r.value.Some? ==>
        && Consumed(old(cursor)) && old(ids.value) <= r.value.value.id < ids.value
        && (r.value.value.IfExpr? <==> At(old(cursor)).kind == Kw(If))
        && (r.value.value.IfExpr? || r.value.value.BlockExpr?)
    {
      if token.kind != Kw(Else) {
        return Ok(None);
      }
      var _ := AdvanceToken();
      if token.kind == Kw(If) {
        var x := ParseIf();
        if x.Err? {
          return Err(x.error);
        }
        return Ok(Some(x.value));
      }
      var x, read, starts, failAt := ParseBlock();
      if x.Err? {
        return Err(x.error);
      }
      return Ok(Some(x.value));
    }

    // -------------------------------------------------------------------
    // Statements

    /** `parse_statement`: dispatch on the statement keyword; anything else
        is an expression statement ended by `;`. */
    method ParseStatement() returns (r: Result<Stmt, ParseError>)
      requires Valid()
      modifies this, ids, interner
      decreases |tokens| - cursor, 42
      ensures Valid() && Advanced() && Grown() && paramIdx == old(paramIdx)
      ensures r.Ok? ==> Consumed(old(cursor)) && old(ids.value) <= r.value.id < ids.value
      ensures r.Ok? ==> WithinFrom(r.value.span, old(token.span.start)) && StatementShape(old(token.kind), r.value)
      ensures r.Ok? && StatementKeyword(old(token.kind)) ==> SpansFrom(r.value.span, old(token.span.start))
      ensures r.Ok? && !StatementKeyword(old(token.kind)) ==>
        && LastConsumed(Sym(Semicolon)) && r.value.ExprStmt?
        && r.value.expr.span.Span? && SpansFrom(r.value.span, r.value.expr.span.start)
      ensures old(token.kind) == Kw(Else) ==> r == Err(MisplacedElse)
    {
      if token.kind == Kw(Else) {
        r := Err(MisplacedElse);
      } else if token.kind == Kw(If) {
        r := ParseIfStmt();
      } else if StatementKeyword(token.kind) {
        r := ParseKeywordStmt();
      } else {
        r := ParseExprStmt();
      }
    }

    /** The arms of `parse_statement` for the statements a keyword opens. */
    method ParseKeywordStmt() returns (r: Result<Stmt, ParseError>)
      requires Valid() && StatementKeyword(token.kind) && token.kind != Kw(Else) && token.kind != Kw(If)
      modifies this, ids, interner
      decreases |tokens| - cursor, 40
      ensures Valid() && Advanced() && Grown() && paramIdx == old(paramIdx)
      ensures r.Ok? ==> Consumed(old(cursor)) && old(ids.value) <= r.value.id < ids.value
      ensures r.Ok? ==> SpansFrom(r.value.span, old(token.span.start)) && StatementShape(old(token.kind), r.value)
    {
      var kw := token.kind.keyword;
      if kw == Induction || kw == Simulate {
        r := ParseSteps(kw);
      } else if kw == Assert || kw == Assume {
        r := ParseAssertion(kw);
      } else if kw == Havoc {
        r := ParseHavoc();
      } else if kw == Call {
        r := ParseCall();
      } else if kw == While {
        r := ParseWhile();
      } else {
        r := ParseVar();
      }
    }

    /** `parse_assert` and `parse_assume`. */
    method ParseAssertion(kw: Keyword) returns (r: Result<Stmt, ParseError>)
      requires Valid() && (kw == Assert || kw == Assume)
      modifies this, ids, interner
      decreases |tokens| - cursor, 36
      ensures Valid() && Advanced() && Grown() && paramIdx == old(paramIdx)
      ensures r.Ok? ==> Consumed(old(cursor)) && old(ids.value) <= r.value.id < ids.value
      ensures r.Ok? ==> SpansFrom(r.value.span, old(token.span.start)) && LastConsumed(Sym(Semicolon))
      ensures r.Ok? ==> if kw == Assert then r.value.AssertStmt? else r.value.AssumeStmt?
      ensures r.Ok? ==> old(ids.value) <= r.value.expr.id < r.value.id
      ensures old(token.kind) != Kw(kw) ==> r == Err(ExpectedToken(Kw(kw), old(token.kind)))
    {
      var c := ParseClause(kw);
      if c.Err? {
        return Err(c.error);
      }
      if kw == Assert {
        return Ok(AssertStmt(c.value.id, c.value.span, c.value.expr));
      }
      return Ok(AssumeStmt(c.value.id, c.value.span, c.value.expr));
    }

    /** The `if` arm of `parse_statement`: an `if` expression as a statement,
        with the expression's span. */
    method ParseIfStmt() returns (r: Result<Stmt, ParseError>)
      requires Valid()
      modifies this, ids, interner
      decreases |tokens| - cursor, 20
      ensures Valid() && Advanced() && Grown() && paramIdx == old(paramIdx)
      ensures r.Ok? ==> Consumed(old(cursor)) && old(ids.value) <= r.value.id < ids.value
      ensures r.Ok? ==> SpansFrom(r.value.span, old(token.span.start))
      ensures r.Ok? ==> r.value.ExprStmt? && r.value.expr.IfExpr? && r.value.span == r.value.expr.span
      ensures old(token.kind) != Kw(If) ==> r == Err(ExpectedToken(Kw(If), old(token.kind)))
    {
      var x := ParseIf();
      if x.Err? {
        return Err(x.error);
      }
      var id := ids.Next();
      return Ok(ExprStmt(id, x.value.span, x.value));
    }

    /** The last arm of `parse_statement`: `expression;`, spanning from the
        start of the expression. */
    method ParseExprStmt() returns (r: Result<Stmt, ParseError>)
      requires Valid()
      modifies this, ids, interner
      decreases |tokens| - cursor, 32
      ensures Valid() && Advanced() && Grown() && paramIdx == old(paramIdx)
      ensures r.Ok? ==> Consumed(old(cursor)) && old(ids.value) <= r.value.id < ids.value
      ensures r.Ok? ==> r.value.ExprStmt? && LastConsumed(Sym(Semicolon))
      ensures r.Ok? ==> WithinFrom(r.value.expr.span, old(token.span.start))
      ensures r.Ok? ==> SpansFrom(r.value.span, r.value.expr.span.start)
    {
      var x := ParseExpression();
      if x.Err? {
        return Err(x.error);
      }
      var semi := ExpectToken(Sym(Semicolon));
      if semi.Err? {
        return Err(semi.error);
      }
      var span := SpanFrom(x.value.span.start);
      var id := ids.Next();
      return Ok(ExprStmt(id, span, x.value));
    }

    /** `parse_induction` and `parse_simulate`, which differ only in the
        keyword and the statement built: `kw(n);` with `n` an integer
        literal that fits in `u64`. */
    method ParseSteps(kw: Keyword) returns (r: Result<Stmt, ParseError>)
      requires Valid() && token.kind == Kw(kw) && (kw == Induction || kw == Simulate)
      modifies this, ids
      ensures Valid() && Advanced() && paramIdx == old(paramIdx)
      ensures r.Ok? ==> Consumed(old(cursor)) && old(ids.value) <= r.value.id < ids.value
      ensures r.Ok? ==> SpansFrom(r.value.span, old(token.span.start)) && LastConsumed(Sym(Semicolon))
      ensures r.Ok? ==> if kw == Induction then r.value.InductionStmt? else r.value.SimulateStmt?
      ensures At(old(cursor)).kind != Sym(LParen) ==> r == Err(ExpectedToken(Sym(LParen), At(old(cursor)).kind))
      ensures At(old(cursor)).kind == Sym(LParen) ==>
        var n := StepCount(At(old(cursor) + 1).kind);
        (r.Ok? ==> n == Ok(r.value.steps)) && (n.Err? ==> r == Err(n.error))
    {
      ghost var c0 := cursor;
      var start := token.span.start;
      var _ := AdvanceToken();
      assert cursor == c0 + 1 && token == At(c0);
      var steps := ParseStepCount();
      if steps.Err? {
        return Err(steps.error);
      }
      var span := SpanFrom(start);
      var id := ids.Next();
      if kw == Induction {
        return Ok(InductionStmt(id, span, steps.value));
      }
      return Ok(SimulateStmt(id, span, steps.value));
    }

    /** The `(n);` of `parse_induction` and `parse_simulate`. */
    method ParseStepCount() returns (r: Result<nat, ParseError>)
      requires Valid()
      modifies this
      ensures Valid() && Advanced() && paramIdx == old(paramIdx)
      ensures r.Ok? ==> Consumed(old(cursor)) && LastConsumed(Sym(Semicolon))
      ensures old(token.kind) != Sym(LParen) ==> r == Err(ExpectedToken(Sym(LParen), old(token.kind)))
      ensures old(token.kind) == Sym(LParen) ==>
        var n := StepCount(At(old(cursor)).kind);
        (r.Ok? ==> r == n) && (n.Err? ==> r == n)
    {
      var open := ExpectToken(Sym(LParen));
      if open.Err? {
        return Err(open.error);
      }
      var steps := StepCount(token.kind);
      if steps.Err? {
        return Err(steps.error);
      }
      var _ := AdvanceToken();
      var close := ExpectToken(Sym(RParen));
      if close.Err? {
        return Err(close.error);
      }
      var semi := ExpectToken(Sym(Semicolon));
      if semi.Err? {
        return Err(semi.error);
      }
      return Ok(steps.value);
    }

    /** `parse_assert`, `parse_assume`, `parse_procedure_requires` and
        `parse_procedure_ensures`, which differ only in the keyword:
        `kw expression;`. */
    method ParseClause(kw: Keyword) returns (r: Result<PredicateStmt, ParseError>)
      requires Valid()
      modifies this, ids, interner
      decreases |tokens| - cursor, 34
      ensures Valid() && Advanced() && Grown() && paramIdx == old(paramIdx)
      ensures r.Ok? ==> Consumed(old(cursor)) && old(ids.value) <= r.value.id < ids.value
      ensures r.Ok? ==> SpansFrom(r.value.span, old(token.span.start)) && LastConsumed(Sym(Semicolon))
      ensures r.Ok? ==> old(ids.value) <= r.value.expr.id < r.value.id
      ensures old(token.kind) != Kw(kw) ==> r == Err(ExpectedToken(Kw(kw), old(token.kind)))
    {
      var start := token.span.start;
      var open := ExpectToken(Kw(kw));
      if open.Err? {
        return Err(open.error);
      }
      var expr := ParseExpression();
      if expr.Err? {
        return Err(expr.error);
      }
      var semi := ExpectToken(Sym(Semicolon));
      if semi.Err? {
        return Err(semi.error);
      }
      var span := SpanFrom(start);
      var id := ids.Next();
      return Ok(PredicateStmt(id, span, expr.value));
    }

    /** `parse_havoc`: `havoc name;`; the statement takes the name's id. */
    method ParseHavoc() returns (r: Result<Stmt, ParseError>)
      requires Valid() && token.kind == Kw(Havoc)
      modifies this, ids, interner
      ensures Valid() && Advanced() && Grown() && paramIdx == old(paramIdx)
      ensures r.Ok? ==> Consumed(old(cursor)) && LastConsumed(Sym(Semicolon))
      ensures r.Ok? ==> SpansFrom(r.value.span, old(token.span.start))
      ensures r.Ok? ==> StatementShape(old(token.kind), r.value)
      ensures r.Ok? ==> r.value.HavocStmt? && r.value.id == old(ids.value) < ids.value && At(old(cursor)).kind.Identifier?
      ensures r.Ok? ==> r.value.name < |interner.names| && interner.names[r.value.name] == At(old(cursor)).kind.text
      ensures old(token.kind) != End && !At(old(cursor)).kind.Identifier? ==>
        r == Err(ExpectedIdentifier(At(old(cursor)).kind))
    {
      var start := token.span.start;
      var _ := AdvanceToken();
      var ident := ExpectIdent();
      if ident.Err? {
        return Err(ident.error);
      }
      var semi := ExpectToken(Sym(Semicolon));
      if semi.Err? {
        return Err(semi.error);
      }
      var span := SpanFrom(start);
      return Ok(HavocStmt(ident.value.id, span, ident.value.sym));
    }

    /** `parse_call`: `call (r1, r2) = f(args);` or `call f(args);`. The
        statement takes the function name's id, which is drawn after the
        return names' and before the arguments'. */
    method ParseCall() returns (r: Result<Stmt, ParseError>)
      requires Valid() && token.kind == Kw(Call)
      modifies this, ids, interner
      decreases |tokens| - cursor, 38
      ensures Valid() && Advanced() && Grown() && paramIdx == old(paramIdx)
      ensures r.Ok? ==> Consumed(old(cursor)) && LastConsumed(Sym(Semicolon))
      ensures r.Ok? ==> SpansFrom(r.value.span, old(token.span.start)) && r.value.CallStmt?
      ensures r.Ok? ==> StatementShape(old(token.kind), r.value)
      ensures r.Ok? ==> old(ids.value) <= r.value.id < ids.value
      ensures r.Ok? ==> forall i :: 0 <= i < |r.value.rets| ==> old(ids.value) <= r.value.rets[i].id < r.value.id
      ensures r.Ok? ==> forall i :: 0 <= i < |r.value.args| ==> r.value.id < r.value.args[i].id < ids.value
      ensures r.Ok? && At(old(cursor)).kind != Sym(LParen) ==> r.value.rets == []
    {
      var start := token.span.start;
      var rets, retsAt, retsEnds, retsTrailing := ParseCallRets();
      if rets.Err? {
        return Err(rets.error);
      }
      var func := ExpectIdent();
      if func.Err? {
        return Err(func.error);
      }
      var args, argsAt, argsEnds, argsTrailing := ParseCallArgs();
      if args.Err? {
        return Err(args.error);
      }
      var span := SpanFrom(start);
      return Ok(CallStmt(func.value.id, span, func.value.sym, rets.value, args.value));
    }

    /** The start of `parse_call`: the keyword, then, when a parenthesis
        follows, the names the call assigns to and `=`. */
    method ParseCallRets()
      returns (r: Result<seq<Name>, ParseError>, ghost at: seq<nat>, ghost ends: seq<int>, ghost trailing: bool)
      requires Valid()
      modifies this, ids, interner
      decreases |tokens| - cursor, 36
      ensures Valid() && Advanced() && Grown() && paramIdx == old(paramIdx)
      ensures lcstEnd.Some? && EndOf(old(token.span)) <= lcstEnd.value
      ensures r.Ok? ==> forall i :: 0 <= i < |r.value| ==> old(ids.value) <= r.value[i].id < ids.value
      ensures r.Ok? && At(old(cursor)).kind != Sym(LParen) ==> r.value == []
      ensures r.Ok? && At(old(cursor)).kind == Sym(LParen) ==>
        && old(cursor) + 4 <= cursor && LastConsumed(Op(Operator.Eq)) && tokens[cursor - 3].kind == Sym(RParen)
        && ListRead(tokens, interner.names, NameItems(r.value), at, ends, old(cursor) + 1, trailing, cursor - 3)
    {
      at, ends, trailing := [], [], false;
      var _ := AdvanceToken();
      if token.kind != Sym(LParen) {
        return Ok([]), at, ends, trailing;
      }
      var list;
      list, at, ends, trailing := ParseNames(Sym(RParen));
      if list.Err? {
        return Err(list.error), at, ends, trailing;
      }
      var eq := ExpectToken(Op(Operator.Eq));
      if eq.Err? {
        return Err(eq.error), at, ends, trailing;
      }
      return Ok(list.value), at, ends, trailing;
    }

    /** The opener just seen and the comma list of names after it, up to
        `stop`. */
    method ParseNames(stop: TokenKind)
      returns (r: Result<seq<Name>, ParseError>, ghost at: seq<nat>, ghost ends: seq<int>, ghost trailing: bool)
      requires Valid() && token.kind != End && stop != End
      modifies this, ids, interner
      decreases |tokens| - cursor, 34
      ensures Valid() && Advanced() && Grown() && paramIdx == old(paramIdx)
      ensures r.Ok? ==> Consumed(old(cursor)) && LastConsumed(stop) && old(cursor) + 2 <= cursor
      ensures r.Ok? ==> forall i :: 0 <= i < |r.value| ==> old(ids.value) <= r.value[i].id < ids.value
      ensures r.Ok? ==> ListRead(tokens, interner.names, NameItems(r.value), at, ends, old(cursor), trailing, cursor - 2)
    {
      var _ := AdvanceToken();
      var list; ghost var failAt;
      list, failAt, at, ends, trailing := ParseCommaList(stop, NameElem);
      if list.Err? {
        return Err(list.error), at, ends, trailing;
      }
      NamesRoundTrip(list.value);
      return Ok(NamesOf(list.value)), at, ends, trailing;
    }

    /** The end of `parse_call`: the parenthesised arguments and `;`. */
    method ParseCallArgs()
      returns (r: Result<seq<Expr>, ParseError>, ghost at: seq<nat>, ghost ends: seq<int>, ghost trailing: bool)
      requires Valid()
      modifies this, ids, interner
      decreases |tokens| - cursor, 36
      ensures Valid() && Advanced() && Grown() && paramIdx == old(paramIdx)
      ensures r.Ok? ==> Consumed(old(cursor)) && LastConsumed(Sym(Semicolon))
      ensures r.Ok? ==> forall i :: 0 <= i < |r.value| ==> old(ids.value) <= r.value[i].id < ids.value
      ensures r.Ok? ==> old(token.kind) == Sym(LParen) && tokens[cursor - 3].kind == Sym(RParen)
      ensures r.Ok? ==> ListRead(tokens, interner.names, ExprItems(r.value), at, ends, old(cursor), trailing, cursor - 3)
      ensures old(token.kind) != Sym(LParen) ==> r == Err(ExpectedToken(Sym(LParen), old(token.kind)))
    {
      at, ends, trailing := [], [], false;
      if token.kind != Sym(LParen) {
        return Err(ExpectedToken(Sym(LParen), token.kind)), at, ends, trailing;
      }
      var args;
      args, at, ends, trailing := ParseArguments(Sym(RParen));
      if args.Err? {
        return Err(args.error), at, ends, trailing;
      }
      var semi := ExpectToken(Sym(Semicolon));
      if semi.Err? {
        return Err(semi.error), at, ends, trailing;
      }
      return Ok(args.value), at, ends, trailing;
    }

    /** `parse_var`: `var`, `input`, `output` or `const`, a name, an
        optional `: type` and an optional `= expression`, then `;`. Only
        `const` makes a binding that cannot be reassigned; the statement
        takes the name's id. */
    method ParseVar() returns (r: Result<Stmt, ParseError>)
      requires Valid() && token.kind.Kw? && token.kind.keyword in {Input, Output, Var, Const}
      modifies this, ids, interner
      decreases |tokens| - cursor, 38
      ensures Valid() && Advanced() && Grown() && paramIdx == old(paramIdx)
      ensures r.Ok? ==> Consumed(old(cursor)) && LastConsumed(Sym(Semicolon))
      ensures r.Ok? ==> SpansFrom(r.value.span, old(token.span.start))
      ensures r.Ok? ==> StatementShape(old(token.kind), r.value)
      ensures r.Ok? ==> r.value.VarStmt? && r.value.reassignable == (old(token.kind) != Kw(Const))
      ensures r.Ok? ==> r.value.id == old(ids.value) < ids.value && At(old(cursor)).kind.Identifier?
      ensures r.Ok? ==> r.value.name < |interner.names| && interner.names[r.value.name] == At(old(cursor)).kind.text
      ensures r.Ok? ==> (r.value.varType.Some? <==> At(old(cursor) + 1).kind == Sym(Colon))
      ensures old(token.kind) != End && !At(old(cursor)).kind.Identifier? ==>
        r == Err(ExpectedIdentifier(At(old(cursor)).kind))
    {
      ghost var c0 := cursor;
      ghost var k0 := token.kind;
      var start := token.span.start;
      var reassignable := token.kind != Kw(Const);
      var _ := AdvanceToken();
      assert cursor == c0 + 1 && token == At(c0);
      var ident := ExpectIdent();
      if ident.Err? {
        return Err(ident.error);
      }
      assert cursor == c0 + 2 && token == At(c0 + 1);
      ghost var names1 := interner.names;
      var tail := ParseVarTail();
      if tail.Err? {
        return Err(tail.error);
      }
      assert interner.names[ident.value.sym] == names1[ident.value.sym];
      var span := SpanFrom(start);
      var s := VarStmt(ident.value.id, span, ident.value.sym, reassignable, tail.value.0, tail.value.1);
      VarShape(k0, s);
      return Ok(s);
    }

    /** The part of `parse_var` after the name: `parse_var_type`,
        `parse_var_assignment` and `;`. */
    method ParseVarTail() returns (r: Result<(Option<TypeIdent>, Option<Expr>), ParseError>)
      requires Valid()
      modifies this, ids, interner
      decreases |tokens| - cursor, 36
      ensures Valid() && Advanced() && Grown() && paramIdx == old(paramIdx)
      ensures r.Ok? ==> Consumed(old(cursor)) && LastConsumed(Sym(Semicolon))
      ensures r.Ok? ==> (r.value.0.Some? <==> old(token.kind) == Sym(Colon))
    {
      var ty := ParseOptionalType();
      if ty.Err? {
        return Err(ty.error);
      }
      var init := ParseVarAssignment();
      if init.Err? {
        return Err(init.error);
      }
      var semi := ExpectToken(Sym(Semicolon));
      if semi.Err? {
        return Err(semi.error);
      }
      return Ok((ty.value, init.value));
    }

    /** `parse_var_type` and `parse_function_type`, which are the same:
        `: type`, or nothing when no colon follows. */
    method ParseOptionalType() returns (r: Result<Option<TypeIdent>, ParseError>)
      requires Valid()
      modifies this, ids, interner
      decreases |tokens| - cursor, 14
      ensures Valid() && Advanced() && Grown() && paramIdx == old(paramIdx)
      ensures r.Ok? ==> (r.value.Some? <==> old(token.kind) == Sym(Colon))
      ensures r.Ok? && r.value.Some? ==> Consumed(old(cursor)) && old(ids.value) <= r.value.value.id < ids.value
      ensures old(token.kind) != Sym(Colon) ==>
        r == Ok(None) && cursor == old(cursor) && lcstEnd == old(lcstEnd) && ids.value == old(ids.value)
    {
      if token.kind == Sym(Colon) {
        var _ := AdvanceToken();
        var ty := ParseTypeIdent();
        if ty.Err? {
          return Err(ty.error);
        }
        return Ok(Some(ty.value));
      }
      return Ok(None);
    }

    /** `parse_var_assignment`: `= expression`, or nothing when no `=`
        follows. */
    method ParseVarAssignment() returns (r: Result<Option<Expr>, ParseError>)
      requires Valid()
      modifies this, ids, interner
      decreases |tokens| - cursor, 32
      ensures Valid() && Advanced() && Grown() && paramIdx == old(paramIdx)
      ensures r.Ok? ==> (r.value.Some? <==> old(token.kind) == Op(Operator.Eq))
      ensures r.Ok? && r.value.Some? ==> Consumed(old(cursor)) && old(ids.value) <= r.value.value.id < ids.value
      ensures old(token.kind) != Op(Operator.Eq) ==>
        r == Ok(None) && cursor == old(cursor) && lcstEnd == old(lcstEnd) && ids.value == old(ids.value)
    {
      if token.kind == Op(Operator.Eq) {
        var _ := AdvanceToken();
        var e := ParseExpression();
        if e.Err? {
          return Err(e.error);
        }
        return Ok(Some(e.value));
      }
      return Ok(None);
    }

    /** `parse_while`: `while` condition block. */
    method ParseWhile() returns (r: Result<Stmt, ParseError>)
      requires Valid() && token.kind == Kw(While)
      modifies this, ids, interner
      decreases |tokens| - cursor, 38
      ensures Valid() && Advanced() && Grown() && paramIdx == old(paramIdx)
      ensures r.Ok? ==> Consumed(old(cursor)) && old(ids.value) <= r.value.id < ids.value
      ensures r.Ok? ==> SpansFrom(r.value.span, old(token.span.start))
      ensures r.Ok? ==> StatementShape(old(token.kind), r.value)
      ensures r.Ok? ==> r.value.WhileStmt? && r.value.body.ExprStmt? && r.value.body.expr.BlockExpr?
      ensures r.Ok? ==> r.value.expr.id < r.value.body.id < r.value.id
    {
      var start := token.span.start;
      var _ := AdvanceToken();
      r := ParseWhileRest(start);
    }

    /** What follows `while`, which started at `start`: the condition, then
        the body. */
    method ParseWhileRest(start: nat) returns (r: Result<Stmt, ParseError>)
      requires Valid() && Settled() && start <= tokens[cursor - 2].span.start
      modifies this, ids, interner
      decreases |tokens| - cursor, 38
      ensures Valid() && Advanced() && Grown() && paramIdx == old(paramIdx)
      ensures r.Ok? ==> Consumed(old(cursor)) && old(ids.value) <= r.value.id < ids.value
      ensures r.Ok? ==> SpansFrom(r.value.span, start)
      ensures r.Ok? ==> r.value.WhileStmt? && r.value.body.ExprStmt? && r.value.body.expr.BlockExpr?
      ensures r.Ok? ==> r.value.expr.id < r.value.body.id < r.value.id
    {
      var cond := ParseExpressionNoStructLit();
      if cond.Err? {
        return Err(cond.error);
      }
      var body := ParseBlockStmt();
      if body.Err? {
        return Err(body.error);
      }
      var span := SpanFrom(start);
      var id := ids.Next();
      return Ok(WhileStmt(id, span, cond.value, body.value));
    }

    /** `parse_block_stmt`: a block as a statement, with the block's span. */
    method ParseBlockStmt() returns (r: Result<Stmt, ParseError>)
      requires Valid()
      modifies this, ids, interner
      decreases |tokens| - cursor, 20
      ensures Valid() && Advanced() && Grown() && paramIdx == old(paramIdx)
      ensures r.Ok? ==> Consumed(old(cursor)) && old(ids.value) <= r.value.id < ids.value
      ensures r.Ok? ==> SpansFrom(r.value.span, old(token.span.start))
      ensures r.Ok? ==> r.value.ExprStmt? && r.value.expr.BlockExpr? && r.value.span == r.value.expr.span
      ensures r.Ok? ==> old(ids.value) <= r.value.expr.id < r.value.id
      ensures old(token.kind) != Sym(LBrace) ==> r == Err(ExpectedToken(Sym(LBrace), old(token.kind)))
    {
      var b, read, starts, failAt := ParseBlock();
      if b.Err? {
        return Err(b.error);
      }
      var id := ids.Next();
      return Ok(ExprStmt(id, b.value.span, b.value));
    }

    // -------------------------------------------------------------------
    // Declarations

    /** `parse_annotations`: `@name` pairs while the token is `@`, each name
        `inline` or `synthesis` and none twice. */
    method ParseAnnotations() returns (r: Result<seq<ModifierEntry>, ParseError>)
      requires Valid()
      modifies this, ids, interner
      ensures Valid() && Advanced() && Grown() && paramIdx == old(paramIdx)
      ensures r == ReadAnnotations(tokens, old(cursor) - 1, [])
      ensures r.Ok? ==> cursor == old(cursor) + 2 * |r.value| && token.kind != Sym(Punct.At)
      ensures r.Ok? && r.value != [] ==> Consumed(old(cursor))
      ensures old(token.kind) != Sym(Punct.At) ==> cursor == old(cursor) && lcstEnd == old(lcstEnd) && ids.value == old(ids.value)
    {
      var mods: seq<ModifierEntry> := [];
      while token.kind == Sym(Punct.At)
        invariant Valid() && Advanced() && Grown() && paramIdx == old(paramIdx)
        invariant cursor == old(cursor) + 2 * |mods|
        invariant ReadAnnotations(tokens, cursor - 1, mods) == ReadAnnotations(tokens, old(cursor) - 1, [])
        invariant mods == [] ==> lcstEnd == old(lcstEnd) && ids.value == old(ids.value)
        invariant mods != [] ==> Consumed(old(cursor))
        decreases |tokens| - cursor
      {
        var _ := AdvanceToken();
        var ident := ExpectIdent();
        if ident.Err? {
          return Err(ident.error);
        }
        var m := ModifierNamed(interner.Str(ident.value.sym));
        if m.None? {
          return Err(UnknownAnnotation(token.kind));
        }
        if Contains(mods, m.value) {
          return Err(RedundantAnnotation(token.kind));
        }
        mods := mods + [ModifierEntry(m.value, token.span)];
      }
      return Ok(mods);
    }

    /** `parse_field`: `input`, `output`, `var` or `const`, a name, `: type`,
        an optional `= expression`, then `;`. The field gets an id of its
        own, drawn last. */
    method ParseField() returns (r: Result<FieldDecl, ParseError>)
      requires Valid()
      modifies this, ids, interner
      ensures Valid() && Advanced() && Grown() && paramIdx == old(paramIdx)
      ensures r.Ok? ==> Consumed(old(cursor)) && LastConsumed(Sym(Semicolon))
      ensures r.Ok? ==> SpansFrom(r.value.span, old(token.span.start))
      ensures r.Ok? ==> old(ids.value) <= r.value.id && r.value.id + 1 == ids.value
      ensures r.Ok? ==> At(old(cursor)).kind.Identifier? && r.value.name < |interner.names|
                        && interner.names[r.value.name] == At(old(cursor)).kind.text
      ensures !FieldKeyword(old(token.kind)) ==> r == Err(ExpectedFieldKeyword(old(token.kind))) && cursor == old(cursor)
    {
      var start := token.span.start;
      if !FieldKeyword(token.kind) {
        return Err(ExpectedFieldKeyword(token.kind));
      }
      var _ := AdvanceToken();
      var name := ExpectIdent();
      if name.Err? {
        return Err(name.error);
      }
      var tail := ParseFieldTail();
      if tail.Err? {
        return Err(tail.error);
      }
      var span := SpanFrom(start);
      var id := ids.Next();
      return Ok(FieldDecl(id, name.value.sym, span, tail.value.0, tail.value.1));
    }

    /** The part of `parse_field` after the name: `: type`, the optional
        `= expression` (`parse_var_assignment`'s form) and `;`. */
    method ParseFieldTail() returns (r: Result<(TypeIdent, Option<Expr>), ParseError>)
      requires Valid()
      modifies this, ids, interner
      ensures Valid() && Advanced() && Grown() && paramIdx == old(paramIdx)
      ensures r.Ok? ==> Consumed(old(cursor)) && LastConsumed(Sym(Semicolon))
      ensures old(token.kind) != Sym(Colon) ==> r == Err(ExpectedToken(Sym(Colon), old(token.kind)))
    {
      var colon := ExpectToken(Sym(Colon));
      if colon.Err? {
        return Err(colon.error);
      }
      var ty := ParseTypeIdent();
      if ty.Err? {
        return Err(ty.error);
      }
      var init := ParseVarAssignment();
      if init.Err? {
        return Err(init.error);
      }
      var semi := ExpectToken(Sym(Semicolon));
      if semi.Err? {
        return Err(semi.error);
      }
      return Ok((ty.value, init.value));
    }

    /** `parse_theorem` and `parse_lemma`, which differ only in the keyword:
        `kw name : expression;`. */
    method ParseProperty(kw: Keyword) returns (r: Result<PropertyDecl, ParseError>)
      requires Valid()
      modifies this, ids, interner
      ensures Valid() && Advanced() && Grown() && paramIdx == old(paramIdx)
      ensures r.Ok? ==> Consumed(old(cursor)) && LastConsumed(Sym(Semicolon))
      ensures r.Ok? ==> SpansFrom(r.value.span, old(token.span.start))
      ensures r.Ok? ==> old(ids.value) <= r.value.expr.id < r.value.id && r.value.id + 1 == ids.value
      ensures r.Ok? ==> At(old(cursor)).kind.Identifier? && r.value.name < |interner.names|
                        && interner.names[r.value.name] == At(old(cursor)).kind.text
      ensures old(token.kind) != Kw(kw) ==> r == Err(ExpectedToken(Kw(kw), old(token.kind)))
    {
      var start := token.span.start;
      var open := ExpectToken(Kw(kw));
      if open.Err? {
        return Err(open.error);
      }
      var name := ExpectIdent();
      if name.Err? {
        return Err(name.error);
      }
      var expr := ParsePropertyBody();
      if expr.Err? {
        return Err(expr.error);
      }
      var span := SpanFrom(start);
      var id := ids.Next();
      return Ok(PropertyDecl(id, name.value.sym, span, expr.value));
    }

    /** The `: expression;` of a theorem or lemma. */
    method ParsePropertyBody() returns (r: Result<Expr, ParseError>)
      requires Valid()
      modifies this, ids, interner
      ensures Valid() && Advanced() && Grown() && paramIdx == old(paramIdx)
      ensures r.Ok? ==> Consumed(old(cursor)) && LastConsumed(Sym(Semicolon))
      ensures r.Ok? ==> old(ids.value) <= r.value.id < ids.value
      ensures old(token.kind) != Sym(Colon) ==> r == Err(ExpectedToken(Sym(Colon), old(token.kind)))
    {
      var colon := ExpectToken(Sym(Colon));
      if colon.Err? {
        return Err(colon.error);
      }
      var expr := ParseExpression();
      if expr.Err? {
        return Err(expr.error);
      }
      var semi := ExpectToken(Sym(Semicolon));
      if semi.Err? {
        return Err(semi.error);
      }
      return expr;
    }

    /** `parse_procedure_params`: `(` and a list of parameters up to `)`.
        `param_idx` restarts at 0, so the parameters are numbered 0, 1, …
        in order. */
    method ParseProcedureParams()
      returns (r: Result<seq<ParamDecl>, ParseError>, ghost at: seq<nat>, ghost ends: seq<int>, ghost trailing: bool)
      requires Valid()
      modifies this, ids, interner
      ensures Valid() && Advanced() && Grown()
      ensures r.Ok? ==> Consumed(old(cursor)) && LastConsumed(Sym(RParen))
      ensures r.Ok? ==> ListRead(tokens, interner.names, ParamItems(r.value), at, ends, old(cursor), trailing, cursor - 2)
      ensures r.Ok? ==> (r.value == [] <==> At(old(cursor)).kind == Sym(RParen))
      ensures r.Ok? ==> paramIdx == |r.value| && forall i :: 0 <= i < |r.value| ==> r.value[i].idx == i
      ensures r.Ok? ==> forall i :: 0 <= i < |r.value| ==> old(ids.value) <= r.value[i].id < ids.value
      ensures r.Ok? ==> forall i, j :: 0 <= i < j < |r.value| ==> r.value[i].id < r.value[j].id
      ensures old(token.kind) != Sym(LParen) ==> r == Err(ExpectedToken(Sym(LParen), old(token.kind)))
    {
      at, ends, trailing := [], [], false;
      var open := ExpectToken(Sym(LParen));
      if open.Err? {
        return Err(open.error), at, ends, trailing;
      }
      r, at, ends, trailing := ParseParamList();
    }

    /** The parameters after `(`, numbered from 0, up to `)`. */
    method ParseParamList()
      returns (r: Result<seq<ParamDecl>, ParseError>, ghost at: seq<nat>, ghost ends: seq<int>, ghost trailing: bool)
      requires Valid()
      modifies this, ids, interner
      ensures Valid() && Advanced() && Grown()
      ensures r.Ok? ==> Consumed(old(cursor) - 1) && LastConsumed(Sym(RParen))
      ensures r.Ok? ==> ListRead(tokens, interner.names, ParamItems(r.value), at, ends, old(cursor) - 1, trailing, cursor - 2)
      ensures r.Ok? ==> (r.value == [] <==> old(token.kind) == Sym(RParen))
      ensures r.Ok? ==> paramIdx == |r.value| && forall i :: 0 <= i < |r.value| ==> r.value[i].idx == i
      ensures r.Ok? ==> forall i :: 0 <= i < |r.value| ==> old(ids.value) <= r.value[i].id < ids.value
      ensures r.Ok? ==> forall i, j :: 0 <= i < j < |r.value| ==> r.value[i].id < r.value[j].id
    {
      paramIdx := 0;
      var list; ghost var failAt;
      list, failAt, at, ends, trailing := ParseCommaList(Sym(RParen), ParamElem);
      if list.Err? {
        return Err(list.error), at, ends, trailing;
      }
      ParamsRoundTrip(list.value);
      return Ok(ParamsOf(list.value)), at, ends, trailing;
    }

    /** `parse_procedure_returns`: nothing unless the token is `returns`;
        then `returns` and a parameter list numbered from 0. */
    method ParseProcedureReturns()
      returns (r: Result<seq<ParamDecl>, ParseError>, ghost at: seq<nat>, ghost ends: seq<int>, ghost trailing: bool)
      requires Valid()
      modifies this, ids, interner
      ensures Valid() && Advanced() && Grown()
      ensures old(token.kind) != Kw(Returns) ==>
        r == Ok([]) && cursor == old(cursor) && lcstEnd == old(lcstEnd) && ids.value == old(ids.value) && paramIdx == old(paramIdx)
      ensures r.Ok? && old(token.kind) == Kw(Returns) ==> Consumed(old(cursor)) && LastConsumed(Sym(RParen))
      ensures r.Ok? ==> forall i :: 0 <= i < |r.value| ==> r.value[i].idx == i
      ensures r.Ok? ==> forall i :: 0 <= i < |r.value| ==> old(ids.value) <= r.value[i].id < ids.value
      ensures old(token.kind) == Kw(Returns) && At(old(cursor)).kind != Sym(LParen) ==>
        r == Err(ExpectedToken(Sym(LParen), At(old(cursor)).kind))
      ensures r.Ok? && old(token.kind) == Kw(Returns) ==>
        && ListRead(tokens, interner.names, ParamItems(r.value), at, ends, old(cursor) + 1, trailing, cursor - 2)
        && (r.value == [] <==> At(old(cursor) + 1).kind == Sym(RParen))
    {
      if token.kind != Kw(Returns) {
        return Ok([]), [], [], false;
      }
      var _ := AdvanceToken();
      r, at, ends, trailing := ParseProcedureParams();
    }

    /** `parse_procedure_modifies`: nothing unless the token is `modifies`;
        then `modifies` and a list of names up to `;`, counted in
        `param_idx` from 0. */
    method ParseProcedureModifies()
      returns (r: Result<seq<Name>, ParseError>, ghost at: seq<nat>, ghost ends: seq<int>, ghost trailing: bool)
      requires Valid()
      modifies this, ids, interner
      ensures Valid() && Advanced() && Grown()
      ensures old(token.kind) != Kw(Modifies) ==>
        r == Ok([]) && cursor == old(cursor) && lcstEnd == old(lcstEnd) && ids.value == old(ids.value) && paramIdx == old(paramIdx)
      ensures r.Ok? && old(token.kind) == Kw(Modifies) ==>
        && Consumed(old(cursor)) && LastConsumed(Sym(Semicolon)) && paramIdx == |r.value|
      ensures r.Ok? ==> forall i :: 0 <= i < |r.value| ==> old(ids.value) <= r.value[i].id < ids.value
      ensures r.Ok? && old(token.kind) == Kw(Modifies) ==>
        && ListRead(tokens, interner.names, NameItems(r.value), at, ends, old(cursor), trailing, cursor - 2)
        && (r.value == [] <==> At(old(cursor)).kind == Sym(Semicolon))
    {
      at, ends, trailing := [], [], false;
      if token.kind != Kw(Modifies) {
        return Ok([]), at, ends, trailing;
      }
      var _ := AdvanceToken();
      r, at, ends, trailing := ParseModifiedNames();
    }

    /** The names after `modifies`, counted in `param_idx` from 0, up to
        `;`. */
    method ParseModifiedNames()
      returns (r: Result<seq<Name>, ParseError>, ghost at: seq<nat>, ghost ends: seq<int>, ghost trailing: bool)
      requires Valid()
      modifies this, ids, interner
      ensures Valid() && Advanced() && Grown()
      ensures r.Ok? ==> Consumed(old(cursor) - 1) && LastConsumed(Sym(Semicolon)) && paramIdx == |r.value|
      ensures r.Ok? ==> forall i :: 0 <= i < |r.value| ==> old(ids.value) <= r.value[i].id < ids.value
      ensures r.Ok? ==> ListRead(tokens, interner.names, NameItems(r.value), at, ends, old(cursor) - 1, trailing, cursor - 2)
      ensures r.Ok? ==> (r.value == [] <==> old(token.kind) == Sym(Semicolon))
    {
      paramIdx := 0;
      var list; ghost var failAt;
      list, failAt, at, ends, trailing := ParseCommaList(Sym(Semicolon), CountedNameElem);
      if list.Err? {
        return Err(list.error), at, ends, trailing;
      }
      NamesRoundTrip(list.value);
      return Ok(NamesOf(list.value)), at, ends, trailing;
    }

    /** `parse_procedure_block`: `;` for no body, or a block, unwrapped
        from its block expression. */
    method ParseProcedureBlock() returns (r: Result<Option<BlockNode>, ParseError>)
      requires Valid()
      modifies this, ids, interner
      ensures Valid() && Advanced() && Grown() && paramIdx == old(paramIdx)
      ensures r.Ok? ==> Consumed(old(cursor))
      ensures old(token.kind) == Sym(Semicolon) ==> r == Ok(None)
      ensures r.Ok? && old(token.kind) != Sym(Semicolon) ==> r.value.Some?
      ensures r.Ok? && r.value.Some? ==>
        && SpansFrom(r.value.value.span, old(token.span.start)) && LastConsumed(Sym(RBrace))
        && old(ids.value) <= r.value.value.id < ids.value
      ensures old(token.kind) != Sym(Semicolon) && old(token.kind) != Sym(LBrace) ==>
        r == Err(ExpectedToken(Sym(LBrace), old(token.kind)))
    {
      if token.kind == Sym(Semicolon) {
        var _ := AdvanceToken();
        return Ok(None);
      }
      var b, read, starts, failAt := ParseBlock();
      if b.Err? {
        return Err(b.error);
      }
      return Ok(Some(BlockNode(b.value.id, b.value.span, b.value.stmts)));
    }

    /** `parse_init`, `parse_next` and `parse_control`, which differ only in
        the keyword: `kw` and a block; `kw;` is an error. */
    method ParseTransition(kw: Keyword) returns (r: Result<TransitionBlock, ParseError>)
      requires Valid()
      modifies this, ids, interner
      ensures Valid() && Advanced() && Grown() && paramIdx == old(paramIdx)
      ensures r.Ok? ==> Consumed(old(cursor)) && LastConsumed(Sym(RBrace))
      ensures r.Ok? ==> SpansFrom(r.value.span, old(token.span.start)) && At(old(cursor)).kind == Sym(LBrace)
      ensures r.Ok? ==> old(ids.value) <= r.value.block.id < r.value.id && r.value.id + 1 == ids.value
      ensures old(token.kind) != Kw(kw) ==> r == Err(ExpectedToken(Kw(kw), old(token.kind)))
      ensures old(token.kind) == Kw(kw) && At(old(cursor)).kind == Sym(Semicolon) ==> r == Err(ExpectedBlock)
    {
      var start := token.span.start;
      var open := ExpectToken(Kw(kw));
      if open.Err? {
        return Err(open.error);
      }
      var block := ParseProcedureBlock();
      if block.Err? {
        return Err(block.error);
      }
      if block.value.None? {
        return Err(ExpectedBlock);
      }
      var span := SpanFrom(start);
      var id := ids.Next();
      return Ok(TransitionBlock(id, span, block.value.value));
    }

    /** The name and parameter list that open a function, a `define` and
        a procedure. */
    method ParseHead() returns (r: Result<(Name, seq<ParamDecl>), ParseError>)
      requires Valid()
      modifies this, ids, interner
      ensures Valid() && Advanced() && Grown()
      ensures r.Ok? ==> Consumed(old(cursor)) && LastConsumed(Sym(RParen))
      ensures r.Ok? ==> old(token.kind).Identifier? && r.value.0.id == old(ids.value)
      ensures r.Ok? ==> r.value.0.sym < |interner.names| && interner.names[r.value.0.sym] == old(token.kind).text
      ensures r.Ok? ==> forall i :: 0 <= i < |r.value.1| ==> r.value.1[i].idx == i
      ensures r.Ok? ==> forall i :: 0 <= i < |r.value.1| ==> r.value.0.id < r.value.1[i].id < ids.value
      ensures !old(token.kind).Identifier? ==> r == Err(ExpectedIdentifier(old(token.kind)))
    {
      var name := ExpectIdent();
      if name.Err? {
        return Err(name.error);
      }
      var params, paramsAt, paramsEnds, paramsTrailing := ParseProcedureParams();
      if params.Err? {
        return Err(params.error);
      }
      return Ok((name.value, params.value));
    }

    /** `parse_function`: `function name(params) : type;`, the return type
        optional. The function is to be synthesised iff it carries
        `@synthesis`. */
    method ParseFunction(mods: seq<ModifierEntry>) returns (r: Result<FunctionDecl, ParseError>)
      requires Valid()
      modifies this, ids, interner
      ensures Valid() && Advanced() && Grown()
      ensures r.Ok? ==> Consumed(old(cursor)) && LastConsumed(Sym(Semicolon))
      ensures r.Ok? ==> SpansFrom(r.value.span, old(token.span.start))
      ensures r.Ok? ==> r.value.toSynthesize == Contains(mods, Synthesis)
      ensures r.Ok? ==> forall i :: 0 <= i < |r.value.params| ==> r.value.params[i].idx == i
      ensures r.Ok? ==> old(ids.value) <= r.value.id && r.value.id + 1 == ids.value
      ensures old(token.kind) != Kw(Function) ==> r == Err(ExpectedToken(Kw(Function), old(token.kind)))
    {
      var start := token.span.start;
      var open := ExpectToken(Kw(Function));
      if open.Err? {
        return Err(open.error);
      }
      var head := ParseTypedHead();
      if head.Err? {
        return Err(head.error);
      }
      var semi := ExpectToken(Sym(Semicolon));
      if semi.Err? {
        return Err(semi.error);
      }
      var span := SpanFrom(start);
      var id := ids.Next();
      return Ok(FunctionDecl(id, head.value.0.sym, span, Contains(mods, Synthesis), head.value.1, head.value.2));
    }

    /** The name, parameter list and optional return type that open a
        function and a `define`. */
    method ParseTypedHead() returns (r: Result<(Name, seq<ParamDecl>, Option<TypeIdent>), ParseError>)
      requires Valid()
      modifies this, ids, interner
      ensures Valid() && Advanced() && Grown()
      ensures r.Ok? ==> Consumed(old(cursor)) && r.value.0.id == old(ids.value)
      ensures r.Ok? ==> old(token.kind).Identifier? && r.value.0.sym < |interner.names| && interner.names[r.value.0.sym] == old(token.kind).text
      ensures r.Ok? ==> forall i :: 0 <= i < |r.value.1| ==> r.value.1[i].idx == i
      ensures !old(token.kind).Identifier? ==> r == Err(ExpectedIdentifier(old(token.kind)))
    {
      var head := ParseHead();
      if head.Err? {
        return Err(head.error);
      }
      ghost var names1 := interner.names;
      var ty := ParseOptionalType();
      if ty.Err? {
        return Err(ty.error);
      }
      assert interner.names[head.value.0.sym] == names1[head.value.0.sym];
      return Ok((head.value.0, head.value.1, ty.value));
    }

    /** `parse_define`: `define name(params) : type = expression;`, the
        return type optional. */
    method ParseDefine() returns (r: Result<MacroDecl, ParseError>)
      requires Valid()
      modifies this, ids, interner
      ensures Valid() && Advanced() && Grown()
      ensures r.Ok? ==> Consumed(old(cursor)) && LastConsumed(Sym(Semicolon))
      ensures r.Ok? ==> SpansFrom(r.value.span, old(token.span.start))
      ensures r.Ok? ==> forall i :: 0 <= i < |r.value.params| ==> r.value.params[i].idx == i
      ensures r.Ok? ==> old(ids.value) <= r.value.expr.id < r.value.id && r.value.id + 1 == ids.value
      ensures old(token.kind) != Kw(Define) ==> r == Err(ExpectedToken(Kw(Define), old(token.kind)))
    {
      var start := token.span.start;
      var open := ExpectToken(Kw(Define));
      if open.Err? {
        return Err(open.error);
      }
      var head := ParseTypedHead();
      if head.Err? {
        return Err(head.error);
      }
      var expr := ParseDefineBody();
      if expr.Err? {
        return Err(expr.error);
      }
      var span := SpanFrom(start);
      var id := ids.Next();
      return Ok(MacroDecl(id, head.value.0.sym, span, head.value.1, head.value.2, expr.value));
    }

    /** The `= expression;` of a `define`. */
    method ParseDefineBody() returns (r: Result<Expr, ParseError>)
      requires Valid()
      modifies this, ids, interner
      ensures Valid() && Advanced() && Grown() && paramIdx == old(paramIdx)
      ensures r.Ok? ==> Consumed(old(cursor)) && LastConsumed(Sym(Semicolon))
      ensures r.Ok? ==> old(ids.value) <= r.value.id < ids.value
      ensures old(token.kind) != Op(Operator.Eq) ==> r == Err(ExpectedToken(Op(Operator.Eq), old(token.kind)))
    {
      var eq := ExpectToken(Op(Operator.Eq));
      if eq.Err? {
        return Err(eq.error);
      }
      var expr := ParseExpression();
      if expr.Err? {
        return Err(expr.error);
      }
      var semi := ExpectToken(Sym(Semicolon));
      if semi.Err? {
        return Err(semi.error);
      }
      return expr;
    }

    /** `parse_procedure`: `procedure name(params)`, any number of
        `returns`, `modifies`, `requires` and `ensures` clauses, and a
        block or `;`. The modifiers are accepted and not kept. */
    method ParseProcedure(mods: seq<ModifierEntry>) returns (r: Result<ProcedureDecl, ParseError>)
      requires Valid()
      modifies this, ids, interner
      ensures Valid() && Advanced() && Grown()
      ensures r.Ok? ==> Consumed(old(cursor)) && SpansFrom(r.value.span, old(token.span.start))
      ensures r.Ok? ==> forall i :: 0 <= i < |r.value.params| ==> r.value.params[i].idx == i
      ensures r.Ok? ==> forall i :: 0 <= i < |r.value.params| ==> old(ids.value) <= r.value.params[i].id < r.value.id
      ensures r.Ok? ==> ClausesIn(ClausesOf(r.value), old(ids.value), r.value.id)
      ensures r.Ok? && r.value.body.Some? ==> old(ids.value) <= r.value.body.value.id < r.value.id
      ensures r.Ok? ==> old(ids.value) <= r.value.id && r.value.id + 1 == ids.value
      ensures old(token.kind) != Kw(Procedure) ==> r == Err(ExpectedToken(Kw(Procedure), old(token.kind)))
    {
      var start := token.span.start;
      var open := ExpectToken(Kw(Procedure));
      if open.Err? {
        return Err(open.error);
      }
      var head := ParseHead();
      if head.Err? {
        return Err(head.error);
      }
      var tail := ParseProcedureTail();
      if tail.Err? {
        return Err(tail.error);
      }
      var span := SpanFrom(start);
      var id := ids.Next();
      var (c, block) := tail.value;
      return Ok(ProcedureDecl(id, head.value.0.sym, span, head.value.1,
                              c.returnParams, c.modifiesNames, c.requiresClauses, c.ensuresClauses, block));
    }

    /** What follows the head of a procedure: its clauses, then its block
        or `;`. */
    method ParseProcedureTail() returns (r: Result<(Clauses, Option<BlockNode>), ParseError>)
      requires Valid()
      modifies this, ids, interner
      ensures Valid() && Advanced() && Grown()
      ensures r.Ok? ==> Consumed(old(cursor)) && ClausesIn(r.value.0, old(ids.value), ids.value)
      ensures r.Ok? && r.value.1.Some? ==> old(ids.value) <= r.value.1.value.id < ids.value
    {
      var clauses := ParseProcedureClauses();
      if clauses.Err? {
        return Err(clauses.error);
      }
      ghost var mid := ids.value;
      var block := ParseProcedureBlock();
      if block.Err? {
        return Err(block.error);
      }
      ClausesWiden(clauses.value, old(ids.value), mid, ids.value);
      return Ok((clauses.value, block.value));
    }

    /** The clause loop of `parse_procedure`: while the token opens a
        clause, one round reads whichever of `returns`, `modifies`,
        `requires` and `ensures` come next, in that order; the lists
        collect over the rounds. */
    method ParseProcedureClauses() returns (r: Result<Clauses, ParseError>)
      requires Valid()
      modifies this, ids, interner
      ensures Valid() && Advanced() && Grown()
      ensures r.Ok? ==> !ClauseKeyword(token.kind) && ClausesIn(r.value, old(ids.value), ids.value)
      ensures r.Ok? && ClauseKeyword(old(token.kind)) ==> Consumed(old(cursor))
      ensures !ClauseKeyword(old(token.kind)) ==>
        r == Ok(NoClauses) && cursor == old(cursor) && lcstEnd == old(lcstEnd) && ids.value == old(ids.value)
      ensures r.Ok? ==> ClausesOpen(r.value, old(token.kind), At(old(cursor)).kind, At(old(cursor) + 1).kind)
    {
      var c := NoClauses;
      ghost var rounds := 0;
      while ClauseKeyword(token.kind)
        invariant Valid() && Advanced() && Grown()
        invariant ClausesIn(c, old(ids.value), ids.value)
        invariant rounds == 0 ==> c == NoClauses && cursor == old(cursor) && lcstEnd == old(lcstEnd) && ids.value == old(ids.value)
        invariant rounds == 0 ==> token == old(token)
        invariant !ClauseKeyword(old(token.kind)) ==> rounds == 0
        invariant rounds > 0 ==> Consumed(old(cursor))
        invariant rounds > 0 ==> ClausesOpen(c, old(token.kind), At(old(cursor)).kind, At(old(cursor) + 1).kind)
        decreases |tokens| - cursor
      {
        ghost var mid := ids.value;
        var round := ParseClauseRound();
        if round.Err? {
          return Err(round.error);
        }
        ClausesJoin(c, round.value, old(ids.value), mid, ids.value);
        c, rounds := Append(c, round.value), rounds + 1;
      }
      return Ok(c);
    }

    /** One turn of the clause loop of `parse_procedure`. */
    method ParseClauseRound() returns (r: Result<Clauses, ParseError>)
      requires Valid() && ClauseKeyword(token.kind)
      modifies this, ids, interner
      ensures Valid() && Advanced() && Grown()
      ensures r.Ok? ==> Consumed(old(cursor)) && ClausesIn(r.value, old(ids.value), ids.value)
      ensures r.Ok? ==> |r.value.requiresClauses| <= 1 && |r.value.ensuresClauses| <= 1
      ensures r.Ok? ==> ClausesOpen(r.value, old(token.kind), At(old(cursor)).kind, At(old(cursor) + 1).kind)
      ensures r.Ok? && (old(token.kind) == Kw(Requires) || old(token.kind) == Kw(Ensures)) ==>
        r.value.returnParams == [] && r.value.modifiesNames == []
      ensures r.Ok? && old(token.kind) == Kw(Ensures) ==> r.value.requiresClauses == []
      ensures r.Ok? && old(token.kind) == Kw(Modifies) ==> r.value.returnParams == []
    {
      var sig, m, ra, re, rt, ma, me, mt := ParseSignatureClauses();
      if sig.Err? {
        return Err(sig.error);
      }
      var con, m2 := ParseContractClauses();
      if con.Err? {
        return Err(con.error);
      }
      return Ok(Clauses(sig.value.0, sig.value.1, Picked(con.value.0), Picked(con.value.1)));
    }

    /** The `returns` and `modifies` clauses of a round, each when its
        keyword is the token. */
    method ParseSignatureClauses()
      returns (r: Result<(seq<ParamDecl>, seq<Name>), ParseError>, ghost mid: nat,
               ghost retsAt: seq<nat>, ghost retsEnds: seq<int>, ghost retsTrailing: bool,
               ghost modsAt: seq<nat>, ghost modsEnds: seq<int>, ghost modsTrailing: bool)
      requires Valid()
      modifies this, ids, interner
      ensures Valid() && Advanced() && Grown()
      ensures r.Ok? ==> forall i :: 0 <= i < |r.value.0| ==> old(ids.value) <= r.value.0[i].id < ids.value
      ensures r.Ok? ==> forall i :: 0 <= i < |r.value.1| ==> old(ids.value) <= r.value.1[i].id < ids.value
      ensures r.Ok? && (old(token.kind) == Kw(Returns) || old(token.kind) == Kw(Modifies)) ==> Consumed(old(cursor))
      ensures old(token.kind) != Kw(Returns) && old(token.kind) != Kw(Modifies) ==>
        r == Ok(([], [])) && cursor == old(cursor) && lcstEnd == old(lcstEnd) && ids.value == old(ids.value)
      ensures r.Ok? ==> old(cursor) <= mid <= cursor
      ensures r.Ok? && old(token.kind) != Kw(Returns) ==> r.value.0 == [] && mid == old(cursor)
      ensures r.Ok? && old(token.kind) == Kw(Returns) ==>
        && 2 <= mid && (r.value.0 == [] <==> At(old(cursor) + 1).kind == Sym(RParen))
        && ListRead(tokens, interner.names, ParamItems(r.value.0), retsAt, retsEnds, old(cursor) + 1, retsTrailing, mid - 2)
      ensures r.Ok? && tokens[mid - 1].kind != Kw(Modifies) ==> r.value.1 == [] && cursor == mid
      ensures r.Ok? && tokens[mid - 1].kind == Kw(Modifies) ==>
        && (r.value.1 == [] <==> At(mid).kind == Sym(Semicolon))
        && ListRead(tokens, interner.names, NameItems(r.value.1), modsAt, modsEnds, mid, modsTrailing, cursor - 2)
    {
      retsAt, retsEnds, retsTrailing := [], [], false;
      modsAt, modsEnds, modsTrailing := [], [], false;
      var rets: seq<ParamDecl> := [];
      if token.kind == Kw(Returns) {
        var x;
        x, retsAt, retsEnds, retsTrailing := ParseProcedureReturns();
        if x.Err? {
          return Err(x.error), cursor, retsAt, retsEnds, retsTrailing, modsAt, modsEnds, modsTrailing;
        }
        rets := x.value;
      }
      mid := cursor;
      ghost var names := interner.names;
      var mods: seq<Name> := [];
      if token.kind == Kw(Modifies) {
        var x;
        x, modsAt, modsEnds, modsTrailing := ParseProcedureModifies();
        if x.Err? {
          return Err(x.error), mid, retsAt, retsEnds, retsTrailing, modsAt, modsEnds, modsTrailing;
        }
        mods := x.value;
      }
      if old(token.kind) == Kw(Returns) {
        ListReadNames(tokens, names, interner.names, ParamItems(rets), retsAt, retsEnds, old(cursor) + 1, retsTrailing, mid - 2);
      }
      return Ok((rets, mods)), mid, retsAt, retsEnds, retsTrailing, modsAt, modsEnds, modsTrailing;
    }

    /** The `requires` and `ensures` clauses of a round, each when its
        keyword is the token. */
    method ParseContractClauses()
      returns (r: Result<(Option<PredicateStmt>, Option<PredicateStmt>), ParseError>, ghost mid: nat)
      requires Valid()
      modifies this, ids, interner
      ensures Valid() && Advanced() && Grown() && paramIdx == old(paramIdx)
      ensures r.Ok? && r.value.0.Some? ==> old(ids.value) <= r.value.0.value.id < ids.value
      ensures r.Ok? && r.value.1.Some? ==> old(ids.value) <= r.value.1.value.id < ids.value
      ensures r.Ok? && (old(token.kind) == Kw(Requires) || old(token.kind) == Kw(Ensures)) ==> Consumed(old(cursor))
      ensures old(token.kind) != Kw(Requires) && old(token.kind) != Kw(Ensures) ==>
        r == Ok((None, None)) && cursor == old(cursor) && lcstEnd == old(lcstEnd) && ids.value == old(ids.value)
      ensures r.Ok? ==> old(cursor) <= mid <= cursor
      ensures r.Ok? ==> (r.value.0.Some? <==> old(token.kind) == Kw(Requires))
      ensures r.Ok? && old(token.kind) != Kw(Requires) ==> mid == old(cursor)
      ensures r.Ok? && old(token.kind) == Kw(Requires) ==> 2 <= mid && tokens[mid - 2].kind == Sym(Semicolon)
      ensures r.Ok? ==> (r.value.1.Some? <==> tokens[mid - 1].kind == Kw(Ensures))
      ensures r.Ok? && r.value.1.None? ==> cursor == mid
    {
      var req: Option<PredicateStmt> := None;
      if token.kind == Kw(Requires) {
        var x := ParseClause(Requires);
        if x.Err? {
          return Err(x.error), cursor;
        }
        req := Some(x.value);
      }
      mid := cursor;
      var ens: Option<PredicateStmt> := None;
      if token.kind == Kw(Ensures) {
        var x := ParseClause(Ensures);
        if x.Err? {
          return Err(x.error), mid;
        }
        ens := Some(x.value);
      }
      return Ok((req, ens)), mid;
    }

    /** `parse_type_decl`, after the `type` keyword: `name = enum { … };`
        or `name = type;`. A declaration takes its name's id. The arm of
        the alias that reads the right-hand side is the same code as
        `parse_type_ident`. */
    method ParseTypeDecl() returns (r: Result<TypeDecl, ParseError>)
      requires Valid()
      modifies this, ids, interner
      ensures Valid() && Advanced() && Grown() && paramIdx == old(paramIdx)
      ensures r.Ok? ==> Consumed(old(cursor)) && LastConsumed(Sym(Semicolon))
      ensures r.Ok? ==> r.value.id == old(ids.value) && r.value.id < ids.value
      ensures r.Ok? ==> old(token.kind).Identifier? && r.value.name < |interner.names|
                        && interner.names[r.value.name] == old(token.kind).text
      ensures r.Ok? ==> (r.value.EnumDecl? <==> At(old(cursor) + 1).kind == Kw(Enum))
      ensures r.Ok? && r.value.AliasDecl? ==>
        SpansFrom(r.value.span, old(token.span.start)) && old(ids.value) < r.value.aliased.id
      ensures r.Ok? && r.value.EnumDecl? ==> r.value.span.Span?
      ensures r.Ok? && r.value.EnumDecl? && At(old(cursor) + 2).kind == Sym(LBrace) ==>
        r.value.span.start == At(old(cursor) + 2).span.start
      ensures r.Ok? && r.value.EnumDecl? && At(old(cursor) + 2).kind != Sym(LBrace) ==>
        r.value.span.start == At(old(cursor) + 1).span.start
      ensures !old(token.kind).Identifier? ==> r == Err(ExpectedIdentifier(old(token.kind)))
    {
      var start := token.span.start;
      var name := ExpectIdent();
      if name.Err? {
        return Err(name.error);
      }
      var eq := ExpectToken(Op(Operator.Eq));
      if eq.Err? {
        return Err(eq.error);
      }
      ghost var k := cursor - 1;
      assert tokens[k] == token;
      if token.kind == Kw(Enum) {
        r := ParseEnumRest(name.value);
        return;
      }
      var rhs := ParseTypeIdent();
      if rhs.Err? {
        return Err(rhs.error);
      }
      var semi := ExpectToken(Sym(Semicolon));
      if semi.Err? {
        return Err(semi.error);
      }
      var span := SpanFrom(start);
      return Ok(AliasDecl(name.value.id, span, name.value.sym, rhs.value));
    }

    /** The enum arm of `parse_type_decl`: `enum`, the variants in braces
        when a `{` follows, and `;`. With braces the span runs from `{` to
        `}`, as in the source; without them it is the span of `enum` itself
        (see `EnumSpanLengthAsWritten` for the start the source takes). */
    method ParseEnumRest(name: Name) returns (r: Result<TypeDecl, ParseError>)
      requires Valid() && token.kind == Kw(Enum)
      modifies this, ids, interner
      ensures Valid() && Advanced() && Grown() && paramIdx == old(paramIdx)
      ensures r.Ok? ==> Consumed(old(cursor)) && LastConsumed(Sym(Semicolon))
      ensures r.Ok? ==> r.value.EnumDecl? && r.value.id == name.id && r.value.name == name.sym
      ensures r.Ok? ==> r.value.span.Span? && EndOf(r.value.span) == EndOf(tokens[cursor - 3].span)
      ensures r.Ok? && At(old(cursor)).kind == Sym(LBrace) ==> r.value.span.start == At(old(cursor)).span.start
      ensures r.Ok? && At(old(cursor)).kind != Sym(LBrace) ==> r.value.span.start == old(token.span.start)
      ensures r.Ok? && At(old(cursor)).kind != Sym(LBrace) ==> r.value.variants == []
      ensures r.Ok? && At(old(cursor)).kind == Sym(LBrace) ==> tokens[cursor - 3].kind == Sym(RBrace)
      ensures r.Ok? && At(old(cursor)).kind == Sym(LBrace) ==>
        VariantsAt(tokens, interner.names, r.value.variants, old(cursor) + 1, cursor - 3)
    {
      var enumStart := token.span.start;
      var _ := AdvanceToken();
      var start := if token.kind == Sym(LBrace) then token.span.start else enumStart;
      ghost var c0 := cursor;
      var variants := ParseEnumVariants();
      if variants.Err? {
        return Err(variants.error);
      }
      if c0 < cursor {
        StartBeforeLaterEnd(tokens, c0 - 1, cursor - 2);
      }
      var span := SpanFrom(start);
      ghost var c1 := cursor;
      var semi := ExpectToken(Sym(Semicolon));
      if semi.Err? {
        return Err(semi.error);
      }
      assert cursor == c1 + 1;
      return Ok(EnumDecl(name.id, span, name.sym, variants.value));
    }

    /** The variants of an enum: names in braces when a `{` follows, and
        none otherwise. */
    method ParseEnumVariants() returns (r: Result<seq<Symbol>, ParseError>)
      requires Valid()
      modifies this, ids, interner
      ensures Valid() && Advanced() && Grown() && paramIdx == old(paramIdx)
      ensures old(token.kind) != Sym(LBrace) ==> r == Ok([]) && cursor == old(cursor) && lcstEnd == old(lcstEnd)
      ensures r.Ok? && old(token.kind) == Sym(LBrace) ==> Consumed(old(cursor)) && LastConsumed(Sym(RBrace))
      ensures r.Ok? && old(token.kind) == Sym(LBrace) ==> VariantsAt(tokens, interner.names, r.value, old(cursor), cursor - 2)
    {
      if token.kind != Sym(LBrace) {
        return Ok([]);
      }
      var _ := AdvanceToken();
      var list, failAt, at, ends, trailing := ParseCommaList(Sym(RBrace), NameElem);
      if list.Err? {
        return Err(list.error);
      }
      VariantsEveryOther(tokens, interner.names, list.value, at, ends, old(cursor), trailing, cursor - 2);
      return Ok(SymbolsOf(NamesOf(list.value)));
    }

    /** `parse`: read the first token, then top-level elements up to the
        end of the input; the modules are stored in the tree only when all
        of them parsed. */
    method Parse() returns (r: Result<(), ParseError>)
      requires Unprimed()
      modifies this, ids, interner, cst
      ensures r.Ok? ==> token.kind == End
      ensures r.Ok? ==> forall i :: 0 <= i < |cst.modules| ==> old(ids.value) <= cst.modules[i].id < ids.value
      ensures r.Ok? ==> forall i, j :: 0 <= i < j < |cst.modules| ==> cst.modules[i].id < cst.modules[j].id
      ensures r.Err? ==> cst.modules == old(cst.modules)
    {
      Init();
      var modules: seq<ModuleDecl> := [];
      while token.kind != End
        invariant Valid() && old(ids.value) <= ids.value && cst.modules == old(cst.modules)
        invariant forall i :: 0 <= i < |modules| ==> old(ids.value) <= modules[i].id < ids.value
        invariant forall i, j :: 0 <= i < j < |modules| ==> modules[i].id < modules[j].id
        decreases |tokens| - cursor
      {
        var m := ParseTopLevelElement();
        if m.Err? {
          return Err(m.error);
        }
        modules := modules + [m.value];
      }
      cst.modules := modules;
      return Ok(());
    }

    /** `parse_top_level_element`: a module, which carries no annotation. */
    method ParseTopLevelElement() returns (r: Result<ModuleDecl, ParseError>)
      requires Valid()
      modifies this, ids, interner
      ensures Valid() && Advanced() && Grown()
      ensures r.Ok? ==> Consumed(old(cursor)) && old(ids.value) <= r.value.id < ids.value
      ensures r.Ok? ==> ReadAnnotations(tokens, old(cursor) - 1, []) == Ok([]) && old(token.kind) == Kw(Module)
      ensures old(token.kind) != Kw(Module) && old(token.kind) != Sym(Punct.At) ==>
        r == Err(ExpectedTopLevelElement(old(token.kind)))
    {
      var mods := ParseAnnotations();
      if mods.Err? {
        return Err(mods.error);
      }
      if token.kind != Kw(Module) {
        return Err(ExpectedTopLevelElement(token.kind));
      }
      var banned := BanModifiers(mods.value);
      if banned.Err? {
        return Err(banned.error);
      }
      var m, items, starts := ParseModule();
      return m;
    }

    /** `parse_module`: `module name` and the body; the module's id is
        drawn after its name's. */
    method ParseModule() returns (r: Result<ModuleDecl, ParseError>, ghost items: seq<ModuleItem>, ghost starts: seq<nat>)
      requires Valid()
      modifies this, ids, interner
      ensures Valid() && Advanced() && Grown()
      ensures r.Ok? ==> Consumed(old(cursor)) && r.value.id == old(ids.value) + 1 && r.value.id < ids.value
      ensures r.Ok? ==> At(old(cursor)).kind.Identifier? && r.value.name < |interner.names|
                        && interner.names[r.value.name] == At(old(cursor)).kind.text
      ensures r.Ok? ==> r.value == AddItems(EmptyModule(r.value.id, r.value.name), items)
      ensures r.Ok? && At(old(cursor) + 1).kind != Sym(LBrace) ==> items == []
      ensures r.Ok? && At(old(cursor) + 1).kind == Sym(LBrace) ==>
        LastConsumed(Sym(RBrace)) && ElementsAt(tokens, items, starts, old(cursor) + 2, cursor - 2)
      ensures old(token.kind) != Kw(Module) ==> r == Err(ExpectedToken(Kw(Module), old(token.kind)))
    {
      items, starts := [], [];
      var head := ParseModuleHead();
      if head.Err? {
        return Err(head.error), items, starts;
      }
      ghost var tk := token.kind;
      assert At(old(cursor) + 1).kind == tk;
      var m := EmptyModule(head.value.0, head.value.1);
      r, items, starts := ParseModuleBody(m);
    }

    /** The start of `parse_module`: `module name`, then the module's id. */
    method ParseModuleHead() returns (r: Result<(nat, Symbol), ParseError>)
      requires Valid()
      modifies this, ids, interner
      ensures Valid() && Advanced() && Grown()
      ensures r.Ok? ==> Consumed(old(cursor)) && cursor == old(cursor) + 2
      ensures r.Ok? ==> r.value.0 == old(ids.value) + 1 && ids.value == old(ids.value) + 2
      ensures r.Ok? ==> At(old(cursor)).kind.Identifier? && r.value.1 < |interner.names|
                        && interner.names[r.value.1] == At(old(cursor)).kind.text
      ensures old(token.kind) != Kw(Module) ==> r == Err(ExpectedToken(Kw(Module), old(token.kind)))
    {
      var open := ExpectToken(Kw(Module));
      if open.Err? {
        return Err(open.error);
      }
      ghost var k := cursor - 1;
      ghost var tk := token.kind;
      assert tokens[k].kind == tk;
      var name := ExpectIdent();
      if name.Err? {
        return Err(name.error);
      }
      var id := ids.Next();
      return Ok((id, name.value.sym));
    }

    /** `parse_module_body`: nothing unless the token is `{`; otherwise
        elements up to the closing `}`, each added to the module in turn. */
    method ParseModuleBody(m: ModuleDecl)
      returns (r: Result<ModuleDecl, ParseError>, ghost items: seq<ModuleItem>, ghost starts: seq<nat>)
      requires Valid()
      modifies this, ids, interner
      ensures Valid() && Advanced() && Grown()
      ensures r.Ok? ==> r.value == AddItems(m, items)
      ensures r.Ok? && old(token.kind) == Sym(LBrace) ==> Consumed(old(cursor)) && LastConsumed(Sym(RBrace))
      ensures r.Ok? && old(token.kind) == Sym(LBrace) ==> ElementsAt(tokens, items, starts, old(cursor), cursor - 2)
      ensures old(token.kind) != Sym(LBrace) ==>
        r == Ok(m) && items == [] && cursor == old(cursor) && lcstEnd == old(lcstEnd) && ids.value == old(ids.value)
    {
      items, starts := [], [];
      if token.kind != Sym(LBrace) {
        return Ok(m), items, starts;
      }
      var _ := AdvanceToken();
      var body := m;
      while token.kind != Sym(RBrace)
        invariant Valid() && Advanced() && Grown() && old(cursor) < cursor
        invariant body == AddItems(m, items)
        invariant ElementsAt(tokens, items, starts, old(cursor), cursor - 1)
        decreases |tokens| - cursor
      {
        ghost var s := cursor - 1;
        var it := ParseNextElement(items, starts, old(cursor));
        if it.Err? {
          return Err(it.error), items, starts;
        }
        assert (items + [it.value])[..|items|] == items;
        body, items, starts := AddItem(body, it.value), items + [it.value], starts + [s];
      }
      var _ := AdvanceToken();
      return Ok(body), items, starts;
    }

    /** The next element of a module body, read where the elements before
        it end. */
    method ParseNextElement(ghost items: seq<ModuleItem>, ghost starts: seq<nat>, ghost lo: int)
      returns (r: Result<ModuleItem, ParseError>)
      requires Valid() && ElementsAt(tokens, items, starts, lo, cursor - 1)
      modifies this, ids, interner
      ensures Valid() && Advanced() && Grown()
      ensures r.Ok? ==> Consumed(old(cursor)) && ElementsAt(tokens, items + [r.value], starts + [old(cursor) - 1], lo, cursor - 1)
    {
      ghost var s := cursor - 1;
      ghost var mods;
      r, mods := ParseModuleElement();
      if r.Ok? {
        ElementsGrow(tokens, items, starts, lo, s, r.value, cursor - 2);
      }
    }

    /** One element of a module body: its annotations, the keyword that
        starts it, the check that the annotations are allowed there, and
        the element itself. */
    method ParseModuleElement() returns (r: Result<ModuleItem, ParseError>, ghost mods: seq<ModifierEntry>)
      requires Valid()
      modifies this, ids, interner
      ensures Valid() && Advanced() && Grown()
      ensures r.Ok? ==> Consumed(old(cursor))
      ensures ReadAnnotations(tokens, old(cursor) - 1, []).Err? ==>
        r.Err? && r.error == ReadAnnotations(tokens, old(cursor) - 1, []).error
      ensures ReadAnnotations(tokens, old(cursor) - 1, []).Ok? ==> ReadAnnotations(tokens, old(cursor) - 1, []) == Ok(mods)
      ensures r.Ok? ==> ElementAt(tokens, r.value, old(cursor) - 1, cursor - 2)
      ensures ReadAnnotations(tokens, old(cursor) - 1, []).Ok? && !ModuleKeyword(At(old(cursor) - 1 + 2 * |mods|).kind) ==>
        r == Err(ExpectedModuleElement(At(old(cursor) - 1 + 2 * |mods|).kind))
    {
      mods := [];
      var read := ParseAnnotations();
      if read.Err? {
        return Err(read.error), mods;
      }
      mods := read.value;
      ghost var k := cursor - 1;
      assert At(k) == token;
      var kind := token.kind;
      if !ModuleKeyword(kind) {
        return Err(ExpectedModuleElement(kind)), mods;
      }
      var allowed;
      if kind == Kw(Function) || kind == Kw(Procedure) {
        allowed := RestrictModifiers(read.value, AllowedModifiers(kind));
      } else {
        allowed := BanModifiers(read.value);
      }
      if allowed.Err? {
        return Err(allowed.error), mods;
      }
      r := ParseItem(read.value);
      if r.Ok? {
        ItemForKeyword(kind, r.value, mods);
      }
    }

    /** The arms of the match in `parse_module_body`, after the annotations
        have been checked. */
    method ParseItem(mods: seq<ModifierEntry>) returns (r: Result<ModuleItem, ParseError>)
      requires Valid() && ModuleKeyword(token.kind)
      modifies this, ids, interner
      ensures Valid() && Advanced() && Grown()
      ensures r.Ok? ==> Consumed(old(cursor)) && ItemFor(old(token.kind), r.value, mods)
    {
      if FieldKeyword(token.kind) {
        r := ParseFieldItem();
      } else if SpecKeyword(token.kind) {
        r := ParseSpecItem();
      } else {
        r := ParseDeclItem(mods);
      }
    }

    /** The `input`, `output`, `var` and `const` arms. */
    method ParseFieldItem() returns (r: Result<ModuleItem, ParseError>)
      requires Valid() && FieldKeyword(token.kind)
      modifies this, ids, interner
      ensures Valid() && Advanced() && Grown()
      ensures r.Ok? ==> Consumed(old(cursor)) && ItemFor(old(token.kind), r.value, [])
    {
      var kind := token.kind;
      var f := ParseField();
      if f.Err? {
        return Err(f.error);
      }
      if kind == Kw(Input) {
        return Ok(InputItem(f.value));
      } else if kind == Kw(Output) {
        return Ok(OutputItem(f.value));
      } else if kind == Kw(Var) {
        return Ok(VarItem(f.value));
      }
      return Ok(ConstItem(f.value));
    }

    /** The `theorem`, `lemma`, `init`, `next` and `control` arms. */
    method ParseSpecItem() returns (r: Result<ModuleItem, ParseError>)
      requires Valid() && SpecKeyword(token.kind)
      modifies this, ids, interner
      ensures Valid() && Advanced() && Grown()
      ensures r.Ok? ==> Consumed(old(cursor)) && ItemFor(old(token.kind), r.value, [])
    {
      if token.kind == Kw(Theorem) || token.kind == Kw(Lemma) {
        var isLemma := token.kind == Kw(Lemma);
        var p := ParseProperty(token.kind.keyword);
        if p.Err? {
          return Err(p.error);
        }
        if isLemma {
          return Ok(LemmaItem(p.value));
        }
        return Ok(TheoremItem(p.value));
      }
      var kind := token.kind;
      var b := ParseTransition(kind.keyword);
      if b.Err? {
        return Err(b.error);
      }
      if kind == Kw(Keyword.Init) {
        return Ok(InitItem(b.value));
      } else if kind == Kw(Keyword.Next) {
        return Ok(NextItem(b.value));
      }
      return Ok(ControlItem(b.value));
    }

    /** The `type`, `define`, `function` and `procedure` arms. */
    method ParseDeclItem(mods: seq<ModifierEntry>) returns (r: Result<ModuleItem, ParseError>)
      requires Valid()
      requires token.kind == Kw(Type) || token.kind == Kw(Define) || token.kind == Kw(Function) || token.kind == Kw(Procedure)
      modifies this, ids, interner
      ensures Valid() && Advanced() && Grown()
      ensures r.Ok? ==> Consumed(old(cursor)) && ItemFor(old(token.kind), r.value, mods)
    {
      if token.kind == Kw(Type) {
        var _ := AdvanceToken();
        var d := ParseTypeDecl();
        if d.Err? {
          return Err(d.error);
        }
        return Ok(TypeDeclItem(d.value));
      } else if token.kind == Kw(Define) {
        var d := ParseDefine();
        if d.Err? {
          return Err(d.error);
        }
        return Ok(MacroItem(d.value));
      } else if token.kind == Kw(Function) {
        var d := ParseFunction(mods);
        if d.Err? {
          return Err(d.error);
        }
        return Ok(FunctionItem(d.value));
      }
      var d := ParseProcedure(mods);
      if d.Err? {
        return Err(d.error);
      }
      return Ok(ProcedureItem(d.value));
    }

    // DECLARATIONS
  }
}
