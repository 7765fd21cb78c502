/** The lexer's output as the parser sees it: token kinds with their payload
    text, and byte spans into the source buffer. The lexer itself is not part
    of this model; its output is a sequence of tokens that ends with `End`. */
module Tokens {

  datatype IntBase = Bin | Oct | Dec | Hex

  /** Width class of an integer literal (`IntSuffix` in the lexer). */
  datatype IntSuffix = Byte | Int | Long

  /** The radix a literal of this base is read in (`IntBase::num`). */
  function Radix(b: IntBase): (r: nat)
    ensures 2 <= r <= 16
  {
    match b
    case Bin => 2
    case Oct => 8
    case Dec => 10
    case Hex => 16
  }

  /** Punctuation and brackets. */
  datatype Punct =
    | LParen | RParen | LBracket | RBracket | LBrace | RBrace
    | Comma | Semicolon | Colon | Dot | At

  /** Operator tokens (`=` and `+=` among them). */
  datatype Operator =
    | Eq | AddEq | EqEq | Ne | Lt | Le | Gt | Ge | Ult | Ule | Ugt | Uge
    | Or | And | Not | BitOr | BitAnd | Caret | LtLt | GtGt | GtGtGt
    | Add | Sub | Mul | Div | Mod | Concat

  datatype Keyword =
    | Module | Input | Output | Var | Const | Type | Enum | Define
    | Function | Procedure | Theorem | Lemma | Init | Next | Control
    | Returns | Modifies | Requires | Ensures
    | Assert | Assume | Havoc | Induction | Simulate | Call | While
    | If | Else | True | False

  /** The lexer's `TokenKind`, its payload-free kinds grouped by class:
      `Sym(LParen)` is `TokenKind::LParen`, `Op(Add)` is `TokenKind::Add`,
      `Kw(If)` is `TokenKind::If`. */
  datatype TokenKind =
    | Sym(punct: Punct)
    | Op(operator: Operator)
    | Kw(keyword: Keyword)
    | Identifier(text: string)
    | LitInt(digits: string, base: IntBase, suffix: IntSuffix)
    | LitFloat(floatText: string)
    | LitBitVec(bvValue: string, bvWidth: string)
      // end of input; the lexer keeps returning it once the source is exhausted
    | End

  /** A byte range of the source. `Invalid` is the placeholder span of the
      token the parser holds before it has read anything (`Span::invalid`). */
  datatype Span = Span(start: nat, length: nat) | Invalid

  function EndOf(s: Span): nat
    requires s.Span?
  {
    s.start + s.length
  }

  datatype Token = Token(kind: TokenKind, span: Span)

  /** Each token of `toks` from index `i` on ends before the next one
      starts. */
  ghost predicate OrderedFrom(toks: seq<Token>, i: nat)
    decreases |toks| - i
  {
    i + 1 >= |toks| ||
    (&& toks[i].span.Span? && toks[i + 1].span.Span?
     && EndOf(toks[i].span) <= toks[i + 1].span.start
     && OrderedFrom(toks, i + 1))
  }

  /** What the lexer guarantees of its output: every token has a real span,
      each token ends before the next one starts, and the stream is
      terminated by a single `End`. */
  ghost predicate WellFormed(toks: seq<Token>) {
    && |toks| > 0
    && toks[|toks| - 1].kind == End
    && (forall i :: 0 <= i < |toks| - 1 ==> toks[i].kind != End)
    && (forall i :: 0 <= i < |toks| ==> toks[i].span.Span?)
    && OrderedFrom(toks, 0)
  }

  /** Ordering from one index on holds from every later index on. */
  lemma {:induction false} OrderedLater(toks: seq<Token>, i: nat, k: nat)
    requires OrderedFrom(toks, i) && i <= k
    ensures OrderedFrom(toks, k)
    decreases k - i
  {
    if i < k && i + 1 < |toks| {
      OrderedLater(toks, i + 1, k);
    }
  }

  lemma {:induction false} EndBeforeLaterStartFrom(toks: seq<Token>, i: nat, k: nat)
    requires OrderedFrom(toks, i) && i < k < |toks|
    ensures toks[i].span.Span? && toks[k].span.Span?
    ensures EndOf(toks[i].span) <= toks[k].span.start
    decreases k - i
  {
    if i + 1 < k {
      EndBeforeLaterStartFrom(toks, i + 1, k);
    }
  }

  /** A token ends before every later token starts. */
  lemma EndBeforeLaterStart(toks: seq<Token>, i: nat, k: nat)
    requires WellFormed(toks) && i < k < |toks|
    ensures EndOf(toks[i].span) <= toks[k].span.start
  {
    OrderedLater(toks, 0, i);
    EndBeforeLaterStartFrom(toks, i, k);
  }

  /** Token starts are non-decreasing along the stream. */
  lemma StartsAscend(toks: seq<Token>, i: nat, k: nat)
    requires WellFormed(toks) && i <= k < |toks|
    ensures toks[i].span.start <= toks[k].span.start
  {
    if i < k {
      EndBeforeLaterStart(toks, i, k);
    }
  }

  /** A token never starts after a later token ends. */
  lemma StartBeforeLaterEnd(toks: seq<Token>, i: nat, k: nat)
    requires WellFormed(toks) && i <= k < |toks|
    ensures toks[i].span.start <= EndOf(toks[k].span)
  {
    StartsAscend(toks, i, k);
  }

  /** The token at index `i`, or the final `End` past the stream: the lexer
      keeps returning `End` once the source is exhausted. */
  function TokenAt(toks: seq<Token>, i: nat): Token
    requires |toks| > 0
  {
    if i < |toks| then toks[i] else toks[|toks| - 1]
  }
}
