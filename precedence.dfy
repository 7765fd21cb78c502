/** Binary operator precedence, as `parse_binary` climbs it, and a reference
    description of the tree that precedence climbing builds: the operand
    sequence is split at the LAST operator of lowest precedence, so that
    lower precedence binds looser and equal precedence associates to the
    left. */
module Precedence {
  import opened Wrappers
  import opened Tokens
  import opened Syntax

  /** The `right_precedence` table of `parse_binary`; `None` for tokens that
      end a binary expression. */
  function TokenPrecedence(k: TokenKind): (p: Option<nat>)
    ensures p.Some? ==> 1 <= p.value <= 10
  {
    match k
    case Op(o) => OperatorPrecedence(o)
    case Sym(Colon) => Some(10)
    case _ => None
  }

  /** The rows of the table for operator tokens; `!` has no row. */
  function OperatorPrecedence(o: Operator): (p: Option<nat>)
    ensures p.Some? ==> 1 <= p.value <= 9
  {
    match o
    case Or => Some(1)
    case And => Some(2)
    case Eq => Some(3)
    case AddEq => Some(3)
    case EqEq => Some(4)
    case Ne => Some(4)
    case Lt => Some(4)
    case Le => Some(4)
    case Gt => Some(4)
    case Ge => Some(4)
    case Ult => Some(4)
    case Ule => Some(4)
    case Ugt => Some(4)
    case Uge => Some(4)
    case BitOr => Some(5)
    case BitAnd => Some(5)
    case Caret => Some(5)
    case LtLt => Some(6)
    case GtGt => Some(6)
    case GtGtGt => Some(6)
    case Add => Some(7)
    case Sub => Some(7)
    case Mul => Some(8)
    case Div => Some(8)
    case Mod => Some(8)
    case Concat => Some(9)
    case Not => None
  }

  /** The operator `create_binary` builds for a token; `None` where it
      panics. */
  function OpFor(k: TokenKind): Option<BinOp> {
    match k
    case Op(o) => OperatorOp(o)
    case Sym(Colon) => Some(Range)
    case _ => None
  }

  function OperatorOp(o: Operator): Option<BinOp> {
    match o
    case Eq => Some(BinOp.Assign)
    case Or => Some(BinOp.Or)
    case And => Some(BinOp.And)
    case EqEq => Some(Cmp(CmpOp.Eq))
    case Ne => Some(Cmp(CmpOp.Ne))
    case Lt => Some(Cmp(CmpOp.Lt))
    case Le => Some(Cmp(CmpOp.Le))
    case Gt => Some(Cmp(CmpOp.Gt))
    case Ge => Some(Cmp(CmpOp.Ge))
    case Ult => Some(Cmp(CmpOp.Ult))
    case Ule => Some(Cmp(CmpOp.Ule))
    case Ugt => Some(Cmp(CmpOp.Ugt))
    case Uge => Some(Cmp(CmpOp.Uge))
    case BitOr => Some(BinOp.BitOr)
    case BitAnd => Some(BinOp.BitAnd)
    case Caret => Some(BitXor)
    case Add => Some(BinOp.Add)
    case Concat => Some(BinOp.Concat)
    case Sub => Some(BinOp.Sub)
    case Mul => Some(BinOp.Mul)
    case Div => Some(BinOp.Div)
    case Mod => Some(BinOp.Mod)
    case LtLt => Some(ShiftL)
    case GtGt => Some(ArithShiftR)
    case GtGtGt => Some(LogicalShiftR)
    case _ => None
  }

  /** The precedence level an operator was parsed at. */
  function OpPrecedence(op: BinOp): nat {
    match op
    case Or => 1
    case And => 2
    case Assign => 3
    case Cmp(_) => 4
    case BitOr => 5
    case BitAnd => 5
    case BitXor => 5
    case ShiftL => 6
    case ArithShiftR => 6
    case LogicalShiftR => 6
    case Add => 7
    case Sub => 7
    case Mul => 8
    case Div => 8
    case Mod => 8
    case Concat => 9
    case Range => 10
  }

  /** The two tables agree: every token `create_binary` maps is in the
      precedence table at its operator's level, and `+=` is the one
      operator token with a level but no mapping. */
  lemma TablesAgree(k: TokenKind)
    ensures OpFor(k).Some? ==> TokenPrecedence(k) == Some(OpPrecedence(OpFor(k).value))
    ensures TokenPrecedence(k).Some? ==> (OpFor(k).None? <==> k == Op(AddEq))
  {
  }

  /** The position of the last operator of lowest precedence (see
      `SplitIndexLowest`). */
  function SplitIndex(ops: seq<BinOp>): (k: nat)
    requires |ops| > 0
    ensures k < |ops|
  {
    if |ops| == 1 then 0
    else
      var k := SplitIndex(ops[..|ops| - 1]);
      if OpPrecedence(ops[|ops| - 1]) <= OpPrecedence(ops[k]) then |ops| - 1 else k
  }

  /** No operator binds looser than the one at the split, and every
      operator after it binds tighter. */
  lemma {:induction false} SplitIndexLowest(ops: seq<BinOp>)
    requires |ops| > 0
    ensures forall i :: 0 <= i < |ops| ==> OpPrecedence(ops[SplitIndex(ops)]) <= OpPrecedence(ops[i])
    ensures forall i :: SplitIndex(ops) < i < |ops| ==> OpPrecedence(ops[SplitIndex(ops)]) < OpPrecedence(ops[i])
  {
    if |ops| > 1 {
      var pre := ops[..|ops| - 1];
      SplitIndexLowest(pre);
      var k := SplitIndex(pre);
      assert forall i :: 0 <= i < |pre| ==> pre[i] == ops[i];
    }
  }

  /** `e` is the tree of operands `units` joined by operators `ops`
      (`ops[i]` written between `units[i]` and `units[i + 1]`), split at the
      last operator of lowest precedence. Node ids and spans are free. */
  ghost predicate IsTree(e: Expr, units: seq<Expr>, ops: seq<BinOp>)
    decreases |ops|
  {
    && |units| == |ops| + 1
    && if ops == [] then e == units[0]
       else
         var k := SplitIndex(ops);
         && e.Binary? && e.binOp == ops[k]
         && IsTree(e.lhs, units[..k + 1], ops[..k])
         && IsTree(e.rhs, units[k + 1..], ops[k + 1..])
  }

  /** The split is the only position that is minimal with nothing minimal
      after it. */
  lemma SplitIndexUnique(ops: seq<BinOp>, k: nat)
    requires k < |ops|
    requires forall i :: 0 <= i < |ops| ==> OpPrecedence(ops[k]) <= OpPrecedence(ops[i])
    requires forall i :: k < i < |ops| ==> OpPrecedence(ops[k]) < OpPrecedence(ops[i])
    ensures SplitIndex(ops) == k
  {
    SplitIndexLowest(ops);
    var s := SplitIndex(ops);
    assert OpPrecedence(ops[s]) == OpPrecedence(ops[k]);
  }

  /** One unfolding of `IsTree` at a known split. */
  lemma TreeAt(e: Expr, units: seq<Expr>, ops: seq<BinOp>, k: nat)
    requires |ops| > 0 && |units| == |ops| + 1 && SplitIndex(ops) == k
    requires e.Binary? && e.binOp == ops[k]
    requires IsTree(e.lhs, units[..k + 1], ops[..k]) && IsTree(e.rhs, units[k + 1..], ops[k + 1..])
    ensures IsTree(e, units, ops)
  {
  }

  /** The step of precedence climbing: joining a left tree whose operators
      bind no looser than `op` with a right tree whose operators all bind
      tighter gives the tree of the concatenated operands. */
  lemma Combine(l: Expr, lu: seq<Expr>, lo: seq<BinOp>, op: BinOp,
                r: Expr, ru: seq<Expr>, ro: seq<BinOp>, e: Expr)
    requires IsTree(l, lu, lo) && IsTree(r, ru, ro)
    requires forall i :: 0 <= i < |lo| ==> OpPrecedence(op) <= OpPrecedence(lo[i])
    requires forall i :: 0 <= i < |ro| ==> OpPrecedence(op) < OpPrecedence(ro[i])
    requires e.Binary? && e.binOp == op && e.lhs == l && e.rhs == r
    ensures IsTree(e, lu + ru, lo + [op] + ro)
  {
    var ops := lo + [op] + ro;
    var units := lu + ru;
    var k := |lo|;
    SplitAtJoin(lo, op, ro);
    assert ops[..k] == lo;
    assert ops[k + 1..] == ro;
    assert units[..k + 1] == lu;
    assert units[k + 1..] == ru;
    TreeAt(e, units, ops, k);
  }

  lemma SplitAtJoin(lo: seq<BinOp>, op: BinOp, ro: seq<BinOp>)
    requires forall i :: 0 <= i < |lo| ==> OpPrecedence(op) <= OpPrecedence(lo[i])
    requires forall i :: 0 <= i < |ro| ==> OpPrecedence(op) < OpPrecedence(ro[i])
    ensures SplitIndex(lo + [op] + ro) == |lo|
  {
    var ops := lo + [op] + ro;
    var k := |lo|;
    forall i | 0 <= i < |ops|
      ensures OpPrecedence(ops[k]) <= OpPrecedence(ops[i])
      ensures k < i ==> OpPrecedence(ops[k]) < OpPrecedence(ops[i])
    {
      if i < k {
        assert ops[i] == lo[i];
      } else if i > k {
        assert ops[i] == ro[i - k - 1];
      }
    }
    SplitIndexUnique(ops, k);
  }

  /** `a o1 b o2 c` with `o2` binding tighter is `a o1 (b o2 c)`:
      `a + b * c` multiplies first. */
  lemma TighterOperatorNestsRight(e: Expr, a: Expr, b: Expr, c: Expr, o1: BinOp, o2: BinOp)
    requires OpPrecedence(o1) < OpPrecedence(o2)
    requires IsTree(e, [a, b, c], [o1, o2])
    ensures e.Binary? && e.binOp == o1 && e.lhs == a
    ensures e.rhs.Binary? && e.rhs.binOp == o2 && e.rhs.lhs == b && e.rhs.rhs == c
  {
    SplitIndexUnique([o1, o2], 0);
    assert [a, b, c][..1] == [a] && [o1, o2][..0] == [];
    assert [a, b, c][1..] == [b, c] && [o1, o2][1..] == [o2];
    assert [o2][..0] == [] && [o2][1..] == [];
    assert IsTree(e.rhs, [b, c], [o2]);
    assert [b, c][..1] == [b] && [b, c][1..] == [c];
    assert IsTree(e.rhs.lhs, [b], []) && IsTree(e.rhs.rhs, [c], []);
  }

  /** `a o1 b o2 c` with `o1` binding at least as tight is `(a o1 b) o2 c`:
      `a - b - c` subtracts left to right. */
  lemma LooserOrEqualNestsLeft(e: Expr, a: Expr, b: Expr, c: Expr, o1: BinOp, o2: BinOp)
    requires OpPrecedence(o1) >= OpPrecedence(o2)
    requires IsTree(e, [a, b, c], [o1, o2])
    ensures e.Binary? && e.binOp == o2 && e.rhs == c
    ensures e.lhs.Binary? && e.lhs.binOp == o1 && e.lhs.lhs == a && e.lhs.rhs == b
  {
    SplitIndexUnique([o1, o2], 1);
    assert [a, b, c][..2] == [a, b] && [o1, o2][..1] == [o1];
    assert [a, b, c][2..] == [c] && [o1, o2][2..] == [];
    assert [o1][..0] == [] && [o1][1..] == [];
    assert IsTree(e.lhs, [a, b], [o1]);
    assert [a, b][..1] == [a] && [a, b][1..] == [b];
    assert IsTree(e.lhs.lhs, [a], []) && IsTree(e.lhs.rhs, [b], []);
  }

  /** A chain of operators of one precedence level associates to the left:
      the root joins everything before the last operand with the last. */
  lemma SameLevelAssociatesLeft(e: Expr, units: seq<Expr>, ops: seq<BinOp>)
    requires |ops| > 0 && IsTree(e, units, ops)
    requires forall i :: 0 <= i < |ops| ==> OpPrecedence(ops[i]) == OpPrecedence(ops[0])
    ensures e.Binary? && e.binOp == ops[|ops| - 1] && e.rhs == units[|units| - 1]
    ensures IsTree(e.lhs, units[..|ops|], ops[..|ops| - 1])
  {
    var n := |ops| - 1;
    SplitIndexUnique(ops, n);
    assert units[n + 1..] == [units[n + 1]];
    assert ops[n + 1..] == [];
  }
}
