/** The reference grouping of a chain of binary operators, on its own terms:
    operands `leaves[0] … leaves[n]`, operators `ops[0] … ops[n - 1]` and
    their levels `lv[0] … lv[n - 1]`, operator `x` (counting from 1)
    standing between operands `x - 1` and `x`. The root of a chain is its loosest operator, the last one when
    several share the loosest level, so that tighter operators group first
    and operators of one level group to the left. Nothing here refers to a
    parser state; ParserChains shows that `expressionWithPrec` of
    src/parser.go builds exactly these trees. */
module ChainTrees {
  import opened Lexing
  import opened Ast

  /** Operands, operators and levels of one chain. */
  predicate Sized(leaves: seq<Expr>, ops: seq<Token>, lv: seq<nat>)
  {
    |leaves| == |ops| + 1 && |lv| == |ops|
  }

  /** The level of operator `x`, counting from 1. */
  function Lv(lv: seq<nat>, x: nat): nat
    requires 1 <= x <= |lv|
  {
    lv[x - 1]
  }

  /** The last operator of least level among operators `lo` to `hi`. */
  function LastMin(lv: seq<nat>, lo: nat, hi: nat): (m: nat)
    requires 1 <= lo <= hi <= |lv|
    ensures lo <= m <= hi
    decreases hi - lo
  {
    if lo == hi then lo
    else
      var m := LastMin(lv, lo + 1, hi);
      if Lv(lv, lo) < Lv(lv, m) then lo else m
  }

  /** No operator from `lo` to `hi` is looser than `LastMin`, and every one
      after it is tighter. */
  lemma {:induction false} LastMinLeast(lv: seq<nat>, lo: nat, hi: nat)
    requires 1 <= lo <= hi <= |lv|
    ensures forall x | lo <= x <= hi :: Lv(lv, LastMin(lv, lo, hi)) <= Lv(lv, x)
    ensures forall x | LastMin(lv, lo, hi) < x <= hi :: Lv(lv, LastMin(lv, lo, hi)) < Lv(lv, x)
    decreases hi - lo
  {
    if lo < hi {
      LastMinLeast(lv, lo + 1, hi);
    }
  }

  /** The tree of operands `i` to `j`. */
  function Tree(leaves: seq<Expr>, ops: seq<Token>, lv: seq<nat>, i: nat, j: nat): Expr
    requires Sized(leaves, ops, lv) && i <= j < |leaves|
    decreases j - i
  {
    if i == j then leaves[i]
    else
      var m := LastMin(lv, i + 1, j);
      ExprBinary(Tree(leaves, ops, lv, i, m - 1), Tree(leaves, ops, lv, m, j), ops[m - 1])
  }

  /** The first operator from `s` on whose level is below `k`; `|lv| + 1`
      when there is none. */
  function End(lv: seq<nat>, s: nat, k: nat): (e: nat)
    requires 1 <= s <= |lv| + 1
    ensures s <= e <= |lv| + 1
    ensures e <= |lv| ==> Lv(lv, e) < k
    ensures forall x | s <= x < e :: Lv(lv, x) >= k
    decreases |lv| + 1 - s
  {
    if s == |lv| + 1 || Lv(lv, s) < k then s else End(lv, s + 1, k)
  }

  /** `End` stops at the first operator from `s` whose level is below `k`. */
  lemma EndAt(lv: seq<nat>, s: nat, k: nat, j: nat)
    requires 1 <= s <= j <= |lv| + 1
    requires forall x | s <= x < j :: Lv(lv, x) >= k
    requires j <= |lv| ==> Lv(lv, j) < k
    ensures End(lv, s, k) == j
  {
  }

  /** The state of the operator loop at level `k` entered at operator `j`
      with operands `i` to `j - 1` grouped: the operators it has passed are
      of level `k` or more, and operator `j` is of level `k` or less. */
  predicate Climbing(lv: seq<nat>, i: nat, j: nat, k: nat)
  {
    i < j <= |lv| + 1 &&
    (forall x | i < x < j :: Lv(lv, x) >= k) &&
    (j <= |lv| ==> Lv(lv, j) <= k)
  }

  /** The loop starts after the operand at the next level up. */
  lemma ClimbStart(lv: seq<nat>, i: nat, k: nat)
    requires i <= |lv|
    ensures Climbing(lv, i, End(lv, i + 1, k + 1), k)
  {
  }

  /** The loop stops at an operator below its level, or at the end. */
  lemma ClimbStops(lv: seq<nat>, i: nat, j: nat, k: nat)
    requires Climbing(lv, i, j, k) && (j == |lv| + 1 || Lv(lv, j) < k)
    ensures End(lv, i + 1, k) == j
  {
    EndAt(lv, i + 1, k, j);
  }

  /** Taking operator `j` of level `k` and the operand at the next level up
      leaves the loop in the same state further on. */
  lemma ClimbOn(lv: seq<nat>, i: nat, j: nat, k: nat)
    requires Climbing(lv, i, j, k) && j <= |lv| && Lv(lv, j) == k
    ensures Climbing(lv, i, End(lv, j + 1, k + 1), k)
  {
  }

  //
  // Precedence climbing by induction
  //

  /* The laws below speak of three families of results: `E(i, k)`, the parse
     of operand `i` at level `k`; `C(i, k, j)`, the operator loop at level
     `k` entered at operator `j` with operands `i` to `j - 1` grouped; and
     `W(i, k)`, what both should give. */

  /** At the tightest level operand `i` parses to what it should. */
  ghost predicate TopRule<R>(E: (nat, nat) -> R, W: (nat, nat) -> R, i: nat)
  {
    E(i, 6) == W(i, 6)
  }

  /** A parse at level `k` is the parse at `k + 1` followed by the loop. */
  ghost predicate LoopRule<R>(lv: seq<nat>, E: (nat, nat) -> R, C: (nat, nat, nat) -> R, W: (nat, nat) -> R, i: nat, k: nat)
    requires i <= |lv|
  {
    E(i, k + 1) == W(i, k + 1) && C(i, k, End(lv, i + 1, k + 1)) == W(i, k) ==> E(i, k) == W(i, k)
  }

  /** The loop that stops at once gives what the parse should. */
  ghost predicate StopRule<R>(C: (nat, nat, nat) -> R, W: (nat, nat) -> R, i: nat, k: nat, j: nat)
  {
    C(i, k, j) == W(i, k)
  }

  /** The loop that takes operator `j` and the operand after it gives what
      it gives from where that operand stops. */
  ghost predicate TurnRule<R>(lv: seq<nat>, E: (nat, nat) -> R, C: (nat, nat, nat) -> R, W: (nat, nat) -> R, i: nat, k: nat, j: nat)
    requires j <= |lv|
  {
    E(j, k + 1) == W(j, k + 1) && C(i, k, End(lv, j + 1, k + 1)) == W(i, k) ==> C(i, k, j) == W(i, k)
  }

  ghost predicate TopLaw<R>(lv: seq<nat>, E: (nat, nat) -> R, W: (nat, nat) -> R)
  {
    forall i: nat | i <= |lv| :: TopRule(E, W, i)
  }

  ghost predicate LoopLaw<R>(lv: seq<nat>, E: (nat, nat) -> R, C: (nat, nat, nat) -> R, W: (nat, nat) -> R)
  {
    forall i: nat, k: nat | i <= |lv| && k < 6 :: LoopRule(lv, E, C, W, i, k)
  }

  /** The loop stops at an operator below its level, or at the end. */
  ghost predicate StopLaw<R>(lv: seq<nat>, C: (nat, nat, nat) -> R, W: (nat, nat) -> R)
  {
    forall i: nat, k: nat, j: nat | k < 6 && Climbing(lv, i, j, k) && (j == |lv| + 1 || Lv(lv, j) < k) :: StopRule(C, W, i, k, j)
  }

  /** The loop takes an operator of its level. */
  ghost predicate TurnLaw<R>(lv: seq<nat>, E: (nat, nat) -> R, C: (nat, nat, nat) -> R, W: (nat, nat) -> R)
  {
    forall i: nat, k: nat, j: nat | k < 6 && Climbing(lv, i, j, k) && j <= |lv| && Lv(lv, j) == k :: TurnRule(lv, E, C, W, i, k, j)
  }

  ghost predicate ClimbLaws<R>(lv: seq<nat>, E: (nat, nat) -> R, C: (nat, nat, nat) -> R, W: (nat, nat) -> R)
  {
    TopLaw(lv, E, W) && LoopLaw(lv, E, C, W) && StopLaw(lv, C, W) && TurnLaw(lv, E, C, W)
  }

  /** Under the laws, every operand parses at every level to what it should. */
  lemma {:induction false} Climbs<R>(lv: seq<nat>, E: (nat, nat) -> R, C: (nat, nat, nat) -> R, W: (nat, nat) -> R, i: nat, k: nat)
    requires ClimbLaws(lv, E, C, W) && i <= |lv| && k <= 6
    ensures E(i, k) == W(i, k)
    decreases |lv| - i, 6 - k, 1, 0
  {
    if k < 6 {
      Climbs(lv, E, C, W, i, k + 1);
      ClimbStart(lv, i, k);
      ClimbsFrom(lv, E, C, W, i, k, End(lv, i + 1, k + 1));
      assert LoopRule(lv, E, C, W, i, k);
    } else {
      assert TopRule(E, W, i);
    }
  }

  /** Under the laws, the loop gives what the parse it finishes should. */
  lemma {:induction false} ClimbsFrom<R>(lv: seq<nat>, E: (nat, nat) -> R, C: (nat, nat, nat) -> R, W: (nat, nat) -> R, i: nat, k: nat, j: nat)
    requires ClimbLaws(lv, E, C, W) && k < 6 && Climbing(lv, i, j, k)
    ensures C(i, k, j) == W(i, k)
    decreases |lv| - i, 6 - k, 0, |lv| + 1 - j
  {
    if j <= |lv| && Lv(lv, j) >= k {
      ClimbOn(lv, i, j, k);
      Climbs(lv, E, C, W, j, k + 1);
      ClimbsFrom(lv, E, C, W, i, k, End(lv, j + 1, k + 1));
    }
  }

  //
  // How trees split
  //

  /** An operator of level `k`, after operators of level at least `k` and
      before operators of level above `k`, is the root of the operands
      around them. */
  lemma Split(leaves: seq<Expr>, ops: seq<Token>, lv: seq<nat>, i: nat, j: nat, e: nat, k: nat)
    requires Sized(leaves, ops, lv) && i < j < e <= |lv| + 1
    requires forall x | i < x < j :: Lv(lv, x) >= k
    requires Lv(lv, j) == k
    requires forall x | j < x < e :: Lv(lv, x) > k
    ensures Tree(leaves, ops, lv, i, e - 1) == ExprBinary(Tree(leaves, ops, lv, i, j - 1), Tree(leaves, ops, lv, j, e - 1), ops[j - 1])
  {
    LastMinLeast(lv, i + 1, e - 1);
    assert LastMin(lv, i + 1, e - 1) == j;
  }

  /** The tree of operands `i` to `e - 1`. */
  function Seg(leaves: seq<Expr>, ops: seq<Token>, lv: seq<nat>, i: nat, e: nat): Expr
    requires Sized(leaves, ops, lv) && i < e <= |leaves|
  {
    Tree(leaves, ops, lv, i, e - 1)
  }

  lemma SegLeaf(leaves: seq<Expr>, ops: seq<Token>, lv: seq<nat>, i: nat)
    requires Sized(leaves, ops, lv) && i < |leaves|
    ensures Seg(leaves, ops, lv, i, i + 1) == leaves[i]
  {
  }

  /** The operator the loop at level `k` takes is the root of the operands
      up to where the parse after it stops. */
  lemma SplitOn(leaves: seq<Expr>, ops: seq<Token>, lv: seq<nat>, i: nat, j: nat, k: nat)
    requires Sized(leaves, ops, lv) && Climbing(lv, i, j, k) && j <= |lv| && Lv(lv, j) == k
    ensures j < End(lv, j + 1, k + 1)
    ensures Seg(leaves, ops, lv, i, End(lv, j + 1, k + 1)) ==
      ExprBinary(Seg(leaves, ops, lv, i, j), Seg(leaves, ops, lv, j, End(lv, j + 1, k + 1)), ops[j - 1])
  {
    Split(leaves, ops, lv, i, j, End(lv, j + 1, k + 1), k);
  }

  /** The number of operands of a tree. */
  function Size(e: Expr): nat
  {
    if e.ExprBinary? then Size(e.lhs) + Size(e.rhs) else 1
  }

  lemma {:induction false} TreeSize(leaves: seq<Expr>, ops: seq<Token>, lv: seq<nat>, i: nat, j: nat)
    requires Sized(leaves, ops, lv) && i <= j < |leaves|
    requires forall x | 0 <= x < |leaves| :: !leaves[x].ExprBinary?
    ensures Size(Tree(leaves, ops, lv, i, j)) == j - i + 1
    decreases j - i
  {
    if i < j {
      var m := LastMin(lv, i + 1, j);
      TreeSize(leaves, ops, lv, i, m - 1);
      TreeSize(leaves, ops, lv, m, j);
    } else {
      assert !leaves[i].ExprBinary?;
    }
  }

  /** The least, last-of-least operator is the root. */
  lemma RootIfLeast(leaves: seq<Expr>, ops: seq<Token>, lv: seq<nat>, i: nat, j: nat, m: nat)
    requires Sized(leaves, ops, lv) && i < m <= j < |leaves|
    requires forall x | i < x <= j :: Lv(lv, m) <= Lv(lv, x)
    requires forall x | m < x <= j :: Lv(lv, m) < Lv(lv, x)
    ensures Tree(leaves, ops, lv, i, j) == ExprBinary(Tree(leaves, ops, lv, i, m - 1), Tree(leaves, ops, lv, m, j), ops[m - 1])
  {
    LastMinLeast(lv, i + 1, j);
    assert LastMin(lv, i + 1, j) == m;
  }

  /** The root splits the operands where `LastMin` does. */
  lemma LeastIfRoot(leaves: seq<Expr>, ops: seq<Token>, lv: seq<nat>, i: nat, j: nat, m: nat)
    requires Sized(leaves, ops, lv) && i < m <= j < |leaves|
    requires forall x | 0 <= x < |leaves| :: !leaves[x].ExprBinary?
    requires Tree(leaves, ops, lv, i, j) == ExprBinary(Tree(leaves, ops, lv, i, m - 1), Tree(leaves, ops, lv, m, j), ops[m - 1])
    ensures m == LastMin(lv, i + 1, j)
  {
    var r := LastMin(lv, i + 1, j);
    TreeSize(leaves, ops, lv, i, m - 1);
    TreeSize(leaves, ops, lv, i, r - 1);
  }

  /** Operator `m` is the root of operands `i` to `j` exactly when no
      operator among them is looser and every one after it is tighter: the
      loosest operator applies last, and of several equally loose ones the
      last applies last, which is grouping to the left. */
  lemma RootOperator(leaves: seq<Expr>, ops: seq<Token>, lv: seq<nat>, i: nat, j: nat, m: nat)
    requires Sized(leaves, ops, lv) && i < m <= j < |leaves|
    requires forall x | 0 <= x < |leaves| :: !leaves[x].ExprBinary?
    ensures Tree(leaves, ops, lv, i, j) == ExprBinary(Tree(leaves, ops, lv, i, m - 1), Tree(leaves, ops, lv, m, j), ops[m - 1]) <==>
      (forall x | i < x <= j :: Lv(lv, m) <= Lv(lv, x)) && (forall x | m < x <= j :: Lv(lv, m) < Lv(lv, x))
  {
    if Tree(leaves, ops, lv, i, j) == ExprBinary(Tree(leaves, ops, lv, i, m - 1), Tree(leaves, ops, lv, m, j), ops[m - 1]) {
      LeastIfRoot(leaves, ops, lv, i, j, m);
      LastMinLeast(lv, i + 1, j);
    }
    if (forall x | i < x <= j :: Lv(lv, m) <= Lv(lv, x)) && (forall x | m < x <= j :: Lv(lv, m) < Lv(lv, x)) {
      RootIfLeast(leaves, ops, lv, i, j, m);
    }
  }

  /** With every operator at one level, a chain folds to the left. */
  lemma OneLevelFoldsLeft(leaves: seq<Expr>, ops: seq<Token>, lv: seq<nat>, i: nat, j: nat)
    requires Sized(leaves, ops, lv) && i < j < |leaves|
    requires forall x | i < x <= j :: Lv(lv, x) == Lv(lv, j)
    ensures Tree(leaves, ops, lv, i, j) == ExprBinary(Tree(leaves, ops, lv, i, j - 1), leaves[j], ops[j - 1])
  {
    RootIfLeast(leaves, ops, lv, i, j, j);
  }

  //
  // What trees hold
  //

  /** A property of the operands that every operator of the chain keeps
      holds of every tree. */
  lemma {:induction false} TreeKeeps(leaves: seq<Expr>, ops: seq<Token>, lv: seq<nat>, P: Expr -> bool, i: nat, j: nat)
    requires Sized(leaves, ops, lv) && i <= j < |leaves|
    requires forall x | 0 <= x < |leaves| :: P(leaves[x])
    requires forall l, r, x | 0 <= x < |ops| && P(l) && P(r) :: P(ExprBinary(l, r, ops[x]))
    ensures P(Tree(leaves, ops, lv, i, j))
    decreases j - i
  {
    if i < j {
      var m := LastMin(lv, i + 1, j);
      TreeKeeps(leaves, ops, lv, P, i, m - 1);
      TreeKeeps(leaves, ops, lv, P, m, j);
    }
  }

  /** The tokens of an identifier-and-operator tree, left to right. */
  function Yield(e: Expr): seq<Token>
  {
    match e
    case ExprIdentifier(_, t) => if t.NilRef? then [] else [t.tok]
    case ExprBinary(l, r, op) => Yield(l) + [op] + Yield(r)
    case _ => []
  }

  /** The tokens of operands `i` to `j` and of the operators between them,
      in chain order. */
  function Woven(leaves: seq<Expr>, ops: seq<Token>, i: nat, j: nat): seq<Token>
    requires |leaves| == |ops| + 1 && i <= j < |leaves|
    decreases j - i
  {
    if i == j then Yield(leaves[i]) else Woven(leaves, ops, i, j - 1) + [ops[j - 1]] + Yield(leaves[j])
  }

  lemma {:induction false} WovenSplit(leaves: seq<Expr>, ops: seq<Token>, i: nat, m: nat, j: nat)
    requires |leaves| == |ops| + 1 && i < m <= j < |leaves|
    ensures Woven(leaves, ops, i, j) == Woven(leaves, ops, i, m - 1) + [ops[m - 1]] + Woven(leaves, ops, m, j)
    decreases j - m
  {
    if m < j {
      WovenSplit(leaves, ops, i, m, j - 1);
      assert Woven(leaves, ops, m, j) == Woven(leaves, ops, m, j - 1) + [ops[j - 1]] + Yield(leaves[j]);
    }
  }

  /** A tree holds every token of its operands and operators once, in chain
      order. */
  lemma {:induction false} TreeYield(leaves: seq<Expr>, ops: seq<Token>, lv: seq<nat>, i: nat, j: nat)
    requires Sized(leaves, ops, lv) && i <= j < |leaves|
    ensures Yield(Tree(leaves, ops, lv, i, j)) == Woven(leaves, ops, i, j)
    decreases j - i
  {
    if i < j {
      var m := LastMin(lv, i + 1, j);
      TreeYield(leaves, ops, lv, i, m - 1);
      TreeYield(leaves, ops, lv, m, j);
      WovenSplit(leaves, ops, i, m, j);
    }
  }
}
