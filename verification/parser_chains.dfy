/** Precedence and associativity of binary operators in src/parser.go, for
    chains of any length: `a0 op1 a1 op2 … opn an` followed by a token that
    ends an expression, with each `ai` an identifier and each `opj` an
    operator of the table. The step lemmas show that `expressionWithPrec`
    and its operator loop obey the laws of ChainTrees, one call at a time;
    `ChainExpression` then draws from `ChainTrees.Climbs` that `expression`
    builds the reference tree of the chain, and `ChainYield` shows that the
    tree reads back as the chain. */
module ParserChains {
  import opened Errors
  import opened Lexing
  import opened Ast
  import opened Parsing
  import opened ParserProps
  import opened ChainTrees

  //
  // The chain ahead of a parser state
  //

  /** Operand `i` of the chain starting at the current token. */
  function ArgTok(p: Parser, i: nat): Token
    requires p.next + 2 * i <= |p.stream.tokens|
  {
    Upcoming(p, 2 * i)
  }

  /** Operator `j` of the chain, for `1 <= j`; operator `n + 1` of a chain of
      `n` operators is the token that ends it. */
  function OpTok(p: Parser, j: nat): Token
    requires 1 <= j && p.next + 2 * j - 1 <= |p.stream.tokens|
  {
    Upcoming(p, 2 * j - 1)
  }

  function Level(p: Parser, j: nat): nat
    requires 1 <= j && p.next + 2 * j - 1 <= |p.stream.tokens|
  {
    OpLevel(OpTok(p, j).tag)
  }

  /** `n` operators between `n + 1` identifiers, then a token that ends an
      expression, all inside the stream. */
  ghost predicate Chain(p: Parser, n: nat)
  {
    Ready(p) && p.next + 2 * n + 1 <= |p.stream.tokens| &&
    (forall i | 0 <= i <= n :: ArgTok(p, i).tag == Identifier) &&
    (forall j | 1 <= j <= n :: Level(p, j) > 0) &&
    Ends(OpTok(p, n + 1).tag)
  }

  ghost function Leaves(p: Parser, n: nat): (s: seq<Expr>)
    requires Chain(p, n)
    ensures |s| == n + 1 && forall i | 0 <= i <= n :: s[i] == Ident(p, 2 * i)
  {
    seq(n + 1, i requires 0 <= i <= n => LeafFacts(p, n, i); Ident(p, 2 * i))
  }

  ghost function Ops(p: Parser, n: nat): (s: seq<Token>)
    requires Chain(p, n)
    ensures |s| == n && forall j | 1 <= j <= n :: s[j - 1] == OpTok(p, j)
  {
    seq(n, j requires 0 <= j < n => OpTok(p, j + 1))
  }

  ghost function Levels(p: Parser, n: nat): (s: seq<nat>)
    requires Chain(p, n)
    ensures |s| == n && forall j | 1 <= j <= n :: Lv(s, j) == Level(p, j)
  {
    seq(n, j requires 0 <= j < n => Level(p, j + 1))
  }

  /** The reference tree of operands `i` to `e - 1` of the chain. */
  ghost function Span(p: Parser, n: nat, i: nat, e: nat): Expr
    requires Chain(p, n) && i < e <= n + 1
  {
    Seg(Leaves(p, n), Ops(p, n), Levels(p, n), i, e)
  }

  /** The parser at operand `i`. */
  function At(p: Parser, i: nat): Parser
    requires p.next + 2 * i <= |p.stream.tokens|
  {
    if i == 0 then p else After(p, 2 * i)
  }

  //
  // Facts about the chain; none of them involves a parse function.
  //

  lemma LeafFacts(p: Parser, n: nat, i: nat)
    requires Chain(p, n) && i <= n
    ensures InBounds(p.stream.src, Upcoming(p, 2 * i)) && Upcoming(p, 2 * i).tag == Identifier
  {
    assert ArgTok(p, i).tag == Identifier;
  }

  /** Operand `i` is an identifier followed by a token that ends it. */
  lemma ArgIdent(p: Parser, n: nat, i: nat)
    requires Chain(p, n) && i <= n
    ensures IdentAt(p, 2 * i, 6)
  {
    assert ArgTok(p, i).tag == Identifier;
    assert Upcoming(p, 2 * i + 1) == OpTok(p, i + 1);
    assert i < n ==> Level(p, i + 1) > 0;
  }

  lemma AtFacts(p: Parser, n: nat, i: nat)
    requires Chain(p, n) && i <= n
    ensures Ready(At(p, i)) && At(p, i).stream == p.stream && IdentAt(At(p, i), 0, 6)
    ensures Ident(At(p, i), 0) == Ident(p, 2 * i) && After(At(p, i), 1) == After(p, 2 * i + 1)
  {
    ArgIdent(p, n, i);
    if i > 0 {
      IdentAtShift(p, 2 * i, 6);
    }
  }

  lemma OpFacts(p: Parser, n: nat, j: nat)
    requires Chain(p, n) && 1 <= j <= n + 1
    ensures Ready(After(p, 2 * j - 1)) && After(p, 2 * j - 1).stream == p.stream
    ensures After(p, 2 * j - 1).token == OpTok(p, j)
  {
    ReadyAfter(p, 2 * j - 1);
  }

  /** One step past operator `j` is operand `j`. */
  lemma OpNext(p: Parser, n: nat, j: nat)
    requires Chain(p, n) && 1 <= j <= n
    ensures After(p, 2 * j - 1).next < |p.stream.tokens| && After(After(p, 2 * j - 1), 1) == At(p, j)
  {
    Shift(p, 2 * j - 1, 1);
  }

  /** The loop at level `k` stops at operator `x` exactly when `x` ends the
      chain or its level is below `k`. */
  lemma StopsAt(p: Parser, n: nat, x: nat, k: nat)
    requires Chain(p, n) && 1 <= x <= n + 1
    ensures Stops(OpTok(p, x).tag, k) <==> x == n + 1 || Lv(Levels(p, n), x) < k
  {
    if x <= n {
      assert Level(p, x) > 0;
    }
  }

  lemma BinaryFaithful(src: string, l: Expr, r: Expr, op: Token)
    requires ExprFaithful(src, l) && ExprFaithful(src, r) && OpLevel(op.tag) > 0
    ensures ExprFaithful(src, ExprBinary(l, r, op))
  {
  }

  /** A tree of faithful operands and operators of the table is faithful. */
  lemma TreeFaithful(src: string, leaves: seq<Expr>, ops: seq<Token>, lv: seq<nat>, i: nat, j: nat)
    requires Sized(leaves, ops, lv) && i <= j < |leaves|
    requires forall x | 0 <= x < |leaves| :: ExprFaithful(src, leaves[x])
    requires forall x | 0 <= x < |ops| :: OpLevel(ops[x].tag) > 0
    ensures ExprFaithful(src, Tree(leaves, ops, lv, i, j))
  {
    var P := (e: Expr) => ExprFaithful(src, e);
    forall l, r, x | 0 <= x < |ops| && P(l) && P(r)
      ensures P(ExprBinary(l, r, ops[x]))
    {
      BinaryFaithful(src, l, r, ops[x]);
    }
    TreeKeeps(leaves, ops, lv, P, i, j);
  }

  lemma SegFaithful(src: string, leaves: seq<Expr>, ops: seq<Token>, lv: seq<nat>, i: nat, e: nat)
    requires Sized(leaves, ops, lv) && i < e <= |leaves|
    requires forall x | 0 <= x < |leaves| :: ExprFaithful(src, leaves[x])
    requires forall x | 0 <= x < |ops| :: OpLevel(ops[x].tag) > 0
    ensures ExprFaithful(src, Seg(leaves, ops, lv, i, e))
  {
    TreeFaithful(src, leaves, ops, lv, i, e - 1);
  }

  lemma SpanFaithful(p: Parser, n: nat, i: nat, e: nat)
    requires Chain(p, n) && i < e <= n + 1
    ensures ExprFaithful(p.stream.src, Span(p, n, i, e))
  {
    forall x | 0 <= x < |Leaves(p, n)|
      ensures ExprFaithful(p.stream.src, Leaves(p, n)[x])
    {
      LeafFacts(p, n, x);
    }
    forall x | 0 <= x < |Ops(p, n)|
      ensures OpLevel(Ops(p, n)[x].tag) > 0
    {
      assert Ops(p, n)[x] == OpTok(p, x + 1) && Level(p, x + 1) > 0;
    }
    SegFaithful(p.stream.src, Leaves(p, n), Ops(p, n), Levels(p, n), i, e);
  }

  //
  // The parser builds the reference tree
  //

  /** The parser at operator `j`, for `1 <= j`. */
  function OpAt(p: Parser, j: nat): Parser
    requires 1 <= j && p.next + 2 * j - 1 <= |p.stream.tokens|
  {
    After(p, 2 * j - 1)
  }

  /** The operator where the parse of operand `i` at level `k` stops. */
  ghost function Reach(p: Parser, n: nat, i: nat, k: nat): (e: nat)
    requires Chain(p, n) && i <= n
    ensures i + 1 <= e <= n + 1
  {
    End(Levels(p, n), i + 1, k)
  }

  /** What the parse of operand `i` at level `k` should give. */
  ghost function Res(p: Parser, n: nat, i: nat, k: nat): Result<(Expr, Parser)>
    requires Chain(p, n) && i <= n
  {
    Ok((Span(p, n, i, Reach(p, n, i, k)), OpAt(p, Reach(p, n, i, k))))
  }

  /** The parse of operand `i` at level `k`; an error off the chain. */
  ghost function ParseOf(p: Parser, i: nat, k: nat): Result<(Expr, Parser)>
  {
    if p.next + 2 * i <= |p.stream.tokens| && k <= 6 && Ready(At(p, i)) then ExpressionWithPrec(At(p, i), k)
    else Err(NoReturn)
  }

  /** The operator loop at level `k` entered at operator `j` with the
      reference tree of operands `i` to `j - 1`; an error off the chain. */
  ghost function LoopOf(p: Parser, n: nat, i: nat, k: nat, j: nat): Result<(Expr, Parser)>
  {
    if Chain(p, n) && i < j <= n + 1 && k < 6 && Ready(OpAt(p, j)) && ExprFaithful(p.stream.src, Span(p, n, i, j))
    then Climb(OpAt(p, j), k, Span(p, n, i, j))
    else Err(NoReturn)
  }

  /** What the parse of operand `i` at level `k` should give. */
  ghost function ResultOf(p: Parser, n: nat, i: nat, k: nat): Result<(Expr, Parser)>
  {
    if Chain(p, n) && i <= n then Res(p, n, i, k) else Err(NoReturn)
  }

  /** The three families above as function values, the form the laws of
      ChainTrees take them in. */
  ghost function Parses(p: Parser): (nat, nat) -> Result<(Expr, Parser)>
  {
    (i: nat, k: nat) => ParseOf(p, i, k)
  }

  ghost function Loops(p: Parser, n: nat): (nat, nat, nat) -> Result<(Expr, Parser)>
  {
    (i: nat, k: nat, j: nat) => LoopOf(p, n, i, k, j)
  }

  ghost function Results(p: Parser, n: nat): (nat, nat) -> Result<(Expr, Parser)>
  {
    (i: nat, k: nat) => ResultOf(p, n, i, k)
  }

  /** At the tightest level the parse stops at the next operator. */
  lemma ReachTop(p: Parser, n: nat, i: nat)
    requires Chain(p, n) && i <= n
    ensures Reach(p, n, i, 6) == i + 1
  {
    if i < n {
      assert Lv(Levels(p, n), i + 1) == Level(p, i + 1) < 6;
    }
    EndAt(Levels(p, n), i + 1, 6, i + 1);
  }

  /** A single operand is its identifier. */
  lemma SpanLeaf(p: Parser, n: nat, i: nat)
    requires Chain(p, n) && i <= n
    ensures Span(p, n, i, i + 1) == Ident(p, 2 * i)
  {
    SegLeaf(Leaves(p, n), Ops(p, n), Levels(p, n), i);
  }

  lemma OpAtNext(p: Parser, n: nat, i: nat)
    requires Chain(p, n) && i <= n
    ensures OpAt(p, i + 1) == After(p, 2 * i + 1)
  {
  }

  /** Operator `j` splits operands `i` to `e - 1` when the loop takes it. */
  lemma SpanSplit(p: Parser, n: nat, i: nat, j: nat, k: nat)
    requires Chain(p, n) && Climbing(Levels(p, n), i, j, k) && j <= n && Lv(Levels(p, n), j) == k
    ensures Span(p, n, i, Reach(p, n, j, k + 1)) ==
      ExprBinary(Span(p, n, i, j), Span(p, n, j, Reach(p, n, j, k + 1)), OpAt(p, j).token)
  {
    OpFacts(p, n, j);
    assert Ops(p, n)[j - 1] == OpTok(p, j);
    SplitOn(Leaves(p, n), Ops(p, n), Levels(p, n), i, j, k);
  }

  /** The parse of operand `i` at the tightest level. */
  lemma LevelTop(p: Parser, n: nat, i: nat)
    requires Chain(p, n) && i <= n
    ensures ParseOf(p, i, 6) == ResultOf(p, n, i, 6)
  {
    AtFacts(p, n, i);
    UnaryIdent(At(p, i));
    ReachTop(p, n, i);
    SpanLeaf(p, n, i);
    OpAtNext(p, n, i);
  }

  /** The parse of operand `i` at level `k` is its parse at level `k + 1`
      followed by the operator loop from where that stops. */
  lemma LevelStep(p: Parser, n: nat, i: nat, k: nat)
    requires Chain(p, n) && i <= n && k < 6
    requires ParseOf(p, i, k + 1) == ResultOf(p, n, i, k + 1)
    requires LoopOf(p, n, i, k, Reach(p, n, i, k + 1)) == ResultOf(p, n, i, k)
    ensures ParseOf(p, i, k) == ResultOf(p, n, i, k)
  {
    AtFacts(p, n, i);
    Loop(At(p, i), k, Span(p, n, i, Reach(p, n, i, k + 1)), OpAt(p, Reach(p, n, i, k + 1)),
         Span(p, n, i, Reach(p, n, i, k)), OpAt(p, Reach(p, n, i, k)));
  }

  /** The loop takes an operator of its own level and goes on from where
      the operand after it stops. */
  lemma ReachOn(p: Parser, n: nat, i: nat, k: nat, j: nat)
    requires Chain(p, n) && Climbing(Levels(p, n), i, j, k) && j != n + 1 && Lv(Levels(p, n), j) >= k
    ensures j <= n && Lv(Levels(p, n), j) == k && Climbing(Levels(p, n), i, Reach(p, n, j, k + 1), k)
  {
    ClimbOn(Levels(p, n), i, j, k);
  }

  /** The loop at operator `j` in the state `Climbing` is well defined. */
  lemma ClimbReady(p: Parser, n: nat, i: nat, k: nat, j: nat)
    requires Chain(p, n) && Climbing(Levels(p, n), i, j, k)
    ensures Ready(OpAt(p, j)) && ExprFaithful(p.stream.src, Span(p, n, i, j))
  {
    OpFacts(p, n, j);
    SpanFaithful(p, n, i, j);
  }

  /** The loop stops at once on an operator below its level or at the end. */
  lemma ClimbEnd(p: Parser, n: nat, i: nat, k: nat, j: nat)
    requires Chain(p, n) && k < 6 && Climbing(Levels(p, n), i, j, k)
    requires j == n + 1 || Lv(Levels(p, n), j) < k
    ensures LoopOf(p, n, i, k, j) == ResultOf(p, n, i, k)
  {
    ClimbReady(p, n, i, k, j);
    StopsAt(p, n, j, k);
    OpFacts(p, n, j);
    ClimbStops(Levels(p, n), i, j, k);
  }

  /** The loop takes operator `j` and the operand after it, then goes on. */
  lemma ClimbTurn(p: Parser, n: nat, i: nat, k: nat, j: nat)
    requires Chain(p, n) && k < 6 && Climbing(Levels(p, n), i, j, k) && j <= n && Lv(Levels(p, n), j) == k
    requires ParseOf(p, j, k + 1) == ResultOf(p, n, j, k + 1)
    requires LoopOf(p, n, i, k, Reach(p, n, j, k + 1)) == ResultOf(p, n, i, k)
    ensures LoopOf(p, n, i, k, j) == ResultOf(p, n, i, k)
  {
    ReachOn(p, n, i, k, j);
    ClimbReady(p, n, i, k, j);
    OpFacts(p, n, j);
    OpNext(p, n, j);
    StopsAt(p, n, j, k);
    SpanSplit(p, n, i, j, k);
    Turn(OpAt(p, j), k, Span(p, n, i, j), Span(p, n, j, Reach(p, n, j, k + 1)), OpAt(p, Reach(p, n, j, k + 1)),
         Span(p, n, i, Reach(p, n, i, k)), OpAt(p, Reach(p, n, i, k)));
  }

  //
  // The laws of ChainTrees hold of the parser
  //

  lemma TopCase(p: Parser, n: nat, i: nat)
    requires Chain(p, n) && i <= |Levels(p, n)|
    ensures TopRule(Parses(p), Results(p, n), i)
  {
    LevelTop(p, n, i);
  }

  lemma TopHolds(p: Parser, n: nat)
    requires Chain(p, n)
    ensures TopLaw(Levels(p, n), Parses(p), Results(p, n))
  {
    forall i: nat | i <= |Levels(p, n)|
      ensures TopRule(Parses(p), Results(p, n), i)
    {
      TopCase(p, n, i);
    }
  }

  lemma LoopCase(p: Parser, n: nat, i: nat, k: nat)
    requires Chain(p, n) && i <= |Levels(p, n)| && k < 6
    ensures LoopRule(Levels(p, n), Parses(p), Loops(p, n), Results(p, n), i, k)
  {
    var lv, E, C, W := Levels(p, n), Parses(p), Loops(p, n), Results(p, n);
    if E(i, k + 1) == W(i, k + 1) && C(i, k, End(lv, i + 1, k + 1)) == W(i, k) {
      LevelStep(p, n, i, k);
    }
  }

  lemma LoopHolds(p: Parser, n: nat)
    requires Chain(p, n)
    ensures LoopLaw(Levels(p, n), Parses(p), Loops(p, n), Results(p, n))
  {
    forall i: nat, k: nat | i <= |Levels(p, n)| && k < 6
      ensures LoopRule(Levels(p, n), Parses(p), Loops(p, n), Results(p, n), i, k)
    {
      LoopCase(p, n, i, k);
    }
  }

  lemma StopCase(p: Parser, n: nat, i: nat, k: nat, j: nat)
    requires Chain(p, n) && k < 6 && Climbing(Levels(p, n), i, j, k) && (j == |Levels(p, n)| + 1 || Lv(Levels(p, n), j) < k)
    ensures StopRule(Loops(p, n), Results(p, n), i, k, j)
  {
    ClimbEnd(p, n, i, k, j);
  }

  lemma StopHolds(p: Parser, n: nat)
    requires Chain(p, n)
    ensures StopLaw(Levels(p, n), Loops(p, n), Results(p, n))
  {
    forall i: nat, k: nat, j: nat | k < 6 && Climbing(Levels(p, n), i, j, k) && (j == |Levels(p, n)| + 1 || Lv(Levels(p, n), j) < k)
      ensures StopRule(Loops(p, n), Results(p, n), i, k, j)
    {
      StopCase(p, n, i, k, j);
    }
  }

  lemma TurnCase(p: Parser, n: nat, i: nat, k: nat, j: nat)
    requires Chain(p, n) && k < 6 && Climbing(Levels(p, n), i, j, k) && j <= |Levels(p, n)| && Lv(Levels(p, n), j) == k
    ensures TurnRule(Levels(p, n), Parses(p), Loops(p, n), Results(p, n), i, k, j)
  {
    var lv, E, C, W := Levels(p, n), Parses(p), Loops(p, n), Results(p, n);
    if E(j, k + 1) == W(j, k + 1) && C(i, k, End(lv, j + 1, k + 1)) == W(i, k) {
      ClimbTurn(p, n, i, k, j);
    }
  }

  lemma TurnHolds(p: Parser, n: nat)
    requires Chain(p, n)
    ensures TurnLaw(Levels(p, n), Parses(p), Loops(p, n), Results(p, n))
  {
    forall i: nat, k: nat, j: nat | k < 6 && Climbing(Levels(p, n), i, j, k) && j <= |Levels(p, n)| && Lv(Levels(p, n), j) == k
      ensures TurnRule(Levels(p, n), Parses(p), Loops(p, n), Results(p, n), i, k, j)
    {
      TurnCase(p, n, i, k, j);
    }
  }

  /** At level 0 the parse takes the whole chain. */
  lemma WholeChain(p: Parser, n: nat)
    requires Chain(p, n)
    ensures Reach(p, n, 0, 0) == n + 1 && At(p, 0) == p && OpAt(p, n + 1) == After(p, 2 * n + 1)
  {
    EndAt(Levels(p, n), 1, 0, n + 1);
  }

  /** `expression` on a chain of any length builds the reference tree of
      the whole chain and stops at the token that ends it. */
  lemma ChainExpression(p: Parser, n: nat)
    requires Chain(p, n)
    ensures Expression(p) == Ok((Span(p, n, 0, n + 1), After(p, 2 * n + 1)))
  {
    TopHolds(p, n);
    LoopHolds(p, n);
    StopHolds(p, n);
    TurnHolds(p, n);
    Climbs(Levels(p, n), Parses(p), Loops(p, n), Results(p, n), 0, 0);
    WholeChain(p, n);
  }

  //
  // The tree reads back as the chain
  //

  /** The tokens `0` to `b - 1` ahead. */
  function Ahead(p: Parser, b: nat): (s: seq<Token>)
    requires b == 0 || p.next + b - 1 < |p.stream.tokens|
    ensures |s| == b
  {
    if b == 0 then [] else Ahead(p, b - 1) + [Upcoming(p, b - 1)]
  }

  lemma {:induction false} WovenAhead(p: Parser, n: nat, j: nat)
    requires Chain(p, n) && j <= n
    ensures Woven(Leaves(p, n), Ops(p, n), 0, j) == Ahead(p, 2 * j + 1)
  {
    var leaves := Leaves(p, n);
    assert Yield(leaves[j]) == [Upcoming(p, 2 * j)];
    if j > 0 {
      WovenAhead(p, n, j - 1);
      assert Ops(p, n)[j - 1] == Upcoming(p, 2 * j - 1);
    }
  }

  lemma SpanWhole(p: Parser, n: nat)
    requires Chain(p, n)
    ensures Span(p, n, 0, n + 1) == Tree(Leaves(p, n), Ops(p, n), Levels(p, n), 0, n)
  {
  }

  /** The tree `expression` builds for a chain holds every token of the
      chain once, in stream order. */
  lemma ChainYield(p: Parser, n: nat)
    requires Chain(p, n)
    ensures Yield(Span(p, n, 0, n + 1)) == Ahead(p, 2 * n + 1)
  {
    SpanWhole(p, n);
    TreeYield(Leaves(p, n), Ops(p, n), Levels(p, n), 0, n);
    WovenAhead(p, n, n);
  }
}
