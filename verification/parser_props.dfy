/** What the parser of src/parser.go does on particular token patterns:
    operator precedence and associativity, the tokens that end an expression,
    the single call or index suffix, optional and trailing commas, anonymous
    fn literals, and the error `consume` reports. The patterns are stated on
    the upcoming stream tokens of an arbitrary parser state, so they hold
    wherever the pattern occurs in a program. */
module ParserProps {
  import opened Errors
  import opened Lexing
  import opened Ast
  import opened Parsing

  /** The `k`-th token from the current one (the current one is the 0-th). */
  function Upcoming(p: Parser, k: nat): Token
    requires k == 0 || p.next + k - 1 < |p.stream.tokens|
  {
    if k == 0 then p.token else p.stream.tokens[p.next + k - 1]
  }

  /** The state after `n` advances that stay inside the stream. */
  function After(p: Parser, n: nat): Parser
    requires 1 <= n && p.next + n <= |p.stream.tokens|
  {
    p.(next := p.next + n, token := Upcoming(p, n), prev := Upcoming(p, n - 1))
  }

  /** The leaf `primary` builds for an identifier token `k` tokens ahead. */
  function Ident(p: Parser, k: nat): Expr
    requires k == 0 || p.next + k - 1 < |p.stream.tokens|
    requires InBounds(p.stream.src, Upcoming(p, k))
  {
    var t := Upcoming(p, k);
    ExprIdentifier(GetString(p.stream.src, t), PrevSlot(t))
  }

  /** The operator loop at level `prec` does not take a token with this tag. */
  predicate Stops(t: TokenTag, prec: nat)
  {
    OpLevel(t) == 0 || OpLevel(t) < prec
  }

  /** After an operand, a token with this tag starts no call or index suffix
      and is not taken by the loop at level `prec`. */
  predicate Follows(t: TokenTag, prec: nat)
  {
    t != LParen && t != LSquare && Stops(t, prec)
  }

  /** A tag that ends an expression after an operand: not an operator of the
      table and not the start of a suffix. */
  predicate Ends(t: TokenTag)
  {
    Follows(t, 0)
  }

  //
  // Facts about positions and levels; none of them involves a parse function.
  //

  lemma StopsUp(t: TokenTag, j: nat, k: nat)
    requires Stops(t, j) && j <= k
    ensures Stops(t, k)
  {
  }

  /** Advancing inside the stream keeps the parser ready. */
  lemma ReadyAfter(p: Parser, n: nat)
    requires Ready(p) && 1 <= n && p.next + n <= |p.stream.tokens|
    ensures Ready(After(p, n)) && After(p, n).stream == p.stream
  {
  }

  /** Advancing `m` and then `n` tokens is advancing `m + n`. */
  lemma Shift(p: Parser, m: nat, n: nat)
    requires 1 <= m && p.next + m + n <= |p.stream.tokens|
    ensures n >= 1 ==> After(After(p, m), n) == After(p, m + n)
    ensures Upcoming(After(p, m), n) == Upcoming(p, m + n)
  {
  }

  /** An identifier `m` tokens ahead, followed by a token that ends an operand
      of level `k`. */
  ghost predicate IdentAt(p: Parser, m: nat, k: nat)
  {
    Ready(p) && k <= 6 && p.next + m + 1 <= |p.stream.tokens| &&
    Upcoming(p, m).tag == Identifier && Follows(Upcoming(p, m + 1).tag, k)
  }

  lemma IdentAtUp(p: Parser, m: nat, k: nat)
    requires IdentAt(p, m, k) && k < 6
    ensures IdentAt(p, m, k + 1)
  {
  }

  lemma IdentAtShift(p: Parser, m: nat, k: nat)
    requires IdentAt(p, m, k) && m >= 1
    ensures IdentAt(After(p, m), 0, k)
    ensures Ident(After(p, m), 0) == Ident(p, m) && After(After(p, m), 1) == After(p, m + 1)
  {
    ReadyAfter(p, m);
    Shift(p, m, 0);
    Shift(p, m, 1);
  }

  /** The parser is at an operator the loop at level `prec` takes, with the
      tree `lhs` built so far. */
  ghost predicate TurnAt(p: Parser, prec: nat, lhs: Expr)
  {
    Ready(p) && prec < 6 && ExprFaithful(p.stream.src, lhs) && p.next < |p.stream.tokens| &&
    OpLevel(p.token.tag) > 0 && OpLevel(p.token.tag) >= prec
  }

  //
  // One step of the parse functions at a time
  //

  /** `primary` on an identifier: the leaf holding its text, one token
      consumed. */
  lemma PrimaryIdent(p: Parser)
    requires Ready(p) && p.token.tag == Identifier && p.next < |p.stream.tokens|
    ensures Primary(p) == Ok((Ident(p, 0), After(p, 1)))
  {
  }

  /** An identifier followed by neither `(` nor `[` is a whole operand of the
      tightest level. */
  lemma UnaryIdent(p: Parser)
    requires IdentAt(p, 0, 6)
    ensures ExpressionWithPrec(p, 6) == Ok((Ident(p, 0), After(p, 1)))
  {
    PrimaryIdent(p);
  }

  /** Below the tightest level, an operand of the next tighter level followed
      by what the operator loop makes of it is the parse at this level. */
  lemma Loop(p: Parser, j: nat, e: Expr, q: Parser, f: Expr, r: Parser)
    requires Ready(p) && j < 6
    requires ExpressionWithPrec(p, j + 1) == Ok((e, q)) && Climb(q, j, e) == Ok((f, r))
    ensures ExpressionWithPrec(p, j) == Ok((f, r))
  {
  }

  /** The operator loop at level `j` ends at once on a token it does not
      take, so a parse at level `j + 1` that stops there is one at level `j`. */
  lemma LoopStops(p: Parser, j: nat, e: Expr, q: Parser)
    requires Ready(p) && j < 6
    requires ExpressionWithPrec(p, j + 1) == Ok((e, q)) && Stops(q.token.tag, j)
    ensures ExpressionWithPrec(p, j) == Ok((e, q))
  {
  }

  lemma OperandStep(p: Parser, k: nat)
    requires IdentAt(p, 0, k) && k < 6
    requires ExpressionWithPrec(p, k + 1) == Ok((Ident(p, 0), After(p, 1)))
    ensures ExpressionWithPrec(p, k) == Ok((Ident(p, 0), After(p, 1)))
  {
    LoopStops(p, k, Ident(p, 0), After(p, 1));
  }

  /** A turn of the operator loop: the operator is taken, the operand of the
      next tighter level after it becomes the right operand, and the loop
      goes on from there. */
  lemma Turn(p: Parser, prec: nat, lhs: Expr, rhs: Expr, q: Parser, f: Expr, r: Parser)
    requires TurnAt(p, prec, lhs)
    requires ExpressionWithPrec(After(p, 1), prec + 1) == Ok((rhs, q))
    requires Climb(q, prec, ExprBinary(lhs, rhs, p.token)) == Ok((f, r))
    ensures Climb(p, prec, lhs) == Ok((f, r))
  {
    assert Step(p) == Ok(After(p, 1));
  }

  /** A turn after which the loop ends. */
  lemma LastTurn(p: Parser, prec: nat, lhs: Expr, rhs: Expr, q: Parser)
    requires TurnAt(p, prec, lhs)
    requires ExpressionWithPrec(After(p, 1), prec + 1) == Ok((rhs, q)) && Stops(q.token.tag, prec)
    ensures Climb(p, prec, lhs) == Ok((ExprBinary(lhs, rhs, p.token), q))
  {
    assert Step(p) == Ok(After(p, 1));
  }

  //
  // Operands and levels
  //

  /** An identifier followed by a token the loop at level `k` does not take
      (and that starts no suffix) is parsed at level `k` as that identifier
      alone, consuming one token. */
  lemma {:induction false} Operand(p: Parser, k: nat)
    requires IdentAt(p, 0, k)
    ensures ExpressionWithPrec(p, k) == Ok((Ident(p, 0), After(p, 1)))
    decreases 6 - k
  {
    if k == 6 {
      UnaryIdent(p);
    } else {
      IdentAtUp(p, 0, k);
      Operand(p, k + 1);
      OperandStep(p, k);
    }
  }

  /** `Operand` for the identifier `m` tokens ahead. */
  lemma OperandAt(p: Parser, m: nat, k: nat)
    requires IdentAt(p, m, k) && m >= 1
    ensures ExpressionWithPrec(After(p, m), k) == Ok((Ident(p, m), After(p, m + 1)))
  {
    IdentAtShift(p, m, k);
    Operand(After(p, m), k);
  }

  /** One link of a chain of values: if the value at `i + 1` is `v`, so is the
      value at `i`. */
  ghost predicate Link<T>(f: int -> T, i: int, v: T)
  {
    f(i + 1) == v ==> f(i) == v
  }

  /** A value at `k` carries down every link to `j`. */
  lemma {:induction false} ChainDown<T>(f: int -> T, k: int, j: int, v: T)
    requires j <= k && f(k) == v
    requires forall i :: j <= i < k ==> Link(f, i, v)
    ensures f(j) == v
    decreases k - j
  {
    if j < k {
      ChainDown(f, k, j + 1, v);
      assert Link(f, j, v);
    }
  }

  /** A parse at level `k` that stops at a token the loops of the looser
      levels down to `j` do not take is also the parse at level `j`. */
  lemma Lift(p: Parser, k: nat, j: nat, e: Expr, q: Parser)
    requires Ready(p) && j <= k <= 6 && Stops(q.token.tag, j)
    requires ExpressionWithPrec(p, k) == Ok((e, q))
    ensures ExpressionWithPrec(p, j) == Ok((e, q))
  {
    var v := Ok((e, q));
    var f := (i: int) => if 0 <= i <= 6 then ExpressionWithPrec(p, i) else v;
    forall i | j <= i < k
      ensures Link(f, i, v)
    {
      if f(i + 1) == v {
        StopsUp(q.token.tag, j, i);
        LoopStops(p, i, e, q);
      }
    }
    ChainDown(f, k, j, v);
  }

  /** An identifier followed by a token that ends an expression is a whole
      expression. */
  lemma EndsExpression(p: Parser)
    requires IdentAt(p, 0, 0)
    ensures Expression(p) == Ok((Ident(p, 0), After(p, 1)))
  {
    Operand(p, 0);
  }

  lemma EndsAtLessEqual(p: Parser)
    requires Ready(p) && p.next < |p.stream.tokens|
    requires p.token.tag == Identifier && Upcoming(p, 1).tag in {LessEqual, PipePipe}
    ensures IdentAt(p, 0, 0)
  {
  }

  /** `<=` and `||` are not in the operator table: after an identifier they
      end the expression, which is the identifier alone. */
  lemma LessEqualAndOrEndExpression(p: Parser)
    requires Ready(p) && p.next < |p.stream.tokens|
    requires p.token.tag == Identifier && Upcoming(p, 1).tag in {LessEqual, PipePipe}
    ensures Expression(p) == Ok((Ident(p, 0), After(p, 1)))
  {
    EndsAtLessEqual(p);
    Operand(p, 0);
  }

  //
  // Two operators
  //

  /** `a op b f`: identifiers around a table operator, then a token that
      neither starts a suffix nor is taken by the loop of `op`'s level. */
  ghost predicate PairPattern(p: Parser, op: TokenTag, f: TokenTag)
  {
    Ready(p) && p.next + 3 <= |p.stream.tokens| &&
    p.token.tag == Identifier && Upcoming(p, 1).tag == op && Upcoming(p, 2).tag == Identifier &&
    Upcoming(p, 3).tag == f && OpLevel(op) > 0 && Follows(f, OpLevel(op))
  }

  /** The binary node `a op b` of the pattern. */
  function Pair(p: Parser): Expr
    requires Ready(p) && p.next + 3 <= |p.stream.tokens|
  {
    ExprBinary(Ident(p, 0), Ident(p, 2), Upcoming(p, 1))
  }

  lemma PairFacts(p: Parser, op: TokenTag, f: TokenTag)
    requires PairPattern(p, op, f)
    ensures var l := OpLevel(op);
      l < 6 && IdentAt(p, 0, l + 1) && IdentAt(p, 2, l + 1) && TurnAt(After(p, 1), l, Ident(p, 0)) &&
      After(After(p, 1), 1) == After(p, 2) && After(p, 1).token == Upcoming(p, 1) &&
      Stops(After(p, 3).token.tag, l)
  {
    ReadyAfter(p, 1);
    Shift(p, 1, 1);
  }

  /** `a op b f` at the level of `op`: the loop takes `op` and ends at `f`. */
  lemma PairParse(p: Parser, op: TokenTag, f: TokenTag)
    requires PairPattern(p, op, f)
    ensures ExpressionWithPrec(p, OpLevel(op)) == Ok((Pair(p), After(p, 3)))
  {
    var l := OpLevel(op);
    PairFacts(p, op, f);
    Operand(p, l + 1);
    OperandAt(p, 2, l + 1);
    LastTurn(After(p, 1), l, Ident(p, 0), Ident(p, 2), After(p, 3));
    Loop(p, l, Ident(p, 0), After(p, 1), Pair(p), After(p, 3));
  }

  /** The pattern `a op1 b op2 c t` of identifiers, two table operators and a
      token that ends the expression. */
  ghost predicate TwoOps(p: Parser, op1: TokenTag, op2: TokenTag, t: TokenTag)
  {
    Ready(p) && p.next + 5 <= |p.stream.tokens| &&
    p.token.tag == Identifier && Upcoming(p, 1).tag == op1 && Upcoming(p, 2).tag == Identifier &&
    Upcoming(p, 3).tag == op2 && Upcoming(p, 4).tag == Identifier && Upcoming(p, 5).tag == t &&
    OpLevel(op1) > 0 && OpLevel(op2) > 0 && Ends(t)
  }

  /** The positions of the pattern, as the parse steps below meet them. */
  lemma Positions(p: Parser, op1: TokenTag, op2: TokenTag, t: TokenTag)
    requires TwoOps(p, op1, op2, t)
    ensures Ready(After(p, 1)) && Ready(After(p, 2)) && Ready(After(p, 3)) && Ready(After(p, 5))
    ensures After(After(p, 1), 1) == After(p, 2) && After(After(p, 3), 1) == After(p, 4)
    ensures After(After(p, 2), 3) == After(p, 5)
    ensures After(p, 1).token == Upcoming(p, 1) && After(p, 3).token == Upcoming(p, 3)
    ensures After(p, 3).stream == p.stream && After(p, 2).stream == p.stream
    ensures Stops(After(p, 5).token.tag, 0)
    ensures OpLevel(op1) < 6 && OpLevel(op2) < 6
    ensures Pair(After(p, 2)) == ExprBinary(Ident(p, 2), Ident(p, 4), Upcoming(p, 3))
  {
    ReadyAfter(p, 1);
    ReadyAfter(p, 2);
    ReadyAfter(p, 3);
    ReadyAfter(p, 5);
    Shift(p, 1, 1);
    Shift(p, 3, 1);
    Shift(p, 2, 0);
    Shift(p, 2, 1);
    Shift(p, 2, 2);
    Shift(p, 2, 3);
    Shift(p, 5, 0);
  }

  lemma SameLevelFacts(p: Parser, op1: TokenTag, op2: TokenTag, t: TokenTag)
    requires TwoOps(p, op1, op2, t) && OpLevel(op2) == OpLevel(op1)
    ensures var l := OpLevel(op1);
      IdentAt(p, 0, l + 1) && IdentAt(p, 2, l + 1) && IdentAt(p, 4, l + 1) &&
      TurnAt(After(p, 1), l, Ident(p, 0)) && TurnAt(After(p, 3), l, Pair(p)) &&
      Stops(After(p, 5).token.tag, l)
  {
    Positions(p, op1, op2, t);
  }

  /** The loop of the shared level takes both operators. */
  lemma SameLevelLoop(p: Parser, op1: TokenTag, op2: TokenTag, t: TokenTag)
    requires TwoOps(p, op1, op2, t) && OpLevel(op2) == OpLevel(op1)
    ensures var l := OpLevel(op1);
      l < 6 && Ready(After(p, 1)) && ExprFaithful(p.stream.src, Ident(p, 0)) &&
      Climb(After(p, 1), l, Ident(p, 0)) == Ok((ExprBinary(Pair(p), Ident(p, 4), Upcoming(p, 3)), After(p, 5)))
  {
    var l := OpLevel(op1);
    Positions(p, op1, op2, t);
    SameLevelFacts(p, op1, op2, t);
    OperandAt(p, 2, l + 1);
    OperandAt(p, 4, l + 1);
    LastTurn(After(p, 3), l, Pair(p), Ident(p, 4), After(p, 5));
    Turn(After(p, 1), l, Ident(p, 0), Ident(p, 2), After(p, 3), ExprBinary(Pair(p), Ident(p, 4), Upcoming(p, 3)), After(p, 5));
  }

  /** Two operators of one level associate to the left. */
  lemma SameLevel(p: Parser, op1: TokenTag, op2: TokenTag, t: TokenTag)
    requires TwoOps(p, op1, op2, t) && OpLevel(op2) == OpLevel(op1)
    ensures ExpressionWithPrec(p, OpLevel(op1)) ==
      Ok((ExprBinary(Pair(p), Ident(p, 4), Upcoming(p, 3)), After(p, 5)))
  {
    var l := OpLevel(op1);
    SameLevelFacts(p, op1, op2, t);
    Operand(p, l + 1);
    SameLevelLoop(p, op1, op2, t);
    Loop(p, l, Ident(p, 0), After(p, 1), ExprBinary(Pair(p), Ident(p, 4), Upcoming(p, 3)), After(p, 5));
  }

  lemma LooserFacts(p: Parser, op1: TokenTag, op2: TokenTag, t: TokenTag)
    requires TwoOps(p, op1, op2, t) && OpLevel(op2) < OpLevel(op1)
    ensures var l1, l2 := OpLevel(op1), OpLevel(op2);
      PairPattern(p, op1, op2) && IdentAt(p, 4, l2 + 1) && TurnAt(After(p, 3), l2, Pair(p)) &&
      Stops(After(p, 3).token.tag, l2 + 1) && l2 + 1 <= l1 && Stops(After(p, 5).token.tag, l2)
  {
    Positions(p, op1, op2, t);
  }

  /** `a op1 b` is an operand of the level above `op2`'s. */
  lemma LooserOperand(p: Parser, op1: TokenTag, op2: TokenTag, t: TokenTag)
    requires TwoOps(p, op1, op2, t) && OpLevel(op2) < OpLevel(op1)
    ensures ExpressionWithPrec(p, OpLevel(op2) + 1) == Ok((Pair(p), After(p, 3)))
  {
    Positions(p, op1, op2, t);
    LooserFacts(p, op1, op2, t);
    PairParse(p, op1, op2);
    Lift(p, OpLevel(op1), OpLevel(op2) + 1, Pair(p), After(p, 3));
  }

  /** The loop of `op2`'s level takes `op2` after `a op1 b`. */
  lemma LooserLoop(p: Parser, op1: TokenTag, op2: TokenTag, t: TokenTag)
    requires TwoOps(p, op1, op2, t) && OpLevel(op2) < OpLevel(op1)
    ensures var l2 := OpLevel(op2);
      l2 < 6 && Ready(After(p, 3)) && ExprFaithful(p.stream.src, Pair(p)) &&
      Climb(After(p, 3), l2, Pair(p)) == Ok((ExprBinary(Pair(p), Ident(p, 4), Upcoming(p, 3)), After(p, 5)))
  {
    Positions(p, op1, op2, t);
    LooserFacts(p, op1, op2, t);
    OperandAt(p, 4, OpLevel(op2) + 1);
    LastTurn(After(p, 3), OpLevel(op2), Pair(p), Ident(p, 4), After(p, 5));
  }

  /** After `a op1 b`, an operator of a looser level ends the loop of
      `op1`'s level, and the loop of its own level takes it. */
  lemma LooserSecond(p: Parser, op1: TokenTag, op2: TokenTag, t: TokenTag)
    requires TwoOps(p, op1, op2, t) && OpLevel(op2) < OpLevel(op1)
    ensures ExpressionWithPrec(p, OpLevel(op2)) ==
      Ok((ExprBinary(Pair(p), Ident(p, 4), Upcoming(p, 3)), After(p, 5)))
  {
    LooserOperand(p, op1, op2, t);
    LooserLoop(p, op1, op2, t);
    Loop(p, OpLevel(op2), Pair(p), After(p, 3), ExprBinary(Pair(p), Ident(p, 4), Upcoming(p, 3)), After(p, 5));
  }

  lemma TighterFacts(p: Parser, op1: TokenTag, op2: TokenTag, t: TokenTag)
    requires TwoOps(p, op1, op2, t) && OpLevel(op1) < OpLevel(op2)
    ensures var l1, l2 := OpLevel(op1), OpLevel(op2);
      IdentAt(p, 0, l1 + 1) && PairPattern(After(p, 2), op2, t) &&
      TurnAt(After(p, 1), l1, Ident(p, 0)) && ExprFaithful(p.stream.src, Pair(After(p, 2))) &&
      Stops(After(p, 5).token.tag, l1 + 1) && Stops(After(p, 5).token.tag, l1) && l1 + 1 <= l2
  {
    Positions(p, op1, op2, t);
    Shift(p, 2, 1);
    Shift(p, 2, 2);
    Shift(p, 2, 3);
  }

  /** The loop of `op1`'s level takes `op1` and `b op2 c` after it. */
  lemma TighterLoop(p: Parser, op1: TokenTag, op2: TokenTag, t: TokenTag)
    requires TwoOps(p, op1, op2, t) && OpLevel(op1) < OpLevel(op2)
    ensures var l1 := OpLevel(op1);
      l1 < 6 && Ready(After(p, 1)) && ExprFaithful(p.stream.src, Ident(p, 0)) &&
      Climb(After(p, 1), l1, Ident(p, 0)) == Ok((ExprBinary(Ident(p, 0), Pair(After(p, 2)), Upcoming(p, 1)), After(p, 5)))
  {
    var l1 := OpLevel(op1);
    Positions(p, op1, op2, t);
    TighterFacts(p, op1, op2, t);
    PairParse(After(p, 2), op2, t);
    Lift(After(p, 2), OpLevel(op2), l1 + 1, Pair(After(p, 2)), After(p, 5));
    LastTurn(After(p, 1), l1, Ident(p, 0), Pair(After(p, 2)), After(p, 5));
  }

  /** After `a op1 b`, an operator of a tighter level takes `b` as its left
      operand. */
  lemma TighterSecond(p: Parser, op1: TokenTag, op2: TokenTag, t: TokenTag)
    requires TwoOps(p, op1, op2, t) && OpLevel(op1) < OpLevel(op2)
    ensures ExpressionWithPrec(p, OpLevel(op1)) ==
      Ok((ExprBinary(Ident(p, 0), Pair(After(p, 2)), Upcoming(p, 1)), After(p, 5)))
  {
    var l1 := OpLevel(op1);
    TighterFacts(p, op1, op2, t);
    Operand(p, l1 + 1);
    TighterLoop(p, op1, op2, t);
    Loop(p, l1, Ident(p, 0), After(p, 1), ExprBinary(Ident(p, 0), Pair(After(p, 2)), Upcoming(p, 1)), After(p, 5));
  }

  /** `a op1 b op2 c` followed by a token that ends the expression: the
      operator of the tighter level binds first, and of two operators of the
      same level the left one does (every level is left associative). */
  lemma TwoOperators(p: Parser, op1: TokenTag, op2: TokenTag, t: TokenTag)
    requires TwoOps(p, op1, op2, t)
    ensures var a, b, c := Ident(p, 0), Ident(p, 2), Ident(p, 4);
      var o1, o2 := Upcoming(p, 1), Upcoming(p, 3);
      Expression(p) == Ok((
        if OpLevel(op1) >= OpLevel(op2) then ExprBinary(ExprBinary(a, b, o1), c, o2)
        else ExprBinary(a, ExprBinary(b, c, o2), o1),
        After(p, 5)))
  {
    Positions(p, op1, op2, t);
    if OpLevel(op1) == OpLevel(op2) {
      SameLevel(p, op1, op2, t);
      Lift(p, OpLevel(op1), 0, ExprBinary(Pair(p), Ident(p, 4), Upcoming(p, 3)), After(p, 5));
    } else if OpLevel(op2) < OpLevel(op1) {
      LooserSecond(p, op1, op2, t);
      Lift(p, OpLevel(op2), 0, ExprBinary(Pair(p), Ident(p, 4), Upcoming(p, 3)), After(p, 5));
    } else {
      TighterSecond(p, op1, op2, t);
      Lift(p, OpLevel(op1), 0, ExprBinary(Ident(p, 0), Pair(After(p, 2)), Upcoming(p, 1)), After(p, 5));
    }
  }
}
