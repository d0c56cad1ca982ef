/** Properties of the evaluator: how binding, rebinding and lookup interact
    along the scope chain, and what assignment, the operators, `if`,
    `return` and sections do. */
module EvalProps {
  import opened Errors
  import opened Numerals
  import opened Lexing
  import opened Ast
  import opened Values
  import opened Eval

  //
  // The scope chain
  //

  /** Only one scope is the innermost binding a name. */
  lemma InnermostUnique(env: Env, name: string, i: int, j: int)
    requires Innermost(env, name, i) && Innermost(env, name, j)
    ensures i == j
  {
  }

  /** `find` returns the value bound in scope `i` when `i` is the innermost
      scope binding the name. */
  lemma FindAt(env: Env, name: string, i: int)
    requires Innermost(env, name, i)
    ensures Find(env, name) == (env[i][name], true)
  {
    var r := Find(env, name);
    assert Bound(env, name);
    var k :| Innermost(env, name, k) && r.0 == env[k][name];
    InnermostUnique(env, name, i, k);
  }

  /** A name just bound by `setEnv` is found with its new value. */
  lemma FindAfterSet(env: Env, name: string, val: Value)
    ensures Find(SetEnv(env, name, val), name) == (val, true)
  {
    FindAt(SetEnv(env, name, val), name, |env| - 1);
  }

  /** `setEnv` changes what no other name finds. */
  lemma {:induction false} FindAfterSetOther(env: Env, name: string, other: string, val: Value)
    requires other != name
    ensures Find(SetEnv(env, name, val), other) == Find(env, other)
  {
    var r := SetEnv(env, name, val);
    if other !in Current(env) && |env| > 1 {
      assert r[..|r| - 1] == env[..|env| - 1];
    }
  }

  /** A binding in a fresh inner scope shadows the outer ones: inside, `find`
      gives the new value, and popping the scope gives back the environment
      as it was, with the name bound, or unbound, as before. */
  lemma SetEnvShadows(env: Env, name: string, val: Value)
    ensures Find(SetEnv(PushEnv(env), name, val), name) == (val, true)
    ensures PopEnv(SetEnv(PushEnv(env), name, val)) == Ok(env)
  {
  }

  /** After `updateEnv` of a bound name, `find` gives the new value. */
  lemma FindAfterUpdate(env: Env, name: string, val: Value)
    requires Bound(env, name)
    ensures Find(UpdateEnv(env, name, val), name) == (val, true)
  {
    var r := UpdateEnv(env, name, val);
    var i :| Innermost(env, name, i) && r == env[i := env[i][name := val]];
    assert Innermost(r, name, i);
    FindAt(r, name, i);
  }

  /** `updateEnv` of an unbound name is a silent no-op, and lookups of the
      name still fail. */
  lemma UpdateUnbound(env: Env, name: string, val: Value)
    requires !Bound(env, name)
    ensures UpdateEnv(env, name, val) == env
    ensures Find(UpdateEnv(env, name, val), name) == (VNil, false)
  {
  }

  /** `updateEnv` changes what no other name finds. */
  lemma FindAfterUpdateOther(env: Env, name: string, other: string, val: Value)
    requires other != name
    ensures Find(UpdateEnv(env, name, val), other) == Find(env, other)
  {
    var r := UpdateEnv(env, name, val);
    if Bound(env, name) {
      var i :| Innermost(env, name, i) && r == env[i := env[i][name := val]];
      assert forall k | 0 <= k < |env| :: (other in r[k] <==> other in env[k]);
      assert Bound(r, other) <==> Bound(env, other) by {
        if Bound(env, other) {
          var k :| 0 <= k < |env| && other in env[k];
          assert other in r[k];
        }
        if Bound(r, other) {
          var k :| 0 <= k < |r| && other in r[k];
          assert other in env[k];
        }
      }
      if Bound(env, other) {
        var f := Find(env, other);
        var k :| Innermost(env, other, k) && f.0 == env[k][other];
        assert Innermost(r, other, k);
        assert r[k][other] == env[k][other];
        FindAt(r, other, k);
      }
    }
  }

  /** Popping a pushed scope gives back the chain. */
  lemma PushThenPop(env: Env)
    ensures PopEnv(PushEnv(env)) == Ok(env)
  {
    assert PushEnv(env)[..|env|] == env;
  }

  /** A binding made in a pushed scope is gone once the scope is popped. */
  lemma BindingsDieWithScope(env: Env, name: string, val: Value)
    ensures PopEnv(SetEnv(PushEnv(env), name, val)) == Ok(env)
  {
    assert SetEnv(PushEnv(env), name, val)[..|env|] == env;
  }

  /** An empty new scope hides nothing. */
  lemma {:induction false} FindThroughPush(env: Env, name: string)
    ensures Find(PushEnv(env), name) == Find(env, name)
  {
    assert PushEnv(env)[..|env|] == env;
  }

  /** The root chain cannot be popped; it binds `print` and `num`. */
  lemma RootChain()
    ensures PopEnv(RootEnv()).Err?
    ensures Find(RootEnv(), "num") == (VNativeFn(NumNative), true)
    ensures Find(RootEnv(), "print") == (VNativeFn(PrintNative), true)
  {
  }

  //
  // Expressions
  //

  /** A variable evaluates to what `find` gives, and is an error exactly
      when no scope binds it. */
  lemma Variable(env: Env, x: string, t: TokenRef, natives: Natives)
    ensures EvalExpr(env, ExprIdentifier(x, t), natives).Err? <==> !Bound(env, x)
    ensures Bound(env, x) ==> EvalExpr(env, ExprIdentifier(x, t), natives) == Ok((Find(env, x).0, env))
  {
  }

  /** Assignment to a bound variable evaluates to the right-hand side, and
      afterwards the variable is found with that value. */
  lemma Assignment(env: Env, x: string, t: TokenRef, rhs: Expr, op: Token, natives: Natives)
    requires op.tag == Equal && Bound(env, x)
    requires EvalExpr(env, rhs, natives).Ok?
    ensures var r := EvalExpr(env, ExprBinary(ExprIdentifier(x, t), rhs, op), natives);
      r.Ok? && r.value.0 == EvalExpr(env, rhs, natives).value.0 && Find(r.value.1, x) == (r.value.0, true)
  {
    var p := EvalExpr(env, rhs, natives).value;
    AssignStep(env, x, t, rhs, op, natives);
    assert Bound(p.1, x) by {
      var i :| 0 <= i < |env| && x in env[i];
      assert x in p.1[i];
    }
    FindAfterUpdate(p.1, x, p.0);
  }

  lemma AssignStep(env: Env, x: string, t: TokenRef, rhs: Expr, op: Token, natives: Natives)
    requires op.tag == Equal && EvalExpr(env, rhs, natives).Ok?
    ensures var p := EvalExpr(env, rhs, natives).value;
      EvalExpr(env, ExprBinary(ExprIdentifier(x, t), rhs, op), natives) == Ok((p.0, UpdateEnv(p.1, x, p.0)))
  {
  }

  /** The left of `=` must be a variable. */
  lemma AssignmentTarget(env: Env, lhs: Expr, rhs: Expr, op: Token, natives: Natives)
    requires op.tag == Equal && !lhs.ExprIdentifier?
    ensures EvalExpr(env, ExprBinary(lhs, rhs, op), natives) == RuntimeFailure("lhs of an expression must be an identifier")
  {
  }

  /** `+` and `*` of two numbers give their 64-bit sum and product; with any
      other operand they fail. */
  lemma SumAndProduct(env: Env, lhs: Expr, rhs: Expr, op: Token, natives: Natives)
    requires op.tag == Plus || op.tag == Star
    requires EvalExpr(env, lhs, natives).Ok?
    requires EvalExpr(EvalExpr(env, lhs, natives).value.1, rhs, natives).Ok?
    ensures var a := EvalExpr(env, lhs, natives).value.0;
      var b := EvalExpr(EvalExpr(env, lhs, natives).value.1, rhs, natives).value.0;
      var r := EvalExpr(env, ExprBinary(lhs, rhs, op), natives);
      (r.Ok? <==> a.VNum? && b.VNum?) &&
      (r.Ok? && op.tag == Plus && MinInt64 <= a.num + b.num <= MaxInt64 ==> r.value.0 == VNum(a.num + b.num)) &&
      (r.Ok? && op.tag == Star && MinInt64 <= a.num * b.num <= MaxInt64 ==> r.value.0 == VNum(a.num * b.num)) &&
      (r.Err? && op.tag == Plus ==> r == RuntimeFailure("+ is only supported for numbers")) &&
      (r.Err? && op.tag == Star ==> r == RuntimeFailure("* is only supported for numbers"))
  {
  }

  /** `==` gives 1 for equal numbers and 0 for different ones, and fails on
      anything but two numbers. */
  lemma Equality(env: Env, lhs: Expr, rhs: Expr, op: Token, natives: Natives)
    requires op.tag == EqualEqual
    requires EvalExpr(env, lhs, natives).Ok?
    requires EvalExpr(EvalExpr(env, lhs, natives).value.1, rhs, natives).Ok?
    ensures var a := EvalExpr(env, lhs, natives).value.0;
      var b := EvalExpr(EvalExpr(env, lhs, natives).value.1, rhs, natives).value.0;
      var r := EvalExpr(env, ExprBinary(lhs, rhs, op), natives);
      (r.Ok? <==> a.VNum? && b.VNum?) &&
      (r.Ok? ==> r.value.0 == VNum(if a.num == b.num then 1 else 0))
  {
  }

  /** The evaluator's `compare` is the number case of the value-level
      `Compare`: where it gives an answer, the two agree. */
  lemma CompareAgrees(a: Value, b: Value)
    ensures EvalCompare(a, b).Ok? ==> Compare(a, b) == EvalCompare(a, b)
    ensures EvalCompare(a, b).Ok? <==> Compare(a, b).Ok? && a.VNum? && b.VNum?
  {
  }

  //
  // Statements and sections
  //

  /** `if` runs its body, as a block, only on a truthy condition; its `else`
      is never looked at. */
  lemma IfRunsOnTruthy(env: Env, c: Expr, body: Stmt, els: Option<Stmt>, natives: Natives)
    requires EvalExpr(env, c, natives).Ok?
    ensures var v := EvalExpr(env, c, natives).value;
      EvalStmt(env, StmtIf(c, body, els), natives) ==
        if IsTruthy(v.0) then EvalBlock(v.1, body, natives) else Normal(v.1)
    ensures EvalStmt(env, StmtIf(c, body, els), natives) == EvalStmt(env, StmtIf(c, body, None), natives)
  {
  }

  /** A variable declared in a block does not outlive it. */
  lemma BlockScoping(env: Env, x: string, n: int, t: TokenRef, t': TokenRef, opening: Token, natives: Natives)
    ensures EvalBlock(env, StmtBlock([StmtVar(x, ExprNum(n, t), t')], opening), natives) == Normal(env)
  {
    var body := StmtBlock([StmtVar(x, ExprNum(n, t), t')], opening);
    var inner := PushEnv(env);
    var bound := SetEnv(inner, x, VNum(n));
    assert EvalStmt(inner, body.stmts[0], natives) == Normal(bound);
    assert EvalSeq(bound, body, 1, natives) == Normal(bound);
    BindingsDieWithScope(env, x, VNum(n));
  }

  /** Nothing after a `return` runs: the block ends with the returned value
      and the chain as the returned expression left it. */
  lemma ReturnSkipsRest(env: Env, e: Expr, rest: seq<Stmt>, opening: Token, natives: Natives)
    requires EvalExpr(PushEnv(env), e, natives).Ok?
    ensures var v := EvalExpr(PushEnv(env), e, natives).value;
      EvalBlock(env, StmtBlock([StmtReturn(e)] + rest, opening), natives) == Returned(v.0, v.1)
  {
    var body := StmtBlock([StmtReturn(e)] + rest, opening);
    var inner := PushEnv(env);
    var v := EvalExpr(inner, e, natives).value;
    assert EvalStmt(inner, StmtReturn(e), natives) == Returned(v.0, v.1);
    assert body.stmts[0] == StmtReturn(e);
    assert EvalSeq(inner, body, 0, natives) == Returned(v.0, v.1);
  }

  /** A `return` in a block section discards its value (the section gives
      nil) and resets the chain to the root scope; an error stops the
      program instead. */
  lemma SectionReturn(ev: Evaluator, name: string, natives: Natives)
    requires !ev.inSection && name in ev.sections && ev.sections[name].SectionBlock?
    requires EvalBlock(ev.env, ev.sections[name].block, natives).Returned?
    ensures var r := EvalSection(ev, name, natives);
      r.Ok? && r.value.0 == VNil && |r.value.1.env| == 1 &&
      r.value.1.env[0] == EvalBlock(ev.env, ev.sections[name].block, natives).env[0]
  {
  }

  /** A section cannot run inside another. */
  lemma SectionsDoNotNest(ev: Evaluator, name: string, natives: Natives)
    requires ev.inSection
    ensures EvalSection(ev, name, natives).Err?
    ensures EvalSection(ev, name, natives).error.msg == "cannot nest sections"
  {
  }

  /** A block section that completes leaves every scope binding the names
      it bound before. */
  lemma SectionKeepsShape(ev: Evaluator, name: string, natives: Natives)
    requires !ev.inSection && name in ev.sections && ev.sections[name].SectionBlock?
    requires EvalBlock(ev.env, ev.sections[name].block, natives).Normal?
    ensures EvalSection(ev, name, natives).Ok?
    ensures SameShape(EvalSection(ev, name, natives).value.1.env, ev.env)
  {
  }
}
