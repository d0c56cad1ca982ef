/** The tree-walking evaluator of src/eval.go: a chain of scopes, expression
    and statement evaluation, and the section guard.

    src/eval.go belongs to an older revision than the parser: a call there
    has exactly one argument, a binary node carries a bare token tag, and
    blocks are statement lists. The model runs it over the one syntax tree of
    `Ast`, reading a block statement as its list of statements and any other
    statement as a list of one.

    A `panic` becomes `Failed` (or `Err`) with a runtime error on line 0; the
    `panic(val)` that a `return` throws becomes `Returned`. Natives are Go
    function values, which the model cannot see: a native is known by a
    number, and calling it is the `natives` parameter. */
module Eval {
  import opened Errors
  import opened Numerals
  import opened Lexing
  import opened Ast
  import opened Values

  //
  // The scope chain
  //

  type Scope = map<string, Value>

  /** The chain of scopes of `Env`, outermost first: the root scope is
      `env[0]` and the current one the last. There is always a root. */
  type Env = e: seq<Scope> | |e| > 0 witness [map[]]

  /** The native functions, by number: a call gives a value or an error. */
  type Natives = (nat, Value) -> Result<Value>

  const PrintNative: nat := 0
  const NumNative: nat := 1

  function Current(env: Env): Scope
  {
    env[|env| - 1]
  }

  /** `name` is bound in some scope of the chain. */
  predicate Bound(env: Env, name: string)
  {
    exists i | 0 <= i < |env| :: name in env[i]
  }

  /** Scope `i` is the innermost one that binds `name`. */
  predicate Innermost(env: Env, name: string, i: int)
  {
    0 <= i < |env| && name in env[i] && forall j | i < j < |env| :: name !in env[j]
  }

  /** Same number of scopes, each binding the same names. */
  predicate SameShape(a: Env, b: Env)
  {
    |a| == |b| && forall i | 0 <= i < |a| :: a[i].Keys == b[i].Keys
  }

  /** `a` is `b` with at most some names added to the current scope. */
  predicate Grown(a: Env, b: Env)
  {
    |a| == |b| && (forall i | 0 <= i < |a| - 1 :: a[i].Keys == b[i].Keys) && Current(b).Keys <= Current(a).Keys
  }

  /** The root scope of `newEvaluator`: `print` and `num`. */
  function RootEnv(): (r: Env)
    ensures |r| == 1
  {
    [map["print" := VNativeFn(PrintNative), "num" := VNativeFn(NumNative)]]
  }

  /** `pushEnv`: a new, empty current scope. */
  function PushEnv(env: Env): (r: Env)
    ensures |r| == |env| + 1 && Current(r) == map[]
  {
    env + [map[]]
  }

  /** `popEnv`: back to the enclosing scope; popping the root is fatal. */
  function PopEnv(env: Env): (r: Result<Env>)
    ensures r.Err? <==> |env| == 1
    ensures r.Err? ==> r == RuntimeFailure("attempted to pop last env")
    ensures r.Ok? ==> |r.value| == |env| - 1 && forall i | 0 <= i < |r.value| :: r.value[i] == env[i]
  {
    if |env| == 1 then RuntimeFailure("attempted to pop last env") else Ok(env[..|env| - 1])
  }

  /** `setEnv`: bind in the current scope only. */
  function SetEnv(env: Env, name: string, val: Value): (r: Env)
    ensures |r| == |env| && forall i | 0 <= i < |env| - 1 :: r[i] == env[i]
    ensures Current(r) == Current(env)[name := val]
    ensures Grown(r, env)
  {
    env[|env| - 1 := Current(env)[name := val]]
  }

  /** `updateEnv`: rebind `name` in the innermost scope that has it; when no
      scope has it, nothing changes. */
  function UpdateEnv(env: Env, name: string, val: Value): (r: Env)
    ensures !Bound(env, name) ==> r == env
    ensures Bound(env, name) ==> exists i :: Innermost(env, name, i) && r == env[i := env[i][name := val]]
    ensures SameShape(r, env)
    decreases |env|
  {
    if name in Current(env) then
      assert Innermost(env, name, |env| - 1);
      SetEnv(env, name, val)
    else if |env| == 1 then
      env
    else
      var outer: Env := env[..|env| - 1];
      var r := UpdateEnv(outer, name, val);
      assert Bound(env, name) ==> Bound(outer, name) by {
        if Bound(env, name) {
          var i :| 0 <= i < |env| && name in env[i];
          assert outer[i] == env[i];
        }
      }
      if Bound(outer, name) then
        var i :| Innermost(outer, name, i) && r == outer[i := outer[i][name := val]];
        assert Innermost(env, name, i);
        assert r + [Current(env)] == env[i := env[i][name := val]];
        r + [Current(env)]
      else
        assert outer + [Current(env)] == env;
        r + [Current(env)]
  }

  /** `find`: the value in the innermost scope binding `name`, or nil and
      `false` when no scope does. */
  function Find(env: Env, name: string): (r: (Value, bool))
    ensures r.1 <==> Bound(env, name)
    ensures r.1 ==> exists i :: Innermost(env, name, i) && r.0 == env[i][name]
    ensures !r.1 ==> r.0 == VNil
    decreases |env|
  {
    if name in Current(env) then
      assert Innermost(env, name, |env| - 1);
      (Current(env)[name], true)
    else if |env| == 1 then
      (VNil, false)
    else
      var outer: Env := env[..|env| - 1];
      var r := Find(outer, name);
      assert Bound(env, name) ==> Bound(outer, name) by {
        if Bound(env, name) {
          var i :| 0 <= i < |env| && name in env[i];
          assert outer[i] == env[i];
        }
      }
      if r.1 then
        var i :| Innermost(outer, name, i) && r.0 == outer[i][name];
        assert Innermost(env, name, i);
        r
      else
        r
  }

  //
  // Expressions
  //

  /** The tag `%v` prints in the error of `compare`: the evaluator's own tag
      numbers; the kinds of value it has no tag for are named. */
  function CompareTagText(v: Value): string
  {
    match v
    case VNil => "0"
    case VStr(_) => "1"
    case VNum(_) => "2"
    case VMap(_) => "3"
    case VNativeFn(_) => "4"
    case _ => TagString(TagOf(v))
  }

  /** `compare` of src/eval.go: two numbers only. */
  function EvalCompare(a: Value, b: Value): (r: Result<bool>)
    ensures r.Ok? <==> a.VNum? && b.VNum?
    ensures r.Ok? ==> (r.value <==> a == b)
    ensures r.Err? ==> r.error.tag == RuntimeError
  {
    if a.VNum? && b.VNum? then Ok(a.num == b.num)
    else RuntimeFailure("cannot compare " + CompareTagText(a) + " and " + CompareTagText(b))
  }

  /** The operators `+`, `*` and `==` once both operands are evaluated. The
      sum and the product are 64-bit. */
  function Arithmetic(op: TokenTag, a: Value, b: Value): (r: Result<Value>)
    requires op == Plus || op == Star || op == EqualEqual
    ensures r.Ok? <==> a.VNum? && b.VNum?
    ensures r.Ok? ==> r.value.VNum? && MinInt64 <= r.value.num <= MaxInt64
    ensures r.Ok? && op == EqualEqual ==> r.value == VNum(if a == b then 1 else 0)
    ensures r.Ok? && op == Plus && MinInt64 <= a.num + b.num <= MaxInt64 ==> r.value.num == a.num + b.num
    ensures r.Ok? && op == Star && MinInt64 <= a.num * b.num <= MaxInt64 ==> r.value.num == a.num * b.num
  {
    if op == Plus then
      if !a.VNum? || !b.VNum? then RuntimeFailure("+ is only supported for numbers")
      else Ok(VNum(Wrap64(a.num + b.num)))
    else if op == Star then
      if !a.VNum? || !b.VNum? then RuntimeFailure("* is only supported for numbers")
      else Ok(VNum(Wrap64(a.num * b.num)))
    else
      var same :- EvalCompare(a, b);
      Ok(VNum(if same then 1 else 0))
  }

  /** `evalExpr`: strings, numbers, variables, one-argument calls of natives,
      assignment, `+`, `*` and `==`. Operands are evaluated left to right,
      each in the chain the previous one left behind. Evaluation never adds
      or removes a binding. */
  function EvalExpr(env: Env, e: Expr, natives: Natives): (r: Result<(Value, Env)>)
    ensures r.Ok? ==> SameShape(r.value.1, env)
    decreases e
  {
    if e.ExprString? then Ok((VStr(e.str), env))
    else if e.ExprNum? then Ok((VNum(e.num), env))
    else if e.ExprIdentifier? then
      var found := Find(env, e.identifier);
      if !found.1 then RuntimeFailure("unknown variable " + e.identifier) else Ok((found.0, env))
    else if e.ExprFuncall? && |e.args| == 1 then
      var f :- EvalExpr(env, e.callee, natives);
      if !f.0.VNativeFn? then RuntimeFailure("attempted to call non function")
      else
        var arg :- EvalExpr(f.1, e.args[0], natives);
        var v :- natives(f.0.native, arg.0);
        Ok((v, arg.1))
    else if e.ExprBinary? && e.op.tag == Equal then
      if !e.lhs.ExprIdentifier? then RuntimeFailure("lhs of an expression must be an identifier")
      else
        var rhs :- EvalExpr(env, e.rhs, natives);
        Ok((rhs.0, UpdateEnv(rhs.1, e.lhs.identifier, rhs.0)))
    else if e.ExprBinary? && (e.op.tag == Plus || e.op.tag == Star || e.op.tag == EqualEqual) then
      var lhs :- EvalExpr(env, e.lhs, natives);
      var rhs :- EvalExpr(lhs.1, e.rhs, natives);
      var v :- Arithmetic(e.op.tag, lhs.0, rhs.0);
      Ok((v, rhs.1))
    else if e.ExprBinary? then
      RuntimeFailure("unknown operator " + TagText(e.op.tag) + "\n")
    else
      RuntimeFailure("unhandled expression type")
  }

  //
  // Statements
  //

  /** How a statement finished: normally, by a `return` (the `panic(val)` of
      src/eval.go, with the chain as it stood), or with an error. */
  datatype Flow = Normal(env: Env) | Returned(value: Value, env: Env) | Failed(error: Error)

  /** The statements of a body: a block's list, or the statement alone. */
  function StmtsOf(body: Stmt): seq<Stmt>
  {
    if body.StmtBlock? then body.stmts else [body]
  }

  function PopFlow(env: Env): (r: Flow)
    ensures r.Normal? <==> |env| > 1
    ensures r.Normal? ==> r.env == env[..|env| - 1]
  {
    var popped := PopEnv(env);
    if popped.Err? then Failed(popped.error) else Normal(popped.value)
  }

  /** The statements `evalStmt` handles, each of which starts by evaluating
      one expression. */
  predicate Handled(s: Stmt)
  {
    s.StmtVar? || s.StmtFor? || s.StmtExpr? || s.StmtIf? || s.StmtReturn?
  }

  /** The expression a handled statement evaluates first. */
  function Subject(s: Stmt): Expr
    requires Handled(s)
  {
    if s.StmtExpr? then s.expr else if s.StmtIf? then s.condition else s.value
  }

  /** `evalStmt`: `var` binds in the current scope, `for` runs its body once
      per map value in a scope of its own, an expression statement is
      evaluated for its effect, `if` runs its body on a truthy condition
      (an `else` is not looked at), `return` ends the section. Any other
      statement is an error. */
  function EvalStmt(env: Env, s: Stmt, natives: Natives): (r: Flow)
    ensures r.Normal? ==> Grown(r.env, env)
    decreases s, 0, 1
  {
    if !Handled(s) then Failed(E(RuntimeError, "unhandled statement type", 0))
    else
      var v := EvalExpr(env, Subject(s), natives);
      if v.Err? then Failed(v.error)
      else
        var r := EvalStmtWith(v.value.1, s, v.value.0, natives);
        GrownAfter(r, v.value.1, env);
        r
  }

  /** The rest of `evalStmt`, once its expression has given `val` and left
      the chain `env`. */
  function EvalStmtWith(env: Env, s: Stmt, val: Value, natives: Natives): (r: Flow)
    requires Handled(s)
    ensures r.Normal? ==> Grown(r.env, env)
    decreases s, 0, 0
  {
    if s.StmtVar? then Normal(SetEnv(env, s.identifier, val))
    else if s.StmtFor? then
      if !val.VMap? then Failed(E(RuntimeError, "expected a obj in for loop", 0))
      else EvalLoop(env, s.identifier, val.entries, s.body, natives)
    else if s.StmtExpr? then Normal(env)
    else if s.StmtIf? then
      if IsTruthy(val) then EvalBlock(env, s.body, natives) else Normal(env)
    else
      Returned(val, env)
  }

  lemma GrownAfter(r: Flow, mid: Env, env: Env)
    requires SameShape(mid, env)
    requires r.Normal? ==> Grown(r.env, mid)
    ensures r.Normal? ==> Grown(r.env, env)
  {
  }

  /** The values of a map, in its iteration order. */
  function MapValues(es: seq<Entry>): (r: seq<Value>)
    ensures |r| == |es| && forall i | 0 <= i < |es| :: r[i] == es[i].val
  {
    seq(|es|, i requires 0 <= i < |es| => es[i].val)
  }

  /** A `for` over a map: the loop runs in a scope of its own, which is
      dropped again on normal completion. */
  function EvalLoop(env: Env, name: string, es: seq<Entry>, body: Stmt, natives: Natives): (r: Flow)
    ensures r.Normal? ==> SameShape(r.env, env)
    decreases body, 4, 0
  {
    var loop := EvalFor(PushEnv(env), name, MapValues(es), 0, body, natives);
    if loop.Normal? then PopFlow(loop.env) else loop
  }

  /** The loop of a `for`: bind the name in the loop's scope, run the body
      as a block, next value. */
  function EvalFor(env: Env, name: string, vals: seq<Value>, i: nat, body: Stmt, natives: Natives): (r: Flow)
    requires i <= |vals|
    ensures r.Normal? ==> Grown(r.env, env)
    decreases body, 3, |vals| - i
  {
    if i == |vals| then Normal(env)
    else
      var run := EvalBlock(SetEnv(env, name, vals[i]), body, natives);
      if run.Normal? then EvalFor(run.env, name, vals, i + 1, body, natives) else run
  }

  /** `evalBlock`: the statements in a new scope, which is dropped again on
      normal completion; so a block that completes leaves every scope binding
      the names it bound before. */
  function EvalBlock(env: Env, body: Stmt, natives: Natives): (r: Flow)
    ensures r.Normal? ==> SameShape(r.env, env)
    decreases body, 2, 0
  {
    var inner := PushEnv(env);
    var run := EvalSeq(inner, body, 0, natives);
    if run.Normal? then PopFlow(run.env) else run
  }

  function EvalSeq(env: Env, body: Stmt, i: nat, natives: Natives): (r: Flow)
    requires i <= |StmtsOf(body)|
    ensures r.Normal? ==> Grown(r.env, env)
    decreases body, 1, |StmtsOf(body)| - i
  {
    if i == |StmtsOf(body)| then Normal(env)
    else
      var s := if body.StmtBlock? then body.stmts[i] else body;
      var run := EvalStmt(env, s, natives);
      if run.Normal? then EvalSeq(run.env, body, i + 1, natives) else run
  }

  //
  // Sections
  //

  /** `Evaluator`: the sections by name, the scope chain, and whether a
      section is running. */
  datatype Evaluator = Evaluator(sections: map<string, Section>, env: Env, inSection: bool)

  /** `evalSection`: an expression section gives its value; a block section
      runs its block and gives nil, and a `return` in it resets the chain to
      the root scope. A section that does not exist gives nil. A section may
      not start while another runs. */
  function EvalSection(ev: Evaluator, name: string, natives: Natives): (r: Result<(Value, Evaluator)>)
    ensures ev.inSection ==> r == RuntimeFailure("cannot nest sections")
    ensures !ev.inSection && name !in ev.sections ==> r == Ok((VNil, ev))
    ensures r.Ok? ==> !r.value.1.inSection && r.value.1.sections == ev.sections
    ensures r.Ok? && name in ev.sections && ev.sections[name].SectionBlock? ==> r.value.0 == VNil
    ensures r.Ok? ==> SameShape(r.value.1.env, ev.env) || |r.value.1.env| == 1
  {
    if ev.inSection then RuntimeFailure("cannot nest sections")
    else if name !in ev.sections then Ok((VNil, ev))
    else
      var section := ev.sections[name];
      if section.SectionBlock? then
        var run := EvalBlock(ev.env, section.block, natives);
        if run.Normal? then Ok((VNil, ev.(env := run.env)))
        else if run.Returned? then Ok((VNil, ev.(env := [run.env[0]])))
        else Err(run.error)
      else
        var v :- EvalExpr(ev.env, section.expression, natives);
        Ok((v.0, ev.(env := v.1)))
  }
}
