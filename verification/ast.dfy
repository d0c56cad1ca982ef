/** The syntax tree of src/ast.go, widened to the nodes src/parser.go builds
    (sections as statements, `nil` literals, map literals, named fn literals).

    A node's token is a pointer in the source. Some nodes point at a token of
    their own, and others at one of the parser's two token fields, which keep
    changing after the node is built. `TokenRef` records which kind of pointer
    a node holds, together with the token the field held when the node was
    built. */
module Ast {
  import opened Errors
  import opened Lexing

  datatype TokenRef =
    | Own(tok: Token)          // a pointer to a copy made for this node
    | PrevSlot(tok: Token)     // `&p.prevToken`; `tok` is its value when the node was built
    | CurrentSlot(tok: Token)  // `&p.token`; likewise
    | NilRef                   // no token

  datatype Expr =
    | ExprString(str: string, token: TokenRef)
    | ExprIdentifier(identifier: string, token: TokenRef)
    | ExprNum(num: int, token: TokenRef)
    | ExprNil(token: TokenRef)
    | ExprArray(items: seq<Expr>, openingToken: TokenRef)
    | ExprMap(entries: seq<MapItem>, mapToken: Token)
    | ExprBinary(lhs: Expr, rhs: Expr, op: Token)
    | ExprFuncall(callee: Expr, args: seq<Expr>, identifierToken: Token)
    | ExprFunc(fnName: string, params: seq<string>, body: Stmt, fnToken: Token)

  datatype MapItem = MapItem(key: string, value: Expr)

  datatype Stmt =
    | StmtExpr(expr: Expr)
    | StmtBlock(stmts: seq<Stmt>, openingToken: Token)
    | StmtVar(identifier: string, value: Expr, identifierToken: TokenRef)
    | StmtFor(identifier: string, indexIdentifier: string, value: Expr, body: Stmt)
    | StmtIf(condition: Expr, body: Stmt, elseBody: Option<Stmt>)
    | StmtReturn(value: Expr)
    | StmtMatch(value: Expr, cases: seq<MatchCase>)
    | StmtContinue(token: TokenRef)
    | StmtBreak(token: TokenRef)
    | StmtSection(sectionName: string, body: Stmt, token: TokenRef)

  datatype MatchCase = MatchCase(cond: Expr, body: Stmt)

  /** A parsed program: its top-level statements, in source order. */
  datatype Program = Program(sections: seq<Stmt>)

  /** The two section shapes of the evaluator: a labelled expression or a
      labelled block. */
  datatype Section =
    | SectionExpr(name: string, expression: Expr, labelToken: TokenRef)
    | SectionBlock(name: string, block: Stmt, openingToken: TokenRef)

  /** `Token()` of an expression node: each node reports the pointer it
      stores; a binary node (including an index) its operator. */
  function ExprToken(e: Expr): (r: TokenRef)
  {
    match e
    case ExprString(_, t) => t
    case ExprIdentifier(_, t) => t
    case ExprNum(_, t) => t
    case ExprNil(t) => t
    case ExprArray(_, t) => t
    case ExprMap(_, t) => Own(t)
    case ExprBinary(_, _, op) => Own(op)
    case ExprFuncall(_, _, t) => Own(t)
    case ExprFunc(_, _, _, t) => Own(t)
  }

  /** `Token()` of a statement node: the statements built around an
      expression (expression, for, if, return, match) report that expression's
      token; the others the pointer they store. */
  function StmtToken(s: Stmt): (r: TokenRef)
  {
    match s
    case StmtExpr(e) => ExprToken(e)
    case StmtBlock(_, t) => Own(t)
    case StmtVar(_, _, t) => t
    case StmtFor(_, _, v, _) => ExprToken(v)
    case StmtIf(c, _, _) => ExprToken(c)
    case StmtReturn(v) => ExprToken(v)
    case StmtMatch(v, _) => ExprToken(v)
    case StmtContinue(t) => t
    case StmtBreak(t) => t
    case StmtSection(_, _, t) => t
  }

  /** `Token()` of a section: the label token of an expression section, the
      opening token of a block section. */
  function SectionToken(s: Section): (r: TokenRef)
  {
    match s
    case SectionExpr(_, _, t) => t
    case SectionBlock(_, _, t) => t
  }

  /** `getName()` of a section: its label. */
  function SectionName(s: Section): (r: string)
  {
    s.name
  }

  /** The expression a statement is built around: the expression of an
      expression statement, the iterable of a for loop, the condition of an
      if, the value of a return or a match. */
  function Subject(s: Stmt): Option<Expr>
  {
    match s
    case StmtExpr(e) => Some(e)
    case StmtFor(_, _, v, _) => Some(v)
    case StmtIf(c, _, _) => Some(c)
    case StmtReturn(v) => Some(v)
    case StmtMatch(v, _) => Some(v)
    case _ => None
  }

  /** A statement built around an expression reports the token of that
      expression; a block, a var declaration, `continue` and `break` report
      the token they hold. */
  lemma StatementTokens(s: Stmt)
    ensures Subject(s).Some? ==> StmtToken(s) == ExprToken(Subject(s).value)
    ensures s.StmtBlock? ==> StmtToken(s) == Own(s.openingToken)
    ensures s.StmtVar? ==> StmtToken(s) == s.identifierToken
    ensures s.StmtContinue? || s.StmtBreak? ==> StmtToken(s) == s.token
  {
  }

  /** A binary node, an index among them, reports its operator; a call its
      callee's token; literals and leaves the token they hold. */
  lemma ExpressionTokens(e: Expr)
    ensures e.ExprBinary? ==> ExprToken(e) == Own(e.op)
    ensures e.ExprFuncall? ==> ExprToken(e) == Own(e.identifierToken)
    ensures e.ExprIdentifier? || e.ExprString? || e.ExprNum? || e.ExprNil? ==> ExprToken(e) == e.token
    ensures e.ExprArray? ==> ExprToken(e) == e.openingToken
  {
  }

  /** Both kinds of section answer `getName` with their label, and `Token`
      with the token they hold. */
  lemma SectionNames(name: string, e: Expr, b: Stmt, t: TokenRef, u: TokenRef)
    ensures SectionName(SectionExpr(name, e, t)) == name && SectionName(SectionBlock(name, b, u)) == name
    ensures SectionToken(SectionExpr(name, e, t)) == t && SectionToken(SectionBlock(name, b, u)) == u
  {
  }

  /** The section a parsed `StmtSection` stands for: a block body makes a block
      section, an expression body (which the parser wraps in `StmtExpr`) an
      expression section. */
  function AsSection(s: Stmt): (r: Section)
    requires s.StmtSection? && (s.body.StmtBlock? || s.body.StmtExpr?)
    ensures SectionName(r) == s.sectionName && SectionToken(r) == s.token
    ensures r.SectionBlock? <==> s.body.StmtBlock?
    ensures s.body.StmtExpr? ==> r == SectionExpr(s.sectionName, s.body.expr, s.token)
  {
    match s.body
    case StmtBlock(_, _) => SectionBlock(s.sectionName, s.body, s.token)
    case StmtExpr(e) => SectionExpr(s.sectionName, e, s.token)
  }
}
