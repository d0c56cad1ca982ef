/** What the statement parsers of src/parser.go build from the tokens they
    read: the name a `var` or `for` binds is the text of the identifier token
    after the keyword, a section's body is the block or the expression after
    `label:`, and each compound statement holds what its parts parse. As in
    ParserProps, each shape is stated on the upcoming tokens of an arbitrary
    parser state. */
module ParserStmts {
  import opened Errors
  import opened Lexing
  import opened Ast
  import opened Parsing
  import opened ParserProps
  import opened ParserShapes

  //
  // Declarations
  //

  /** `var name = value`: the declaration binds the text of the identifier
      after `var`, points at that token, and holds what the initializer
      parses; when the initializer fails, so does the declaration, with its
      error. */
  lemma VarDeclShape(p: Parser)
    requires Ready(p) && p.token.tag == Var
    requires p.next + 2 <= |p.stream.tokens| && Upcoming(p, 1).tag == Identifier
    ensures var t := Upcoming(p, 1);
      var init := Initializer(After(p, 2));
      && (init.Ok? ==> VarDecl(p) == Ok((StmtVar(GetString(p.stream.src, t), init.value.0, PrevSlot(t)), init.value.1)))
      && (init.Err? ==> VarDecl(p) == Err(init.error))
  {
    ConsumeHere(p, [Var]);
    ConsumeAt(p, 1, [Identifier]);
  }

  /** `var` not followed by a name is the error of `consume(Identifier)`. */
  lemma VarDeclNoName(p: Parser)
    requires Ready(p) && p.token.tag == Var
    requires p.next + 1 <= |p.stream.tokens| && Upcoming(p, 1).tag != Identifier
    ensures Ready(After(p, 1)) && VarDecl(p) == Err(Expected(After(p, 1), [Identifier]))
  {
    ConsumeHere(p, [Var]);
    AfterToken(p, 1);
  }

  /** `for name[, index] in value block`: given what the index name, the
      value and the block parse to, the loop binds the text of the
      identifier after `for` and holds those parts. */
  lemma ForStep(p: Parser, index: string, q2: Parser, q3: Parser, e: Expr, q4: Parser, body: Stmt, q5: Parser)
    requires Ready(p) && p.token.tag == For
    requires p.next + 2 <= |p.stream.tokens| && Upcoming(p, 1).tag == Identifier
    requires Ready(After(p, 2)) && IndexName(After(p, 2)) == Ok((index, q2))
    requires Ready(q2) && Consume(q2, [In]) == Ok((q2.token, q3))
    requires Ready(q3) && Expression(q3) == Ok((e, q4))
    requires Ready(q4) && Block(q4) == Ok((body, q5))
    ensures ForLoop(p) == Ok((StmtFor(GetString(p.stream.src, Upcoming(p, 1)), index, e, body), q5))
  {
    ConsumeHere(p, [For]);
    ConsumeAt(p, 1, [Identifier]);
  }

  /** `, index`: the index name is the text of the identifier after the
      comma, and both tokens are consumed. */
  lemma IndexNamed(p: Parser)
    requires Ready(p) && p.token.tag == Comma
    requires p.next + 2 <= |p.stream.tokens| && Upcoming(p, 1).tag == Identifier
    ensures IndexName(p) == Ok((GetString(p.stream.src, Upcoming(p, 1)), After(p, 2)))
  {
    ConsumeHere(p, [Comma]);
    ConsumeAt(p, 1, [Identifier]);
  }

  //
  // Sections
  //

  /** `label: { ... }`: the section is named by the label and its body is
      the block after the colon; it fails exactly when the block does. */
  lemma SectionBlockShape(p: Parser)
    requires Ready(p) && p.token.tag == Identifier
    requires p.next + 2 <= |p.stream.tokens| && Upcoming(p, 1).tag == Colon
    requires After(p, 2).token.tag == LCurly
    ensures Ready(After(p, 2))
    ensures var b := Block(After(p, 2));
      && (b.Ok? ==> Parsing.Section(p) == Ok((StmtSection(GetString(p.stream.src, p.token), b.value.0, CurrentSlot(b.value.1.token)), b.value.1)))
      && (b.Err? ==> Parsing.Section(p) == Err(b.error))
  {
    ConsumeHere(p, [Identifier]);
    ConsumeAt(p, 1, [Colon]);
  }

  /** `label: expression`: the section is named by the label, its body is
      the expression after the colon, and it points at the label. */
  lemma SectionExprShape(p: Parser)
    requires Ready(p) && p.token.tag == Identifier
    requires p.next + 2 <= |p.stream.tokens| && Upcoming(p, 1).tag == Colon
    requires After(p, 2).token.tag != LCurly
    ensures Ready(After(p, 2))
    ensures var e := Expression(After(p, 2));
      && (e.Ok? ==> Parsing.Section(p) == Ok((StmtSection(GetString(p.stream.src, p.token), StmtExpr(e.value.0), PrevSlot(p.token)), e.value.1)))
      && (e.Err? ==> Parsing.Section(p) == Err(e.error))
  {
    ConsumeHere(p, [Identifier]);
    ConsumeAt(p, 1, [Colon]);
  }

  /** A label not followed by `:` is the error of `consume(Colon)`. */
  lemma SectionNoColon(p: Parser)
    requires Ready(p) && p.token.tag == Identifier
    requires p.next + 1 <= |p.stream.tokens| && Upcoming(p, 1).tag != Colon
    ensures Ready(After(p, 1)) && Parsing.Section(p) == Err(Expected(After(p, 1), [Colon]))
  {
    ConsumeHere(p, [Identifier]);
    AfterToken(p, 1);
  }

  //
  // Compound statements
  //

  /** `{ statements }`: a block holds what `Statements` parses after the
      opening brace, and ends one token past the closing brace it stops at. */
  lemma BlockShape(p: Parser)
    requires Ready(p) && p.token.tag == LCurly && p.next + 1 <= |p.stream.tokens|
    ensures Ready(After(p, 1))
    ensures var body := Statements(After(p, 1));
      && (body.Ok? ==> Ready(body.value.1) && body.value.1.token.tag == RCurly)
      && (Block(p).Ok? <==> body.Ok? && Step(body.value.1).Ok?)
      && (Block(p).Ok? ==> Block(p).value == (StmtBlock(body.value.0, p.token), Step(body.value.1).value))
  {
    ConsumeHere(p, [LCurly]);
  }

  /** `if condition block [else]`: given what the condition, the block and
      the else branch parse to, the statement holds those parts. */
  lemma IfStep(p: Parser, cond: Expr, q2: Parser, body: Stmt, q3: Parser, alt: Option<Stmt>, q4: Parser)
    requires Ready(p) && p.token.tag == If && p.next + 1 <= |p.stream.tokens|
    requires Ready(After(p, 1)) && Expression(After(p, 1)) == Ok((cond, q2))
    requires Ready(q2) && Block(q2) == Ok((body, q3))
    requires Ready(q3) && ElseBranch(q3) == Ok((alt, q4))
    ensures IfStmt(p) == Ok((StmtIf(cond, body, alt), q4))
  {
    ConsumeHere(p, [If]);
  }

  /** `match value { cases }`: given what the value and the cases parse to,
      the statement holds those parts and ends past the closing brace. */
  lemma MatchStep(p: Parser, v: Expr, q2: Parser, q3: Parser, cases: seq<MatchCase>, q4: Parser, q5: Parser)
    requires Ready(p) && p.token.tag == Match && p.next + 1 <= |p.stream.tokens|
    requires Ready(After(p, 1)) && Expression(After(p, 1)) == Ok((v, q2))
    requires Ready(q2) && Consume(q2, [LCurly]) == Ok((q2.token, q3))
    requires Ready(q3) && Cases(q3) == Ok((cases, q4))
    requires Ready(q4) && Consume(q4, [RCurly]) == Ok((q4.token, q5))
    ensures MatchStmt(p) == Ok((StmtMatch(v, cases), q5))
  {
    ConsumeHere(p, [Match]);
  }
}
