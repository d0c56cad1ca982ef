/** The recursive-descent parser of src/parser.go. The lexer does not depend
    on the parser, so the tokens `advance` fetches one at a time are the
    stream `Lex` yields, read in order. Every parse function takes a state and
    returns the node it built with the state after it, or the error that
    stopped it. A lexer error stops the parse when the parser advances onto
    it; a parse error carries the line of the token the parser was looking
    at. */
module Parsing {
  import opened Errors
  import opened Numerals
  import opened Lexing
  import opened Ast

  /** The parser state: the token stream the lexer yields, the index of the
      stream token the next `advance` reads, and the parser's `token` and
      `prevToken` fields. */
  datatype Parser = Parser(stream: Stream, next: nat, token: Token, prev: Token)

  /** A state the parser can continue from: the stream is well formed and the
      read index lies in it, both tokens lie in the source, and once the
      current token is EOF the stream is used up and ends in that token. */
  ghost predicate Ready(p: Parser)
  {
    WellFormed(p.stream) && p.next <= |p.stream.tokens| &&
    InBounds(p.stream.src, p.token) && InBounds(p.stream.src, p.prev) &&
    (p.token.tag == EOF ==> p.next == |p.stream.tokens| && p.stream.last == Ok(p.token))
  }

  /** How much input is left: the unread stream tokens, plus one while the
      current token is not EOF. */
  function Rank(p: Parser): nat
    requires p.next <= |p.stream.tokens|
  {
    |p.stream.tokens| - p.next + (if p.token.tag == EOF then 0 else 1)
  }

  /** `q` continues `p` without going back. */
  ghost predicate Keeps(p: Parser, q: Parser)
    requires Ready(p)
  {
    Ready(q) && q.stream == p.stream && Rank(q) <= Rank(p)
  }

  /** `q` continues `p` and has consumed at least one token. */
  ghost predicate Progress(p: Parser, q: Parser)
    requires Ready(p)
  {
    Ready(q) && q.stream == p.stream && Rank(q) < Rank(p)
  }

  /** A parse result that failed failed with a parse error, or with the end
      of the stream (a lexer error, or the no-return marker) after the
      parser advanced onto it. */
  predicate Fails<T>(stream: Stream, r: Result<T>)
  {
    r.Err? ==> r.error.tag == ParseError || stream.last == Err(r.error)
  }

  /** `advance`: the current token becomes the previous one and the next
      stream token the current one. Past the end the stream repeats its EOF
      token, or fails with the lexer error that ended it. */
  function Step(p: Parser): (r: Result<Parser>)
    requires Ready(p)
    ensures r.Ok? ==> Keeps(p, r.value) && r.value.prev == p.token
    ensures r.Ok? && p.token.tag != EOF ==> Rank(r.value) < Rank(p)
    ensures p.next < |p.stream.tokens| ==> r == Ok(p.(next := p.next + 1, token := p.stream.tokens[p.next], prev := p.token))
    ensures p.token.tag == EOF ==> r == Ok(p.(prev := p.token))
    ensures r.Err? ==> p.stream.last == Err(r.error)
  {
    if p.next < |p.stream.tokens| then
      Ok(p.(next := p.next + 1, token := p.stream.tokens[p.next], prev := p.token))
    else
      var tok :- p.stream.last;
      Ok(p.(token := tok, prev := p.token))
  }

  /** The line `GetLineAndCol` reports for an offset, counted one character
      at a time from the start: 1 plus the newlines before `pos`. */
  function LineAt(src: string, pos: int): int
    decreases Clamp(pos, |src|)
  {
    var q := Clamp(pos, |src|);
    if q == 0 then 1 else LineAt(src, q - 1) + (if src[q - 1] == '\n' then 1 else 0)
  }

  /** The parser's line count is the lexer's. */
  lemma {:induction false} LineAtIsLineOf(src: string, pos: int)
    ensures LineAt(src, pos) == LineOf(src, pos)
    decreases Clamp(pos, |src|)
  {
    var q := Clamp(pos, |src|);
    if q > 0 {
      LineAtIsLineOf(src, q - 1);
      NewlineCountStep(src, q - 1);
    }
  }

  /** The tag names of `tags`, separated by ", ". */
  function JoinTags(tags: seq<TokenTag>): string
  {
    if |tags| == 0 then ""
    else if |tags| == 1 then TagText(tags[0])
    else TagText(tags[0]) + ", " + JoinTags(tags[1..])
  }

  /** The error `consume` raises when the current token is none of `expected`. */
  function Expected(p: Parser, expected: seq<TokenTag>): (e: Error)
    requires |expected| >= 1
    ensures e.tag == ParseError
  {
    var saw := " but saw " + TagText(p.token.tag);
    var msg :=
      if |expected| > 1 then "expected one of " + JoinTags(expected) + saw
      else "expected " + TagText(expected[0]) + saw;
    E(ParseError, msg, LineAt(p.stream.src, p.token.pos))
  }

  /** `consume`: when the current token has one of the expected tags, advance
      exactly one token and return the token consumed; otherwise fail with a
      parse error at the current token. */
  function Consume(p: Parser, expected: seq<TokenTag>): (r: Result<(Token, Parser)>)
    requires Ready(p) && |expected| >= 1
    ensures r.Ok? ==> p.token.tag in expected && r.value.0 == p.token && Step(p) == Ok(r.value.1)
    ensures r.Ok? ==> Keeps(p, r.value.1) && r.value.1.prev == p.token
    ensures r.Ok? && p.token.tag != EOF ==> Rank(r.value.1) < Rank(p)
    ensures p.token.tag in expected ==> (r.Ok? <==> Step(p).Ok?)
    ensures p.token.tag !in expected ==> r == Err(Expected(p, expected))
    ensures Fails(p.stream, r)
  {
    if p.token.tag in expected then
      var q :- Step(p);
      Ok((p.token, q))
    else
      Err(Expected(p, expected))
  }

  /** An optional comma between list items: consumed when present. */
  function OptionalComma(p: Parser): (r: Result<Parser>)
    requires Ready(p)
    ensures r.Ok? ==> Keeps(p, r.value)
    ensures p.token.tag != Comma ==> r == Ok(p)
    ensures p.token.tag == Comma && r.Ok? ==> r.value.prev == p.token && Rank(r.value) < Rank(p)
    ensures Fails(p.stream, r)
  {
    if p.token.tag == Comma then
      var c :- Consume(p, [Comma]);
      Ok(c.1)
    else Ok(p)
  }

  //
  // Precedence
  //

  const PrecNone: nat := 0
  const PrecAssign: nat := 1
  const PrecLogical: nat := 2
  const PrecCompare: nat := 3
  const PrecSum: nat := 4
  const PrecProduct: nat := 5
  const PrecHighest: nat := 6

  /** The operator table of `expressionWithPrec`; 0 for every token that is
      not a binary operator there (so it ends the expression). */
  function OpLevel(t: TokenTag): (level: nat)
    ensures level <= PrecProduct
  {
    match t
    case Equal => PrecAssign
    case AmpAmp => PrecLogical
    case EqualEqual | Greater | GreaterEqual | Less | BangEqual => PrecCompare
    case Plus | Minus => PrecSum
    case Star | Slash | Percent => PrecProduct
    case _ => PrecNone
  }

  //
  // What a parsed tree promises about the source
  //

  /** A token snapshot that lies in the source and has the given tag. */
  ghost predicate Spells(src: string, t: Token, tag: TokenTag)
  {
    t.tag == tag && InBounds(src, t)
  }

  /** Every node of the expression was built from tokens of the right kind:
      leaves hold the text of their token, literals and calls point at their
      opening token, binary nodes at an operator of the table or at `[`, and a
      fn literal has a block body. */
  ghost predicate ExprFaithful(src: string, e: Expr)
    decreases e
  {
    match e
    case ExprString(s, t) =>
      t.PrevSlot? && Spells(src, t.tok, Str) && GetString(src, t.tok) == s
    case ExprIdentifier(x, t) =>
      t.PrevSlot? && Spells(src, t.tok, Identifier) && GetString(src, t.tok) == x
    case ExprNum(n, t) =>
      t.PrevSlot? && Spells(src, t.tok, Num) && Atoi(GetString(src, t.tok)) == Parsed(n)
    case ExprNil(t) =>
      t.PrevSlot? && Spells(src, t.tok, Nil)
    case ExprArray(items, t) =>
      t.PrevSlot? && Spells(src, t.tok, LSquare) && AllExprs(src, items)
    case ExprMap(entries, t) =>
      Spells(src, t, LCurly) && AllEntries(src, entries)
    case ExprBinary(l, r, op) =>
      (OpLevel(op.tag) > PrecNone || op.tag == LSquare) &&
      ExprFaithful(src, l) && ExprFaithful(src, r)
    case ExprFuncall(callee, args, _) =>
      ExprFaithful(src, callee) && AllExprs(src, args)
    case ExprFunc(_, _, body, t) =>
      Spells(src, t, Fn) && body.StmtBlock? && StmtFaithful(src, body)
  }

  /** The statement counterpart: bodies of fn, for, if, match cases and block
      sections are blocks, an else branch is a block or a nested if, and an
      expression section points at its label. */
  ghost predicate StmtFaithful(src: string, s: Stmt)
    decreases s
  {
    match s
    case StmtExpr(e) => ExprFaithful(src, e)
    case StmtBlock(stmts, t) =>
      Spells(src, t, LCurly) && AllStmts(src, stmts)
    case StmtVar(x, v, t) =>
      t.PrevSlot? && Spells(src, t.tok, Identifier) && GetString(src, t.tok) == x &&
      ExprFaithful(src, v)
    case StmtFor(_, _, v, body) =>
      ExprFaithful(src, v) && body.StmtBlock? && StmtFaithful(src, body)
    case StmtIf(c, body, elseBody) =>
      ExprFaithful(src, c) && body.StmtBlock? && StmtFaithful(src, body) &&
      (elseBody.Some? ==>
        (elseBody.value.StmtIf? || elseBody.value.StmtBlock?) && StmtFaithful(src, elseBody.value))
    case StmtReturn(v) => ExprFaithful(src, v)
    case StmtMatch(v, cases) =>
      ExprFaithful(src, v) && AllCases(src, cases)
    case StmtContinue(t) => t.NilRef?
    case StmtBreak(t) => t.NilRef?
    case StmtSection(name, body, t) =>
      (body.StmtBlock? || body.StmtExpr?) && StmtFaithful(src, body) &&
      (body.StmtBlock? ==> t.CurrentSlot?) &&
      (body.StmtExpr? ==> t.PrevSlot? && Spells(src, t.tok, Identifier) && GetString(src, t.tok) == name)
  }

  ghost predicate AllExprs(src: string, es: seq<Expr>)
    decreases es
  {
    forall i | 0 <= i < |es| :: ExprFaithful(src, es[i])
  }

  ghost predicate AllStmts(src: string, ss: seq<Stmt>)
    decreases ss
  {
    forall i | 0 <= i < |ss| :: StmtFaithful(src, ss[i])
  }

  ghost predicate AllEntries(src: string, items: seq<MapItem>)
    decreases items
  {
    forall i | 0 <= i < |items| :: ExprFaithful(src, items[i].value)
  }

  /** A match case as `matchStmt` builds it: a condition and a block. */
  ghost predicate CaseFaithful(src: string, c: MatchCase)
    decreases c
  {
    ExprFaithful(src, c.cond) && c.body.StmtBlock? && StmtFaithful(src, c.body)
  }

  ghost predicate AllCases(src: string, cases: seq<MatchCase>)
    decreases cases
  {
    forall i | 0 <= i < |cases| :: CaseFaithful(src, cases[i])
  }

  lemma ConsExprs(src: string, e: Expr, rest: seq<Expr>)
    requires ExprFaithful(src, e) && AllExprs(src, rest)
    ensures AllExprs(src, [e] + rest)
  {
  }

  lemma ConsStmts(src: string, s: Stmt, rest: seq<Stmt>)
    requires StmtFaithful(src, s) && AllStmts(src, rest)
    ensures AllStmts(src, [s] + rest)
  {
  }

  lemma ConsEntries(src: string, item: MapItem, rest: seq<MapItem>)
    requires ExprFaithful(src, item.value) && AllEntries(src, rest)
    ensures AllEntries(src, [item] + rest)
  {
  }

  lemma ConsCases(src: string, c: MatchCase, rest: seq<MatchCase>)
    requires CaseFaithful(src, c) && AllCases(src, rest)
    ensures AllCases(src, [c] + rest)
  {
  }

  //
  // Expressions
  //

  function Expression(p: Parser): (r: Result<(Expr, Parser)>)
    requires Ready(p)
    ensures r.Ok? ==> Progress(p, r.value.1) && ExprFaithful(p.stream.src, r.value.0)
    ensures Fails(p.stream, r)
    decreases Rank(p), 10
  {
    ExpressionWithPrec(p, PrecNone)
  }

  /** `expressionWithPrec`: an operand of the next tighter level, then every
      following operator whose level is at least `prec`, each with a right
      operand of the next tighter level, folded to the left. */
  function ExpressionWithPrec(p: Parser, prec: nat): (r: Result<(Expr, Parser)>)
    requires Ready(p) && prec <= PrecHighest
    ensures r.Ok? ==> Progress(p, r.value.1) && ExprFaithful(p.stream.src, r.value.0)
    ensures Fails(p.stream, r)
    decreases Rank(p), 9 - prec
  {
    if prec == PrecHighest then Unary(p)
    else
      var l :- ExpressionWithPrec(p, prec + 1);
      Climb(l.1, prec, l.0)
  }

  /** The operator loop of `expressionWithPrec`, with `lhs` the tree so far. */
  function Climb(p: Parser, prec: nat, lhs: Expr): (r: Result<(Expr, Parser)>)
    requires Ready(p) && prec < PrecHighest && ExprFaithful(p.stream.src, lhs)
    ensures r.Ok? ==> Keeps(p, r.value.1) && ExprFaithful(p.stream.src, r.value.0)
    ensures r.Ok? ==> OpLevel(r.value.1.token.tag) == PrecNone || OpLevel(r.value.1.token.tag) < prec
    ensures OpLevel(p.token.tag) == PrecNone || OpLevel(p.token.tag) < prec ==> r == Ok((lhs, p))
    ensures Fails(p.stream, r)
    decreases Rank(p), 0
  {
    var op := p.token;
    var level := OpLevel(op.tag);
    if level == PrecNone || level < prec then Ok((lhs, p))
    else
      var q :- Step(p);
      var rhs :- ExpressionWithPrec(q, prec + 1);
      Climb(rhs.1, prec, ExprBinary(lhs, rhs.0, op))
  }

  /** `unary`: a primary followed by at most one call or index suffix. */
  function Unary(p: Parser): (r: Result<(Expr, Parser)>)
    requires Ready(p)
    ensures r.Ok? ==> Progress(p, r.value.1) && ExprFaithful(p.stream.src, r.value.0)
    ensures Fails(p.stream, r)
    decreases Rank(p), 2
  {
    var identToken := p.token;
    var l :- Primary(p);
    var q := l.1;
    if q.token.tag == LParen then
      var o :- Consume(q, [LParen]);
      var args :- Arguments(o.1);
      var c :- Consume(args.1, [RParen]);
      Ok((ExprFuncall(l.0, args.0, identToken), c.1))
    else if q.token.tag == LSquare then
      var opToken := q.token;
      var o :- Consume(q, [LSquare]);
      var index :- Expression(o.1);
      var c :- Consume(index.1, [RSquare]);
      Ok((ExprBinary(l.0, index.0, opToken), c.1))
    else
      Ok((l.0, q))
  }

  /** Call arguments up to the closing parenthesis: after each argument a
      comma continues the list and anything else ends it. */
  function Arguments(p: Parser): (r: Result<(seq<Expr>, Parser)>)
    requires Ready(p)
    ensures r.Ok? ==> Keeps(p, r.value.1) && AllExprs(p.stream.src, r.value.0)
    ensures r.Ok? && |r.value.0| == 0 ==> r.value.1 == p
    ensures Fails(p.stream, r)
    decreases Rank(p), 11
  {
    if p.token.tag == RParen then Ok(([], p))
    else
      var a :- Expression(p);
      if a.1.token.tag == Comma then
        var c :- Consume(a.1, [Comma]);
        var rest :- Arguments(c.1);
        ConsExprs(p.stream.src, a.0, rest.0);
        Ok(([a.0] + rest.0, rest.1))
      else
        Ok(([a.0], a.1))
  }

  /** `primary`: a literal, an identifier, a parenthesised expression, an
      array, map or fn literal; any other token is a parse error. */
  function Primary(p: Parser): (r: Result<(Expr, Parser)>)
    requires Ready(p)
    ensures r.Ok? ==> Progress(p, r.value.1) && ExprFaithful(p.stream.src, r.value.0)
    ensures !(p.token.tag in {Str, Num, Nil, Identifier, LSquare, LCurly, LParen, Fn}) ==>
      r == Err(E(ParseError, "expected a value but found " + TagText(p.token.tag), LineAt(p.stream.src, p.token.pos)))
    ensures Fails(p.stream, r)
    decreases Rank(p), 1
  {
    var src := p.stream.src;
    var tag := p.token.tag;
    if tag == Str then
      var c :- Consume(p, [Str]);
      Ok((ExprString(GetString(src, c.0), PrevSlot(c.1.prev)), c.1))
    else if tag == Num then
      var c :- Consume(p, [Num]);
      var text := GetString(src, c.0);
      var n := Atoi(text);
      if n.Parsed? then Ok((ExprNum(n.n, PrevSlot(c.1.prev)), c.1))
      else Err(E(ParseError, AtoiMessage(text, n), LineAt(src, c.1.token.pos)))
    else if tag == Nil then
      var c :- Consume(p, [Nil]);
      Ok((ExprNil(PrevSlot(c.1.prev)), c.1))
    else if tag == Identifier then
      var c :- Consume(p, [Identifier]);
      Ok((ExprIdentifier(GetString(src, c.0), PrevSlot(c.1.prev)), c.1))
    else if tag == LSquare then ArrayLit(p)
    else if tag == LCurly then MapLit(p)
    else if tag == LParen then
      var o :- Consume(p, [LParen]);
      var e :- Expression(o.1);
      var c :- Consume(e.1, [RParen]);
      Ok((e.0, c.1))
    else if tag == Fn then FnLit(p)
    else
      Err(E(ParseError, "expected a value but found " + TagText(tag), LineAt(src, p.token.pos)))
  }

  /** `array`: `[`, items separated by optional commas, `]`. */
  function ArrayLit(p: Parser): (r: Result<(Expr, Parser)>)
    requires Ready(p) && p.token.tag == LSquare
    ensures r.Ok? ==> Progress(p, r.value.1) && ExprFaithful(p.stream.src, r.value.0)
    ensures r.Ok? ==> r.value.0.ExprArray? && r.value.0.openingToken == PrevSlot(p.token)
    ensures Fails(p.stream, r)
    decreases Rank(p), 0
  {
    var o :- Consume(p, [LSquare]);
    var opening := PrevSlot(o.1.prev);
    var items :- ArrayItems(o.1);
    var c :- Consume(items.1, [RSquare]);
    Ok((ExprArray(items.0, opening), c.1))
  }

  function ArrayItems(p: Parser): (r: Result<(seq<Expr>, Parser)>)
    requires Ready(p)
    ensures r.Ok? ==> Keeps(p, r.value.1) && AllExprs(p.stream.src, r.value.0)
    ensures r.Ok? ==> r.value.1.token.tag == RSquare
    ensures Fails(p.stream, r)
    decreases Rank(p), 11
  {
    if p.token.tag == RSquare then Ok(([], p))
    else
      var a :- Expression(p);
      var q :- OptionalComma(a.1);
      var rest :- ArrayItems(q);
      ConsExprs(p.stream.src, a.0, rest.0);
      Ok(([a.0] + rest.0, rest.1))
  }

  /** `hashMap`: `{`, entries `key: value` separated by optional commas, `}`;
      a key is an identifier or a number, kept as its text. */
  function MapLit(p: Parser): (r: Result<(Expr, Parser)>)
    requires Ready(p) && p.token.tag == LCurly
    ensures r.Ok? ==> Progress(p, r.value.1) && ExprFaithful(p.stream.src, r.value.0)
    ensures r.Ok? ==> r.value.0.ExprMap? && r.value.0.mapToken == p.token
    ensures Fails(p.stream, r)
    decreases Rank(p), 0
  {
    var o :- Consume(p, [LCurly]);
    var items :- MapItems(o.1);
    var c :- Consume(items.1, [RCurly]);
    Ok((ExprMap(items.0, o.0), c.1))
  }

  function MapItems(p: Parser): (r: Result<(seq<MapItem>, Parser)>)
    requires Ready(p)
    ensures r.Ok? ==> Keeps(p, r.value.1) && r.value.1.token.tag == RCurly
    ensures r.Ok? ==> AllEntries(p.stream.src, r.value.0)
    ensures Fails(p.stream, r)
    decreases Rank(p), 11
  {
    if p.token.tag == RCurly then Ok(([], p))
    else
      var k :- Consume(p, [Identifier, Num]);
      var c :- Consume(k.1, [Colon]);
      var v :- Expression(c.1);
      var q :- OptionalComma(v.1);
      var rest :- MapItems(q);
      var item := MapItem(GetString(p.stream.src, k.0), v.0);
      ConsEntries(p.stream.src, item, rest.0);
      Ok(([item] + rest.0, rest.1))
  }

  /** `fn`: `fn`, an optional name, a parameter list, a block. */
  function FnLit(p: Parser): (r: Result<(Expr, Parser)>)
    requires Ready(p) && p.token.tag == Fn
    ensures r.Ok? ==> Progress(p, r.value.1) && ExprFaithful(p.stream.src, r.value.0)
    ensures r.Ok? ==> r.value.0.ExprFunc? && r.value.0.fnToken == p.token
    ensures Fails(p.stream, r)
    decreases Rank(p), 0
  {
    var f :- Consume(p, [Fn]);
    var name :- FnName(f.1);
    var o :- Consume(name.1, [LParen]);
    var params :- Params(o.1);
    var c :- Consume(params.1, [RParen]);
    var body :- Block(c.1);
    Ok((ExprFunc(name.0, params.0, body.0, f.0), body.1))
  }

  /** The name of a fn literal: the identifier that follows `fn`, or
      "<anonymous>" when none does. */
  function FnName(p: Parser): (r: Result<(string, Parser)>)
    requires Ready(p)
    ensures r.Ok? ==> Keeps(p, r.value.1)
    ensures p.token.tag != Identifier ==> r == Ok(("<anonymous>", p))
    ensures p.token.tag == Identifier && r.Ok? ==> r.value.0 == GetString(p.stream.src, p.token)
    ensures Fails(p.stream, r)
  {
    if p.token.tag == Identifier then
      var c :- Consume(p, [Identifier]);
      Ok((GetString(p.stream.src, c.0), c.1))
    else Ok(("<anonymous>", p))
  }

  /** Parameter names up to the closing parenthesis, separated by optional
      commas. */
  function Params(p: Parser): (r: Result<(seq<string>, Parser)>)
    requires Ready(p)
    ensures r.Ok? ==> Keeps(p, r.value.1) && r.value.1.token.tag == RParen
    ensures Fails(p.stream, r)
    decreases Rank(p)
  {
    if p.token.tag == RParen then Ok(([], p))
    else
      var c :- Consume(p, [Identifier]);
      var q :- OptionalComma(c.1);
      var rest :- Params(q);
      Ok(([GetString(p.stream.src, c.0)] + rest.0, rest.1))
  }

  //
  // Statements
  //

  /** `block`: `{`, statements up to `}`, `}`. */
  function Block(p: Parser): (r: Result<(Stmt, Parser)>)
    requires Ready(p)
    ensures r.Ok? ==> Progress(p, r.value.1) && StmtFaithful(p.stream.src, r.value.0)
    ensures r.Ok? ==> r.value.0.StmtBlock? && r.value.0.openingToken == p.token
    ensures p.token.tag != LCurly ==> r == Err(Expected(p, [LCurly]))
    ensures Fails(p.stream, r)
    decreases Rank(p), 11
  {
    var o :- Consume(p, [LCurly]);
    var body :- Statements(o.1);
    var c :- Consume(body.1, [RCurly]);
    Ok((StmtBlock(body.0, o.0), c.1))
  }

  function Statements(p: Parser): (r: Result<(seq<Stmt>, Parser)>)
    requires Ready(p)
    ensures r.Ok? ==> Keeps(p, r.value.1) && AllStmts(p.stream.src, r.value.0)
    ensures r.Ok? ==> r.value.1.token.tag == RCurly
    ensures Fails(p.stream, r)
    decreases Rank(p), 13
  {
    if p.token.tag == RCurly then Ok(([], p))
    else
      var s :- Statement(p);
      var rest :- Statements(s.1);
      ConsStmts(p.stream.src, s.0, rest.0);
      Ok(([s.0] + rest.0, rest.1))
  }

  /** `statement`: dispatch on the leading keyword; anything else is an
      expression statement. */
  function Statement(p: Parser): (r: Result<(Stmt, Parser)>)
    requires Ready(p)
    ensures r.Ok? ==> Progress(p, r.value.1) && StmtFaithful(p.stream.src, r.value.0)
    ensures Fails(p.stream, r)
    decreases Rank(p), 12
  {
    var tag := p.token.tag;
    if tag == Var then VarDecl(p)
    else if tag == For then ForLoop(p)
    else if tag == If then IfStmt(p)
    else if tag == Return then
      var c :- Consume(p, [Return]);
      var e :- Expression(c.1);
      Ok((StmtReturn(e.0), e.1))
    else if tag == Continue then
      var c :- Consume(p, [Continue]);
      Ok((StmtContinue(NilRef), c.1))
    else if tag == Break then
      var c :- Consume(p, [Break]);
      Ok((StmtBreak(NilRef), c.1))
    else if tag == Match then MatchStmt(p)
    else if tag == LCurly then Block(p)
    else
      var e :- Expression(p);
      Ok((StmtExpr(e.0), e.1))
  }

  /** `varDecl`: `var name = expression`. */
  function VarDecl(p: Parser): (r: Result<(Stmt, Parser)>)
    requires Ready(p) && p.token.tag == Var
    ensures r.Ok? ==> Progress(p, r.value.1) && StmtFaithful(p.stream.src, r.value.0)
    ensures r.Ok? ==> r.value.0.StmtVar? && p.next < |p.stream.tokens|
    ensures r.Ok? ==> r.value.0.identifier == GetString(p.stream.src, p.stream.tokens[p.next])
    ensures Fails(p.stream, r)
    decreases Rank(p), 11
  {
    var v :- Consume(p, [Var]);
    var i :- Consume(v.1, [Identifier]);
    var nameToken := i.1.prev;
    var e :- Initializer(i.1);
    Ok((StmtVar(GetString(p.stream.src, nameToken), e.0, PrevSlot(nameToken)), e.1))
  }

  /** `= expression`, the initializer of a var declaration. */
  function Initializer(p: Parser): (r: Result<(Expr, Parser)>)
    requires Ready(p)
    ensures r.Ok? ==> Progress(p, r.value.1) && ExprFaithful(p.stream.src, r.value.0)
    ensures p.token.tag != Equal ==> r == Err(Expected(p, [Equal]))
    ensures Fails(p.stream, r)
    decreases Rank(p), 11
  {
    var q :- Consume(p, [Equal]);
    Expression(q.1)
  }

  /** `forLoop`: `for name[, index] in expression block`; the index name is
      empty when absent. */
  function ForLoop(p: Parser): (r: Result<(Stmt, Parser)>)
    requires Ready(p) && p.token.tag == For
    ensures r.Ok? ==> Progress(p, r.value.1) && StmtFaithful(p.stream.src, r.value.0)
    ensures r.Ok? ==> r.value.0.StmtFor? && p.next < |p.stream.tokens|
    ensures r.Ok? ==> r.value.0.identifier == GetString(p.stream.src, p.stream.tokens[p.next])
    ensures Fails(p.stream, r)
    decreases Rank(p), 11
  {
    var f :- Consume(p, [For]);
    var i :- Consume(f.1, [Identifier]);
    var index :- IndexName(i.1);
    var n :- Consume(index.1, [In]);
    var e :- Expression(n.1);
    var body :- Block(e.1);
    Ok((StmtFor(GetString(p.stream.src, i.0), index.0, e.0, body.0), body.1))
  }

  /** The optional `, index` of a for loop: "" when there is no comma. */
  function IndexName(p: Parser): (r: Result<(string, Parser)>)
    requires Ready(p)
    ensures r.Ok? ==> Keeps(p, r.value.1)
    ensures p.token.tag != Comma ==> r == Ok(("", p))
    ensures Fails(p.stream, r)
  {
    if p.token.tag == Comma then
      var c :- Consume(p, [Comma]);
      var i :- Consume(c.1, [Identifier]);
      Ok((GetString(p.stream.src, i.0), i.1))
    else Ok(("", p))
  }

  /** `ifStmt`: `if condition block`, then an optional else branch. */
  function IfStmt(p: Parser): (r: Result<(Stmt, Parser)>)
    requires Ready(p) && p.token.tag == If
    ensures r.Ok? ==> Progress(p, r.value.1) && StmtFaithful(p.stream.src, r.value.0)
    ensures r.Ok? ==> r.value.0.StmtIf?
    ensures Fails(p.stream, r)
    decreases Rank(p), 11
  {
    var i :- Consume(p, [If]);
    var cond :- Expression(i.1);
    var body :- Block(cond.1);
    var alt :- ElseBranch(body.1);
    Ok((StmtIf(cond.0, body.0, alt.0), alt.1))
  }

  /** The else branch of an if statement: none without `else`; after `else`
      a nested if statement when `if` follows, a block otherwise. */
  function ElseBranch(p: Parser): (r: Result<(Option<Stmt>, Parser)>)
    requires Ready(p)
    ensures r.Ok? ==> Keeps(p, r.value.1)
    ensures r.Ok? && r.value.0.Some? ==>
      (r.value.0.value.StmtIf? || r.value.0.value.StmtBlock?) && StmtFaithful(p.stream.src, r.value.0.value)
    ensures p.token.tag != Else ==> r == Ok((None, p))
    ensures p.token.tag == Else && r.Ok? ==>
      Step(p).Ok? && r.value.0.Some? && (r.value.0.value.StmtIf? <==> Step(p).value.token.tag == If)
    ensures Fails(p.stream, r)
    decreases Rank(p), 11
  {
    if p.token.tag != Else then Ok((None, p))
    else
      var e :- Consume(p, [Else]);
      if e.1.token.tag == If then
        var nested :- IfStmt(e.1);
        Ok((Some(nested.0), nested.1))
      else
        var alt :- Block(e.1);
        Ok((Some(alt.0), alt.1))
  }

  /** `matchStmt`: `match value { cond: block ... }`. */
  function MatchStmt(p: Parser): (r: Result<(Stmt, Parser)>)
    requires Ready(p) && p.token.tag == Match
    ensures r.Ok? ==> Progress(p, r.value.1) && StmtFaithful(p.stream.src, r.value.0)
    ensures r.Ok? ==> r.value.0.StmtMatch?
    ensures Fails(p.stream, r)
    decreases Rank(p), 11
  {
    var m :- Consume(p, [Match]);
    var v :- Expression(m.1);
    var o :- Consume(v.1, [LCurly]);
    var cases :- Cases(o.1);
    var c :- Consume(cases.1, [RCurly]);
    Ok((StmtMatch(v.0, cases.0), c.1))
  }

  function Cases(p: Parser): (r: Result<(seq<MatchCase>, Parser)>)
    requires Ready(p)
    ensures r.Ok? ==> Keeps(p, r.value.1) && r.value.1.token.tag == RCurly
    ensures r.Ok? ==> AllCases(p.stream.src, r.value.0)
    ensures Fails(p.stream, r)
    decreases Rank(p), 11
  {
    if p.token.tag == RCurly then Ok(([], p))
    else
      var cond :- Expression(p);
      var c :- Consume(cond.1, [Colon]);
      var body :- Block(c.1);
      var rest :- Cases(body.1);
      ConsCases(p.stream.src, MatchCase(cond.0, body.0), rest.0);
      Ok(([MatchCase(cond.0, body.0)] + rest.0, rest.1))
  }

  //
  // Top level
  //

  /** `section`: `label:` followed by a block or an expression. A block
      section points at the parser's current-token field, an expression
      section at its label. */
  function Section(p: Parser): (r: Result<(Stmt, Parser)>)
    requires Ready(p) && p.token.tag == Identifier
    ensures r.Ok? ==> Progress(p, r.value.1) && StmtFaithful(p.stream.src, r.value.0)
    ensures r.Ok? ==> r.value.0.StmtSection? && r.value.0.sectionName == GetString(p.stream.src, p.token)
    ensures Fails(p.stream, r)
  {
    var i :- Consume(p, [Identifier]);
    var name := GetString(p.stream.src, i.0);
    var labelRef := PrevSlot(i.1.prev);
    var c :- Consume(i.1, [Colon]);
    if c.1.token.tag == LCurly then
      var b :- Block(c.1);
      Ok((StmtSection(name, b.0, CurrentSlot(b.1.token)), b.1))
    else
      var e :- Expression(c.1);
      Ok((StmtSection(name, StmtExpr(e.0), labelRef), e.1))
  }

  /** What the top level accepts: a section, or a fn literal as an expression
      statement. */
  ghost predicate TopLevelItem(src: string, s: Stmt)
  {
    StmtFaithful(src, s) && (s.StmtSection? || (s.StmtExpr? && s.expr.ExprFunc?))
  }

  ghost predicate AllTopLevel(src: string, ss: seq<Stmt>)
  {
    forall i | 0 <= i < |ss| :: TopLevelItem(src, ss[i])
  }

  lemma ConsTopLevel(src: string, s: Stmt, rest: seq<Stmt>)
    requires TopLevelItem(src, s) && AllTopLevel(src, rest)
    ensures AllTopLevel(src, [s] + rest)
  {
  }

  /** The loop of `Parse`: sections and fn literals until EOF; any other token
      is the error `consume(Identifier, Fn)` raises. */
  function TopLevel(p: Parser): (r: Result<seq<Stmt>>)
    requires Ready(p)
    ensures r.Ok? ==> AllTopLevel(p.stream.src, r.value)
    ensures p.token.tag == EOF ==> r == Ok([])
    ensures !(p.token.tag in {EOF, Identifier, Fn}) ==> r == Err(Expected(p, [Identifier, Fn]))
    ensures Fails(p.stream, r)
    decreases Rank(p)
  {
    var tag := p.token.tag;
    if tag == EOF then Ok([])
    else if tag == Identifier then
      var s :- Section(p);
      var rest :- TopLevel(s.1);
      ConsTopLevel(p.stream.src, s.0, rest);
      Ok([s.0] + rest)
    else if tag == Fn then
      var f :- FnLit(p);
      var rest :- TopLevel(f.1);
      ConsTopLevel(p.stream.src, StmtExpr(f.0), rest);
      Ok([StmtExpr(f.0)] + rest)
    else Err(Expected(p, [Identifier, Fn]))
  }

  /** The parser state right after the first `advance` of `NewParser`'s
      state, whose two tokens are `Token(EOF, 0, 0)`. */
  function Start(stream: Stream): (r: Result<Parser>)
    requires WellFormed(stream)
    ensures r.Ok? ==> Ready(r.value) && r.value.stream == stream && r.value.prev == Token(EOF, 0, 0)
    ensures |stream.tokens| > 0 ==> r == Ok(Parser(stream, 1, stream.tokens[0], Token(EOF, 0, 0)))
    ensures r.Err? ==> stream.last == Err(r.error)
  {
    if |stream.tokens| > 0 then Ok(Parser(stream, 1, stream.tokens[0], Token(EOF, 0, 0)))
    else
      var tok :- stream.last;
      Ok(Parser(stream, 0, tok, Token(EOF, 0, 0)))
  }

  /** The parse of a whole token stream: the program, or the first lexer or
      parse error. */
  function ParseTokens(stream: Stream): (r: Result<Program>)
    requires WellFormed(stream)
    ensures r.Ok? ==> AllTopLevel(stream.src, r.value.sections)
    ensures Fails(stream, r)
  {
    var p :- Start(stream);
    var sections :- TopLevel(p);
    Ok(Program(sections))
  }

  /** How a call of `Parse` ends: it returns a program or an error, or it
      never returns because the lexer spins on a string with no closing
      quote. */
  datatype ParseRun = Returns(result: Result<Program>) | Spins

  /** `Parse`: the whole program or the first lexer or parse error; the call
      never returns when the parser advances onto a string that never
      closes. */
  function Parse(src: string): (r: ParseRun)
    ensures r.Returns? && r.result.Ok? ==> AllTopLevel(src, r.result.value.sections)
    ensures r.Returns? && r.result.Err? ==> r.result.error.tag == LexError || r.result.error.tag == ParseError
    ensures Closed(NewLexer(src)) ==> r.Returns?
    ensures r.Spins? ==> !Closed(NewLexer(src))
  {
    var stream := Lex(NewLexer(src));
    LexSpinsIffOpen(NewLexer(src));
    var r := ParseTokens(stream);
    if r == Err(NoReturn) then Spins else Returns(r)
  }
}
