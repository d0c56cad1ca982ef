/** What the parser of src/parser.go builds for the call and index suffixes,
    for lists with optional and trailing commas, for an anonymous fn literal,
    and which error a mismatched `consume` reports. As in ParserProps, each
    pattern is stated on the upcoming tokens of an arbitrary parser state. */
module ParserShapes {
  import opened Errors
  import opened Lexing
  import opened Ast
  import opened Parsing
  import opened ParserProps

  //
  // Consuming inside the stream
  //

  /** `consume` of an expected token inside the stream: exactly one advance,
      returning the token consumed. */
  lemma ConsumeHere(p: Parser, tags: seq<TokenTag>)
    requires Ready(p) && p.next < |p.stream.tokens| && |tags| >= 1 && p.token.tag in tags
    ensures Consume(p, tags) == Ok((p.token, After(p, 1)))
  {
  }

  /** `ConsumeHere` for the token `n` tokens ahead. */
  lemma ConsumeAt(p: Parser, n: nat, tags: seq<TokenTag>)
    requires Ready(p) && 1 <= n && p.next + n + 1 <= |p.stream.tokens|
    requires |tags| >= 1 && Upcoming(p, n).tag in tags
    ensures Ready(After(p, n)) && After(p, n).stream == p.stream && After(p, n).token == Upcoming(p, n)
    ensures Consume(After(p, n), tags) == Ok((After(p, n).token, After(p, n + 1)))
  {
    ReadyAfter(p, n);
    Shift(p, n, 0);
    Shift(p, n, 1);
    ConsumeHere(After(p, n), tags);
  }

  /** The `k`-th upcoming token is the current token `k` advances later. */
  lemma AfterToken(p: Parser, k: nat)
    requires Ready(p) && 1 <= k && p.next + k <= |p.stream.tokens|
    ensures Ready(After(p, k)) && After(p, k).stream == p.stream
    ensures After(p, k).token == Upcoming(p, k) && After(p, k).prev == Upcoming(p, k - 1)
  {
    ReadyAfter(p, k);
  }

  //
  // One parse function at a time, with the results of its parts given
  //

  /** `unary` with a call suffix. */
  lemma CallStep(p: Parser, e: Expr, q: Parser, q1: Parser, args: seq<Expr>, q2: Parser, q3: Parser)
    requires Ready(p) && Primary(p) == Ok((e, q)) && q.token.tag == LParen
    requires Consume(q, [LParen]) == Ok((q.token, q1)) && Arguments(q1) == Ok((args, q2))
    requires Consume(q2, [RParen]) == Ok((q2.token, q3))
    ensures ExpressionWithPrec(p, 6) == Ok((ExprFuncall(e, args, p.token), q3))
  {
    assert ExpressionWithPrec(p, 6) == Unary(p);
  }

  /** `unary` with a call suffix whose arguments stop before a token other
      than `)`. */
  lemma CallStepFails(p: Parser, e: Expr, q: Parser, q1: Parser, args: seq<Expr>, q2: Parser)
    requires Ready(p) && Primary(p) == Ok((e, q)) && q.token.tag == LParen
    requires Consume(q, [LParen]) == Ok((q.token, q1)) && Arguments(q1) == Ok((args, q2))
    requires q2.token.tag != RParen
    ensures ExpressionWithPrec(p, 6) == Err(Expected(q2, [RParen]))
  {
    assert ExpressionWithPrec(p, 6) == Unary(p);
  }

  /** `unary` with an index suffix. */
  lemma IndexStep(p: Parser, e: Expr, q: Parser, q1: Parser, index: Expr, q2: Parser, q3: Parser)
    requires Ready(p) && Primary(p) == Ok((e, q)) && q.token.tag == LSquare
    requires Consume(q, [LSquare]) == Ok((q.token, q1)) && Expression(q1) == Ok((index, q2))
    requires Consume(q2, [RSquare]) == Ok((q2.token, q3))
    ensures ExpressionWithPrec(p, 6) == Ok((ExprBinary(e, index, q.token), q3))
  {
    assert ExpressionWithPrec(p, 6) == Unary(p);
  }

  lemma ArgumentsLast(p: Parser, e: Expr, q: Parser)
    requires Ready(p) && p.token.tag != RParen && Expression(p) == Ok((e, q)) && q.token.tag != Comma
    ensures Arguments(p) == Ok(([e], q))
  {
  }

  lemma ArgumentsMore(p: Parser, e: Expr, q: Parser, q1: Parser, rest: seq<Expr>, r: Parser)
    requires Ready(p) && p.token.tag != RParen && Expression(p) == Ok((e, q)) && q.token.tag == Comma
    requires Consume(q, [Comma]) == Ok((q.token, q1)) && Arguments(q1) == Ok((rest, r))
    ensures Arguments(p) == Ok(([e] + rest, r))
  {
  }

  lemma ItemsStep(p: Parser, e: Expr, q: Parser, q1: Parser, rest: seq<Expr>, r: Parser)
    requires Ready(p) && p.token.tag != RSquare && Expression(p) == Ok((e, q))
    requires OptionalComma(q) == Ok(q1) && ArrayItems(q1) == Ok((rest, r))
    ensures ArrayItems(p) == Ok(([e] + rest, r))
  {
  }

  /** `ItemsStep` for the last item. */
  lemma ItemsLast(p: Parser, e: Expr, q: Parser, q1: Parser, r: Parser)
    requires Ready(p) && p.token.tag != RSquare && Expression(p) == Ok((e, q))
    requires OptionalComma(q) == Ok(q1) && ArrayItems(q1) == Ok(([], r))
    ensures ArrayItems(p) == Ok(([e], r))
  {
    ItemsStep(p, e, q, q1, [], r);
    assert [e] + [] == [e];
  }

  /** `ItemsStep` for the last item but one. */
  lemma ItemsPair(p: Parser, e: Expr, q: Parser, q1: Parser, f: Expr, r: Parser)
    requires Ready(p) && p.token.tag != RSquare && Expression(p) == Ok((e, q))
    requires OptionalComma(q) == Ok(q1) && ArrayItems(q1) == Ok(([f], r))
    ensures ArrayItems(p) == Ok(([e, f], r))
  {
    ItemsStep(p, e, q, q1, [f], r);
    assert [e] + [f] == [e, f];
  }

  lemma ArrayStep(p: Parser, q1: Parser, items: seq<Expr>, q2: Parser, q3: Parser)
    requires Ready(p) && p.token.tag == LSquare && Consume(p, [LSquare]) == Ok((p.token, q1))
    requires ArrayItems(q1) == Ok((items, q2)) && Consume(q2, [RSquare]) == Ok((q2.token, q3))
    ensures Primary(p) == Ok((ExprArray(items, PrevSlot(p.token)), q3))
  {
  }

  lemma ParamsStep(p: Parser, q1: Parser, q2: Parser, rest: seq<string>, r: Parser)
    requires Ready(p) && p.token.tag == Identifier && Consume(p, [Identifier]) == Ok((p.token, q1))
    requires OptionalComma(q1) == Ok(q2) && Params(q2) == Ok((rest, r))
    ensures Params(p) == Ok(([GetString(p.stream.src, p.token)] + rest, r))
  {
  }

  lemma FnStep(p: Parser, q1: Parser, name: string, q2: Parser, q3: Parser, params: seq<string>,
               q4: Parser, q5: Parser, body: Stmt, q6: Parser)
    requires Ready(p) && p.token.tag == Fn && Consume(p, [Fn]) == Ok((p.token, q1))
    requires FnName(q1) == Ok((name, q2)) && Consume(q2, [LParen]) == Ok((q2.token, q3))
    requires Params(q3) == Ok((params, q4)) && Consume(q4, [RParen]) == Ok((q4.token, q5))
    requires Block(q5) == Ok((body, q6))
    ensures FnLit(p) == Ok((ExprFunc(name, params, body, p.token), q6))
  {
  }

  lemma BlockStep(p: Parser, q1: Parser, q2: Parser)
    requires Ready(p) && p.token.tag == LCurly && Consume(p, [LCurly]) == Ok((p.token, q1))
    requires q1.token.tag == RCurly && Consume(q1, [RCurly]) == Ok((q1.token, q2))
    ensures Block(p) == Ok((StmtBlock([], p.token), q2))
  {
  }

  /** Each list ends at once at its closing token. */
  lemma ListsEnd(p: Parser)
    requires Ready(p)
    ensures p.token.tag == RParen ==> Arguments(p) == Ok(([], p)) && Params(p) == Ok(([], p))
    ensures p.token.tag == RSquare ==> ArrayItems(p) == Ok(([], p))
    ensures p.token.tag == RCurly ==> MapItems(p) == Ok(([], p))
  {
  }

  /** A comma inside the stream is consumed by `OptionalComma`. */
  lemma CommaAt(p: Parser, n: nat)
    requires Ready(p) && 1 <= n && p.next + n + 1 <= |p.stream.tokens| && Upcoming(p, n).tag == Comma
    ensures Ready(After(p, n)) && After(p, n).token == Upcoming(p, n)
    ensures OptionalComma(After(p, n)) == Ok(After(p, n + 1))
  {
    ConsumeAt(p, n, [Comma]);
  }

  //
  // Suffixes
  //

  /** `a ( )`, then any token. */
  ghost predicate EmptyCallAt(p: Parser)
  {
    Ready(p) && p.next + 3 <= |p.stream.tokens| &&
    p.token.tag == Identifier && Upcoming(p, 1).tag == LParen && Upcoming(p, 2).tag == RParen
  }

  lemma EmptyCallFacts(p: Parser)
    requires EmptyCallAt(p)
    ensures Ready(After(p, 1)) && After(p, 1).token.tag == LParen
    ensures Ready(After(p, 2)) && After(p, 2).token.tag == RParen && After(p, 2).stream == p.stream
    ensures Consume(After(p, 1), [LParen]) == Ok((After(p, 1).token, After(p, 2)))
    ensures Consume(After(p, 2), [RParen]) == Ok((After(p, 2).token, After(p, 3)))
  {
    ConsumeAt(p, 1, [LParen]);
    ConsumeAt(p, 2, [RParen]);
  }

  /** A call with no arguments is the one suffix `unary` takes: the parse of
      the operand ends after `)`, whatever token comes next (a second `(` or
      `[` included). The call points at the callee's token. */
  lemma EmptyCall(p: Parser)
    requires EmptyCallAt(p)
    ensures ExpressionWithPrec(p, 6) == Ok((ExprFuncall(Ident(p, 0), [], p.token), After(p, 3)))
  {
    EmptyCallFacts(p);
    PrimaryIdent(p);
    ListsEnd(After(p, 2));
    CallStep(p, Ident(p, 0), After(p, 1), After(p, 2), [], After(p, 2), After(p, 3));
  }

  /** `a ( ) (` is the expression `a()`, which ends at the second `(`: a
      primary takes at most one suffix. */
  lemma OneSuffix(p: Parser)
    requires EmptyCallAt(p) && p.next + 4 <= |p.stream.tokens| && Upcoming(p, 3).tag == LParen
    ensures Expression(p) == Ok((ExprFuncall(Ident(p, 0), [], p.token), After(p, 3)))
    ensures After(p, 3).token.tag == LParen
  {
    EmptyCall(p);
    AfterToken(p, 3);
    Lift(p, 6, 0, ExprFuncall(Ident(p, 0), [], p.token), After(p, 3));
  }

  /** `a [ b ]`, then any token. */
  ghost predicate IndexAt(p: Parser)
  {
    Ready(p) && p.next + 4 <= |p.stream.tokens| &&
    p.token.tag == Identifier && Upcoming(p, 1).tag == LSquare &&
    Upcoming(p, 2).tag == Identifier && Upcoming(p, 3).tag == RSquare
  }

  lemma IndexFacts(p: Parser)
    requires IndexAt(p)
    ensures Ready(After(p, 1)) && After(p, 1).token == Upcoming(p, 1)
    ensures Consume(After(p, 1), [LSquare]) == Ok((After(p, 1).token, After(p, 2)))
    ensures IdentAt(After(p, 2), 0, 0) && Ident(After(p, 2), 0) == Ident(p, 2)
    ensures After(After(p, 2), 1) == After(p, 3) && After(p, 3).stream == p.stream
    ensures Consume(After(p, 3), [RSquare]) == Ok((After(p, 3).token, After(p, 4)))
  {
    ConsumeAt(p, 1, [LSquare]);
    IdentAtShift(p, 2, 0);
    ConsumeAt(p, 3, [RSquare]);
  }

  /** An index suffix builds a binary node whose operator is the `[` token. */
  lemma IndexIsBinary(p: Parser)
    requires IndexAt(p)
    ensures ExpressionWithPrec(p, 6) ==
      Ok((ExprBinary(Ident(p, 0), Ident(p, 2), Upcoming(p, 1)), After(p, 4)))
  {
    IndexFacts(p);
    PrimaryIdent(p);
    EndsExpression(After(p, 2));
    IndexStep(p, Ident(p, 0), After(p, 1), After(p, 2), Ident(p, 2), After(p, 3), After(p, 4));
  }

  //
  // Commas
  //

  /** `[ a b , ]`: items need no comma between them and may end with one. */
  ghost predicate ArrayAt(p: Parser)
  {
    Ready(p) && p.next + 5 <= |p.stream.tokens| &&
    p.token.tag == LSquare && Upcoming(p, 1).tag == Identifier && Upcoming(p, 2).tag == Identifier &&
    Upcoming(p, 3).tag == Comma && Upcoming(p, 4).tag == RSquare
  }

  lemma ArrayFacts(p: Parser)
    requires ArrayAt(p)
    ensures IdentAt(After(p, 1), 0, 0) && IdentAt(After(p, 2), 0, 0)
    ensures Ident(After(p, 1), 0) == Ident(p, 1) && Ident(After(p, 2), 0) == Ident(p, 2)
    ensures After(After(p, 1), 1) == After(p, 2) && After(After(p, 2), 1) == After(p, 3)
    ensures After(p, 2).token.tag == Identifier && OptionalComma(After(p, 2)) == Ok(After(p, 2))
    ensures OptionalComma(After(p, 3)) == Ok(After(p, 4))
    ensures Ready(After(p, 4)) && After(p, 4).token.tag == RSquare && After(p, 4).stream == p.stream
    ensures Consume(p, [LSquare]) == Ok((p.token, After(p, 1)))
    ensures Consume(After(p, 4), [RSquare]) == Ok((After(p, 4).token, After(p, 5)))
  {
    IdentAtShift(p, 1, 0);
    IdentAtShift(p, 2, 0);
    AfterToken(p, 2);
    CommaAt(p, 3);
    ConsumeHere(p, [LSquare]);
    ConsumeAt(p, 4, [RSquare]);
  }

  /** The second item of `[ a b , ]` ends its expression; the comma after it is consumed. */
  lemma SecondItemFacts(p: Parser)
    requires ArrayAt(p)
    ensures Ready(After(p, 2)) && After(p, 2).token.tag == Identifier
    ensures Expression(After(p, 2)) == Ok((Ident(p, 2), After(p, 3)))
    ensures OptionalComma(After(p, 3)) == Ok(After(p, 4))
    ensures Ready(After(p, 4)) && After(p, 4).token.tag == RSquare
  {
    IdentAtShift(p, 2, 0);
    EndsExpression(After(p, 2));
    CommaAt(p, 3);
    AfterToken(p, 4);
  }

  /** The first item of `[ a b , ]` ends its expression; no comma follows it. */
  lemma FirstItemFacts(p: Parser)
    requires ArrayAt(p)
    ensures Ready(After(p, 1)) && After(p, 1).token.tag == Identifier
    ensures Expression(After(p, 1)) == Ok((Ident(p, 1), After(p, 2)))
    ensures Ready(After(p, 2)) && OptionalComma(After(p, 2)) == Ok(After(p, 2))
  {
    IdentAtShift(p, 1, 0);
    EndsExpression(After(p, 1));
    AfterToken(p, 2);
  }

  lemma ArrayItemsLast(p: Parser)
    requires ArrayAt(p)
    ensures Ready(After(p, 2)) && ArrayItems(After(p, 2)) == Ok(([Ident(p, 2)], After(p, 4)))
  {
    SecondItemFacts(p);
    ListsEnd(After(p, 4));
    ItemsLast(After(p, 2), Ident(p, 2), After(p, 3), After(p, 4), After(p, 4));
  }

  lemma ArrayItemsTwo(p: Parser)
    requires ArrayAt(p)
    ensures ArrayItems(After(p, 1)) == Ok(([Ident(p, 1), Ident(p, 2)], After(p, 4)))
  {
    FirstItemFacts(p);
    ArrayItemsLast(p);
    ItemsPair(After(p, 1), Ident(p, 1), After(p, 2), After(p, 2), Ident(p, 2), After(p, 4));
  }

  lemma ArrayCommas(p: Parser)
    requires ArrayAt(p)
    ensures Primary(p) == Ok((ExprArray([Ident(p, 1), Ident(p, 2)], PrevSlot(p.token)), After(p, 5)))
  {
    ArrayFacts(p);
    ArrayItemsTwo(p);
    ArrayStep(p, After(p, 1), [Ident(p, 1), Ident(p, 2)], After(p, 4), After(p, 5));
  }

  lemma MapItemsStep(p: Parser, q1: Parser, q2: Parser, v: Expr, q3: Parser, q4: Parser,
                     rest: seq<MapItem>, r: Parser)
    requires Ready(p) && p.token.tag != RCurly && Consume(p, [Identifier, Num]) == Ok((p.token, q1))
    requires Consume(q1, [Colon]) == Ok((q1.token, q2)) && Expression(q2) == Ok((v, q3))
    requires OptionalComma(q3) == Ok(q4) && MapItems(q4) == Ok((rest, r))
    ensures MapItems(p) == Ok(([MapItem(GetString(p.stream.src, p.token), v)] + rest, r))
  {
  }

  /** `MapItemsStep` for the last entry. */
  lemma EntriesLast(p: Parser, q1: Parser, q2: Parser, v: Expr, q3: Parser, q4: Parser, r: Parser)
    requires Ready(p) && p.token.tag != RCurly && Consume(p, [Identifier, Num]) == Ok((p.token, q1))
    requires Consume(q1, [Colon]) == Ok((q1.token, q2)) && Expression(q2) == Ok((v, q3))
    requires OptionalComma(q3) == Ok(q4) && MapItems(q4) == Ok(([], r))
    ensures MapItems(p) == Ok(([MapItem(GetString(p.stream.src, p.token), v)], r))
  {
    MapItemsStep(p, q1, q2, v, q3, q4, [], r);
    var first := MapItem(GetString(p.stream.src, p.token), v);
    assert [first] + [] == [first];
  }

  /** `MapItemsStep` for the last entry but one. */
  lemma EntriesPair(p: Parser, q1: Parser, q2: Parser, v: Expr, q3: Parser, q4: Parser, second: MapItem, r: Parser)
    requires Ready(p) && p.token.tag != RCurly && Consume(p, [Identifier, Num]) == Ok((p.token, q1))
    requires Consume(q1, [Colon]) == Ok((q1.token, q2)) && Expression(q2) == Ok((v, q3))
    requires OptionalComma(q3) == Ok(q4) && MapItems(q4) == Ok(([second], r))
    ensures MapItems(p) == Ok(([MapItem(GetString(p.stream.src, p.token), v), second], r))
  {
    MapItemsStep(p, q1, q2, v, q3, q4, [second], r);
    var first := MapItem(GetString(p.stream.src, p.token), v);
    assert [first] + [second] == [first, second];
  }

  lemma MapStep(p: Parser, q1: Parser, items: seq<MapItem>, q2: Parser, q3: Parser)
    requires Ready(p) && p.token.tag == LCurly && Consume(p, [LCurly]) == Ok((p.token, q1))
    requires MapItems(q1) == Ok((items, q2)) && Consume(q2, [RCurly]) == Ok((q2.token, q3))
    ensures Primary(p) == Ok((ExprMap(items, p.token), q3))
  {
  }

  /** An entry `k : v` starting `m` tokens ahead, with `v` an identifier the
      expression ends after. */
  ghost predicate EntryAt(p: Parser, m: nat)
  {
    Ready(p) && 1 <= m && p.next + m + 4 <= |p.stream.tokens| &&
    Upcoming(p, m).tag in [Identifier, Num] && Upcoming(p, m + 1).tag == Colon &&
    Upcoming(p, m + 2).tag == Identifier && Follows(Upcoming(p, m + 3).tag, 0)
  }

  lemma EntryFacts(p: Parser, m: nat)
    requires EntryAt(p, m)
    ensures Ready(After(p, m)) && After(p, m).stream == p.stream && After(p, m).token == Upcoming(p, m)
    ensures Consume(After(p, m), [Identifier, Num]) == Ok((After(p, m).token, After(p, m + 1)))
    ensures Ready(After(p, m + 1)) && Consume(After(p, m + 1), [Colon]) == Ok((After(p, m + 1).token, After(p, m + 2)))
    ensures Ready(After(p, m + 2)) && Expression(After(p, m + 2)) == Ok((Ident(p, m + 2), After(p, m + 3)))
    ensures Ready(After(p, m + 3)) && After(p, m + 3).token == Upcoming(p, m + 3)
  {
    ConsumeAt(p, m, [Identifier, Num]);
    ConsumeAt(p, m + 1, [Colon]);
    IdentAtShift(p, m + 2, 0);
    EndsExpression(After(p, m + 2));
    AfterToken(p, m + 3);
  }

  /** `{ k1 : a k2 : b , }`: entries need no comma between them and may end
      with one; each key is the text of its identifier or number token. */
  ghost predicate MapAt(p: Parser)
  {
    Ready(p) && p.next + 9 <= |p.stream.tokens| && p.token.tag == LCurly &&
    EntryAt(p, 1) && Upcoming(p, 4).tag != Comma && EntryAt(p, 4) &&
    Upcoming(p, 7).tag == Comma && Upcoming(p, 8).tag == RCurly
  }

  function Key(p: Parser, k: nat): string
    requires 1 <= k && p.next + k - 1 < |p.stream.tokens| && InBounds(p.stream.src, Upcoming(p, k))
  {
    GetString(p.stream.src, Upcoming(p, k))
  }

  /** The `, }` that closes `{ k1 : a k2 : b , }`. */
  lemma MapTail(p: Parser)
    requires Ready(p) && p.next + 9 <= |p.stream.tokens| && Upcoming(p, 7).tag == Comma && Upcoming(p, 8).tag == RCurly
    ensures Ready(After(p, 7)) && OptionalComma(After(p, 7)) == Ok(After(p, 8))
    ensures Ready(After(p, 8)) && MapItems(After(p, 8)) == Ok(([], After(p, 8)))
    ensures Consume(After(p, 8), [RCurly]) == Ok((After(p, 8).token, After(p, 9)))
  {
    CommaAt(p, 7);
    ConsumeAt(p, 8, [RCurly]);
    ListsEnd(After(p, 8));
  }

  lemma MapItemsLast(p: Parser)
    requires EntryAt(p, 4) && p.next + 9 <= |p.stream.tokens| && Upcoming(p, 7).tag == Comma && Upcoming(p, 8).tag == RCurly
    ensures Ready(After(p, 4)) && MapItems(After(p, 4)) == Ok(([MapItem(Key(p, 4), Ident(p, 6))], After(p, 8)))
  {
    EntryFacts(p, 4);
    MapTail(p);
    EntriesLast(After(p, 4), After(p, 5), After(p, 6), Ident(p, 6), After(p, 7), After(p, 8), After(p, 8));
  }

  lemma MapItemsTwo(p: Parser)
    requires MapAt(p)
    ensures Ready(After(p, 1)) &&
      MapItems(After(p, 1)) == Ok(([MapItem(Key(p, 1), Ident(p, 3)), MapItem(Key(p, 4), Ident(p, 6))], After(p, 8)))
  {
    EntryFacts(p, 1);
    MapItemsLast(p);
    var second := MapItem(Key(p, 4), Ident(p, 6));
    EntriesPair(After(p, 1), After(p, 2), After(p, 3), Ident(p, 3), After(p, 4), After(p, 4), second, After(p, 8));
  }

  lemma MapCommas(p: Parser)
    requires MapAt(p)
    ensures Primary(p) == Ok((ExprMap([MapItem(Key(p, 1), Ident(p, 3)), MapItem(Key(p, 4), Ident(p, 6))], p.token), After(p, 9)))
  {
    MapItemsTwo(p);
    ConsumeHere(p, [LCurly]);
    MapTail(p);
    MapStep(p, After(p, 1), [MapItem(Key(p, 1), Ident(p, 3)), MapItem(Key(p, 4), Ident(p, 6))], After(p, 8), After(p, 9));
  }

  /** `f ( a` followed by `,` `)`, or by another identifier. */
  ghost predicate CallAt(p: Parser, t: TokenTag, u: TokenTag)
  {
    Ready(p) && p.next + 5 <= |p.stream.tokens| &&
    p.token.tag == Identifier && Upcoming(p, 1).tag == LParen && Upcoming(p, 2).tag == Identifier &&
    Upcoming(p, 3).tag == t && Upcoming(p, 4).tag == u
  }

  lemma CallFacts(p: Parser, t: TokenTag, u: TokenTag)
    requires CallAt(p, t, u) && (t == Comma || t == Identifier)
    ensures Ready(After(p, 1)) && After(p, 1).token.tag == LParen
    ensures Consume(After(p, 1), [LParen]) == Ok((After(p, 1).token, After(p, 2)))
    ensures After(p, 2).token.tag == Identifier
    ensures Expression(After(p, 2)) == Ok((Ident(p, 2), After(p, 3)))
    ensures Ready(After(p, 3)) && After(p, 3).token.tag == t && After(p, 3).stream == p.stream
  {
    ConsumeAt(p, 1, [LParen]);
    IdentAtShift(p, 2, 0);
    EndsExpression(After(p, 2));
    AfterToken(p, 3);
  }

  lemma TrailingCommaFacts(p: Parser)
    requires CallAt(p, Comma, RParen)
    ensures Ready(After(p, 3)) && Consume(After(p, 3), [Comma]) == Ok((After(p, 3).token, After(p, 4)))
    ensures Ready(After(p, 4)) && After(p, 4).token.tag == RParen
    ensures Consume(After(p, 4), [RParen]) == Ok((After(p, 4).token, After(p, 5)))
  {
    ConsumeAt(p, 3, [Comma]);
    ConsumeAt(p, 4, [RParen]);
  }

  lemma TrailingCommaArguments(p: Parser)
    requires CallAt(p, Comma, RParen)
    ensures Ready(After(p, 2)) && Arguments(After(p, 2)) == Ok(([Ident(p, 2)], After(p, 4)))
  {
    CallFacts(p, Comma, RParen);
    TrailingCommaFacts(p);
    ListsEnd(After(p, 4));
    ArgumentsMore(After(p, 2), Ident(p, 2), After(p, 3), After(p, 4), [], After(p, 4));
    assert [Ident(p, 2)] + [] == [Ident(p, 2)];
  }

  /** `f ( a , )`: a trailing comma after the last argument is allowed. */
  lemma CallTrailingComma(p: Parser)
    requires CallAt(p, Comma, RParen)
    ensures ExpressionWithPrec(p, 6) == Ok((ExprFuncall(Ident(p, 0), [Ident(p, 2)], p.token), After(p, 5)))
  {
    CallFacts(p, Comma, RParen);
    TrailingCommaFacts(p);
    TrailingCommaArguments(p);
    PrimaryIdent(p);
    CallStep(p, Ident(p, 0), After(p, 1), After(p, 2), [Ident(p, 2)], After(p, 4), After(p, 5));
  }

  /** `f ( a b`: unlike array items, call arguments need a comma between
      them; after `a` the call expects `)`. */
  lemma CallNeedsCommas(p: Parser)
    requires CallAt(p, Identifier, Identifier)
    ensures ExpressionWithPrec(p, 6) == Err(Expected(After(p, 3), [RParen]))
  {
    CallFacts(p, Identifier, Identifier);
    ArgumentsLast(After(p, 2), Ident(p, 2), After(p, 3));
    PrimaryIdent(p);
    CallStepFails(p, Ident(p, 0), After(p, 1), After(p, 2), [Ident(p, 2)], After(p, 3));
  }

  //
  // Fn literals
  //

  /** `fn ( x , ) { }`: no name, one parameter with a trailing comma, an
      empty body. */
  ghost predicate AnonymousAt(p: Parser)
  {
    Ready(p) && p.next + 7 <= |p.stream.tokens| &&
    p.token.tag == Fn && Upcoming(p, 1).tag == LParen && Upcoming(p, 2).tag == Identifier &&
    Upcoming(p, 3).tag == Comma && Upcoming(p, 4).tag == RParen &&
    Upcoming(p, 5).tag == LCurly && Upcoming(p, 6).tag == RCurly
  }

  lemma AnonymousHead(p: Parser)
    requires AnonymousAt(p)
    ensures Consume(p, [Fn]) == Ok((p.token, After(p, 1)))
    ensures Ready(After(p, 1)) && FnName(After(p, 1)) == Ok(("<anonymous>", After(p, 1)))
    ensures Consume(After(p, 1), [LParen]) == Ok((After(p, 1).token, After(p, 2)))
  {
    ConsumeHere(p, [Fn]);
    ConsumeAt(p, 1, [LParen]);
  }

  lemma AnonymousParamFacts(p: Parser)
    requires AnonymousAt(p)
    ensures Ready(After(p, 2)) && After(p, 2).token == Upcoming(p, 2)
    ensures Consume(After(p, 2), [Identifier]) == Ok((After(p, 2).token, After(p, 3)))
    ensures OptionalComma(After(p, 3)) == Ok(After(p, 4))
    ensures Ready(After(p, 4)) && After(p, 4).token.tag == RParen && After(p, 4).stream == p.stream
    ensures Consume(After(p, 4), [RParen]) == Ok((After(p, 4).token, After(p, 5)))
  {
    ConsumeAt(p, 2, [Identifier]);
    CommaAt(p, 3);
    ConsumeAt(p, 4, [RParen]);
  }

  lemma AnonymousParams(p: Parser)
    requires AnonymousAt(p)
    ensures Ready(After(p, 2)) && Params(After(p, 2)) == Ok(([GetString(p.stream.src, Upcoming(p, 2))], After(p, 4)))
  {
    AnonymousParamFacts(p);
    ListsEnd(After(p, 4));
    ParamsStep(After(p, 2), After(p, 3), After(p, 4), [], After(p, 4));
    assert [GetString(p.stream.src, Upcoming(p, 2))] + [] == [GetString(p.stream.src, Upcoming(p, 2))];
  }

  lemma AnonymousBody(p: Parser)
    requires AnonymousAt(p)
    ensures Ready(After(p, 5)) && Block(After(p, 5)) == Ok((StmtBlock([], Upcoming(p, 5)), After(p, 7)))
  {
    ConsumeAt(p, 5, [LCurly]);
    ConsumeAt(p, 6, [RCurly]);
    BlockStep(After(p, 5), After(p, 6), After(p, 7));
  }

  /** An fn literal without a name is called "<anonymous>"; its parameter
      list, like array items, allows a trailing comma. */
  lemma AnonymousFn(p: Parser)
    requires AnonymousAt(p)
    ensures FnLit(p) == Ok((
      ExprFunc("<anonymous>", [GetString(p.stream.src, Upcoming(p, 2))], StmtBlock([], Upcoming(p, 5)), p.token),
      After(p, 7)))
  {
    AnonymousHead(p);
    AnonymousParamFacts(p);
    AnonymousParams(p);
    AnonymousBody(p);
    FnStep(p, After(p, 1), "<anonymous>", After(p, 1), After(p, 2), [GetString(p.stream.src, Upcoming(p, 2))],
           After(p, 4), After(p, 5), StmtBlock([], Upcoming(p, 5)), After(p, 7));
  }

  //
  // Errors
  //

  /** The message of a failed `consume` of one tag, at the line the lexer
      counts for the current token. */
  lemma ExpectedOne(p: Parser, expected: TokenTag)
    ensures Expected(p, [expected]) ==
      E(ParseError, "expected " + TagText(expected) + " but saw " + TagText(p.token.tag),
        LineOf(p.stream.src, p.token.pos))
  {
    LineAtIsLineOf(p.stream.src, p.token.pos);
  }

  /** The message of a failed `consume` of two tags names both. */
  lemma ExpectedTwo(p: Parser, a: TokenTag, b: TokenTag)
    ensures Expected(p, [a, b]) ==
      E(ParseError, "expected one of " + TagText(a) + ", " + TagText(b) + " but saw " + TagText(p.token.tag),
        LineOf(p.stream.src, p.token.pos))
  {
    LineAtIsLineOf(p.stream.src, p.token.pos);
    JoinTwo(a, b);
  }

  lemma JoinTwo(a: TokenTag, b: TokenTag)
    ensures JoinTags([a, b]) == TagText(a) + ", " + TagText(b)
  {
    assert [a, b][1..] == [b];
  }

  /** A mismatched `consume` of one tag reports `expected <tag> but saw
      <tag>` at the line the lexer counts for the current token, and does not
      advance. */
  lemma ConsumeMismatch(p: Parser, expected: TokenTag)
    requires Ready(p) && p.token.tag != expected
    ensures Consume(p, [expected]) ==
      Err(E(ParseError, "expected " + TagText(expected) + " but saw " + TagText(p.token.tag),
            LineOf(p.stream.src, p.token.pos)))
  {
    ExpectedOne(p, expected);
  }

  /** The top level reports any token other than an identifier, `fn` or EOF
      as a failed `consume(Identifier, Fn)`, with both tags named. */
  lemma TopLevelMismatch(p: Parser)
    requires Ready(p) && !(p.token.tag in {EOF, Identifier, Fn})
    ensures TopLevel(p) ==
      Err(E(ParseError, "expected one of " + TagText(Identifier) + ", " + TagText(Fn) + " but saw " + TagText(p.token.tag),
            LineOf(p.stream.src, p.token.pos)))
  {
    ExpectedTwo(p, Identifier, Fn);
  }
}
