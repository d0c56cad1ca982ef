/** Whole runs of `Parse` on small programs. The parser asks the lexer for
    tokens only as far as it reads, so a string with no closing quote after
    the point where the parse stops does not keep `Parse` from returning,
    while one the parser advances onto does. */
module ParseRuns {
  import opened Errors
  import opened Lexing
  import opened Ast
  import opened Parsing
  import opened ParserShapes

  //
  // Unfolding `Lex`
  //

  /** A token that is not EOF heads the stream of the rest. */
  lemma LexOne(lx: Lexer, tok: Token, next: Lexer)
    requires Valid(lx) && !NeverCloses(lx) && NextToken(lx) == Ok((tok, next)) && tok.tag != EOF
    ensures Lex(lx) == Stream(lx.src, [tok] + Lex(next).tokens, Lex(next).last)
  {
  }

  /** One token, then a string that never closes. */
  lemma LexThenOpen(lx: Lexer, tok: Token, next: Lexer)
    requires Valid(lx) && !NeverCloses(lx) && NextToken(lx) == Ok((tok, next)) && tok.tag != EOF
    requires NeverCloses(next)
    ensures Lex(lx) == Stream(lx.src, [tok], Err(NoReturn))
  {
    LexOne(lx, tok, next);
  }

  /** Two tokens, then a string that never closes. */
  lemma LexTwoThenOpen(lx: Lexer, t0: Token, l1: Lexer, t1: Token)
    requires Valid(lx) && !NeverCloses(lx) && NextToken(lx) == Ok((t0, l1)) && t0.tag != EOF
    requires Lex(l1) == Stream(lx.src, [t1], Err(NoReturn))
    ensures Lex(lx) == Stream(lx.src, [t0, t1], Err(NoReturn))
  {
    LexOne(lx, t0, l1);
    assert [t0] + [t1] == [t0, t1];
  }

  //
  // `) 'abc`: a parse error before the open string
  //

  lemma ParenFirst()
    ensures var src := ") 'abc";
      !NeverCloses(NewLexer(src)) && NextToken(NewLexer(src)) == Ok((Token(RParen, 0, 0), Lexer(src, 1, 1, 0)))
  {
    var src := ") 'abc";
    assert SkipWhitespace(NewLexer(src)) == NewLexer(src);
    assert Advance(NewLexer(src)) == Lexer(src, 1, 1, 0);
  }

  lemma ParenThenOpen()
    ensures NeverCloses(Lexer(") 'abc", 1, 1, 0))
  {
    var src := ") 'abc";
    assert Advance(Lexer(src, 1, 1, 0)) == Lexer(src, 2, 1, 0);
    assert SkipWhitespace(Lexer(src, 1, 1, 0)) == Lexer(src, 2, 1, 0);
    assert !QuoteFrom(src, 3);
  }

  lemma ParenMessage()
    ensures "expected one of " + TagText(Identifier) + ", " + TagText(Fn) + " but saw " + TagText(RParen) ==
      "expected one of Identifier, fn but saw )"
  {
  }

  lemma ParenTopLevel(p: Parser)
    requires p == Parser(Stream(") 'abc", [Token(RParen, 0, 0)], Err(NoReturn)), 1, Token(RParen, 0, 0), Token(EOF, 0, 0))
    ensures Ready(p) && TopLevel(p) == Err(E(ParseError, "expected one of Identifier, fn but saw )", 1))
  {
    TopLevelMismatch(p);
    ParenMessage();
    assert LineOf(p.stream.src, 0) == 1 by {
      assert p.stream.src[..0] == [];
    }
  }

  lemma ParenTokens(stream: Stream)
    requires stream == Stream(") 'abc", [Token(RParen, 0, 0)], Err(NoReturn))
    ensures WellFormed(stream)
    ensures ParseTokens(stream) == Err(E(ParseError, "expected one of Identifier, fn but saw )", 1))
  {
    var p := Parser(stream, 1, Token(RParen, 0, 0), Token(EOF, 0, 0));
    assert Start(stream) == Ok(p);
    ParenTopLevel(p);
  }

  /** On `) 'abc` the parser stops at `)`, before the lexer reaches the open
      string, and `Parse` returns the error of the top level. */
  lemma ParenBeforeOpenString()
    ensures !Closed(NewLexer(") 'abc"))
    ensures Parse(") 'abc") == Returns(Err(E(ParseError, "expected one of Identifier, fn but saw )", 1)))
  {
    var src := ") 'abc";
    ParenFirst();
    ParenThenOpen();
    LexThenOpen(NewLexer(src), Token(RParen, 0, 0), Lexer(src, 1, 1, 0));
    LexSpinsIffOpen(NewLexer(src));
    ParenTokens(Lex(NewLexer(src)));
  }

  //
  // `a: 'abc`: the section body is the open string
  //

  lemma LabelFirst()
    ensures var src := "a: 'abc";
      !NeverCloses(NewLexer(src)) && NextToken(NewLexer(src)) == Ok((Token(Identifier, 0, 1), Lexer(src, 1, 1, 0)))
  {
    var src := "a: 'abc";
    var lx := NewLexer(src);
    assert SkipWhitespace(lx) == lx;
    assert Advance(lx) == Lexer(src, 1, 1, 0);
    assert ScanIdentifier(Lexer(src, 1, 1, 0)) == Lexer(src, 1, 1, 0);
  }

  lemma ColonNext()
    ensures var src := "a: 'abc";
      !NeverCloses(Lexer(src, 1, 1, 0)) && NextToken(Lexer(src, 1, 1, 0)) == Ok((Token(Colon, 1, 0), Lexer(src, 2, 1, 1)))
  {
    var src := "a: 'abc";
    assert SkipWhitespace(Lexer(src, 1, 1, 0)) == Lexer(src, 1, 1, 0);
    assert Advance(Lexer(src, 1, 1, 1)) == Lexer(src, 2, 1, 1);
  }

  lemma ColonThenOpen()
    ensures NeverCloses(Lexer("a: 'abc", 2, 1, 1))
  {
    var src := "a: 'abc";
    assert Advance(Lexer(src, 2, 1, 1)) == Lexer(src, 3, 1, 1);
    assert SkipWhitespace(Lexer(src, 2, 1, 1)) == Lexer(src, 3, 1, 1);
    assert !QuoteFrom(src, 4);
  }

  lemma LabelTokens(stream: Stream)
    requires stream == Stream("a: 'abc", [Token(Identifier, 0, 1), Token(Colon, 1, 0)], Err(NoReturn))
    ensures WellFormed(stream) && ParseTokens(stream) == Err(NoReturn)
  {
    var p := Parser(stream, 1, stream.tokens[0], Token(EOF, 0, 0));
    assert Start(stream) == Ok(p);
    var q := Parser(stream, 2, stream.tokens[1], stream.tokens[0]);
    assert Consume(p, [Identifier]) == Ok((stream.tokens[0], q));
    assert Consume(q, [Colon]) == Err(NoReturn);
    assert Parsing.Section(p) == Err(NoReturn);
  }

  /** On `a: 'abc` the parser advances past `:` onto the open string, whose
      scan never ends: `Parse` does not return. */
  lemma SectionOnOpenString()
    ensures Parse("a: 'abc") == Spins
  {
    var src := "a: 'abc";
    LabelFirst();
    ColonNext();
    ColonThenOpen();
    LexThenOpen(Lexer(src, 1, 1, 0), Token(Colon, 1, 0), Lexer(src, 2, 1, 1));
    LexTwoThenOpen(NewLexer(src), Token(Identifier, 0, 1), Lexer(src, 1, 1, 0), Token(Colon, 1, 0));
    LabelTokens(Lex(NewLexer(src)));
  }
}
