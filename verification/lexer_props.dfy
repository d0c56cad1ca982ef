/** The token grammar of src/lexer.go stated without the scanner, and the
    proofs that `NextToken` follows it. It also holds the two places where the
    source's lexer departs from its evident intent, each shown on an input. */
module LexerProps {
  import opened Errors
  import opened Lexing

  /** The spelling of operator `t` starts at `start`. */
  ghost predicate OperatorAt(src: string, start: nat, t: TokenTag)
  {
    IsOperator(t) && start + |TagText(t)| <= |src| && src[start..start + |TagText(t)|] == TagText(t)
  }

  /** `[start, end)` is a maximal non-empty run of letters, digits and `_`. */
  ghost predicate IdentRun(src: string, start: nat, end: int)
  {
    start < end <= |src| && (forall k | start <= k < end :: IsIdentChar(src[k])) &&
    (end == |src| || !IsIdentChar(src[end]))
  }

  /** `[start, end)` is a maximal non-empty run of digits. */
  ghost predicate DigitRun(src: string, start: nat, end: int)
  {
    start < end <= |src| && (forall k | start <= k < end :: IsDigit(src[k])) &&
    (end == |src| || !IsDigit(src[end]))
  }

  /** The token grammar: the token that starts with the character at `start`,
      and the offset `end` just past its text.
      - a letter starts a maximal identifier run; a keyword run is that
        keyword (with an empty span), any other run an Identifier covering it;
      - a digit starts a maximal digit run, a Num covering it;
      - a quote starts a string that ends at the next quote; the Str token
        covers the characters between the two;
      - anything else is the longest operator spelled there. */
  ghost predicate Lexes(src: string, start: nat, tok: Token, end: int)
    requires start < |src|
  {
    var c := src[start];
    if IsLetter(c) then
      IdentRun(src, start, end) &&
      var word := src[start..end];
      match Keyword(word)
      case Some(k) => tok == Token(k, start, 0)
      case None => tok == Token(Identifier, start, end - start)
    else if IsDigit(c) then
      DigitRun(src, start, end) && tok == Token(Num, start, end - start)
    else if c == '\'' then
      start + 2 <= end <= |src| && src[end - 1] == '\'' &&
      (forall k | start < k < end - 1 :: src[k] != '\'') &&
      tok == Token(Str, start + 1, end - start - 2)
    else
      OperatorAt(src, start, tok.tag) && end == start + |TagText(tok.tag)| &&
      tok.pos == start && tok.len == 0 &&
      (forall t | OperatorAt(src, start, t) :: |TagText(t)| <= |TagText(tok.tag)|)
  }

  /** No token starts with the character at `start`. */
  ghost predicate NotLexable(src: string, start: nat)
    requires start < |src|
  {
    var c := src[start];
    !IsLetter(c) && !IsDigit(c) && c != '\'' && forall t :: !OperatorAt(src, start, t)
  }

  /** `Keyword` maps the text of each keyword tag back to that tag. */
  lemma {:induction false} KeywordRoundTrip(k: TokenTag)
    requires IsKeyword(k)
    ensures Keyword(TagText(k)) == Some(k)
  {
    match k
    case Var =>
    case For =>
    case In =>
    case If =>
    case Return =>
    case Continue =>
    case Match =>
    case Else =>
    case Break =>
    case Fn =>
    case Nil =>
  }

  /** The characters that are an operator on their own. */
  predicate OneCharOperator(x: char)
  {
    x == ':' || x == '{' || x == '}' || x == '(' || x == ')' || x == '[' || x == ']' || x == '=' ||
    x == '>' || x == '<' || x == '+' || x == '*' || x == ',' || x == '-' || x == '/' || x == '%'
  }

  /** The character pairs that are an operator. */
  predicate TwoCharOperator(x: char, y: char)
  {
    ((x == '=' || x == '!' || x == '>' || x == '<') && y == '=') || (x == '&' && y == '&') || (x == '|' && y == '|')
  }

  /** Every operator is spelled by one of the listed one- or two-character texts. */
  lemma OperatorTexts(t: TokenTag)
    requires IsOperator(t)
    ensures |TagText(t)| == 1 ==> OneCharOperator(TagText(t)[0])
    ensures |TagText(t)| != 1 ==> |TagText(t)| == 2 && TwoCharOperator(TagText(t)[0], TagText(t)[1])
  {
  }

  /** The spelling found at `start` begins with the character there. */
  lemma OperatorFirst(src: string, start: nat, t: TokenTag)
    requires OperatorAt(src, start, t)
    ensures 1 <= |TagText(t)| && TagText(t)[0] == src[start]
    ensures |TagText(t)| == 1 ==> OneCharOperator(src[start])
    ensures |TagText(t)| != 1 ==> (|TagText(t)| == 2 && start + 1 < |src| &&
      TagText(t)[1] == src[start + 1] && TwoCharOperator(src[start], src[start + 1]))
  {
    OperatorTexts(t);
    assert src[start..start + |TagText(t)|][0] == src[start];
    if |TagText(t)| != 1 {
      assert src[start..start + |TagText(t)|][1] == src[start + 1];
    }
  }

  /** The switch accepts every one-character operator. */
  lemma OneCharScans(a: Lexer, c: char)
    requires Valid(a) && OneCharOperator(c)
    ensures ScanOperator(a, c).Ok?
  {
  }

  /** The switch takes the second character of a two-character operator. */
  lemma TwoCharScans(a: Lexer, c: char)
    requires Valid(a) && a.pos < |a.src| && TwoCharOperator(c, a.src[a.pos])
    ensures ScanOperator(a, c).Ok? && ScanOperator(a, c).value.1.pos == a.pos + 1
  {
  }

  /** A character that begins no operator spelling makes the operator switch fail. */
  lemma OperatorErr(s: Lexer, a: Lexer)
    requires Valid(s) && s.tokenStart == s.pos && s.pos < |s.src| && a == Advance(s)
    requires var c := s.src[s.pos]; !IsLetter(c) && !IsDigit(c) && c != '\''
    requires ScanOperator(a, s.src[s.pos]).Err?
    ensures NotLexable(s.src, s.pos)
  {
    var src, start := s.src, s.pos;
    forall t
      ensures !OperatorAt(src, start, t)
    {
      if OperatorAt(src, start, t) {
        OperatorFirst(src, start, t);
        if |TagText(t)| == 1 {
          OneCharScans(a, src[start]);
        } else {
          TwoCharScans(a, src[start]);
        }
      }
    }
  }

  /** The characters an operator case consumed, counted from the token start,
      spell the operator it returned. */
  lemma ConsumedText(a: Lexer, c: char, start: nat, tok: Token, next: Lexer)
    requires Valid(a) && a.pos == start + 1 && start < |a.src| && a.src[start] == c
    requires OperatorScanned(a, c, Ok((tok, next)))
    ensures start <= next.pos <= |a.src| && a.src[start..next.pos] == TagText(tok.tag)
  {
    var text := TagText(tok.tag);
    if next.pos == a.pos {
      assert a.src[start..next.pos] == [c] == text;
    } else {
      assert a.src[start..next.pos] == [c, a.src[a.pos]] == text;
    }
  }

  /** The token of the operator switch is the longest operator spelled at the start. */
  lemma OperatorOk(s: Lexer, a: Lexer)
    requires Valid(s) && s.tokenStart == s.pos && s.pos < |s.src| && a == Advance(s)
    requires var c := s.src[s.pos]; !IsLetter(c) && !IsDigit(c) && c != '\''
    requires ScanOperator(a, s.src[s.pos]).Ok?
    ensures var (tok, next) := ScanOperator(a, s.src[s.pos]).value;
      Lexes(s.src, s.pos, tok, next.pos)
  {
    var src, start, c := s.src, s.pos, s.src[s.pos];
    var (tok, next) := ScanOperator(a, c).value;
    ConsumedText(a, c, start, tok, next);
    forall t | OperatorAt(src, start, t)
      ensures |TagText(t)| <= |TagText(tok.tag)|
    {
      OperatorFirst(src, start, t);
      if |TagText(t)| != 1 {
        TwoCharScans(a, c);
      }
    }
  }

  /** The operator switch after the first character follows the grammar:
      the longest spelling wins, and a character that starts none is an error. */
  lemma OperatorSound(s: Lexer, a: Lexer)
    requires Valid(s) && s.tokenStart == s.pos && s.pos < |s.src| && a == Advance(s)
    requires var c := s.src[s.pos]; !IsLetter(c) && !IsDigit(c) && c != '\''
    ensures var c := s.src[s.pos];
      match ScanOperator(a, c)
      case Ok((tok, next)) => Lexes(s.src, s.pos, tok, next.pos)
      case Err(_) => NotLexable(s.src, s.pos)
  {
    if ScanOperator(a, s.src[s.pos]).Ok? {
      OperatorOk(s, a);
    } else {
      OperatorErr(s, a);
    }
  }

  /** One token scan, from a token start that is not the end of input, follows
      the grammar: its token is the one `Lexes` describes and its error means
      no token starts there. */
  lemma ScanTokenSound(s: Lexer)
    requires CanScan(s) && s.tokenStart == s.pos && s.pos < |s.src|
    ensures match ScanToken(s, true)
      case Ok((tok, next)) => Lexes(s.src, s.pos, tok, next.pos)
      case Err(_) => NotLexable(s.src, s.pos)
  {
    var c := s.src[s.pos];
    if IsLetter(c) {
    } else if IsDigit(c) {
    } else if c == '\'' {
      var e := ScanString(Advance(s));
      assert ScanToken(s, true).value.1.pos == e.pos + 1;
    } else {
      OperatorSound(s, Advance(s));
    }
  }

  /** `NextToken` skips blanks and comments up to the first offset that is
      neither, then yields EOF if that is the end of input and otherwise the
      token the grammar gives there, or an error exactly when none starts
      there. */
  lemma NextTokenSound(lx: Lexer)
    requires StringCloses(lx)
    ensures var start := Prepare(lx).pos;
      Skipped(lx.src, lx.pos, start) &&
      (start == |lx.src| || (!IsBlank(lx.src[start]) && lx.src[start] != '#')) &&
      (start >= |lx.src| <==> NextToken(lx).Ok? && NextToken(lx).value.0.tag == EOF) &&
      (start < |lx.src| ==>
        match NextToken(lx)
        case Ok((tok, next)) => Lexes(lx.src, start, tok, next.pos)
        case Err(_) => NotLexable(lx.src, start))
  {
    var s := Prepare(lx);
    if lx.pos < |lx.src| && s.pos < |lx.src| {
      ScanTokenSound(s);
    }
  }

  /** The text of an Identifier token is the identifier run it was scanned
      from, and a keyword token has empty text. */
  lemma WordText(src: string, start: nat, tok: Token, end: int)
    requires start < |src| && IsLetter(src[start]) && Lexes(src, start, tok, end)
    ensures InBounds(src, tok)
    ensures tok.tag == Identifier ==> GetString(src, tok) == src[start..end]
    ensures tok.tag != Identifier ==> IsKeyword(tok.tag) && GetString(src, tok) == ""
  {
  }

  /** The text of a Str token is what lies strictly between its quotes. */
  lemma StringText(src: string, start: nat, tok: Token, end: int)
    requires start < |src| && src[start] == '\'' && Lexes(src, start, tok, end)
    ensures InBounds(src, tok) && tok.tag == Str
    ensures src[start] == '\'' && src[end - 1] == '\''
    ensures GetString(src, tok) == src[start + 1..end - 1]
    ensures forall k | 0 <= k < |GetString(src, tok)| :: GetString(src, tok)[k] != '\''
  {
    assert forall k | 0 <= k < |GetString(src, tok)| :: GetString(src, tok)[k] == src[start + 1 + k];
  }

  //
  // The lexer as written
  //

  /** The scan the source performs and the corrected one find the same token
      at the same place; they may differ only in the line count they carry. */
  lemma ScanAsWrittenAgrees(s: Lexer)
    requires CanScan(s) && s.tokenStart == s.pos
    ensures ScanToken(s, false).Ok? <==> ScanToken(s, true).Ok?
    ensures ScanToken(s, false).Err? ==> ScanToken(s, false) == ScanToken(s, true)
    ensures ScanToken(s, false).Ok? ==>
      ScanToken(s, false).value.0 == ScanToken(s, true).value.0 &&
      ScanToken(s, false).value.1.pos == ScanToken(s, true).value.1.pos
  {
  }

  /** When only blanks and comments remain (a trailing `#` comment or trailing
      spaces or newlines), the lexer as written does not return EOF: the skip
      stops at the end of input, the end-of-input character is taken as the
      token, and the lex fails with an "unexpected character" error for it.
      The corrected lexer returns EOF. */
  lemma TrailingBlankAsWritten(lx: Lexer)
    requires StringCloses(lx) && lx.pos < |lx.src| && Prepare(lx).pos == |lx.src|
    ensures NextTokenAsWritten(lx).Err?
    ensures NextTokenAsWritten(lx).error.msg == "unexpected character '\U{FFFD}' (fffd)"
    ensures NextToken(lx).Ok? && NextToken(lx).value.0.tag == EOF
  {
    var s := Prepare(lx);
    assert Peek(s) == RuneError;
    assert Hex(0xFFFD) == "fffd" by {
      assert Hex(0xFFF) == "fff";
    }
  }

  /** An input that shows it: after the identifier of `x #`, the lexer as
      written fails instead of ending the input. */
  lemma TrailingCommentExample()
    ensures var lx := Lexer("x #", 1, 1, 0);
      NextTokenAsWritten(lx).Err? && NextToken(lx).Ok? && NextToken(lx).value.0.tag == EOF
  {
    var src := "x #";
    var lx := Lexer(src, 1, 1, 0);
    var b := Lexer(src, 2, 1, 0);
    var e := Lexer(src, 3, 1, 0);
    assert Advance(lx) == b;
    assert Advance(b) == e;
    assert SkipComment(b) == (e, true);
    assert SkipWhitespace(b) == e;
    assert SkipWhitespace(lx) == e;
    TrailingBlankAsWritten(lx);
  }

  /** The lexer as written closes a string by stepping over the quote without
      counting a newline just before it. On `'<newline>' !` both lexers find the
      same string token, but the one as written leaves its line count at 1
      where the corrected one has 2. */
  lemma StringNewlineExample()
    ensures var src := "'\n' !";
      StringCloses(NewLexer(src)) &&
      NextTokenAsWritten(NewLexer(src)) == Ok((Token(Str, 1, 1), Lexer(src, 3, 1, 0))) &&
      NextToken(NewLexer(src)) == Ok((Token(Str, 1, 1), Lexer(src, 3, 2, 0)))
    ensures !LineOk(Lexer("'\n' !", 3, 1, 0)) && LineOk(Lexer("'\n' !", 3, 2, 0))
  {
    var src := "'\n' !";
    var lx := NewLexer(src);
    assert SkipWhitespace(lx) == lx;
    assert src[2] == '\'';
    var a := Lexer(src, 1, 1, 0);
    var e := Lexer(src, 2, 1, 0);
    assert Advance(lx) == a;
    assert Advance(a) == e;
    assert ScanString(e) == e;
    assert ScanString(a) == e;
    assert Advance(e) == Lexer(src, 3, 2, 0);
    assert src[..2] == "'\n";
    assert NewlineCount(src[..2]) == 1 by {
      assert src[..2][..1] == "'";
    }
  }

  /** Continuing `'<newline>' !`: the `!` on line 2 is an error, which the
      lexer as written reports on line 1 and the corrected one on line 2. */
  lemma StringNewlineErrorLine()
    ensures var src := "'\n' !";
      StringCloses(Lexer(src, 3, 1, 0)) && StringCloses(Lexer(src, 3, 2, 0)) &&
      NextTokenAsWritten(Lexer(src, 3, 1, 0)).Err? && NextTokenAsWritten(Lexer(src, 3, 1, 0)).error.line == 1 &&
      NextToken(Lexer(src, 3, 2, 0)).Err? && NextToken(Lexer(src, 3, 2, 0)).error.line == 2
  {
    var src := "'\n' !";
    assert Advance(Lexer(src, 3, 1, 0)) == Lexer(src, 4, 1, 0);
    assert SkipWhitespace(Lexer(src, 4, 1, 0)) == Lexer(src, 4, 1, 0);
    assert Advance(Lexer(src, 4, 1, 4)) == Lexer(src, 5, 1, 4);
    assert Advance(Lexer(src, 3, 2, 0)) == Lexer(src, 4, 2, 0);
    assert SkipWhitespace(Lexer(src, 4, 2, 0)) == Lexer(src, 4, 2, 0);
    assert Advance(Lexer(src, 4, 2, 4)) == Lexer(src, 5, 2, 4);
  }

  /** The `!` of `'<newline>' !` stands on line 2. */
  lemma StringNewlineBangLine()
    ensures LineOf("'\n' !", 4) == 2
  {
    var src := "'\n' !";
    NewlineCountStep(src, 0);
    NewlineCountStep(src, 1);
    NewlineCountStep(src, 2);
    NewlineCountStep(src, 3);
    assert src[..0] == [];
  }
}
