/** The lexer of src/lexer.go: a position-threading scanner over the source
    text. Each character stands for one byte; only ASCII letters and digits are
    classified as such. */
module Lexing {
  import opened Errors

  datatype TokenTag =
    | EOF | Identifier | Str | Num
    | Colon | LCurly | RCurly | LParen | RParen | LSquare | RSquare
    | Equal | EqualEqual | BangEqual | Greater | GreaterEqual | Less | LessEqual
    | Plus | Star | Comma | Minus | Slash | Percent | AmpAmp | PipePipe
    | Var | For | In | If | Return | Continue | Match | Else | Break | Fn | Nil

  /** The tag names the generated stringer produces: the line comment of the
      constant when it has one, its identifier otherwise. */
  function TagText(t: TokenTag): string
  {
    match t
    case EOF => "EOF"
    case Identifier => "Identifier"
    case Str => "Str"
    case Num => "Num"
    case Colon => ":"
    case LCurly => "{"
    case RCurly => "}"
    case LParen => "("
    case RParen => ")"
    case LSquare => "["
    case RSquare => "]"
    case Equal => "="
    case EqualEqual => "=="
    case BangEqual => "!="
    case Greater => ">"
    case GreaterEqual => ">="
    case Less => "<"
    case LessEqual => "<="
    case Plus => "+"
    case Star => "*"
    case Comma => ","
    case Minus => "-"
    case Slash => "/"
    case Percent => "%"
    case AmpAmp => "&&"
    case PipePipe => "||"
    case Var => "var"
    case For => "for"
    case In => "in"
    case If => "if"
    case Return => "return"
    case Continue => "continue"
    case Match => "match"
    case Else => "else"
    case Break => "break"
    case Fn => "fn"
    case Nil => "nil"
  }

  /** A token is a tag and an offset/length pair into the source. */
  datatype Token = Token(tag: TokenTag, pos: int, len: int)

  datatype Lexer = Lexer(src: string, pos: nat, line: int, tokenStart: int)

  /** What decoding an empty string yields: the replacement character. */
  const RuneError: char := '\U{FFFD}'

  function NewLexer(src: string): (lx: Lexer)
    ensures Valid(lx) && LineOk(lx)
  {
    Lexer(src, 0, 1, 0)
  }

  ghost predicate Valid(lx: Lexer)
  {
    lx.pos <= |lx.src| && 0 <= lx.tokenStart <= |lx.src|
  }

  /** The token's span lies inside the source. */
  predicate InBounds(src: string, tok: Token)
  {
    0 <= tok.pos && 0 <= tok.len && tok.pos + tok.len <= |src|
  }

  //
  // Line bookkeeping
  //

  /** The number of newline characters in `s`. */
  function NewlineCount(s: string): nat
  {
    if |s| == 0 then 0
    else NewlineCount(s[..|s| - 1]) + (if s[|s| - 1] == '\n' then 1 else 0)
  }

  function Clamp(p: int, n: nat): (q: nat)
    ensures q <= n
  {
    if p < 0 then 0 else if p > n then n else p
  }

  /** The 1-based line of byte offset `p`: one more than the newlines strictly before it. */
  function LineOf(src: string, p: int): int
  {
    1 + NewlineCount(src[..Clamp(p, |src|)])
  }

  /** The offset just after the last newline strictly before `p`, or 0. */
  function LineStart(src: string, p: int): (r: nat)
    ensures r <= Clamp(p, |src|)
    ensures r == 0 || src[r - 1] == '\n'
    ensures forall k | r <= k < Clamp(p, |src|) :: src[k] != '\n'
    decreases Clamp(p, |src|)
  {
    var q := Clamp(p, |src|);
    if q == 0 then 0
    else if src[q - 1] == '\n' then q
    else LineStart(src, q - 1)
  }

  /** The lexer's `line` field is counted lazily: advancing from offset `p`
      counts the newline at `p - 1`. So the line is the line of the last
      character consumed (or 1 before the first). */
  ghost predicate LineOk(lx: Lexer)
  {
    Valid(lx) && lx.line == LineOf(lx.src, if lx.pos == 0 then 0 else lx.pos - 1)
  }

  lemma NewlineCountStep(s: string, p: nat)
    requires p < |s|
    ensures NewlineCount(s[..p + 1]) == NewlineCount(s[..p]) + (if s[p] == '\n' then 1 else 0)
  {
    assert s[..p + 1][..p] == s[..p];
  }

  //
  // Character primitives
  //

  function Peek(lx: Lexer): char
    requires Valid(lx)
  {
    if lx.pos < |lx.src| then lx.src[lx.pos] else RuneError
  }

  /** Consume one character (none at the end of input). The newline count is
      bumped when the character just before the current position is a newline. */
  function Advance(lx: Lexer): (r: Lexer)
    requires Valid(lx)
    ensures Valid(r) && r.src == lx.src && r.tokenStart == lx.tokenStart
    ensures r.pos == if lx.pos < |lx.src| then lx.pos + 1 else lx.pos
    ensures LineOk(lx) && lx.pos < |lx.src| ==> LineOk(r)
  {
    var line := if lx.pos > 0 && lx.src[lx.pos - 1] == '\n' then lx.line + 1 else lx.line;
    var size := if lx.pos < |lx.src| then 1 else 0;
    var r := lx.(pos := lx.pos + size, line := line);
    assert LineOk(lx) && lx.pos < |lx.src| ==> LineOk(r) by {
      if LineOk(lx) && lx.pos > 0 && lx.pos < |lx.src| {
        NewlineCountStep(lx.src, lx.pos - 1);
      }
    }
    r
  }

  predicate IsLetter(c: char)
  {
    ('a' <= c <= 'z') || ('A' <= c <= 'Z')
  }

  predicate IsDigit(c: char)
  {
    '0' <= c <= '9'
  }

  predicate IsIdentChar(c: char)
  {
    IsLetter(c) || IsDigit(c) || c == '_'
  }

  predicate IsBlank(c: char)
  {
    c == ' ' || c == '\n' || c == '\r'
  }

  //
  // Whitespace and comments
  //

  /** Offset `i` lies in a comment opened at or after `from`: it is not a
      newline, and it is a `#` or follows an offset that is in such a comment. */
  ghost predicate InComment(src: string, from: int, i: int)
    decreases i - from
  {
    0 <= from <= i < |src| && src[i] != '\n' && (src[i] == '#' || InComment(src, from, i - 1))
  }

  /** Every offset in `[from, to)` is a blank or part of a comment. */
  ghost predicate Skipped(src: string, from: int, to: int)
  {
    0 <= from <= to <= |src| &&
    forall i | from <= i < to :: IsBlank(src[i]) || InComment(src, from, i)
  }

  lemma {:induction false} CommentRun(src: string, from: int, i: int)
    requires 0 <= from <= i < |src| && src[from] == '#'
    requires forall k | from <= k <= i :: src[k] != '\n'
    ensures InComment(src, from, i)
    decreases i - from
  {
    if i > from {
      CommentRun(src, from, i - 1);
    }
  }

  /** A newline ends every comment: past it, only comments opened after it count. */
  lemma {:induction false} NewlineResets(src: string, a: int, n: int, i: int)
    requires 0 <= a <= n <= i < |src| && src[n] == '\n'
    ensures InComment(src, a, i) == InComment(src, n, i)
    decreases i - n
  {
    if i > n {
      NewlineResets(src, a, n, i - 1);
    }
  }

  /** A blank that is not in a comment does not start one. */
  lemma {:induction false} BlankShift(src: string, a: int, i: int)
    requires 0 <= a < i < |src| && IsBlank(src[a])
    ensures InComment(src, a, i) == InComment(src, a + 1, i)
    decreases i - a
  {
    assert !InComment(src, a, a);
    if i > a + 1 {
      BlankShift(src, a, i - 1);
    }
  }

  /** The inner loop of `skipWhitespace` over a comment: advance until a newline
      is next, or stop the whole skip when the end of input is reached. */
  function SkipComment(lx: Lexer): (r: (Lexer, bool))
    requires Valid(lx)
    ensures Valid(r.0) && r.0.src == lx.src && r.0.tokenStart == lx.tokenStart && lx.pos <= r.0.pos
    ensures r.1 ==> r.0.pos == |lx.src|
    ensures !r.1 ==> r.0.pos < |lx.src| && lx.src[r.0.pos] == '\n'
    ensures Peek(lx) != '\n' && lx.pos < |lx.src| ==> lx.pos < r.0.pos
    ensures forall k | lx.pos <= k < r.0.pos :: lx.src[k] != '\n'
    ensures LineOk(lx) && lx.pos < |lx.src| ==> LineOk(r.0)
    decreases |lx.src| - lx.pos
  {
    if Peek(lx) != '\n' then
      var next := Advance(lx);
      if next.pos >= |next.src| then (next, true) else SkipComment(next)
    else
      (lx, false)
  }

  /** `skipWhitespace`: skip blanks and `#` comments. It stops at the first
      offset that is neither, and everything before it was blank or comment. */
  function SkipWhitespace(lx: Lexer): (r: Lexer)
    requires Valid(lx)
    ensures Valid(r) && r.src == lx.src && r.tokenStart == lx.tokenStart && lx.pos <= r.pos
    ensures Skipped(lx.src, lx.pos, r.pos)
    ensures r.pos == |lx.src| || (!IsBlank(lx.src[r.pos]) && lx.src[r.pos] != '#' && !InComment(lx.src, lx.pos, r.pos))
    ensures LineOk(lx) ==> LineOk(r)
    decreases |lx.src| - lx.pos
  {
    var c := Peek(lx);
    if IsBlank(c) then
      var r := SkipWhitespace(Advance(lx));
      BlankShiftAll(lx.src, lx.pos, r.pos);
      r
    else if c == '#' then
      var (after, stop) := SkipComment(lx);
      CommentAll(lx.src, lx.pos, after.pos);
      if stop then
        after
      else
        var r := SkipWhitespace(after);
        NewlineResetsAll(lx.src, lx.pos, after.pos, r.pos);
        r
    else
      lx
  }

  lemma BlankShiftAll(src: string, a: int, r: int)
    requires 0 <= a < |src| && IsBlank(src[a]) && a + 1 <= r
    ensures forall i | a + 1 <= i <= r && i < |src| :: InComment(src, a, i) == InComment(src, a + 1, i)
  {
    forall i | a + 1 <= i <= r && i < |src|
      ensures InComment(src, a, i) == InComment(src, a + 1, i)
    {
      BlankShift(src, a, i);
    }
  }

  lemma CommentAll(src: string, a: int, n: int)
    requires 0 <= a < n <= |src| && src[a] == '#'
    requires forall k | a <= k < n :: src[k] != '\n'
    ensures forall i | a <= i < n :: InComment(src, a, i)
  {
    forall i | a <= i < n
      ensures InComment(src, a, i)
    {
      CommentRun(src, a, i);
    }
  }

  lemma NewlineResetsAll(src: string, a: int, n: int, r: int)
    requires 0 <= a <= n <= r && n < |src| && src[n] == '\n'
    ensures forall i | n <= i <= r && i < |src| :: InComment(src, a, i) == InComment(src, n, i)
  {
    forall i | n <= i <= r && i < |src|
      ensures InComment(src, a, i) == InComment(src, n, i)
    {
      NewlineResets(src, a, n, i);
    }
  }

  //
  // Token scanners
  //

  /** The loop of `identifier`: a maximal run of letters, digits and `_`. */
  function ScanIdentifier(lx: Lexer): (r: Lexer)
    requires Valid(lx)
    ensures Valid(r) && r.src == lx.src && r.tokenStart == lx.tokenStart && lx.pos <= r.pos
    ensures forall k | lx.pos <= k < r.pos :: IsIdentChar(lx.src[k])
    ensures r.pos == |lx.src| || !IsIdentChar(lx.src[r.pos])
    ensures LineOk(lx) ==> LineOk(r)
    decreases |lx.src| - lx.pos
  {
    if IsIdentChar(Peek(lx)) then ScanIdentifier(Advance(lx)) else lx
  }

  /** The loop of `number`: a maximal run of digits. */
  function ScanDigits(lx: Lexer): (r: Lexer)
    requires Valid(lx)
    ensures Valid(r) && r.src == lx.src && r.tokenStart == lx.tokenStart && lx.pos <= r.pos
    ensures forall k | lx.pos <= k < r.pos :: IsDigit(lx.src[k])
    ensures r.pos == |lx.src| || !IsDigit(lx.src[r.pos])
    ensures LineOk(lx) ==> LineOk(r)
    decreases |lx.src| - lx.pos
  {
    if IsDigit(Peek(lx)) then ScanDigits(Advance(lx)) else lx
  }

  /** A closing quote exists at or after `pos`; without one the loop of
      `string` never ends. */
  ghost predicate QuoteAhead(src: string, pos: int)
  {
    exists k :: 0 <= pos <= k < |src| && src[k] == '\''
  }

  /** The loop of `string`: advance to the next quote. */
  function ScanString(lx: Lexer): (r: Lexer)
    requires Valid(lx) && QuoteAhead(lx.src, lx.pos)
    ensures Valid(r) && r.src == lx.src && r.tokenStart == lx.tokenStart && lx.pos <= r.pos
    ensures r.pos < |lx.src| && lx.src[r.pos] == '\''
    ensures forall k | lx.pos <= k < r.pos :: lx.src[k] != '\''
    ensures LineOk(lx) ==> LineOk(r)
    decreases |lx.src| - lx.pos
  {
    if Peek(lx) != '\'' then ScanString(Advance(lx)) else lx
  }

  /** The eleven keywords. */
  function Keyword(word: string): Option<TokenTag>
  {
    if word == "var" then Some(Var)
    else if word == "for" then Some(For)
    else if word == "in" then Some(In)
    else if word == "if" then Some(If)
    else if word == "return" then Some(Return)
    else if word == "continue" then Some(Continue)
    else if word == "break" then Some(Break)
    else if word == "match" then Some(Match)
    else if word == "else" then Some(Else)
    else if word == "fn" then Some(Fn)
    else if word == "nil" then Some(Nil)
    else None
  }

  /** A token of length 0 at the token start: operators and keywords. */
  function Simple(lx: Lexer, tag: TokenTag): Token
  {
    Token(tag, lx.tokenStart, 0)
  }

  function HexDigit(d: nat): char
    requires d < 16
  {
    if d < 10 then ('0' as int + d) as char else ('a' as int + d - 10) as char
  }

  /** Lower-case hexadecimal, as the `%x` verb prints a rune. */
  function Hex(n: nat): string
    decreases n
  {
    if n < 16 then [HexDigit(n)] else Hex(n / 16) + [HexDigit(n % 16)]
  }

  /** A rune as the `%q` verb prints it (single-quoted, with Go escapes). */
  function QuoteRune(c: char): string
  {
    var body :=
      if c == '\'' then "\\'"
      else if c == '\\' then "\\\\"
      else if c == '\n' then "\\n"
      else if c == '\r' then "\\r"
      else if c == '\t' then "\\t"
      else if c == '\U{7}' then "\\a"
      else if c == '\U{8}' then "\\b"
      else if c == '\U{C}' then "\\f"
      else if c == '\U{B}' then "\\v"
      else if (c as int) < 0x20 || c as int == 0x7F then "\\x" + (if (c as int) < 16 then "0" else "") + Hex(c as int)
      else [c];
    "'" + body + "'"
  }

  function UnexpectedCharacter(lx: Lexer, c: char): Error
  {
    E(LexError, "unexpected character " + QuoteRune(c) + " (" + Hex(c as int) + ")", lx.line)
  }

  /** What makes the token at the current offset lexable: a string's closing
      quote exists. */
  ghost predicate CanScan(s: Lexer)
  {
    Valid(s) && (s.pos < |s.src| && s.src[s.pos] == '\'' ==> QuoteAhead(s.src, s.pos + 1))
  }

  /** A successful scan moves forward (strictly, unless at the end of input)
      and yields a non-EOF token inside the source. */
  ghost predicate Scanned(s: Lexer, r: Result<(Token, Lexer)>)
    requires Valid(s)
  {
    r.Ok? ==> var (tok, next) := r.value;
      Valid(next) && next.src == s.src && next.tokenStart == s.tokenStart && s.pos <= next.pos &&
      (s.pos < |s.src| ==> s.pos < next.pos) && tok.tag != EOF && InBounds(s.src, tok)
  }

  /** `identifier` from its first letter: a keyword token of length 0, or an
      Identifier token spanning the run. */
  function ScanWord(s: Lexer): (r: Result<(Token, Lexer)>)
    requires Valid(s) && s.tokenStart == s.pos && s.pos < |s.src| && IsLetter(s.src[s.pos])
    ensures Scanned(s, r) && r.Ok?
    ensures LineOk(s) ==> LineOk(r.value.1)
  {
    var e := ScanIdentifier(s);
    var word := s.src[s.pos..e.pos];
    match Keyword(word)
    case Some(k) => Ok((Simple(e, k), e))
    case None => Ok((Token(Identifier, s.pos, e.pos - s.pos), e))
  }

  /** `number` from its first digit. */
  function ScanNumber(s: Lexer): (r: Result<(Token, Lexer)>)
    requires Valid(s) && s.tokenStart == s.pos && s.pos < |s.src| && IsDigit(s.src[s.pos])
    ensures Scanned(s, r) && r.Ok?
    ensures LineOk(s) ==> LineOk(r.value.1)
  {
    var e := ScanDigits(s);
    Ok((Token(Num, s.tokenStart, e.pos - s.tokenStart), e))
  }

  /** `string` after the opening quote: the token spans the characters
      between the quotes. `fixed` selects the corrected closing (see
      NextToken); the source steps over the closing quote without the newline
      bookkeeping of `advance`. */
  function ScanQuoted(a: Lexer, fixed: bool): (r: Result<(Token, Lexer)>)
    requires Valid(a) && a.tokenStart + 1 == a.pos && QuoteAhead(a.src, a.pos)
    ensures r.Ok? && var (tok, next) := r.value;
      Valid(next) && next.src == a.src && next.tokenStart == a.tokenStart && a.pos < next.pos &&
      tok.tag == Str && InBounds(a.src, tok)
    ensures fixed && LineOk(a) ==> LineOk(r.value.1)
  {
    var e := ScanString(a);
    var tok := Token(Str, a.tokenStart + 1, e.pos - (a.tokenStart + 1));
    if fixed then Ok((tok, Advance(e))) else Ok((tok, e.(pos := e.pos + 1)))
  }

  /** The eleven keyword tags. */
  predicate IsKeyword(t: TokenTag)
  {
    t.Var? || t.For? || t.In? || t.If? || t.Return? || t.Continue? ||
    t.Match? || t.Else? || t.Break? || t.Fn? || t.Nil?
  }

  /** The punctuation tags: everything but EOF, the three literal kinds and the keywords. */
  predicate IsOperator(t: TokenTag)
  {
    !(t.EOF? || t.Identifier? || t.Str? || t.Num? || IsKeyword(t))
  }

  /** What every case of the operator switch guarantees: the token is an
      operator at the token start whose text is exactly the characters
      consumed; a failure is the "unexpected character" error for `c`. */
  ghost predicate OperatorScanned(a: Lexer, c: char, r: Result<(Token, Lexer)>)
    requires Valid(a)
  {
    (r.Ok? ==> var (tok, next) := r.value;
      Valid(next) && next.src == a.src && next.tokenStart == a.tokenStart && a.pos <= next.pos <= a.pos + 1 &&
      IsOperator(tok.tag) && tok == Simple(a, tok.tag) &&
      |TagText(tok.tag)| == 1 + next.pos - a.pos && TagText(tok.tag)[0] == c &&
      (a.pos < next.pos ==> TagText(tok.tag)[1] == a.src[a.pos]) &&
      (LineOk(a) ==> LineOk(next))) &&
    (r.Err? ==> r.error == UnexpectedCharacter(a, c))
  }

  /** A case of the switch whose operator is complete after one character. */
  function Single(a: Lexer, c: char, tag: TokenTag): (r: Result<(Token, Lexer)>)
    requires Valid(a) && IsOperator(tag) && TagText(tag) == [c]
    ensures OperatorScanned(a, c, r) && r.Ok?
  {
    Ok((Simple(a, tag), a))
  }

  /** A case of the switch whose operator takes `second` as a second character
      when it follows; otherwise the one-character `short`, or an error when
      `c` is no operator on its own. */
  function Pair(a: Lexer, c: char, second: char, long: TokenTag, short: Option<TokenTag>): (r: Result<(Token, Lexer)>)
    requires Valid(a) && IsOperator(long) && TagText(long) == [c, second]
    requires short.Some? ==> IsOperator(short.value) && TagText(short.value) == [c]
    ensures OperatorScanned(a, c, r)
    ensures r.Ok? && r.value.1.pos == a.pos ==> Peek(a) != second
    ensures r.Err? <==> short.None? && Peek(a) != second
  {
    if Peek(a) == second then Ok((Simple(a, long), Advance(a)))
    else match short
      case Some(t) => Ok((Simple(a, t), a))
      case None => Err(UnexpectedCharacter(a, c))
  }

  /** The cases of the operator switch for characters that are an operator
      on their own and never start a longer one. */
  function ScanPunctuation(a: Lexer, c: char): (r: Result<(Token, Lexer)>)
    requires Valid(a)
    ensures OperatorScanned(a, c, r)
  {
    match c
    case ':' => Single(a, c, Colon)
    case '{' => Single(a, c, LCurly)
    case '}' => Single(a, c, RCurly)
    case '(' => Single(a, c, LParen)
    case ')' => Single(a, c, RParen)
    case '*' => Single(a, c, Star)
    case '+' => Single(a, c, Plus)
    case '%' => Single(a, c, Percent)
    case ',' => Single(a, c, Comma)
    case '[' => Single(a, c, LSquare)
    case ']' => Single(a, c, RSquare)
    case '-' => Single(a, c, Minus)
    case '/' => Single(a, c, Slash)
    case _ => Err(UnexpectedCharacter(a, c))
  }

  /** The operator switch, after the first character `c` was consumed. The
      token's text is exactly the characters consumed. */
  function ScanOperator(a: Lexer, c: char): (r: Result<(Token, Lexer)>)
    requires Valid(a)
    ensures OperatorScanned(a, c, r)
  {
    match c
    case '<' => Pair(a, c, '=', LessEqual, Some(Less))
    case '>' => Pair(a, c, '=', GreaterEqual, Some(Greater))
    case '=' => Pair(a, c, '=', EqualEqual, Some(Equal))
    case '!' => Pair(a, c, '=', BangEqual, None)
    case '&' => Pair(a, c, '&', AmpAmp, None)
    case '|' => Pair(a, c, '|', PipePipe, None)
    case _ => ScanPunctuation(a, c)
  }

  /** The body of `NextToken` once blanks are skipped and the token start is
      set: dispatch on the first character. */
  function ScanToken(s: Lexer, fixed: bool): (r: Result<(Token, Lexer)>)
    requires CanScan(s) && s.tokenStart == s.pos
    ensures Scanned(s, r)
    ensures r.Ok? && fixed && LineOk(s) ==> LineOk(r.value.1)
    ensures r.Err? ==> r.error.tag == LexError
    ensures r.Err? && LineOk(s) ==> r.error.line == LineOf(s.src, s.pos)
  {
    var c := Peek(s);
    if IsLetter(c) then ScanWord(s)
    else if IsDigit(c) then ScanNumber(s)
    else
      var a := Advance(s);
      assert LineOk(s) ==> a.line == LineOf(s.src, s.pos) by {
        if LineOk(s) && s.pos > 0 {
          NewlineCountStep(s.src, s.pos - 1);
        }
      }
      if c == '\'' then ScanQuoted(a, fixed) else ScanOperator(a, c)
  }

  /** The offset where the next token starts, with the token start recorded. */
  function Prepare(lx: Lexer): (s: Lexer)
    requires Valid(lx)
    ensures Valid(s) && s.src == lx.src && s.tokenStart == s.pos && lx.pos <= s.pos
    ensures Skipped(lx.src, lx.pos, s.pos)
    ensures s.pos == |lx.src| || (!IsBlank(lx.src[s.pos]) && lx.src[s.pos] != '#' && !InComment(lx.src, lx.pos, s.pos))
    ensures LineOk(lx) ==> LineOk(s)
  {
    var s := SkipWhitespace(lx);
    s.(tokenStart := s.pos)
  }

  /** What `NextToken` needs to terminate from this state. */
  ghost predicate StringCloses(lx: Lexer)
  {
    Valid(lx) && CanScan(Prepare(lx))
  }

  /** `NextToken` exactly as the source writes it. At the end of input it
      returns EOF (at the previous token start) without moving; otherwise it
      skips blanks and comments and scans one token, even when the skip
      reached the end of input. */
  function NextTokenAsWritten(lx: Lexer): (r: Result<(Token, Lexer)>)
    requires StringCloses(lx)
    ensures r.Ok? ==> InBounds(lx.src, r.value.0) && r.value.1.src == lx.src && lx.pos <= r.value.1.pos
    ensures r.Err? ==> r.error.tag == LexError
    ensures Prepare(lx).pos < |lx.src| ==>
      (r.Ok? <==> NextToken(lx).Ok?) && (r.Ok? ==> r.value.0 == NextToken(lx).value.0)
  {
    if lx.pos >= |lx.src| then Ok((Simple(lx, EOF), lx))
    else ScanToken(Prepare(lx), false)
  }

  /** `NextToken` with the two defects of the source corrected: a skip that
      reaches the end of input yields EOF, and the closing quote of a string is
      consumed with the newline bookkeeping of every other character. */
  function NextToken(lx: Lexer): (r: Result<(Token, Lexer)>)
    requires StringCloses(lx)
    ensures r.Ok? ==> var (tok, next) := r.value;
      Valid(next) && next.src == lx.src && lx.pos <= next.pos && InBounds(lx.src, tok) &&
      (tok.tag != EOF ==> lx.pos < next.pos) &&
      (tok.tag == EOF ==> |lx.src| <= next.pos)
    ensures lx.pos >= |lx.src| ==> r == Ok((Token(EOF, lx.tokenStart, 0), lx))
    ensures r.Ok? && LineOk(lx) ==> LineOk(r.value.1)
    ensures r.Err? ==> r.error.tag == LexError
    ensures r.Err? && LineOk(lx) ==> r.error.line == LineOf(lx.src, Prepare(lx).pos)
  {
    if lx.pos >= |lx.src| then Ok((Simple(lx, EOF), lx))
    else
      var s := Prepare(lx);
      if s.pos >= |s.src| then Ok((Simple(s, EOF), s))
      else ScanToken(s, true)
  }

  /** Every string the lexer will meet from here on is terminated, so lexing
      the rest of the input terminates. */
  ghost predicate Closed(lx: Lexer)
    requires Valid(lx)
    decreases |lx.src| - lx.pos
  {
    lx.pos >= |lx.src| ||
    (StringCloses(lx) &&
     match NextToken(lx)
     case Err(_) => true
     case Ok((tok, next)) => tok.tag == EOF || Closed(next))
  }

  /** Lexing one token keeps the rest of the input closed. */
  lemma ClosedStep(lx: Lexer)
    requires Valid(lx) && Closed(lx)
    ensures StringCloses(lx)
    ensures NextToken(lx).Ok? ==> Closed(NextToken(lx).value.1)
  {
  }

  /** The text a token covers. */
  function GetString(src: string, tok: Token): string
    requires InBounds(src, tok)
  {
    src[tok.pos..tok.pos + tok.len]
  }

  /** `GetLineAndCol`: scan the source up to the token, counting newlines and
      remembering where the current line starts. */
  method GetLineAndCol(src: string, tok: Token) returns (line: int, col: int)
    ensures line == LineOf(src, tok.pos)
    ensures line == 1 + |set k | 0 <= k < Clamp(tok.pos, |src|) && src[k] == '\n'|
    ensures col == tok.pos - LineStart(src, tok.pos)
  {
    line := 1;
    var lineStart := 0;
    var i := 0;
    var stop := Clamp(tok.pos, |src|);
    while i < |src|
      invariant 0 <= i <= stop
      invariant line == 1 + NewlineCount(src[..i])
      invariant lineStart == LineStart(src, i)
      decreases |src| - i
    {
      if i >= tok.pos {
        break;
      }
      NewlineCountStep(src, i);
      if src[i] == '\n' {
        line := line + 1;
        lineStart := i + 1;
      }
      i := i + 1;
    }
    assert i == stop;
    NewlinesAsSet(src, stop);
    col := tok.pos - lineStart;
  }

  /** The recursive newline count agrees with counting the newline offsets. */
  lemma {:induction false} NewlinesAsSet(src: string, n: nat)
    requires n <= |src|
    ensures NewlineCount(src[..n]) == |set k | 0 <= k < n && src[k] == '\n'|
  {
    if n > 0 {
      NewlinesAsSet(src, n - 1);
      NewlineCountStep(src, n - 1);
      var prev := set k | 0 <= k < n - 1 && src[k] == '\n';
      var all := set k | 0 <= k < n && src[k] == '\n';
      if src[n - 1] == '\n' {
        assert all == prev + {n - 1};
      } else {
        assert all == prev;
      }
    }
  }

  //
  // The token stream
  //

  /** Every token `NextToken` yields from some state until it stops: the
      tokens before EOF, then the EOF token or the lexer error that ended
      lexing. */
  datatype Stream = Stream(src: string, tokens: seq<Token>, last: Result<Token>)

  /** Stream tokens lie in the source and are not EOF; the stream ends in an
      EOF token inside the source, or in a lexer error. */
  ghost predicate WellFormed(s: Stream)
  {
    (forall i | 0 <= i < |s.tokens| :: s.tokens[i].tag != EOF && InBounds(s.src, s.tokens[i])) &&
    (s.last.Ok? ==> s.last.value.tag == EOF && InBounds(s.src, s.last.value)) &&
    (s.last.Err? ==> s.last.error.tag == LexError || s.last.error == NoReturn)
  }

  /** Not an error the source raises: the marker a stream ends with where
      the lexer meets a string with no closing quote, on which the loop of
      `string` never ends. Its tag is none of the three named kinds. */
  const NoReturn: Error := Error(3, "string without a closing quote", 0)

  /** Whether a quote occurs at or after `pos`. */
  function QuoteFrom(src: string, pos: nat): (b: bool)
    ensures b <==> QuoteAhead(src, pos)
    decreases |src| - pos
  {
    if pos >= |src| then false
    else if src[pos] == '\'' then true
    else QuoteFrom(src, pos + 1)
  }

  lemma TokenThenStream(tok: Token, rest: Stream)
    requires WellFormed(rest) && tok.tag != EOF && InBounds(rest.src, tok)
    ensures WellFormed(Stream(rest.src, [tok] + rest.tokens, rest.last))
  {
  }

  /** The next token is a string with no closing quote. */
  function NeverCloses(lx: Lexer): (b: bool)
    requires Valid(lx)
    ensures b <==> !StringCloses(lx)
  {
    var start := Prepare(lx);
    start.pos < |lx.src| && lx.src[start.pos] == '\'' && !QuoteFrom(lx.src, start.pos + 1)
  }

  /** Call `NextToken` until it yields EOF or fails, or until it would
      scan a string with no closing quote, where it never returns. */
  function Lex(lx: Lexer): (s: Stream)
    requires Valid(lx)
    ensures s.src == lx.src && WellFormed(s)
    ensures lx.pos >= |lx.src| ==> s == Stream(lx.src, [], Ok(Token(EOF, lx.tokenStart, 0)))
    decreases |lx.src| - lx.pos
  {
    if NeverCloses(lx) then Stream(lx.src, [], Err(NoReturn))
    else
      match NextToken(lx)
      case Err(e) => Stream(lx.src, [], Err(e))
      case Ok(n) =>
        if n.0.tag == EOF then Stream(lx.src, [], Ok(n.0))
        else
          var rest := Lex(n.1);
          TokenThenStream(n.0, rest);
          Stream(lx.src, [n.0] + rest.tokens, rest.last)
  }

  /** The stream ends in the no-return marker exactly when lexing from `lx`
      meets a string that never closes before it meets EOF or an error. */
  lemma {:induction false} LexSpinsIffOpen(lx: Lexer)
    requires Valid(lx)
    ensures Lex(lx).last == Err(NoReturn) <==> !Closed(lx)
    decreases |lx.src| - lx.pos
  {
    if lx.pos < |lx.src| && StringCloses(lx) {
      match NextToken(lx)
      case Err(e) =>
      case Ok(n) =>
        if n.0.tag != EOF {
          LexSpinsIffOpen(n.1);
        }
    }
  }

}
