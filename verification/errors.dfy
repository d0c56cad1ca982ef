/** The error value shared by the lexer, the parser and the evaluator
    (src/error.go), and the failure-compatible result type every phase
    returns instead of panicking. */
module Errors {

  /** `ErrorTag` is a `uint8`; the three named tags are its first three values. */
  newtype ErrorTag = x: int | 0 <= x < 256

  const LexError: ErrorTag := 0
  const ParseError: ErrorTag := 1
  const RuntimeError: ErrorTag := 2

  /** The human-readable kind of an error. The three named tags get three
      distinct names and every other tag value falls back to "unknown error". */
  function TagName(t: ErrorTag): (s: string)
    ensures s == "syntax error" <==> t == LexError
    ensures s == "parse error" <==> t == ParseError
    ensures s == "runtime error" <==> t == RuntimeError
    ensures s == "unknown error" <==> t > RuntimeError
  {
    match t
    case 0 => "syntax error"
    case 1 => "parse error"
    case 2 => "runtime error"
    case _ => "unknown error"
  }

  /** A tagged message with the source line it is attributed to. */
  datatype Error = Error(tag: ErrorTag, msg: string, line: int)

  /** The constructor helper used at every failure point. */
  function E(tag: ErrorTag, msg: string, line: int): (e: Error)
  {
    Error(tag, msg, line)
  }

  /** The `error` interface view of an Error: the message, without kind or line. */
  function Message(e: Error): string
  {
    e.msg
  }

  /** An optional value. */
  datatype Option<+T> = None | Some(value: T)

  /** Either a value or the error that stopped the computation. */
  datatype Result<+T> = Ok(value: T) | Err(error: Error) {
    predicate IsFailure() {
      Err?
    }

    function PropagateFailure<U>(): Result<U>
      requires Err?
    {
      Err(error)
    }

    function Extract(): T
      requires Ok?
    {
      value
    }
  }

  /** A result that carries no value. */
  datatype Outcome = Pass | Fail(error: Error) {
    predicate IsFailure() {
      Fail?
    }

    function PropagateFailure<U>(): Result<U>
      requires Fail?
    {
      Err(error)
    }
  }

  /** A runtime error raised by value-level or built-in code, which has no
      source position of its own: its line is 0. */
  function RuntimeFailure<T>(msg: string): (r: Result<T>)
  {
    Err(Error(RuntimeError, msg, 0))
  }
}
