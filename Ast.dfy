/** Values produced by the reader: the s-expression tree, the reader's error
    kinds, and the Option/Result wrappers used to return them. */
module Ast {

  datatype Option<+T> = None | Some(value: T)

  /** The reader raises its errors; here a failing read returns `Err`. */
  datatype Result<+T> = Ok(value: T) | Err(error: ReadError)

  /** The five ways a read can fail (`BlankException` and the four
      `lispError` messages of reader.ts). */
  datatype ReadError =
    | Blank                          // no tokens at all
    | UnterminatedString             // a token opening with `"` that is not a closed literal
    | ExpectedClose(end: string)     // the token stream ended inside a list
    | ExpectedOpen(start: string)    // `readList` called on a token other than its opener
    | UnexpectedClose                // a stray `)` where a form was expected

  /** The text each error carries in reader.ts (`BlankException` has none). */
  function Message(e: ReadError): string
  {
    match e
    case Blank => ""
    case UnterminatedString => "[READ] expected '\"', got EOF"
    case ExpectedClose(end) => "[READ] expected '" + end + "', got EOF"
    case ExpectedOpen(start) => "[READ] expected '" + start + "'"
    case UnexpectedClose => "unexpected ')'"
  }

  /** An s-expression. Symbols and keywords are identified by name (the
      interning registry and the keyword constructor are external).
      `Float` keeps the token text; `Undefined` is what a read past the end
      of the token stream yields. */
  datatype Node =
    | Int(number: int)
    | Float(text: string)
    | Str(chars: string)
    | Keyword(name: string)
    | Sym(name: string)
    | Bool(truth: bool)
    | Nil
    | List(elements: seq<Node>)
    | Undefined
}
