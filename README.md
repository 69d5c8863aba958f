# glisp reader, modelled in Dafny

This project models the Lisp reader of glisp, `src/impl/reader.ts`, which turns
source text into s-expressions in two stages:

- `tokenize` scans the text with one global regular expression. It skips
  whitespace and commas, captures one token per match and drops `;` comments.
  Optionally it pairs each token with its offset.
- `readStr` feeds the tokens to a recursive-descent parser (`readForm`,
  `readList`, `readAtom`). The parser moves a mutable cursor (`class Reader`)
  through the tokens.

The modules follow the parts of the source:

- `Ast`: the tree (`Node`), the reader's error kinds (`ReadError`) and the
  `Option`/`Result` wrappers.
- `Chars`: the character classes of the regular expressions.
- `Lexer`: the tokenizer.
  - `SkipSeparators`, `CaptureEnd` and `ScanString` are one match of the
    regular expression, its alternatives tried in order.
  - `Lex` is the whole scan as a function.
  - `Tokenize` is the source's `while` loop, proved to compute `Emit(Lex(str, 0), …)`
    in both output modes.
- `Cursor`: `class Reader` with its `position` field, `Next` and `Peek`.
- `Atoms`: `readAtom`'s classification in first-match order, and the unescaping
  of string literals.
- `Forms`:
  - `Form`, `ListForm` and `ListRest` say what `readForm` and `readList` return
    and where they leave the cursor.
  - The methods `ReadForm`, `ReadList` and `ReadStr` are the source's code over
    a `Reader` object, each proved equal to those functions.
  - `Read` is `readStr` as a function of the text.
- `Printer`: the reader's partner. It writes a tree back as tokens, and the lemmas
  prove that those tokens read back as the same tree (reader macros and error
  paths included).

## Model

| member | source | states |
|---|---|---|
| Ast.Message | src/impl/reader.ts:69 | the texts of the reader's errors: `[READ] expected '"', got EOF`, `[READ] expected '<start>'`, `[READ] expected '<end>', got EOF` and `unexpected ')'` (lines 69, 94, 99, 141) |
| Chars.IsSpace | src/impl/reader.ts:29 | `\s`: the ECMAScript white-space and line-terminator characters |
| Chars.IsSpecial | src/impl/reader.ts:29 | `[\[\]{}()'`~^@]`: the characters that form a token on their own |
| Chars.IsIdentChar | src/impl/reader.ts:29 | `[^\s\[\]{}('"`,;)]`: every character except white space, brackets, braces, parentheses, quotes, backquote, comma and `;` |
| Cursor.TokenAt | src/impl/reader.ts:16-22 | the element at the position, or none (JS `undefined`) exactly when the position is past the end |
| Cursor.Reader.constructor | src/impl/reader.ts:11-14 | the reader holds the given tokens and starts at position 0 |
| Cursor.Reader.Next | src/impl/reader.ts:16-18 | returns what `peek` would have returned (none past the end) and advances the position by exactly one |
| Cursor.Reader.Peek | src/impl/reader.ts:20-22 | returns the current token and changes nothing |
| Lexer.SkipSeparators | src/impl/reader.ts:29 | the leading `[\s,]*` stops at the first character that is not whitespace or a comma |
| Lexer.ScanString | src/impl/reader.ts:29 | a literal body `(?:\\.\|[^\\"])*"` that matches ends just past a `"` |
| Lexer.LineEnd | src/impl/reader.ts:29 | `.*` of a comment stops at the first line terminator: no terminator lies before the end it returns, and a terminator or the end of the text is there |
| Lexer.IdentEnd | src/impl/reader.ts:29 | an identifier run stops at the first character outside the class |
| Lexer.CaptureEnd | src/impl/reader.ts:29 | the capture never runs backwards or past the end |
| Lexer.Lex | src/impl/reader.ts:29-48 | the whole scan from a position: each step skips separators and captures, a `;` capture is dropped, other captures are emitted with their start offset, and the scan stops at the first empty capture |
| Lexer.IsClosedLiteral | src/impl/reader.ts:63 | `^"(?:\\.\|[^\\"])*"$`: the token opens with `"` and the literal body scan ends exactly at its last character |
| Lexer.Texts | src/impl/reader.ts:47 | the token texts of the scan, one per lexeme, in order |
| Lexer.Emit | src/impl/reader.ts:41-48 | one result per token: the bare token, or in positional mode the token with its offset |
| Lexer.LexStep | src/impl/reader.ts:36-39 | one loop turn: stop on an empty capture, skip a `;` capture, otherwise emit the captured slice at its start offset |
| Lexer.Tokenize | src/impl/reader.ts:27-51 | the loop's results are exactly the output of the whole scan, in either mode |
| Lexer.TokenizeStop | src/impl/reader.ts:36 | an empty capture ends the loop with the complete output |
| Lexer.TokenizeSkip | src/impl/reader.ts:37-39 | a comment capture is dropped and the loop goes on after it |
| Lexer.TokenizeStep | src/impl/reader.ts:41-48 | pushing the captured token keeps the loop invariant |
| Lexer.CaptureShape | src/impl/reader.ts:29 | a capture is `~@`, one special character, a closed literal or an identifier run, and an identifier run is maximal |
| Lexer.ScanStringCut | src/impl/reader.ts:29 | a literal captured inside the text is a closed literal on its own, as the string branch of `readAtom` tests it |
| Lexer.ScanStringPlaced | src/impl/reader.ts:29 | a closed literal found in the text is scanned exactly to its own closing quote |
| Lexer.IdentRun | src/impl/reader.ts:29 | every character of an identifier run is in the identifier class |
| Lexer.SkipSeparatorsTo | src/impl/reader.ts:29 | the separator skip ends exactly at the first non-separator |
| Lexer.IdentEndPlaced | src/impl/reader.ts:29 | an identifier run followed by a non-identifier character is captured to its end |
| Lexer.CapturePlaced | src/impl/reader.ts:29 | a token followed by a separator is captured exactly, neither shorter nor longer |
| Lexer.LexemesInSource | src/impl/reader.ts:29-45 | every emitted token is a non-empty slice of the source at its offset, does not start with `;`, has a token shape, and an identifier token is maximal |
| Lexer.OrderedCons | src/impl/reader.ts:36 | a lexeme ending before every later lexeme keeps the sequence in source order |
| Lexer.LexemesOrdered | src/impl/reader.ts:36-48 | tokens come out in source order and never overlap |
| Lexer.TokensWellFormed | src/impl/reader.ts:36-39 | no token of `tokenize` is empty or starts with `;`, and each has a token shape |
| Lexer.UnclosedStringEndsScan | src/impl/reader.ts:29-36 | at an unclosed `"` the capture is empty, so scanning stops and the rest of the text is dropped |
| Lexer.LexSkipsSeparator | src/impl/reader.ts:29 | a whitespace or comma character is skipped: the scan from it is the scan from the next character |
| Lexer.LexSkipsComment | src/impl/reader.ts:37-39 | a `;` comment is dropped up to the end of its line |
| Lexer.LexAtCapture | src/impl/reader.ts:29-36 | at any other character the scan emits a token, unless the character opens a literal that is never closed |
| Lexer.SilentIffNoTokens | src/impl/reader.ts:29-39 | the scan emits no token exactly when the text holds only whitespace, commas and comments, any number of them, up to its end or an unclosed literal |
| Lexer.LexemesPlaced | src/impl/reader.ts:41-45 | every lexeme of the whole scan is a non-empty slice of the source at its offset |
| Lexer.EmitPlaced | src/impl/reader.ts:41-45 | in positional mode each pair's offset locates its token in the source |
| Lexer.EmitIncreasing | src/impl/reader.ts:41-45 | in positional mode the offsets strictly increase |
| Lexer.EmitPlain | src/impl/reader.ts:46-48 | the plain mode yields the same tokens |
| Lexer.PositionalOutput | src/impl/reader.ts:41-48 | for each pair, `source[off..off+\|tok\|] == tok`; offsets strictly increase; the plain mode gives the same tokens |
| Atoms.IsIntegerToken | src/impl/reader.ts:57 | `^[-+]?[0-9]+$`: an optional sign and at least one digit |
| Atoms.IsFloatToken | src/impl/reader.ts:60 | the first alternative of `^[-+]?([0-9]*\.[0-9]+\|[0-9]+)$`: optional sign, digits, a dot and at least one digit; the second alternative is only reached by integer tokens, which the integer branch takes first |
| Atoms.DigitsValueZero | src/impl/reader.ts:59 | a digit run is worth zero exactly when every digit is `0` |
| Atoms.ParseInt | src/impl/reader.ts:59 | `parseInt(token, 10)` on an integer token: negative only after a `-`, and zero exactly when all digits are `0` |
| Atoms.DigitRun | src/impl/reader.ts:60 | the digit run ends at the first non-digit |
| Atoms.Unescape | src/impl/reader.ts:67 | never lengthens the text, and leaves text without a backslash unchanged |
| Atoms.UnescapeOther | src/impl/reader.ts:67 | a backslash before any character other than `n` or a line terminator is dropped and the character kept (`\t` gives `t`) |
| Atoms.UnescapeNewline | src/impl/reader.ts:67 | `\n` becomes a newline character |
| Atoms.UnescapeUnmatched | src/impl/reader.ts:67 | a backslash at the end or before a line terminator is kept, since `.` does not match there |
| Atoms.ClassifyAtom | src/impl/reader.ts:68-69 | the error is returned exactly for a `"`-prefixed token that is not a closed literal, and it is the unterminated-string error |
| Atoms.ClassifyAtomCases | src/impl/reader.ts:57-81 | first match wins: integer (base 10), float, closed string unescaped, `:keyword`, `nil`, `true`/`false`, otherwise a symbol of the token; each branch in both directions |
| Atoms.Atom | src/impl/reader.ts:82-84 | a read past the end passes `undefined` through, and only such a read yields it; a string token is classified |
| Atoms.PlainLiteralReads | src/impl/reader.ts:63-67 | a closed literal without a backslash reads as its interior |
| Forms.MacroHead | src/impl/reader.ts:116-138 | the one-token reader macros are exactly `'`, `` ` ``, `~`, `~@` and `@` |
| Forms.Form | src/impl/reader.ts:109-149 | the cursor never goes back; on success with a current token other than `;` it advances at least one; a `)` under the cursor is the `unexpected ')'` error; no blank or expected-open error; no unterminated-string error without such a token |
| Forms.MacroStep | src/impl/reader.ts:116-138 | a one-token macro reads the next form and yields `[head, form]`, leaving the cursor where that form did; an error of that form is passed on |
| Forms.FnStep | src/impl/reader.ts:128-130 | `#` reads the next form `f` and yields `[fn, [], f]`; an error of that form is passed on |
| Forms.MetaStep | src/impl/reader.ts:131-135 | `^` yields `[with-meta, target, meta]` from the two forms read after it, metadata first |
| Forms.ListForm | src/impl/reader.ts:88-95 | advances the cursor; the expected-open error comes exactly when the current token is not the opener; success is a list |
| Forms.ListRest | src/impl/reader.ts:97-106 | the cursor never goes back; a success is a list that extends the elements already read |
| Forms.FormNoClose | src/impl/reader.ts:109-149 | with no `)` token left (and, as from the tokenizer, no `;` or unclosed literal), a form either reads or fails with `[READ] expected ')', got EOF`; no other error is possible |
| Forms.ListRestNoClose | src/impl/reader.ts:97-100 | the `readList` loop with no `)` token left fails with `[READ] expected ')', got EOF`, whatever tokens come before the end (`(1 (2`, `('`) |
| Forms.ReadAtom | src/impl/reader.ts:53-85 | classifies the current token and advances the cursor by one |
| Forms.ReadForm | src/impl/reader.ts:109-149 | result and final position are those of `Form` at the starting position |
| Forms.ReadList | src/impl/reader.ts:88-107 | result and final position are those of `ListForm` at the starting position |
| Forms.Read | src/impl/reader.ts:153-160 | fails with the blank error exactly when there are no tokens; never yields the unterminated-string error |
| Forms.BlankExactlyWhenSilent | src/impl/reader.ts:153-156 | `readStr` raises `BlankException` exactly when the text holds only whitespace, commas and comments, up to its end or an unclosed literal |
| Forms.ReadNoClose | src/impl/reader.ts:153-160 | text whose first token is `(` and that has no `)` token reads as `[READ] expected ')', got EOF` |
| Forms.TokensAreClosed | src/impl/reader.ts:37 | tokens of the scanner's shapes contain no comment token and no unclosed literal |
| Forms.ReadStr | src/impl/reader.ts:153-160 | returns `Read(src)`: blank on no tokens, otherwise the first form from a fresh reader, later tokens ignored |
| Forms.PlainTokens | src/impl/reader.ts:154 | the plain-mode results of `tokenize` are `Tokens(src)` |
| Printer.DigitsValueOf | src/impl/reader.ts:57-59 | the decimal digits of `n` are a non-empty digit run whose base-10 value is `n` |
| Printer.DecimalRoundTrip | src/impl/reader.ts:57-59 | a numeral is an integer token and `parseInt` gives the number back |
| Printer.UnescapeEscape | src/impl/reader.ts:67 | unescaping undoes escaping |
| Printer.ScanEscapedChar | src/impl/reader.ts:29 | the literal scan steps over one escaped character |
| Printer.ScanEscaped | src/impl/reader.ts:29 | the body of an escaped literal is scanned to its closing quote |
| Printer.QuotedIsClosed | src/impl/reader.ts:63 | a quoted, escaped string is a closed literal whose interior is the escaped text |
| Printer.FloatShape | src/impl/reader.ts:57-60 | a float token is an identifier run and not an integer token |
| Printer.NumeralShape | src/impl/reader.ts:29 | a numeral is an identifier run opening with a digit or `-` |
| Printer.IntReads | src/impl/reader.ts:57-59 | a numeral reads back as its integer |
| Printer.FloatReads | src/impl/reader.ts:60-62 | a float token reads back as that float |
| Printer.StrReads | src/impl/reader.ts:63-67 | a quoted, escaped string reads back as the string |
| Printer.KeywordReads | src/impl/reader.ts:70-71 | `:name` reads back as the keyword `name` |
| Printer.SymReads | src/impl/reader.ts:78-81 | a plain symbol name reads back as that symbol |
| Printer.LetterWord | src/impl/reader.ts:57-69 | an identifier run starting with a lower-case letter is no number or string literal |
| Printer.WordReads | src/impl/reader.ts:72-77 | `nil`, `true` and `false` read back as nil and the booleans |
| Printer.AtomReads | src/impl/reader.ts:53-85 | every printable atom prints as one token that `readAtom` classifies as that atom |
| Printer.PrintedTokens | src/impl/reader.ts:29 | a printed tree's tokens have the scanner's shapes, none is `;`, and the first is neither empty nor `)` |
| Printer.PrintedAllTokens | src/impl/reader.ts:29 | the same for a sequence of printed trees |
| Printer.FormReadsPrinted | src/impl/reader.ts:109-149 | reading a printed tree gives it back and leaves the cursor just after its tokens, whatever follows |
| Printer.AtomFormReads | src/impl/reader.ts:145-147 | a printed atom is read in one step |
| Printer.ListReadsPrinted | src/impl/reader.ts:142-143 | a printed list is read back whole, the closing `)` consumed |
| Printer.ElementStep | src/impl/reader.ts:97-103 | one turn of the `readList` loop reads one printed element and appends it |
| Printer.ListRestStep | src/impl/reader.ts:97-103 | a turn whose form reads successfully continues after that form with the form appended |
| Printer.StepsRead | src/impl/reader.ts:97-103 | a loop that takes each printed element in one turn takes all of them, in order |
| Printer.ElementsRead | src/impl/reader.ts:97-103 | the `readList` loop reads all printed elements in source order |
| Printer.ListRestReadsPrinted | src/impl/reader.ts:97-106 | printed elements followed by `)` yield the list of them in source order, the `)` consumed |
| Printer.ListRestRunsOut | src/impl/reader.ts:97-100 | printed elements with no `)` after them fail with `[READ] expected ')', got EOF` |
| Printer.UnclosedListFails | src/impl/reader.ts:97-100 | `(` and printed elements without `)` read as the expected-close error |
| Printer.MacroReadsPrinted | src/impl/reader.ts:116-127 | a one-token macro consumes one form and yields `[head, form]` |
| Printer.FnReadsPrinted | src/impl/reader.ts:128-130 | `#` yields `[fn, [], form]` |
| Printer.MetaReadsPrinted | src/impl/reader.ts:131-135 | `^` reads the metadata first and the target second; the metadata comes last in the result |

## Left out

- Float values: `parseFloat` is floating point, so a float atom keeps its token text.
- Integer precision: `parseInt` returns a JavaScript double, so very large integers lose precision and `-0` becomes negative zero. The model uses unbounded integers.
- Strings are sequences of Unicode code points. JavaScript's UTF-16 code units and surrogate pairs are not modelled.
- `\s` is modelled as the ECMAScript list of white-space and line-terminator characters, written out in `Chars.IsSpace`. `.` excludes the four line terminators.
- `Symbol.for` interning, `createKeyword` and `lispError` become constructors of `Node` and `ReadError`. `src/impl/types.ts` and `src/impl/repl.ts` are not part of this model.
- Exceptions become `Err` results. `BlankException` is the `Blank` error; messages are kept in `Ast.Message`.
- The editor sentinels `SELECTION_START`, `SELECTION_END` and `SYM_CURSOR_START` have no role in reading and are left out.
- Non-string tokens pass through `readAtom` unchanged (lines 82-84). They never come from `readStr`, so tokens are strings. A read past the end yields `Undefined`.
- Forms.Form, Forms.ListForm, Forms.ListRest, Forms.ReadForm, Forms.ReadList: require that no token after the current one is `;`. With a `;` token inside a list, `readList` would loop forever. The tokenizer never emits one (`Lexer.TokensWellFormed`).
- Unclosed string literals: the regular expression's string alternative has no optional closing quote. So at an unclosed `"` the capture is empty and scanning stops, dropping the rest of the text. The model follows the code (`Lexer.UnclosedStringEndsScan`). That error can only be reached by calling `readAtom` on such a token directly.
- Only trees that the printer can write are round-tripped. Floats must be float tokens, symbol names plain identifier runs or brackets, and `Undefined` has no text.
