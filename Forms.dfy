/** The recursive-descent parser of reader.ts (`readForm`, `readList` and
    `readStr`, lines 88-160).

    `Form`, `ListForm` and `ListRest` say what a read starting at a cursor
    position yields and where it leaves the cursor; the methods `ReadForm`,
    `ReadList` and `ReadStr` are the source's code over a `Reader`, each
    proved to agree with them. */
module Forms {
  import opened Ast
  import opened Chars
  import opened Cursor
  import opened Atoms
  import Lexer

  /** What a read yields and the cursor position it leaves behind. */
  datatype Outcome = Outcome(result: Result<Node>, pos: nat)

  /** No token from `p` on is the comment token `;`. The `;` case of
      `readForm` returns without consuming, so inside a list such a token
      would make `readList` loop forever; the tokenizer never emits one. */
  predicate NoCommentFrom(ts: seq<string>, p: nat)
  {
    forall k :: p <= k < |ts| ==> ts[k] != ";"
  }

  /** No token from `p` on opens a string literal without closing it. */
  predicate NoUnclosedFrom(ts: seq<string>, p: nat)
  {
    forall k :: p <= k < |ts| ==> !(|ts[k]| > 0 && ts[k][0] == '"' && !Lexer.IsClosedLiteral(ts[k]))
  }

  /** Tokens left at position `p` (zero once the cursor is past the end). */
  function Left(ts: seq<string>, p: nat): nat
  {
    if p <= |ts| then |ts| - p else 0
  }

  /** The symbol each one-token reader macro wraps its form in. */
  function MacroHead(token: string): (head: Option<string>)
    ensures head.Some? <==> token in ["'", "`", "~", "~@", "@"]
  {
    if token == "'" then Some("quote")
    else if token == "`" then Some("quasiquote")
    else if token == "~" then Some("unquote")
    else if token == "~@" then Some("splice-unquote")
    else if token == "@" then Some("deref")
    else None
  }

  /** `[head, form]` around the outcome of the form after a macro token. */
  function Wrap(head: string, o: Outcome): Outcome
  {
    match o.result
    case Ok(form) => Outcome(Ok(List([Sym(head), form])), o.pos)
    case Err(e) => o
  }

  /** `readForm` with the cursor at `p` (lines 109-149). */
  function Form(ts: seq<string>, p: nat): (r: Outcome)
    requires NoCommentFrom(ts, p + 1)
    ensures p <= r.pos
    ensures r.result.Ok? && TokenAt(ts, p) != Some(";") ==> p < r.pos
    ensures r.result.Err? ==> !r.result.error.Blank? && !r.result.error.ExpectedOpen?
    ensures NoUnclosedFrom(ts, p) ==> r.result != Err(UnterminatedString)
    ensures TokenAt(ts, p) == Some(")") ==> r == Outcome(Err(UnexpectedClose), p)
    decreases Left(ts, p), 2
  {
    match TokenAt(ts, p)
    case Some(";") => Outcome(Ok(Nil), p)
    case Some(")") => Outcome(Err(UnexpectedClose), p)
    case Some("(") => ListForm(ts, p, "(", ")")
    case Some("#") =>
      var body := Form(ts, p + 1);
      (match body.result
       case Ok(form) => Outcome(Ok(List([Sym("fn"), List([]), form])), body.pos)
       case Err(_) => body)
    case Some("^") =>
      var meta := Form(ts, p + 1);
      (match meta.result
       case Err(_) => meta
       case Ok(m) =>
         var target := Form(ts, meta.pos);
         (match target.result
          case Ok(t) => Outcome(Ok(List([Sym("with-meta"), t, m])), target.pos)
          case Err(_) => target))
    case Some(token) =>
      if MacroHead(token).Some? then Wrap(MacroHead(token).value, Form(ts, p + 1))
      else Outcome(Atom(Some(token)), p + 1)
    case None => Outcome(Atom(None), p + 1)
  }

  /** A one-token reader macro reads the next form and wraps it as
      `[head, form]`; an error of that form is passed on. */
  lemma {:induction false} MacroStep(ts: seq<string>, p: nat)
    requires p < |ts| && MacroHead(ts[p]).Some? && NoCommentFrom(ts, p + 1)
    ensures var body := Form(ts, p + 1);
      && Form(ts, p).pos == body.pos
      && (body.result.Ok? ==> Form(ts, p).result == Ok(List([Sym(MacroHead(ts[p]).value), body.result.value])))
      && (body.result.Err? ==> Form(ts, p).result == body.result)
  {
  }

  /** `#` reads the next form `f` and yields `[fn, [], f]`; an error of that
      form is passed on. */
  lemma {:induction false} FnStep(ts: seq<string>, p: nat)
    requires p < |ts| && ts[p] == "#" && NoCommentFrom(ts, p + 1)
    ensures var body := Form(ts, p + 1);
      && Form(ts, p).pos == body.pos
      && (body.result.Ok? ==> Form(ts, p).result == Ok(List([Sym("fn"), List([]), body.result.value])))
      && (body.result.Err? ==> Form(ts, p).result == body.result)
  {
  }

  /** `^` reads the metadata, then the target, and yields
      `[with-meta, target, metadata]`. */
  lemma {:induction false} MetaStep(ts: seq<string>, p: nat, meta: Node, q: nat, target: Node, r: nat)
    requires p < |ts| && ts[p] == "^" && NoCommentFrom(ts, p + 1)
    requires Form(ts, p + 1) == Outcome(Ok(meta), q)
    requires Form(ts, q) == Outcome(Ok(target), r)
    ensures Form(ts, p) == Outcome(Ok(List([Sym("with-meta"), target, meta])), r)
  {
  }

  /** `readList(reader, start, end)` with the cursor at `p` (lines 88-107). */
  function ListForm(ts: seq<string>, p: nat, start: string, end: string): (r: Outcome)
    requires NoCommentFrom(ts, p + 1)
    ensures p < r.pos
    ensures r.result.Err? ==> !r.result.error.Blank?
    ensures r.result == Err(ExpectedOpen(start)) <==> TokenAt(ts, p) != Some(start)
    ensures r.result.Ok? ==> r.result.value.List?
    ensures NoUnclosedFrom(ts, p) ==> r.result != Err(UnterminatedString)
    decreases Left(ts, p), 1
  {
    if TokenAt(ts, p) != Some(start) then Outcome(Err(ExpectedOpen(start)), p + 1)
    else ListRest(ts, p + 1, end, [])
  }

  /** The loop of `readList` with the cursor at `q` and the elements read so
      far in `acc`. */
  function ListRest(ts: seq<string>, q: nat, end: string, acc: seq<Node>): (r: Outcome)
    requires NoCommentFrom(ts, q)
    ensures q <= r.pos
    ensures r.result.Err? ==> !r.result.error.Blank? && !r.result.error.ExpectedOpen?
    ensures r.result.Ok? ==> r.result.value.List? && acc <= r.result.value.elements
    ensures NoUnclosedFrom(ts, q) ==> r.result != Err(UnterminatedString)
    decreases Left(ts, q), 3
  {
    var token := TokenAt(ts, q);
    if token == Some(end) then Outcome(Ok(List(acc)), q + 1)
    else if token.None? || token == Some("") then Outcome(Err(ExpectedClose(end)), q)
    else
      var o := Form(ts, q);
      match o.result
      case Err(_) => o
      case Ok(form) => ListRest(ts, o.pos, end, acc + [form])
  }

  /** No token from `p` on is the list closer `)`. */
  predicate NoCloseFrom(ts: seq<string>, p: nat)
  {
    forall k :: p <= k < |ts| ==> ts[k] != ")"
  }

  /** With no `)` left, a form either reads or fails because a list it
      opened runs out of tokens; no other error is possible. */
  lemma {:induction false} FormNoClose(ts: seq<string>, p: nat)
    requires NoCommentFrom(ts, p) && NoUnclosedFrom(ts, p) && NoCloseFrom(ts, p)
    ensures Form(ts, p).result.Ok? || Form(ts, p).result == Err(ExpectedClose(")"))
    decreases Left(ts, p), 2
  {
    match TokenAt(ts, p)
    case None =>
    case Some(token) =>
      if token == "(" {
        ListRestNoClose(ts, p + 1, []);
      } else if token == "^" {
        FormNoClose(ts, p + 1);
        var meta := Form(ts, p + 1);
        if meta.result.Ok? {
          FormNoClose(ts, meta.pos);
        }
      } else if token == "#" || MacroHead(token).Some? {
        FormNoClose(ts, p + 1);
      }
  }

  /** The `readList` loop with no `)` left fails with the end-of-tokens
      error of lines 97-100, whatever the tokens before the end are. */
  lemma {:induction false} ListRestNoClose(ts: seq<string>, q: nat, acc: seq<Node>)
    requires NoCommentFrom(ts, q) && NoUnclosedFrom(ts, q) && NoCloseFrom(ts, q)
    ensures ListRest(ts, q, ")", acc).result == Err(ExpectedClose(")"))
    decreases Left(ts, q), 3
  {
    var token := TokenAt(ts, q);
    if token.Some? && token != Some("") {
      FormNoClose(ts, q);
      var o := Form(ts, q);
      if o.result.Ok? {
        ListRestNoClose(ts, o.pos, acc + [o.result.value]);
      }
    }
  }

  /** `readAtom(reader)` (lines 53-85): one `next`, then classification. */
  method ReadAtom(r: Reader) returns (res: Result<Node>)
    modifies r
    ensures res == Atom(old(r.Current()))
    ensures r.position == old(r.position) + 1
  {
    var token := r.Next();
    res := Atom(token);
  }

  /** `readForm(reader)` (lines 109-149). */
  method ReadForm(r: Reader) returns (res: Result<Node>)
    requires NoCommentFrom(r.tokens, r.position + 1)
    modifies r
    ensures Form(r.tokens, old(r.position)) == Outcome(res, r.position)
    decreases Left(r.tokens, r.position), 2
  {
    var token := r.Peek();
    match token
    case Some(";") =>
      res := Ok(Nil);
    case Some(")") =>
      res := Err(UnexpectedClose);
    case Some("(") =>
      res := ReadList(r, "(", ")");
    case Some("#") =>
      var _ := r.Next();
      var body := ReadForm(r);
      res := if body.Ok? then Ok(List([Sym("fn"), List([]), body.value])) else body;
    case Some("^") =>
      var _ := r.Next();
      var meta := ReadForm(r);
      if meta.Err? {
        res := meta;
      } else {
        var target := ReadForm(r);
        res := if target.Ok? then Ok(List([Sym("with-meta"), target.value, meta.value])) else target;
      }
    case Some(t) =>
      if MacroHead(t).Some? {
        var _ := r.Next();
        var form := ReadForm(r);
        res := if form.Ok? then Ok(List([Sym(MacroHead(t).value), form.value])) else form;
      } else {
        res := ReadAtom(r);
      }
    case None =>
      res := ReadAtom(r);
  }

  /** `readList(reader, start, end)` (lines 88-107). */
  method ReadList(r: Reader, start: string, end: string) returns (res: Result<Node>)
    requires NoCommentFrom(r.tokens, r.position + 1)
    modifies r
    ensures ListForm(r.tokens, old(r.position), start, end) == Outcome(res, r.position)
    decreases Left(r.tokens, r.position), 1
  {
    var ast: seq<Node> := [];
    var token := r.Next();
    if token != Some(start) {
      return Err(ExpectedOpen(start));
    }
    ghost var p := r.position - 1;
    while true
      invariant p < r.position && NoCommentFrom(r.tokens, r.position)
      invariant ListForm(r.tokens, p, start, end) == ListRest(r.tokens, r.position, end, ast)
      decreases Left(r.tokens, r.position)
    {
      token := r.Peek();
      if token == Some(end) {
        break;
      }
      if token.None? || token == Some("") {
        return Err(ExpectedClose(end));
      }
      var form := ReadForm(r);
      if form.Err? {
        return form;
      }
      ast := ast + [form.value];
    }
    var _ := r.Next();
    res := Ok(List(ast));
  }

  /** `readStr(str)` (lines 153-160) as a function of the source text. */
  function Read(src: string): (r: Result<Node>)
    ensures r == Err(Blank) <==> Lexer.Tokens(src) == []
    ensures r != Err(UnterminatedString)
  {
    var ts := Lexer.Tokens(src);
    if ts == [] then Err(Blank)
    else
      Lexer.TokensWellFormed(src);
      TokensAreClosed(ts);
      Form(ts, 0).result
  }

  /** `readStr` raises `BlankException` exactly when the text holds only
      separators and comments, up to its end or an unclosed literal. */
  lemma {:induction false} BlankExactlyWhenSilent(src: string)
    ensures Read(src) == Err(Blank) <==> Lexer.Silent(src, 0)
  {
    Lexer.SilentIffNoTokens(src, 0);
  }

  /** Text whose first token is `(` and that has no `)` token, such as
      `(1 (2` or `('`, reads as the end-of-tokens error of a list. */
  lemma {:induction false} ReadNoClose(src: string)
    requires Lexer.Tokens(src) != [] && Lexer.Tokens(src)[0] == "("
    requires NoCloseFrom(Lexer.Tokens(src), 0)
    ensures Read(src) == Err(ExpectedClose(")"))
  {
    var ts := Lexer.Tokens(src);
    Lexer.TokensWellFormed(src);
    TokensAreClosed(ts);
    assert NoCommentFrom(ts, 1) && NoUnclosedFrom(ts, 1) && NoCloseFrom(ts, 1);
    ListRestNoClose(ts, 1, []);
    assert Form(ts, 0) == ListForm(ts, 0, "(", ")") == ListRest(ts, 1, ")", []);
  }

  /** Tokens of the scanner's shapes never open an unclosed literal. */
  lemma {:induction false} TokensAreClosed(ts: seq<string>)
    requires forall k :: 0 <= k < |ts| ==> ts[k] != [] && ts[k][0] != ';' && Lexer.IsToken(ts[k])
    ensures NoCommentFrom(ts, 0) && NoUnclosedFrom(ts, 0)
  {
    forall k | 0 <= k < |ts|
      ensures !(ts[k][0] == '"' && !Lexer.IsClosedLiteral(ts[k]))
    {
      if ts[k][0] == '"' {
        assert !IsIdentChar(ts[k][0]);
      }
    }
  }

  /** `readStr(str)`: tokenize, refuse an empty token list, and read one form
      from a fresh reader; tokens after that form are ignored. */
  method ReadStr(src: string) returns (res: Result<Node>)
    ensures res == Read(src)
  {
    var results := Lexer.Tokenize(src, false);
    var tokens := seq(|results|, k requires 0 <= k < |results| => results[k].text);
    PlainTokens(src, results, tokens);
    if |tokens| == 0 {
      return Err(Blank);
    }
    Lexer.TokensWellFormed(src);
    TokensAreClosed(tokens);
    var reader := new Reader(tokens);
    res := ReadForm(reader);
  }

  /** The texts of the plain-mode output are `Tokens(src)`. */
  lemma {:induction false} PlainTokens(src: string, results: seq<Lexer.Output>, tokens: seq<string>)
    requires results == Lexer.Emit(Lexer.Lex(src, 0), false)
    requires |tokens| == |results| && forall k :: 0 <= k < |results| ==> tokens[k] == results[k].text
    ensures tokens == Lexer.Tokens(src)
  {
  }
}
