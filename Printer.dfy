/** A printer for the reader's trees, written as the reader's partner: every
    printable tree, printed as tokens, reads back as itself whatever tokens
    follow it. The reader macros and the error paths of `readList` are
    stated over printed forms. */
module Printer {
  import opened Ast
  import opened Chars
  import opened Cursor
  import opened Atoms
  import opened Forms
  import Lexer

  // ---------------------------------------------------------------- atoms

  function DigitChar(k: nat): (c: char)
    requires k < 10
    ensures IsDigit(c) && DigitValue(c) == k
  {
    (('0' as int) + k) as char
  }

  /** The decimal digits of `n`, most significant first. */
  function Digits(n: nat): string
    decreases n
  {
    if n < 10 then [DigitChar(n)] else Digits(n / 10) + [DigitChar(n % 10)]
  }

  /** The decimal numeral of `k`, with a `-` when it is negative. */
  function DecimalString(k: int): string
  {
    if k < 0 then "-" + Digits(-k) else Digits(k)
  }

  lemma {:induction false} DigitsValueOf(n: nat)
    ensures |Digits(n)| > 0 && AllDigits(Digits(n))
    ensures DigitsValue(Digits(n)) == n
    decreases n
  {
    if n >= 10 {
      DigitsValueOf(n / 10);
      var d := Digits(n);
      assert d[..|d| - 1] == Digits(n / 10);
    }
  }

  /** A numeral is an integer token and `parseInt` gives its value back. */
  lemma {:induction false} DecimalRoundTrip(k: int)
    ensures IsIntegerToken(DecimalString(k))
    ensures ParseInt(DecimalString(k)) == k
  {
    if k < 0 {
      DigitsValueOf(-k);
      assert StripSign(DecimalString(k)) == Digits(-k);
    } else {
      DigitsValueOf(k);
      assert IsDigit(DecimalString(k)[0]);
    }
  }

  /** A character as it is written inside a string literal. */
  function EscapeChar(c: char): string
  {
    if c == '\\' then "\\\\" else if c == '"' then "\\\"" else if c == '\n' then "\\n" else [c]
  }

  function Escape(x: string): string
  {
    if x == [] then "" else EscapeChar(x[0]) + Escape(x[1..])
  }

  /** The literal that denotes the string `x`. */
  function Quoted(x: string): string
  {
    "\"" + Escape(x) + "\""
  }

  /** Unescaping undoes escaping. */
  lemma {:induction false} UnescapeEscape(x: string)
    ensures Unescape(Escape(x)) == x
  {
    if x != [] {
      var c, e := x[0], Escape(x[1..]);
      UnescapeEscape(x[1..]);
      var all := EscapeChar(c) + e;
      if c == '\\' || c == '"' || c == '\n' {
        assert all[2..] == e;
      } else {
        assert all[1..] == e;
      }
    }
  }

  /** The scan of a literal's body steps over one escaped character. */
  lemma {:induction false} ScanEscapedChar(s: string, i: nat, c: char)
    requires At(s, i, EscapeChar(c)) && i + |EscapeChar(c)| < |s|
    ensures Lexer.ScanString(s, i) == Lexer.ScanString(s, i + |EscapeChar(c)|)
  {
    var w := EscapeChar(c);
    assert s[i + 0] == w[0];
    if |w| == 2 {
      assert s[i + 1] == w[1];
    }
  }

  /** The body of an escaped literal is scanned to its closing quote. */
  lemma {:induction false} ScanEscaped(s: string, i: nat, x: string)
    requires At(s, i, Escape(x)) && i + |Escape(x)| < |s| && s[i + |Escape(x)|] == '"'
    ensures Lexer.ScanString(s, i) == Some(i + |Escape(x)| + 1)
    decreases x
  {
    if x != [] {
      var w, e := EscapeChar(x[0]), Escape(x[1..]);
      assert Escape(x) == w + e;
      SplitAt(s, i, w, e);
      ScanEscapedChar(s, i, x[0]);
      ScanEscaped(s, i + |w|, x[1..]);
    }
  }

  lemma {:induction false} QuotedIsClosed(x: string)
    ensures Lexer.IsClosedLiteral(Quoted(x))
    ensures Quoted(x)[1..|Quoted(x)| - 1] == Escape(x)
  {
    var t := Quoted(x);
    forall k | 0 <= k < |Escape(x)|
      ensures t[1 + k] == Escape(x)[k]
    {
    }
    ScanEscaped(t, 1, x);
  }

  // ---------------------------------------------------------------- trees

  /** Symbol names that read back as the same symbol: the brackets `[ ] { }`,
      which the parser passes to the atom classifier, and identifier runs
      that no earlier branch of `readForm` or `readAtom` claims. */
  predicate IsPlainSymbol(name: string)
  {
    || name == "[" || name == "]" || name == "{" || name == "}"
    || (&& |name| > 0 && AllIdent(name) && !IsSpecial(name[0]) && name != "#"
        && !IsIntegerToken(name) && !IsFloatToken(name) && name[0] != ':'
        && name != "nil" && name != "true" && name != "false")
  }

  /** Trees the printer can write so that they read back. */
  predicate Printable(n: Node)
  {
    match n
    case Float(text) => IsFloatToken(text)
    case Keyword(name) => AllIdent(name)
    case Sym(name) => IsPlainSymbol(name)
    case List(es) => AllPrintable(es)
    case Undefined => false
    case _ => true
  }

  predicate AllPrintable(es: seq<Node>)
  {
    es == [] || (Printable(es[0]) && AllPrintable(es[1..]))
  }

  /** The tokens of a tree. */
  function Print(n: Node): seq<string>
  {
    match n
    case Int(k) => [DecimalString(k)]
    case Float(text) => [text]
    case Str(x) => [Quoted(x)]
    case Keyword(name) => [":" + name]
    case Sym(name) => [name]
    case Bool(b) => [if b then "true" else "false"]
    case Nil => ["nil"]
    case List(es) => ["("] + PrintAll(es) + [")"]
    case Undefined => []
  }

  function PrintAll(es: seq<Node>): seq<string>
  {
    if es == [] then [] else Print(es[0]) + PrintAll(es[1..])
  }

  /** A float token is an identifier run and not an integer token. */
  lemma {:induction false} FloatShape(t: string)
    requires IsFloatToken(t)
    ensures |t| > 0 && AllIdent(t) && !IsSpecial(t[0]) && !IsIntegerToken(t)
    ensures t[0] == '-' || t[0] == '+' || t[0] == '.' || IsDigit(t[0])
  {
    var d := StripSign(t);
    var k := DigitRun(d, 0);
    var off := |t| - |d|;
    forall m | 0 <= m < |t|
      ensures IsIdentChar(t[m])
    {
      if m >= off {
        assert t[m] == d[m - off];
        if m - off > k {
          assert d[m - off] == d[k + 1..][m - off - k - 1];
        }
      }
    }
    assert !IsDigit(d[k]);
    if off == 0 {
      assert t[0] == d[0];
    }
  }

  /** `t` is a token that `readForm` hands to `readAtom`, which classifies
      it as `n`. */
  predicate ReadsAsAtom(t: string, n: Node)
  {
    && t != ";" && t != ")" && t != "(" && t != "#" && t != "^" && t != ""
    && MacroHead(t).None? && Lexer.IsToken(t) && ClassifyAtom(t) == Ok(n)
  }

  /** A numeral is an identifier run opening with a digit or `-`. */
  lemma {:induction false} NumeralShape(k: int)
    ensures |DecimalString(k)| > 0 && AllIdent(DecimalString(k))
    ensures DecimalString(k)[0] == '-' || IsDigit(DecimalString(k)[0])
  {
    var n: nat := if k < 0 then -k else k;
    DigitsValueOf(n);
    var t := DecimalString(k);
    forall m | 0 <= m < |t|
      ensures IsIdentChar(t[m])
    {
      if k < 0 && m > 0 {
        assert t[m] == Digits(n)[m - 1];
      }
    }
  }

  lemma {:induction false} IntReads(k: int)
    ensures ReadsAsAtom(DecimalString(k), Int(k))
  {
    DecimalRoundTrip(k);
    NumeralShape(k);
  }

  lemma {:induction false} FloatReads(text: string)
    requires IsFloatToken(text)
    ensures ReadsAsAtom(text, Float(text))
  {
    FloatShape(text);
  }

  lemma {:induction false} StrReads(x: string)
    ensures ReadsAsAtom(Quoted(x), Str(x))
  {
    var t := Quoted(x);
    QuotedIsClosed(x);
    UnescapeEscape(x);
    assert !IsDigit(t[0]) && StripSign(t) == t;
    assert DigitRun(t, 0) == 0;
  }

  lemma {:induction false} KeywordReads(name: string)
    requires AllIdent(name)
    ensures ReadsAsAtom(":" + name, Keyword(name))
  {
    var t := ":" + name;
    assert !IsDigit(t[0]) && StripSign(t) == t;
    assert DigitRun(t, 0) == 0;
    assert t[1..] == name;
    forall m | 0 <= m < |t|
      ensures IsIdentChar(t[m])
    {
      if m > 0 {
        assert t[m] == name[m - 1];
      }
    }
  }

  lemma {:induction false} SymReads(name: string)
    requires IsPlainSymbol(name)
    ensures ReadsAsAtom(name, Sym(name))
  {
    if |name| == 1 && IsSpecial(name[0]) {
      assert !IsDigit(name[0]) && StripSign(name) == name;
      assert DigitRun(name, 0) == 0;
    }
  }

  /** An identifier run opening with a lower-case letter is a token that
      none of the numeric or string branches of `readAtom` claims. */
  lemma {:induction false} LetterWord(t: string)
    requires |t| > 0 && AllIdent(t) && 'a' <= t[0] <= 'z'
    ensures Lexer.IsToken(t) && !Lexer.IsClosedLiteral(t)
    ensures !IsIntegerToken(t) && !IsFloatToken(t)
  {
    assert StripSign(t) == t && DigitRun(t, 0) == 0;
  }

  lemma {:induction false} WordReads(t: string, n: Node)
    requires (t == "nil" && n == Nil) || (t == "true" && n == Bool(true)) || (t == "false" && n == Bool(false))
    ensures ReadsAsAtom(t, n)
  {
    assert AllIdent(t) by {
      assert forall m :: 0 <= m < |t| ==> 'a' <= t[m] <= 'z';
    }
    LetterWord(t);
  }

  /** A printed atom is one token that reads back as the atom. */
  lemma {:induction false} AtomReads(n: Node)
    requires Printable(n) && !n.List?
    ensures |Print(n)| == 1 && ReadsAsAtom(Print(n)[0], n)
  {
    match n
    case Int(k) => IntReads(k);
    case Float(text) => FloatReads(text);
    case Str(x) => StrReads(x);
    case Keyword(name) => KeywordReads(name);
    case Sym(name) => SymReads(name);
    case Bool(b) => WordReads(if b then "true" else "false", n);
    case Nil => WordReads("nil", n);
  }

  // ------------------------------------------------------ printed token streams

  /** `a` is found at `q` in `ts`, element by element. */
  ghost predicate At<T>(ts: seq<T>, q: nat, a: seq<T>)
  {
    q + |a| <= |ts| && forall k :: 0 <= k < |a| ==> ts[q + k] == a[k]
  }

  /** `a + b` found at `q` in `ts`: each half where expected. */
  lemma {:induction false} SplitAt<T>(ts: seq<T>, q: nat, a: seq<T>, b: seq<T>)
    requires At(ts, q, a + b)
    ensures At(ts, q, a) && At(ts, q + |a|, b)
  {
    forall k | 0 <= k < |a|
      ensures ts[q + k] == a[k]
    {
      assert (a + b)[k] == a[k];
    }
    forall k | 0 <= k < |b|
      ensures ts[q + |a| + k] == b[k]
    {
      assert (a + b)[|a| + k] == b[k];
    }
  }

  lemma {:induction false} FirstAt<T>(ts: seq<T>, q: nat, a: seq<T>)
    requires At(ts, q, a) && a != []
    ensures q < |ts| && ts[q] == a[0]
  {
    assert ts[q + 0] == a[0];
  }

  /** The tokens of a printed tree have the scanner's shapes, none is the
      comment token, and the first is neither empty nor `)`. */
  lemma {:induction false} PrintedTokens(n: Node)
    requires Printable(n)
    ensures |Print(n)| > 0 && Print(n)[0] != ")" && Print(n)[0] != ""
    ensures forall k :: 0 <= k < |Print(n)| ==> Lexer.IsToken(Print(n)[k]) && Print(n)[k] != ";"
    decreases n
  {
    if n.List? {
      PrintedAllTokens(n.elements);
      assert Lexer.IsToken("(") && Lexer.IsToken(")");
    } else {
      AtomReads(n);
    }
  }

  lemma {:induction false} PrintedAllTokens(es: seq<Node>)
    requires AllPrintable(es)
    ensures forall k :: 0 <= k < |PrintAll(es)| ==> Lexer.IsToken(PrintAll(es)[k]) && PrintAll(es)[k] != ";"
    decreases es
  {
    if es != [] {
      PrintedTokens(es[0]);
      PrintedAllTokens(es[1..]);
    }
  }

  /** Reading the tokens of a printed tree gives the tree back and leaves
      the cursor just after them, whatever tokens follow. */
  lemma {:induction false} FormReadsPrinted(ts: seq<string>, p: nat, n: Node)
    requires Printable(n) && At(ts, p, Print(n)) && NoCommentFrom(ts, p + 1)
    ensures Form(ts, p) == Outcome(Ok(n), p + |Print(n)|)
    decreases n, 1
  {
    if n.List? {
      ListReadsPrinted(ts, p, n.elements);
    } else {
      AtomFormReads(ts, p, n);
    }
  }

  /** A printed atom is read by `readAtom` in one step. */
  lemma {:induction false} AtomFormReads(ts: seq<string>, p: nat, n: Node)
    requires Printable(n) && !n.List? && At(ts, p, Print(n)) && NoCommentFrom(ts, p + 1)
    ensures Form(ts, p) == Outcome(Ok(n), p + |Print(n)|)
  {
    AtomReads(n);
    FirstAt(ts, p, Print(n));
  }

  /** A printed list: `(`, its elements, `)`. */
  lemma {:induction false} ListReadsPrinted(ts: seq<string>, p: nat, es: seq<Node>)
    requires AllPrintable(es) && At(ts, p, Print(List(es))) && NoCommentFrom(ts, p + 1)
    ensures Form(ts, p) == Outcome(Ok(List(es)), p + |Print(List(es))|)
    decreases es, 4
  {
    var body := PrintAll(es);
    assert Print(List(es)) == ["("] + body + [")"];
    SplitAt(ts, p, ["("] + body, [")"]);
    SplitAt(ts, p, ["("], body);
    FirstAt(ts, p, ["("]);
    ListRestReadsPrinted(ts, p + 1, es, []);
    assert [] + es == es;
  }

  /** The `readList` loop of `ts` as a function of the cursor and the
      elements read so far. `ListRest` needs no comment token from the
      cursor on; where one follows, the function returns a placeholder
      (`Err(Blank)`) that is not reader behaviour and that no lemma relies
      on: every use below is at a position where `NoCommentFrom` holds. */
  function RestAt(ts: seq<string>): (nat, seq<Node>) -> Outcome
  {
    (q: nat, acc: seq<Node>) =>
      if NoCommentFrom(ts, q) then ListRest(ts, q, ")", acc) else Outcome(Err(Blank), q)
  }

  /** `n` is printed at `q` in `ts`, and no comment token follows. */
  ghost predicate Fits(ts: seq<string>, q: nat, n: Node)
  {
    Printable(n) && At(ts, q, Print(n)) && NoCommentFrom(ts, q)
  }

  /** One turn of the `readList` loop, over a printed element. */
  lemma {:induction false} ElementStep(ts: seq<string>, q: nat, n: Node, acc: seq<Node>)
    requires Fits(ts, q, n)
    ensures RestAt(ts)(q, acc) == RestAt(ts)(q + |Print(n)|, acc + [n])
    decreases n, 2
  {
    PrintedTokens(n);
    FirstAt(ts, q, Print(n));
    FormReadsPrinted(ts, q, n);
    ListRestStep(ts, q, acc, n, q + |Print(n)|);
  }

  lemma {:induction false} ListRestStep(ts: seq<string>, q: nat, acc: seq<Node>, form: Node, pos: nat)
    requires NoCommentFrom(ts, q)
    requires q < |ts| && ts[q] != ")" && ts[q] != ""
    requires Form(ts, q) == Outcome(Ok(form), pos)
    ensures RestAt(ts)(q, acc) == RestAt(ts)(pos, acc + [form])
  {
    assert NoCommentFrom(ts, pos);
  }

  /** `f` steps over every element of `es` wherever it is printed in `ts`:
      from `q` with `acc` read, it agrees with `f` past the element's tokens
      with the element appended. */
  ghost predicate StepsOver(f: (nat, seq<Node>) -> Outcome, ts: seq<string>, es: seq<Node>)
  {
    forall n, q: nat, acc :: n in es && Fits(ts, q, n) ==> f(q, acc) == f(q + |Print(n)|, acc + [n])
  }

  /** A function that steps over each printed element steps over all of
      them, in order. */
  lemma {:induction false} StepsRead(f: (nat, seq<Node>) -> Outcome, ts: seq<string>, q: nat, es: seq<Node>, acc: seq<Node>)
    requires StepsOver(f, ts, es)
    requires AllPrintable(es) && At(ts, q, PrintAll(es)) && NoCommentFrom(ts, q)
    ensures f(q, acc) == f(q + |PrintAll(es)|, acc + es)
    decreases es
  {
    if es == [] {
      assert acc + es == acc;
    } else {
      var n, a := es[0], Print(es[0]);
      SplitAt(ts, q, a, PrintAll(es[1..]));
      assert Fits(ts, q, n) && n in es;
      assert NoCommentFrom(ts, q + |a|);
      assert StepsOver(f, ts, es[1..]) by {
        assert forall m :: m in es[1..] ==> m in es;
      }
      StepsRead(f, ts, q + |a|, es[1..], acc + [n]);
      assert acc + [n] + es[1..] == acc + es;
    }
  }

  /** The `readList` loop over printed elements reads them all, in order. */
  lemma {:induction false} ElementsRead(ts: seq<string>, q: nat, es: seq<Node>, acc: seq<Node>)
    requires AllPrintable(es) && At(ts, q, PrintAll(es)) && NoCommentFrom(ts, q)
    ensures RestAt(ts)(q, acc) == RestAt(ts)(q + |PrintAll(es)|, acc + es)
    decreases es, 2
  {
    forall n, q': nat, acc' | n in es && Fits(ts, q', n)
      ensures RestAt(ts)(q', acc') == RestAt(ts)(q' + |Print(n)|, acc' + [n])
    {
      ElementStep(ts, q', n, acc');
    }
    StepsRead(RestAt(ts), ts, q, es, acc);
  }

  /** The `readList` loop over printed elements and a closing `)` appends
      the elements, in order, to what it has read so far. */
  lemma {:induction false} ListRestReadsPrinted(ts: seq<string>, q: nat, es: seq<Node>, acc: seq<Node>)
    requires AllPrintable(es) && At(ts, q, PrintAll(es)) && At(ts, q + |PrintAll(es)|, [")"])
    requires NoCommentFrom(ts, q)
    ensures ListRest(ts, q, ")", acc) == Outcome(Ok(List(acc + es)), q + |PrintAll(es)| + 1)
    decreases es, 3
  {
    ElementsRead(ts, q, es, acc);
    FirstAt(ts, q + |PrintAll(es)|, [")"]);
    assert RestAt(ts)(q, acc) == ListRest(ts, q, ")", acc);
    assert NoCommentFrom(ts, q + |PrintAll(es)|);
  }

  /** The `readList` loop over printed elements with no `)` after them fails
      with `[READ] expected ')', got EOF`. */
  lemma {:induction false} ListRestRunsOut(ts: seq<string>, q: nat, es: seq<Node>, acc: seq<Node>)
    requires AllPrintable(es) && At(ts, q, PrintAll(es)) && q + |PrintAll(es)| == |ts|
    requires NoCommentFrom(ts, q)
    ensures ListRest(ts, q, ")", acc) == Outcome(Err(ExpectedClose(")")), |ts|)
  {
    ElementsRead(ts, q, es, acc);
    assert RestAt(ts)(q, acc) == ListRest(ts, q, ")", acc);
    assert NoCommentFrom(ts, |ts|);
  }

  /** A list whose tokens end before its `)` is an error. */
  lemma {:induction false} UnclosedListFails(es: seq<Node>)
    requires AllPrintable(es)
    ensures NoCommentFrom(["("] + PrintAll(es), 1)
    ensures Form(["("] + PrintAll(es), 0).result == Err(ExpectedClose(")"))
  {
    var ts := ["("] + PrintAll(es);
    PrintedAllTokens(es);
    SplitAt(ts, 0, ["("], PrintAll(es));
    ListRestRunsOut(ts, 1, es, []);
  }

  /** `'`, `` ` ``, `~`, `~@` and `@` read one more form and wrap it as
      `[head, form]`. */
  lemma {:induction false} MacroReadsPrinted(ts: seq<string>, p: nat, n: Node)
    requires p < |ts| && MacroHead(ts[p]).Some?
    requires Printable(n) && At(ts, p + 1, Print(n)) && NoCommentFrom(ts, p + 1)
    ensures Form(ts, p) == Outcome(Ok(List([Sym(MacroHead(ts[p]).value), n])), p + 1 + |Print(n)|)
  {
    FormReadsPrinted(ts, p + 1, n);
  }

  /** `#` reads one more form `f` and yields `[fn, [], f]`. */
  lemma {:induction false} FnReadsPrinted(ts: seq<string>, p: nat, n: Node)
    requires p < |ts| && ts[p] == "#"
    requires Printable(n) && At(ts, p + 1, Print(n)) && NoCommentFrom(ts, p + 1)
    ensures Form(ts, p) == Outcome(Ok(List([Sym("fn"), List([]), n])), p + 1 + |Print(n)|)
  {
    FormReadsPrinted(ts, p + 1, n);
  }

  /** `^` reads the metadata first and the target second, and yields
      `[with-meta, target, metadata]`: the form read first comes last. */
  lemma {:induction false} MetaReadsPrinted(ts: seq<string>, p: nat, meta: Node, target: Node)
    requires p < |ts| && ts[p] == "^"
    requires Printable(meta) && At(ts, p + 1, Print(meta))
    requires Printable(target) && At(ts, p + 1 + |Print(meta)|, Print(target))
    requires NoCommentFrom(ts, p + 1)
    ensures Form(ts, p) == Outcome(Ok(List([Sym("with-meta"), target, meta])),
                                   p + 1 + |Print(meta)| + |Print(target)|)
  {
    var q := p + 1 + |Print(meta)|;
    var r := q + |Print(target)|;
    assert Form(ts, p + 1) == Outcome(Ok(meta), q) by {
      FormReadsPrinted(ts, p + 1, meta);
    }
    assert Form(ts, q) == Outcome(Ok(target), r) by {
      FormReadsPrinted(ts, q, target);
    }
    MetaStep(ts, p, meta, q, target, r);
  }
}
