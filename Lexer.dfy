/** The tokenizer of reader.ts (`tokenize`, lines 27-51).

    One call of the global regular expression at line 29 is modelled by
    `SkipSeparators` (the leading `[\s,]*`) followed by `CaptureEnd` (the
    capture group, its alternatives tried in order). `Lex` is the whole scan
    as a function; `Tokenize` is the source's loop, proved to compute it. */
module Lexer {
  import opened Ast
  import opened Chars

  /** A captured token and the offset of its first character in the source. */
  datatype Lexeme = Lexeme(text: string, offset: nat)

  /** What `tokenize` pushes onto its results: the bare token, or, in
      positional mode, the token paired with its offset. */
  datatype Output = Plain(text: string) | Positioned(text: string, offset: nat)

  /** Index of the first character at or after `i` that is not `[\s,]`. */
  function SkipSeparators(s: string, i: nat): (j: nat)
    requires i <= |s|
    ensures i <= j <= |s|
    ensures j < |s| ==> !IsSeparator(s[j])
    decreases |s| - i
  {
    if i < |s| && IsSeparator(s[i]) then SkipSeparators(s, i + 1) else i
  }

  /** The body of a string literal, `(?:\\.|[^\\"])*"`, scanned from `i` (just
      after the opening quote): the index just past the closing quote, or
      `None` when the literal is not closed. A backslash takes the next
      character with it unless that is a line terminator or missing. */
  function ScanString(s: string, i: nat): (r: Option<nat>)
    ensures r.Some? ==> i < r.value <= |s| && s[r.value - 1] == '"'
    decreases |s| - i
  {
    if i >= |s| then None
    else if s[i] == '"' then Some(i + 1)
    else if s[i] == '\\' then
      if i + 1 < |s| && !IsLineTerminator(s[i + 1]) then ScanString(s, i + 2) else None
    else ScanString(s, i + 1)
  }

  /** `"(?:\\.|[^\\"])*"` matching the whole of `t`. */
  predicate IsClosedLiteral(t: string)
  {
    |t| >= 2 && t[0] == '"' && ScanString(t, 1) == Some(|t|)
  }

  /** End of `.*`: the first line terminator at or after `k`, or the end. */
  function LineEnd(s: string, k: nat): (e: nat)
    requires k <= |s|
    ensures k <= e <= |s|
    ensures e < |s| ==> IsLineTerminator(s[e])
    ensures forall m :: k <= m < e ==> !IsLineTerminator(s[m])
    decreases |s| - k
  {
    if k < |s| && !IsLineTerminator(s[k]) then LineEnd(s, k + 1) else k
  }

  /** End of the identifier run `[^\s\[\]{}('"`,;)]*` starting at `k`. */
  function IdentEnd(s: string, k: nat): (e: nat)
    requires k <= |s|
    ensures k <= e <= |s|
    ensures e < |s| ==> !IsIdentChar(s[e])
    decreases |s| - k
  {
    if k < |s| && IsIdentChar(s[k]) then IdentEnd(s, k + 1) else k
  }

  /** End of the capture group at `j`; the capture is empty (`e == j`) at the
      end of the input and at a `"` that opens no closed literal. */
  function CaptureEnd(s: string, j: nat): (e: nat)
    requires j <= |s|
    ensures j <= e <= |s|
  {
    if j == |s| then j
    else if s[j] == '~' && j + 1 < |s| && s[j + 1] == '@' then j + 2
    else if IsSpecial(s[j]) then j + 1
    else if s[j] == '"' then
      match ScanString(s, j + 1)
      case Some(e) => e
      case None => j
    else if s[j] == ';' then LineEnd(s, j + 1)
    else IdentEnd(s, j)
  }

  /** The whole scan from `i`: each step skips separators, captures, drops a
      `;` comment, and the scan stops at the first empty capture. */
  function Lex(s: string, i: nat): seq<Lexeme>
    requires i <= |s|
    decreases |s| - i
  {
    var j := SkipSeparators(s, i);
    var e := CaptureEnd(s, j);
    if e == j then []
    else if s[j] == ';' then Lex(s, e)
    else [Lexeme(s[j..e], j)] + Lex(s, e)
  }

  /** The token texts of a scan. */
  function Texts(ms: seq<Lexeme>): (ts: seq<string>)
    ensures |ts| == |ms|
    ensures forall k :: 0 <= k < |ms| ==> ts[k] == ms[k].text
  {
    if ms == [] then [] else [ms[0].text] + Texts(ms[1..])
  }

  /** The tokens of `s`, as `tokenize(s)` returns them. */
  function Tokens(s: string): seq<string>
  {
    Texts(Lex(s, 0))
  }

  /** The results array of `tokenize` for a scan, in either mode. */
  function Emit(ms: seq<Lexeme>, outputPosition: bool): (out: seq<Output>)
    ensures |out| == |ms|
    ensures forall k :: 0 <= k < |ms| ==>
      out[k] == if outputPosition then Positioned(ms[k].text, ms[k].offset) else Plain(ms[k].text)
  {
    if ms == [] then []
    else [if outputPosition then Positioned(ms[0].text, ms[0].offset) else Plain(ms[0].text)]
         + Emit(ms[1..], outputPosition)
  }

  lemma {:induction false} EmitCons(m: Lexeme, rest: seq<Lexeme>, outputPosition: bool)
    ensures Emit([m] + rest, outputPosition)
         == [if outputPosition then Positioned(m.text, m.offset) else Plain(m.text)] + Emit(rest, outputPosition)
  {
    assert ([m] + rest)[1..] == rest;
  }

  /** One step of the scan, with the capture named. */
  lemma {:induction false} LexStep(s: string, i: nat)
    requires i <= |s|
    ensures var j := SkipSeparators(s, i); var e := CaptureEnd(s, j);
      && (e == j ==> Lex(s, i) == [])
      && (e > j && s[j] == ';' ==> Lex(s, i) == Lex(s, e))
      && (e > j && s[j] != ';' ==> Lex(s, i) == [Lexeme(s[j..e], j)] + Lex(s, e))
  {
  }

  /** `tokenize(str, outputPosition)`: the `while (match = re.exec(str))` loop. */
  method Tokenize(str: string, outputPosition: bool) returns (results: seq<Output>)
    ensures results == Emit(Lex(str, 0), outputPosition)
  {
    results := [];
    var lastIndex := 0;
    assert [] + Emit(Lex(str, 0), outputPosition) == Emit(Lex(str, 0), outputPosition);
    while true
      invariant lastIndex <= |str|
      invariant Pending(str, outputPosition, results, lastIndex)
      decreases |str| - lastIndex
    {
      var start := SkipSeparators(str, lastIndex);
      var end := CaptureEnd(str, start);
      if end == start {
        TokenizeStop(str, outputPosition, results, lastIndex);
        break;
      }
      var token := str[start..end];
      var index := lastIndex;
      lastIndex := end;
      if token[0] == ';' {
        TokenizeSkip(str, outputPosition, results, index);
        continue;
      }
      var item;
      if outputPosition {
        var spaceOffset := start - index;
        item := Positioned(token, index + spaceOffset);
      } else {
        item := Plain(token);
      }
      TokenizeStep(str, outputPosition, results, index, item);
      results := results + [item];
    }
  }

  /** The loop invariant of `Tokenize`: `results` followed by the output of
      the scan from `k` is the output of the whole scan. */
  predicate Pending(str: string, outputPosition: bool, results: seq<Output>, k: nat)
  {
    k <= |str| && results + Emit(Lex(str, k), outputPosition) == Emit(Lex(str, 0), outputPosition)
  }

  /** An empty capture ends the loop with the whole output. */
  lemma {:induction false} TokenizeStop(str: string, outputPosition: bool, results: seq<Output>, index: nat)
    requires Pending(str, outputPosition, results, index)
    requires CaptureEnd(str, SkipSeparators(str, index)) == SkipSeparators(str, index)
    ensures results == Emit(Lex(str, 0), outputPosition)
  {
    LexStep(str, index);
    assert results + [] == results;
  }

  /** A comment capture is dropped. */
  lemma {:induction false} TokenizeSkip(str: string, outputPosition: bool, results: seq<Output>, index: nat)
    requires Pending(str, outputPosition, results, index)
    requires var j := SkipSeparators(str, index); CaptureEnd(str, j) > j && str[j] == ';'
    ensures Pending(str, outputPosition, results, CaptureEnd(str, SkipSeparators(str, index)))
  {
    LexStep(str, index);
  }

  /** A token capture is pushed. */
  lemma {:induction false} TokenizeStep(str: string, outputPosition: bool, results: seq<Output>, index: nat, item: Output)
    requires Pending(str, outputPosition, results, index)
    requires var j := SkipSeparators(str, index); var e := CaptureEnd(str, j);
      && e > j && str[j] != ';'
      && item == if outputPosition then Positioned(str[j..e], j) else Plain(str[j..e])
    ensures Pending(str, outputPosition, results + [item], CaptureEnd(str, SkipSeparators(str, index)))
  {
    var j := SkipSeparators(str, index);
    var e := CaptureEnd(str, j);
    LexStep(str, index);
    EmitCons(Lexeme(str[j..e], j), Lex(str, e), outputPosition);
    AppendAssoc(results, [item], Emit(Lex(str, e), outputPosition));
  }

  /** The shapes of token the scan can emit: `~@`, one special character, a
      closed string literal, or an identifier run that does not open with a
      special character. */
  predicate IsToken(t: string)
  {
    || t == "~@"
    || (|t| == 1 && IsSpecial(t[0]))
    || IsClosedLiteral(t)
    || (|t| > 0 && AllIdent(t) && !IsSpecial(t[0]))
  }

  /** Every element of `ts` has a token shape. */
  predicate AllTokens(ts: seq<string>)
  {
    ts == [] || (IsToken(ts[0]) && AllTokens(ts[1..]))
  }

  /** A literal found inside `s` is a closed literal on its own. */
  lemma {:induction false} ScanStringCut(s: string, j: nat, i: nat, e: nat)
    requires j < i <= |s| && ScanString(s, i) == Some(e)
    ensures ScanString(s[j..e], i - j) == Some(e - j)
    decreases |s| - i
  {
    var w := s[j..e];
    assert i < e;
    if s[i] == '"' {
    } else if s[i] == '\\' {
      ScanStringCut(s, j, i + 2, e);
      assert w[i - j] == s[i] && w[i - j + 1] == s[i + 1];
    } else {
      ScanStringCut(s, j, i + 1, e);
      assert w[i - j] == s[i];
    }
  }

  /** A closed literal placed inside `s` is scanned to its own closing quote. */
  lemma {:induction false} ScanStringPlaced(s: string, t: string, j: nat, i: nat)
    requires j + |t| <= |s| && s[j..j + |t|] == t
    requires i <= |t| && ScanString(t, i) == Some(|t|)
    ensures ScanString(s, j + i) == Some(j + |t|)
    decreases |t| - i
  {
    assert s[j + i] == t[i];
    if t[i] == '"' {
    } else if t[i] == '\\' {
      assert s[j + i + 1] == t[i + 1];
      ScanStringPlaced(s, t, j, i + 2);
    } else {
      ScanStringPlaced(s, t, j, i + 1);
    }
  }

  /** What one capture at `j` can be: the emitted text has one of the shapes
      of `IsToken`, and an identifier run is maximal. */
  lemma {:induction false} CaptureShape(s: string, j: nat)
    requires j < |s| && !IsSeparator(s[j]) && s[j] != ';'
    requires CaptureEnd(s, j) > j
    ensures IsToken(s[j..CaptureEnd(s, j)])
    ensures !IsSpecial(s[j]) && s[j] != '"' ==>
      CaptureEnd(s, j) == |s| || !IsIdentChar(s[CaptureEnd(s, j)])
  {
    var e := CaptureEnd(s, j);
    var t := s[j..e];
    if s[j] == '~' && j + 1 < |s| && s[j + 1] == '@' {
      assert t == "~@";
    } else if IsSpecial(s[j]) {
    } else if s[j] == '"' {
      ScanStringCut(s, j, j + 1, e);
    } else {
      IdentRun(s, j);
      assert forall k :: 0 <= k < |t| ==> t[k] == s[j + k];
    }
  }

  /** Every character of an identifier run is an identifier character. */
  lemma {:induction false} IdentRun(s: string, k: nat)
    requires k <= |s|
    ensures forall m :: k <= m < IdentEnd(s, k) ==> IsIdentChar(s[m])
    decreases |s| - k
  {
    if k < |s| && IsIdentChar(s[k]) {
      IdentRun(s, k + 1);
    }
  }

  /** The separator run from `i` ends at the first non-separator. */
  lemma {:induction false} SkipSeparatorsTo(s: string, i: nat, k: nat)
    requires i <= k <= |s|
    requires forall m :: i <= m < k ==> IsSeparator(s[m])
    requires k < |s| ==> !IsSeparator(s[k])
    ensures SkipSeparators(s, i) == k
    decreases k - i
  {
    if i < k {
      SkipSeparatorsTo(s, i + 1, k);
    }
  }

  /** Every lexeme of a scan from `i` is a non-empty slice of the source at
      its own offset, does not start with `;`, has one of the token shapes,
      and, when it is an identifier run, is not followed by another
      identifier character. */
  lemma {:induction false} LexemesInSource(s: string, i: nat)
    requires i <= |s|
    ensures forall m :: m in Lex(s, i) ==>
      && i <= m.offset && m.offset + |m.text| <= |s|
      && s[m.offset..m.offset + |m.text|] == m.text
      && m.text != [] && m.text[0] != ';'
      && IsToken(m.text)
      && (!IsSpecial(m.text[0]) && m.text[0] != '"' ==>
            m.offset + |m.text| == |s| || !IsIdentChar(s[m.offset + |m.text|]))
    decreases |s| - i
  {
    var j := SkipSeparators(s, i);
    var e := CaptureEnd(s, j);
    if e == j {
    } else if s[j] == ';' {
      LexemesInSource(s, e);
    } else {
      CaptureShape(s, j);
      LexemesInSource(s, e);
    }
  }

  /** Lexemes in source order that never overlap. */
  predicate Ordered(ms: seq<Lexeme>)
  {
    forall a, b :: 0 <= a < b < |ms| ==> ms[a].offset + |ms[a].text| <= ms[b].offset
  }

  lemma {:induction false} OrderedCons(x: Lexeme, rest: seq<Lexeme>)
    requires Ordered(rest)
    requires forall m :: m in rest ==> x.offset + |x.text| <= m.offset
    ensures Ordered([x] + rest)
  {
    var ms := [x] + rest;
    forall a, b | 0 <= a < b < |ms|
      ensures ms[a].offset + |ms[a].text| <= ms[b].offset
    {
      assert ms[b] == rest[b - 1];
      if a > 0 {
        assert ms[a] == rest[a - 1];
      }
    }
  }

  /** Lexemes are emitted in source order and never overlap, so offsets
      strictly increase. */
  lemma {:induction false} LexemesOrdered(s: string, i: nat)
    requires i <= |s|
    ensures Ordered(Lex(s, i))
    decreases |s| - i
  {
    var j := SkipSeparators(s, i);
    var e := CaptureEnd(s, j);
    LexStep(s, i);
    if e == j {
    } else if s[j] == ';' {
      LexemesOrdered(s, e);
    } else {
      LexemesOrdered(s, e);
      LexemesInSource(s, e);
      OrderedCons(Lexeme(s[j..e], j), Lex(s, e));
    }
  }

  /** No token of `Tokens(s)` is empty or starts with `;`, and each has one of
      the token shapes. */
  lemma {:induction false} TokensWellFormed(s: string)
    ensures forall k :: 0 <= k < |Tokens(s)| ==>
      Tokens(s)[k] != [] && Tokens(s)[k][0] != ';' && IsToken(Tokens(s)[k])
  {
    LexemesInSource(s, 0);
    forall k | 0 <= k < |Tokens(s)|
      ensures Tokens(s)[k] != [] && Tokens(s)[k][0] != ';' && IsToken(Tokens(s)[k])
    {
      assert Lex(s, 0)[k] in Lex(s, 0);
    }
  }

  /** An unclosed `"` after the separators ends the scan: nothing from there
      on is emitted, whatever follows. */
  lemma {:induction false} UnclosedStringEndsScan(s: string, i: nat)
    requires i <= |s|
    requires SkipSeparators(s, i) < |s| && s[SkipSeparators(s, i)] == '"'
    requires ScanString(s, SkipSeparators(s, i) + 1).None?
    ensures Lex(s, i) == []
  {
  }

  /** From `i` on, the text holds nothing the scan emits: separators and
      `;` comments, then the end of the text or a `"` that opens no closed
      literal. */
  predicate Silent(s: string, i: nat)
    requires i <= |s|
    decreases |s| - i
  {
    if i == |s| then true
    else if IsSeparator(s[i]) then Silent(s, i + 1)
    else if s[i] == ';' then Silent(s, LineEnd(s, i + 1))
    else s[i] == '"' && ScanString(s, i + 1).None?
  }

  /** A separator is skipped. */
  lemma {:induction false} LexSkipsSeparator(s: string, i: nat)
    requires i < |s| && IsSeparator(s[i])
    ensures Lex(s, i) == Lex(s, i + 1)
  {
    assert SkipSeparators(s, i) == SkipSeparators(s, i + 1);
  }

  /** A comment is dropped up to the end of its line. */
  lemma {:induction false} LexSkipsComment(s: string, i: nat)
    requires i < |s| && s[i] == ';'
    ensures Lex(s, i) == Lex(s, LineEnd(s, i + 1))
  {
    assert SkipSeparators(s, i) == i;
  }

  /** At any other character the scan emits a token, unless the character
      opens a literal that is never closed. */
  lemma {:induction false} LexAtCapture(s: string, i: nat)
    requires i < |s| && !IsSeparator(s[i]) && s[i] != ';'
    ensures Lex(s, i) == [] <==> s[i] == '"' && ScanString(s, i + 1).None?
  {
    assert SkipSeparators(s, i) == i;
    if s[i] != '"' && !IsSpecial(s[i]) {
      assert IsIdentChar(s[i]) && IdentEnd(s, i) == IdentEnd(s, i + 1);
    }
  }

  /** The scan from `i` emits no token exactly when the text from `i` is
      silent: separators and comments only, up to the end of the text or
      an unclosed literal. */
  lemma {:induction false} SilentIffNoTokens(s: string, i: nat)
    requires i <= |s|
    ensures Lex(s, i) == [] <==> Silent(s, i)
    decreases |s| - i
  {
    if i == |s| {
      assert SkipSeparators(s, i) == i;
    } else if IsSeparator(s[i]) {
      LexSkipsSeparator(s, i);
      SilentIffNoTokens(s, i + 1);
    } else if s[i] == ';' {
      LexSkipsComment(s, i);
      SilentIffNoTokens(s, LineEnd(s, i + 1));
    } else {
      LexAtCapture(s, i);
    }
  }

  /** An identifier run followed by a non-identifier character is captured
      to its end. */
  lemma {:induction false} IdentEndPlaced(s: string, t: string, j: nat, k: nat)
    requires j + |t| < |s| && s[j..j + |t|] == t && AllIdent(t) && !IsIdentChar(s[j + |t|])
    requires k <= |t|
    ensures IdentEnd(s, j + k) == j + |t|
    decreases |t| - k
  {
    if k < |t| {
      assert s[j + k] == t[k];
      IdentEndPlaced(s, t, j, k + 1);
    }
  }

  /** A token followed by a separator is captured exactly. */
  lemma {:induction false} CapturePlaced(s: string, t: string, j: nat)
    requires IsToken(t)
    requires j + |t| < |s| && s[j..j + |t|] == t && IsSeparator(s[j + |t|])
    ensures !IsSeparator(s[j]) && s[j] != ';'
    ensures CaptureEnd(s, j) == j + |t|
  {
    assert s[j] == t[0];
    if t == "~@" {
      assert s[j + 1] == '@';
    } else if |t| == 1 && IsSpecial(t[0]) {
    } else if IsClosedLiteral(t) {
      ScanStringPlaced(s, t, j, 1);
    } else {
      IdentEndPlaced(s, t, j, 0);
    }
  }

  lemma {:induction false} AppendAssoc<T>(a: seq<T>, b: seq<T>, c: seq<T>)
    ensures a + (b + c) == (a + b) + c
  {
  }

  /** Every lexeme of `ms` is a non-empty slice of `s` at its own offset. */
  predicate InSource(s: string, ms: seq<Lexeme>)
  {
    forall m :: m in ms ==>
      m.offset + |m.text| <= |s| && s[m.offset..m.offset + |m.text|] == m.text && m.text != []
  }

  lemma {:induction false} LexemesPlaced(s: string)
    ensures InSource(s, Lex(s, 0))
  {
    LexemesInSource(s, 0);
  }

  /** `out` pairs each token of `ts` with an offset where it sits in `s`. */
  predicate PlacedOutput(s: string, out: seq<Output>, ts: seq<string>)
  {
    && |out| == |ts|
    && forall k :: 0 <= k < |out| ==>
         && out[k].Positioned? && out[k].text == ts[k]
         && out[k].offset + |out[k].text| <= |s|
         && s[out[k].offset..out[k].offset + |out[k].text|] == out[k].text
  }

  /** `out` is positioned and its offsets strictly increase. */
  predicate Increasing(out: seq<Output>)
  {
    forall a, b :: 0 <= a < b < |out| ==>
      out[a].Positioned? && out[b].Positioned? && out[a].offset < out[b].offset
  }

  lemma {:induction false} EmitPlaced(s: string, ms: seq<Lexeme>)
    requires InSource(s, ms)
    ensures PlacedOutput(s, Emit(ms, true), Texts(ms))
  {
    var out := Emit(ms, true);
    forall k | 0 <= k < |out|
      ensures out[k].offset + |out[k].text| <= |s|
      ensures s[out[k].offset..out[k].offset + |out[k].text|] == out[k].text
    {
      assert ms[k] in ms;
    }
  }

  lemma {:induction false} EmitIncreasing(s: string, ms: seq<Lexeme>)
    requires InSource(s, ms) && Ordered(ms)
    ensures Increasing(Emit(ms, true))
  {
    var out := Emit(ms, true);
    forall a, b | 0 <= a < b < |out|
      ensures out[a].Positioned? && out[b].Positioned? && out[a].offset < out[b].offset
    {
      assert ms[a] in ms;
    }
  }

  /** Plain output carries the same texts. */
  lemma {:induction false} EmitPlain(ms: seq<Lexeme>)
    ensures |Emit(ms, false)| == |Texts(ms)|
    ensures forall k :: 0 <= k < |Texts(ms)| ==> Emit(ms, false)[k] == Plain(Texts(ms)[k])
  {
  }

  /** In positional mode each pair is a token of `Tokens(s)` with the offset
      where it sits in `s`, and offsets strictly increase; the plain mode
      yields the same tokens. */
  lemma {:induction false} PositionalOutput(s: string)
    ensures PlacedOutput(s, Emit(Lex(s, 0), true), Tokens(s))
    ensures Increasing(Emit(Lex(s, 0), true))
    ensures |Emit(Lex(s, 0), false)| == |Tokens(s)|
    ensures forall k :: 0 <= k < |Tokens(s)| ==> Emit(Lex(s, 0), false)[k] == Plain(Tokens(s)[k])
  {
    LexemesPlaced(s);
    LexemesOrdered(s, 0);
    EmitPlaced(s, Lex(s, 0));
    EmitIncreasing(s, Lex(s, 0));
    EmitPlain(Lex(s, 0));
  }
}
