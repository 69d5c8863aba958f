/** The atom classifier of reader.ts (`readAtom`, lines 53-85): the regular
    expressions of lines 57, 60 and 63, the unescaping `replace` of line 67,
    and the first-match order of the branches. */
module Atoms {
  import opened Ast
  import opened Chars
  import Lexer

  /** The token without its optional leading `-` or `+` (`[-+]?`). */
  function StripSign(t: string): string
  {
    if |t| > 0 && (t[0] == '-' || t[0] == '+') then t[1..] else t
  }

  /** `/^[-+]?[0-9]+$/` (line 57). */
  predicate IsIntegerToken(t: string)
  {
    var d := StripSign(t);
    |d| > 0 && AllDigits(d)
  }

  /** End of the run of decimal digits starting at `k`. */
  function DigitRun(d: string, k: nat): (e: nat)
    requires k <= |d|
    ensures k <= e <= |d|
    ensures e < |d| ==> !IsDigit(d[e])
    ensures forall m :: k <= m < e ==> IsDigit(d[m])
    decreases |d| - k
  {
    if k < |d| && IsDigit(d[k]) then DigitRun(d, k + 1) else k
  }

  /** `/^[-+]?([0-9]*\.[0-9]+|[0-9]+)$/` (line 60) without its second
      alternative, which only integer tokens match and those are taken by
      the integer branch first: optional sign, digits, a dot, and at least
      one digit after it. */
  predicate IsFloatToken(t: string)
  {
    var d := StripSign(t);
    var k := DigitRun(d, 0);
    k + 1 < |d| && d[k] == '.' && AllDigits(d[k + 1..])
  }

  function DigitValue(c: char): nat
    requires IsDigit(c)
  {
    (c as int) - ('0' as int)
  }

  /** The base-10 value of a run of digits. */
  function DigitsValue(d: string): nat
    requires AllDigits(d)
    decreases |d|
  {
    if d == [] then 0 else DigitsValue(d[..|d| - 1]) * 10 + DigitValue(d[|d| - 1])
  }

  /** A run of digits has the value zero exactly when every digit is `0`. */
  lemma {:induction false} DigitsValueZero(d: string)
    requires AllDigits(d)
    ensures DigitsValue(d) == 0 <==> forall k :: 0 <= k < |d| ==> d[k] == '0'
    decreases |d|
  {
    if d != [] {
      var init := d[..|d| - 1];
      DigitsValueZero(init);
      assert forall k :: 0 <= k < |init| ==> init[k] == d[k];
    }
  }

  /** `parseInt(token, 10)` on an integer token, as an unbounded integer. */
  function ParseInt(t: string): (v: int)
    requires IsIntegerToken(t)
    ensures v < 0 ==> t[0] == '-'
    ensures v == 0 <==> forall k :: 0 <= k < |StripSign(t)| ==> StripSign(t)[k] == '0'
  {
    DigitsValueZero(StripSign(t));
    var v: int := DigitsValue(StripSign(t));
    if t[0] == '-' then -v else v
  }

  /** The `replace(/\\(.)/g, …)` of line 67: left to right, each backslash
      and the character after it (when that is not a line terminator) become
      a newline if the character is `n` and the character itself otherwise;
      every other character is kept. */
  function Unescape(b: string): (u: string)
    ensures |u| <= |b|
    ensures (forall k :: 0 <= k < |b| ==> b[k] != '\\') ==> u == b
    decreases |b|
  {
    if |b| == 0 then ""
    else if b[0] == '\\' && |b| >= 2 && !IsLineTerminator(b[1]) then
      [if b[1] == 'n' then '\n' else b[1]] + Unescape(b[2..])
    else [b[0]] + Unescape(b[1..])
  }

  /** An escaped character other than `n` loses its backslash (`\t` is `t`). */
  lemma {:induction false} UnescapeOther(c: char, rest: string)
    requires c != 'n' && !IsLineTerminator(c)
    ensures Unescape(['\\', c] + rest) == [c] + Unescape(rest)
  {
  }

  /** An escaped `n` is a newline. */
  lemma {:induction false} UnescapeNewline(rest: string)
    ensures Unescape(['\\', 'n'] + rest) == ['\n'] + Unescape(rest)
  {
  }

  /** A backslash before a line terminator, or at the end, is kept: `.` does
      not match there. */
  lemma {:induction false} UnescapeUnmatched(b: string)
    requires |b| > 0 && b[0] == '\\' && (|b| == 1 || IsLineTerminator(b[1]))
    ensures Unescape(b) == ['\\'] + Unescape(b[1..])
  {
  }

  /** `readAtom` on a string token: the branches of lines 57-81 in order. */
  function ClassifyAtom(t: string): (r: Result<Node>)
    ensures r.Err? <==> |t| > 0 && t[0] == '"' && !Lexer.IsClosedLiteral(t)
    ensures r.Err? ==> r.error == UnterminatedString
  {
    if IsIntegerToken(t) then Ok(Int(ParseInt(t)))
    else if IsFloatToken(t) then Ok(Float(t))
    else if Lexer.IsClosedLiteral(t) then Ok(Str(Unescape(t[1..|t| - 1])))
    else if |t| > 0 && t[0] == '"' then Err(UnterminatedString)
    else if |t| > 0 && t[0] == ':' then Ok(Keyword(t[1..]))
    else if t == "nil" then Ok(Nil)
    else if t == "true" then Ok(Bool(true))
    else if t == "false" then Ok(Bool(false))
    else Ok(Sym(t))
  }

  /** The branches of `readAtom` in order: what each kind of token becomes. */
  lemma {:induction false} ClassifyAtomCases(t: string, r: Result<Node>)
    requires r == ClassifyAtom(t)
    ensures r.Ok? && r.value.Int? <==> IsIntegerToken(t)
    ensures r.Ok? && r.value.Int? ==> r.value.number == ParseInt(t)
    ensures r.Ok? && r.value.Float? <==> IsFloatToken(t) && !IsIntegerToken(t)
    ensures r.Ok? && r.value.Float? ==> r.value.text == t
    ensures r.Ok? && r.value.Str? <==> Lexer.IsClosedLiteral(t)
    ensures r.Ok? && r.value.Str? ==> r.value.chars == Unescape(t[1..|t| - 1])
    ensures r.Ok? && r.value.Keyword? <==> |t| > 0 && t[0] == ':'
    ensures r.Ok? && r.value.Keyword? ==> r.value.name == t[1..]
    ensures r == Ok(Nil) <==> t == "nil"
    ensures r.Ok? && r.value.Bool? <==> t == "true" || t == "false"
    ensures r.Ok? && r.value.Bool? ==> r.value.truth == (t == "true")
    ensures r.Ok? && r.value.Sym? ==> r.value.name == t
    ensures r.Ok? && (r.value.List? || r.value.Undefined?) ==> false
  {
  }

  /** A closed literal without a backslash reads as its interior. */
  lemma {:induction false} PlainLiteralReads(t: string)
    requires Lexer.IsClosedLiteral(t)
    requires forall k :: 0 <= k < |t| ==> t[k] != '\\'
    ensures ClassifyAtom(t) == Ok(Str(t[1..|t| - 1]))
  {
    assert StripSign(t) == t && DigitRun(t, 0) == 0 && !IsDigit(t[0]);
    var b := t[1..|t| - 1];
    assert forall k :: 0 <= k < |b| ==> b[k] == t[k + 1];
  }

  /** `readAtom` on what `next` returned: a string token is classified, and a
      read past the end passes `undefined` through. */
  function Atom(token: Option<string>): (r: Result<Node>)
    ensures r == Ok(Undefined) <==> token.None?
  {
    match token
    case None => Ok(Undefined)
    case Some(t) => ClassifyAtom(t)
  }
}
